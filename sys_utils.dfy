/**
 * `GetListDifference` of the gpservice utilities: the entries of one list that are absent from
 * another, kept in their order and with their repeats.
 */
module SysUtils {

  /** The elements of a, in order and with their repeats, that do not occur in b. */
  function Difference(a: seq<string>, b: seq<string>): seq<string>
  {
    if |a| == 0 then [] else Difference(a[..|a| - 1], b) + (if a[|a| - 1] in b then [] else [a[|a| - 1]])
  }

  /**
   * GetListDifference: first records every entry of listB in a map, then walks listA and keeps
   * the entries the map lacks.
   */
  method GetListDifference(listA: seq<string>, listB: seq<string>) returns (result: seq<string>)
    ensures result == Difference(listA, listB)
    ensures forall x :: x in result <==> x in listA && x !in listB
    ensures forall x :: multiset(result)[x] == if x in listB then 0 else multiset(listA)[x]
  {
    result := [];
    var m: map<string, bool> := map[];
    for i := 0 to |listB|
      invariant forall x :: x in m <==> x in listB[..i]
    {
      m := m[listB[i] := true];
    }
    assert listB[..|listB|] == listB;
    for j := 0 to |listA|
      invariant result == Difference(listA[..j], listB)
    {
      assert listA[..j + 1][..j] == listA[..j];
      if listA[j] !in m {
        result := result + [listA[j]];
      }
    }
    assert listA[..|listA|] == listA;
    DifferenceMembers(listA, listB);
    DifferenceCounts(listA, listB);
  }

  /** An element is in the difference exactly when it is in a and not in b. */
  lemma {:induction false} DifferenceMembers(a: seq<string>, b: seq<string>)
    ensures forall x :: x in Difference(a, b) <==> x in a && x !in b
  {
    if |a| > 0 {
      DifferenceMembers(a[..|a| - 1], b);
      assert a == a[..|a| - 1] + [a[|a| - 1]];
    }
  }

  /** Each element not in b occurs in the difference as often as in a; the others not at all. */
  lemma {:induction false} DifferenceCounts(a: seq<string>, b: seq<string>)
    ensures forall x :: multiset(Difference(a, b))[x] == if x in b then 0 else multiset(a)[x]
  {
    if |a| > 0 {
      DifferenceCounts(a[..|a| - 1], b);
      assert a == a[..|a| - 1] + [a[|a| - 1]];
    }
  }

  /** The difference of a concatenation is the concatenation of the differences: a's order is kept. */
  lemma {:induction false} DifferenceAppend(a1: seq<string>, a2: seq<string>, b: seq<string>)
    ensures Difference(a1 + a2, b) == Difference(a1, b) + Difference(a2, b)
  {
    if |a2| > 0 {
      DifferenceAppend(a1, a2[..|a2| - 1], b);
      assert (a1 + a2)[..|a1 + a2| - 1] == a1 + a2[..|a2| - 1];
    } else {
      assert a1 + a2 == a1;
    }
  }

  /** With nothing to remove the difference is a itself. */
  lemma {:induction false} DifferenceOfEmpty(a: seq<string>)
    ensures Difference(a, []) == a
  {
    if |a| > 0 {
      DifferenceOfEmpty(a[..|a| - 1]);
      assert a == a[..|a| - 1] + [a[|a| - 1]];
    }
  }

  /** An entry of a that b lists is dropped. */
  lemma DifferenceDropsListed(a: seq<string>, b: seq<string>)
    requires forall x :: x in a ==> x in b
    ensures Difference(a, b) == []
  {
    DifferenceMembers(a, b);
    if Difference(a, b) != [] {
      assert Difference(a, b)[0] in Difference(a, b);
    }
  }
}
