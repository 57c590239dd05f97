/**
 * The expansion of a host list and per-host data directories into the segment-pair array of a
 * cluster (`ExpandSegPairArray` and the six `Expand*` helpers of the init command): one primary
 * per host and directory, and optionally one mirror per primary placed by group or spread
 * mirroring, for hosts with a single address or for hosts with several addresses (multi-home).
 *
 * Each `Expand*` helper takes the segment-pair slice and returns it grown or updated; here it
 * takes the list as a value and returns the new one. The k-th segment of every expansion is given
 * in closed form (host k / |dirs|, directory k % |dirs|) by a function next to the method, and
 * the method's loop is proved to produce exactly that.
 */
module SegmentExpansion {
  import opened Wrappers
  import opened GoStrings
  import opened StringOrder
  import opened InitTypes

  /* ---------- Row-major arithmetic ---------- */

  /*
   * Segment k of an expansion belongs to row k / d (its host) and column k % d (its directory).
   * Row and Col compute these by repeated subtraction and RowStart(i, d) = i * d by repeated
   * addition, so the loops over hosts and directories are proved with linear arithmetic only;
   * RowColIsDivMod and RowStartIsProduct connect them to `/`, `%` and `*`.
   */

  lemma MulMonotone(a: nat, b: nat, d: nat)
    requires a <= b
    ensures a * d <= b * d
  {
    assert b * d == a * d + (b - a) * d;
  }

  /** Euclidean division is determined by any quotient and remainder that fit. */
  lemma DivModUnique(x: int, d: int, q: int, r: int)
    requires 0 <= r < d && x == q * d + r
    ensures x / d == q && x % d == r
  {
    var q', r' := x / d, x % d;
    assert (q - q') * d == r' - r;
    if q > q' {
      MulMonotone(1, q - q', d);
    } else if q < q' {
      MulMonotone(1, q' - q, d);
    }
  }

  /** The index of the first cell of row i in a grid whose rows have d cells. */
  function RowStart(i: nat, d: nat): nat
  {
    if i == 0 then 0 else RowStart(i - 1, d) + d
  }

  function Row(k: nat, d: nat): nat
    requires d > 0
  {
    if k < d then 0 else Row(k - d, d) + 1
  }

  function Col(k: nat, d: nat): nat
    requires d > 0
  {
    if k < d then k else Col(k - d, d)
  }

  lemma {:induction false} RowStartIsProduct(i: nat, d: nat)
    ensures RowStart(i, d) == i * d
  {
    if i > 0 {
      RowStartIsProduct(i - 1, d);
    }
  }

  lemma {:induction false} RowStartMonotone(i: nat, n: nat, d: nat)
    requires i <= n
    ensures RowStart(i, d) <= RowStart(n, d)
  {
    if i < n {
      RowStartMonotone(i, n - 1, d);
    }
  }

  /** Cell j of row i is found again as row i, column j. */
  lemma {:induction false} RowColOfCell(i: nat, j: nat, d: nat)
    requires j < d
    ensures Row(RowStart(i, d) + j, d) == i && Col(RowStart(i, d) + j, d) == j
  {
    if i > 0 {
      RowColOfCell(i - 1, j, d);
      assert RowStart(i, d) + j - d == RowStart(i - 1, d) + j;
    }
  }

  /** Every index below n rows of d cells is cell Col(k, d) of a row Row(k, d) below n. */
  lemma {:induction false} GridCell(k: nat, n: nat, d: nat)
    requires k < RowStart(n, d)
    ensures d > 0 && Row(k, d) < n && Col(k, d) < d
    ensures k == RowStart(Row(k, d), d) + Col(k, d)
  {
    if k < RowStart(n - 1, d) {
      GridCell(k, n - 1, d);
    } else {
      RowColOfCell(n - 1, k - RowStart(n - 1, d), d);
    }
  }

  /** Row and Col are the quotient and remainder of Euclidean division. */
  lemma RowColIsDivMod(k: nat, d: nat)
    requires d > 0
    ensures Row(k, d) == k / d && Col(k, d) == k % d
  {
    RowStartIsProduct(k + 1, d);
    MulMonotone(1, d, k + 1);
    GridCell(k, k + 1, d);
    RowStartIsProduct(Row(k, d), d);
    DivModUnique(k, d, Row(k, d), Col(k, d));
  }

  /** An index below n * d is a cell of the n-by-d grid. */
  lemma InGrid(k: nat, n: nat, d: nat)
    requires k < n * d
    ensures d > 0 && Row(k, d) < n && Col(k, d) < d
    ensures k == RowStart(Row(k, d), d) + Col(k, d)
  {
    RowStartIsProduct(n, d);
    GridCell(k, n, d);
  }

  /** Cell (i, j) of an n-by-d grid lies below n * d. */
  lemma CellInGrid(i: nat, j: nat, n: nat, d: nat)
    requires i < n && j < d
    ensures RowStart(i, d) + j < n * d
    ensures Row(RowStart(i, d) + j, d) == i && Col(RowStart(i, d) + j, d) == j
  {
    RowStartMonotone(i + 1, n, d);
    RowStartIsProduct(n, d);
    RowColOfCell(i, j, d);
  }

  /** Advancing an index modulo n: reducing before or after adding one gives the same. */
  lemma ModStep(a: nat, n: nat)
    requires n > 0
    ensures (a % n + 1) % n == (a + 1) % n
  {
    var q, r := a / n, a % n;
    if r + 1 < n {
      DivModUnique(a + 1, n, q, r + 1);
      DivModUnique(r + 1, n, 0, r + 1);
    } else {
      DivModUnique(a + 1, n, q + 1, 0);
      DivModUnique(r + 1, n, 1, 0);
    }
  }

  /** Moving s places round a ring of n, with 0 < s < n, never lands where it started. */
  lemma ModShiftMoves(i: nat, s: nat, n: nat)
    requires i < n && 0 < s < n
    ensures (i + s) % n != i
  {
    if i + s < n {
      DivModUnique(i + s, n, 0, i + s);
    } else {
      DivModUnique(i + s, n, 1, i + s - n);
    }
  }

  /* ---------- Data directories ---------- */

  /**
   * `filepath.Join(directory, fmt.Sprintf("%s%d", DEFAULT_SEG_NAME, segNum))`; the lexical
   * cleaning that Join applies to `directory` is not modelled.
   */
  function SegmentDataDirectory(directory: string, segNum: nat): string
  {
    (if directory == "" then "" else directory + "/") + DEFAULT_SEG_NAME + Itoa(segNum)
  }

  /** Two strings ending in a non-digit followed by digits agree on those digits when they are equal. */
  lemma DigitTailsAgree(p1: string, d1: string, p2: string, d2: string)
    requires |p1| > 0 && !IsDigit(p1[|p1| - 1]) && AllDigits(d1)
    requires |p2| > 0 && !IsDigit(p2[|p2| - 1]) && AllDigits(d2)
    requires p1 + d1 == p2 + d2
    ensures d1 == d2
  {
    var s := p1 + d1;
    assert d1 == s[|p1|..];
    assert d2 == s[|p2|..];
  }

  /** Segments with different numbers never share a data directory, whatever the base directories. */
  lemma SegmentDataDirectoryDistinct(dir1: string, k1: nat, dir2: string, k2: nat)
    requires k1 != k2
    ensures SegmentDataDirectory(dir1, k1) != SegmentDataDirectory(dir2, k2)
  {
    var p1 := (if dir1 == "" then "" else dir1 + "/") + DEFAULT_SEG_NAME;
    var p2 := (if dir2 == "" then "" else dir2 + "/") + DEFAULT_SEG_NAME;
    assert p1[|p1| - 1] == 'g' && p2[|p2| - 1] == 'g';
    if SegmentDataDirectory(dir1, k1) == SegmentDataDirectory(dir2, k2) {
      assert p1 + Digits(k1) == SegmentDataDirectory(dir1, k1);
      assert p2 + Digits(k2) == SegmentDataDirectory(dir2, k2);
      DigitsAreDigits(k1);
      DigitsAreDigits(k2);
      DigitTailsAgree(p1, Digits(k1), p2, Digits(k2));
      DigitsInjective(k1, k2);
    }
  }

  /* ---------- Where each segment goes ---------- */

  /**
   * The hosts an expansion runs over: a list of host addresses, each with the host name it
   * resolved to, or (multi-home) a list of host names, each with its addresses.
   */
  datatype Hosts =
    | SingleAddress(hostList: seq<string>, addressNameMap: map<string, string>)
    | MultiHome(hostnames: seq<string>, nameAddressMap: map<string, seq<string>>)
  {
    function Count(): nat
    {
      if SingleAddress? then |hostList| else |hostnames|
    }
  }

  /** Which of the six loops: the primaries, or the mirrors laid out by group or by spread. */
  datatype Placement = Primaries | GroupMirrors | SpreadMirrors

  /** A Go map lookup of a host's addresses: nil, of length 0, for a missing host. */
  function AddressesOf(nameAddressMap: map<string, seq<string>>, hostname: string): seq<string>
  {
    if hostname in nameAddressMap then nameAddressMap[hostname] else []
  }

  /**
   * The expansion does not divide by zero: with at least one directory, every host name of a
   * multi-home layout has an address (the source takes an index modulo the address count).
   */
  predicate Expandable(hosts: Hosts, dirCount: nat)
  {
    hosts.MultiHome? && dirCount > 0 ==>
      forall i :: 0 <= i < |hosts.hostnames| ==> |AddressesOf(hosts.nameAddressMap, hosts.hostnames[i])| > 0
  }

  /**
   * The host that gets segment j of host i: host i itself for a primary, host i + 1 for a group
   * mirror, and host i + 1 + j for a spread mirror, all cyclically; a multi-home spread mirror
   * that would land on host i moves on one more host.
   */
  function HostIndex(hosts: Hosts, placement: Placement, i: nat, j: nat): (h: nat)
    requires i < hosts.Count()
    ensures h < hosts.Count()
  {
    var n := hosts.Count();
    match placement
    case Primaries => i
    case GroupMirrors => (i + 1) % n
    case SpreadMirrors =>
      var next := (i + j + 1) % n;
      if hosts.MultiHome? && next == i then (next + 1) % n else next
  }

  /**
   * Segment j of host i: on the chosen host (for a multi-home host, on one of its addresses,
   * taken round-robin), with port basePort + j, in directory j, numbered i * |dirs| + j.
   */
  function Cell(hosts: Hosts, placement: Placement, basePort: int, dirs: seq<string>, i: nat, j: nat): (s: Segment)
    requires Expandable(hosts, |dirs|)
    requires i < hosts.Count() && j < |dirs|
    ensures s.port == basePort + j
    ensures s.dataDirectory == SegmentDataDirectory(dirs[j], RowStart(i, |dirs|) + j)
    ensures hosts.SingleAddress? ==> s.address == hosts.hostList[HostIndex(hosts, placement, i, j)]
    ensures hosts.MultiHome? ==> s.hostname == hosts.hostnames[HostIndex(hosts, placement, i, j)]
    ensures hosts.MultiHome? ==> s.address in AddressesOf(hosts.nameAddressMap, s.hostname)
  {
    var h := HostIndex(hosts, placement, i, j);
    var directory := SegmentDataDirectory(dirs[j], RowStart(i, |dirs|) + j);
    match hosts
    case SingleAddress(hostList, addressNameMap) =>
      Segment(Lookup(addressNameMap, hostList[h]), hostList[h], basePort + j, directory)
    case MultiHome(hostnames, nameAddressMap) =>
      var addressList := AddressesOf(nameAddressMap, hostnames[h]);
      var a := if placement.SpreadMirrors? then (i + j) % |addressList| else j % |addressList|;
      Segment(hostnames[h], addressList[a], basePort + j, directory)
  }

  /**
   * The segments of the first i hosts and the first j of host i, in the order the loops make
   * them: host by host, directory by directory.
   */
  function Cells(hosts: Hosts, placement: Placement, basePort: int, dirs: seq<string>, i: nat, j: nat): (c: seq<Segment>)
    requires Expandable(hosts, |dirs|)
    requires i <= hosts.Count() && j <= |dirs| && (j > 0 ==> i < hosts.Count())
    ensures |c| == RowStart(i, |dirs|) + j
    decreases i, j
  {
    if j > 0 then Cells(hosts, placement, basePort, dirs, i, j - 1) + [Cell(hosts, placement, basePort, dirs, i, j - 1)]
    else if i > 0 then Cells(hosts, placement, basePort, dirs, i - 1, |dirs|)
    else []
  }

  /** All segments of an expansion: one per host and directory. */
  function Expansion(hosts: Hosts, placement: Placement, basePort: int, dirs: seq<string>): (e: seq<Segment>)
    requires Expandable(hosts, |dirs|)
    ensures |e| == hosts.Count() * |dirs|
  {
    RowStartIsProduct(hosts.Count(), |dirs|);
    Cells(hosts, placement, basePort, dirs, hosts.Count(), 0)
  }

  /** Segment j' of host i' sits at index i' * |dirs| + j' of the cells made so far. */
  lemma {:induction false} CellsAt(hosts: Hosts, placement: Placement, basePort: int, dirs: seq<string>,
                                   i: nat, j: nat, i': nat, j': nat)
    requires Expandable(hosts, |dirs|)
    requires i <= hosts.Count() && j <= |dirs| && (j > 0 ==> i < hosts.Count())
    requires i' < hosts.Count() && j' < |dirs| && RowStart(i', |dirs|) + j' < RowStart(i, |dirs|) + j
    ensures Cells(hosts, placement, basePort, dirs, i, j)[RowStart(i', |dirs|) + j'] == Cell(hosts, placement, basePort, dirs, i', j')
    decreases i, j
  {
    var d := |dirs|;
    var k := RowStart(i', d) + j';
    if j > 0 {
      var prev := Cells(hosts, placement, basePort, dirs, i, j - 1);
      assert Cells(hosts, placement, basePort, dirs, i, j) == prev + [Cell(hosts, placement, basePort, dirs, i, j - 1)];
      if k == |prev| {
        CellPosition(i', j', i, j - 1, d);
        assert Cell(hosts, placement, basePort, dirs, i', j') == Cell(hosts, placement, basePort, dirs, i, j - 1);
      } else {
        CellsAt(hosts, placement, basePort, dirs, i, j - 1, i', j');
        assert (prev + [Cell(hosts, placement, basePort, dirs, i, j - 1)])[k] == prev[k];
      }
    } else if i > 0 {
      assert Cells(hosts, placement, basePort, dirs, i, j) == Cells(hosts, placement, basePort, dirs, i - 1, d);
      CellsAt(hosts, placement, basePort, dirs, i - 1, d, i', j');
    }
  }

  /** Two cells of a grid with d columns at the same position are the same cell. */
  lemma CellPosition(i1: nat, j1: nat, i2: nat, j2: nat, d: nat)
    requires j1 < d && j2 < d && RowStart(i1, d) + j1 == RowStart(i2, d) + j2
    ensures i1 == i2 && j1 == j2
  {
    RowColOfCell(i1, j1, d);
    RowColOfCell(i2, j2, d);
  }

  /** An expansion has one segment per host and directory, segment j of host i at i * |dirs| + j. */
  lemma ExpansionAt(hosts: Hosts, placement: Placement, basePort: int, dirs: seq<string>, i: nat, j: nat)
    requires Expandable(hosts, |dirs|)
    requires i < hosts.Count() && j < |dirs|
    ensures RowStart(i, |dirs|) + j < |Expansion(hosts, placement, basePort, dirs)|
    ensures Expansion(hosts, placement, basePort, dirs)[RowStart(i, |dirs|) + j] == Cell(hosts, placement, basePort, dirs, i, j)
  {
    RowStartIsProduct(hosts.Count(), |dirs|);
    CellInGrid(i, j, hosts.Count(), |dirs|);
    CellsAt(hosts, placement, basePort, dirs, hosts.Count(), 0, i, j);
  }

  /* ---------- Where the mirrors land ---------- */

  /** No host appears twice in the list. */
  predicate Distinct(s: seq<string>)
  {
    forall a, b :: 0 <= a < b < |s| ==> s[a] != s[b]
  }

  /** The hosts of an expansion are all different: true of multi-home host names, which are map keys. */
  predicate DistinctHosts(hosts: Hosts)
  {
    if hosts.SingleAddress? then Distinct(hosts.hostList) else Distinct(hosts.hostnames)
  }

  /** With at least two hosts, a group mirror is never on its primary's host. */
  lemma GroupMirrorMoves(hosts: Hosts, i: nat, j: nat)
    requires i < hosts.Count() && hosts.Count() >= 2
    ensures HostIndex(hosts, GroupMirrors, i, j) != i
  {
    ModShiftMoves(i, 1, hosts.Count());
  }

  /** A single-address spread mirror of directory j is off its primary's host exactly when j + 1 is not a whole turn of the ring. */
  lemma SingleAddressSpreadMoves(hosts: Hosts, i: nat, j: nat)
    requires hosts.SingleAddress? && i < hosts.Count()
    ensures HostIndex(hosts, SpreadMirrors, i, j) != i <==> (j + 1) % hosts.Count() != 0
  {
    var n := hosts.Count();
    var q, r := (j + 1) / n, (j + 1) % n;
    if r == 0 {
      DivModUnique(i + j + 1, n, q, i);
    } else {
      var t := i + r;
      if t < n {
        DivModUnique(i + j + 1, n, q, t);
      } else {
        DivModUnique(i + j + 1, n, q + 1, t - n);
      }
    }
  }

  /** The skip past host i keeps a multi-home spread mirror off its primary's host whenever there are two hosts. */
  lemma MultiHomeSpreadMoves(hosts: Hosts, i: nat, j: nat)
    requires hosts.MultiHome? && i < hosts.Count() && hosts.Count() >= 2
    ensures HostIndex(hosts, SpreadMirrors, i, j) != i
  {
    ModShiftMoves(i, 1, hosts.Count());
  }

  /**
   * The conditions the validation of the configuration enforces before an expansion: at least
   * two hosts for group mirroring or multi-home spread mirroring, and fewer directories than
   * hosts for single-address spread mirroring.
   */
  predicate MirrorsMove(hosts: Hosts, placement: Placement, dirCount: nat)
  {
    match placement
    case Primaries => false
    case GroupMirrors => hosts.Count() >= 2
    case SpreadMirrors => if hosts.SingleAddress? then dirCount < hosts.Count() else hosts.Count() >= 2
  }

  /** Under those conditions every mirror lands on a host other than its primary's. */
  lemma MirrorHostDiffers(hosts: Hosts, placement: Placement, dirCount: nat, i: nat, j: nat)
    requires MirrorsMove(hosts, placement, dirCount) && i < hosts.Count() && j < dirCount
    ensures HostIndex(hosts, placement, i, j) != i
  {
    match placement
    case GroupMirrors => GroupMirrorMoves(hosts, i, j);
    case SpreadMirrors =>
      if hosts.SingleAddress? {
        SingleAddressSpreadMoves(hosts, i, j);
        DivModUnique(j + 1, hosts.Count(), 0, j + 1);
      } else {
        MultiHomeSpreadMoves(hosts, i, j);
      }
  }

  /** Segment k of an expansion in closed form: host k / |dirs| and directory k % |dirs|, numbered k. */
  lemma ExpansionAtIndex(hosts: Hosts, placement: Placement, basePort: int, dirs: seq<string>, k: nat)
    requires Expandable(hosts, |dirs|) && k < hosts.Count() * |dirs|
    ensures |dirs| > 0 && k / |dirs| < hosts.Count()
    ensures Expansion(hosts, placement, basePort, dirs)[k] == Cell(hosts, placement, basePort, dirs, k / |dirs|, k % |dirs|)
    ensures Expansion(hosts, placement, basePort, dirs)[k].port == basePort + k % |dirs|
    ensures Expansion(hosts, placement, basePort, dirs)[k].dataDirectory == SegmentDataDirectory(dirs[k % |dirs|], k)
  {
    InGrid(k, hosts.Count(), |dirs|);
    RowColIsDivMod(k, |dirs|);
    ExpansionAt(hosts, placement, basePort, dirs, k / |dirs|, k % |dirs|);
  }

  /**
   * Pair k's mirror is on another host than pair k's primary: another address for single-address
   * hosts, another host name for multi-home hosts.
   */
  lemma MirrorAwayFromPrimary(hosts: Hosts, placement: Placement, primaryBasePort: int, primaryDirs: seq<string>,
                              mirrorBasePort: int, mirrorDirs: seq<string>, k: nat)
    requires Expandable(hosts, |primaryDirs|) && |mirrorDirs| == |primaryDirs|
    requires DistinctHosts(hosts) && MirrorsMove(hosts, placement, |mirrorDirs|)
    requires k < hosts.Count() * |primaryDirs|
    ensures var p := Expansion(hosts, Primaries, primaryBasePort, primaryDirs)[k];
            var m := Expansion(hosts, placement, mirrorBasePort, mirrorDirs)[k];
            if hosts.SingleAddress? then p.address != m.address else p.hostname != m.hostname
  {
    var d := |primaryDirs|;
    ExpansionAtIndex(hosts, Primaries, primaryBasePort, primaryDirs, k);
    ExpansionAtIndex(hosts, placement, mirrorBasePort, mirrorDirs, k);
    var i, j := k / d, k % d;
    MirrorHostDiffers(hosts, placement, d, i, j);
    var h := HostIndex(hosts, placement, i, j);
    if h < i {
      assert hosts.SingleAddress? ==> hosts.hostList[h] != hosts.hostList[i];
    } else {
      assert hosts.SingleAddress? ==> hosts.hostList[i] != hosts.hostList[h];
    }
  }

  /** No two segments of an expansion share a data directory. */
  lemma DataDirectoriesDistinct(hosts: Hosts, placement: Placement, basePort: int, dirs: seq<string>, k1: nat, k2: nat)
    requires Expandable(hosts, |dirs|)
    requires k1 < k2 < hosts.Count() * |dirs|
    ensures Expansion(hosts, placement, basePort, dirs)[k1].dataDirectory != Expansion(hosts, placement, basePort, dirs)[k2].dataDirectory
  {
    ExpansionAtIndex(hosts, placement, basePort, dirs, k1);
    ExpansionAtIndex(hosts, placement, basePort, dirs, k2);
    SegmentDataDirectoryDistinct(dirs[k1 % |dirs|], k1, dirs[k2 % |dirs|], k2);
  }

  /**
   * On distinct hosts, no two primaries share a host and a port: the hosts differ, or they are
   * the same host and the directories, hence the ports, differ.
   */
  lemma PrimaryEndpointsDistinct(hosts: Hosts, basePort: int, dirs: seq<string>, k1: nat, k2: nat)
    requires Expandable(hosts, |dirs|) && DistinctHosts(hosts)
    requires k1 < k2 < hosts.Count() * |dirs|
    ensures var s1 := Expansion(hosts, Primaries, basePort, dirs)[k1];
            var s2 := Expansion(hosts, Primaries, basePort, dirs)[k2];
            if hosts.SingleAddress? then (s1.address, s1.port) != (s2.address, s2.port)
            else (s1.hostname, s1.port) != (s2.hostname, s2.port)
  {
    var d := |dirs|;
    ExpansionAtIndex(hosts, Primaries, basePort, dirs, k1);
    ExpansionAtIndex(hosts, Primaries, basePort, dirs, k2);
    InGrid(k1, hosts.Count(), d);
    InGrid(k2, hosts.Count(), d);
    RowColIsDivMod(k1, d);
    RowColIsDivMod(k2, d);
    var i1, i2 := k1 / d, k2 / d;
    if i1 == i2 {
      assert k1 % d != k2 % d;
    } else if i1 < i2 {
      assert hosts.SingleAddress? ==> hosts.hostList[i1] != hosts.hostList[i2];
    } else {
      assert hosts.SingleAddress? ==> hosts.hostList[i2] != hosts.hostList[i1];
    }
  }

  /** Every address a multi-home expansion chooses is one of its host name's addresses. */
  lemma MultiHomeAddressesBelong(hosts: Hosts, placement: Placement, basePort: int, dirs: seq<string>, k: nat)
    requires hosts.MultiHome? && Expandable(hosts, |dirs|) && k < hosts.Count() * |dirs|
    ensures var s := Expansion(hosts, placement, basePort, dirs)[k];
            s.hostname in hosts.hostnames && s.address in AddressesOf(hosts.nameAddressMap, s.hostname)
  {
    ExpansionAtIndex(hosts, placement, basePort, dirs, k);
  }

  /* ---------- What an expansion writes ---------- */

  /** The list with one primary-only pair appended per segment. */
  function WithPrimaries(list: seq<SegmentPair>, segs: seq<Segment>): seq<SegmentPair>
  {
    if |segs| == 0 then list else WithPrimaries(list, segs[..|segs| - 1]) + [SegmentPair(Some(segs[|segs| - 1]), None)]
  }

  /** The list with the mirror of pair k set to mirrors[k], for the first |mirrors| pairs. */
  function WithMirrors(list: seq<SegmentPair>, mirrors: seq<Segment>): (r: seq<SegmentPair>)
    requires |mirrors| <= |list|
    ensures |r| == |list|
  {
    if |mirrors| == 0 then list
    else
      var n := |mirrors| - 1;
      WithMirrors(list, mirrors[..n])[n := list[n].(mirror := Some(mirrors[n]))]
  }

  /** The pairs already in the list stay first; pair |list| + k holds segs[k] as its primary and no mirror. */
  lemma {:induction false} WithPrimariesAt(list: seq<SegmentPair>, segs: seq<Segment>)
    ensures |WithPrimaries(list, segs)| == |list| + |segs|
    ensures forall k :: 0 <= k < |list| ==> WithPrimaries(list, segs)[k] == list[k]
    ensures forall k :: 0 <= k < |segs| ==> WithPrimaries(list, segs)[|list| + k] == SegmentPair(Some(segs[k]), None)
  {
    if |segs| > 0 {
      WithPrimariesAt(list, segs[..|segs| - 1]);
    }
  }

  /** Pair k gets mirrors[k] as its mirror and keeps its primary; the pairs after |mirrors| are unchanged. */
  lemma {:induction false} WithMirrorsAt(list: seq<SegmentPair>, mirrors: seq<Segment>)
    requires |mirrors| <= |list|
    ensures forall k :: 0 <= k < |mirrors| ==> WithMirrors(list, mirrors)[k] == list[k].(mirror := Some(mirrors[k]))
    ensures forall k :: |mirrors| <= k < |list| ==> WithMirrors(list, mirrors)[k] == list[k]
  {
    if |mirrors| > 0 {
      WithMirrorsAt(list, mirrors[..|mirrors| - 1]);
    }
  }

  /** One more primary appended. */
  lemma PrimaryStep(list: seq<SegmentPair>, done: seq<Segment>, seg: Segment)
    ensures WithPrimaries(list, done + [seg]) == WithPrimaries(list, done) + [SegmentPair(Some(seg), None)]
  {
    assert (done + [seg])[..|done|] == done;
  }

  /** One more mirror set: the pair at |done|, which no earlier step touched, gets seg. */
  lemma MirrorStep(list: seq<SegmentPair>, done: seq<Segment>, seg: Segment)
    requires |done| < |list|
    ensures WithMirrors(list, done + [seg]) == WithMirrors(list, done)[|done| := WithMirrors(list, done)[|done|].(mirror := Some(seg))]
    ensures WithMirrors(list, done)[|done|] == list[|done|]
  {
    assert (done + [seg])[..|done|] == done;
    WithMirrorsAt(list, done);
  }

  /** A single-address cell spelled out: the host's address, its name from the map, the port and the directory. */
  lemma SingleAddressCell(hostList: seq<string>, addressNameMap: map<string, string>, placement: Placement,
                          basePort: int, dirs: seq<string>, i: nat, j: nat)
    requires i < |hostList| && j < |dirs|
    ensures var h := HostIndex(SingleAddress(hostList, addressNameMap), placement, i, j);
      Cell(SingleAddress(hostList, addressNameMap), placement, basePort, dirs, i, j)
        == Segment(Lookup(addressNameMap, hostList[h]), hostList[h], basePort + j,
                   SegmentDataDirectory(dirs[j], RowStart(i, |dirs|) + j))
  {
  }

  /** Segment k = i * |dirs| + j of a single-address expansion is the one the loops build for host i, directory j. */
  lemma SingleAddressAt(hostList: seq<string>, addressNameMap: map<string, string>, placement: Placement,
                        basePort: int, dirs: seq<string>, i: nat, j: nat, k: nat, h: nat)
    requires i < |hostList| && j < |dirs| && k == RowStart(i, |dirs|) + j
    requires h == HostIndex(SingleAddress(hostList, addressNameMap), placement, i, j)
    ensures h < |hostList| && k < |Expansion(SingleAddress(hostList, addressNameMap), placement, basePort, dirs)|
    ensures Expansion(SingleAddress(hostList, addressNameMap), placement, basePort, dirs)[k]
      == Segment(Lookup(addressNameMap, hostList[h]), hostList[h], basePort + j, SegmentDataDirectory(dirs[j], k))
  {
    ExpansionAt(SingleAddress(hostList, addressNameMap), placement, basePort, dirs, i, j);
    SingleAddressCell(hostList, addressNameMap, placement, basePort, dirs, i, j);
  }

  /**
   * Segment k = i * |dirs| + j of a multi-home expansion is the one the loops build for host
   * name i, directory j: on host name h, at address a of its list.
   */
  lemma MultiHomeAt(hostnames: seq<string>, nameAddressMap: map<string, seq<string>>, placement: Placement,
                    basePort: int, dirs: seq<string>, i: nat, j: nat, k: nat, h: nat, a: nat)
    requires Expandable(MultiHome(hostnames, nameAddressMap), |dirs|)
    requires i < |hostnames| && j < |dirs| && k == RowStart(i, |dirs|) + j
    requires h == HostIndex(MultiHome(hostnames, nameAddressMap), placement, i, j)
    requires |AddressesOf(nameAddressMap, hostnames[h])| > 0
    requires a == (if placement.SpreadMirrors? then i + j else j) % |AddressesOf(nameAddressMap, hostnames[h])|
    ensures k < |Expansion(MultiHome(hostnames, nameAddressMap), placement, basePort, dirs)|
    ensures Expansion(MultiHome(hostnames, nameAddressMap), placement, basePort, dirs)[k]
      == Segment(hostnames[h], AddressesOf(nameAddressMap, hostnames[h])[a], basePort + j, SegmentDataDirectory(dirs[j], k))
  {
    ExpansionAt(MultiHome(hostnames, nameAddressMap), placement, basePort, dirs, i, j);
    MultiHomeCell(hostnames, nameAddressMap, placement, basePort, dirs, i, j, h, a);
  }

  lemma MultiHomeCell(hostnames: seq<string>, nameAddressMap: map<string, seq<string>>, placement: Placement,
                      basePort: int, dirs: seq<string>, i: nat, j: nat, h: nat, a: nat)
    requires Expandable(MultiHome(hostnames, nameAddressMap), |dirs|)
    requires i < |hostnames| && j < |dirs|
    requires h == HostIndex(MultiHome(hostnames, nameAddressMap), placement, i, j)
    requires |AddressesOf(nameAddressMap, hostnames[h])| > 0
    requires a == (if placement.SpreadMirrors? then i + j else j) % |AddressesOf(nameAddressMap, hostnames[h])|
    ensures Cell(MultiHome(hostnames, nameAddressMap), placement, basePort, dirs, i, j)
      == Segment(hostnames[h], AddressesOf(nameAddressMap, hostnames[h])[a], basePort + j,
                 SegmentDataDirectory(dirs[j], RowStart(i, |dirs|) + j))
  {
  }

  /** Appending primary k of the expected segments extends the list by one pair. */
  lemma PrimaryPrefixStep(list: seq<SegmentPair>, expected: seq<Segment>, k: nat, seg: Segment)
    requires k < |expected| && expected[k] == seg
    ensures WithPrimaries(list, expected[..k + 1]) == WithPrimaries(list, expected[..k]) + [SegmentPair(Some(seg), None)]
  {
    assert expected[..k + 1] == expected[..k] + [seg];
    PrimaryStep(list, expected[..k], seg);
  }

  /** Setting mirror k of the expected segments updates pair k alone. */
  lemma MirrorPrefixStep(list: seq<SegmentPair>, expected: seq<Segment>, k: nat, seg: Segment)
    requires k < |expected| && k < |list| && expected[k] == seg
    ensures WithMirrors(list, expected[..k + 1])
      == WithMirrors(list, expected[..k])[k := WithMirrors(list, expected[..k])[k].(mirror := Some(seg))]
  {
    assert expected[..k + 1] == expected[..k] + [seg];
    MirrorStep(list, expected[..k], seg);
  }

  /** The spread loop's host index, advanced cyclically, stays host i + j + 1 for the next directory. */
  lemma NextMirrorHost(i: nat, j: nat, j': nat, m: int, m': int, n: nat)
    requires n > 0 && j' == j + 1
    requires m == (i + j + 1) % n && m' == (m + 1) % n
    ensures m' == (i + j' + 1) % n
  {
    ModStep(i + j + 1, n);
  }

  /*
   * The six Expand* functions: a loop over the hosts around a loop over the data directories.
   * The ghost `expected` is the whole expansion; after segNum segments the list holds its prefix.
   */

  /** ExpandNonMultiHomePrimaryList: appends a primary-only pair per host address and directory. */
  method ExpandNonMultiHomePrimaryList(segPairList: seq<SegmentPair>, primaryBasePort: int,
                                       primaryDataDirectories: seq<string>, hostList: seq<string>,
                                       addressNameMap: map<string, string>)
    returns (r: seq<SegmentPair>)
    ensures r == WithPrimaries(segPairList, Expansion(SingleAddress(hostList, addressNameMap), Primaries,
                                                       primaryBasePort, primaryDataDirectories))
  {
    ghost var expected := Expansion(SingleAddress(hostList, addressNameMap), Primaries, primaryBasePort, primaryDataDirectories);
    RowStartIsProduct(|hostList|, |primaryDataDirectories|);
    r := segPairList;
    var segNum := 0;
    for hostIdx := 0 to |hostList|
      invariant segNum == RowStart(hostIdx, |primaryDataDirectories|) <= |expected|
      invariant r == WithPrimaries(segPairList, expected[..segNum])
    {
      RowStartMonotone(hostIdx + 1, |hostList|, |primaryDataDirectories|);
      var hostAddress := hostList[hostIdx];
      for segIdx := 0 to |primaryDataDirectories|
        invariant segNum == RowStart(hostIdx, |primaryDataDirectories|) + segIdx <= |expected|
        invariant r == WithPrimaries(segPairList, expected[..segNum])
      {
        var seg := Segment(Lookup(addressNameMap, hostAddress), hostAddress, primaryBasePort + segIdx,
                           SegmentDataDirectory(primaryDataDirectories[segIdx], segNum));
        SingleAddressAt(hostList, addressNameMap, Primaries, primaryBasePort, primaryDataDirectories, hostIdx, segIdx, segNum, hostIdx);
        PrimaryPrefixStep(segPairList, expected, segNum, seg);
        r := r + [SegmentPair(Some(seg), None)];
        segNum := segNum + 1;
      }
    }
    assert expected[..segNum] == expected;
  }

  /**
   * ExpandNonMultiHomeGroupMirrorList: the mirrors of host i go to host i + 1, cyclically. The
   * list must already hold a pair for every mirror (the source indexes past its end otherwise).
   */
  method ExpandNonMultiHomeGroupMirrorList(segPairList: seq<SegmentPair>, mirrorBasePort: int,
                                           mirrorDataDirectories: seq<string>, hostList: seq<string>,
                                           addressNameMap: map<string, string>)
    returns (r: seq<SegmentPair>)
    requires |hostList| * |mirrorDataDirectories| <= |segPairList|
    ensures r == WithMirrors(segPairList, Expansion(SingleAddress(hostList, addressNameMap), GroupMirrors,
                                                     mirrorBasePort, mirrorDataDirectories))
  {
    ghost var expected := Expansion(SingleAddress(hostList, addressNameMap), GroupMirrors, mirrorBasePort, mirrorDataDirectories);
    RowStartIsProduct(|hostList|, |mirrorDataDirectories|);
    var hostListLen := |hostList|;
    r := segPairList;
    var segNum := 0;
    for hostIdx := 0 to hostListLen
      invariant segNum == RowStart(hostIdx, |mirrorDataDirectories|) <= |expected|
      invariant r == WithMirrors(segPairList, expected[..segNum])
    {
      RowStartMonotone(hostIdx + 1, hostListLen, |mirrorDataDirectories|);
      for segIdx := 0 to |mirrorDataDirectories|
        invariant segNum == RowStart(hostIdx, |mirrorDataDirectories|) + segIdx <= |expected|
        invariant r == WithMirrors(segPairList, expected[..segNum])
      {
        var hostAddress := hostList[(hostIdx + 1) % hostListLen];
        var seg := Segment(Lookup(addressNameMap, hostAddress), hostAddress, mirrorBasePort + segIdx,
                           SegmentDataDirectory(mirrorDataDirectories[segIdx], segNum));
        SingleAddressAt(hostList, addressNameMap, GroupMirrors, mirrorBasePort, mirrorDataDirectories, hostIdx, segIdx, segNum,
                        (hostIdx + 1) % hostListLen);
        MirrorPrefixStep(segPairList, expected, segNum, seg);
        r := r[segNum := r[segNum].(mirror := Some(seg))];
        segNum := segNum + 1;
      }
    }
    assert expected[..segNum] == expected;
  }

  /**
   * ExpandNonMultiHomeSpreadMirroring: the j-th mirror of host i goes to host i + 1 + j,
   * cyclically; the host index advances by one after each mirror.
   */
  method ExpandNonMultiHomeSpreadMirroring(segPairList: seq<SegmentPair>, mirrorBasePort: int,
                                           mirrorDataDirectories: seq<string>, hostList: seq<string>,
                                           addressNameMap: map<string, string>)
    returns (r: seq<SegmentPair>)
    requires |hostList| * |mirrorDataDirectories| <= |segPairList|
    ensures r == WithMirrors(segPairList, Expansion(SingleAddress(hostList, addressNameMap), SpreadMirrors,
                                                     mirrorBasePort, mirrorDataDirectories))
  {
    ghost var expected := Expansion(SingleAddress(hostList, addressNameMap), SpreadMirrors, mirrorBasePort, mirrorDataDirectories);
    RowStartIsProduct(|hostList|, |mirrorDataDirectories|);
    var segmentsPerHost := |mirrorDataDirectories|;
    var hostListLen := |hostList|;
    r := segPairList;
    var segNum := 0;
    for hostIndex := 0 to hostListLen
      invariant segNum == RowStart(hostIndex, segmentsPerHost) <= |expected|
      invariant r == WithMirrors(segPairList, expected[..segNum])
    {
      RowStartMonotone(hostIndex + 1, hostListLen, segmentsPerHost);
      var mirrorHostIndex := (hostIndex + 1) % hostListLen;
      var localSeg := 0;
      while localSeg < segmentsPerHost
        invariant 0 <= localSeg <= segmentsPerHost
        invariant segNum == RowStart(hostIndex, segmentsPerHost) + localSeg <= |expected|
        invariant mirrorHostIndex == (hostIndex + localSeg + 1) % hostListLen
        invariant r == WithMirrors(segPairList, expected[..segNum])
      {
        var hostAddress := hostList[mirrorHostIndex];
        var seg := Segment(Lookup(addressNameMap, hostAddress), hostAddress, mirrorBasePort + localSeg,
                           SegmentDataDirectory(mirrorDataDirectories[localSeg], segNum));
        SingleAddressAt(hostList, addressNameMap, SpreadMirrors, mirrorBasePort, mirrorDataDirectories, hostIndex, localSeg, segNum,
                        mirrorHostIndex);
        MirrorPrefixStep(segPairList, expected, segNum, seg);
        r := r[segNum := r[segNum].(mirror := Some(seg))];
        segNum := segNum + 1;
        ghost var previous, previousSeg := mirrorHostIndex, localSeg;
        mirrorHostIndex := (mirrorHostIndex + 1) % hostListLen;
        localSeg := localSeg + 1;
        NextMirrorHost(hostIndex, previousSeg, localSeg, previous, mirrorHostIndex, hostListLen);
      }
    }
    assert expected[..segNum] == expected;
  }

  /** ExpandMultiHomePrimaryArray: per host name and directory, a primary on the host's addresses in turn. */
  method ExpandMultiHomePrimaryArray(segPairList: seq<SegmentPair>, primaryBasePort: int,
                                     primaryDataDirectories: seq<string>, hostnameArray: seq<string>,
                                     nameAddressMap: map<string, seq<string>>)
    returns (r: seq<SegmentPair>)
    requires Expandable(MultiHome(hostnameArray, nameAddressMap), |primaryDataDirectories|)
    ensures r == WithPrimaries(segPairList, Expansion(MultiHome(hostnameArray, nameAddressMap), Primaries,
                                                       primaryBasePort, primaryDataDirectories))
  {
    ghost var expected := Expansion(MultiHome(hostnameArray, nameAddressMap), Primaries, primaryBasePort, primaryDataDirectories);
    RowStartIsProduct(|hostnameArray|, |primaryDataDirectories|);
    r := segPairList;
    var segNum := 0;
    for hostIdx := 0 to |hostnameArray|
      invariant segNum == RowStart(hostIdx, |primaryDataDirectories|) <= |expected|
      invariant r == WithPrimaries(segPairList, expected[..segNum])
    {
      RowStartMonotone(hostIdx + 1, |hostnameArray|, |primaryDataDirectories|);
      var hostname := hostnameArray[hostIdx];
      var addressList := AddressesOf(nameAddressMap, hostname);
      for idx := 0 to |primaryDataDirectories|
        invariant segNum == RowStart(hostIdx, |primaryDataDirectories|) + idx <= |expected|
        invariant r == WithPrimaries(segPairList, expected[..segNum])
      {
        var seg := Segment(hostname, addressList[idx % |addressList|], primaryBasePort + idx,
                           SegmentDataDirectory(primaryDataDirectories[idx], segNum));
        MultiHomeAt(hostnameArray, nameAddressMap, Primaries, primaryBasePort, primaryDataDirectories, hostIdx, idx, segNum,
                    hostIdx, idx % |addressList|);
        PrimaryPrefixStep(segPairList, expected, segNum, seg);
        r := r + [SegmentPair(Some(seg), None)];
        segNum := segNum + 1;
      }
    }
    assert expected[..segNum] == expected;
  }

  /** ExpandMultiHomeGroupMirrorList: the mirrors of host name i go to host name i + 1, cyclically. */
  method ExpandMultiHomeGroupMirrorList(segPairList: seq<SegmentPair>, mirrorBasePort: int,
                                        mirrorDataDirectories: seq<string>, hostnameArray: seq<string>,
                                        nameAddressMap: map<string, seq<string>>)
    returns (r: seq<SegmentPair>)
    requires Expandable(MultiHome(hostnameArray, nameAddressMap), |mirrorDataDirectories|)
    requires |hostnameArray| * |mirrorDataDirectories| <= |segPairList|
    ensures r == WithMirrors(segPairList, Expansion(MultiHome(hostnameArray, nameAddressMap), GroupMirrors,
                                                     mirrorBasePort, mirrorDataDirectories))
  {
    ghost var expected := Expansion(MultiHome(hostnameArray, nameAddressMap), GroupMirrors, mirrorBasePort, mirrorDataDirectories);
    RowStartIsProduct(|hostnameArray|, |mirrorDataDirectories|);
    var uniqueHostCount := |hostnameArray|;
    r := segPairList;
    var segNum := 0;
    for idx := 0 to uniqueHostCount
      invariant segNum == RowStart(idx, |mirrorDataDirectories|) <= |expected|
      invariant r == WithMirrors(segPairList, expected[..segNum])
    {
      RowStartMonotone(idx + 1, uniqueHostCount, |mirrorDataDirectories|);
      var hostname := hostnameArray[(idx + 1) % uniqueHostCount];
      var addressList := AddressesOf(nameAddressMap, hostname);
      for segIdx := 0 to |mirrorDataDirectories|
        invariant segNum == RowStart(idx, |mirrorDataDirectories|) + segIdx <= |expected|
        invariant r == WithMirrors(segPairList, expected[..segNum])
      {
        var seg := Segment(hostname, addressList[segIdx % |addressList|], mirrorBasePort + segIdx,
                           SegmentDataDirectory(mirrorDataDirectories[segIdx], segNum));
        MultiHomeAt(hostnameArray, nameAddressMap, GroupMirrors, mirrorBasePort, mirrorDataDirectories, idx, segIdx, segNum,
                    (idx + 1) % uniqueHostCount, segIdx % |addressList|);
        MirrorPrefixStep(segPairList, expected, segNum, seg);
        r := r[segNum := r[segNum].(mirror := Some(seg))];
        segNum := segNum + 1;
      }
    }
    assert expected[..segNum] == expected;
  }

  /**
   * ExpandMultiHomeSpreadMirrorList: the j-th mirror of host name i goes to host name i + 1 + j,
   * cyclically, or one further when that is host name i itself; the address is taken in turn
   * by i + j.
   */
  method ExpandMultiHomeSpreadMirrorList(segPairList: seq<SegmentPair>, mirrorBasePort: int,
                                         mirrorDataDirectories: seq<string>, hostnameArray: seq<string>,
                                         nameAddressMap: map<string, seq<string>>)
    returns (r: seq<SegmentPair>)
    requires Expandable(MultiHome(hostnameArray, nameAddressMap), |mirrorDataDirectories|)
    requires |hostnameArray| * |mirrorDataDirectories| <= |segPairList|
    ensures r == WithMirrors(segPairList, Expansion(MultiHome(hostnameArray, nameAddressMap), SpreadMirrors,
                                                     mirrorBasePort, mirrorDataDirectories))
  {
    ghost var expected := Expansion(MultiHome(hostnameArray, nameAddressMap), SpreadMirrors, mirrorBasePort, mirrorDataDirectories);
    RowStartIsProduct(|hostnameArray|, |mirrorDataDirectories|);
    var uniqueHostCount := |hostnameArray|;
    r := segPairList;
    var segNum := 0;
    for hostnameIdx := 0 to uniqueHostCount
      invariant segNum == RowStart(hostnameIdx, |mirrorDataDirectories|) <= |expected|
      invariant r == WithMirrors(segPairList, expected[..segNum])
    {
      RowStartMonotone(hostnameIdx + 1, uniqueHostCount, |mirrorDataDirectories|);
      for segIdx := 0 to |mirrorDataDirectories|
        invariant segNum == RowStart(hostnameIdx, |mirrorDataDirectories|) + segIdx <= |expected|
        invariant r == WithMirrors(segPairList, expected[..segNum])
      {
        var nxtHostIdx := (hostnameIdx + segIdx + 1) % uniqueHostCount;
        if nxtHostIdx == hostnameIdx {
          nxtHostIdx := (nxtHostIdx + 1) % uniqueHostCount;
        }
        var nxtHostName := hostnameArray[nxtHostIdx];
        var addressList := AddressesOf(nameAddressMap, nxtHostName);
        var addressCnt := |addressList|;
        var seg := Segment(nxtHostName, addressList[(hostnameIdx + segIdx) % addressCnt], mirrorBasePort + segIdx,
                           SegmentDataDirectory(mirrorDataDirectories[segIdx], segNum));
        MultiHomeAt(hostnameArray, nameAddressMap, SpreadMirrors, mirrorBasePort, mirrorDataDirectories, hostnameIdx, segIdx, segNum,
                    nxtHostIdx, (hostnameIdx + segIdx) % addressCnt);
        MirrorPrefixStep(segPairList, expected, segNum, seg);
        r := r[segNum := r[segNum].(mirror := Some(seg))];
        segNum := segNum + 1;
      }
    }
    assert expected[..segNum] == expected;
  }

  /* ---------- ExpandSegPairArray ---------- */

  /** Some listing of a set of keys, in an order nothing depends on. */
  ghost function KeyListing(keys: set<string>): (s: seq<string>)
    ensures multiset(s) == multiset(keys)
    decreases |keys|
  {
    if keys == {} then []
    else
      var x :| x in keys;
      assert multiset(keys) == multiset{x} + multiset(keys - {x});
      [x] + KeyListing(keys - {x})
  }

  /** The host names of a multi-home layout, as `ExpandSegPairArray` lists them: the map's keys, sorted. */
  ghost function SortedHostnames(nameAddressMap: map<string, seq<string>>): seq<string>
  {
    Sort(KeyListing(nameAddressMap.Keys))
  }

  /** Every host name has at least one address. */
  predicate AddressesPresent(nameAddressMap: map<string, seq<string>>)
  {
    forall hostname :: hostname in nameAddressMap ==> |nameAddressMap[hostname]| > 0
  }

  /** The hosts an expansion of the configuration runs over. */
  ghost function ExpansionHosts(config: InitConfig, multiHome: bool, nameAddressMap: map<string, seq<string>>,
                                addressNameMap: map<string, string>): Hosts
  {
    if multiHome then MultiHome(SortedHostnames(nameAddressMap), nameAddressMap)
    else SingleAddress(Sort(config.hostList), addressNameMap)
  }

  /** The number of hosts without building the list: the map's keys or the configured host list. */
  function HostCount(config: InitConfig, multiHome: bool, nameAddressMap: map<string, seq<string>>): nat
  {
    if multiHome then |nameAddressMap.Keys| else |config.hostList|
  }

  /** Group mirroring exactly when the mirroring type says "group"; every other value means spread. */
  function MirrorPlacement(mirroringType: string): (p: Placement)
    ensures p != Primaries
    ensures p.GroupMirrors? <==> mirroringType == GROUP_MIRRORING
  {
    if mirroringType == GROUP_MIRRORING then GroupMirrors else SpreadMirrors
  }

  /** What the expansion of a configuration holds: the primaries, then their mirrors if the cluster has mirrors. */
  function ExpandedPairs(hosts: Hosts, config: InitConfig, containsMirror: bool): seq<SegmentPair>
    requires Expandable(hosts, |config.primaryDataDirectories|)
    requires containsMirror ==> Expandable(hosts, |config.mirrorDataDirectories|)
    requires containsMirror ==> hosts.Count() * |config.mirrorDataDirectories| <= hosts.Count() * |config.primaryDataDirectories|
  {
    var primaries := WithPrimaries([], Expansion(hosts, Primaries, config.primaryBasePort, config.primaryDataDirectories));
    WithPrimariesAt([], Expansion(hosts, Primaries, config.primaryBasePort, config.primaryDataDirectories));
    if !containsMirror then primaries
    else
      WithMirrors(primaries, Expansion(hosts, MirrorPlacement(config.mirroringType), config.mirrorBasePort, config.mirrorDataDirectories))
  }

  /** The configuration's host list or host names, and the address lists they need, suit an expansion. */
  predicate CanExpand(config: InitConfig, multiHome: bool, nameAddressMap: map<string, seq<string>>, containsMirror: bool)
  {
    && ((multiHome && (|config.primaryDataDirectories| > 0 || (containsMirror && |config.mirrorDataDirectories| > 0)))
        ==> AddressesPresent(nameAddressMap))
    && (containsMirror ==> HostCount(config, multiHome, nameAddressMap) * |config.mirrorDataDirectories|
                             <= HostCount(config, multiHome, nameAddressMap) * |config.primaryDataDirectories|)
  }

  /** A listing of the keys has one entry per key. */
  lemma ListingLength(hostnames: seq<string>, keys: set<string>)
    requires multiset(hostnames) == multiset(keys)
    ensures |hostnames| == |keys|
  {
    assert |multiset(hostnames)| == |hostnames|;
    assert |multiset(keys)| == |keys|;
  }

  /** A listing of the keys of a map whose every host has an address can be expanded. */
  lemma ListingExpandable(hostnames: seq<string>, nameAddressMap: map<string, seq<string>>, dirCount: nat)
    requires multiset(hostnames) == multiset(nameAddressMap.Keys)
    requires dirCount > 0 ==> AddressesPresent(nameAddressMap)
    ensures Expandable(MultiHome(hostnames, nameAddressMap), dirCount)
  {
    forall i | 0 <= i < |hostnames|
      ensures hostnames[i] in nameAddressMap
    {
      assert hostnames[i] in multiset(hostnames);
    }
  }

  /** A listing of a set, sorted, lists each member once. */
  lemma ListingDistinct(hostnames: seq<string>, keys: set<string>)
    requires multiset(hostnames) == multiset(keys)
    ensures Distinct(hostnames)
  {
    forall a, b | 0 <= a < b < |hostnames|
      ensures hostnames[a] != hostnames[b]
    {
      var y := hostnames[b];
      assert hostnames == hostnames[..b] + hostnames[b..];
      assert hostnames[b..][0] == y;
      assert multiset(hostnames)[y] <= 1;
      assert multiset(hostnames[..b])[y] == 0;
      assert hostnames[..b][a] == hostnames[a];
    }
  }

  /** The sorted host names are the map's keys, each once. */
  lemma SortedHostnamesListKeys(nameAddressMap: map<string, seq<string>>)
    ensures multiset(SortedHostnames(nameAddressMap)) == multiset(nameAddressMap.Keys)
    ensures |SortedHostnames(nameAddressMap)| == |nameAddressMap.Keys|
    ensures Sorted(SortedHostnames(nameAddressMap)) && Distinct(SortedHostnames(nameAddressMap))
  {
    ListingLength(SortedHostnames(nameAddressMap), nameAddressMap.Keys);
    ListingDistinct(SortedHostnames(nameAddressMap), nameAddressMap.Keys);
  }

  /** The hosts of a configuration that can be expanded are as many as it counts, and suit both expansions. */
  lemma HostsOfConfig(config: InitConfig, multiHome: bool, nameAddressMap: map<string, seq<string>>,
                      addressNameMap: map<string, string>, containsMirror: bool)
    requires CanExpand(config, multiHome, nameAddressMap, containsMirror)
    ensures ExpansionHosts(config, multiHome, nameAddressMap, addressNameMap).Count() == HostCount(config, multiHome, nameAddressMap)
    ensures Expandable(ExpansionHosts(config, multiHome, nameAddressMap, addressNameMap), |config.primaryDataDirectories|)
    ensures containsMirror ==> Expandable(ExpansionHosts(config, multiHome, nameAddressMap, addressNameMap), |config.mirrorDataDirectories|)
  {
    if multiHome {
      SortedHostnamesListKeys(nameAddressMap);
      ListingExpandable(SortedHostnames(nameAddressMap), nameAddressMap, |config.primaryDataDirectories|);
      if containsMirror {
        ListingExpandable(SortedHostnames(nameAddressMap), nameAddressMap, |config.mirrorDataDirectories|);
      }
    } else {
      assert |Sort(config.hostList)| == |config.hostList| by {
        assert |multiset(Sort(config.hostList))| == |multiset(config.hostList)|;
      }
    }
  }

  /** The host names of a multi-home layout, appended in the map's (unspecified) iteration order. */
  method ListHostnames(nameAddressMap: map<string, seq<string>>) returns (hostnameArray: seq<string>)
    ensures multiset(hostnameArray) == multiset(nameAddressMap.Keys)
  {
    hostnameArray := [];
    var remaining := nameAddressMap.Keys;
    while remaining != {}
      invariant multiset(hostnameArray) + multiset(remaining) == multiset(nameAddressMap.Keys)
      decreases |remaining|
    {
      var hostname :| hostname in remaining;
      hostnameArray := hostnameArray + [hostname];
      remaining := remaining - {hostname};
    }
  }

  /**
   * ExpandSegPairArray: sorts the host list (or lists the host names of a multi-home layout, in
   * the map's order, and sorts them), expands the primaries and, when the cluster has mirrors,
   * the mirrors by group or by spread.
   */
  method ExpandSegPairArray(config: InitConfig, multiHome: bool, nameAddressMap: map<string, seq<string>>,
                            addressNameMap: map<string, string>, containsMirror: bool)
    returns (segPairList: seq<SegmentPair>)
    requires CanExpand(config, multiHome, nameAddressMap, containsMirror)
    ensures Expandable(ExpansionHosts(config, multiHome, nameAddressMap, addressNameMap), |config.primaryDataDirectories|)
    ensures containsMirror ==> Expandable(ExpansionHosts(config, multiHome, nameAddressMap, addressNameMap), |config.mirrorDataDirectories|)
    ensures segPairList == ExpandedPairs(ExpansionHosts(config, multiHome, nameAddressMap, addressNameMap), config, containsMirror)
  {
    HostsOfConfig(config, multiHome, nameAddressMap, addressNameMap, containsMirror);
    ghost var hosts := ExpansionHosts(config, multiHome, nameAddressMap, addressNameMap);
    ghost var placement := MirrorPlacement(config.mirroringType);
    var hostList := Sort(config.hostList);
    if multiHome {
      var hostnameArray := ListHostnames(nameAddressMap);
      SortDependsOnlyOnElements(hostnameArray, KeyListing(nameAddressMap.Keys));
      hostnameArray := Sort(hostnameArray);
      assert hosts == MultiHome(hostnameArray, nameAddressMap);
      segPairList := ExpandMultiHomePrimaryArray([], config.primaryBasePort, config.primaryDataDirectories,
                                                 hostnameArray, nameAddressMap);
      WithPrimariesAt([], Expansion(hosts, Primaries, config.primaryBasePort, config.primaryDataDirectories));
      if containsMirror {
        if config.mirroringType == GROUP_MIRRORING {
          segPairList := ExpandMultiHomeGroupMirrorList(segPairList, config.mirrorBasePort, config.mirrorDataDirectories,
                                                        hostnameArray, nameAddressMap);
        } else {
          segPairList := ExpandMultiHomeSpreadMirrorList(segPairList, config.mirrorBasePort, config.mirrorDataDirectories,
                                                         hostnameArray, nameAddressMap);
        }
      }
    } else {
      assert hosts == SingleAddress(hostList, addressNameMap);
      segPairList := ExpandNonMultiHomePrimaryList([], config.primaryBasePort, config.primaryDataDirectories,
                                                   hostList, addressNameMap);
      WithPrimariesAt([], Expansion(hosts, Primaries, config.primaryBasePort, config.primaryDataDirectories));
      if containsMirror {
        if config.mirroringType == GROUP_MIRRORING {
          segPairList := ExpandNonMultiHomeGroupMirrorList(segPairList, config.mirrorBasePort, config.mirrorDataDirectories,
                                                           hostList, addressNameMap);
        } else {
          segPairList := ExpandNonMultiHomeSpreadMirroring(segPairList, config.mirrorBasePort, config.mirrorDataDirectories,
                                                           hostList, addressNameMap);
        }
      }
    }
  }

  /**
   * Pair k of an expanded configuration holds primary k and, if the cluster has mirrors, mirror k;
   * there is one pair per host and primary directory.
   */
  lemma ExpandedPairsAt(hosts: Hosts, config: InitConfig, containsMirror: bool, k: nat)
    requires Expandable(hosts, |config.primaryDataDirectories|)
    requires containsMirror ==> Expandable(hosts, |config.mirrorDataDirectories|)
    requires containsMirror ==> |config.mirrorDataDirectories| == |config.primaryDataDirectories|
    requires k < hosts.Count() * |config.primaryDataDirectories|
    ensures |ExpandedPairs(hosts, config, containsMirror)| == hosts.Count() * |config.primaryDataDirectories|
    ensures ExpandedPairs(hosts, config, containsMirror)[k] ==
      SegmentPair(Some(Expansion(hosts, Primaries, config.primaryBasePort, config.primaryDataDirectories)[k]),
                  if containsMirror
                  then Some(Expansion(hosts, MirrorPlacement(config.mirroringType), config.mirrorBasePort, config.mirrorDataDirectories)[k])
                  else None)
  {
    var primaries := Expansion(hosts, Primaries, config.primaryBasePort, config.primaryDataDirectories);
    WithPrimariesAt([], primaries);
    assert WithPrimaries([], primaries)[0 + k] == SegmentPair(Some(primaries[k]), None);
    if containsMirror {
      WithMirrorsAt(WithPrimaries([], primaries),
                    Expansion(hosts, MirrorPlacement(config.mirroringType), config.mirrorBasePort, config.mirrorDataDirectories));
    }
  }
}
