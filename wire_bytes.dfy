/**
 * Fixed-width integers and the byte layout `memcpy` gives them.
 *
 * The wire codec copies each field with `memcpy(p, &field, sizeof(field))`, so a field of
 * width w occupies w bytes in the host's byte order. The model fixes that order to
 * little-endian, the order of the platforms the cluster runs on.
 */
module WireBytes {

  newtype uint8 = x: int | 0 <= x < 0x100
  newtype uint32 = x: int | 0 <= x < 0x1_0000_0000
  newtype int32 = x: int | -0x8000_0000 <= x < 0x8000_0000
  newtype uint64 = x: int | 0 <= x < 0x1_0000_0000_0000_0000

  const TWO_32: int := 0x1_0000_0000

  /** 256^n, the number of distinct values n bytes can hold. */
  function Pow256(n: nat): (r: nat)
    ensures r > 0
  {
    if n == 0 then 1 else 256 * Pow256(n - 1)
  }

  /** The `width` bytes, least significant first, that hold `x`. */
  function EncodeLE(x: nat, width: nat): (r: seq<uint8>)
    requires x < Pow256(width)
    ensures |r| == width
  {
    if width == 0 then [] else [(x % 256) as uint8] + EncodeLE(x / 256, width - 1)
  }

  /** The unsigned value of bytes laid out least significant first. */
  function DecodeLE(b: seq<uint8>): (x: nat)
    ensures x < Pow256(|b|)
  {
    if |b| == 0 then 0 else b[0] as nat + 256 * DecodeLE(b[1..])
  }

  /** Reading back the bytes of a value gives the value. */
  lemma {:induction false} DecodeEncodeLE(x: nat, width: nat)
    requires x < Pow256(width)
    ensures DecodeLE(EncodeLE(x, width)) == x
  {
    if width > 0 {
      DecodeEncodeLE(x / 256, width - 1);
      assert EncodeLE(x, width)[1..] == EncodeLE(x / 256, width - 1);
    }
  }

  /** Writing the value of some bytes gives those bytes back. */
  lemma {:induction false} EncodeDecodeLE(b: seq<uint8>)
    ensures EncodeLE(DecodeLE(b), |b|) == b
  {
    if |b| > 0 {
      var x := DecodeLE(b);
      var high := DecodeLE(b[1..]);
      assert x == b[0] as nat + 256 * high;
      assert x % 256 == b[0] as nat && x / 256 == high;
      EncodeDecodeLE(b[1..]);
      assert b == [b[0]] + b[1..];
    }
  }

  function EncodeU32(x: uint32): (r: seq<uint8>)
    ensures |r| == 4
  {
    EncodeLE(x as nat, 4)
  }

  function DecodeU32(b: seq<uint8>): uint32
    requires |b| == 4
  {
    DecodeLE(b) as uint32
  }

  function EncodeU64(x: uint64): (r: seq<uint8>)
    ensures |r| == 8
  {
    EncodeLE(x as nat, 8)
  }

  function DecodeU64(b: seq<uint8>): uint64
    requires |b| == 8
  {
    DecodeLE(b) as uint64
  }

  /** A signed 32-bit integer is stored as its two's-complement bit pattern. */
  function EncodeI32(x: int32): (r: seq<uint8>)
    ensures |r| == 4
  {
    EncodeLE(if x < 0 then x as int + TWO_32 else x as int, 4)
  }

  function DecodeI32(b: seq<uint8>): int32
    requires |b| == 4
  {
    var u := DecodeLE(b);
    if u >= 0x8000_0000 then (u - TWO_32) as int32 else u as int32
  }

  lemma U32RoundTrip(x: uint32)
    ensures DecodeU32(EncodeU32(x)) == x
  {
    DecodeEncodeLE(x as nat, 4);
  }

  lemma U64RoundTrip(x: uint64)
    ensures DecodeU64(EncodeU64(x)) == x
  {
    DecodeEncodeLE(x as nat, 8);
  }

  lemma I32RoundTrip(x: int32)
    ensures DecodeI32(EncodeI32(x)) == x
  {
    DecodeEncodeLE(if x < 0 then x as int + TWO_32 else x as int, 4);
  }

  /** The two halves of a concatenation, as the cursor of a reader sees them. */
  lemma SplitAt<T>(a: seq<T>, b: seq<T>)
    ensures (a + b)[..|a|] == a && (a + b)[|a|..] == b
  {
  }
}
