/**
 * The distributed snapshot, the collaborator the transaction context descriptor carries
 * when its mode is Distributed.
 *
 * Its own implementation lives outside this model; what is given here is a concrete stand-in
 * with the interface the descriptor uses (size, serialize, deserialize, copy, reset) and the
 * one behaviour the descriptor relies on: the in-progress-xid buffer is allocated once and
 * reused. `inProgressXidArray` is that whole buffer (its length is the allocated capacity);
 * only its first `count` entries are meaningful.
 */
module DistributedSnapshots {
  import opened Wrappers
  import opened WireBytes

  const INVALID_DISTRIBUTED_XID: uint64 := 0

  /** Encoded header: snapshot id (4), xminAllDistributedSnapshots (8), xmin (8), xmax (8), count (4). */
  const HEADER_SIZE: nat := 32
  const XID_SIZE: nat := 8

  datatype DistributedSnapshot = DistributedSnapshot(
    distribSnapshotId: uint32,
    xminAllDistributedSnapshots: uint64,
    xmin: uint64,
    xmax: uint64,
    count: nat,
    inProgressXidArray: seq<uint64>)

  /** The count fits the buffer and the signed 32-bit field that carries it. */
  predicate Valid(ds: DistributedSnapshot)
  {
    ds.count <= |ds.inProgressXidArray| && ds.count < 0x8000_0000
  }

  /** What a snapshot means: its header and the xids in progress, without the spare capacity. */
  datatype SnapshotView = SnapshotView(
    distribSnapshotId: uint32,
    xminAllDistributedSnapshots: uint64,
    xmin: uint64,
    xmax: uint64,
    inProgress: seq<uint64>)

  function View(ds: DistributedSnapshot): SnapshotView
    requires Valid(ds)
  {
    SnapshotView(ds.distribSnapshotId, ds.xminAllDistributedSnapshots, ds.xmin, ds.xmax,
                 ds.inProgressXidArray[..ds.count])
  }

  /** The snapshot that all-zero memory holds: empty, and no buffer allocated. */
  function Zeroed(): (r: DistributedSnapshot)
    ensures Valid(r) && r.inProgressXidArray == []
  {
    DistributedSnapshot(0, INVALID_DISTRIBUTED_XID, INVALID_DISTRIBUTED_XID, INVALID_DISTRIBUTED_XID, 0, [])
  }

  /** Clears the logical content and keeps the allocated buffer for reuse. */
  function Reset(ds: DistributedSnapshot): (r: DistributedSnapshot)
    ensures Valid(r) && View(r) == View(Zeroed())
    ensures r.inProgressXidArray == ds.inProgressXidArray
  {
    DistributedSnapshot(0, INVALID_DISTRIBUTED_XID, INVALID_DISTRIBUTED_XID, INVALID_DISTRIBUTED_XID, 0,
                        ds.inProgressXidArray)
  }

  /**
   * The buffer after `n` xids are written into `buffer`: reused when it can hold them,
   * replaced by one of exactly the needed size otherwise.
   */
  function Fill(buffer: seq<uint64>, xids: seq<uint64>): (r: seq<uint64>)
    ensures |r| == if |xids| <= |buffer| then |buffer| else |xids|
    ensures r[..|xids|] == xids
  {
    if |xids| <= |buffer| then xids + buffer[|xids|..] else xids
  }

  /** Deep copy of `source` into `target`, reusing the target's buffer when it is large enough. */
  function Copy(target: DistributedSnapshot, source: DistributedSnapshot): (r: DistributedSnapshot)
    requires Valid(source)
    ensures Valid(r) && View(r) == View(source)
    ensures |r.inProgressXidArray| >= |target.inProgressXidArray|
    ensures source.count <= |target.inProgressXidArray| ==> |r.inProgressXidArray| == |target.inProgressXidArray|
  {
    var xids := source.inProgressXidArray[..source.count];
    DistributedSnapshot(source.distribSnapshotId, source.xminAllDistributedSnapshots, source.xmin, source.xmax,
                        source.count, Fill(target.inProgressXidArray, xids))
  }

  function SerializeSize(ds: DistributedSnapshot): nat
  {
    HEADER_SIZE + XID_SIZE * ds.count
  }

  function EncodeXids(xids: seq<uint64>): (r: seq<uint8>)
    ensures |r| == XID_SIZE * |xids|
  {
    if xids == [] then [] else EncodeU64(xids[0]) + EncodeXids(xids[1..])
  }

  function DecodeXids(data: seq<uint8>, n: nat): (r: seq<uint64>)
    requires XID_SIZE * n <= |data|
    ensures |r| == n
  {
    if n == 0 then [] else [DecodeU64(data[..8])] + DecodeXids(data[8..], n - 1)
  }

  lemma {:induction false} DecodeEncodeXids(xids: seq<uint64>, rest: seq<uint8>)
    ensures DecodeXids(EncodeXids(xids) + rest, |xids|) == xids
  {
    if xids != [] {
      var data := EncodeXids(xids) + rest;
      assert data[..8] == EncodeU64(xids[0]);
      assert data[8..] == EncodeXids(xids[1..]) + rest;
      U64RoundTrip(xids[0]);
      DecodeEncodeXids(xids[1..], rest);
    }
  }

  function Serialize(ds: DistributedSnapshot): (r: seq<uint8>)
    requires Valid(ds)
    ensures |r| == SerializeSize(ds)
  {
    EncodeU32(ds.distribSnapshotId) + EncodeU64(ds.xminAllDistributedSnapshots) + EncodeU64(ds.xmin)
      + EncodeU64(ds.xmax) + EncodeI32(ds.count as int32) + EncodeXids(ds.inProgressXidArray[..ds.count])
  }

  /**
   * Reads a snapshot from the front of `data` into `target`'s storage; gives the snapshot and
   * the number of bytes consumed, or None when the bytes do not hold a whole snapshot.
   */
  function Deserialize(data: seq<uint8>, target: DistributedSnapshot): (r: Option<(DistributedSnapshot, nat)>)
    ensures r.Some? ==> Valid(r.value.0) && r.value.1 == SerializeSize(r.value.0) <= |data|
    ensures r.Some? ==> |r.value.0.inProgressXidArray| >= |target.inProgressXidArray|
  {
    if |data| < HEADER_SIZE then None
    else
      var count := DecodeI32(data[28..32]);
      if count < 0 || |data| < HEADER_SIZE + XID_SIZE * count as nat then None
      else
        var xids := DecodeXids(data[HEADER_SIZE..], count as nat);
        Some((DistributedSnapshot(DecodeU32(data[..4]), DecodeU64(data[4..12]), DecodeU64(data[12..20]),
                                  DecodeU64(data[20..28]), count as nat, Fill(target.inProgressXidArray, xids)),
              HEADER_SIZE + XID_SIZE * count as nat))
  }

  /** Deserializing what Serialize wrote, followed by anything, restores the snapshot's meaning. */
  lemma {:induction false} DeserializeSerialize(ds: DistributedSnapshot, target: DistributedSnapshot, rest: seq<uint8>)
    requires Valid(ds)
    ensures Deserialize(Serialize(ds) + rest, target).Some?
    ensures var (r, used) := Deserialize(Serialize(ds) + rest, target).value;
            used == SerializeSize(ds) && View(r) == View(ds)
  {
    var data := Serialize(ds) + rest;
    var xids := ds.inProgressXidArray[..ds.count];
    assert data[..4] == EncodeU32(ds.distribSnapshotId);
    assert data[4..12] == EncodeU64(ds.xminAllDistributedSnapshots);
    assert data[12..20] == EncodeU64(ds.xmin);
    assert data[20..28] == EncodeU64(ds.xmax);
    assert data[28..32] == EncodeI32(ds.count as int32);
    assert data[HEADER_SIZE..] == EncodeXids(xids) + rest;
    U32RoundTrip(ds.distribSnapshotId);
    U64RoundTrip(ds.xminAllDistributedSnapshots);
    U64RoundTrip(ds.xmin);
    U64RoundTrip(ds.xmax);
    I32RoundTrip(ds.count as int32);
    DecodeEncodeXids(xids, rest);
  }
}
