/**
 * The distributed-transaction context descriptor (src/backend/cdb/cdbdtxcontextinfo.c).
 *
 * The coordinator fills one descriptor per dispatch unit (CreateOnCoordinator), serializes it
 * into the dispatch message (SerializeSize, Serialize), and every worker reads it back into its
 * own descriptor (Deserialize). Reset and Copy move a descriptor between states without
 * throwing away the snapshot buffer it already owns.
 *
 * The class DtxContextInfo holds the fields the C code updates in place; `Value()` packs them
 * into the datatype Dtx, on which the specification functions (ResetOf, SerializeSize, Encode,
 * DecodeInto) and the lemmas are stated.
 */
module CdbDtxContextInfo {
  import opened Wrappers
  import opened WireBytes
  import DS = DistributedSnapshots

  const INVALID_DISTRIBUTED_XID: uint64 := DS.INVALID_DISTRIBUTED_XID

  /** Room for a global transaction identifier; SerializeSize reserves it, Serialize never writes it. */
  const TMGIDSIZE: nat := 100
  /** Capacity of the restore-point name buffer. */
  const MAXFNAMELEN: nat := 64
  /** ~(uint32)0: the tag value that ends the session. */
  const SEGMATE_SYNC_LIMIT: uint32 := 0xFFFF_FFFF

  /** GpSnapshotMode codes; any other code read off the wire is kept and carries no payload. */
  const GP_SNAPSHOT_MODE_LOCAL: uint32 := 0
  const GP_SNAPSHOT_MODE_DISTRIBUTED: uint32 := 1
  const GP_SNAPSHOT_MODE_RESTOREPOINT: uint32 := 2

  /** sizeof of each field as the codec copies it. */
  const SIZEOF_DXID: nat := 8
  const SIZEOF_COMMAND_ID: nat := 4
  const SIZEOF_UINT32: nat := 4
  const SIZEOF_MODE: nat := 4
  const SIZEOF_BOOL: nat := 1
  const SIZEOF_INT: nat := 4

  /**
   * gpSnapshotInfo, a C union: the storage holds either a distributed snapshot or a
   * restore-point name. A zeroed name buffer covers the whole union, so read as a snapshot it
   * is the empty snapshot with no buffer (AsSnapshot).
   */
  datatype PayloadSlot = SnapshotSlot(ds: DS.DistributedSnapshot) | NameSlot(rpname: seq<uint8>)

  function ZeroName(): (r: seq<uint8>)
    ensures |r| == MAXFNAMELEN
    ensures forall i :: 0 <= i < |r| ==> r[i] == 0
  {
    seq(MAXFNAMELEN, _ => 0)
  }

  /** The union's storage read as a distributed snapshot. */
  function AsSnapshot(slot: PayloadSlot): DS.DistributedSnapshot
  {
    match slot
    case SnapshotSlot(ds) => ds
    case NameSlot(_) => DS.Zeroed()
  }

  /** The descriptor's fields, as a value. */
  datatype Dtx = Dtx(
    distributedXid: uint64,
    curcid: uint32,
    segmateSync: uint32,
    nestingLevel: uint32,
    gpSnapshotMode: uint32,
    gpSnapshotInfo: PayloadSlot,
    cursorContext: bool,
    distributedTxnOptions: int32)

  /**
   * The union holds what the mode says, and a name buffer that the mode does not select has
   * been zeroed (so reading it as a snapshot is sound).
   */
  predicate WellFormed(d: Dtx)
  {
    && (d.gpSnapshotInfo.SnapshotSlot? ==> DS.Valid(d.gpSnapshotInfo.ds))
    && (d.gpSnapshotInfo.NameSlot? ==> |d.gpSnapshotInfo.rpname| == MAXFNAMELEN)
    && (d.gpSnapshotMode == GP_SNAPSHOT_MODE_DISTRIBUTED ==> d.gpSnapshotInfo.SnapshotSlot?)
    && (d.gpSnapshotMode == GP_SNAPSHOT_MODE_RESTOREPOINT ==> d.gpSnapshotInfo.NameSlot?)
    && (d.gpSnapshotInfo.NameSlot? && d.gpSnapshotMode != GP_SNAPSHOT_MODE_RESTOREPOINT ==>
          d.gpSnapshotInfo.rpname == ZeroName())
  }

  /** The payload a descriptor carries, selected by its mode. */
  datatype Payload = NoPayload | SnapshotPayload(snapshot: DS.SnapshotView) | NamePayload(rpname: seq<uint8>)

  /** What a descriptor means: every field, and the payload of its mode only. */
  datatype DtxView = DtxView(
    distributedXid: uint64,
    curcid: uint32,
    segmateSync: uint32,
    nestingLevel: uint32,
    gpSnapshotMode: uint32,
    cursorContext: bool,
    distributedTxnOptions: int32,
    payload: Payload)

  function View(d: Dtx): DtxView
    requires WellFormed(d)
  {
    DtxView(d.distributedXid, d.curcid, d.segmateSync, d.nestingLevel, d.gpSnapshotMode, d.cursorContext,
            d.distributedTxnOptions,
            if d.gpSnapshotMode == GP_SNAPSHOT_MODE_DISTRIBUTED then SnapshotPayload(DS.View(d.gpSnapshotInfo.ds))
            else if d.gpSnapshotMode == GP_SNAPSHOT_MODE_RESTOREPOINT then NamePayload(d.gpSnapshotInfo.rpname)
            else NoPayload)
  }

  // ---------------------------------------------------------------------------------------
  // Restore-point names

  /** Length of the C string held in `s`: the index of its first NUL, or |s| when there is none. */
  function CStrLen(s: seq<uint8>): (n: nat)
    ensures n <= |s|
    ensures forall i :: 0 <= i < n ==> s[i] != 0
    ensures n < |s| ==> s[n] == 0
  {
    if |s| == 0 || s[0] == 0 then 0 else 1 + CStrLen(s[1..])
  }

  /** The C string held in a buffer. */
  function CString(s: seq<uint8>): seq<uint8>
  {
    s[..CStrLen(s)]
  }

  /**
   * StrNCpy(dst, src, MAXFNAMELEN): copies the string up to its NUL, at most MAXFNAMELEN - 1
   * bytes, and zero-fills the rest of the buffer.
   */
  function StrNCpy(src: seq<uint8>): (r: seq<uint8>)
    ensures |r| == MAXFNAMELEN && r[MAXFNAMELEN - 1] == 0
  {
    var n := if CStrLen(src) < MAXFNAMELEN - 1 then CStrLen(src) else MAXFNAMELEN - 1;
    src[..n] + seq(MAXFNAMELEN - n, _ => 0)
  }

  /** StrNCpy keeps the name, cut to MAXFNAMELEN - 1 bytes, and copying a copy changes nothing. */
  lemma StrNCpyKeepsName(src: seq<uint8>)
    ensures CString(StrNCpy(src)) == if CStrLen(src) < MAXFNAMELEN then CString(src) else src[..MAXFNAMELEN - 1]
    ensures StrNCpy(StrNCpy(src)) == StrNCpy(src)
  {
    var n := if CStrLen(src) < MAXFNAMELEN - 1 then CStrLen(src) else MAXFNAMELEN - 1;
    var r := StrNCpy(src);
    assert r[n] == 0;
    assert forall i :: 0 <= i < n ==> r[i] == src[i] != 0;
    CStrLenIs(r, n);
    assert StrNCpy(r) == r[..n] + seq(MAXFNAMELEN - n, _ => 0);
  }

  /** A buffer whose first NUL is at `n` holds a string of length `n`. */
  lemma {:induction false} CStrLenIs(s: seq<uint8>, n: nat)
    requires n <= |s|
    requires forall i :: 0 <= i < n ==> s[i] != 0
    requires n < |s| ==> s[n] == 0
    ensures CStrLen(s) == n
  {
    if n > 0 {
      CStrLenIs(s[1..], n - 1);
    }
  }

  // ---------------------------------------------------------------------------------------
  // Reset

  /** The union after Reset: snapshot reset if the mode was Distributed, name zeroed if RestorePoint. */
  function ResetSlot(d: Dtx): PayloadSlot
  {
    if d.gpSnapshotMode == GP_SNAPSHOT_MODE_DISTRIBUTED then SnapshotSlot(DS.Reset(AsSnapshot(d.gpSnapshotInfo)))
    else if d.gpSnapshotMode == GP_SNAPSHOT_MODE_RESTOREPOINT then NameSlot(ZeroName())
    else d.gpSnapshotInfo
  }

  /** DtxContextInfo_Reset on a value. */
  function ResetOf(d: Dtx): (r: Dtx)
    ensures WellFormed(d) ==> WellFormed(r)
  {
    Dtx(INVALID_DISTRIBUTED_XID, 0, 0, 0, GP_SNAPSHOT_MODE_LOCAL, ResetSlot(d), d.cursorContext, 0)
  }

  /** The logical state Reset leaves: no distributed transaction, Local mode, every counter zero. */
  predicate IsResetState(d: Dtx)
  {
    && d.distributedXid == INVALID_DISTRIBUTED_XID
    && d.curcid == 0 && d.segmateSync == 0 && d.nestingLevel == 0
    && d.gpSnapshotMode == GP_SNAPSHOT_MODE_LOCAL
    && d.distributedTxnOptions == 0
  }

  /**
   * Reset clears the logical state, keeps cursorContext and the snapshot buffer, and a second
   * Reset changes nothing.
   */
  lemma ResetProperties(d: Dtx)
    requires WellFormed(d)
    ensures IsResetState(ResetOf(d)) && View(ResetOf(d)).payload == NoPayload
    ensures ResetOf(d).cursorContext == d.cursorContext
    ensures AsSnapshot(ResetOf(d).gpSnapshotInfo).inProgressXidArray == AsSnapshot(d.gpSnapshotInfo).inProgressXidArray
    ensures ResetOf(ResetOf(d)) == ResetOf(d)
  {
  }

  // ---------------------------------------------------------------------------------------
  // Wire codec

  /** DtxContextInfo_SerializeSize: the buffer size callers allocate before Serialize. */
  function SerializeSize(d: Dtx): int
  {
    SIZEOF_DXID
      + (if d.distributedXid != INVALID_DISTRIBUTED_XID then TMGIDSIZE + SIZEOF_COMMAND_ID else 0)
      + SIZEOF_UINT32 + SIZEOF_UINT32 + SIZEOF_MODE + SIZEOF_BOOL
      + (if d.gpSnapshotMode == GP_SNAPSHOT_MODE_DISTRIBUTED then DS.SerializeSize(AsSnapshot(d.gpSnapshotInfo))
         else if d.gpSnapshotMode == GP_SNAPSHOT_MODE_RESTOREPOINT then MAXFNAMELEN
         else 0)
      + SIZEOF_INT
  }

  function EncodeBool(b: bool): (r: seq<uint8>)
    ensures |r| == SIZEOF_BOOL
  {
    [if b then 1 else 0]
  }

  /** The payload bytes Serialize writes for the descriptor's mode. */
  function EncodePayload(d: Dtx): seq<uint8>
    requires WellFormed(d)
  {
    if d.gpSnapshotMode == GP_SNAPSHOT_MODE_DISTRIBUTED then DS.Serialize(d.gpSnapshotInfo.ds)
    else if d.gpSnapshotMode == GP_SNAPSHOT_MODE_RESTOREPOINT then d.gpSnapshotInfo.rpname
    else []
  }

  /** The command id travels only with a valid xid. */
  function EncodeCommandId(d: Dtx): seq<uint8>
  {
    if d.distributedXid != INVALID_DISTRIBUTED_XID then EncodeU32(d.curcid) else []
  }

  /** The bytes Serialize writes after the xid and command id: every remaining field and the payload. */
  function EncodeFields(d: Dtx): seq<uint8>
    requires WellFormed(d)
  {
    EncodeU32(d.segmateSync)
      + (EncodeU32(d.nestingLevel)
      + (EncodeU32(d.gpSnapshotMode)
      + (EncodeBool(d.cursorContext)
      + (EncodePayload(d)
      + EncodeI32(d.distributedTxnOptions)))))
  }

  /**
   * The bytes DtxContextInfo_Serialize writes, in order. The TMGIDSIZE bytes SerializeSize
   * reserves for a valid xid are never written, so the size is exact for an invalid xid and
   * TMGIDSIZE too large otherwise.
   */
  function Encode(d: Dtx): (r: seq<uint8>)
    requires WellFormed(d)
    ensures |r| + (if d.distributedXid != INVALID_DISTRIBUTED_XID then TMGIDSIZE else 0) == SerializeSize(d)
    ensures |r| <= SerializeSize(d)
  {
    EncodeU64(d.distributedXid) + (EncodeCommandId(d) + EncodeFields(d))
  }

  /** The fixed part after the xid and command id: segmateSync, nestingLevel, mode, cursorContext. */
  const FIXED_FIELDS: nat := SIZEOF_UINT32 + SIZEOF_UINT32 + SIZEOF_MODE + SIZEOF_BOOL

  /**
   * The payload read at the front of `data` for `mode` into the storage `slot`, with the number
   * of bytes consumed; None when `data` is too short. Other modes carry no payload.
   */
  function DecodePayload(data: seq<uint8>, mode: uint32, slot: PayloadSlot): (r: Option<(PayloadSlot, nat)>)
    ensures r.Some? ==> r.value.1 <= |data|
  {
    if mode == GP_SNAPSHOT_MODE_DISTRIBUTED then
      match DS.Deserialize(data, AsSnapshot(slot))
      case None => None
      case Some((ds, used)) => Some((SnapshotSlot(ds), used))
    else if mode == GP_SNAPSHOT_MODE_RESTOREPOINT then
      if |data| < MAXFNAMELEN then None else Some((NameSlot(data[..MAXFNAMELEN]), MAXFNAMELEN))
    else Some((slot, 0))
  }

  /**
   * Reads the fields that follow the xid and command id, each at the front of what is left;
   * the payload goes into `base`'s storage. Read into a reset descriptor, the result is well
   * formed whatever mode code the bytes carry.
   */
  function DecodeFields(rest: seq<uint8>, xid: uint64, curcid: uint32, base: Dtx): (r: Option<Dtx>)
    ensures r.Some? && WellFormed(base) && base.gpSnapshotMode == GP_SNAPSHOT_MODE_LOCAL ==> WellFormed(r.value)
  {
    if |rest| < FIXED_FIELDS then None
    else
      var segmateSync := DecodeU32(rest[..SIZEOF_UINT32]);
      var afterSync := rest[SIZEOF_UINT32..];
      var nestingLevel := DecodeU32(afterSync[..SIZEOF_UINT32]);
      var afterNesting := afterSync[SIZEOF_UINT32..];
      var mode := DecodeU32(afterNesting[..SIZEOF_MODE]);
      var afterMode := afterNesting[SIZEOF_MODE..];
      var cursorContext := afterMode[0] != 0;
      var afterCursor := afterMode[SIZEOF_BOOL..];
      var payload := DecodePayload(afterCursor, mode, base.gpSnapshotInfo);
      if payload.None? then None
      else
        var afterPayload := afterCursor[payload.value.1..];
        if |afterPayload| < SIZEOF_INT then None
        else
          Some(Dtx(xid, curcid, segmateSync, nestingLevel, mode, payload.value.0, cursorContext,
                   DecodeI32(afterPayload[..SIZEOF_INT])))
  }

  /**
   * What DtxContextInfo_Deserialize reads from `data` into the already reset descriptor
   * `base`, field by field in Serialize's order; None when `data` ends before the last field.
   * Without a valid xid no command id is read and `base`'s stays.
   */
  function DecodeInto(data: seq<uint8>, base: Dtx): (r: Option<Dtx>)
    ensures r.Some? && WellFormed(base) && base.gpSnapshotMode == GP_SNAPSHOT_MODE_LOCAL ==> WellFormed(r.value)
  {
    if |data| < SIZEOF_DXID then None
    else
      var xid := DecodeU64(data[..SIZEOF_DXID]);
      var afterXid := data[SIZEOF_DXID..];
      if xid == INVALID_DISTRIBUTED_XID then DecodeFields(afterXid, xid, base.curcid, base)
      else if |afterXid| < SIZEOF_COMMAND_ID then None
      else DecodeFields(afterXid[SIZEOF_COMMAND_ID..], xid, DecodeU32(afterXid[..SIZEOF_COMMAND_ID]), base)
  }

  /** The fields after the command id come back from their bytes. */
  lemma {:induction false} DecodeEncodeFields(d: Dtx, base: Dtx)
    requires WellFormed(d) && WellFormed(base)
    requires base.gpSnapshotMode == GP_SNAPSHOT_MODE_LOCAL
    ensures DecodeFields(EncodeFields(d), d.distributedXid, d.curcid, base).Some?
    ensures View(DecodeFields(EncodeFields(d), d.distributedXid, d.curcid, base).value) == View(d)
  {
    var options := EncodeI32(d.distributedTxnOptions);
    var afterCursor := EncodePayload(d) + options;
    var afterMode := EncodeBool(d.cursorContext) + afterCursor;
    var afterNesting := EncodeU32(d.gpSnapshotMode) + afterMode;
    var afterSync := EncodeU32(d.nestingLevel) + afterNesting;
    SplitAt(EncodeU32(d.segmateSync), afterSync);
    SplitAt(EncodeU32(d.nestingLevel), afterNesting);
    SplitAt(EncodeU32(d.gpSnapshotMode), afterMode);
    SplitAt(EncodeBool(d.cursorContext), afterCursor);
    SplitAt(EncodePayload(d), options);
    U32RoundTrip(d.segmateSync);
    U32RoundTrip(d.nestingLevel);
    U32RoundTrip(d.gpSnapshotMode);
    I32RoundTrip(d.distributedTxnOptions);
    assert options[..SIZEOF_INT] == options;
    var payload := DecodePayload(afterCursor, d.gpSnapshotMode, base.gpSnapshotInfo);
    if d.gpSnapshotMode == GP_SNAPSHOT_MODE_DISTRIBUTED {
      DS.DeserializeSerialize(d.gpSnapshotInfo.ds, AsSnapshot(base.gpSnapshotInfo), options);
    } else if d.gpSnapshotMode == GP_SNAPSHOT_MODE_RESTOREPOINT {
      assert payload == Some((d.gpSnapshotInfo, MAXFNAMELEN));
    }
  }

  /**
   * Round trip: the worker reading what the coordinator wrote, into any descriptor it reset,
   * gets every field and the payload of the mode back. The command id travels only with a
   * valid xid, so for an invalid xid it must already be 0.
   */
  lemma {:induction false} DeserializeSerialize(d: Dtx, prior: Dtx)
    requires WellFormed(d) && WellFormed(prior)
    requires d.distributedXid == INVALID_DISTRIBUTED_XID ==> d.curcid == 0
    ensures DecodeInto(Encode(d), ResetOf(prior)).Some?
    ensures WellFormed(DecodeInto(Encode(d), ResetOf(prior)).value)
    ensures View(DecodeInto(Encode(d), ResetOf(prior)).value) == View(d)
  {
    var base := ResetOf(prior);
    SplitAt(EncodeU64(d.distributedXid), EncodeCommandId(d) + EncodeFields(d));
    U64RoundTrip(d.distributedXid);
    if d.distributedXid != INVALID_DISTRIBUTED_XID {
      SplitAt(EncodeU32(d.curcid), EncodeFields(d));
      U32RoundTrip(d.curcid);
    } else {
      assert EncodeCommandId(d) + EncodeFields(d) == EncodeFields(d);
    }
    DecodeEncodeFields(d, base);
  }

  // ---------------------------------------------------------------------------------------
  // The coordinator's snapshot and the dispatch-unit counter

  /** The parts of the coordinator's active snapshot that CreateOnCoordinator reads. */
  datatype Snapshot = Snapshot(
    curcid: uint32,
    gpSnapshotMode: uint32,
    ds: DS.DistributedSnapshot,
    rpname: seq<uint8>)

  predicate SnapshotWellFormed(s: Snapshot)
  {
    DS.Valid(s.ds) && |s.rpname| == MAXFNAMELEN
  }

  /** ++ on a uint32: wraps to 0 after 0xFFFFFFFF. */
  function Increment32(x: uint32): (r: uint32)
    ensures x < SEGMATE_SYNC_LIMIT ==> r as int == x as int + 1
  {
    if x == SEGMATE_SYNC_LIMIT then 0 else x + 1
  }

  /** The tag a new dispatch unit gets: the current count inside a cursor, the advanced count otherwise. */
  function NextSyncCount(syncCount: uint32, inCursor: bool): uint32
  {
    if inCursor then syncCount else Increment32(syncCount)
  }

  /** The union after the snapshot's payload is taken into `slot` (a deep copy; the name cut by StrNCpy). */
  function TakePayload(slot: PayloadSlot, s: Snapshot): PayloadSlot
    requires SnapshotWellFormed(s)
  {
    if s.gpSnapshotMode == GP_SNAPSHOT_MODE_DISTRIBUTED then SnapshotSlot(DS.Copy(AsSnapshot(slot), s.ds))
    else if s.gpSnapshotMode == GP_SNAPSHOT_MODE_RESTOREPOINT then NameSlot(StrNCpy(s.rpname))
    else slot
  }

  /**
   * The descriptor CreateOnCoordinator leaves, given the one it starts from and the tag it
   * stamps. At the tag 0xFFFFFFFF the session ends (FATAL) with only the xid, command id and
   * tag written after the Reset.
   */
  function CreatedOnCoordinator(d: Dtx, tag: uint32, inCursor: bool, txnOptions: int32, snapshot: Option<Snapshot>,
                                currentDistributedXid: uint64, currentNestLevel: uint32): Dtx
    requires snapshot.Some? ==> SnapshotWellFormed(snapshot.value)
  {
    var cid := if snapshot.Some? && currentDistributedXid != INVALID_DISTRIBUTED_XID then snapshot.value.curcid else 0;
    if tag == SEGMATE_SYNC_LIMIT then
      Dtx(currentDistributedXid, cid, tag, 0, GP_SNAPSHOT_MODE_LOCAL, ResetSlot(d), d.cursorContext, 0)
    else if snapshot.None? then
      Dtx(currentDistributedXid, cid, tag, currentNestLevel, GP_SNAPSHOT_MODE_LOCAL, ResetSlot(d), inCursor, txnOptions)
    else
      Dtx(currentDistributedXid, cid, tag, currentNestLevel, snapshot.value.gpSnapshotMode,
          TakePayload(ResetSlot(d), snapshot.value), inCursor, txnOptions)
  }

  /**
   * What a descriptor created on the coordinator carries: the current xid, the snapshot's
   * command id only under a valid xid, the tag; unless the session ended, the cursor flag,
   * nesting level, options, and the snapshot's mode with a copy of its payload (Local with no
   * snapshot). The result is well formed.
   */
  lemma CreatedOnCoordinatorProperties(d: Dtx, tag: uint32, inCursor: bool, txnOptions: int32, snapshot: Option<Snapshot>,
                                       currentDistributedXid: uint64, currentNestLevel: uint32)
    requires WellFormed(d)
    requires snapshot.Some? ==> SnapshotWellFormed(snapshot.value)
    ensures var r := CreatedOnCoordinator(d, tag, inCursor, txnOptions, snapshot, currentDistributedXid, currentNestLevel);
      && WellFormed(r)
      && r.distributedXid == currentDistributedXid
      && r.curcid == (if currentDistributedXid != INVALID_DISTRIBUTED_XID && snapshot.Some? then snapshot.value.curcid else 0)
      && r.segmateSync == tag
      && (tag != SEGMATE_SYNC_LIMIT ==>
            && r.cursorContext == inCursor && r.nestingLevel == currentNestLevel
            && r.distributedTxnOptions == txnOptions
            && r.gpSnapshotMode == (if snapshot.Some? then snapshot.value.gpSnapshotMode else GP_SNAPSHOT_MODE_LOCAL)
            && View(r).payload == (if snapshot.None? then NoPayload
                                   else if snapshot.value.gpSnapshotMode == GP_SNAPSHOT_MODE_DISTRIBUTED
                                   then SnapshotPayload(DS.View(snapshot.value.ds))
                                   else if snapshot.value.gpSnapshotMode == GP_SNAPSHOT_MODE_RESTOREPOINT
                                   then NamePayload(StrNCpy(snapshot.value.rpname))
                                   else NoPayload))
  {
  }

  /** A descriptor created on the coordinator from a well-formed one is well formed. */
  lemma CreatedOnCoordinatorWellFormed(d: Dtx, tag: uint32, inCursor: bool, txnOptions: int32, snapshot: Option<Snapshot>,
                                       currentDistributedXid: uint64, currentNestLevel: uint32)
    requires WellFormed(d)
    requires snapshot.Some? ==> SnapshotWellFormed(snapshot.value)
    ensures WellFormed(CreatedOnCoordinator(d, tag, inCursor, txnOptions, snapshot, currentDistributedXid, currentNestLevel))
  {
  }

  /** The counter only moves forward by one per dispatch unit until it reaches 0xFFFFFFFF, where the session ends. */
  lemma NextSyncCountAdvances(syncCount: uint32, inCursor: bool)
    ensures inCursor ==> NextSyncCount(syncCount, inCursor) == syncCount
    ensures !inCursor && syncCount < SEGMATE_SYNC_LIMIT ==> NextSyncCount(syncCount, inCursor) as int == syncCount as int + 1
    ensures !inCursor && syncCount == SEGMATE_SYNC_LIMIT ==> NextSyncCount(syncCount, inCursor) == 0
  {
  }

  /** The counter after a run of dispatch units, each in a cursor or not. */
  function SyncCountAfter(syncCount: uint32, inCursor: seq<bool>): uint32
    decreases |inCursor|
  {
    if |inCursor| == 0 then syncCount else SyncCountAfter(NextSyncCount(syncCount, inCursor[0]), inCursor[1..])
  }

  /** How many of the dispatch units are outside a cursor (each of those advances the counter). */
  function NonCursorCount(inCursor: seq<bool>): (n: nat)
    ensures n <= |inCursor|
  {
    if |inCursor| == 0 then 0 else (if inCursor[0] then 0 else 1) + NonCursorCount(inCursor[1..])
  }

  /** Until the limit is reached the counter is its start plus the number of non-cursor units. */
  lemma {:induction false} SyncCountAfterCounts(syncCount: uint32, inCursor: seq<bool>)
    requires syncCount as int + NonCursorCount(inCursor) <= SEGMATE_SYNC_LIMIT as int
    ensures SyncCountAfter(syncCount, inCursor) as int == syncCount as int + NonCursorCount(inCursor)
    decreases |inCursor|
  {
    if |inCursor| > 0 {
      SyncCountAfterCounts(NextSyncCount(syncCount, inCursor[0]), inCursor[1..]);
    }
  }

  /** Counting over a prefix and the rest. */
  lemma {:induction false} NonCursorCountSplit(inCursor: seq<bool>, k: nat)
    requires k <= |inCursor|
    ensures NonCursorCount(inCursor) == NonCursorCount(inCursor[..k]) + NonCursorCount(inCursor[k..])
  {
    if k > 0 {
      NonCursorCountSplit(inCursor[1..], k - 1);
      assert inCursor[..k][1..] == inCursor[1..][..k - 1];
      assert inCursor[k..] == inCursor[1..][k - 1..];
    }
  }

  /**
   * The tag of unit j (the counter after units 0..j) is strictly greater than the tag of every
   * earlier unit i when unit j is outside a cursor, as long as the counter has not reached the
   * limit.
   */
  lemma NonCursorTagExceedsEarlier(syncCount: uint32, inCursor: seq<bool>, i: nat, j: nat)
    requires i < j < |inCursor| && !inCursor[j]
    requires syncCount as int + NonCursorCount(inCursor) <= SEGMATE_SYNC_LIMIT as int
    ensures SyncCountAfter(syncCount, inCursor[..i + 1]) < SyncCountAfter(syncCount, inCursor[..j + 1])
  {
    var upToJ := inCursor[..j + 1];
    var upToI := inCursor[..i + 1];
    var between := upToJ[i + 1..];
    NonCursorCountSplit(inCursor, j + 1);
    NonCursorCountSplit(upToJ, i + 1);
    assert upToJ[..i + 1] == upToI;
    NonCursorCountSplit(between, j - i - 1);
    assert between[j - i - 1..] == [inCursor[j]];
    assert NonCursorCount([inCursor[j]]) == 1;
    assert NonCursorCount(upToI) < NonCursorCount(upToJ);
    SyncCountAfterCounts(syncCount, upToI);
    SyncCountAfterCounts(syncCount, upToJ);
  }

  /** syncCount: the backend-wide source of dispatch-unit tags, starting at 1. */
  class Session {
    var syncCount: uint32

    constructor()
      ensures syncCount == 1
    {
      syncCount := 1;
    }
  }

  // ---------------------------------------------------------------------------------------
  // The descriptor

  class DtxContextInfo {
    var distributedXid: uint64
    var curcid: uint32
    var segmateSync: uint32
    var nestingLevel: uint32
    var gpSnapshotMode: uint32
    var gpSnapshotInfo: PayloadSlot
    var cursorContext: bool
    var distributedTxnOptions: int32

    function Value(): Dtx
      reads this
    {
      Dtx(distributedXid, curcid, segmateSync, nestingLevel, gpSnapshotMode, gpSnapshotInfo, cursorContext,
          distributedTxnOptions)
    }

    predicate Valid()
      reads this
    {
      WellFormed(Value())
    }

    /** A descriptor in zeroed memory, as the session allocates it. */
    constructor()
      ensures Valid() && IsResetState(Value()) && !cursorContext
      ensures gpSnapshotInfo == SnapshotSlot(DS.Zeroed())
    {
      distributedXid := INVALID_DISTRIBUTED_XID;
      curcid, segmateSync, nestingLevel := 0, 0, 0;
      gpSnapshotMode := GP_SNAPSHOT_MODE_LOCAL;
      gpSnapshotInfo := SnapshotSlot(DS.Zeroed());
      cursorContext := false;
      distributedTxnOptions := 0;
    }

    /**
     * DtxContextInfo_Reset: clears the transaction fields and the mode, resets the payload the
     * old mode selected (keeping the snapshot's buffer), and leaves cursorContext alone.
     */
    method Reset()
      requires Valid()
      modifies this
      ensures Valid() && Value() == ResetOf(old(Value()))
    {
      distributedXid := INVALID_DISTRIBUTED_XID;
      curcid := 0;
      segmateSync := 0;
      nestingLevel := 0;
      if gpSnapshotMode == GP_SNAPSHOT_MODE_DISTRIBUTED {
        gpSnapshotInfo := SnapshotSlot(DS.Reset(AsSnapshot(gpSnapshotInfo)));
      } else if gpSnapshotMode == GP_SNAPSHOT_MODE_RESTOREPOINT {
        gpSnapshotInfo := NameSlot(ZeroName());
      }
      gpSnapshotMode := GP_SNAPSHOT_MODE_LOCAL;
      distributedTxnOptions := 0;
    }

    /**
     * DtxContextInfo_Copy: resets this descriptor, then takes every field of `source` and a
     * deep copy of the payload of the source's mode (the snapshot into this descriptor's own
     * buffer, the name through StrNCpy).
     */
    method Copy(source: DtxContextInfo)
      requires Valid() && source.Valid()
      requires source != this
      modifies this
      ensures Valid()
      ensures distributedXid == source.distributedXid && curcid == source.curcid
      ensures segmateSync == source.segmateSync && nestingLevel == source.nestingLevel
      ensures gpSnapshotMode == source.gpSnapshotMode && cursorContext == source.cursorContext
      ensures distributedTxnOptions == source.distributedTxnOptions
      ensures source.gpSnapshotMode == GP_SNAPSHOT_MODE_DISTRIBUTED ==>
                gpSnapshotInfo == SnapshotSlot(DS.Copy(AsSnapshot(ResetSlot(old(Value()))), source.gpSnapshotInfo.ds))
                && DS.View(gpSnapshotInfo.ds) == DS.View(source.gpSnapshotInfo.ds)
      ensures source.gpSnapshotMode == GP_SNAPSHOT_MODE_RESTOREPOINT ==>
                gpSnapshotInfo == NameSlot(StrNCpy(source.gpSnapshotInfo.rpname))
      ensures source.gpSnapshotMode != GP_SNAPSHOT_MODE_DISTRIBUTED && source.gpSnapshotMode != GP_SNAPSHOT_MODE_RESTOREPOINT ==>
                gpSnapshotInfo == ResetSlot(old(Value()))
    {
      Reset();
      distributedXid := source.distributedXid;
      segmateSync := source.segmateSync;
      nestingLevel := source.nestingLevel;
      curcid := source.curcid;
      gpSnapshotMode := source.gpSnapshotMode;
      cursorContext := source.cursorContext;
      if source.gpSnapshotMode == GP_SNAPSHOT_MODE_DISTRIBUTED {
        gpSnapshotInfo := SnapshotSlot(DS.Copy(AsSnapshot(gpSnapshotInfo), AsSnapshot(source.gpSnapshotInfo)));
      } else if source.gpSnapshotMode == GP_SNAPSHOT_MODE_RESTOREPOINT {
        gpSnapshotInfo := NameSlot(StrNCpy(source.gpSnapshotInfo.rpname));
      }
      distributedTxnOptions := source.distributedTxnOptions;
    }

    /**
     * DtxContextInfo_CreateOnCoordinator. The current distributed xid and nesting level, which
     * the C code asks the transaction manager for, are parameters. Returns true when the new
     * tag reached 0xFFFFFFFF: the C code raises FATAL there and the session ends, so nothing
     * after that point is done.
     */
    method CreateOnCoordinator(session: Session, inCursor: bool, txnOptions: int32, snapshot: Option<Snapshot>,
                               currentDistributedXid: uint64, currentNestLevel: uint32) returns (fatal: bool)
      requires Valid()
      requires snapshot.Some? ==> SnapshotWellFormed(snapshot.value)
      modifies this, session
      ensures session.syncCount == NextSyncCount(old(session.syncCount), inCursor)
      ensures fatal <==> session.syncCount == SEGMATE_SYNC_LIMIT
      ensures Value() == CreatedOnCoordinator(old(Value()), session.syncCount, inCursor, txnOptions, snapshot,
                                              currentDistributedXid, currentNestLevel)
      ensures Valid()
    {
      var cid: uint32 := 0;
      if snapshot.Some? {
        cid := snapshot.value.curcid;
      }
      Reset();
      distributedXid := currentDistributedXid;
      if distributedXid != INVALID_DISTRIBUTED_XID {
        curcid := cid;
      }
      if inCursor {
        segmateSync := session.syncCount;
      } else {
        session.syncCount := Increment32(session.syncCount);
        segmateSync := session.syncCount;
      }
      fatal := segmateSync == SEGMATE_SYNC_LIMIT;
      if !fatal {
        TakeRequest(inCursor, txnOptions, snapshot, currentNestLevel);
      }
      CreatedOnCoordinatorWellFormed(old(Value()), session.syncCount, inCursor, txnOptions, snapshot,
                                     currentDistributedXid, currentNestLevel);
    }

    /** The part of CreateOnCoordinator after the tag: the cursor flag, nesting level, snapshot and options. */
    method TakeRequest(inCursor: bool, txnOptions: int32, snapshot: Option<Snapshot>, currentNestLevel: uint32)
      requires snapshot.Some? ==> SnapshotWellFormed(snapshot.value)
      modifies this
      ensures Value() == old(Value()).(cursorContext := inCursor, nestingLevel := currentNestLevel,
        gpSnapshotMode := if snapshot.Some? then snapshot.value.gpSnapshotMode else GP_SNAPSHOT_MODE_LOCAL,
        gpSnapshotInfo := if snapshot.Some? then TakePayload(old(gpSnapshotInfo), snapshot.value) else old(gpSnapshotInfo),
        distributedTxnOptions := txnOptions)
    {
      cursorContext := inCursor;
      nestingLevel := currentNestLevel;
      if snapshot.Some? {
        gpSnapshotMode := snapshot.value.gpSnapshotMode;
        gpSnapshotInfo := TakePayload(gpSnapshotInfo, snapshot.value);
      } else {
        gpSnapshotMode := GP_SNAPSHOT_MODE_LOCAL;
      }
      distributedTxnOptions := txnOptions;
    }

    /**
     * DtxContextInfo_Serialize: writes the fields, in Encode's order, at the front of `buffer`
     * (the one the caller sized with SerializeSize), and returns how many bytes it wrote;
     * nothing past them changes. The field-by-field copies are one copy of Encode here.
     */
    method Serialize(buffer: array<uint8>) returns (used: nat)
      requires Valid()
      requires SerializeSize(Value()) <= buffer.Length
      modifies buffer
      ensures used == |Encode(Value())| <= SerializeSize(Value())
      ensures buffer[..used] == Encode(Value())
      ensures forall k :: used <= k < buffer.Length ==> buffer[k] == old(buffer[k])
    {
      used := MemCpy(buffer, 0, Encode(Value()));
    }

    /**
     * DtxContextInfo_Deserialize: resets this descriptor; when `len` is positive, reads the
     * fields back in Serialize's order at an advancing cursor, the payload into this
     * descriptor's own storage. The C code trusts `data` to hold a whole serialized descriptor;
     * so does the model.
     */
    method Deserialize(data: seq<uint8>, len: int)
      requires Valid()
      requires len > 0 ==> DecodeInto(data, ResetOf(Value())).Some?
      modifies this
      ensures len <= 0 ==> Value() == ResetOf(old(Value()))
      ensures len > 0 ==> Value() == DecodeInto(data, ResetOf(old(Value()))).value
      ensures Valid()
    {
      Reset();
      if len > 0 {
        ghost var base := Value();
        // The cursor is the front of `rest`.
        var rest := data;
        var xid := DecodeU64(rest[..SIZEOF_DXID]);
        rest := rest[SIZEOF_DXID..];
        var cid := curcid;
        if xid != INVALID_DISTRIBUTED_XID {
          cid := DecodeU32(rest[..SIZEOF_COMMAND_ID]);
          rest := rest[SIZEOF_COMMAND_ID..];
        }
        assert DecodeInto(data, base) == DecodeFields(rest, xid, cid, base);
        ReadFields(rest, xid, cid);
      }
    }

    /** The part of Deserialize after the command id: the remaining fields at an advancing cursor. */
    method ReadFields(data: seq<uint8>, xid: uint64, cid: uint32)
      requires DecodeFields(data, xid, cid, Value()).Some?
      modifies this
      ensures Value() == DecodeFields(data, xid, cid, old(Value())).value
    {
      var rest := data;
      var sync := DecodeU32(rest[..SIZEOF_UINT32]);
      rest := rest[SIZEOF_UINT32..];
      var nesting := DecodeU32(rest[..SIZEOF_UINT32]);
      rest := rest[SIZEOF_UINT32..];
      var mode := DecodeU32(rest[..SIZEOF_MODE]);
      rest := rest[SIZEOF_MODE..];
      var inCursor := rest[0] != 0;
      rest := rest[SIZEOF_BOOL..];
      var payload := DecodePayload(rest, mode, gpSnapshotInfo);
      rest := rest[payload.value.1..];
      var options := DecodeI32(rest[..SIZEOF_INT]);
      distributedXid, curcid, segmateSync, nestingLevel := xid, cid, sync, nesting;
      gpSnapshotMode, cursorContext, gpSnapshotInfo, distributedTxnOptions := mode, inCursor, payload.value.0, options;
    }
  }

  /** memcpy(buffer + p, bytes, |bytes|); gives the advanced cursor. */
  method MemCpy(buffer: array<uint8>, p: nat, bytes: seq<uint8>) returns (q: nat)
    requires p + |bytes| <= buffer.Length
    modifies buffer
    ensures q == p + |bytes|
    ensures buffer[..q] == old(buffer[..p]) + bytes
    ensures forall k :: q <= k < buffer.Length ==> buffer[k] == old(buffer[k])
  {
    var i := 0;
    while i < |bytes|
      invariant 0 <= i <= |bytes|
      invariant forall k :: 0 <= k < p ==> buffer[k] == old(buffer[k])
      invariant forall k :: 0 <= k < i ==> buffer[p + k] == bytes[k]
      invariant forall k :: p + i <= k < buffer.Length ==> buffer[k] == old(buffer[k])
    {
      buffer[p + i] := bytes[i];
      i := i + 1;
    }
    q := p + |bytes|;
    assert buffer[..q] == old(buffer[..p]) + bytes;
  }
}
