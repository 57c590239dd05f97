/**
 * The records of the `gpctl init` command: the YAML-level configuration (InitConfig, Segment,
 * SegmentPair, Locale) and the request records sent to the hub (the `idl` segment, segment pair
 * and segment array). Go pointers that may be nil become Option; Go's `int` stays an
 * unbounded `int`, with its 64-bit range imposed where the code converts or multiplies.
 */
module InitTypes {
  import opened Wrappers

  /** Values of the gpservice constants package that the init command uses. */
  const GROUP_MIRRORING: string := "group"
  const SPREAD_MIRRORING: string := "spread"
  const DEFAULT_SEG_NAME: string := "gpseg"
  const DEFAULT_QD_MAX_CONNECT: int := 150
  const QE_CONNECT_FACTOR: int := 3
  const DEFAULT_BUFFER: string := "128000kB"
  const DEFAULT_ENCODING: string := "UTF-8"
  const SQL_ASCII: string := "SQL_ASCII"

  /** The viper keys of the configuration file that the command looks at. */
  const KEY_COORDINATOR: string := "coordinator"
  const KEY_SEGMENT_ARRAY: string := "segment-array"
  const KEY_LOCALE: string := "locale"
  const KEY_HOSTLIST: string := "hostlist"
  const KEY_PRIMARY_BASE_PORT: string := "primary-base-port"
  const KEY_PRIMARY_DATA_DIRECTORIES: string := "primary-data-directories"
  const KEY_MIRRORING_TYPE: string := "mirroring-type"
  const KEY_MIRROR_BASE_PORT: string := "mirror-base-port"
  const KEY_MIRROR_DATA_DIRECTORIES: string := "mirror-data-directories"

  datatype Locale = Locale(
    lcAll: string, lcCollate: string, lcCtype: string, lcMessages: string,
    lcMonetary: string, lcNumeric: string, lcTime: string)

  /** A segment as written in the configuration file. */
  datatype Segment = Segment(hostname: string, address: string, port: int, dataDirectory: string)

  /** A primary and its mirror; either pointer may be nil. */
  datatype SegmentPair = SegmentPair(primary: Option<Segment>, mirror: Option<Segment>)

  datatype InitConfig = InitConfig(
    dbName: string,
    encoding: string,
    hbaHostnames: bool,
    dataChecksums: bool,
    suPassword: string,
    locale: Locale,
    commonConfig: map<string, string>,
    coordinatorConfig: map<string, string>,
    segmentConfig: map<string, string>,
    coordinator: Segment,
    segmentArray: seq<SegmentPair>,
    // expansion parameters
    primaryBasePort: int,
    primaryDataDirectories: seq<string>,
    hostList: seq<string>,
    mirrorBasePort: int,
    mirrorDataDirectories: seq<string>,
    mirroringType: string)

  /** `idl.Segment`: the port is an int32. */
  datatype IdlSegment = IdlSegment(port: int, dataDirectory: string, hostName: string, hostAddress: string)

  datatype IdlSegmentPair = IdlSegmentPair(primary: Option<IdlSegment>, mirror: Option<IdlSegment>)

  datatype GpArray = GpArray(coordinator: IdlSegment, segmentArray: seq<IdlSegmentPair>)

  /** A Go map lookup: the stored value, or the zero value "" for a missing key. */
  function Lookup(m: map<string, string>, key: string): string
  {
    if key in m then m[key] else ""
  }

  /** `request.GetPrimarySegments()`: the primaries that are present, in pair order. */
  function PrimarySegments(pairs: seq<IdlSegmentPair>): (r: seq<IdlSegment>)
    ensures |r| <= |pairs|
    ensures forall s :: s in r <==> exists p :: p in pairs && p.primary == Some(s)
  {
    if |pairs| == 0 then []
    else
      var rest := PrimarySegments(pairs[1..]);
      assert forall p :: p in pairs[1..] ==> p in pairs;
      (if pairs[0].primary.Some? then [pairs[0].primary.value] else []) + rest
  }

  /** `request.GetMirrorSegments()`: the mirrors that are present, in pair order. */
  function MirrorSegments(pairs: seq<IdlSegmentPair>): (r: seq<IdlSegment>)
    ensures |r| <= |pairs|
    ensures forall s :: s in r <==> exists p :: p in pairs && p.mirror == Some(s)
  {
    if |pairs| == 0 then []
    else
      var rest := MirrorSegments(pairs[1..]);
      assert forall p :: p in pairs[1..] ==> p in pairs;
      (if pairs[0].mirror.Some? then [pairs[0].mirror.value] else []) + rest
  }

  /** Every pair has its primary exactly when none is dropped by PrimarySegments. */
  lemma {:induction false} PrimarySegmentsComplete(pairs: seq<IdlSegmentPair>)
    ensures |PrimarySegments(pairs)| == |pairs| <==> forall i :: 0 <= i < |pairs| ==> pairs[i].primary.Some?
  {
    if |pairs| > 0 {
      PrimarySegmentsComplete(pairs[1..]);
      assert forall i :: 1 <= i < |pairs| ==> pairs[i] == pairs[1..][i - 1];
    }
  }

  /** Every pair has its mirror exactly when none is dropped by MirrorSegments. */
  lemma {:induction false} MirrorSegmentsComplete(pairs: seq<IdlSegmentPair>)
    ensures |MirrorSegments(pairs)| == |pairs| <==> forall i :: 0 <= i < |pairs| ==> pairs[i].mirror.Some?
  {
    if |pairs| > 0 {
      MirrorSegmentsComplete(pairs[1..]);
      assert forall i :: 1 <= i < |pairs| ==> pairs[i] == pairs[1..][i - 1];
    }
  }

  /** When every pair has its primary, the primaries are listed position by position. */
  lemma {:induction false} PrimarySegmentsAt(pairs: seq<IdlSegmentPair>, k: nat)
    requires forall i :: 0 <= i < |pairs| ==> pairs[i].primary.Some?
    requires k < |pairs|
    ensures |PrimarySegments(pairs)| == |pairs| && PrimarySegments(pairs)[k] == pairs[k].primary.value
  {
    PrimarySegmentsComplete(pairs);
    if k > 0 {
      assert forall i :: 0 <= i < |pairs[1..]| ==> pairs[1..][i] == pairs[i + 1];
      PrimarySegmentsAt(pairs[1..], k - 1);
    }
  }

  /** When every pair has its mirror, the mirrors are listed position by position. */
  lemma {:induction false} MirrorSegmentsAt(pairs: seq<IdlSegmentPair>, k: nat)
    requires forall i :: 0 <= i < |pairs| ==> pairs[i].mirror.Some?
    requires k < |pairs|
    ensures |MirrorSegments(pairs)| == |pairs| && MirrorSegments(pairs)[k] == pairs[k].mirror.value
  {
    MirrorSegmentsComplete(pairs);
    if k > 0 {
      assert forall i :: 0 <= i < |pairs[1..]| ==> pairs[1..][i] == pairs[i + 1];
      MirrorSegmentsAt(pairs[1..], k - 1);
    }
  }

  /** There are no mirror segments exactly when no pair holds a mirror. */
  lemma {:induction false} MirrorSegmentsNone(pairs: seq<IdlSegmentPair>)
    ensures MirrorSegments(pairs) == [] <==> forall i :: 0 <= i < |pairs| ==> pairs[i].mirror.None?
  {
    if |pairs| > 0 {
      assert forall i :: 0 <= i < |pairs[1..]| ==> pairs[1..][i] == pairs[i + 1];
      MirrorSegmentsNone(pairs[1..]);
    }
  }
}
