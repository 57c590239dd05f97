/**
 * The make-cluster request the init command sends to the hub, and its construction from the
 * configuration file (`CreateMakeClusterReq` with `SegmentToIdl`, `SegmentPairToIdl` and
 * `ClusterParamsToIdl`). A configuration port is a Go `int`; the request carries an `int32`,
 * so the conversion keeps the low 32 bits.
 */
module ClusterRequest {
  import opened Wrappers
  import opened GoStrings
  import opened InitTypes
  import opened ConfigParams

  /** SegmentToIdl: nil stays nil; otherwise the same segment with its port cut to 32 bits. */
  function SegmentToIdl(seg: Option<Segment>): (r: Option<IdlSegment>)
    ensures r.Some? <==> seg.Some?
    ensures seg.Some? ==> InInt32(r.value.port) && (r.value.port - seg.value.port) % TWO_32 == 0
  {
    match seg
    case None => None
    case Some(s) => Some(IdlSegment(WrapInt32(s.port), s.dataDirectory, s.hostname, s.address))
  }

  /** The configuration segment a request segment reads back as. */
  function IdlToSegment(s: IdlSegment): Segment
  {
    Segment(s.hostName, s.hostAddress, s.port, s.dataDirectory)
  }

  /** A segment whose port fits in 32 bits survives the conversion unchanged. */
  lemma SegmentToIdlRoundTrip(seg: Segment)
    requires InInt32(seg.port)
    ensures SegmentToIdl(Some(seg)).Some? && IdlToSegment(SegmentToIdl(Some(seg)).value) == seg
  {
  }

  /** A port beyond 32 bits is not refused: 4294974296 (2^32 + 7000) reaches the hub as 7000. */
  lemma SegmentToIdlWrapsPort()
    ensures SegmentToIdl(Some(Segment("sdw1", "sdw1", 4294974296, "/data/gpseg0"))) ==
      Some(IdlSegment(7000, "/data/gpseg0", "sdw1", "sdw1"))
  {
  }

  /** SegmentPairToIdl: both halves converted, a missing half staying missing. */
  function SegmentPairToIdl(pair: SegmentPair): (r: IdlSegmentPair)
    ensures r.primary.Some? <==> pair.primary.Some?
    ensures r.mirror.Some? <==> pair.mirror.Some?
  {
    IdlSegmentPair(SegmentToIdl(pair.primary), SegmentToIdl(pair.mirror))
  }

  /** ClusterParamsToIdl: the setting maps, locale and database options of the configuration. */
  function ClusterParamsToIdl(config: InitConfig): Params
  {
    Params(config.coordinatorConfig, config.segmentConfig, config.commonConfig, config.locale,
           config.hbaHostnames, config.encoding, config.suPassword, config.dbName, config.dataChecksums)
  }

  /** The converted segment array, pair by pair. */
  function PairsToIdl(pairs: seq<SegmentPair>): (r: seq<IdlSegmentPair>)
    ensures |r| == |pairs|
  {
    if |pairs| == 0 then [] else PairsToIdl(pairs[..|pairs| - 1]) + [SegmentPairToIdl(pairs[|pairs| - 1])]
  }

  /** Pair i of the converted array is the conversion of pair i. */
  lemma {:induction false} PairsToIdlAt(pairs: seq<SegmentPair>, i: nat)
    requires i < |pairs|
    ensures PairsToIdl(pairs)[i] == SegmentPairToIdl(pairs[i])
  {
    if i < |pairs| - 1 {
      PairsToIdlAt(pairs[..|pairs| - 1], i);
    }
  }

  /** `*idl.MakeClusterRequest`; the validation fills in its segments and parameters in place. */
  class MakeClusterRequest {
    var gpArray: GpArray
    const clusterParams: ClusterParams
    var forceFlag: bool
    var verbose: bool

    constructor (gpArray: GpArray, clusterParams: ClusterParams, forceFlag: bool, verbose: bool)
      ensures this.gpArray == gpArray && this.clusterParams == clusterParams
      ensures this.forceFlag == forceFlag && this.verbose == verbose
    {
      this.gpArray := gpArray;
      this.clusterParams := clusterParams;
      this.forceFlag := forceFlag;
      this.verbose := verbose;
    }
  }

  /**
   * CreateMakeClusterReq: converts the segment array pair by pair, then builds the request
   * around the converted coordinator, the parameters and the two flags.
   */
  method CreateMakeClusterReq(config: InitConfig, forceFlag: bool, verbose: bool) returns (req: MakeClusterRequest)
    ensures fresh(req) && fresh(req.clusterParams)
    ensures Some(req.gpArray.coordinator) == SegmentToIdl(Some(config.coordinator))
    ensures req.gpArray.segmentArray == PairsToIdl(config.segmentArray)
    ensures req.clusterParams.Value() == ClusterParamsToIdl(config)
    ensures req.forceFlag == forceFlag && req.verbose == verbose
  {
    var segmentPairs: seq<IdlSegmentPair> := [];
    for i := 0 to |config.segmentArray|
      invariant segmentPairs == PairsToIdl(config.segmentArray[..i])
    {
      assert config.segmentArray[..i + 1][..i] == config.segmentArray[..i];
      segmentPairs := segmentPairs + [SegmentPairToIdl(config.segmentArray[i])];
    }
    assert config.segmentArray[..|config.segmentArray|] == config.segmentArray;
    var params := new ClusterParams(ClusterParamsToIdl(config));
    req := new MakeClusterRequest(GpArray(SegmentToIdl(Some(config.coordinator)).value, segmentPairs), params, forceFlag, verbose);
  }

  /**
   * The request built from a configuration whose ports fit in 32 bits lists, at each position,
   * exactly the configuration's primary and mirror.
   */
  lemma RequestPairRoundTrip(config: InitConfig, i: nat)
    requires i < |config.segmentArray|
    requires forall j :: 0 <= j < |config.segmentArray| && config.segmentArray[j].primary.Some? ==>
      InInt32(config.segmentArray[j].primary.value.port)
    requires forall j :: 0 <= j < |config.segmentArray| && config.segmentArray[j].mirror.Some? ==>
      InInt32(config.segmentArray[j].mirror.value.port)
    ensures var p := PairsToIdl(config.segmentArray)[i];
      && (p.primary.Some? <==> config.segmentArray[i].primary.Some?)
      && (p.primary.Some? ==> IdlToSegment(p.primary.value) == config.segmentArray[i].primary.value)
      && (p.mirror.Some? <==> config.segmentArray[i].mirror.Some?)
      && (p.mirror.Some? ==> IdlToSegment(p.mirror.value) == config.segmentArray[i].mirror.value)
  {
    PairsToIdlAt(config.segmentArray, i);
  }
}
