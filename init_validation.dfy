/**
 * `ValidateInputConfigAndSetDefaultsFn`: the checks the init command runs on a make-cluster
 * request before sending it, and the defaults it fills in on the way. The request is changed in
 * place: `ValidateSegment` fills missing addresses of the segments it reaches, a missing locale
 * becomes the system's, a missing encoding becomes UTF-8, and max_connections and
 * shared_buffers get their defaults.
 *
 * viper's `IsSet` is the set `isSet` of keys present in the configuration file; the system
 * locale (read by running `/usr/bin/locale`) is the parameter `systemLocale`, None when that
 * fails; the host names with gp services configured are the parameter `configuredHostnames`.
 */
module InitValidation {
  import opened Wrappers
  import opened GoStrings
  import opened InitTypes
  import opened ConfigParams
  import opened SegmentChecks
  import opened ClusterRequest

  datatype InitError =
    | NoCoordinator
    | NoPrimarySegments
    | LocaleUnavailable
    | PrimariesMissing
    | MirrorCountMismatch(numPrimary: int, numMirror: int)
    | BadSegment(segmentError: SegmentError)
    | DuplicateEntry(duplicate: DuplicateError)
    | ServicesNotConfigured(hostnames: seq<string>)
    | SqlAsciiUnsupported
    | BadSetting(configError: ConfigError)

  /** The value of a request: its segment array and its parameters. */
  datatype RequestState = RequestState(gpArray: GpArray, params: Params)

  datatype Validation = Validation(state: RequestState, err: Option<InitError>)

  /** Every pair has a primary, and either every pair or none has a mirror. */
  predicate Paired(pairs: seq<IdlSegmentPair>)
  {
    |PrimarySegments(pairs)| == |pairs| && (|MirrorSegments(pairs)| == 0 || |MirrorSegments(pairs)| == |pairs|)
  }

  /**
   * The pairs with the segments the checks left: primary k is checked[k], and mirror k is
   * checked[|pairs| + k] when the pairs have mirrors.
   */
  function FillPairs(pairs: seq<IdlSegmentPair>, checked: seq<IdlSegment>): (r: seq<IdlSegmentPair>)
    requires |checked| == |pairs| || |checked| == 2 * |pairs|
    ensures |r| == |pairs|
  {
    seq(|pairs|, k requires 0 <= k < |pairs| =>
      IdlSegmentPair(Some(checked[k]), if |checked| == |pairs| then pairs[k].mirror else Some(checked[|pairs| + k])))
  }

  /** Reading the primaries back from the filled pairs gives the first |pairs| checked segments. */
  lemma FillPairsPrimaries(pairs: seq<IdlSegmentPair>, checked: seq<IdlSegment>)
    requires |checked| == |pairs| || |checked| == 2 * |pairs|
    ensures PrimarySegments(FillPairs(pairs, checked)) == checked[..|pairs|]
  {
    var filled := FillPairs(pairs, checked);
    PrimarySegmentsComplete(filled);
    forall k | 0 <= k < |pairs|
      ensures PrimarySegments(filled)[k] == checked[k]
    {
      PrimarySegmentsAt(filled, k);
    }
  }

  /** Reading the mirrors back from the filled pairs gives the checked segments after the primaries. */
  lemma FillPairsMirrors(pairs: seq<IdlSegmentPair>, checked: seq<IdlSegment>)
    requires |checked| == |pairs| || |checked| == 2 * |pairs|
    requires |checked| == |pairs| ==> forall i :: 0 <= i < |pairs| ==> pairs[i].mirror.None?
    ensures MirrorSegments(FillPairs(pairs, checked)) == checked[|pairs|..]
  {
    if |checked| == 2 * |pairs| {
      FillPairsAllMirrors(pairs, checked);
    } else {
      MirrorSegmentsNone(FillPairs(pairs, checked));
    }
  }

  lemma FillPairsAllMirrors(pairs: seq<IdlSegmentPair>, checked: seq<IdlSegment>)
    requires |checked| == 2 * |pairs|
    ensures MirrorSegments(FillPairs(pairs, checked)) == checked[|pairs|..]
  {
    var filled := FillPairs(pairs, checked);
    var tail := checked[|pairs|..];
    MirrorSegmentsComplete(filled);
    forall k | 0 <= k < |pairs|
      ensures MirrorSegments(filled)[k] == tail[k]
    {
      MirrorSegmentsAt(filled, k);
    }
  }

  /** The checked segments written back into well-paired pairs read back in the same order. */
  lemma FilledSegments(pairs: seq<IdlSegmentPair>, checked: seq<IdlSegment>)
    requires Paired(pairs) && |checked| == |PrimarySegments(pairs)| + |MirrorSegments(pairs)|
    ensures PrimarySegments(FillPairs(pairs, checked)) == checked[..|pairs|]
    ensures PrimarySegments(FillPairs(pairs, checked)) + MirrorSegments(FillPairs(pairs, checked)) == checked
  {
    MirrorSegmentsNone(pairs);
    FillPairsPrimaries(pairs, checked);
    FillPairsMirrors(pairs, checked);
    SplitAt(checked, |pairs|);
  }

  lemma SplitAt(s: seq<IdlSegment>, n: nat)
    requires n <= |s|
    ensures s[..n] + s[n..] == s
  {
  }

  /**
   * The segment checks: primary and mirror counts, then the coordinator, then the segment array.
   */
  function SegmentsChecked(s: RequestState, configuredHostnames: seq<string>): Validation
  {
    var pairs := s.gpArray.segmentArray;
    var primaries := PrimarySegments(pairs);
    var mirrors := MirrorSegments(pairs);
    if |primaries| == 0 then Validation(s, Some(NoPrimarySegments))
    else if |primaries| != |pairs| then Validation(s, Some(PrimariesMissing))
    else if |mirrors| != 0 && |primaries| != |mirrors| then Validation(s, Some(MirrorCountMismatch(|primaries|, |mirrors|)))
    else
      var c := ValidateSegment(s.gpArray.coordinator);
      var s1 := s.(gpArray := s.gpArray.(coordinator := c.segment));
      if c.err.Some? then Validation(s1, Some(BadSegment(c.err.value)))
      else ArrayChecked(s1, configuredHostnames)
  }

  /** Every primary, then every mirror, is checked and filled in; then the hosts. */
  function ArrayChecked(s: RequestState, configuredHostnames: seq<string>): Validation
    requires Paired(s.gpArray.segmentArray)
  {
    var pairs := s.gpArray.segmentArray;
    var (checked, segmentErr) := ValidateSegments(PrimarySegments(pairs) + MirrorSegments(pairs));
    var s2 := s.(gpArray := s.gpArray.(segmentArray := FillPairs(pairs, checked)));
    if segmentErr.Some? then Validation(s2, Some(BadSegment(segmentErr.value)))
    else HostsChecked(s2, configuredHostnames)
  }

  /**
   * No data directory twice on a host name and no port looked up under a host name that an
   * earlier segment recorded under that address (the scan as the source runs it), then every host
   * of the cluster has gp services configured; then the parameters.
   */
  function HostsChecked(s: RequestState, configuredHostnames: seq<string>): Validation
  {
    var pairs := s.gpArray.segmentArray;
    match DuplicateScan(PrimarySegments(pairs) + MirrorSegments(pairs), ByHostName)
    case Some(d) => Validation(s, Some(DuplicateEntry(d)))
    case None =>
      var missing := MissingServices(RequestHostNames(s.gpArray.coordinator.hostName, PrimarySegments(pairs)), configuredHostnames);
      if |missing| != 0 then Validation(s, Some(ServicesNotConfigured(missing)))
      else ParamsChecked(s)
  }

  /** The parameter checks: the encoding defaults to UTF-8 and may not be SQL_ASCII; then max_connections and shared_buffers. */
  function ParamsChecked(s: RequestState): Validation
  {
    var p := if s.params.encoding == "" then s.params.(encoding := DEFAULT_ENCODING) else s.params;
    if p.encoding == SQL_ASCII then Validation(s.(params := p), Some(SqlAsciiUnsupported))
    else
      var m := MaxConnectionsChecked(p);
      if m.err.Some? then Validation(s.(params := m.params), Some(BadSetting(m.err.value)))
      else Validation(s.(params := DefaultConfigParam(m.params, SHARED_BUFFERS, DEFAULT_BUFFER)), None)
  }

  /**
   * ValidateInputConfigAndSetDefaultsFn as a function of the request it starts from: the
   * coordinator key and a segment key must be set; a locale the file does not set is the
   * system's; then the segment and parameter checks. Each check that fails leaves the changes
   * made before it.
   */
  function InputChecked(s: RequestState, isSet: set<string>, systemLocale: Option<Locale>, configuredHostnames: seq<string>): Validation
  {
    if KEY_COORDINATOR !in isSet then Validation(s, Some(NoCoordinator))
    else if KEY_SEGMENT_ARRAY !in isSet && KEY_PRIMARY_DATA_DIRECTORIES !in isSet then Validation(s, Some(NoPrimarySegments))
    else if KEY_LOCALE !in isSet && systemLocale.None? then Validation(s, Some(LocaleUnavailable))
    else
      var s1 := if KEY_LOCALE in isSet then s else s.(params := s.params.(locale := systemLocale.value));
      SegmentsChecked(s1, configuredHostnames)
  }

  /** The request's current value. */
  function StateOf(request: MakeClusterRequest): RequestState
    reads request, request.clusterParams
  {
    RequestState(request.gpArray, request.clusterParams.Value())
  }

  /** The loop over the segments of ValidateInputConfigAndSetDefaultsFn: each is checked in turn, up to the first that fails. */
  method ValidateSegmentList(segs: seq<IdlSegment>) returns (checked: seq<IdlSegment>, err: Option<SegmentError>)
    ensures (checked, err) == ValidateSegments(segs)
  {
    checked := [];
    var i := 0;
    while i < |segs|
      invariant 0 <= i <= |segs|
      invariant ValidateSegments(segs[..i]) == (checked, None)
    {
      assert segs[..i + 1][..i] == segs[..i];
      var check := ValidateSegment(segs[i]);
      if check.err.Some? {
        ValidateSegmentsStops(segs, i + 1);
        assert segs[..i + 1][i + 1..] == [];
        return checked + [check.segment] + segs[i + 1..], check.err;
      }
      checked := checked + [check.segment];
      i := i + 1;
    }
    assert segs[..|segs|] == segs;
    return checked, None;
  }

  /** The encoding, max_connections and shared_buffers steps. */
  method CheckParams(request: MakeClusterRequest) returns (err: Option<InitError>)
    modifies request.clusterParams
    ensures Validation(StateOf(request), err) == ParamsChecked(old(StateOf(request)))
  {
    if request.clusterParams.encoding == "" {
      request.clusterParams.encoding := DEFAULT_ENCODING;
    }
    if request.clusterParams.encoding == SQL_ASCII {
      return Some(SqlAsciiUnsupported);
    }
    var configErr := request.clusterParams.ValidateMaxConnections();
    if configErr.Some? {
      return Some(BadSetting(configErr.value));
    }
    request.clusterParams.CheckAndSetDefaultConfigParams(SHARED_BUFFERS, DEFAULT_BUFFER);
    return None;
  }

  /** The duplicate and gp services steps, on the segments as the request now holds them. */
  method CheckHosts(request: MakeClusterRequest, configuredHostnames: seq<string>) returns (err: Option<InitError>)
    modifies request.clusterParams
    ensures Validation(StateOf(request), err) == HostsChecked(old(StateOf(request)), configuredHostnames)
  {
    var primaries := PrimarySegments(request.gpArray.segmentArray);
    var duplicate := CheckForDuplicatePortAndDataDirectoryAsWritten(primaries + MirrorSegments(request.gpArray.segmentArray));
    if duplicate.Some? {
      return Some(DuplicateEntry(duplicate.value));
    }
    var missing := IsGpServicesEnabled(request.gpArray.coordinator.hostName, primaries, configuredHostnames);
    if missing.Some? {
      return Some(ServicesNotConfigured(missing.value));
    }
    err := CheckParams(request);
  }

  /** The count, coordinator and segment steps; the checked segments are written back into the request. */
  method CheckSegments(request: MakeClusterRequest, configuredHostnames: seq<string>) returns (err: Option<InitError>)
    modifies request, request.clusterParams
    ensures Validation(StateOf(request), err) == SegmentsChecked(old(StateOf(request)), configuredHostnames)
  {
    var pairs := request.gpArray.segmentArray;
    var primaries := PrimarySegments(pairs);
    var mirrors := MirrorSegments(pairs);
    var numPrimary := |primaries|;
    var numMirror := |mirrors|;
    if numPrimary == 0 {
      return Some(NoPrimarySegments);
    }
    if numPrimary != |pairs| {
      return Some(PrimariesMissing);
    }
    if numMirror != 0 && numPrimary != numMirror {
      return Some(MirrorCountMismatch(numPrimary, numMirror));
    }
    var c := ValidateSegment(request.gpArray.coordinator);
    request.gpArray := request.gpArray.(coordinator := c.segment);
    if c.err.Some? {
      return Some(BadSegment(c.err.value));
    }
    var checked, segmentErr := ValidateSegmentList(primaries + mirrors);
    request.gpArray := request.gpArray.(segmentArray := FillPairs(pairs, checked));
    if segmentErr.Some? {
      return Some(BadSegment(segmentErr.value));
    }
    err := CheckHosts(request, configuredHostnames);
  }

  /** ValidateInputConfigAndSetDefaultsFn: validates the request and fills in its defaults in place. */
  method ValidateInputConfigAndSetDefaults(request: MakeClusterRequest, isSet: set<string>, systemLocale: Option<Locale>,
                                           configuredHostnames: seq<string>)
    returns (err: Option<InitError>)
    modifies request, request.clusterParams
    ensures Validation(StateOf(request), err) == InputChecked(old(StateOf(request)), isSet, systemLocale, configuredHostnames)
  {
    if KEY_COORDINATOR !in isSet {
      return Some(NoCoordinator);
    }
    if KEY_SEGMENT_ARRAY !in isSet && KEY_PRIMARY_DATA_DIRECTORIES !in isSet {
      return Some(NoPrimarySegments);
    }
    if KEY_LOCALE !in isSet {
      if systemLocale.None? {
        return Some(LocaleUnavailable);
      }
      request.clusterParams.locale := systemLocale.value;
    }
    err := CheckSegments(request, configuredHostnames);
  }

  /* ---------- What the validation accepts ---------- */

  /** Every pair has a primary, and either every pair or none has a mirror, stated on the pairs. */
  predicate WellPaired(pairs: seq<IdlSegmentPair>)
  {
    && (forall i :: 0 <= i < |pairs| ==> pairs[i].primary.Some?)
    && ((forall i :: 0 <= i < |pairs| ==> pairs[i].mirror.Some?) || (forall i :: 0 <= i < |pairs| ==> pairs[i].mirror.None?))
  }

  /** The count checks on the primary and mirror lists say exactly that the pairs are well paired. */
  lemma PairedMeans(pairs: seq<IdlSegmentPair>)
    ensures Paired(pairs) <==> WellPaired(pairs)
  {
    PrimarySegmentsComplete(pairs);
    MirrorSegmentsComplete(pairs);
    MirrorSegmentsNone(pairs);
  }

  /** Every host of the cluster has gp services configured. */
  ghost predicate HostsConfigured(coordinatorHostName: string, primaries: seq<IdlSegment>, configuredHostnames: seq<string>)
  {
    forall h :: ClusterHost(coordinatorHostName, primaries, h) ==> h in configuredHostnames
  }

  /**
   * No segment has the port of an earlier segment whose address, an empty one standing for its
   * host name, equals the later segment's host name.
   */
  predicate HostNamePortsUnclaimed(segs: seq<IdlSegment>)
  {
    forall j, k :: 0 <= j < k < |segs| ==> !(AddressOf(segs[j]) == segs[k].hostName && segs[j].port == segs[k].port)
  }

  /** The encoding the request ends up with: its own, or UTF-8 when it has none. */
  function EncodingOrDefault(p: Params): string
  {
    if p.encoding == "" then DEFAULT_ENCODING else p.encoding
  }

  /** The parameter steps pass exactly when the encoding is not SQL_ASCII and max_connections is valid; they leave the segments alone. */
  lemma ParamsCheckedMeans(s: RequestState)
    ensures ParamsChecked(s).state.gpArray == s.gpArray
    ensures ParamsChecked(s).err.None? <==> EncodingOrDefault(s.params) != SQL_ASCII && MaxConnectionsValid(s.params)
  {
    var p := if s.params.encoding == "" then s.params.(encoding := DEFAULT_ENCODING) else s.params;
    MaxConnectionsAccepted(p);
    assert CoordinatorMaxConnections(p) == CoordinatorMaxConnections(s.params);
  }

  /**
   * After the parameter steps pass, the encoding is set and is not SQL_ASCII, max_connections and
   * shared_buffers are set in all three setting maps, the coordinator's max_connections is an
   * integer of at least 1, and every setting made before is kept.
   */
  lemma ParamsSettled(s: RequestState)
    requires ParamsChecked(s).err.None?
    ensures var q := ParamsChecked(s).state.params;
      && q.encoding == EncodingOrDefault(s.params) && q.encoding != "" && q.encoding != SQL_ASCII
      && q.locale == s.params.locale
      && MAX_CONNECTIONS in q.commonConfig && MAX_CONNECTIONS in q.coordinatorConfig && MAX_CONNECTIONS in q.segmentConfig
      && SHARED_BUFFERS in q.commonConfig && SHARED_BUFFERS in q.coordinatorConfig && SHARED_BUFFERS in q.segmentConfig
      && Atoi(q.coordinatorConfig[MAX_CONNECTIONS]).Some? && Atoi(q.coordinatorConfig[MAX_CONNECTIONS]).value >= 1
      && (forall k :: k in s.params.commonConfig ==> k in q.commonConfig && q.commonConfig[k] == s.params.commonConfig[k])
      && (forall k :: k in s.params.coordinatorConfig ==> k in q.coordinatorConfig && q.coordinatorConfig[k] == s.params.coordinatorConfig[k])
      && (forall k :: k in s.params.segmentConfig ==> k in q.segmentConfig && q.segmentConfig[k] == s.params.segmentConfig[k])
  {
    var p := if s.params.encoding == "" then s.params.(encoding := DEFAULT_ENCODING) else s.params;
    MaxConnectionsSettled(p);
  }

  /**
   * The host steps pass exactly when no data directory repeats on a host name, no segment's port
   * was recorded by an earlier segment under an address equal to the later one's host name, every
   * host has gp services, and the parameter steps pass.
   */
  lemma HostsCheckedMeans(s: RequestState, configuredHostnames: seq<string>)
    ensures HostsChecked(s, configuredHostnames).state.gpArray == s.gpArray
    ensures HostsChecked(s, configuredHostnames).err.None? ==> HostsChecked(s, configuredHostnames) == ParamsChecked(s)
    ensures var all := PrimarySegments(s.gpArray.segmentArray) + MirrorSegments(s.gpArray.segmentArray);
      HostsChecked(s, configuredHostnames).err.None? <==>
        && DataDirectoriesUnique(all) && PortsUnclaimed(all, ByHostName)
        && HostsConfigured(s.gpArray.coordinator.hostName, PrimarySegments(s.gpArray.segmentArray), configuredHostnames)
        && ParamsChecked(s).err.None?
  {
    var pairs := s.gpArray.segmentArray;
    var all := PrimarySegments(pairs) + MirrorSegments(pairs);
    var coordinatorHostName := s.gpArray.coordinator.hostName;
    DuplicateScanMeans(all, ByHostName);
    ParamsCheckedMeans(s);
    var names := RequestHostNames(coordinatorHostName, PrimarySegments(pairs));
    var missing := MissingServices(names, configuredHostnames);
    MissingServicesMeans(names, configuredHostnames);
    forall h
      ensures h in names <==> ClusterHost(coordinatorHostName, PrimarySegments(pairs), h)
    {
      RequestHostNamesMeans(coordinatorHostName, PrimarySegments(pairs), h);
    }
    if |missing| != 0 {
      assert missing[0] in missing;
    }
    if !HostsConfigured(coordinatorHostName, PrimarySegments(pairs), configuredHostnames) {
      var h :| ClusterHost(coordinatorHostName, PrimarySegments(pairs), h) && h !in configuredHostnames;
      assert h in missing;
    }
  }

  /**
   * Segments that passed their checks keep their host names, ports and data directories, and
   * take AddressOf as address: the duplicate scan sees the same clashes in the checked list as
   * in the original one.
   */
  lemma CheckedSegmentsAgree(segs: seq<IdlSegment>, checked: seq<IdlSegment>)
    requires |checked| == |segs|
    requires forall j :: 0 <= j < |segs| ==> SegmentComplete(segs[j]) && checked[j] == ValidateSegment(segs[j]).segment
    ensures DataDirectoriesUnique(checked) <==> DataDirectoriesUnique(segs)
    ensures PortsUnclaimed(checked, ByHostName) <==> HostNamePortsUnclaimed(segs)
  {
    forall j | 0 <= j < |segs|
      ensures checked[j].hostName == segs[j].hostName && checked[j].dataDirectory == segs[j].dataDirectory
      ensures checked[j].port == segs[j].port && checked[j].hostAddress == AddressOf(segs[j])
    {
    }
  }

  /** Two lists with the same host names, position by position, have the same cluster hosts. */
  lemma HostsConfiguredSameNames(coordinatorHostName: string, a: seq<IdlSegment>, b: seq<IdlSegment>, configuredHostnames: seq<string>)
    requires |a| == |b| && forall j :: 0 <= j < |a| ==> a[j].hostName == b[j].hostName
    ensures HostsConfigured(coordinatorHostName, a, configuredHostnames) <==> HostsConfigured(coordinatorHostName, b, configuredHostnames)
  {
    if !HostsConfigured(coordinatorHostName, a, configuredHostnames) {
      var h :| ClusterHost(coordinatorHostName, a, h) && h !in configuredHostnames;
      if h != coordinatorHostName {
        var j :| 0 <= j < |a| && a[j].hostName == h;
        assert b[j].hostName == h;
      }
    }
    if !HostsConfigured(coordinatorHostName, b, configuredHostnames) {
      var h :| ClusterHost(coordinatorHostName, b, h) && h !in configuredHostnames;
      if h != coordinatorHostName {
        var j :| 0 <= j < |b| && b[j].hostName == h;
        assert a[j].hostName == h;
      }
    }
  }

  /** The checked primaries have the cluster hosts of the original ones. */
  lemma CheckedHostsAgree(coordinatorHostName: string, segs: seq<IdlSegment>, checked: seq<IdlSegment>, n: nat,
                          configuredHostnames: seq<string>)
    requires n <= |segs| == |checked|
    requires forall j :: 0 <= j < |segs| ==> checked[j] == ValidateSegment(segs[j]).segment
    ensures HostsConfigured(coordinatorHostName, checked[..n], configuredHostnames) <==>
            HostsConfigured(coordinatorHostName, segs[..n], configuredHostnames)
  {
    HostsConfiguredSameNames(coordinatorHostName, checked[..n], segs[..n], configuredHostnames);
  }

  /** Once every segment has passed its check, the host steps on the filled-in array judge the original segments. */
  lemma FilledArrayMeans(s: RequestState, configuredHostnames: seq<string>, checked: seq<IdlSegment>)
    requires Paired(s.gpArray.segmentArray)
    requires var segs := PrimarySegments(s.gpArray.segmentArray) + MirrorSegments(s.gpArray.segmentArray);
      && |checked| == |segs|
      && forall j :: 0 <= j < |segs| ==> SegmentComplete(segs[j]) && checked[j] == ValidateSegment(segs[j]).segment
    ensures var pairs := s.gpArray.segmentArray;
      var segs := PrimarySegments(pairs) + MirrorSegments(pairs);
      HostsChecked(s.(gpArray := s.gpArray.(segmentArray := FillPairs(pairs, checked))), configuredHostnames).err.None? <==>
        && DataDirectoriesUnique(segs) && HostNamePortsUnclaimed(segs)
        && HostsConfigured(s.gpArray.coordinator.hostName, PrimarySegments(pairs), configuredHostnames)
        && ParamsChecked(s).err.None?
  {
    var pairs := s.gpArray.segmentArray;
    var segs := PrimarySegments(pairs) + MirrorSegments(pairs);
    var n := |pairs|;
    var s2 := s.(gpArray := s.gpArray.(segmentArray := FillPairs(pairs, checked)));
    FilledSegments(pairs, checked);
    HostsCheckedMeans(s2, configuredHostnames);
    ParamsCheckedMeans(s2);
    ParamsCheckedMeans(s);
    CheckedSegmentsAgree(segs, checked);
    CheckedHostsAgree(s.gpArray.coordinator.hostName, segs, checked, n, configuredHostnames);
    assert PrimarySegments(pairs) == segs[..n];
  }

  /**
   * The segment-array steps pass exactly when every segment is complete, no data directory
   * repeats on a host name, no port is claimed under a host name that an earlier segment's
   * address equals, every host has gp services, and the parameter steps pass.
   */
  lemma ArrayCheckedMeans(s: RequestState, configuredHostnames: seq<string>)
    requires Paired(s.gpArray.segmentArray)
    ensures var pairs := s.gpArray.segmentArray;
      var segs := PrimarySegments(pairs) + MirrorSegments(pairs);
      ArrayChecked(s, configuredHostnames).err.None? <==>
        && (forall j :: 0 <= j < |segs| ==> SegmentComplete(segs[j]))
        && DataDirectoriesUnique(segs) && HostNamePortsUnclaimed(segs)
        && HostsConfigured(s.gpArray.coordinator.hostName, PrimarySegments(pairs), configuredHostnames)
        && ParamsChecked(s).err.None?
  {
    var pairs := s.gpArray.segmentArray;
    var segs := PrimarySegments(pairs) + MirrorSegments(pairs);
    var n := |pairs|;
    ValidateSegmentsMeans(segs);
    var (checked, segmentErr) := ValidateSegments(segs);
    if segmentErr.None? {
      FilledArrayMeans(s, configuredHostnames, checked);
    }
  }

  /**
   * The count, coordinator and segment-array steps pass exactly when there are pairs, they are
   * well paired, the coordinator and every segment are complete, no data directory repeats on a
   * host name, no port is claimed under a host name that an earlier segment's address equals,
   * every host has gp services, and the parameters are valid.
   */
  lemma SegmentsCheckedMeans(s: RequestState, configuredHostnames: seq<string>)
    ensures var pairs := s.gpArray.segmentArray;
      var segs := PrimarySegments(pairs) + MirrorSegments(pairs);
      SegmentsChecked(s, configuredHostnames).err.None? <==>
        && |pairs| > 0 && WellPaired(pairs) && SegmentComplete(s.gpArray.coordinator)
        && (forall j :: 0 <= j < |segs| ==> SegmentComplete(segs[j]))
        && DataDirectoriesUnique(segs) && HostNamePortsUnclaimed(segs)
        && HostsConfigured(s.gpArray.coordinator.hostName, PrimarySegments(pairs), configuredHostnames)
        && EncodingOrDefault(s.params) != SQL_ASCII && MaxConnectionsValid(s.params)
  {
    var pairs := s.gpArray.segmentArray;
    PairedMeans(pairs);
    if |pairs| > 0 && Paired(pairs) {
      var c := ValidateSegment(s.gpArray.coordinator);
      if c.err.None? {
        var s1 := s.(gpArray := s.gpArray.(coordinator := c.segment));
        ArrayCheckedMeans(s1, configuredHostnames);
        ParamsCheckedMeans(s1);
      }
    }
  }

  /**
   * The conditions under which ValidateInputConfigAndSetDefaultsFn accepts a request, stated on
   * the request it starts from.
   */
  ghost predicate InputAcceptable(s: RequestState, isSet: set<string>, systemLocale: Option<Locale>, configuredHostnames: seq<string>)
  {
    var pairs := s.gpArray.segmentArray;
    var segs := PrimarySegments(pairs) + MirrorSegments(pairs);
    && KEY_COORDINATOR in isSet
    && (KEY_SEGMENT_ARRAY in isSet || KEY_PRIMARY_DATA_DIRECTORIES in isSet)
    && (KEY_LOCALE in isSet || systemLocale.Some?)
    && |pairs| > 0 && WellPaired(pairs)
    && SegmentComplete(s.gpArray.coordinator)
    && (forall j :: 0 <= j < |segs| ==> SegmentComplete(segs[j]))
    && DataDirectoriesUnique(segs) && HostNamePortsUnclaimed(segs)
    && HostsConfigured(s.gpArray.coordinator.hostName, PrimarySegments(pairs), configuredHostnames)
    && EncodingOrDefault(s.params) != SQL_ASCII && MaxConnectionsValid(s.params)
  }

  /** The validation accepts a request exactly when InputAcceptable holds of it. */
  lemma InputAcceptedExactly(s: RequestState, isSet: set<string>, systemLocale: Option<Locale>, configuredHostnames: seq<string>)
    ensures InputChecked(s, isSet, systemLocale, configuredHostnames).err.None? <==>
            InputAcceptable(s, isSet, systemLocale, configuredHostnames)
  {
    if KEY_COORDINATOR in isSet && (KEY_SEGMENT_ARRAY in isSet || KEY_PRIMARY_DATA_DIRECTORIES in isSet) &&
       (KEY_LOCALE in isSet || systemLocale.Some?) {
      var s1 := if KEY_LOCALE in isSet then s else s.(params := s.params.(locale := systemLocale.value));
      SegmentsCheckedMeans(s1, configuredHostnames);
      assert CoordinatorMaxConnections(s1.params) == CoordinatorMaxConnections(s.params);
    }
  }

  /** A segment as an accepted request holds it: unchanged, but for an empty address set to the host name. */
  function Filled(seg: IdlSegment): IdlSegment
  {
    seg.(hostAddress := AddressOf(seg))
  }

  /** Pair k after every segment passed its check: each half as it was, with its address filled in. */
  lemma FilledPairAt(pairs: seq<IdlSegmentPair>, k: nat)
    requires Paired(pairs) && ValidateSegments(PrimarySegments(pairs) + MirrorSegments(pairs)).1.None?
    requires k < |pairs|
    ensures var checked := ValidateSegments(PrimarySegments(pairs) + MirrorSegments(pairs)).0;
      && pairs[k].primary.Some?
      && FillPairs(pairs, checked)[k].primary == Some(Filled(pairs[k].primary.value))
      && FillPairs(pairs, checked)[k].mirror == if pairs[k].mirror.Some? then Some(Filled(pairs[k].mirror.value)) else None
  {
    var segs := PrimarySegments(pairs) + MirrorSegments(pairs);
    var n := |pairs|;
    PairedMeans(pairs);
    ValidateSegmentsMeans(segs);
    PrimarySegmentsAt(pairs, k);
    assert segs[k] == pairs[k].primary.value;
    if pairs[k].mirror.Some? {
      MirrorSegmentsAt(pairs, k);
      assert segs[n + k] == pairs[k].mirror.value;
    } else {
      MirrorSegmentsComplete(pairs);
    }
  }

  /** The state an accepted request reaches after the counts and the coordinator passed: the segments are checked, the hosts follow. */
  lemma AcceptedStages(s: RequestState, isSet: set<string>, systemLocale: Option<Locale>, configuredHostnames: seq<string>)
    requires InputChecked(s, isSet, systemLocale, configuredHostnames).err.None?
    ensures KEY_COORDINATOR in isSet && (KEY_LOCALE in isSet || systemLocale.Some?)
    ensures var s1 := if KEY_LOCALE in isSet then s else s.(params := s.params.(locale := systemLocale.value));
      var pairs := s.gpArray.segmentArray;
      var segs := PrimarySegments(pairs) + MirrorSegments(pairs);
      && Paired(pairs) && ValidateSegments(segs).1.None?
      && var s2 := s1.(gpArray := GpArray(ValidateSegment(s.gpArray.coordinator).segment, FillPairs(pairs, ValidateSegments(segs).0)));
      && HostsChecked(s2, configuredHostnames) == InputChecked(s, isSet, systemLocale, configuredHostnames)
      && HostsChecked(s2, configuredHostnames).state.gpArray == s2.gpArray
  {
    var s1 := if KEY_LOCALE in isSet then s else s.(params := s.params.(locale := systemLocale.value));
    var pairs := s.gpArray.segmentArray;
    var segs := PrimarySegments(pairs) + MirrorSegments(pairs);
    var c := ValidateSegment(s.gpArray.coordinator);
    assert InputChecked(s, isSet, systemLocale, configuredHostnames) == SegmentsChecked(s1, configuredHostnames);
    var s1c := s1.(gpArray := s1.gpArray.(coordinator := c.segment));
    assert SegmentsChecked(s1, configuredHostnames) == ArrayChecked(s1c, configuredHostnames);
    var s2 := s1.(gpArray := GpArray(c.segment, FillPairs(pairs, ValidateSegments(segs).0)));
    assert s2 == s1c.(gpArray := s1c.gpArray.(segmentArray := FillPairs(pairs, ValidateSegments(segs).0)));
    HostsCheckedMeans(s2, configuredHostnames);
  }

  /**
   * An accepted request keeps its coordinator and every pair, each segment unchanged but for an
   * empty address, which becomes the segment's host name.
   */
  lemma InputAcceptedSegments(s: RequestState, isSet: set<string>, systemLocale: Option<Locale>, configuredHostnames: seq<string>, k: nat)
    requires InputChecked(s, isSet, systemLocale, configuredHostnames).err.None?
    requires k < |s.gpArray.segmentArray|
    ensures var r := InputChecked(s, isSet, systemLocale, configuredHostnames).state.gpArray;
      var pair := s.gpArray.segmentArray[k];
      && r.coordinator == Filled(s.gpArray.coordinator)
      && |r.segmentArray| == |s.gpArray.segmentArray|
      && pair.primary.Some? && r.segmentArray[k].primary == Some(Filled(pair.primary.value))
      && r.segmentArray[k].mirror == if pair.mirror.Some? then Some(Filled(pair.mirror.value)) else None
  {
    AcceptedStages(s, isSet, systemLocale, configuredHostnames);
    FilledPairAt(s.gpArray.segmentArray, k);
  }

  /**
   * An accepted request has the locale of the file, or else the system's; its encoding is set
   * and is not SQL_ASCII; max_connections and shared_buffers are set in all three setting maps,
   * the coordinator's max_connections is an integer of at least 1; and every setting the file
   * made is kept.
   */
  lemma InputAcceptedParams(s: RequestState, isSet: set<string>, systemLocale: Option<Locale>, configuredHostnames: seq<string>)
    requires InputChecked(s, isSet, systemLocale, configuredHostnames).err.None?
    ensures KEY_LOCALE in isSet || systemLocale.Some?
    ensures var q := InputChecked(s, isSet, systemLocale, configuredHostnames).state.params;
      && q.locale == (if KEY_LOCALE in isSet then s.params.locale else systemLocale.value)
      && q.encoding == EncodingOrDefault(s.params) && q.encoding != "" && q.encoding != SQL_ASCII
      && MAX_CONNECTIONS in q.commonConfig && MAX_CONNECTIONS in q.coordinatorConfig && MAX_CONNECTIONS in q.segmentConfig
      && SHARED_BUFFERS in q.commonConfig && SHARED_BUFFERS in q.coordinatorConfig && SHARED_BUFFERS in q.segmentConfig
      && Atoi(q.coordinatorConfig[MAX_CONNECTIONS]).Some? && Atoi(q.coordinatorConfig[MAX_CONNECTIONS]).value >= 1
      && (forall k :: k in s.params.commonConfig ==> k in q.commonConfig && q.commonConfig[k] == s.params.commonConfig[k])
      && (forall k :: k in s.params.coordinatorConfig ==> k in q.coordinatorConfig && q.coordinatorConfig[k] == s.params.coordinatorConfig[k])
      && (forall k :: k in s.params.segmentConfig ==> k in q.segmentConfig && q.segmentConfig[k] == s.params.segmentConfig[k])
  {
    AcceptedStages(s, isSet, systemLocale, configuredHostnames);
    var s1 := if KEY_LOCALE in isSet then s else s.(params := s.params.(locale := systemLocale.value));
    var pairs := s.gpArray.segmentArray;
    var segs := PrimarySegments(pairs) + MirrorSegments(pairs);
    var s2 := s1.(gpArray := GpArray(ValidateSegment(s.gpArray.coordinator).segment, FillPairs(pairs, ValidateSegments(segs).0)));
    HostsCheckedMeans(s2, configuredHostnames);
    assert InputChecked(s, isSet, systemLocale, configuredHostnames).state.params == ParamsChecked(s2).state.params;
    ParamsSettled(s2);
    assert s2.params.commonConfig == s.params.commonConfig && s2.params.coordinatorConfig == s.params.coordinatorConfig;
    assert s2.params.segmentConfig == s.params.segmentConfig && s2.params.encoding == s.params.encoding;
  }
}
