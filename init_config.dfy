/**
 * Validation of the expansion form of the init configuration (a host list with per-host data
 * directories and base ports instead of an explicit segment array), with its defaults, and the
 * multi-home check on the addresses each host resolved to.
 *
 * viper's `IsSet` is the set `isSet` of keys present in the configuration file. The package
 * variable `ContainsMirror` is a field of InitSession, next to the configuration the command
 * edits in place.
 */
module InitConfigValidation {
  import opened Wrappers
  import opened GoStrings
  import opened InitTypes

  /** ValidateStringArray: false as soon as one entry is empty after trimming white space. */
  function ValidateStringArray(input: seq<string>): (ok: bool)
    ensures ok <==> forall i :: 0 <= i < |input| ==> TrimSpace(input[i]) != ""
  {
    if |input| == 0 then true
    else if TrimSpace(input[0]) == "" then false
    else
      var ok := ValidateStringArray(input[1..]);
      assert forall i :: 1 <= i < |input| ==> input[i] == input[1..][i - 1];
      ok
  }

  /** Nothing but white space. */
  predicate Blank(s: string)
  {
    forall k :: 0 <= k < |s| ==> IsSpace(s[k])
  }

  /** An entry passes exactly when it is not all white space. */
  lemma ValidateStringArrayMeans(input: seq<string>)
    ensures ValidateStringArray(input) <==> forall i :: 0 <= i < |input| ==> !Blank(input[i])
  {
    forall i | 0 <= i < |input|
      ensures TrimSpace(input[i]) == "" <==> Blank(input[i])
    {
      TrimSpaceEmpty(input[i]);
    }
  }

  const EXPANSION_KEYS: seq<string> :=
    [KEY_HOSTLIST, KEY_PRIMARY_BASE_PORT, KEY_PRIMARY_DATA_DIRECTORIES,
     KEY_MIRRORING_TYPE, KEY_MIRROR_BASE_PORT, KEY_MIRROR_DATA_DIRECTORIES]

  const EXPANSION_MIRROR_KEYS: seq<string> := [KEY_MIRRORING_TYPE, KEY_MIRROR_BASE_PORT, KEY_MIRROR_DATA_DIRECTORIES]

  /** The early-return scan of a key list for a key the configuration sets. */
  function AnySet(keys: seq<string>, isSet: set<string>): (r: bool)
    ensures r <==> exists i :: 0 <= i < |keys| && keys[i] in isSet
  {
    if |keys| == 0 then false
    else if keys[0] in isSet then true
    else
      var r := AnySet(keys[1..], isSet);
      assert forall i :: 1 <= i < |keys| ==> keys[i] == keys[1..][i - 1];
      r
  }

  /** AnyExpansionConfigPresent: some host-list, primary or mirror expansion key is set. */
  function AnyExpansionConfigPresent(isSet: set<string>): (r: bool)
    ensures r <==> KEY_HOSTLIST in isSet || KEY_PRIMARY_BASE_PORT in isSet || KEY_PRIMARY_DATA_DIRECTORIES in isSet
                   || KEY_MIRRORING_TYPE in isSet || KEY_MIRROR_BASE_PORT in isSet || KEY_MIRROR_DATA_DIRECTORIES in isSet
  {
    var r := AnySet(EXPANSION_KEYS, isSet);
    assert KEY_HOSTLIST == EXPANSION_KEYS[0] && KEY_PRIMARY_BASE_PORT == EXPANSION_KEYS[1];
    assert KEY_PRIMARY_DATA_DIRECTORIES == EXPANSION_KEYS[2] && KEY_MIRRORING_TYPE == EXPANSION_KEYS[3];
    assert KEY_MIRROR_BASE_PORT == EXPANSION_KEYS[4] && KEY_MIRROR_DATA_DIRECTORIES == EXPANSION_KEYS[5];
    r
  }

  /** AnyExpansionMirrorConfigPresent: some mirror expansion key is set. */
  function AnyExpansionMirrorConfigPresent(isSet: set<string>): (r: bool)
    ensures r <==> KEY_MIRRORING_TYPE in isSet || KEY_MIRROR_BASE_PORT in isSet || KEY_MIRROR_DATA_DIRECTORIES in isSet
    ensures r ==> AnyExpansionConfigPresent(isSet)
  {
    var r := AnySet(EXPANSION_MIRROR_KEYS, isSet);
    assert KEY_MIRRORING_TYPE == EXPANSION_MIRROR_KEYS[0] && KEY_MIRROR_BASE_PORT == EXPANSION_MIRROR_KEYS[1];
    assert KEY_MIRROR_DATA_DIRECTORIES == EXPANSION_MIRROR_KEYS[2];
    r
  }

  datatype ExpansionError =
    | SegmentArrayWithExpansion
    | MissingPrimaryDataDirectories
    | BlankPrimaryDataDirectory
    | MissingHostList
    | BlankHost
    | InvalidPrimaryBasePort(port: int)
    | PrimaryPortIsCoordinatorPort
    | MirrorDirectoryCountMismatch
    | BlankMirrorDataDirectory
    | InvalidMirrorBasePort(port: int)
    | MirrorPortIsCoordinatorPort
    | MirrorPortIsPrimaryPort
    | InvalidMirroringType(mirroringType: string)
    | TooFewHostsForSpread

  /** The configuration, the ContainsMirror flag and the error after validation. */
  datatype ExpansionOutcome = ExpansionOutcome(config: InitConfig, containsMirror: bool, err: Option<ExpansionError>)

  /** What an accepted expansion configuration guarantees to the layout code. */
  predicate ExpansionWellFormed(c: InitConfig, containsMirror: bool)
  {
    && |c.primaryDataDirectories| >= 1 && ValidateStringArray(c.primaryDataDirectories)
    && |c.hostList| >= 1 && ValidateStringArray(c.hostList)
    && c.primaryBasePort != c.coordinator.port
    && (containsMirror ==> MirrorsWellFormed(c))
  }

  /** The mirror half: as many mirror as primary directories, distinct ports, a known mirroring type. */
  predicate MirrorsWellFormed(c: InitConfig)
  {
    && |c.mirrorDataDirectories| == |c.primaryDataDirectories|
    && ValidateStringArray(c.mirrorDataDirectories)
    && c.mirrorBasePort >= 1
    && c.mirrorBasePort != c.coordinator.port
    && c.mirrorBasePort != c.primaryBasePort
    && (c.mirroringType == GROUP_MIRRORING || c.mirroringType == SPREAD_MIRRORING)
    && (c.mirroringType == SPREAD_MIRRORING ==> |c.mirrorDataDirectories| < |c.hostList|)
  }

  /** The two mirroring types are already lower case. */
  lemma MirroringTypesLowerCase()
    ensures ToLower(GROUP_MIRRORING) == GROUP_MIRRORING
    ensures ToLower(SPREAD_MIRRORING) == SPREAD_MIRRORING
  {
    ToLowerKeepsLower(GROUP_MIRRORING);
    ToLowerKeepsLower(SPREAD_MIRRORING);
  }

  /** The primary base port after defaulting: coordinator port + 2 when the key is absent. */
  function PrimaryBasePortOf(c: InitConfig, isSet: set<string>): int
  {
    if KEY_PRIMARY_BASE_PORT in isSet then c.primaryBasePort else c.coordinator.port + 2
  }

  /** The mirror base port after defaulting: primary base port + 1000 when the key is absent. */
  function MirrorBasePortOf(c: InitConfig, isSet: set<string>): int
  {
    if KEY_MIRROR_BASE_PORT in isSet then c.mirrorBasePort else PrimaryBasePortOf(c, isSet) + 1000
  }

  /** The mirroring type after defaulting: "group" when absent or empty, lower-cased otherwise. */
  function MirroringTypeOf(c: InitConfig, isSet: set<string>): string
  {
    if KEY_MIRRORING_TYPE !in isSet || c.mirroringType == "" then GROUP_MIRRORING else ToLower(c.mirroringType)
  }

  /**
   * ValidateExpansionConfigAndSetDefault, as a function of the configuration it starts from:
   * the checks in the order the command makes them, each default applied where the command
   * applies it (so a later failure still sees the earlier defaults).
   */
  function ExpansionValidated(c: InitConfig, containsMirror: bool, isSet: set<string>): (r: ExpansionOutcome)
    ensures r.config == c.(primaryBasePort := r.config.primaryBasePort, mirrorBasePort := r.config.mirrorBasePort,
                           mirroringType := r.config.mirroringType)
    ensures r.err.None? ==> ExpansionWellFormed(r.config, r.containsMirror)
    ensures r.err.None? ==> (r.containsMirror <==> AnyExpansionMirrorConfigPresent(isSet))
    ensures r.err.None? ==> r.config.primaryBasePort == PrimaryBasePortOf(c, isSet)
    ensures r.err.None? && AnyExpansionMirrorConfigPresent(isSet) ==>
              r.config.mirrorBasePort == MirrorBasePortOf(c, isSet) && r.config.mirroringType == MirroringTypeOf(c, isSet)
  {
    if KEY_SEGMENT_ARRAY in isSet && |c.segmentArray| > 0 then
      ExpansionOutcome(c, containsMirror, Some(SegmentArrayWithExpansion))
    else if KEY_PRIMARY_DATA_DIRECTORIES !in isSet || |c.primaryDataDirectories| < 1 then
      ExpansionOutcome(c, containsMirror, Some(MissingPrimaryDataDirectories))
    else if !ValidateStringArray(c.primaryDataDirectories) then
      ExpansionOutcome(c, containsMirror, Some(BlankPrimaryDataDirectory))
    else if KEY_HOSTLIST !in isSet || |c.hostList| < 1 then
      ExpansionOutcome(c, containsMirror, Some(MissingHostList))
    else if !ValidateStringArray(c.hostList) then
      ExpansionOutcome(c, containsMirror, Some(BlankHost))
    else
      PortsValidated(c, containsMirror, isSet)
  }

  /** The port and mirror half of the validation, once the directory and host lists passed. */
  function PortsValidated(c: InitConfig, containsMirror: bool, isSet: set<string>): (r: ExpansionOutcome)
    requires |c.primaryDataDirectories| >= 1 && ValidateStringArray(c.primaryDataDirectories)
    requires |c.hostList| >= 1 && ValidateStringArray(c.hostList)
    ensures r.config == c.(primaryBasePort := r.config.primaryBasePort, mirrorBasePort := r.config.mirrorBasePort,
                           mirroringType := r.config.mirroringType)
    ensures r.err.None? ==> ExpansionWellFormed(r.config, r.containsMirror)
    ensures r.err.None? ==> (r.containsMirror <==> AnyExpansionMirrorConfigPresent(isSet))
    ensures r.err.None? ==> r.config.primaryBasePort == PrimaryBasePortOf(c, isSet)
    ensures r.err.None? && AnyExpansionMirrorConfigPresent(isSet) ==>
              r.config.mirrorBasePort == MirrorBasePortOf(c, isSet) && r.config.mirroringType == MirroringTypeOf(c, isSet)
  {
      var c1 := c.(primaryBasePort := PrimaryBasePortOf(c, isSet));
      if KEY_PRIMARY_BASE_PORT in isSet && c1.primaryBasePort < 1 then
        ExpansionOutcome(c1, containsMirror, Some(InvalidPrimaryBasePort(c1.primaryBasePort)))
      else if c1.primaryBasePort == c1.coordinator.port then
        ExpansionOutcome(c1, containsMirror, Some(PrimaryPortIsCoordinatorPort))
      else if !AnyExpansionMirrorConfigPresent(isSet) then
        ExpansionOutcome(c1, false, None)
      else
        MirrorExpansionValidated(c1, isSet)
  }

  /** The mirror half of the validation, once mirror keys are known to be present (ContainsMirror is set). */
  function MirrorExpansionValidated(c: InitConfig, isSet: set<string>): (r: ExpansionOutcome)
    ensures r.containsMirror
    ensures r.config == c.(mirrorBasePort := r.config.mirrorBasePort, mirroringType := r.config.mirroringType)
    ensures r.err.None? ==> MirrorsWellFormed(r.config)
    ensures r.err.None? ==> r.config.mirrorBasePort == (if KEY_MIRROR_BASE_PORT in isSet then c.mirrorBasePort
                                                       else c.primaryBasePort + 1000)
    ensures r.err.None? ==> r.config.mirroringType == (if KEY_MIRRORING_TYPE !in isSet || c.mirroringType == ""
                                                       then GROUP_MIRRORING else ToLower(c.mirroringType))
  {
    if |c.primaryDataDirectories| != |c.mirrorDataDirectories| then
      ExpansionOutcome(c, true, Some(MirrorDirectoryCountMismatch))
    else if !ValidateStringArray(c.mirrorDataDirectories) then
      ExpansionOutcome(c, true, Some(BlankMirrorDataDirectory))
    else
      MirrorPortValidated(c.(mirrorBasePort := if KEY_MIRROR_BASE_PORT in isSet then c.mirrorBasePort
                                               else c.primaryBasePort + 1000), isSet)
  }

  /** The mirror base port checks, once the mirror directories passed and the port is defaulted. */
  function MirrorPortValidated(c: InitConfig, isSet: set<string>): (r: ExpansionOutcome)
    requires |c.mirrorDataDirectories| == |c.primaryDataDirectories| && ValidateStringArray(c.mirrorDataDirectories)
    ensures r.containsMirror
    ensures r.config == c.(mirroringType := r.config.mirroringType)
    ensures r.err.None? ==> MirrorsWellFormed(r.config)
    ensures r.err.None? ==> r.config.mirroringType == (if KEY_MIRRORING_TYPE !in isSet || c.mirroringType == ""
                                                       then GROUP_MIRRORING else ToLower(c.mirroringType))
  {
    if c.mirrorBasePort < 1 then
      ExpansionOutcome(c, true, Some(InvalidMirrorBasePort(c.mirrorBasePort)))
    else if c.mirrorBasePort == c.coordinator.port then
      ExpansionOutcome(c, true, Some(MirrorPortIsCoordinatorPort))
    else if c.mirrorBasePort == c.primaryBasePort then
      ExpansionOutcome(c, true, Some(MirrorPortIsPrimaryPort))
    else
      MirroringTypeValidated(c, isSet)
  }

  /** The mirroring type checks: defaulted to "group", lower-cased, and spread needing more hosts than mirrors. */
  function MirroringTypeValidated(c: InitConfig, isSet: set<string>): (r: ExpansionOutcome)
    requires |c.mirrorDataDirectories| == |c.primaryDataDirectories| && ValidateStringArray(c.mirrorDataDirectories)
    requires c.mirrorBasePort >= 1 && c.mirrorBasePort != c.coordinator.port && c.mirrorBasePort != c.primaryBasePort
    ensures r.containsMirror
    ensures r.config == c.(mirroringType := r.config.mirroringType)
    ensures r.err.None? ==> MirrorsWellFormed(r.config)
    ensures r.err.None? ==> r.config.mirroringType == (if KEY_MIRRORING_TYPE !in isSet || c.mirroringType == ""
                                                       then GROUP_MIRRORING else ToLower(c.mirroringType))
  {
    MirroringTypesLowerCase();
    if KEY_MIRRORING_TYPE !in isSet || c.mirroringType == "" then
      ExpansionOutcome(c.(mirroringType := GROUP_MIRRORING), true, None)
    else
      var c3 := c.(mirroringType := ToLower(c.mirroringType));
      if c3.mirroringType != SPREAD_MIRRORING && c3.mirroringType != GROUP_MIRRORING then
        ExpansionOutcome(c3, true, Some(InvalidMirroringType(c3.mirroringType)))
      else if ToLower(c3.mirroringType) == SPREAD_MIRRORING && !(|c3.mirrorDataDirectories| < |c3.hostList|) then
        ExpansionOutcome(c3, true, Some(TooFewHostsForSpread))
      else
        ExpansionOutcome(c3, true, None)
  }

  /**
   * The conditions under which the command accepts an expansion configuration, stated on the
   * configuration as written (with the defaults it would apply).
   */
  predicate ExpansionAcceptable(c: InitConfig, isSet: set<string>)
  {
    var primaryPort := PrimaryBasePortOf(c, isSet);
    && !(KEY_SEGMENT_ARRAY in isSet && |c.segmentArray| > 0)
    && KEY_PRIMARY_DATA_DIRECTORIES in isSet && |c.primaryDataDirectories| >= 1
    && (forall i :: 0 <= i < |c.primaryDataDirectories| ==> TrimSpace(c.primaryDataDirectories[i]) != "")
    && KEY_HOSTLIST in isSet && |c.hostList| >= 1
    && (forall i :: 0 <= i < |c.hostList| ==> TrimSpace(c.hostList[i]) != "")
    && (KEY_PRIMARY_BASE_PORT in isSet ==> primaryPort >= 1)
    && primaryPort != c.coordinator.port
    && (AnyExpansionMirrorConfigPresent(isSet) ==> MirrorsAcceptable(c, isSet))
  }

  /** The mirror conditions, with the mirror base port and mirroring type the command would default. */
  predicate MirrorsAcceptable(c: InitConfig, isSet: set<string>)
  {
    var mirrorPort := MirrorBasePortOf(c, isSet);
    var mirroringType := MirroringTypeOf(c, isSet);
    && |c.mirrorDataDirectories| == |c.primaryDataDirectories|
    && (forall i :: 0 <= i < |c.mirrorDataDirectories| ==> TrimSpace(c.mirrorDataDirectories[i]) != "")
    && mirrorPort >= 1 && mirrorPort != c.coordinator.port && mirrorPort != PrimaryBasePortOf(c, isSet)
    && (mirroringType == GROUP_MIRRORING || mirroringType == SPREAD_MIRRORING)
    && (mirroringType == SPREAD_MIRRORING ==> |c.mirrorDataDirectories| < |c.hostList|)
  }

  /** The validation accepts exactly the acceptable configurations. */
  lemma ExpansionAcceptedExactly(c: InitConfig, containsMirror: bool, isSet: set<string>)
    ensures ExpansionValidated(c, containsMirror, isSet).err.None? <==> ExpansionAcceptable(c, isSet)
  {
    if || (KEY_SEGMENT_ARRAY in isSet && |c.segmentArray| > 0)
       || KEY_PRIMARY_DATA_DIRECTORIES !in isSet || |c.primaryDataDirectories| < 1
       || !ValidateStringArray(c.primaryDataDirectories)
       || KEY_HOSTLIST !in isSet || |c.hostList| < 1 || !ValidateStringArray(c.hostList)
    {
      assert ExpansionValidated(c, containsMirror, isSet).err.Some?;
    } else {
      assert ExpansionValidated(c, containsMirror, isSet) == PortsValidated(c, containsMirror, isSet);
      PortsAcceptedExactly(c, containsMirror, isSet);
    }
  }

  lemma PortsAcceptedExactly(c: InitConfig, containsMirror: bool, isSet: set<string>)
    requires |c.primaryDataDirectories| >= 1 && ValidateStringArray(c.primaryDataDirectories)
    requires |c.hostList| >= 1 && ValidateStringArray(c.hostList)
    ensures PortsValidated(c, containsMirror, isSet).err.None? <==>
      && (KEY_PRIMARY_BASE_PORT in isSet ==> PrimaryBasePortOf(c, isSet) >= 1)
      && PrimaryBasePortOf(c, isSet) != c.coordinator.port
      && (AnyExpansionMirrorConfigPresent(isSet) ==> MirrorsAcceptable(c, isSet))
  {
    var c1 := c.(primaryBasePort := PrimaryBasePortOf(c, isSet));
    if AnyExpansionMirrorConfigPresent(isSet) {
      MirrorsAcceptedExactly(c, c1, isSet);
    }
  }

  lemma MirrorsAcceptedExactly(c: InitConfig, c1: InitConfig, isSet: set<string>)
    requires c1 == c.(primaryBasePort := PrimaryBasePortOf(c, isSet))
    ensures MirrorExpansionValidated(c1, isSet).err.None? <==> MirrorsAcceptable(c, isSet)
  {
    var mirrorPort := MirrorBasePortOf(c, isSet);
    assert mirrorPort == (if KEY_MIRROR_BASE_PORT in isSet then c1.mirrorBasePort else c1.primaryBasePort + 1000);
    var c2 := c1.(mirrorBasePort := mirrorPort);
    if |c1.primaryDataDirectories| != |c1.mirrorDataDirectories| || !ValidateStringArray(c1.mirrorDataDirectories) {
      assert MirrorExpansionValidated(c1, isSet).err.Some?;
    } else {
      assert MirrorExpansionValidated(c1, isSet) == MirrorPortValidated(c2, isSet);
      if mirrorPort < 1 || mirrorPort == c.coordinator.port || mirrorPort == c1.primaryBasePort {
        assert MirrorPortValidated(c2, isSet).err.Some?;
      } else {
        assert MirrorPortValidated(c2, isSet) == MirroringTypeValidated(c2, isSet);
        MirroringTypeAcceptedExactly(c, c2, isSet);
      }
    }
  }

  lemma MirroringTypeAcceptedExactly(c: InitConfig, c2: InitConfig, isSet: set<string>)
    requires |c2.mirrorDataDirectories| == |c2.primaryDataDirectories| && ValidateStringArray(c2.mirrorDataDirectories)
    requires c2.mirrorBasePort >= 1 && c2.mirrorBasePort != c2.coordinator.port && c2.mirrorBasePort != c2.primaryBasePort
    requires c2.mirroringType == c.mirroringType && c2.hostList == c.hostList
    requires c2.mirrorDataDirectories == c.mirrorDataDirectories
    ensures MirroringTypeValidated(c2, isSet).err.None? <==>
      var mirroringType := MirroringTypeOf(c, isSet);
      && (mirroringType == GROUP_MIRRORING || mirroringType == SPREAD_MIRRORING)
      && (mirroringType == SPREAD_MIRRORING ==> |c.mirrorDataDirectories| < |c.hostList|)
  {
    MirroringTypesLowerCase();
    if KEY_MIRRORING_TYPE in isSet && c.mirroringType != "" {
      ToLowerIdempotent(c.mirroringType);
    }
  }

  /** Validating an accepted configuration again changes nothing and accepts it again. */
  lemma ExpansionValidatedIdempotent(c: InitConfig, containsMirror: bool, isSet: set<string>)
    requires ExpansionValidated(c, containsMirror, isSet).err.None?
    ensures var r := ExpansionValidated(c, containsMirror, isSet);
      ExpansionValidated(r.config, r.containsMirror, isSet) == r
  {
    var r := ExpansionValidated(c, containsMirror, isSet);
    assert r == PortsValidated(c, containsMirror, isSet);
    PortsValidatedIdempotent(c, containsMirror, isSet);
    var d := r.config;
    assert d.segmentArray == c.segmentArray && d.primaryDataDirectories == c.primaryDataDirectories;
    assert d.hostList == c.hostList;
    assert ExpansionValidated(d, r.containsMirror, isSet) == PortsValidated(d, r.containsMirror, isSet);
  }

  lemma PortsValidatedIdempotent(c: InitConfig, containsMirror: bool, isSet: set<string>)
    requires |c.primaryDataDirectories| >= 1 && ValidateStringArray(c.primaryDataDirectories)
    requires |c.hostList| >= 1 && ValidateStringArray(c.hostList)
    requires PortsValidated(c, containsMirror, isSet).err.None?
    ensures var r := PortsValidated(c, containsMirror, isSet);
      PortsValidated(r.config, r.containsMirror, isSet) == r
  {
    var r := PortsValidated(c, containsMirror, isSet);
    var c1 := c.(primaryBasePort := PrimaryBasePortOf(c, isSet));
    var d := r.config;
    assert d.coordinator == c.coordinator && d.primaryBasePort == c1.primaryBasePort;
    var d1 := d.(primaryBasePort := PrimaryBasePortOf(d, isSet));
    assert d1 == d;
    if AnyExpansionMirrorConfigPresent(isSet) {
      assert r == MirrorExpansionValidated(c1, isSet);
      MirrorExpansionValidatedIdempotent(c1, isSet);
      assert PortsValidated(d, r.containsMirror, isSet) == MirrorExpansionValidated(d1, isSet);
    } else {
      assert r == ExpansionOutcome(c1, false, None);
      assert PortsValidated(d, r.containsMirror, isSet) == ExpansionOutcome(d1, false, None);
    }
  }

  lemma MirrorExpansionValidatedIdempotent(c: InitConfig, isSet: set<string>)
    requires MirrorExpansionValidated(c, isSet).err.None?
    ensures var r := MirrorExpansionValidated(c, isSet);
      MirrorExpansionValidated(r.config, isSet) == r
  {
    var c2 := c.(mirrorBasePort := if KEY_MIRROR_BASE_PORT in isSet then c.mirrorBasePort else c.primaryBasePort + 1000);
    var r := MirroringTypeValidated(c2, isSet);
    assert MirrorExpansionValidated(c, isSet) == r;
    MirroringTypeValidatedIdempotent(c2, isSet);
    var d2 := r.config.(mirrorBasePort := if KEY_MIRROR_BASE_PORT in isSet then r.config.mirrorBasePort
                                          else r.config.primaryBasePort + 1000);
    assert d2 == r.config;
    assert MirrorExpansionValidated(r.config, isSet) == MirroringTypeValidated(r.config, isSet);
  }

  lemma MirroringTypeValidatedIdempotent(c: InitConfig, isSet: set<string>)
    requires |c.mirrorDataDirectories| == |c.primaryDataDirectories| && ValidateStringArray(c.mirrorDataDirectories)
    requires c.mirrorBasePort >= 1 && c.mirrorBasePort != c.coordinator.port && c.mirrorBasePort != c.primaryBasePort
    requires MirroringTypeValidated(c, isSet).err.None?
    ensures var r := MirroringTypeValidated(c, isSet);
      MirroringTypeValidated(r.config, isSet) == r
  {
    var r := MirroringTypeValidated(c, isSet);
    MirroringTypesLowerCase();
    if KEY_MIRRORING_TYPE !in isSet || r.config.mirroringType == "" {
      assert r.config.mirroringType == GROUP_MIRRORING;
    } else {
      assert ToLower(r.config.mirroringType) == r.config.mirroringType;
    }
  }

  /** The state the init command edits: its configuration and the package-level ContainsMirror. */
  class InitSession {
    var config: InitConfig
    var containsMirror: bool

    constructor(config: InitConfig)
      ensures this.config == config && !containsMirror
    {
      this.config := config;
      containsMirror := false;
    }

    /**
     * ValidateExpansionConfigAndSetDefault: checks the expansion parameters, fills in the
     * defaults in place, and records in ContainsMirror whether mirrors are configured.
     */
    method ValidateExpansionConfigAndSetDefault(isSet: set<string>) returns (err: Option<ExpansionError>)
      modifies this
      ensures ExpansionOutcome(config, containsMirror, err) == ExpansionValidated(old(config), old(containsMirror), isSet)
    {
      if KEY_SEGMENT_ARRAY in isSet && |config.segmentArray| > 0 {
        return Some(SegmentArrayWithExpansion);
      }
      if KEY_PRIMARY_DATA_DIRECTORIES !in isSet || |config.primaryDataDirectories| < 1 {
        return Some(MissingPrimaryDataDirectories);
      }
      if !ValidateStringArray(config.primaryDataDirectories) {
        return Some(BlankPrimaryDataDirectory);
      }
      if KEY_HOSTLIST !in isSet || |config.hostList| < 1 {
        return Some(MissingHostList);
      }
      if !ValidateStringArray(config.hostList) {
        return Some(BlankHost);
      }
      assert ExpansionValidated(config, containsMirror, isSet) == PortsValidated(config, containsMirror, isSet);
      err := ValidateExpansionPorts(isSet);
    }

    /** The port and mirror part of ValidateExpansionConfigAndSetDefault, once the lists passed. */
    method ValidateExpansionPorts(isSet: set<string>) returns (err: Option<ExpansionError>)
      requires |config.primaryDataDirectories| >= 1 && ValidateStringArray(config.primaryDataDirectories)
      requires |config.hostList| >= 1 && ValidateStringArray(config.hostList)
      modifies this
      ensures ExpansionOutcome(config, containsMirror, err) == PortsValidated(old(config), old(containsMirror), isSet)
    {
      if KEY_PRIMARY_BASE_PORT !in isSet {
        config := config.(primaryBasePort := config.coordinator.port + 2);
      }
      if KEY_PRIMARY_BASE_PORT in isSet && config.primaryBasePort < 1 {
        return Some(InvalidPrimaryBasePort(config.primaryBasePort));
      }
      if config.primaryBasePort == config.coordinator.port {
        return Some(PrimaryPortIsCoordinatorPort);
      }
      if AnyExpansionMirrorConfigPresent(isSet) {
        containsMirror := true;
        err := ValidateMirrorExpansion(isSet);
        return;
      } else {
        containsMirror := false;
      }
      return None;
    }

    /** The mirror checks and defaults of ValidateExpansionConfigAndSetDefault, once mirror keys are present. */
    method ValidateMirrorExpansion(isSet: set<string>) returns (err: Option<ExpansionError>)
      modifies this
      ensures ExpansionOutcome(config, true, err) == MirrorExpansionValidated(old(config), isSet)
      ensures containsMirror == old(containsMirror)
    {
      if |config.primaryDataDirectories| != |config.mirrorDataDirectories| {
        return Some(MirrorDirectoryCountMismatch);
      }
      if !ValidateStringArray(config.mirrorDataDirectories) {
        return Some(BlankMirrorDataDirectory);
      }
      if KEY_MIRROR_BASE_PORT !in isSet {
        config := config.(mirrorBasePort := config.primaryBasePort + 1000);
      }
      if config.mirrorBasePort < 1 {
        return Some(InvalidMirrorBasePort(config.mirrorBasePort));
      }
      if config.mirrorBasePort == config.coordinator.port {
        return Some(MirrorPortIsCoordinatorPort);
      }
      if config.mirrorBasePort == config.primaryBasePort {
        return Some(MirrorPortIsPrimaryPort);
      }
      err := ValidateMirroringType(isSet);
    }

    /** The mirroring type checks of ValidateExpansionConfigAndSetDefault, once the mirror port passed. */
    method ValidateMirroringType(isSet: set<string>) returns (err: Option<ExpansionError>)
      requires |config.mirrorDataDirectories| == |config.primaryDataDirectories| && ValidateStringArray(config.mirrorDataDirectories)
      requires config.mirrorBasePort >= 1 && config.mirrorBasePort != config.coordinator.port
      requires config.mirrorBasePort != config.primaryBasePort
      modifies this
      ensures ExpansionOutcome(config, true, err) == MirroringTypeValidated(old(config), isSet)
      ensures containsMirror == old(containsMirror)
    {
      if KEY_MIRRORING_TYPE !in isSet || config.mirroringType == "" {
        config := config.(mirroringType := GROUP_MIRRORING);
      } else {
        config := config.(mirroringType := ToLower(config.mirroringType));
        if config.mirroringType != SPREAD_MIRRORING && config.mirroringType != GROUP_MIRRORING {
          return Some(InvalidMirroringType(config.mirroringType));
        }
      }
      if ToLower(config.mirroringType) == SPREAD_MIRRORING && !(|config.mirrorDataDirectories| < |config.hostList|) {
        return Some(TooFewHostsForSpread);
      }
      return None;
    }
  }

  datatype MultiHomeError = UnequalAddressCounts | DirectoriesNotMultipleOfAddresses | TooFewHostsForSpreadMultiHome

  /** Every host resolved to the same number of addresses. */
  ghost predicate SameAddressCount(addressMap: map<string, seq<string>>)
  {
    forall h1, h2 :: h1 in addressMap && h2 in addressMap ==> |addressMap[h1]| == |addressMap[h2]|
  }

  /**
   * The outcome of the multi-home check once all hosts have `addressesPerHost` addresses:
   * more data directories than addresses must come in a multiple of the address count, and
   * spread mirroring needs more hosts than mirrors per host.
   */
  function MultiHomeVerdict(config: InitConfig, addressesPerHost: nat, hostCount: nat, containsMirror: bool): Option<MultiHomeError>
    requires addressesPerHost > 0
  {
    if addressesPerHost < |config.primaryDataDirectories| && |config.primaryDataDirectories| % addressesPerHost != 0 then
      Some(DirectoriesNotMultipleOfAddresses)
    else if containsMirror && config.mirroringType == SPREAD_MIRRORING && !(hostCount > |config.mirrorDataDirectories|) then
      Some(TooFewHostsForSpreadMultiHome)
    else None
  }

  /**
   * ValidateMultiHomeConfig. The hosts of `addressMap` are visited in an unspecified order, as
   * Go's map iteration is; the outcome is the same for every order. The map comes from the hub
   * with at least one host and at least one address per host.
   */
  method ValidateMultiHomeConfig(config: InitConfig, addressMap: map<string, seq<string>>, containsMirror: bool)
    returns (ok: bool, err: Option<MultiHomeError>)
    requires |addressMap| > 0
    requires forall h :: h in addressMap ==> |addressMap[h]| > 0
    ensures ok <==> err.None?
    ensures err == Some(UnequalAddressCounts) <==> !SameAddressCount(addressMap)
    ensures forall h :: h in addressMap && SameAddressCount(addressMap) ==>
              err == MultiHomeVerdict(config, |addressMap[h]|, |addressMap|, containsMirror)
  {
    var addressLengthList: seq<nat> := [];
    var remaining := addressMap.Keys;
    ghost var first: string := "";
    while remaining != {}
      invariant remaining <= addressMap.Keys
      invariant |addressLengthList| == 0 <==> remaining == addressMap.Keys
      invariant |addressLengthList| > 0 ==> first in addressMap && first !in remaining
      invariant forall k :: 0 <= k < |addressLengthList| ==> addressLengthList[k] == |addressMap[first]|
      invariant forall h :: h in addressMap && h !in remaining ==> |addressMap[h]| == |addressMap[first]|
      decreases remaining
    {
      var host :| host in remaining;
      var index := |addressLengthList|;
      if index == 0 {
        first := host;
      }
      addressLengthList := addressLengthList + [|addressMap[host]|];
      if index > 0 && addressLengthList[index] != addressLengthList[index - 1] {
        return false, Some(UnequalAddressCounts);
      }
      remaining := remaining - {host};
    }
    assert SameAddressCount(addressMap);
    if addressLengthList[0] < |config.primaryDataDirectories| && |config.primaryDataDirectories| % addressLengthList[0] != 0 {
      return false, Some(DirectoriesNotMultipleOfAddresses);
    }
    if containsMirror {
      if config.mirroringType == SPREAD_MIRRORING && !(|addressMap| > |config.mirrorDataDirectories|) {
        return false, Some(TooFewHostsForSpreadMultiHome);
      }
    }
    return true, None;
  }
}
