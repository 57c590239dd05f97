/**
 * The cluster parameters of a make-cluster request (`idl.ClusterParams`) and the two routines
 * of the init command that fill in missing server settings in place: `ValidateMaxConnections`
 * and `CheckAndSetDefaultConfigParams`. Each is a method of the ClusterParams class proved
 * against a function on the parameters' value, and the properties of the settings they leave
 * behind are lemmas about that function.
 */
module ConfigParams {
  import opened Wrappers
  import opened GoStrings
  import opened InitTypes

  const MAX_CONNECTIONS: string := "max_connections"
  const SHARED_BUFFERS: string := "shared_buffers"

  /** The value of an `idl.ClusterParams`: three setting maps, the locale and the database options. */
  datatype Params = Params(
    coordinatorConfig: map<string, string>,
    segmentConfig: map<string, string>,
    commonConfig: map<string, string>,
    locale: Locale,
    hbaHostnames: bool,
    encoding: string,
    suPassword: string,
    dbName: string,
    dataChecksums: bool)

  datatype ConfigError =
    | InvalidMaxConnections(value: string)
    | CoordinatorMaxConnectionsTooSmall(maxConnect: int)

  datatype ParamsOutcome = ParamsOutcome(params: Params, err: Option<ConfigError>)

  /** m with key set to value unless key is already there. */
  function WithDefault(m: map<string, string>, key: string, value: string): (r: map<string, string>)
    ensures key in r && r.Keys == m.Keys + {key}
    ensures forall k :: k in m ==> r[k] == m[k]
    ensures key !in m ==> r[key] == value
  {
    if key in m then m else m[key := value]
  }

  /* ---------- CheckAndSetDefaultConfigParams ---------- */

  /**
   * The settings after CheckAndSetDefaultConfigParams(key, defaultValue): the common setting
   * falls back to defaultValue, the coordinator and segment settings to the common one.
   */
  function DefaultConfigParam(p: Params, key: string, defaultValue: string): (r: Params)
    ensures key in r.commonConfig && key in r.coordinatorConfig && key in r.segmentConfig
    ensures r.commonConfig.Keys == p.commonConfig.Keys + {key}
    ensures r.coordinatorConfig.Keys == p.coordinatorConfig.Keys + {key}
    ensures r.segmentConfig.Keys == p.segmentConfig.Keys + {key}
    ensures forall k :: k in p.commonConfig ==> r.commonConfig[k] == p.commonConfig[k]
    ensures forall k :: k in p.coordinatorConfig ==> r.coordinatorConfig[k] == p.coordinatorConfig[k]
    ensures forall k :: k in p.segmentConfig ==> r.segmentConfig[k] == p.segmentConfig[k]
    ensures key !in p.commonConfig ==> r.commonConfig[key] == defaultValue
    ensures key !in p.coordinatorConfig ==> r.coordinatorConfig[key] == r.commonConfig[key]
    ensures key !in p.segmentConfig ==> r.segmentConfig[key] == r.commonConfig[key]
    ensures r == p.(commonConfig := r.commonConfig, coordinatorConfig := r.coordinatorConfig, segmentConfig := r.segmentConfig)
  {
    var common := WithDefault(p.commonConfig, key, defaultValue);
    p.(commonConfig := common,
       coordinatorConfig := WithDefault(p.coordinatorConfig, key, common[key]),
       segmentConfig := WithDefault(p.segmentConfig, key, common[key]))
  }

  /** A second CheckAndSetDefaultConfigParams with the same key changes nothing. */
  lemma DefaultConfigParamIdempotent(p: Params, key: string, defaultValue: string)
    ensures DefaultConfigParam(DefaultConfigParam(p, key, defaultValue), key, defaultValue) == DefaultConfigParam(p, key, defaultValue)
  {
  }

  /** Defaulting one key leaves every other key's settings as they were. */
  lemma DefaultConfigParamOtherKeys(p: Params, key: string, defaultValue: string, other: string)
    requires other != key
    ensures var r := DefaultConfigParam(p, key, defaultValue);
      && (other in r.commonConfig <==> other in p.commonConfig)
      && (other in r.coordinatorConfig <==> other in p.coordinatorConfig)
      && (other in r.segmentConfig <==> other in p.segmentConfig)
  {
  }

  /* ---------- ValidateMaxConnections ---------- */

  /** The max_connections of the coordinator after its defaults: its own, else the common one, else 150. */
  function CoordinatorMaxConnections(p: Params): string
  {
    var common := WithDefault(p.commonConfig, MAX_CONNECTIONS, Itoa(DEFAULT_QD_MAX_CONNECT));
    WithDefault(p.coordinatorConfig, MAX_CONNECTIONS, common[MAX_CONNECTIONS])[MAX_CONNECTIONS]
  }

  /**
   * ValidateMaxConnections as a function of the parameters it starts from: the common and
   * coordinator defaults are written first and stay written when a later check fails; a missing
   * segment setting becomes three times the common one, computed in Go's 64-bit `int`.
   */
  function MaxConnectionsChecked(p: Params): (r: ParamsOutcome)
    ensures MAX_CONNECTIONS in r.params.commonConfig && MAX_CONNECTIONS in r.params.coordinatorConfig
    ensures r.params.coordinatorConfig[MAX_CONNECTIONS] == CoordinatorMaxConnections(p)
    ensures r.params == p.(commonConfig := r.params.commonConfig, coordinatorConfig := r.params.coordinatorConfig,
                           segmentConfig := r.params.segmentConfig)
  {
    var common := WithDefault(p.commonConfig, MAX_CONNECTIONS, Itoa(DEFAULT_QD_MAX_CONNECT));
    var coordinator := WithDefault(p.coordinatorConfig, MAX_CONNECTIONS, common[MAX_CONNECTIONS]);
    var p1 := p.(commonConfig := common, coordinatorConfig := coordinator);
    match Atoi(coordinator[MAX_CONNECTIONS])
    case None => ParamsOutcome(p1, Some(InvalidMaxConnections(coordinator[MAX_CONNECTIONS])))
    case Some(coordinatorMaxConnect) =>
      if coordinatorMaxConnect < 1 then ParamsOutcome(p1, Some(CoordinatorMaxConnectionsTooSmall(coordinatorMaxConnect)))
      else if MAX_CONNECTIONS in p.segmentConfig then ParamsOutcome(p1, None)
      else
        match Atoi(common[MAX_CONNECTIONS])
        case None => ParamsOutcome(p1, Some(InvalidMaxConnections(common[MAX_CONNECTIONS])))
        case Some(maxConnections) =>
          var segmentMaxConnections := WrapInt64(maxConnections * QE_CONNECT_FACTOR);
          ParamsOutcome(p1.(segmentConfig := p.segmentConfig[MAX_CONNECTIONS := Itoa(segmentMaxConnections)]), None)
  }

  /**
   * The coordinator's max_connections, after its defaults, is an integer of at least 1 and, if
   * the segments have none, the common one is an integer too.
   */
  predicate MaxConnectionsValid(p: Params)
  {
    && Atoi(CoordinatorMaxConnections(p)).Some? && Atoi(CoordinatorMaxConnections(p)).value >= 1
    && (MAX_CONNECTIONS !in p.segmentConfig ==>
          Atoi(WithDefault(p.commonConfig, MAX_CONNECTIONS, Itoa(DEFAULT_QD_MAX_CONNECT))[MAX_CONNECTIONS]).Some?)
  }

  /** The check passes exactly when the settings are valid. */
  lemma MaxConnectionsAccepted(p: Params)
    ensures MaxConnectionsChecked(p).err.None? <==> MaxConnectionsValid(p)
  {
  }

  /**
   * After a successful check every map has max_connections, the coordinator's parses to at least
   * 1, settings already present are kept, and a segment setting that was missing parses to three
   * times the common one (wrapped to 64 bits).
   */
  lemma MaxConnectionsSettled(p: Params)
    requires MaxConnectionsChecked(p).err.None?
    ensures var q := MaxConnectionsChecked(p).params;
      && MAX_CONNECTIONS in q.commonConfig && MAX_CONNECTIONS in q.coordinatorConfig && MAX_CONNECTIONS in q.segmentConfig
      && Atoi(q.coordinatorConfig[MAX_CONNECTIONS]).Some? && Atoi(q.coordinatorConfig[MAX_CONNECTIONS]).value >= 1
      && (forall k :: k in p.commonConfig ==> k in q.commonConfig && q.commonConfig[k] == p.commonConfig[k])
      && (forall k :: k in p.coordinatorConfig ==> k in q.coordinatorConfig && q.coordinatorConfig[k] == p.coordinatorConfig[k])
      && (forall k :: k in p.segmentConfig ==> k in q.segmentConfig && q.segmentConfig[k] == p.segmentConfig[k])
      && (MAX_CONNECTIONS !in p.segmentConfig ==>
            Atoi(q.segmentConfig[MAX_CONNECTIONS]) == Some(WrapInt64(Atoi(q.commonConfig[MAX_CONNECTIONS]).value * QE_CONNECT_FACTOR)))
  {
    var q := MaxConnectionsChecked(p).params;
    if MAX_CONNECTIONS !in p.segmentConfig {
      AtoiItoa(WrapInt64(Atoi(q.commonConfig[MAX_CONNECTIONS]).value * QE_CONNECT_FACTOR));
    }
  }

  /** A second check after a successful one passes and changes nothing. */
  lemma MaxConnectionsIdempotent(p: Params)
    requires MaxConnectionsChecked(p).err.None?
    ensures MaxConnectionsChecked(MaxConnectionsChecked(p).params) == MaxConnectionsChecked(p)
  {
    MaxConnectionsSettled(p);
  }

  /**
   * Whatever the outcome, the coordinator ends up with its own max_connections, else the common
   * one, else 150; and the common map with its own, else 150.
   */
  lemma MaxConnectionsChain(p: Params)
    ensures var q := MaxConnectionsChecked(p).params;
      && q.coordinatorConfig[MAX_CONNECTIONS] ==
           (if MAX_CONNECTIONS in p.coordinatorConfig then p.coordinatorConfig[MAX_CONNECTIONS]
            else if MAX_CONNECTIONS in p.commonConfig then p.commonConfig[MAX_CONNECTIONS]
            else Itoa(DEFAULT_QD_MAX_CONNECT))
      && q.commonConfig[MAX_CONNECTIONS] ==
           (if MAX_CONNECTIONS in p.commonConfig then p.commonConfig[MAX_CONNECTIONS] else Itoa(DEFAULT_QD_MAX_CONNECT))
  {
  }

  /** With max_connections set nowhere, the coordinator gets 150 and the segments 450. */
  lemma MaxConnectionsDefaults(p: Params)
    requires MAX_CONNECTIONS !in p.commonConfig && MAX_CONNECTIONS !in p.coordinatorConfig && MAX_CONNECTIONS !in p.segmentConfig
    ensures MaxConnectionsChecked(p).err.None?
    ensures MaxConnectionsChecked(p).params.coordinatorConfig[MAX_CONNECTIONS] == "150"
    ensures MaxConnectionsChecked(p).params.segmentConfig[MAX_CONNECTIONS] == "450"
  {
    assert Itoa(150) == "150" by {
      assert Digits(150) == Digits(15) + ['0'];
      assert Digits(15) == Digits(1) + ['5'];
    }
    assert Itoa(450) == "450" by {
      assert Digits(450) == Digits(45) + ['0'];
      assert Digits(45) == Digits(4) + ['5'];
    }
    AtoiItoa(150);
  }

  /* ---------- The parameters as an object ---------- */

  /** `*idl.ClusterParams`: the record the validation updates in place. */
  class ClusterParams {
    var coordinatorConfig: map<string, string>
    var segmentConfig: map<string, string>
    var commonConfig: map<string, string>
    var locale: Locale
    var hbaHostnames: bool
    var encoding: string
    var suPassword: string
    var dbName: string
    var dataChecksums: bool

    function Value(): Params
      reads this
    {
      Params(coordinatorConfig, segmentConfig, commonConfig, locale, hbaHostnames, encoding, suPassword, dbName, dataChecksums)
    }

    constructor (p: Params)
      ensures Value() == p
    {
      coordinatorConfig, segmentConfig, commonConfig := p.coordinatorConfig, p.segmentConfig, p.commonConfig;
      locale, hbaHostnames, encoding := p.locale, p.hbaHostnames, p.encoding;
      suPassword, dbName, dataChecksums := p.suPassword, p.dbName, p.dataChecksums;
    }

    /** CheckAndSetDefaultConfigParams: fills the common, then the coordinator and segment settings of configParam. */
    method CheckAndSetDefaultConfigParams(configParam: string, defaultValue: string)
      modifies this
      ensures Value() == DefaultConfigParam(old(Value()), configParam, defaultValue)
    {
      if configParam !in commonConfig {
        commonConfig := commonConfig[configParam := defaultValue];
      }
      if configParam !in coordinatorConfig {
        coordinatorConfig := coordinatorConfig[configParam := commonConfig[configParam]];
      }
      if configParam !in segmentConfig {
        segmentConfig := segmentConfig[configParam := commonConfig[configParam]];
      }
    }

    /** ValidateMaxConnections: defaults max_connections and checks the coordinator's value. */
    method ValidateMaxConnections() returns (err: Option<ConfigError>)
      modifies this
      ensures ParamsOutcome(Value(), err) == MaxConnectionsChecked(old(Value()))
    {
      if MAX_CONNECTIONS !in commonConfig {
        commonConfig := commonConfig[MAX_CONNECTIONS := Itoa(DEFAULT_QD_MAX_CONNECT)];
      }
      if MAX_CONNECTIONS !in coordinatorConfig {
        coordinatorConfig := coordinatorConfig[MAX_CONNECTIONS := commonConfig[MAX_CONNECTIONS]];
      }
      var coordinatorMaxConnect := Atoi(coordinatorConfig[MAX_CONNECTIONS]);
      if coordinatorMaxConnect.None? {
        return Some(InvalidMaxConnections(coordinatorConfig[MAX_CONNECTIONS]));
      }
      if coordinatorMaxConnect.value < 1 {
        return Some(CoordinatorMaxConnectionsTooSmall(coordinatorMaxConnect.value));
      }
      if MAX_CONNECTIONS !in segmentConfig {
        var maxConnections := Atoi(commonConfig[MAX_CONNECTIONS]);
        if maxConnections.None? {
          return Some(InvalidMaxConnections(commonConfig[MAX_CONNECTIONS]));
        }
        var segmentConfigMaxConnections := WrapInt64(maxConnections.value * QE_CONNECT_FACTOR);
        segmentConfig := segmentConfig[MAX_CONNECTIONS := Itoa(segmentConfigMaxConnections)];
      }
      return None;
    }
  }
}
