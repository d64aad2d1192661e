/** The WAR gateway's configuration lookups (`WarEngineConfig`).

    The composite configuration (system properties over `apiman.properties`)
    is given as one map from keys to values; the JVM system properties read
    directly for the plugins-directory override are a second map. Class
    loading is replaced by the sets of class names each loader can find. */
module WarConfig {
  import opened Common

  const RegistryKey := "apiman-gateway.registry"
  const PluginRegistryKey := "apiman-gateway.plugin-registry"
  const ConnectorFactoryKey := "apiman-gateway.connector-factory"
  const PolicyFactoryKey := "apiman-gateway.policy-factory"
  const MetricsKey := "apiman-gateway.metrics"
  const ComponentPrefix := "apiman-gateway.components."
  const PluginsDirOverrideKey := "apiman-gateway.plugin-registry.pluginsDir"

  type Config = map<string, string>

  /** What a configured class is used for. */
  datatype Role =
    | Registry
    | PluginRegistry
    | ConnectorFactory
    | PolicyFactory
    | Metrics
    | /** a component, named by the simple name of its interface */
      Component(simpleName: string)

  /** The class names each class loader can find: the thread's context
      class loader is tried first, then `Class.forName`. */
  datatype ClassLoaders = ClassLoaders(contextLoader: set<string>, forName: set<string>)

  datatype LoadedClass = LoadedClass(className: string, viaContextLoader: bool)

  datatype LoadError =
    | /** "No <type> class configured." */
      NoClassConfigured(typeName: string)
    | /** the class name is configured but neither loader finds it */
      FailedToLoadClass(className: string)

  /** The configuration key naming the class of a role, which is also the
      prefix of its configuration map. */
  function RoleKey(role: Role): string {
    match role
    case Registry => RegistryKey
    case PluginRegistry => PluginRegistryKey
    case ConnectorFactory => ConnectorFactoryKey
    case PolicyFactory => PolicyFactoryKey
    case Metrics => MetricsKey
    case Component(n) => ComponentPrefix + n
  }

  /** The simple name of the interface a role's class implements. */
  function RoleTypeName(role: Role): string {
    match role
    case Registry => "IRegistry"
    case PluginRegistry => "IPluginRegistry"
    case ConnectorFactory => "IConnectorFactory"
    case PolicyFactory => "IPolicyFactory"
    case Metrics => "IMetrics"
    case Component(n) => n
  }

  /** `config.getKeys(prefix)`: the prefix itself and every key below it. */
  predicate Selected(key: string, prefix: string) {
    key == prefix || prefix + "." <= key
  }

  function SelectedKeys(config: Config, prefix: string): set<string> {
    set k | k in config && Selected(k, prefix)
  }

  /** The full key of short key `s` under `prefix`: prefix, separator, short key. */
  function FullKey(prefix: string, s: string): string {
    prefix + "." + s
  }

  /** A key below `prefix` is the prefix, the separator, and its short key. */
  lemma SplitBelowPrefix(key: string, prefix: string)
    requires prefix + "." <= key
    ensures |key| > |prefix| && key == prefix + "." + key[|prefix| + 1..]
  {
    assert key == key[..|prefix| + 1] + key[|prefix| + 1..];
  }

  /** The short keys of the configured keys below `prefix`. */
  function ShortKeys(config: Config, prefix: string): set<string> {
    set k | k in config && prefix + "." <= k :: k[|prefix| + 1..]
  }

  /** `s` is a short key exactly when its full key is configured. */
  lemma ShortKeysExact(config: Config, prefix: string, s: string)
    ensures s in ShortKeys(config, prefix) <==> FullKey(prefix, s) in config
  {
    if s in ShortKeys(config, prefix) {
      var k :| k in config && prefix + "." <= k && s == k[|prefix| + 1..];
      SplitBelowPrefix(k, prefix);
    }
    if FullKey(prefix, s) in config {
      var k := FullKey(prefix, s);
      assert k[|prefix| + 1..] == s;
    }
  }

  /** The map of short keys to values for a prefix, described independently
      of any iteration order. */
  function ConfigMap(config: Config, prefix: string): map<string, string> {
    map s | s in ShortKeys(config, prefix) && FullKey(prefix, s) in config :: config[FullKey(prefix, s)]
  }

  /** The prefixed map at one short key. */
  lemma ConfigMapAt(config: Config, prefix: string, s: string)
    ensures s in ConfigMap(config, prefix) <==> FullKey(prefix, s) in config
    ensures s in ConfigMap(config, prefix) ==> ConfigMap(config, prefix)[s] == config[FullKey(prefix, s)]
  {
    ShortKeysExact(config, prefix, s);
  }

  /** `s` is in the prefixed map exactly when `prefix.s` is configured, and
      then maps to its value. */
  lemma ConfigMapExact(config: Config, prefix: string)
    ensures forall s :: s in ConfigMap(config, prefix) <==> FullKey(prefix, s) in config
    ensures forall s :: s in ConfigMap(config, prefix) ==> ConfigMap(config, prefix)[s] == config[FullKey(prefix, s)]
  {
    forall s ensures s in ConfigMap(config, prefix) <==> FullKey(prefix, s) in config {
      ShortKeysExact(config, prefix, s);
    }
  }

  /** Adding a key below the prefix adds its short key with the new value
      and keeps the other entries. */
  lemma ConfigMapInsert(config: Config, prefix: string, key: string, value: string)
    requires prefix + "." <= key
    ensures |key| > |prefix|
    ensures ConfigMap(config[key := value], prefix) == ConfigMap(config, prefix)[key[|prefix| + 1..] := value]
  {
    SplitBelowPrefix(key, prefix);
    var shortKey := key[|prefix| + 1..];
    var a := ConfigMap(config[key := value], prefix);
    var b := ConfigMap(config, prefix)[shortKey := value];
    forall s
      ensures (s in a <==> s in b) && (s in a ==> a[s] == b[s])
    {
      ConfigMapAt(config[key := value], prefix, s);
      ConfigMapAt(config, prefix, s);
      if s == shortKey {
        assert FullKey(prefix, s) == key;
      } else {
        assert FullKey(prefix, s) != key by {
          assert FullKey(prefix, s)[|prefix| + 1..] == s;
        }
      }
    }
    assert a == b;
  }

  /** `r` holds, under its short key, exactly the entries of `config`
      below the prefix whose keys are in `visited`. */
  ghost predicate Mirrors(r: map<string, string>, prefix: string, config: Config, visited: set<string>) {
    && visited <= config.Keys
    && (forall s {:trigger s in r} :: s in r ==> FullKey(prefix, s) in visited && r[s] == config[FullKey(prefix, s)])
    && (forall s {:trigger FullKey(prefix, s)} :: FullKey(prefix, s) in visited ==> s in r)
  }

  /** One iteration for a key below the prefix: its short key is added. */
  lemma MirrorsInsert(r: map<string, string>, prefix: string, config: Config, visited: set<string>, key: string)
    requires Mirrors(r, prefix, config, visited)
    requires key in config && prefix + "." <= key
    ensures |key| > |prefix|
    ensures Mirrors(r[key[|prefix| + 1..] := config[key]], prefix, config, visited + {key})
  {
    SplitBelowPrefix(key, prefix);
    var shortKey := key[|prefix| + 1..];
    forall s
      ensures FullKey(prefix, s) == key <==> s == shortKey
    {
      if FullKey(prefix, s) == key {
        assert FullKey(prefix, s)[|prefix| + 1..] == s;
      }
    }
  }

  /** One iteration for the prefix key itself: nothing is added. */
  lemma MirrorsSkipPrefix(r: map<string, string>, prefix: string, config: Config, visited: set<string>)
    requires Mirrors(r, prefix, config, visited)
    requires prefix in config
    ensures Mirrors(r, prefix, config, visited + {prefix})
  {
    forall s
      ensures FullKey(prefix, s) != prefix
    {
      assert |FullKey(prefix, s)| > |prefix|;
    }
  }

  /** Having visited every selected key, the mirror is the prefixed map. */
  lemma MirrorsAllIsConfigMap(r: map<string, string>, config: Config, prefix: string, visited: set<string>)
    requires Mirrors(r, prefix, config, visited)
    requires visited == SelectedKeys(config, prefix)
    ensures r == ConfigMap(config, prefix)
  {
    var m := ConfigMap(config, prefix);
    forall s
      ensures (s in r <==> s in m) && (s in r ==> r[s] == m[s])
    {
      ConfigMapAt(config, prefix, s);
      assert prefix + "." <= FullKey(prefix, s);
    }
    assert r == m;
  }

  /** Moving one element from the pending set to the visited set keeps
      them a partition of `all`. */
  lemma MoveOne(todo: set<string>, visited: set<string>, x: string, all: set<string>)
    requires x in todo && todo + visited == all && todo !! visited
    ensures (todo - {x}) + (visited + {x}) == all && (todo - {x}) !! (visited + {x})
    ensures |visited + {x}| == |visited| + 1
  {
  }

  /** One iteration of `getConfigMap`: the prefix itself is skipped, any
      other key is stored under what follows the prefix and one separator. */
  method VisitKey(config: Config, prefix: string, r: map<string, string>, ghost visited: set<string>, key: string)
    returns (r': map<string, string>)
    requires Mirrors(r, prefix, config, visited)
    requires key in config && Selected(key, prefix)
    ensures Mirrors(r', prefix, config, visited + {key})
    ensures |r'| <= |r| + 1
  {
    if key == prefix {
      MirrorsSkipPrefix(r, prefix, config, visited);
      r' := r;
    } else {
      MirrorsInsert(r, prefix, config, visited, key);
      r' := r[key[|prefix| + 1..] := config[key]];
    }
  }

  /** `getConfigMap(prefix)`: walks the selected keys in whatever order the
      configuration yields them and visits each. */
  method GetConfigMap(config: Config, prefix: string) returns (r: map<string, string>)
    ensures r == ConfigMap(config, prefix)
    ensures |r| <= |SelectedKeys(config, prefix)|
  {
    r := map[];
    var todo := SelectedKeys(config, prefix);
    ghost var visited: set<string> := {};
    while todo != {}
      invariant todo + visited == SelectedKeys(config, prefix) && todo !! visited
      invariant Mirrors(r, prefix, config, visited)
      invariant |r| <= |visited|
      decreases |todo|
    {
      var key :| key in todo;
      MoveOne(todo, visited, key, SelectedKeys(config, prefix));
      r := VisitKey(config, prefix, r, visited, key);
      todo := todo - {key};
      visited := visited + {key};
    }
    MirrorsAllIsConfigMap(r, config, prefix, visited);
  }

  /** `getConfigProperty(name, default)`. */
  function GetConfigProperty(config: Config, name: string, default: string): (r: string)
    ensures name in config ==> r == config[name]
    ensures name !in config ==> r == default
  {
    if name in config then config[name] else default
  }

  /** The configuration map handed to a role's implementation; for the plugin
      registry a `pluginsDir` system property overrides the configured one. */
  function RoleConfig(config: Config, systemProperties: map<string, string>, role: Role): (m: map<string, string>)
  {
    var base := ConfigMap(config, RoleKey(role));
    if role.PluginRegistry? && PluginsDirOverrideKey in systemProperties
    then base["pluginsDir" := systemProperties[PluginsDirOverrideKey]]
    else base
  }

  /** `loadConfigClass`: a missing class name is an error before any loader
      is asked; otherwise the context loader is tried, then `Class.forName`. */
  function LoadConfigClass(config: Config, role: Role, loaders: ClassLoaders): (r: Result<LoadedClass, LoadError>)
    ensures r.Ok? ==> RoleKey(role) in config && r.value.className == config[RoleKey(role)]
    ensures r.Ok? <==>
              RoleKey(role) in config &&
              (config[RoleKey(role)] in loaders.contextLoader || config[RoleKey(role)] in loaders.forName)
  {
    var key := RoleKey(role);
    if key !in config then Err(NoClassConfigured(RoleTypeName(role)))
    else
      var className := config[key];
      if className in loaders.contextLoader then Ok(LoadedClass(className, true))
      else if className in loaders.forName then Ok(LoadedClass(className, false))
      else Err(FailedToLoadClass(className))
  }

  // ---------------------------------------------------------------------
  // Properties
  // ---------------------------------------------------------------------

  /** The entry for the prefix key itself never reaches the map. */
  lemma PrefixKeyIsSkipped(config: Config, prefix: string)
    ensures ConfigMap(config, prefix) == ConfigMap(config - {prefix}, prefix)
  {
    var a := ConfigMap(config, prefix);
    var b := ConfigMap(config - {prefix}, prefix);
    ConfigMapExact(config, prefix);
    ConfigMapExact(config - {prefix}, prefix);
    forall s ensures (s in a <==> s in b) && (s in a ==> a[s] == b[s]) {
      assert |prefix + "." + s| > |prefix|;
    }
  }

  /** Keys outside the prefix contribute nothing. */
  lemma OutsideKeysAreIgnored(config: Config, prefix: string, key: string, value: string)
    requires !Selected(key, prefix)
    ensures ConfigMap(config[key := value], prefix) == ConfigMap(config, prefix)
  {
    var a := ConfigMap(config[key := value], prefix);
    var b := ConfigMap(config, prefix);
    ConfigMapExact(config[key := value], prefix);
    ConfigMapExact(config, prefix);
    forall s ensures (s in a <==> s in b) && (s in a ==> a[s] == b[s]) {
      assert prefix + "." <= prefix + "." + s;
    }
  }

  /** Every entry of a prefixed map is what `getConfigProperty` returns for
      the full key: the prefix, one separator character, and the short key. */
  lemma ConfigMapAgreesWithProperty(config: Config, prefix: string, s: string, default: string)
    requires s in ConfigMap(config, prefix)
    ensures ConfigMap(config, prefix)[s] == GetConfigProperty(config, FullKey(prefix, s), default)
  {
  }

  /** A component's class and its configuration are both looked up under
      `apiman-gateway.components.<simple name>`. */
  lemma ComponentKeys(config: Config, systemProperties: map<string, string>, simpleName: string, loaders: ClassLoaders)
    ensures RoleConfig(config, systemProperties, Component(simpleName)) ==
      ConfigMap(config, "apiman-gateway.components." + simpleName)
    ensures "apiman-gateway.components." + simpleName !in config ==>
      LoadConfigClass(config, Component(simpleName), loaders) == Err(NoClassConfigured(simpleName))
    ensures "apiman-gateway.components." + simpleName in config ==>
      LoadConfigClass(config, Component(simpleName), loaders).Ok? ||
      LoadConfigClass(config, Component(simpleName), loaders) ==
        Err(FailedToLoadClass(config["apiman-gateway.components." + simpleName]))
  {
  }

  /** The plugin-registry map is the prefixed map except that a `pluginsDir`
      system property replaces or inserts `pluginsDir`. */
  lemma PluginsDirOverride(config: Config, systemProperties: map<string, string>)
    ensures var m := RoleConfig(config, systemProperties, PluginRegistry);
      var base := ConfigMap(config, "apiman-gateway.plugin-registry");
      && (PluginsDirOverrideKey in systemProperties ==>
            "pluginsDir" in m && m["pluginsDir"] == systemProperties[PluginsDirOverrideKey])
      && (PluginsDirOverrideKey !in systemProperties ==> m == base)
      && forall s :: s != "pluginsDir" ==> (s in m <==> s in base) && (s in m ==> m[s] == base[s])
  {
  }

  /** A missing class name is reported whatever the class loaders hold. */
  lemma MissingClassNameIsAnError(config: Config, role: Role, loaders: ClassLoaders)
    requires RoleKey(role) !in config
    ensures LoadConfigClass(config, role, loaders) == Err(NoClassConfigured(RoleTypeName(role)))
    ensures LoadConfigClass(config, role, loaders) == LoadConfigClass(config, role, ClassLoaders({}, {}))
  {
  }
}
