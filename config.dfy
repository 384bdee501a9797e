/**
 * The application configuration and its provider: the built-in defaults,
 * the merge of a stored configuration over them when the provider starts,
 * the guard that writes the configuration back to storage only once it has
 * been loaded, and the replacement of the whole configuration.
 *
 * Browser storage is modelled as one field of the provider holding what is
 * stored under the configuration's storage key, already parsed.
 */
module ConfigContext {
  import opened Wrappers
  import opened JsObject

  /** The configuration; `clients` maps client keys to display names, in insertion order. */
  datatype Config = Config(
    work_mode: string,
    csv_file_path: string,
    reporter_name: string,
    current_client_profile: string,
    clients: Dict)
  {
    ghost predicate Valid() {
      clients.Valid()
    }
  }

  const DefaultClientKey: string := "default"
  const DefaultClientName: string := "Valued Client"

  function DefaultClients(): (d: Dict)
    ensures d.Valid() && d.keys == [DefaultClientKey] && d.values == map[DefaultClientKey := DefaultClientName]
  {
    Single(DefaultClientKey, DefaultClientName)
  }

  function DefaultConfig(): (c: Config)
    ensures c.Valid() && c.clients == DefaultClients()
    ensures c.current_client_profile in c.clients.values
  {
    Config("Full-Time", "task_log.csv", "Your Name", DefaultClientKey, DefaultClients())
  }

  /** A parsed stored configuration: each top-level field is either present or absent. */
  datatype StoredConfig = StoredConfig(
    work_mode: Option<string>,
    csv_file_path: Option<string>,
    reporter_name: Option<string>,
    current_client_profile: Option<string>,
    clients: Option<Dict>)

  /** What storage holds under the configuration key: nothing, text that does not parse, or a parsed object. */
  datatype StoredValue = Missing | Unparsable | Parsed(stored: StoredConfig) {
    ghost predicate Valid() {
      Parsed? && stored.clients.Some? ==> stored.clients.value.Valid()
    }
  }

  /**
   * The configuration the provider starts with: the defaults when nothing
   * usable is stored, otherwise the stored object spread over the defaults
   * with the stored clients spread over the default clients.
   */
  function LoadConfig(v: StoredValue): (c: Config)
    requires v.Valid()
    ensures c.Valid()
    ensures DefaultClientKey in c.clients.values
    ensures !v.Parsed? ==> c == DefaultConfig()
  {
    match v
    case Missing => DefaultConfig()
    case Unparsable => DefaultConfig()
    case Parsed(s) =>
      var d := DefaultConfig();
      Config(
        s.work_mode.GetOr(d.work_mode),
        s.csv_file_path.GetOr(d.csv_file_path),
        s.reporter_name.GetOr(d.reporter_name),
        s.current_client_profile.GetOr(d.current_client_profile),
        DefaultClients().Assign(s.clients.GetOr(Empty())))
  }

  /** What `JSON.stringify` writes and `JSON.parse` reads back: every field present. */
  function ToStored(c: Config): (s: StoredConfig)
    ensures s.clients == Some(c.clients)
  {
    StoredConfig(Some(c.work_mode), Some(c.csv_file_path), Some(c.reporter_name), Some(c.current_client_profile), Some(c.clients))
  }

  /** With nothing stored, or with stored text that does not parse, the defaults are loaded. */
  lemma LoadWithoutStoredConfig(v: StoredValue)
    requires !v.Parsed?
    ensures LoadConfig(v) == DefaultConfig()
  {
  }

  /** Each stored top-level field overrides the default; each absent one is backfilled from the default. */
  lemma LoadOverridesAndBackfills(s: StoredConfig)
    requires Parsed(s).Valid()
    ensures var c := LoadConfig(Parsed(s));
      && (s.work_mode.Some? ==> c.work_mode == s.work_mode.value)
      && (s.work_mode.None? ==> c.work_mode == DefaultConfig().work_mode)
      && (s.csv_file_path.Some? ==> c.csv_file_path == s.csv_file_path.value)
      && (s.csv_file_path.None? ==> c.csv_file_path == DefaultConfig().csv_file_path)
      && (s.reporter_name.Some? ==> c.reporter_name == s.reporter_name.value)
      && (s.reporter_name.None? ==> c.reporter_name == DefaultConfig().reporter_name)
      && (s.current_client_profile.Some? ==> c.current_client_profile == s.current_client_profile.value)
      && (s.current_client_profile.None? ==> c.current_client_profile == DefaultConfig().current_client_profile)
  {
  }

  /**
   * The loaded clients are the default client and the stored clients, a
   * stored name winning over the default one; the default key is listed
   * first and is always present, even when it is missing from storage.
   */
  lemma LoadedClients(v: StoredValue, k: string)
    requires v.Valid()
    ensures var clients := LoadConfig(v).clients;
      var stored := if v.Parsed? && v.stored.clients.Some? then v.stored.clients.value.values else map[];
      && (k in clients.values <==> k == DefaultClientKey || k in stored)
      && (k in stored ==> clients.values[k] == stored[k])
      && (k !in stored && k == DefaultClientKey ==> clients.values[k] == DefaultClientName)
      && |clients.keys| >= 1 && clients.keys[0] == DefaultClientKey
  {
  }

  /**
   * Saving a configuration and loading it again gives it back exactly when
   * its client list starts with the default key; otherwise the default
   * client is put back in front.
   */
  lemma SaveThenLoad(c: Config)
    requires c.Valid()
    ensures var r := LoadConfig(Parsed(ToStored(c)));
      && r == c.(clients := DefaultClients().Assign(c.clients))
      && (|c.clients.keys| >= 1 && c.clients.keys[0] == DefaultClientKey ==> r == c)
  {
    if |c.clients.keys| >= 1 && c.clients.keys[0] == DefaultClientKey {
      AssignOverSingle(DefaultClientKey, DefaultClientName, c.clients);
    }
  }

  /** Saving a loaded configuration and loading it again is a no-op. */
  lemma LoadIsStable(v: StoredValue)
    requires v.Valid()
    ensures LoadConfig(Parsed(ToStored(LoadConfig(v)))) == LoadConfig(v)
  {
    var s := if v.Parsed? && v.stored.clients.Some? then v.stored.clients.value else Empty();
    var c := LoadConfig(v);
    SaveThenLoad(c);
    assert c.clients == DefaultClients().Assign(s) by {
      if !v.Parsed? {
        assert DefaultClients().keys + [] == DefaultClients().keys;
      }
    }
    AssignAbsorbs(DefaultClients(), s);
  }

  /** The provider: the current configuration, whether it has been loaded, and what storage holds. */
  class ConfigProvider {
    var config: Option<Config>
    var isLoaded: bool
    var storage: StoredValue

    ghost predicate Valid()
      reads this
    {
      storage.Valid() && (config.Some? ==> config.value.Valid())
    }

    /** The provider before its effects run: no configuration yet. */
    constructor(stored: StoredValue)
      requires stored.Valid()
      ensures Valid()
      ensures config == None && !isLoaded && storage == stored
    {
      config := None;
      isLoaded := false;
      storage := stored;
    }

    /** The first effect: merge what is stored over the defaults, then mark the configuration loaded. */
    method LoadEffect()
      requires Valid()
      modifies this
      ensures Valid()
      ensures config == Some(LoadConfig(storage)) && isLoaded
      ensures storage == old(storage)
    {
      config := Some(LoadConfig(storage));
      isLoaded := true;
    }

    /** The second effect: write the configuration to storage, but only once loaded and present. */
    method SaveEffect()
      requires Valid()
      modifies this
      ensures Valid()
      ensures config == old(config) && isLoaded == old(isLoaded)
      ensures storage == if isLoaded && config.Some? then Parsed(ToStored(config.value)) else old(storage)
    {
      if isLoaded && config.Some? {
        storage := Parsed(ToStored(config.value));
      }
    }

    /** `updateConfig` replaces the whole configuration. */
    method UpdateConfig(newConfig: Config)
      requires Valid() && newConfig.Valid()
      modifies this
      ensures Valid()
      ensures config == Some(newConfig)
      ensures isLoaded == old(isLoaded) && storage == old(storage)
    {
      config := Some(newConfig);
    }
  }

  /**
   * Starting the provider and letting both effects run stores the loaded
   * configuration, and starting again from that storage loads the same
   * configuration.
   */
  method StartTwice(stored: StoredValue) returns (first: Config, second: Config)
    requires stored.Valid()
    ensures first == LoadConfig(stored) && second == first
  {
    var p := new ConfigProvider(stored);
    p.SaveEffect();
    p.LoadEffect();
    p.SaveEffect();
    first := p.config.value;
    var q := new ConfigProvider(p.storage);
    q.LoadEffect();
    second := q.config.value;
    LoadIsStable(stored);
  }
}
