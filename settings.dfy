/**
 * The settings screen: adding and removing clients and editing single
 * configuration fields. Each handler builds a new configuration from the
 * current one and hands it to the provider's `UpdateConfig`; the edits
 * themselves are the functions below.
 */
module Settings {
  import opened Wrappers
  import opened JsObject
  import opened ConfigContext

  /** The configuration after `handleAddClient` with the two text inputs holding `key` and `name`. */
  function AddClient(c: Config, key: string, name: string): (r: Config)
    requires c.Valid()
    ensures r.Valid()
    ensures key == "" || name == "" ==> r == c
    ensures key != "" && name != "" ==>
      && r.clients.values == c.clients.values[key := name]
      && r.current_client_profile == key
      && r == c.(clients := r.clients, current_client_profile := key)
  {
    if key == "" || name == "" then c
    else c.(clients := c.clients.Set(key, name), current_client_profile := key)
  }

  /** The configuration after `handleRemoveClient(keyToRemove)`. */
  function RemoveClient(c: Config, keyToRemove: string): (r: Config)
    requires c.Valid()
    ensures r.Valid()
  {
    if c.clients.Size() <= 1 then c
    else
      var remaining := c.clients.Delete(keyToRemove);
      WithoutLength(c.clients.keys, keyToRemove);
      var current := if c.current_client_profile == keyToRemove then remaining.keys[0] else c.current_client_profile;
      c.(clients := remaining, current_client_profile := current)
  }

  /** Adding a client with a key and a name makes it the current one, and every other client keeps its name. */
  lemma AddClientEffect(c: Config, key: string, name: string, k: string)
    requires c.Valid() && key != "" && name != ""
    ensures var r := AddClient(c, key, name);
      && key in r.clients.values && r.clients.values[key] == name
      && r.current_client_profile in r.clients.values
      && (k != key ==> (k in r.clients.values <==> k in c.clients.values))
      && (k != key && k in c.clients.values ==> r.clients.values[k] == c.clients.values[k])
      && (key in c.clients.values ==> r.clients.keys == c.clients.keys)
      && (key !in c.clients.values ==> r.clients.keys == c.clients.keys + [key])
  {
  }

  /** With at most one client, removing is refused and nothing changes. */
  lemma RemoveLastClientRefused(c: Config, keyToRemove: string)
    requires c.Valid() && c.clients.Size() <= 1
    ensures RemoveClient(c, keyToRemove) == c
  {
  }

  /** Removing deletes exactly the given key; every other client keeps its name and its place. */
  lemma RemoveClientOnlyThatKey(c: Config, keyToRemove: string)
    requires c.Valid() && c.clients.Size() > 1
    ensures var r := RemoveClient(c, keyToRemove);
      && r.clients.values == c.clients.values - {keyToRemove}
      && r.clients.keys == Without(c.clients.keys, keyToRemove)
      && r.work_mode == c.work_mode && r.reporter_name == c.reporter_name && r.csv_file_path == c.csv_file_path
  {
  }

  /**
   * Removing the current client makes the first remaining client in
   * insertion order current; removing another one leaves the current client.
   */
  lemma RemoveClientCurrent(c: Config, keyToRemove: string)
    requires c.Valid() && c.clients.Size() > 1
    ensures var r := RemoveClient(c, keyToRemove);
      var ks := c.clients.keys;
      && (c.current_client_profile != keyToRemove ==> r.current_client_profile == c.current_client_profile)
      && (c.current_client_profile == keyToRemove ==>
            r.current_client_profile == if ks[0] == keyToRemove then ks[1] else ks[0])
  {
    WithoutHead(c.clients.keys, keyToRemove);
  }

  /** A non-empty client list stays non-empty, and a valid current client stays valid, whatever is removed. */
  lemma RemoveClientKeepsCurrentValid(c: Config, keyToRemove: string)
    requires c.Valid() && c.clients.Size() >= 1 && c.current_client_profile in c.clients.values
    ensures var r := RemoveClient(c, keyToRemove);
      r.clients.Size() >= 1 && r.current_client_profile in r.clients.values
  {
    if c.clients.Size() > 1 {
      WithoutLength(c.clients.keys, keyToRemove);
      var r := RemoveClient(c, keyToRemove);
      if c.current_client_profile == keyToRemove {
        assert r.clients.keys[0] in r.clients.keys;
      }
    }
  }

  /** The settings screen: the provider it edits and the two inputs of the add-client form. */
  class SettingsPanel {
    const provider: ConfigProvider
    var newClientKey: string
    var newClientName: string

    ghost predicate Valid()
      reads this, provider
    {
      provider.Valid() && provider.config.Some?
    }

    constructor(p: ConfigProvider)
      ensures provider == p && newClientKey == "" && newClientName == ""
    {
      provider := p;
      newClientKey := "";
      newClientName := "";
    }

    method SetNewClientKey(value: string)
      modifies this
      ensures newClientKey == value && newClientName == old(newClientName)
    {
      newClientKey := value;
    }

    method SetNewClientName(value: string)
      modifies this
      ensures newClientName == value && newClientKey == old(newClientKey)
    {
      newClientName := value;
    }

    /** `handleAddClient`: ignored while either input is empty; otherwise adds the client and clears both inputs. */
    method HandleAddClient()
      requires Valid()
      modifies this, provider
      ensures Valid()
      ensures old(newClientKey) == "" || old(newClientName) == "" ==>
        && newClientKey == old(newClientKey) && newClientName == old(newClientName)
        && provider.config == old(provider.config)
      ensures old(newClientKey) != "" && old(newClientName) != "" ==>
        && provider.config == Some(AddClient(old(provider.config).value, old(newClientKey), old(newClientName)))
        && newClientKey == "" && newClientName == ""
      ensures provider.isLoaded == old(provider.isLoaded) && provider.storage == old(provider.storage)
    {
      if newClientKey == "" || newClientName == "" {
        return;
      }
      var config := provider.config.value;
      provider.UpdateConfig(AddClient(config, newClientKey, newClientName));
      newClientKey := "";
      newClientName := "";
    }

    /** `handleRemoveClient`: a refused removal does not touch the provider. */
    method HandleRemoveClient(keyToRemove: string)
      requires Valid()
      modifies provider
      ensures Valid()
      ensures provider.config == Some(RemoveClient(old(provider.config).value, keyToRemove))
      ensures provider.isLoaded == old(provider.isLoaded) && provider.storage == old(provider.storage)
    {
      var config := provider.config.value;
      if config.clients.Size() <= 1 {
        return;
      }
      provider.UpdateConfig(RemoveClient(config, keyToRemove));
    }

    /** The reporter-name input replaces that field only. */
    method SetReporterName(value: string)
      requires Valid()
      modifies provider
      ensures Valid()
      ensures provider.config == Some(old(provider.config).value.(reporter_name := value))
      ensures provider.isLoaded == old(provider.isLoaded) && provider.storage == old(provider.storage)
    {
      var config := provider.config.value;
      provider.UpdateConfig(config.(reporter_name := value));
    }

    /** The work-mode radio group replaces that field only. */
    method SetWorkMode(value: string)
      requires Valid()
      modifies provider
      ensures Valid()
      ensures provider.config == Some(old(provider.config).value.(work_mode := value))
      ensures provider.isLoaded == old(provider.isLoaded) && provider.storage == old(provider.storage)
    {
      var config := provider.config.value;
      provider.UpdateConfig(config.(work_mode := value));
    }

    /** The current-client select replaces that field only. */
    method SelectClient(value: string)
      requires Valid()
      modifies provider
      ensures Valid()
      ensures provider.config == Some(old(provider.config).value.(current_client_profile := value))
      ensures provider.isLoaded == old(provider.isLoaded) && provider.storage == old(provider.storage)
    {
      var config := provider.config.value;
      provider.UpdateConfig(config.(current_client_profile := value));
    }
  }
}
