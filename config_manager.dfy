/**
 * `ConfigManager`: the Xray server document and its metadata side document,
 * held in memory and changed in place by narrow setters.
 */
module Config {
  import opened Maybe
  import opened Dict
  import opened Documents
  import PosixPath

  const MetadataSuffix: string := "_metadata.json"

  /** `_get_metadata_path`: the configuration path without its extension, then `_metadata.json`. */
  function MetadataPath(configPath: string): (r: string)
    ensures |r| >= |MetadataSuffix| && r[|r| - |MetadataSuffix|..] == MetadataSuffix
  {
    PosixPath.SplitExt(configPath).0 + MetadataSuffix
  }

  /**
   * The metadata file name ends in `_metadata.json`, starts with the
   * configuration path less at most its extension, and is never the
   * configuration file itself, so saving one document cannot overwrite the other.
   */
  lemma MetadataPathPaired(p: string)
    ensures var m := MetadataPath(p);
      |m| >= |MetadataSuffix| && m[|m| - |MetadataSuffix|..] == MetadataSuffix
    ensures var root := MetadataPath(p)[..|MetadataPath(p)| - |MetadataSuffix|];
      root <= p && (root == p || p[|root|] == '.')
    ensures MetadataPath(p) != p
  {
    var (root, ext) := PosixPath.SplitExt(p);
    var m := MetadataPath(p);
    assert m[..|m| - |MetadataSuffix|] == root;
    assert root + ext == p;
  }

  /** A path with an extension: `config.json` is paired with `config_metadata.json`. */
  lemma MetadataPathOfJsonFile()
    ensures MetadataPath("config.json") == "config_metadata.json"
  {
    PosixPath.RFindNone("config.json", '/');
    PosixPath.RFindAt("config.json", '.', 6);
    assert "config.json"[0] != '.';
    assert "config.json"[..6] == "config";
  }

  /** A path without an extension keeps its whole name. */
  lemma MetadataPathWithoutExtension()
    ensures MetadataPath("/etc/xray/config") == "/etc/xray/config_metadata.json"
  {
    PosixPath.RFindAt("/etc/xray/config", '/', 9);
    PosixPath.RFindNone("/etc/xray/config", '.');
  }

  /** A leading dot does not start an extension, and a dot in a directory name is not one either. */
  lemma MetadataPathOfDotFile()
    ensures MetadataPath("a.b/.json") == "a.b/.json_metadata.json"
  {
    PosixPath.RFindAt("a.b/.json", '/', 3);
    PosixPath.RFindAt("a.b/.json", '.', 4);
  }

  predicate Distinct(s: seq<string>) {
    forall i, j :: 0 <= i < j < |s| ==> s[i] != s[j]
  }

  /** `if x not in s: s.append(x)`. */
  function AddOnce(s: seq<string>, x: string): (r: seq<string>)
    ensures x in r
    ensures forall y :: y in r <==> y in s || y == x
    ensures |s| <= |r| <= |s| + 1 && r[..|s|] == s
    ensures Distinct(s) ==> Distinct(r)
    ensures x in s ==> r == s
  {
    if x in s then s else s + [x]
  }

  /** A second `add_client_short_id` with the same id changes nothing. */
  lemma AddOnceIdempotent(s: seq<string>, x: string)
    ensures AddOnce(AddOnce(s, x), x) == AddOnce(s, x)
  {
  }

  /** The first user, in insertion order, whose record carries `name`. */
  function FindByName(us: seq<Pair<string, UserRecord>>, name: string): (r: Option<Pair<string, UserRecord>>)
    ensures r.None? <==> forall i :: 0 <= i < |us| ==> us[i].val.name != name
    ensures r.Some? ==> exists i :: 0 <= i < |us| && us[i] == r.value && us[i].val.name == name
                                    && forall j :: 0 <= j < i ==> us[j].val.name != name
  {
    if us == [] then None
    else if us[0].val.name == name then Some(us[0])
    else
      var r := FindByName(us[1..], name);
      assert forall i :: 1 <= i < |us| ==> us[i] == us[1..][i - 1];
      if r.Some? then
        var i :| 0 <= i < |us[1..]| && us[1..][i] == r.value && us[1..][i].val.name == name
                 && forall j :: 0 <= j < i ==> us[1..][j].val.name != name;
        assert us[i + 1] == r.value;
        r
      else r
  }

  class ConfigManager {
    /** `inbounds[0]["port"]`. */
    var port: Option<int>
    /** `inbounds[0].streamSettings.realitySettings`: `dest`, `serverNames`, `privateKey`, `shortIds`. */
    var dest: Option<string>
    var serverNames: Option<seq<string>>
    var privateKey: Option<string>
    var shortIds: IdList?
    /** `inbounds[0].settings.clients`. */
    var clients: seq<Client>
    /** `user_metadata["server"]` and `user_metadata["users"]`. */
    var server: Option<ServerCache>
    var users: Option<UserDict>

    /** The skeleton document: no port, empty `realitySettings`, no clients, empty metadata. */
    constructor ()
      ensures port.None? && dest.None? && serverNames.None? && privateKey.None? && shortIds == null
      ensures clients == [] && server.None? && users.None?
      ensures !HasRealitySettings()
    {
      port, dest, serverNames, privateKey, shortIds := None, None, None, None, null;
      clients, server, users := [], None, None;
    }

    /** `user_metadata.get("server", {})`. */
    function Cache(): ServerCache
      reads this
    {
      server.GetOr(EmptyCache)
    }

    /** `user_metadata.get("users", {})`. */
    function UserDirectory(): UserDict
      reads this
    {
      users.GetOr([])
    }

    /** `has_reality_settings`: `privateKey`, `dest` and `serverNames` are all present and non-empty. */
    predicate HasRealitySettings()
      reads this
    {
      Truthy(privateKey) && Truthy(dest) && serverNames.Some? && serverNames.value != []
    }

    /** No `shortId` key in the server cache: true of every state the operations reach from the skeleton. */
    predicate NoCachedShortId()
      reads this
    {
      Cache().shortId.None?
    }

    /** The dictionary `get_server_info` returns, computed on the current state. */
    function ServerInfo(): ServerCache
      reads this
    {
      if HasRealitySettings() && shortIds != null then Cache().(shortIds := Some(shortIds)) else Cache()
    }

    /** `get_client_by_name` as a value: the first match, or `None` also when there is no `users` map. */
    function FindClient(name: string): Option<Pair<string, UserRecord>>
      reads this
    {
      if users.None? then None else FindByName(users.value, name)
    }

    /**
     * `create_config`, with the generated key pair as arguments. `names[0]`
     * is read last, so with an empty `serverNames` the server document is
     * already rewritten and only the cache is left as it was (`ok` is false:
     * `IndexError`).
     */
    method CreateConfig(dest: string, serverNames: seq<string>, privateKey: string, publicKey: string,
                        port: int := 443) returns (ok: bool)
      modifies this
      ensures ok == (serverNames != [])
      ensures this.port == Some(port) && this.dest == Some(dest)
      ensures this.serverNames == Some(serverNames) && this.privateKey == Some(privateKey)
      ensures fresh(shortIds) && shortIds.items == []
      ensures server == if ok then Some(ServerCache(Some(publicKey), Some(serverNames[0]), Some(dest), Some(port), None, None))
                        else old(server)
      ensures clients == old(clients) && users == old(users)
      ensures HasRealitySettings() <==> privateKey != "" && dest != "" && ok
      ensures old(NoCachedShortId()) ==> NoCachedShortId()
    {
      this.port := Some(port);
      this.dest := Some(dest);
      this.serverNames := Some(serverNames);
      this.privateKey := Some(privateKey);
      shortIds := new IdList([]);
      if serverNames == [] {
        return false;
      }
      server := Some(ServerCache(Some(publicKey), Some(serverNames[0]), Some(dest), Some(port), None, None));
      ok := true;
    }

    /** `update_dest`: the new destination in both documents. */
    method UpdateDest(dest: string)
      modifies this
      ensures this.dest == Some(dest)
      ensures server == Some(old(Cache()).(dest := Some(dest)))
      ensures port == old(port) && serverNames == old(serverNames) && privateKey == old(privateKey)
      ensures shortIds == old(shortIds) && clients == old(clients) && users == old(users)
      ensures old(NoCachedShortId()) ==> NoCachedShortId()
    {
      this.dest := Some(dest);
      server := Some(Cache().(dest := Some(dest)));
    }

    /**
     * `update_server_names`: the list in the server document and its first
     * element as the cached `serverName`. With an empty list the server
     * document is updated and a missing cache created, then `names[0]`
     * raises `IndexError` (`ok` is false).
     */
    method UpdateServerNames(serverNames: seq<string>) returns (ok: bool)
      modifies this
      ensures ok == (serverNames != [])
      ensures this.serverNames == Some(serverNames)
      ensures server == Some(if ok then old(Cache()).(serverName := Some(serverNames[0])) else old(Cache()))
      ensures port == old(port) && dest == old(dest) && privateKey == old(privateKey)
      ensures shortIds == old(shortIds) && clients == old(clients) && users == old(users)
      ensures old(NoCachedShortId()) ==> NoCachedShortId()
    {
      this.serverNames := Some(serverNames);
      server := Some(Cache());
      if serverNames == [] {
        return false;
      }
      server := Some(Cache().(serverName := Some(serverNames[0])));
      ok := true;
    }

    /** `update_port`: the inbound port and the cached port. */
    method UpdatePort(port: int)
      modifies this
      ensures this.port == Some(port)
      ensures server == Some(old(Cache()).(port := Some(port)))
      ensures dest == old(dest) && serverNames == old(serverNames) && privateKey == old(privateKey)
      ensures shortIds == old(shortIds) && clients == old(clients) && users == old(users)
      ensures old(NoCachedShortId()) ==> NoCachedShortId()
    {
      this.port := Some(port);
      server := Some(Cache().(port := Some(port)));
    }

    /** `update_keys`: the private key in the server document, the public key in the cache; `shortId` is ignored. */
    method UpdateKeys(privateKey: string, publicKey: string, shortId: Option<string> := None)
      modifies this
      ensures this.privateKey == Some(privateKey)
      ensures server == Some(old(Cache()).(publicKey := Some(publicKey)))
      ensures port == old(port) && dest == old(dest) && serverNames == old(serverNames)
      ensures shortIds == old(shortIds) && (shortIds != null ==> shortIds.items == old(shortIds.items))
      ensures clients == old(clients) && users == old(users)
      ensures old(NoCachedShortId()) ==> NoCachedShortId()
    {
      this.privateKey := Some(privateKey);
      server := Some(Cache().(publicKey := Some(publicKey)));
    }

    /**
     * `add_client_short_id`: creates `shortIds` when missing and appends the
     * id unless it is already listed. The list is changed in place, so a
     * server cache holding the same list sees the change.
     */
    method AddClientShortId(shortId: string)
      modifies this, shortIds
      ensures old(shortIds) != null ==> shortIds == old(shortIds)
      ensures old(shortIds) == null ==> fresh(shortIds)
      ensures shortIds != null
      ensures shortIds.items == AddOnce(if old(shortIds) == null then [] else old(shortIds.items), shortId)
      ensures old(shortIds) != null && old(Cache()).shortIds == Some(old(shortIds)) ==> Cache().shortIds == Some(shortIds)
      ensures port == old(port) && dest == old(dest) && serverNames == old(serverNames) && privateKey == old(privateKey)
      ensures server == old(server) && clients == old(clients) && users == old(users)
    {
      if shortIds == null {
        shortIds := new IdList([]);
      }
      if shortId !in shortIds.items {
        shortIds.items := shortIds.items + [shortId];
      }
    }

    /**
     * `get_server_info`: the live cache (or a detached `{}`), into which the
     * `shortIds` list of the server document is stored, by reference, when
     * the settings are configured and the list exists.
     */
    method GetServerInfo() returns (info: ServerCache)
      modifies this
      ensures info == old(ServerInfo())
      ensures server == if old(server).Some? then Some(info) else None
      ensures HasRealitySettings() && shortIds != null ==> info.shortIds == Some(shortIds)
      ensures !HasRealitySettings() || shortIds == null ==> info == old(Cache())
      ensures port == old(port) && dest == old(dest) && serverNames == old(serverNames) && privateKey == old(privateKey)
      ensures shortIds == old(shortIds) && clients == old(clients) && users == old(users)
      ensures old(NoCachedShortId()) ==> NoCachedShortId()
    {
      info := Cache();
      if HasRealitySettings() && shortIds != null {
        info := info.(shortIds := Some(shortIds));
        if server.Some? {
          server := Some(info);
        }
      }
    }

    /**
     * `update_client`: creates `users` when missing and overwrites
     * `users[userId]` with `{name, data}`, adding `shortId` only when it is truthy.
     */
    method UpdateClient(userId: string, name: string, data: Client, shortId: Option<string> := None)
      modifies this
      ensures users == Some(Put(old(UserDirectory()), userId,
                                UserRecord(name, data, if Truthy(shortId) then shortId else None)))
      ensures port == old(port) && dest == old(dest) && serverNames == old(serverNames) && privateKey == old(privateKey)
      ensures shortIds == old(shortIds) && clients == old(clients) && server == old(server)
    {
      var record := UserRecord(name, data, None);
      if Truthy(shortId) {
        record := record.(shortId := shortId);
      }
      users := Some(Put(UserDirectory(), userId, record));
    }

    /** `get_client_by_name`: scans `users` in insertion order and returns the first match. */
    method GetClientByName(name: string) returns (r: Option<Pair<string, UserRecord>>)
      ensures r.None? <==> users.None? || forall i :: 0 <= i < |users.value| ==> users.value[i].val.name != name
      ensures r.Some? ==> exists i :: 0 <= i < |users.value| && users.value[i] == r.value && r.value.val.name == name
                                      && forall j :: 0 <= j < i ==> users.value[j].val.name != name
      ensures r == FindClient(name)
    {
      if users.None? {
        return None;
      }
      var us := users.value;
      var i := 0;
      while i < |us|
        invariant 0 <= i <= |us|
        invariant forall j :: 0 <= j < i ==> us[j].val.name != name
      {
        if us[i].val.name == name {
          return Some(us[i]);
        }
        i := i + 1;
      }
      return None;
    }
  }
}
