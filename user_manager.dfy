/**
 * `UserManager`: the user directory kept in step across the two documents
 * of a `ConfigManager` (`clients` in the server document, `users` in the
 * metadata), and the client artifacts handed out for a user.
 */
module Users {
  import opened Maybe
  import opened Dict
  import opened Documents
  import opened Config
  import opened Artifacts

  /** The client ids, as a set. */
  function IdSet(cs: seq<Client>): set<string> {
    set i | 0 <= i < |cs| :: cs[i].id
  }

  predicate DistinctIds(cs: seq<Client>) {
    forall i, j :: 0 <= i < j < |cs| ==> cs[i].id != cs[j].id
  }

  /**
   * The two documents agree on who the users are: no client id occurs twice,
   * and the client ids are exactly the keys of `users`.
   */
  predicate Integrity(clients: seq<Client>, users: Option<UserDict>) {
    DistinctIds(clients) && IdSet(clients) == KeySet(users.GetOr([]))
  }

  /** No two users share a name, so a name picks out at most one user. */
  predicate DistinctNames(users: Option<UserDict>) {
    var d := users.GetOr([]);
    forall p, q :: p in d && q in d && p.val.name == q.val.name ==> p.key == q.key
  }

  /** Position of the first client with `id`, or `|cs|` when there is none. */
  function FirstIndexOf(cs: seq<Client>, id: string): (k: nat)
    ensures k <= |cs|
    ensures k < |cs| ==> cs[k].id == id
    ensures forall j :: 0 <= j < k ==> cs[j].id != id
    ensures k == |cs| <==> id !in IdSet(cs)
  {
    if cs == [] then 0
    else if cs[0].id == id then 0
    else
      var k := 1 + FirstIndexOf(cs[1..], id);
      assert id in IdSet(cs) ==> id in IdSet(cs[1..]) by {
        if id in IdSet(cs) {
          var j :| 0 <= j < |cs| && cs[j].id == id;
          assert cs[1..][j - 1].id == id;
        }
      }
      k
  }

  /** `clients` after the `enumerate` loop of `remove_user`: the first client with `id` popped, if any. */
  function WithoutFirst(cs: seq<Client>, id: string): (r: seq<Client>)
    ensures id !in IdSet(cs) ==> r == cs
    ensures id in IdSet(cs) ==> |r| == |cs| - 1
    ensures forall c :: c in r ==> c in cs
    ensures DistinctIds(cs) ==> DistinctIds(r) && IdSet(r) == IdSet(cs) - {id}
  {
    var k := FirstIndexOf(cs, id);
    if k == |cs| then cs
    else
      var r := cs[..k] + cs[k + 1..];
      assert forall j :: 0 <= j < k ==> r[j] == cs[j];
      assert forall j :: k <= j < |r| ==> r[j] == cs[j + 1];
      assert DistinctIds(cs) ==> IdSet(r) == IdSet(cs) - {id} by {
        forall x | x in IdSet(cs) - {id} ensures x in IdSet(r) {
          var j :| 0 <= j < |cs| && cs[j].id == x;
          if j < k { assert r[j].id == x; } else { assert r[j - 1].id == x; }
        }
      }
      r
  }

  /** The loop of `remove_user` stopping at the first client with `id`. */
  lemma WithoutFirstAt(cs: seq<Client>, id: string, i: int)
    requires 0 <= i < |cs| && cs[i].id == id
    requires forall j :: 0 <= j < i ==> cs[j].id != id
    ensures WithoutFirst(cs, id) == cs[..i] + cs[i + 1..]
  {
    var k := FirstIndexOf(cs, id);
  }

  /** The loop of `remove_user` running to the end: nothing is popped. */
  lemma WithoutFirstNone(cs: seq<Client>, id: string)
    ensures (forall j :: 0 <= j < |cs| ==> cs[j].id != id) ==> WithoutFirst(cs, id) == cs
  {
  }

  /** Appending a client with a fresh id and storing a user under that id keeps the documents in step. */
  lemma AddPreservesIntegrity(clients: seq<Client>, users: Option<UserDict>, id: string, rec: UserRecord)
    requires Integrity(clients, users) && id !in IdSet(clients)
    ensures Integrity(clients + [Client(id, Flow)], Some(Put(users.GetOr([]), id, rec)))
  {
    var cs := clients + [Client(id, Flow)];
    assert IdSet(cs) == IdSet(clients) + {id} by {
      forall x | x in IdSet(clients) ensures x in IdSet(cs) {
        var j :| 0 <= j < |clients| && clients[j].id == x;
        assert cs[j].id == x;
      }
      assert cs[|clients|].id == id;
    }
  }

  /** Popping the first client with `id` and deleting `users[id]` keeps the documents in step. */
  lemma RemovePreservesIntegrity(clients: seq<Client>, users: Option<UserDict>, id: string)
    requires Integrity(clients, users)
    ensures Integrity(WithoutFirst(clients, id), Some(Delete(users.GetOr([]), id)))
  {
  }

  /** After storing a name nobody had, the name lookup finds exactly the new entry. */
  lemma FindNewName(d: UserDict, id: string, rec: UserRecord)
    requires forall i :: 0 <= i < |d| ==> d[i].val.name != rec.name
    ensures FindByName(Put(d, id, rec), rec.name) == Some(Pair(id, rec))
  {
    PutEntries(d, id, rec);
    var r := Put(d, id, rec);
    assert Pair(id, rec) in r;
    NameOfEntry(d, rec.name);
  }

  /** Storing a name nobody had keeps names distinct. */
  lemma PutNewName(d: UserDict, id: string, rec: UserRecord)
    requires forall i :: 0 <= i < |d| ==> d[i].val.name != rec.name
    requires DistinctNames(Some(d))
    ensures DistinctNames(Some(Put(d, id, rec)))
  {
    PutEntries(d, id, rec);
    NameOfEntry(d, rec.name);
  }

  /** The index form of "nobody has `name`" in membership form. */
  lemma NameOfEntry(d: UserDict, name: string)
    requires forall i :: 0 <= i < |d| ==> d[i].val.name != name
    ensures forall p :: p in d ==> p.val.name != name
  {
  }

  /** With distinct names, deleting the user who has `name` leaves nobody with it. */
  lemma DeleteName(d: UserDict, id: string, rec: UserRecord)
    requires DistinctNames(Some(d)) && Pair(id, rec) in d
    ensures FindByName(Delete(d, id), rec.name).None?
  {
    DeleteEntries(d, id);
  }

  /** Deleting a user keeps names distinct. */
  lemma DeleteKeepsNamesDistinct(d: UserDict, id: string)
    requires DistinctNames(Some(d))
    ensures DistinctNames(Some(Delete(d, id)))
  {
    DeleteEntries(d, id);
  }

  /** What `remove_user` does to the two documents, given the user it found. */
  lemma RemoveEffects(clients: seq<Client>, users: Option<UserDict>, id: string, rec: UserRecord)
    requires users.Some? && Pair(id, rec) in users.value
    ensures Integrity(clients, users) ==> Integrity(WithoutFirst(clients, id), Some(Delete(users.value, id)))
    ensures DistinctNames(users) ==>
      DistinctNames(Some(Delete(users.value, id))) && FindByName(Delete(users.value, id), rec.name).None?
  {
    if Integrity(clients, users) {
      RemovePreservesIntegrity(clients, users, id);
    }
    if DistinctNames(users) {
      DeleteName(users.value, id, rec);
      DeleteKeepsNamesDistinct(users.value, id);
    }
  }

  /** One entry of `list_users`. */
  datatype UserSummary = UserSummary(id: string, name: string)

  class UserManager {
    const cm: ConfigManager

    constructor (cm: ConfigManager)
      ensures this.cm == cm
    {
      this.cm := cm;
    }

    /**
     * `add_user`, with the generated id passed in as `newId`. A name already
     * present returns its stored id and changes nothing; otherwise one client
     * `{id, flow}` is appended and the same record stored under `users[newId]`.
     */
    method AddUser(name: string, newId: string) returns (id: string)
      modifies cm
      ensures old(cm.FindClient(name)).Some? ==>
        id == old(cm.FindClient(name)).value.key && cm.clients == old(cm.clients) && cm.users == old(cm.users)
      ensures old(cm.FindClient(name)).None? ==>
        && id == newId
        && cm.clients == old(cm.clients) + [Client(newId, Flow)]
        && cm.users == Some(Put(old(cm.UserDirectory()), newId, UserRecord(name, Client(newId, Flow), None)))
      ensures cm.FindClient(name).Some? && cm.FindClient(name).value.key == id
      ensures old(Integrity(cm.clients, cm.users)) && newId !in old(IdSet(cm.clients)) ==> Integrity(cm.clients, cm.users)
      ensures old(DistinctNames(cm.users)) ==> DistinctNames(cm.users)
      ensures cm.port == old(cm.port) && cm.dest == old(cm.dest) && cm.serverNames == old(cm.serverNames)
      ensures cm.privateKey == old(cm.privateKey) && cm.shortIds == old(cm.shortIds) && cm.server == old(cm.server)
    {
      var existing := cm.GetClientByName(name);
      if existing.Some? {
        return existing.value.key;
      }
      id := newId;
      var data := Client(id, Flow);
      var d := cm.UserDirectory();
      var rec := UserRecord(name, data, None);
      ghost var oldClients, oldUsers := cm.clients, cm.users;
      cm.clients := cm.clients + [data];
      cm.UpdateClient(id, name, data);
      assert forall i :: 0 <= i < |d| ==> d[i].val.name != name;
      FindNewName(d, id, rec);
      if DistinctNames(oldUsers) {
        PutNewName(d, id, rec);
      }
      if Integrity(oldClients, oldUsers) && newId !in IdSet(oldClients) {
        AddPreservesIntegrity(oldClients, oldUsers, id, rec);
      }
    }

    /**
     * `remove_user`: an unknown name returns false and changes nothing.
     * Otherwise the first client with the user's id is popped (there may be
     * none), `users[id]` is deleted, and the result is true.
     */
    method RemoveUser(name: string) returns (removed: bool)
      modifies cm
      ensures removed == old(cm.FindClient(name)).Some?
      ensures !removed ==> cm.clients == old(cm.clients) && cm.users == old(cm.users)
      ensures removed ==>
        var id := old(cm.FindClient(name)).value.key;
        cm.clients == WithoutFirst(old(cm.clients), id) && cm.users == Some(Delete(old(cm.UserDirectory()), id))
      ensures old(Integrity(cm.clients, cm.users)) ==> Integrity(cm.clients, cm.users)
      ensures old(DistinctNames(cm.users)) ==> DistinctNames(cm.users) && cm.FindClient(name).None?
      ensures cm.port == old(cm.port) && cm.dest == old(cm.dest) && cm.serverNames == old(cm.serverNames)
      ensures cm.privateKey == old(cm.privateKey) && cm.shortIds == old(cm.shortIds) && cm.server == old(cm.server)
    {
      var user := cm.GetClientByName(name);
      if user.None? {
        return false;
      }
      var id := user.value.key;
      ghost var oldClients, oldUsers := cm.clients, cm.users;
      assert user.value in cm.UserDirectory();
      PopClient(id);
      if cm.users.Some? {
        if id in KeySet(cm.users.value) {
          cm.users := Some(Delete(cm.users.value, id));
        }
      }
      removed := true;
      RemoveEffects(oldClients, oldUsers, id, user.value.val);
    }

    /** The `enumerate` loop of `remove_user`: pop the first client whose id is `id`, if there is one. */
    method PopClient(id: string)
      modifies cm
      ensures cm.clients == WithoutFirst(old(cm.clients), id)
      ensures cm.users == old(cm.users)
      ensures cm.port == old(cm.port) && cm.dest == old(cm.dest) && cm.serverNames == old(cm.serverNames)
      ensures cm.privateKey == old(cm.privateKey) && cm.shortIds == old(cm.shortIds) && cm.server == old(cm.server)
    {
      var cs := cm.clients;
      var i := 0;
      while i < |cs|
        invariant 0 <= i <= |cs|
        invariant forall j :: 0 <= j < i ==> cs[j].id != id
        invariant cm.clients == cs
      {
        if cs[i].id == id {
          WithoutFirstAt(cs, id, i);
          cm.clients := cs[..i] + cs[i + 1..];
          break;
        }
        i := i + 1;
      }
      WithoutFirstNone(cs, id);
      assert cm.clients == WithoutFirst(cs, id);
    }

    /** `list_users`: one `{id, name}` per user, in the directory's order; `[]` without a `users` map. */
    method ListUsers() returns (r: seq<UserSummary>)
      ensures |r| == |cm.UserDirectory()|
      ensures forall i :: 0 <= i < |r| ==>
        r[i] == UserSummary(cm.UserDirectory()[i].key, cm.UserDirectory()[i].val.name)
      ensures forall i, j :: 0 <= i < j < |r| ==> r[i].id != r[j].id
    {
      r := [];
      if cm.users.Some? {
        var d := cm.users.value;
        var i := 0;
        while i < |d|
          invariant 0 <= i <= |d|
          invariant |r| == i
          invariant forall j :: 0 <= j < i ==> r[j] == UserSummary(d[j].key, d[j].val.name)
        {
          r := r + [UserSummary(d[i].key, d[i].val.name)];
          i := i + 1;
        }
      }
    }

    /**
     * `generate_client_config`: `None` for an unknown name; otherwise the
     * document built from the user's id and `get_server_info()`, whose
     * aliasing write into the cache is the only change of state.
     */
    method GenerateClientConfig(name: string) returns (r: Outcome<ClientConfig>)
      modifies cm
      ensures old(cm.FindClient(name)).None? ==> r.Absent?
      ensures old(cm.FindClient(name)).Some? ==>
        r == BuildClientConfig(old(cm.FindClient(name)).value.key, old(cm.ServerInfo()))
      ensures old(cm.NoCachedShortId()) ==> !r.Built?
      ensures cm.server == if old(cm.FindClient(name)).Some? && old(cm.server).Some?
                           then Some(old(cm.ServerInfo())) else old(cm.server)
      ensures cm.port == old(cm.port) && cm.dest == old(cm.dest) && cm.serverNames == old(cm.serverNames)
      ensures cm.privateKey == old(cm.privateKey) && cm.shortIds == old(cm.shortIds)
      ensures cm.clients == old(cm.clients) && cm.users == old(cm.users)
    {
      var user := cm.GetClientByName(name);
      if user.None? {
        return Absent;
      }
      var info := cm.GetServerInfo();
      r := BuildClientConfig(user.value.key, info);
    }

    /**
     * `generate_vless_link`: `None` for an unknown name; otherwise the link
     * built from `get_server_info()`. An empty `serverAddress` is replaced by
     * `resolved`, what `get_external_ip` returned (possibly empty itself).
     */
    method GenerateVlessLink(name: string, serverAddress: string, resolved: string) returns (r: Outcome<string>)
      modifies cm
      ensures old(cm.FindClient(name)).None? ==> r.Absent?
      ensures old(cm.FindClient(name)).Some? && serverAddress != "" ==>
        r == BuildVlessLink(old(cm.FindClient(name)).value.key, name, serverAddress, old(cm.ServerInfo()))
      ensures old(cm.FindClient(name)).Some? && serverAddress == "" ==>
        r == BuildVlessLink(old(cm.FindClient(name)).value.key, name, resolved, old(cm.ServerInfo()))
      ensures old(cm.NoCachedShortId()) ==> !r.Built?
      ensures cm.server == if old(cm.FindClient(name)).Some? && old(cm.server).Some?
                           then Some(old(cm.ServerInfo())) else old(cm.server)
      ensures cm.port == old(cm.port) && cm.dest == old(cm.dest) && cm.serverNames == old(cm.serverNames)
      ensures cm.privateKey == old(cm.privateKey) && cm.shortIds == old(cm.shortIds)
      ensures cm.clients == old(cm.clients) && cm.users == old(cm.users)
    {
      var user := cm.GetClientByName(name);
      if user.None? {
        return Absent;
      }
      var info := cm.GetServerInfo();
      var address := serverAddress;
      if address == "" {
        address := resolved;
      }
      r := BuildVlessLink(user.value.key, name, address, info);
    }

    /**
     * The decision part of `generate_vless_qr`: `Built(false)` when there is
     * no link, the `KeyError` of the link otherwise raised, and `Built(true)`
     * with the link as the QR code's payload.
     */
    method GenerateVlessQr(name: string, serverAddress: string, resolved: string)
      returns (r: Outcome<bool>, payload: string)
      modifies cm
      ensures old(cm.FindClient(name)).None? ==> r == Built(false)
      ensures old(cm.FindClient(name)).Some? ==>
        var link := BuildVlessLink(old(cm.FindClient(name)).value.key, name,
                                   if serverAddress == "" then resolved else serverAddress, old(cm.ServerInfo()));
        && (link.Absent? ==> r == Built(false))
        && (link.KeyError? ==> r == KeyError(link.key))
        && (link.Built? ==> r == Built(true) && payload == link.value && |payload| > 0)
      ensures old(cm.NoCachedShortId()) ==> r != Built(true)
      ensures cm.server == if old(cm.FindClient(name)).Some? && old(cm.server).Some?
                           then Some(old(cm.ServerInfo())) else old(cm.server)
      ensures cm.port == old(cm.port) && cm.dest == old(cm.dest) && cm.serverNames == old(cm.serverNames)
      ensures cm.privateKey == old(cm.privateKey) && cm.shortIds == old(cm.shortIds)
      ensures cm.clients == old(cm.clients) && cm.users == old(cm.users)
    {
      payload := "";
      var link := GenerateVlessLink(name, serverAddress, resolved);
      match link
      case Absent => r := Built(false);
      case KeyError(k) => r := KeyError(k);
      case Built(s) =>
        r, payload := Built(true), s;
    }

    /**
     * The decision part of `generate_qr_code`: `Built(false)` when there is
     * no client configuration, the `KeyError` otherwise raised, and
     * `Built(true)` with the document whose JSON text the QR code carries.
     */
    method GenerateQrCode(name: string) returns (r: Outcome<bool>, payload: Option<ClientConfig>)
      modifies cm
      ensures old(cm.FindClient(name)).None? ==> r == Built(false) && payload.None?
      ensures old(cm.FindClient(name)).Some? ==>
        var c := BuildClientConfig(old(cm.FindClient(name)).value.key, old(cm.ServerInfo()));
        && (c.Absent? ==> r == Built(false) && payload.None?)
        && (c.KeyError? ==> r == KeyError(c.key) && payload.None?)
        && (c.Built? ==> r == Built(true) && payload == Some(c.value))
      ensures old(cm.NoCachedShortId()) ==> r != Built(true)
      ensures cm.server == if old(cm.FindClient(name)).Some? && old(cm.server).Some?
                           then Some(old(cm.ServerInfo())) else old(cm.server)
      ensures cm.port == old(cm.port) && cm.dest == old(cm.dest) && cm.serverNames == old(cm.serverNames)
      ensures cm.privateKey == old(cm.privateKey) && cm.shortIds == old(cm.shortIds)
      ensures cm.clients == old(cm.clients) && cm.users == old(cm.users)
    {
      payload := None;
      var c := GenerateClientConfig(name);
      match c
      case Absent => r := Built(false);
      case KeyError(k) => r := KeyError(k);
      case Built(doc) =>
        r, payload := Built(true), Some(doc);
    }
  }

  /** Adding the same name twice: one client, one id. */
  method AddTwice() returns (first: string, second: string, clients: seq<Client>)
    ensures first == "id-1" && second == "id-1"
    ensures clients == [Client("id-1", Flow)]
  {
    var cm := new ConfigManager();
    var um := new UserManager(cm);
    first := um.AddUser("alice", "id-1");
    second := um.AddUser("alice", "id-2");
    clients := cm.clients;
  }

  /** Removing a user twice: the second call finds nobody. */
  method RemoveTwice() returns (first: bool, second: bool, clients: seq<Client>)
    ensures first && !second
    ensures clients == []
  {
    var cm := new ConfigManager();
    var um := new UserManager(cm);
    var id := um.AddUser("alice", "id-1");
    first := um.RemoveUser("alice");
    second := um.RemoveUser("alice");
    clients := cm.clients;
  }

  /** A server set up by `create_config`, with one user added. */
  method FreshServer() returns (um: UserManager)
    ensures fresh(um) && fresh(um.cm)
    ensures um.cm.FindClient("bob").Some? && um.cm.FindClient("carol").None?
    ensures um.cm.HasRealitySettings() && um.cm.NoCachedShortId()
    ensures um.cm.server == Some(ServerCache(Some("pub"), Some("www.example.com"), Some("www.example.com:443"),
                                             Some(443), None, None))
  {
    var cm := new ConfigManager();
    var ok := cm.CreateConfig("www.example.com:443", ["www.example.com"], "priv", "pub");
    um := new UserManager(cm);
    var id := um.AddUser("bob", "id-1");
  }

  /**
   * On that server the client configuration needs `server_info["shortId"]`,
   * which no operation writes: `KeyError('shortId')`.
   */
  method FreshServerConfig() returns (config: Outcome<ClientConfig>)
    ensures config == KeyError("shortId")
  {
    var um := FreshServer();
    config := um.GenerateClientConfig("bob");
  }

  /** The same for the link. */
  method FreshServerLink() returns (link: Outcome<string>)
    ensures link == KeyError("shortId")
  {
    var um := FreshServer();
    link := um.GenerateVlessLink("bob", "203.0.113.7", "");
  }

  /** A name nobody has gets `None`. */
  method FreshServerUnknown() returns (link: Outcome<string>)
    ensures link == Absent
  {
    var um := FreshServer();
    link := um.GenerateVlessLink("carol", "203.0.113.7", "");
  }
}
