# vibe-xray-server core, in Dafny

vibe-xray-server sets up an Xray server that uses VLESS over REALITY, and
manages its users. The core modelled here keeps two JSON documents in memory:

- The **server document** is the Xray configuration. Its first inbound holds
  the port, the REALITY settings (`dest`, `serverNames`, `privateKey`,
  `shortIds`) and the `clients` list.
- The **metadata document** holds a `server` cache (`publicKey`, `serverName`,
  `dest`, `port`) for clients, and a `users` directory that maps an id to
  `{name, data, shortId?}`.

`ConfigManager` changes these documents in place. `UserManager` adds,
removes and lists users across both documents. It also builds the two client
artifacts: an Xray client configuration and a `vless://` link.

Layout:

- `config_manager.dfy` (module `Config`): the class `ConfigManager`, with one
  field per document leaf the operations touch.
- `user_manager.dfy` (module `Users`): the class `UserManager` and the
  directory invariants.
- `artifacts.dfy` (module `Artifacts`): the artifact builders, written as
  pure functions of the user id and the server cache.
- `documents.dfy` holds the document entities.
- `dict.dfy`: Python's insertion-ordered dict, as a sequence of pairs with
  distinct keys.
- `percent.dfy` and `utf8.dfy`: `urllib.parse.quote` and its inverse.
- `posixpath.dfy`: `os.path.splitext`.
- `decimal.dfy`: `str(int)`.
- `maybe.dfy`: an option type.

Modelling choices:

- Python exceptions become values. A `KeyError` from a builder is
  `Outcome.KeyError(key)`, raised for the first missing key in the order the
  source reads them. An `IndexError` from `names[0]` is a false `ok` result,
  together with the partial update the source leaves behind.
- `realitySettings["shortIds"]` is a heap object (`IdList`).
  `get_server_info` stores that same list object in the server cache, so a
  later `add_client_short_id` is seen through both documents.
- Generated values are parameters:
  - the key pair of `create_config`;
  - the uuid of `add_user`;
  - the address `get_external_ip` would return (the `resolved` parameter of
    `GenerateVlessLink`).

Where the code and its documentation disagree, the model follows the code:

- `create_config` resets `shortIds` to `[]`.
- `update_keys` ignores its `short_id` argument.
- `spx` is a literal `/`, because `/` is in `quote`'s safe set.
- The client configuration's address is always `""`.
- No operation writes the `shortId` key both builders read, so no artifact is
  ever built. The model states this as the invariant `NoCachedShortId`, which
  every operation preserves, and as the clause "never built" in the builders'
  contracts. Which failure a caller sees depends on the cache:
  - an empty cache (no `create_config` yet) gives `None`;
  - a cache holding only some keys (after `update_dest` alone, say) raises
    `KeyError` for the first missing key in reading order;
  - once `create_config` has succeeded, the cache keeps `port`, `serverName` and
    `publicKey` (no operation removes them), and the failure is
    `KeyError('shortId')` (`ShortIdIsTheMissingKey`, and the scenarios
    `FreshServerConfig` and `FreshServerLink`).

## Model

| member | source | states |
|---|---|---|
| Dict.Put | config_manager.py:269-272 | assigning `d[k] = v`: the key set gains `k`, `k` maps to `v`, every other key keeps its value, an existing key keeps its position and a new key is appended at the end |
| Dict.PutEntries | config_manager.py:269-272 | the entries after `d[k] = v` are `(k, v)` plus every old entry whose key is not `k` |
| Dict.Delete | user_manager.py:61-63 | `del d[k]`: the key set loses `k`, the remaining keys keep their values and their relative order |
| Dict.DeleteEntries | user_manager.py:63 | the entries after `del d[k]` are exactly the old entries whose key is not `k` |
| Dict.Get | user_manager.py:62 | a lookup succeeds exactly when the key is present, and it returns the stored entry |
| Dict.GetIsMembership | user_manager.py:62 | `d[k] == v` holds exactly when the pair `(k, v)` is an entry of `d` |
| Utf8.DecodeEncode | user_manager.py:212 | decoding the UTF-8 encoding of any string gives that string back |
| Utf8.EncodeAscii | user_manager.py:212 | an ASCII string encodes to one byte per character, with the same code |
| Percent.Quote | user_manager.py:212 | `quote(v)`: the UTF-8 bytes of `v`, each written as one character or as a three-character `%XX` escape, so the result is at least as long as the encoding and at most three times it |
| Percent.QuoteRoundTrip | user_manager.py:212 | unquoting `quote(v)` gives `v` back, for every string `v` |
| Percent.UnescapeQuoteBytes | user_manager.py:212 | percent-decoding the quoted bytes gives the bytes back |
| Percent.QuoteUnreserved | user_manager.py:212 | a string of ASCII letters, digits, `_.-~` and `/` is left unchanged |
| Percent.QuoteSafeBytes | user_manager.py:212 | safe bytes are copied one character per byte |
| Percent.QuoteUnsafeByte | user_manager.py:212 | any other byte becomes `%` and two upper-case hex digits whose value is the byte |
| Percent.QuoteBytesAlphabet | user_manager.py:212 | quoted text holds only unreserved characters, `%` and upper-case hex digits |
| Percent.QuoteHasNoDelimiters | user_manager.py:212-215 | quoted text never contains `&`, `=`, `#` or `?`, so it cannot break the link's structure |
| Decimal.IntString | user_manager.py:215 | `str(port)`: a leading `-` exactly for a negative number, digits everywhere else, and no leading zero after the sign |
| Decimal.NatString | user_manager.py:215 | `str(n)` of a natural number is a non-empty string of digits with no leading zero |
| Decimal.ParseIntString | user_manager.py:215 | the decimal text of the port reads back as the same integer |
| PosixPath.RFind | config_manager.py:92 | the last position of a character, or -1 when it is absent |
| PosixPath.SplitExt | config_manager.py:92 | `splitext` gives a root and an extension that concatenate to the path; the extension is empty, or a dot followed by no dots or slashes; it is non-empty exactly when the last path component has a `.` after some character other than `.` |
| Config.MetadataPath | config_manager.py:90-93 | the metadata path always ends in `_metadata.json` |
| Config.MetadataPathPaired | config_manager.py:90-93 | the metadata path ends in `_metadata.json`, starts with the configuration path less at most its extension, and is never the configuration path itself |
| Config.MetadataPathOfJsonFile | config_manager.py:90-93 | `config.json` is paired with `config_metadata.json` |
| Config.MetadataPathWithoutExtension | config_manager.py:90-93 | `/etc/xray/config` is paired with `/etc/xray/config_metadata.json` |
| Config.MetadataPathOfDotFile | config_manager.py:90-93 | a leading dot does not start an extension, and a dot in a directory name is not one either |
| Config.AddOnce | config_manager.py:247-249 | after the append-if-absent the id is listed, nothing else is added, the old list is a prefix, a list that already holds the id is returned unchanged whatever else it holds, and a duplicate-free list stays duplicate-free |
| Config.AddOnceIdempotent | config_manager.py:241-249 | adding the same short id a second time changes nothing |
| Config.FindByName | config_manager.py:283-287 | the first entry, in insertion order, whose name matches; `None` exactly when no entry has the name |
| Config.ConfigManager.constructor | config_manager.py:15-54 | the skeleton document: no port, empty REALITY settings, no clients, empty metadata, and the REALITY settings are not configured (`has_reality_settings` is false, config_manager.py:122-128) |
| Config.ConfigManager.HasRealitySettings | config_manager.py:122-128 | false on the skeleton (the constructor); after `create_config`, true exactly when the private key and `dest` are non-empty and `names` is non-empty (`CreateConfig`); it decides whether `get_server_info` stores `shortIds` into the result (`GetServerInfo`) |
| Config.ConfigManager.CreateConfig | config_manager.py:95-120 | sets port, `dest`, `serverNames` and `privateKey`; resets `shortIds` to a fresh empty list; replaces the server cache with `{publicKey, serverName: names[0], dest, port}`, or fails on an empty `names` and leaves the cache as it was; `has_reality_settings` holds afterwards exactly when the key and `dest` are non-empty and `names` is non-empty |
| Config.ConfigManager.UpdateDest | config_manager.py:130-138 | writes `dest` into the server document and into a cache created when missing; nothing else changes |
| Config.ConfigManager.UpdateServerNames | config_manager.py:140-148 | writes `serverNames` and mirrors `names[0]` as `serverName`; with an empty list the cache is created if missing and the call fails |
| Config.ConfigManager.UpdatePort | config_manager.py:150-158 | writes the inbound port and the cached port; nothing else changes |
| Config.ConfigManager.UpdateKeys | config_manager.py:160-168 | replaces `privateKey` and the cached `publicKey` only; `short_id` has no effect and `shortIds` keeps its contents |
| Config.ConfigManager.AddClientShortId | config_manager.py:241-249 | creates `shortIds` when missing and appends the id only when absent, in place, so a cache that aliases the list sees the new id |
| Config.ConfigManager.GetServerInfo | config_manager.py:251-261 | returns the cache or `{}`; when configured and `shortIds` exists it holds the very same list, and the live cache receives it |
| Config.ConfigManager.UpdateClient | config_manager.py:263-276 | creates `users` when missing and sets `users[id]` to `{name, data}`, with `shortId` only when it is truthy; other users are untouched |
| Config.ConfigManager.GetClientByName | config_manager.py:278-287 | the scan returns the first user whose name matches, in insertion order, or `None` when there is no match or no `users` map |
| Artifacts.FirstMissing | user_manager.py:145-163 | the first key, in reading order, that the cache lacks; `None` exactly when every key is present |
| Artifacts.BuildClientConfig | user_manager.py:105-175 | `None` for an empty cache; `KeyError` for the first missing key among port, serverName, publicKey and shortId; otherwise log level `warning`, the SOCKS and HTTP proxies on 127.0.0.1:10808/10809, `geoip:private` routed to `direct`, and one VLESS/REALITY outbound with address `""`, the cached port, the user's id with flow `xtls-rprx-vision`, and the cached serverName, publicKey and shortId |
| Artifacts.BuildVlessLink | user_manager.py:186-217 | `None` for an empty cache; `KeyError` for the first missing key among serverName, publicKey, shortId and port; a built link means all four keys are present |
| Artifacts.ShortIdIsTheMissingKey | user_manager.py:145-163 | with `port`, `serverName` and `publicKey` cached but no `shortId`, the configuration raises `KeyError('shortId')` (user_manager.py:163), and so does the link (user_manager.py:207) |
| Artifacts.ReadingOrder | user_manager.py:145-163 | the cache `{publicKey, serverName}` makes the configuration raise `KeyError('port')`, and the cache `{dest, port}` makes the link raise `KeyError('serverName')` |
| Artifacts.JoinSeven | user_manager.py:212 | joining the seven items with `&` gives the items in order, separated by `&` |
| Artifacts.QueryShape | user_manager.py:201-212 | the query is `flow=xtls-rprx-vision&type=tcp&security=reality&sni=q(serverName)&pbk=q(publicKey)&sid=q(shortId)&spx=/`, in that fixed order |
| Artifacts.VlessLinkShape | user_manager.py:201-215 | a built link is exactly `vless://{id}@{address}:{port}?{query}#q(name)` |
| Artifacts.VlessLinkFragment | user_manager.py:215 | everything after the link's last `#` decodes to the user's name, whatever the other parts contain |
| Users.FirstIndexOf | user_manager.py:55-56 | the position of the first client with the id, or the length when no client has it |
| Users.WithoutFirst | user_manager.py:54-58 | popping the first client with the id: nothing changes when none has it, otherwise one fewer client, only old clients remain, and with distinct ids the id set loses exactly that id |
| Users.WithoutFirstAt | user_manager.py:55-58 | a loop that stops at the first matching position `i` leaves `clients[:i] + clients[i+1:]` |
| Users.AddPreservesIntegrity | user_manager.py:31-39 | with distinct ids and the client ids equal to the `users` keys, appending a fresh client and storing its user keeps both |
| Users.RemovePreservesIntegrity | user_manager.py:54-63 | popping the first client with the id and deleting `users[id]` keeps distinct ids and the ids equal to the keys |
| Users.RemoveEffects | user_manager.py:51-63 | the removal keeps that integrity, keeps names distinct, and leaves nobody with the removed name |
| Users.FindNewName | user_manager.py:36-41 | after storing a name nobody had, the lookup by name finds exactly the new entry |
| Users.PutNewName | user_manager.py:36-41 | storing a name nobody had keeps names distinct |
| Users.DeleteName | user_manager.py:60-63 | with distinct names, deleting the user who has a name leaves nobody with it |
| Users.DeleteKeepsNamesDistinct | user_manager.py:60-63 | deleting a user keeps names distinct |
| Users.UserManager.constructor | user_manager.py:16-17 | the manager works on the given configuration manager |
| Users.UserManager.AddUser | user_manager.py:19-41 | an existing name returns its stored id and changes nothing; a new name appends exactly `{id, flow: xtls-rprx-vision}` to `clients` and stores the same record in `users[id]`; afterwards the name finds the returned id; integrity (with a fresh id) and distinct names are kept; no other field changes |
| Users.UserManager.RemoveUser | user_manager.py:43-65 | an unknown name returns false and changes nothing; otherwise the first client with the user's id is popped, `users[id]` is deleted and the result is true; integrity and distinct names are kept, and the name is gone |
| Users.UserManager.PopClient | user_manager.py:54-58 | the `enumerate` loop with `pop(i)` and `break` leaves exactly the list with the first matching client removed |
| Users.UserManager.ListUsers | user_manager.py:67-76 | one `{id, name}` per user, in insertion order, with distinct ids; `[]` when there is no `users` map |
| Users.UserManager.GenerateClientConfig | user_manager.py:96-175 | `None` for an unknown name; otherwise the client configuration built from the user's id and `get_server_info()`; never built while no `shortId` is cached; the aliasing write into the cache is the only change of state |
| Users.UserManager.GenerateVlessLink | user_manager.py:177-217 | `None` for an unknown name; otherwise the link built from the user's id, the given address (or the resolved one when it is empty) and `get_server_info()`; never built while no `shortId` is cached |
| Users.UserManager.GenerateVlessQr | user_manager.py:219-225 | false when there is no link, the link's `KeyError` when it raises, and otherwise true, with the non-empty link as the QR payload; never true while no `shortId` is cached; the write of `get_server_info` into the cache is the only change of state |
| Users.UserManager.GenerateQrCode | user_manager.py:251-258 | false when there is no client configuration, its `KeyError` when it raises, and otherwise true, with the configuration as the payload; never true while no `shortId` is cached; the write of `get_server_info` into the cache is the only change of state |
| Users.AddTwice | user_manager.py:19-25 | adding `alice` twice returns the first id both times and leaves one client |
| Users.RemoveTwice | user_manager.py:43-49 | the second removal of the same name returns false |
| Users.FreshServer | config_manager.py:95-120 | after `create_config` and one `add_user`, the settings are configured, the user is found, and no `shortId` is cached |
| Users.FreshServerConfig | user_manager.py:163 | on that server, `generate_client_config` raises `KeyError('shortId')` |
| Users.FreshServerLink | user_manager.py:207 | on that server, `generate_vless_link` raises `KeyError('shortId')` |
| Users.FreshServerUnknown | user_manager.py:180-183 | a name nobody has gets `None` |

## Left out

- `docker_manager.py` and `main.py`: container control and command-line plumbing around the core, with no state of their own.
- `load_config` and `save_config` (config_manager.py:56-88): these read and write JSON files. The documents are in-memory values here, and the file names they use are modelled by `MetadataPath`.
- `generate_keys`, `generate_short_id` and `generate_uuid` (config_manager.py:170-227): these run subprocesses or draw random values. Their results are parameters (`CreateConfig`'s key pair, `AddUser`'s `newId`).
- `get_external_ip` (user_manager.py:78-94): network calls. What it returns is the `resolved` parameter of `GenerateVlessLink`.
- QR rendering, printing and saving in `generate_vless_qr` and `generate_qr_code`: these call a third-party library and the terminal. Only the decision and the payload are modelled.
- `json.dumps` of the client configuration: JSON serialisation is not modelled, so the payload is modelled as the configuration value itself.
- Console messages (`print`) throughout: they are output only.
- The fixed parts of the skeleton document (`log`, `sniffing`, the default outbounds): these are constants that no operation reads or changes.
- `get_inbound`, `get_reality_settings` and `get_clients`: fixed-path accessors. Each is a field of `ConfigManager`.
- Config.ConfigManager.HasRealitySettings: does not model the exception branch of `has_reality_settings`. That branch only catches a document lacking the path `inbounds[0].streamSettings.realitySettings` (a missing or empty `inbounds` included), which only `load_config` of a foreign file can produce.
- Documents whose values have other JSON types than the source writes (a numeric name, a non-list `shortIds`): `load_config` could read them, but no operation of the core produces them.
- Artifacts.BuildVlessLink: the port is an integer here. A non-string value in `sni`/`pbk`/`sid` would make `quote` raise `TypeError`, and that is not modelled, because every cached value the operations write is a string.
- `quote` on lone surrogate characters (which Python rejects when encoding): a Dafny `char` is a Unicode scalar value, so no such input exists.
