/**
 * The parts of the two JSON documents that the operations read or write:
 * the server document (`inbounds[0]` of the Xray configuration) and the
 * metadata document (`server` cache and `users` directory).
 */
module Documents {
  import opened Maybe
  import opened Dict

  /** The capability tag every client record carries. */
  const Flow: string := "xtls-rprx-vision"

  /** An entry of `inbounds[0].settings.clients`: `{"id": ..., "flow": ...}`. */
  datatype Client = Client(id: string, flow: string)

  /** A value of `user_metadata["users"]`: `{"name", "data", "shortId"?}`. */
  datatype UserRecord = UserRecord(name: string, data: Client, shortId: Option<string>)

  /** `user_metadata["users"]`, keyed by user id. */
  type UserDict = Dict<string, UserRecord>

  /**
   * A Python list held by reference: `realitySettings["shortIds"]`. The server
   * cache can come to hold the very same list, so an append through one
   * document is seen through the other.
   */
  class IdList {
    var items: seq<string>

    constructor (items: seq<string>)
      ensures this.items == items
    {
      this.items := items;
    }
  }

  /**
   * `user_metadata["server"]`: each key may be absent. `shortId` is read by
   * the artifact builders; no operation of the program writes it.
   */
  datatype ServerCache = ServerCache(
    publicKey: Option<string>,
    serverName: Option<string>,
    dest: Option<string>,
    port: Option<int>,
    shortIds: Option<IdList>,
    shortId: Option<string>)
  {
    /** `not server_info`: the dictionary has no keys at all. */
    predicate IsEmpty() {
      publicKey.None? && serverName.None? && dest.None? && port.None? && shortIds.None? && shortId.None?
    }
  }

  /** A dictionary `{}`. */
  const EmptyCache: ServerCache := ServerCache(None, None, None, None, None, None)

  /** Python truthiness of an optional string argument: present and non-empty. */
  predicate Truthy(s: Option<string>) {
    s.Some? && s.value != ""
  }

  /**
   * What an artifact builder does: returns `None` (`Absent`), returns a value
   * (`Built`), or raises `KeyError` for the first missing key it reads.
   */
  datatype Outcome<+T> = Absent | Built(value: T) | KeyError(key: string)
}
