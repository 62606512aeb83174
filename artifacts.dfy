/**
 * The client artifacts built from a user's id and the server cache: the
 * Xray client configuration of `generate_client_config` and the `vless://`
 * link of `generate_vless_link`. Both are functions of their inputs, so the
 * same stored state always gives the same artifact.
 */
module Artifacts {
  import opened Maybe
  import opened Dict
  import opened Documents
  import opened Percent
  import Decimal

  /** Whether the server cache has `key` (`key in server_info`). */
  predicate HasKey(info: ServerCache, key: string) {
    match key
    case "publicKey" => info.publicKey.Some?
    case "serverName" => info.serverName.Some?
    case "dest" => info.dest.Some?
    case "port" => info.port.Some?
    case "shortIds" => info.shortIds.Some?
    case "shortId" => info.shortId.Some?
    case _ => false
  }

  /** The first of `keys` the cache lacks: the `KeyError` Python raises when it reads them in this order. */
  function FirstMissing(info: ServerCache, keys: seq<string>): (r: Option<string>)
    ensures r.None? <==> forall i :: 0 <= i < |keys| ==> HasKey(info, keys[i])
    ensures r.Some? ==> exists i :: 0 <= i < |keys| && keys[i] == r.value && !HasKey(info, r.value)
                                    && forall j :: 0 <= j < i ==> HasKey(info, keys[j])
  {
    if keys == [] then None
    else if !HasKey(info, keys[0]) then Some(keys[0])
    else
      var r := FirstMissing(info, keys[1..]);
      assert forall i :: 1 <= i < |keys| ==> keys[i] == keys[1..][i - 1];
      if r.Some? then
        var i :| 0 <= i < |keys[1..]| && keys[1..][i] == r.value && !HasKey(info, r.value)
                 && forall j :: 0 <= j < i ==> HasKey(info, keys[1..][j]);
        assert keys[i + 1] == r.value;
        r
      else r
  }

  /** The keys `generate_client_config` reads, in evaluation order. */
  const ConfigKeys: seq<string> := ["port", "serverName", "publicKey", "shortId"]

  /** The keys `generate_vless_link` reads, in evaluation order. */
  const LinkKeys: seq<string> := ["serverName", "publicKey", "shortId", "port"]

  datatype LocalInbound = LocalInbound(listen: string, port: int, protocol: string)
  datatype RoutingRule = RoutingRule(ip: seq<string>, outboundTag: string)
  datatype VnextUser = VnextUser(id: string, encryption: string, flow: string)
  datatype Vnext = Vnext(address: string, port: int, users: seq<VnextUser>)
  datatype RealityClient = RealityClient(fingerprint: string, serverName: string, publicKey: string, shortId: string)
  datatype Outbound =
    | VlessOutbound(vnext: seq<Vnext>, network: string, security: string, reality: RealityClient, tag: string)
    | FreedomOutbound(tag: string)
  /** The client document; its `log` section is always `{"loglevel": "warning"}`. */
  datatype ClientConfig = ClientConfig(logLevel: string, rules: seq<RoutingRule>,
                                       inbounds: seq<LocalInbound>, outbounds: seq<Outbound>)

  /** Local proxies only: SOCKS on 127.0.0.1:10808 and HTTP on 127.0.0.1:10809. */
  predicate LocalProxies(c: ClientConfig) {
    && |c.inbounds| == 2
    && (forall i :: 0 <= i < |c.inbounds| ==> c.inbounds[i].listen == "127.0.0.1")
    && c.inbounds[0].port == 10808 && c.inbounds[0].protocol == "socks"
    && c.inbounds[1].port == 10809 && c.inbounds[1].protocol == "http"
  }

  /** Every routing rule sends its traffic to an outbound the configuration defines. */
  predicate RoutesResolve(c: ClientConfig) {
    forall i :: 0 <= i < |c.rules| ==>
      exists j :: 0 <= j < |c.outbounds| && c.outbounds[j].tag == c.rules[i].outboundTag
  }

  /**
   * Private addresses go out directly; everything else takes the first
   * outbound, a VLESS-over-REALITY proxy with one vnext and one user.
   */
  predicate ProxiesTraffic(c: ClientConfig) {
    && c.rules == [RoutingRule(["geoip:private"], "direct")]
    && |c.outbounds| == 2
    && c.outbounds[0].VlessOutbound? && c.outbounds[0].tag == "proxy"
    && c.outbounds[0].network == "tcp" && c.outbounds[0].security == "reality"
    && |c.outbounds[0].vnext| == 1 && |c.outbounds[0].vnext[0].users| == 1
    && c.outbounds[1] == FreedomOutbound("direct")
  }

  /** The proxy's single user entry. */
  function ProxyUser(c: ClientConfig): VnextUser
    requires ProxiesTraffic(c)
  {
    c.outbounds[0].vnext[0].users[0]
  }

  function ProxyServer(c: ClientConfig): Vnext
    requires ProxiesTraffic(c)
  {
    c.outbounds[0].vnext[0]
  }

  /**
   * `generate_client_config` after the user lookup: `None` for an empty cache,
   * `KeyError` for the first of `port`, `serverName`, `publicKey`, `shortId`
   * that is missing, and otherwise the fixed-shape document. The address is
   * always empty: the client fills it in.
   */
  function BuildClientConfig(userId: string, info: ServerCache): (r: Outcome<ClientConfig>)
    ensures r.Absent? <==> info.IsEmpty()
    ensures r.KeyError? <==> !info.IsEmpty() && exists i :: 0 <= i < |ConfigKeys| && !HasKey(info, ConfigKeys[i])
    ensures r.KeyError? ==> !HasKey(info, r.key) && r.key in ConfigKeys
    ensures r.KeyError? ==> FirstMissing(info, ConfigKeys) == Some(r.key)
    ensures info.shortId.None? ==> !r.Built?
    ensures r.Built? ==>
      var c := r.value;
      && info.port.Some? && info.serverName.Some? && info.publicKey.Some? && info.shortId.Some?
      && c.logLevel == "warning"
      && LocalProxies(c) && ProxiesTraffic(c) && RoutesResolve(c)
      && ProxyServer(c).address == "" && ProxyServer(c).port == info.port.value
      && ProxyUser(c) == VnextUser(userId, "none", Flow)
      && c.outbounds[0].reality
         == RealityClient("chrome", info.serverName.value, info.publicKey.value, info.shortId.value)
  {
    if info.IsEmpty() then Absent
    else
      match FirstMissing(info, ConfigKeys)
      case Some(k) => KeyError(k)
      case None =>
        assert HasKey(info, ConfigKeys[0]) && HasKey(info, ConfigKeys[1]);
        assert HasKey(info, ConfigKeys[2]) && HasKey(info, ConfigKeys[3]);
        var c := ClientConfig(
          "warning",
          [RoutingRule(["geoip:private"], "direct")],
          [LocalInbound("127.0.0.1", 10808, "socks"), LocalInbound("127.0.0.1", 10809, "http")],
          [VlessOutbound(
             [Vnext("", info.port.value, [VnextUser(userId, "none", Flow)])],
             "tcp", "reality",
             RealityClient("chrome", info.serverName.value, info.publicKey.value, info.shortId.value),
             "proxy"),
           FreedomOutbound("direct")]);
        assert c.outbounds[1].tag == c.rules[0].outboundTag;
        Built(c)
  }

  /** One `f"{k}={quote(v)}"` item of the query. */
  function QueryItem(p: Pair<string, string>): string {
    p.key + "=" + Quote(p.val)
  }

  /** `"&".join(...)` over the items. */
  function JoinQuery(ps: seq<Pair<string, string>>): string {
    if ps == [] then ""
    else if |ps| == 1 then QueryItem(ps[0])
    else JoinQuery(ps[..|ps| - 1]) + "&" + QueryItem(ps[|ps| - 1])
  }

  /** The `params` dictionary of `generate_vless_link`, in its insertion order. */
  function LinkParams(serverName: string, publicKey: string, shortId: string): seq<Pair<string, string>> {
    [Pair("flow", Flow), Pair("type", "tcp"), Pair("security", "reality"),
     Pair("sni", serverName), Pair("pbk", publicKey), Pair("sid", shortId), Pair("spx", "/")]
  }

  /**
   * `generate_vless_link` after the user lookup and the address choice:
   * `None` for an empty cache, `KeyError` for the first of `serverName`,
   * `publicKey`, `shortId`, `port` that is missing, and otherwise the link.
   */
  function BuildVlessLink(userId: string, name: string, address: string, info: ServerCache): (r: Outcome<string>)
    ensures r.Absent? <==> info.IsEmpty()
    ensures r.KeyError? <==> !info.IsEmpty() && exists i :: 0 <= i < |LinkKeys| && !HasKey(info, LinkKeys[i])
    ensures r.KeyError? ==> !HasKey(info, r.key) && r.key in LinkKeys
    ensures r.KeyError? ==> FirstMissing(info, LinkKeys) == Some(r.key)
    ensures info.shortId.None? ==> !r.Built?
    ensures r.Built? ==> info.serverName.Some? && info.publicKey.Some? && info.shortId.Some? && info.port.Some?
  {
    if info.IsEmpty() then Absent
    else
      match FirstMissing(info, LinkKeys)
      case Some(k) => KeyError(k)
      case None =>
        assert HasKey(info, LinkKeys[0]) && HasKey(info, LinkKeys[1]);
        assert HasKey(info, LinkKeys[2]) && HasKey(info, LinkKeys[3]);
        var query := JoinQuery(LinkParams(info.serverName.value, info.publicKey.value, info.shortId.value));
        Built("vless://" + userId + "@" + address + ":" + Decimal.IntString(info.port.value)
              + "?" + query + "#" + Quote(name))
  }

  /**
   * Once the cache holds the three values `create_config` writes (no
   * operation removes them) but no `shortId`, both builders raise
   * `KeyError('shortId')`.
   */
  lemma ShortIdIsTheMissingKey(userId: string, name: string, address: string, info: ServerCache)
    requires info.port.Some? && info.serverName.Some? && info.publicKey.Some? && info.shortId.None?
    ensures BuildClientConfig(userId, info) == KeyError("shortId")
    ensures BuildVlessLink(userId, name, address, info) == KeyError("shortId")
  {
    assert HasKey(info, ConfigKeys[0]) && HasKey(info, ConfigKeys[1]) && HasKey(info, ConfigKeys[2]);
    assert HasKey(info, LinkKeys[0]) && HasKey(info, LinkKeys[1]) && !HasKey(info, LinkKeys[2]);
  }

  /**
   * The reading order decides the error: the configuration reads `port`
   * first, the link reads `serverName` first.
   */
  lemma ReadingOrder(userId: string, name: string, address: string)
    ensures BuildClientConfig(userId, ServerCache(Some("pub"), Some("sni"), None, None, None, None)) == KeyError("port")
    ensures BuildVlessLink(userId, name, address, ServerCache(None, None, Some("dest"), Some(443), None, None))
         == KeyError("serverName")
  {
    var c := ServerCache(Some("pub"), Some("sni"), None, None, None, None);
    assert !HasKey(c, ConfigKeys[0]);
    var l := ServerCache(None, None, Some("dest"), Some(443), None, None);
    assert !HasKey(l, LinkKeys[0]);
  }

  /*
   * Solver steps toward `QueryShape`: the fixed values are left unchanged
   * by `quote`, each item of the query reads `key=value`, and the joined
   * items regroup into merged literal pieces. Each is stated on its own so
   * that no single proof has to merge long string literals.
   */
  lemma QuoteFlow() ensures Quote(Flow) == Flow { QuoteUnreserved(Flow); }
  lemma QuoteTcp() ensures Quote("tcp") == "tcp" {
    var s := "tcp";
    assert forall i :: 0 <= i < |s| ==> 'a' <= s[i] <= 'z';
    QuoteUnreserved(s);
  }
  lemma QuoteReality() ensures Quote("reality") == "reality" {
    var s := "reality";
    assert forall i :: 0 <= i < |s| ==> 'a' <= s[i] <= 'z';
    QuoteUnreserved(s);
  }
  lemma QuoteSlash() ensures Quote("/") == "/" {
    var s := "/";
    assert forall i :: 0 <= i < |s| ==> s[i] == '/';
    QuoteUnreserved(s);
  }

  /** Joining a prefix of two or more items: the shorter prefix, `&`, then its last item. */
  lemma JoinPrefix(ps: seq<Pair<string, string>>, k: int)
    requires 1 <= k < |ps|
    ensures JoinQuery(ps[..k + 1]) == JoinQuery(ps[..k]) + "&" + QueryItem(ps[k])
  {
    var qs := ps[..k + 1];
    assert |qs| == k + 1 && qs != [];
    assert qs[..|qs| - 1] == ps[..k];
    assert qs[|qs| - 1] == ps[k];
  }

  /** Seven items joined: each followed by `&` except the last. */
  lemma JoinSeven(ps: seq<Pair<string, string>>)
    requires |ps| == 7
    ensures JoinQuery(ps) == QueryItem(ps[0]) + "&" + QueryItem(ps[1]) + "&" + QueryItem(ps[2])
                             + "&" + QueryItem(ps[3]) + "&" + QueryItem(ps[4]) + "&" + QueryItem(ps[5])
                             + "&" + QueryItem(ps[6])
  {
    assert JoinQuery(ps[..1]) == QueryItem(ps[0]);
    JoinPrefix(ps, 1);
    JoinPrefix(ps, 2);
    JoinPrefix(ps, 3);
    JoinPrefix(ps, 4);
    JoinPrefix(ps, 5);
    JoinPrefix(ps, 6);
    assert ps[..7] == ps;
  }

  /** An item whose value percent-encoding leaves alone is `key=value`. */
  lemma FixedItem(ps: seq<Pair<string, string>>, i: int, k: string, v: string)
    requires 0 <= i < |ps| && ps[i] == Pair(k, v)
    requires Quote(v) == v
    ensures QueryItem(ps[i]) == k + "=" + v
  { }

  lemma FlowItem(serverName: string, publicKey: string, shortId: string)
    ensures QueryItem(LinkParams(serverName, publicKey, shortId)[0]) == "flow" + "=" + Flow
  {
    QuoteFlow();
    FixedItem(LinkParams(serverName, publicKey, shortId), 0, "flow", Flow);
  }

  lemma TypeItem(serverName: string, publicKey: string, shortId: string)
    ensures QueryItem(LinkParams(serverName, publicKey, shortId)[1]) == "type" + "=" + "tcp"
  {
    QuoteTcp();
    FixedItem(LinkParams(serverName, publicKey, shortId), 1, "type", "tcp");
  }

  lemma SecurityItem(serverName: string, publicKey: string, shortId: string)
    ensures QueryItem(LinkParams(serverName, publicKey, shortId)[2]) == "security" + "=" + "reality"
  {
    QuoteReality();
    FixedItem(LinkParams(serverName, publicKey, shortId), 2, "security", "reality");
  }

  lemma SpxItem(serverName: string, publicKey: string, shortId: string)
    ensures QueryItem(LinkParams(serverName, publicKey, shortId)[6]) == "spx" + "=" + "/"
  {
    QuoteSlash();
    FixedItem(LinkParams(serverName, publicKey, shortId), 6, "spx", "/");
  }

  lemma CachedItems(serverName: string, publicKey: string, shortId: string)
    ensures var ps := LinkParams(serverName, publicKey, shortId);
      && QueryItem(ps[3]) == "sni" + "=" + Quote(serverName)
      && QueryItem(ps[4]) == "pbk" + "=" + Quote(publicKey)
      && QueryItem(ps[5]) == "sid" + "=" + Quote(shortId)
  { }

  /** Appending the next `key=value` item after an `&`, with the literal pieces merged. */
  lemma AppendItem(acc: string, key: string, value: string, piece: string)
    requires piece == "&" + key + "=" + value
    ensures acc + "&" + (key + "=" + value) == acc + piece
  {
  }

  /** The same, for an item whose value is left symbolic. */
  lemma AppendQuoted(acc: string, key: string, value: string, sep: string)
    requires sep == "&" + key + "="
    ensures acc + "&" + (key + "=" + value) == acc + sep + value
  {
  }

  /** The literal pieces of the query, merged. */
  lemma FlowPiece() ensures "flow" + "=" + Flow == "flow=xtls-rprx-vision" { }
  lemma TypePiece() ensures "&" + "type" + "=" + "tcp" == "&type=tcp" { }
  lemma SecurityPiece() ensures "&" + "security" + "=" + "reality" == "&security=reality" { }
  lemma SpxPiece() ensures "&" + "spx" + "=" + "/" == "&spx=/" { }

  /** The seven items joined by `&`, regrouped into merged literal pieces and the three cached values. */
  lemma QueryAssembly(sni: string, pbk: string, sid: string)
    ensures ("flow" + "=" + Flow) + "&" + ("type" + "=" + "tcp") + "&" + ("security" + "=" + "reality")
            + "&" + ("sni" + "=" + sni) + "&" + ("pbk" + "=" + pbk) + "&" + ("sid" + "=" + sid)
            + "&" + ("spx" + "=" + "/")
         == "flow=xtls-rprx-vision" + "&type=tcp" + "&security=reality" + "&sni=" + sni
            + "&pbk=" + pbk + "&sid=" + sid + "&spx=/"
  {
    FlowPiece();
    var q0 := "flow=xtls-rprx-vision";
    TypePiece();
    AppendItem(q0, "type", "tcp", "&type=tcp");
    var q1 := q0 + "&type=tcp";
    SecurityPiece();
    AppendItem(q1, "security", "reality", "&security=reality");
    var q2 := q1 + "&security=reality";
    AppendQuoted(q2, "sni", sni, "&sni=");
    var q3 := q2 + "&sni=" + sni;
    AppendQuoted(q3, "pbk", pbk, "&pbk=");
    var q4 := q3 + "&pbk=" + pbk;
    AppendQuoted(q4, "sid", sid, "&sid=");
    var q5 := q4 + "&sid=" + sid;
    SpxPiece();
    AppendItem(q5, "spx", "/", "&spx=/");
  }

  /** The query string, written out: fixed parameter order, fixed values, and `spx` a literal `/`. */
  lemma QueryShape(serverName: string, publicKey: string, shortId: string)
    ensures JoinQuery(LinkParams(serverName, publicKey, shortId))
         == "flow=xtls-rprx-vision" + "&type=tcp" + "&security=reality" + "&sni=" + Quote(serverName)
            + "&pbk=" + Quote(publicKey) + "&sid=" + Quote(shortId) + "&spx=/"
  {
    JoinSeven(LinkParams(serverName, publicKey, shortId));
    FlowItem(serverName, publicKey, shortId);
    TypeItem(serverName, publicKey, shortId);
    SecurityItem(serverName, publicKey, shortId);
    SpxItem(serverName, publicKey, shortId);
    CachedItems(serverName, publicKey, shortId);
    QueryAssembly(Quote(serverName), Quote(publicKey), Quote(shortId));
  }

  /** A built link is exactly the documented template. */
  lemma VlessLinkShape(userId: string, name: string, address: string, info: ServerCache)
    requires BuildVlessLink(userId, name, address, info).Built?
    ensures BuildVlessLink(userId, name, address, info).value
         == "vless://" + userId + "@" + address + ":" + Decimal.IntString(info.port.value)
            + "?" + ("flow=xtls-rprx-vision" + "&type=tcp" + "&security=reality" + "&sni=" + Quote(info.serverName.value)
                     + "&pbk=" + Quote(info.publicKey.value) + "&sid=" + Quote(info.shortId.value) + "&spx=/")
            + "#" + Quote(name)
  {
    QueryShape(info.serverName.value, info.publicKey.value, info.shortId.value);
  }

  /** Whatever precedes it, a `#` followed by a quoted name ends in a fragment that decodes to the name. */
  lemma FragmentDecodes(pre: string, name: string)
    ensures var f := Quote(name);
      var s := pre + "#" + f;
      |f| < |s| && s[|s| - |f| - 1] == '#'
      && (forall i :: |s| - |f| <= i < |s| ==> s[i] != '#')
      && Unquote(s[|s| - |f|..]) == Some(name)
  {
    var f := Quote(name);
    var s := pre + "#" + f;
    assert s[|s| - |f|..] == f;
    QuoteHasNoDelimiters(name);
    assert forall i :: |s| - |f| <= i < |s| ==> s[i] == f[i - (|s| - |f|)];
    QuoteRoundTrip(name);
  }

  /**
   * The fragment, everything after the link's last `#`, decodes to the
   * user's name, whatever the id, address and cached values contain.
   */
  lemma VlessLinkFragment(userId: string, name: string, address: string, info: ServerCache)
    requires BuildVlessLink(userId, name, address, info).Built?
    ensures var s := BuildVlessLink(userId, name, address, info).value;
      var f := Quote(name);
      |f| < |s| && s[|s| - |f| - 1] == '#'
      && (forall i :: |s| - |f| <= i < |s| ==> s[i] != '#')
      && Unquote(s[|s| - |f|..]) == Some(name)
  {
    var pre := "vless://" + userId + "@" + address + ":" + Decimal.IntString(info.port.value) + "?"
               + JoinQuery(LinkParams(info.serverName.value, info.publicKey.value, info.shortId.value));
    assert BuildVlessLink(userId, name, address, info).value == pre + "#" + Quote(name);
    FragmentDecodes(pre, name);
  }
}
