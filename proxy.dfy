/** karma's proxy middleware (exercised by `test/unit/middleware/proxy.spec.js`):
    `parseProxyConfig` turns the `proxies` option, a dictionary from a
    path prefix to a target, into a list of proxy entries, nested paths
    first; the handler forwards a request to the first entry whose path
    prefixes its URL, with that prefix replaced by the target's path. */
module Proxy {
  import opened Wrappers
  import opened Strings

  /** The parts of a target that `url.parse` yields and the proxy uses. */
  datatype Target = Target(protocol: Option<bool>, hostname: Option<string>, port: Option<string>, pathname: string)
  // `protocol` is `Some(true)` for `https:`, `Some(false)` for `http:` and
  // `None` for a target that is a path only.

  /** `url.parse` on the targets karma accepts: `http://` or `https://`
      followed by `host[:port]` and a path (`/` when there is none), or a
      path alone. */
  function ParseTarget(u: string): (t: Target)
    ensures !StartsWith(u, "http://") && !StartsWith(u, "https://") ==> t == Target(None, None, None, u)
    ensures t.protocol.Some? ==> StartsWith(t.pathname, "/")
    ensures EndsWith(u, "/") ==> EndsWith(t.pathname, "/")
  {
    if StartsWith(u, "http://") then
      assert EndsWith(u, "/") ==> u[7..] == "" || EndsWith(u[7..], "/") by {
        if EndsWith(u, "/") && |u| > 7 { assert u[7..][|u[7..]| - 1..] == u[|u| - 1..]; }
      }
      Authority(false, u[7..])
    else if StartsWith(u, "https://") then
      assert EndsWith(u, "/") ==> u[8..] == "" || EndsWith(u[8..], "/") by {
        if EndsWith(u, "/") && |u| > 8 { assert u[8..][|u[8..]| - 1..] == u[|u| - 1..]; }
      }
      Authority(true, u[8..])
    else Target(None, None, None, u)
  }

  /** The part of a URL past `scheme://`: the host, an optional port and the
      path. */
  function Authority(https: bool, rest: string): (t: Target)
    ensures t.protocol == Some(https) && StartsWith(t.pathname, "/")
    ensures rest == "" || EndsWith(rest, "/") ==> EndsWith(t.pathname, "/")
  {
    var (hostPort, path) := match IndexOf(rest, "/")
      case None => (rest, "/")
      case Some(i) =>
        assert EndsWith(rest, "/") ==> rest[i..][|rest[i..]| - 1..] == rest[|rest| - 1..];
        (rest[..i], rest[i..]);
    match IndexOf(hostPort, ":")
    case None => Target(Some(https), Some(hostPort), None, path)
    case Some(j) =>
      var port := hostPort[j + 1..];
      Target(Some(https), Some(hostPort[..j]), if port == "" then None else Some(port), path)
  }

  /** The port of an entry: the text of the target, or the number of
      karma's own `config.port` for a path-only target. */
  datatype Port = PortText(text: string) | PortNumber(number: nat)

  /** The part of karma's config the proxy falls back on. */
  datatype ServerConfig = ServerConfig(hostname: string, port: nat)

  /** One parsed entry of `proxies`. */
  datatype ProxyEntry = ProxyEntry(path: string, baseUrl: string, host: string, port: Port, https: bool)

  /** The entry for `proxies[key] == target`. A key with a trailing `/`
      gives the target one too; a target whose only path is the implicit
      `/` has the empty base URL; a path-only target goes to karma's own
      host and port; a missing port is the scheme's default. */
  function ParseEntry(key: string, target: string, config: ServerConfig): (e: ProxyEntry)
    ensures e.path == key
  {
    var t := ParseTarget(target);
    var (url, pathname) := if EndsWith(key, "/") && !EndsWith(target, "/") then (target + "/", t.pathname + "/")
                           else (target, t.pathname);
    var baseUrl := if pathname == "/" && !EndsWith(url, "/") then "" else pathname;
    var host := if t.hostname.Some? then t.hostname.value else config.hostname;
    var port := if t.port.Some? then PortText(t.port.value)
                else if t.protocol.Some? then PortText(if t.protocol.value then "443" else "80")
                else PortNumber(config.port);
    ProxyEntry(key, baseUrl, host, port, t.protocol == Some(true))
  }

  /** A target `scheme://host[:port]/path` gives an entry for that host,
      with the explicit port, or else 443 for `https` and 80 for `http`. */
  lemma ParseEntryAddress(key: string, https: bool, host: string, port: string, path: string, config: ServerConfig)
    requires '/' !in host && ':' !in host && '/' !in port
    requires path == "" || StartsWith(path, "/")
    ensures var target := (if https then "https://" else "http://") + host + (if port == "" then "" else ":" + port) + path;
      var e := ParseEntry(key, target, config);
      && e.path == key && e.host == host && e.https == https
      && e.port == PortText(if port != "" then port else if https then "443" else "80")
  {
    var target := (if https then "https://" else "http://") + host + (if port == "" then "" else ":" + port) + path;
    ParseTargetAddress(https, host, port, path, target);
    EntryFromTarget(key, target, config);
  }

  /** `url.parse` on `scheme://host[:port]/path`. */
  lemma ParseTargetAddress(https: bool, host: string, port: string, path: string, target: string)
    requires '/' !in host && ':' !in host && '/' !in port
    requires path == "" || StartsWith(path, "/")
    requires target == (if https then "https://" else "http://") + host + (if port == "" then "" else ":" + port) + path
    ensures ParseTarget(target) == Target(Some(https), Some(host), if port == "" then None else Some(port), if path == "" then "/" else path)
  {
    var rest := host + (if port == "" then "" else ":" + port) + path;
    assert target == (if https then "https://" else "http://") + rest;
    ParseTargetScheme(https, rest);
    AuthorityAddress(https, host, port, path, rest);
  }

  /** The authority `host[:port]/path`, either form. */
  lemma AuthorityAddress(https: bool, host: string, port: string, path: string, rest: string)
    requires '/' !in host && ':' !in host && '/' !in port
    requires path == "" || StartsWith(path, "/")
    requires rest == host + (if port == "" then "" else ":" + port) + path
    ensures Authority(https, rest) == Target(Some(https), Some(host), if port == "" then None else Some(port), if path == "" then "/" else path)
  {
    if port == "" {
      assert rest == host + path;
      AuthorityHost(https, host, path);
    } else {
      assert rest == host + ":" + port + path;
      AuthorityParts(https, host, port, path);
    }
  }

  /** The host, port and scheme of an entry, read off its parsed target. */
  lemma EntryFromTarget(key: string, target: string, config: ServerConfig)
    ensures var e := ParseEntry(key, target, config); var t := ParseTarget(target);
      && e.path == key && e.https == (t.protocol == Some(true))
      && e.host == (if t.hostname.Some? then t.hostname.value else config.hostname)
      && e.port == (if t.port.Some? then PortText(t.port.value)
                    else if t.protocol.Some? then PortText(if t.protocol.value then "443" else "80")
                    else PortNumber(config.port))
  {
  }

  /** A target with a scheme parses through its authority. */
  lemma ParseTargetScheme(https: bool, rest: string)
    ensures ParseTarget((if https then "https://" else "http://") + rest) == Authority(https, rest)
  {
    if https {
      var target := "https://" + rest;
      assert target[..8] == "https://" && target[8..] == rest;
      assert target[..7] != "http://" by { assert target[4] == 's'; }
    } else {
      var target := "http://" + rest;
      assert target[..7] == "http://" && target[7..] == rest;
    }
  }

  /** A target that is only a path goes to karma's own host and port. */
  lemma ParseEntryPathOnly(key: string, target: string, config: ServerConfig)
    requires !StartsWith(target, "http://") && !StartsWith(target, "https://")
    ensures var e := ParseEntry(key, target, config);
      e.path == key && e.host == config.hostname && e.port == PortNumber(config.port) && !e.https
  {
  }

  /** An entry is `https` exactly when its target's scheme is. */
  lemma ParseEntryHttps(key: string, target: string, config: ServerConfig)
    ensures ParseEntry(key, target, config).https <==> StartsWith(target, "https://")
  {
    if StartsWith(target, "https://") {
      assert !StartsWith(target, "http://") by { assert target[4] == 's'; }
    }
  }

  /** A key with a trailing `/` gives a base URL with one; for any other
      key the base URL is the target's path, empty when that path is only
      the implicit `/`. */
  lemma ParseEntryBaseUrl(key: string, target: string, config: ServerConfig)
    ensures var e := ParseEntry(key, target, config); var t := ParseTarget(target);
      && (EndsWith(key, "/") ==> EndsWith(e.baseUrl, "/"))
      && (!EndsWith(key, "/") ==> e.baseUrl == (if t.pathname == "/" && !EndsWith(target, "/") then "" else t.pathname))
  {
    var t := ParseTarget(target);
    var e := ParseEntry(key, target, config);
    if EndsWith(key, "/") && !EndsWith(target, "/") {
      var u := target + "/";
      assert u[|u| - 1..] == "/";
      assert e.baseUrl == t.pathname + "/";
      assert (t.pathname + "/")[|t.pathname|..] == "/";
    } else {
      assert e.baseUrl == (if t.pathname == "/" && !EndsWith(target, "/") then "" else t.pathname);
    }
  }

  /** The keys of `proxies` in `sort().reverse()` order: descending. */
  predicate Descending(keys: seq<string>) {
    forall i, j :: 0 <= i < j < |keys| ==> LexLe(keys[j], keys[i])
  }

  /** `k` placed into the descending `keys`. */
  function InsertDesc(k: string, keys: seq<string>): (r: seq<string>)
    requires Descending(keys)
    ensures Descending(r)
    ensures multiset(r) == multiset(keys) + multiset{k}
  {
    if keys == [] then [k]
    else if LexLe(keys[0], k) then
      assert forall j :: 0 <= j < |keys| ==> LexLe(keys[j], k) by {
        forall j | 0 <= j < |keys| ensures LexLe(keys[j], k) {
          if j > 0 { LexLeTrans(keys[j], keys[0], k); }
        }
      }
      [k] + keys
    else
      LexLeTotal(keys[0], k);
      var rest := InsertDesc(k, keys[1..]);
      ConsDescending(keys[0], keys[1..], k, rest);
      assert keys == [keys[0]] + keys[1..];
      [keys[0]] + rest
  }

  /** A key above every key of `rest`, which holds `tail` and `k`, heads a
      descending sequence. */
  lemma ConsDescending(x: string, tail: seq<string>, k: string, rest: seq<string>)
    requires Descending(rest) && multiset(rest) == multiset(tail) + multiset{k}
    requires LexLe(k, x) && forall j :: 0 <= j < |tail| ==> LexLe(tail[j], x)
    ensures Descending([x] + rest)
  {
    forall j | 0 <= j < |rest| ensures LexLe(rest[j], x) {
      assert rest[j] in multiset(tail) + multiset{k};
      if rest[j] != k {
        var m :| 0 <= m < |tail| && tail[m] == rest[j];
      }
    }
    var r := [x] + rest;
    forall i, j | 0 <= i < j < |r| ensures LexLe(r[j], r[i]) {
      if i > 0 {
        assert r[i] == rest[i - 1] && r[j] == rest[j - 1];
      } else {
        assert r[j] == rest[j - 1];
      }
    }
  }

  /** The keys sorted descending. */
  function SortDesc(keys: seq<string>): (r: seq<string>)
    ensures Descending(r)
    ensures |r| == |keys| && multiset(r) == multiset(keys)
  {
    if keys == [] then []
    else
      assert keys == [keys[0]] + keys[1..];
      var r := InsertDesc(keys[0], SortDesc(keys[1..]));
      assert |r| == |multiset(r)|;
      r
  }

  /** A string sorts after each of its proper prefixes. */
  lemma PrefixLexLe(a: string, b: string)
    requires a <= b
    ensures LexLe(a, b)
    decreases |a|
  {
    if |a| > 0 {
      PrefixLexLe(a[1..], b[1..]);
    }
  }

  /** `parseProxyConfig(proxies, config)`: each entry of `proxies` (a
      dictionary, here its entries in order with distinct keys) parsed,
      the paths in descending order. */
  function ParseProxyConfig(proxies: seq<(string, string)>, config: ServerConfig): (r: seq<ProxyEntry>)
  {
    Entries(SortDesc(KeysOf(proxies)), proxies, config)
  }

  /** The entries for `keys`, in their order. */
  function Entries(keys: seq<string>, proxies: seq<(string, string)>, config: ServerConfig): (r: seq<ProxyEntry>)
    ensures |r| == |keys|
    ensures forall i :: 0 <= i < |r| ==> r[i] == ParseEntry(keys[i], Lookup(proxies, keys[i]), config)
  {
    if keys == [] then [] else [ParseEntry(keys[0], Lookup(proxies, keys[0]), config)] + Entries(keys[1..], proxies, config)
  }

  function KeysOf(proxies: seq<(string, string)>): (r: seq<string>)
    ensures |r| == |proxies| && forall i :: 0 <= i < |r| ==> r[i] == proxies[i].0
  {
    if proxies == [] then [] else [proxies[0].0] + KeysOf(proxies[1..])
  }

  /** The target of `key`, the first entry naming it. */
  function Lookup(proxies: seq<(string, string)>, key: string): string {
    if proxies == [] then "" else if proxies[0].0 == key then proxies[0].1 else Lookup(proxies[1..], key)
  }

  /** In a descending sequence of keys, a key comes after every key it
      is a proper prefix of. */
  lemma DescendingNested(keys: seq<string>)
    requires Descending(keys)
    ensures forall i, j :: 0 <= i < |keys| && 0 <= j < |keys| && keys[i] <= keys[j] && keys[i] != keys[j] ==> j < i
  {
    forall i, j | 0 <= i < |keys| && 0 <= j < |keys| && keys[i] <= keys[j] && keys[i] != keys[j]
      ensures j < i
    {
      PrefixLexLe(keys[i], keys[j]);
      if i < j {
        LexLeAntisym(keys[i], keys[j]);
      }
    }
  }

  /** The paths of the parsed entries. */
  function Paths(r: seq<ProxyEntry>): seq<string> {
    seq(|r|, i requires 0 <= i < |r| => r[i].path)
  }

  /** There is one entry per key, each key exactly once, with its own
      target; a path nested in another comes before it; an empty dictionary
      gives no entries. */
  lemma ParseProxyConfigOrder(proxies: seq<(string, string)>, config: ServerConfig)
    ensures var r := ParseProxyConfig(proxies, config);
      && |r| == |proxies|
      && multiset(Paths(r)) == multiset(KeysOf(proxies))
      && (forall i :: 0 <= i < |r| ==> r[i] == ParseEntry(r[i].path, Lookup(proxies, r[i].path), config))
      && (forall i, j :: 0 <= i < |r| && 0 <= j < |r| && r[i].path <= r[j].path && r[i].path != r[j].path ==> j < i)
  {
    var keys := SortDesc(KeysOf(proxies));
    assert Paths(Entries(keys, proxies, config)) == keys;
    DescendingNested(keys);
  }

  /** What the handler does with a request. */
  datatype Decision = Forward(entry: nat, url: string) | Next

  /** `createProxyHandler(proxies, …)` on a request for `url`: the first
      entry whose path starts the URL takes it, the URL rewritten by
      `url.replace(path, baseUrl)`; with none, the next middleware. Web and
      WebSocket (`upgrade`) requests are matched alike. */
  function Handle(entries: seq<ProxyEntry>, url: string): Decision
    decreases |entries|
  {
    if entries == [] then Next
    else if StartsWith(url, entries[0].path) then Forward(0, ReplaceFirst(url, entries[0].path, entries[0].baseUrl))
    else match Handle(entries[1..], url)
      case Next => Next
      case Forward(i, u) => Forward(i + 1, u)
  }

  /** A request is forwarded exactly when some entry's path starts its URL,
      to the first such entry, with that path replaced by the entry's base
      URL. */
  lemma {:induction false} HandleFirstMatch(entries: seq<ProxyEntry>, url: string)
    ensures Handle(entries, url).Next? <==> forall i :: 0 <= i < |entries| ==> !StartsWith(url, entries[i].path)
    ensures Handle(entries, url).Forward? ==> var d := Handle(entries, url);
      && d.entry < |entries| && StartsWith(url, entries[d.entry].path)
      && (forall j :: 0 <= j < d.entry ==> !StartsWith(url, entries[j].path))
      && d.url == entries[d.entry].baseUrl + url[|entries[d.entry].path|..]
    decreases |entries|
  {
    if entries != [] {
      HandleFirstMatch(entries[1..], url);
      if StartsWith(url, entries[0].path) {
        ReplacePrefix(url, entries[0].path, entries[0].baseUrl);
      } else {
        assert forall j :: 1 <= j < |entries| ==> entries[j] == entries[1..][j - 1];
      }
    }
  }

  /** Replacing a prefix swaps it for the replacement. */
  lemma ReplacePrefix(s: string, prefix: string, replacement: string)
    requires StartsWith(s, prefix)
    ensures ReplaceFirst(s, prefix, replacement) == replacement + s[|prefix|..]
  {
    assert OccursAt(s, prefix, 0);
    assert IndexOf(s, prefix) == Some(0);
  }

  /** The nested entry `/sub/some` of the dictionary wins over `/sub`, and
      rewrites to its base URL. */
  lemma HandleNested()
    ensures Handle([ProxyEntry("/sub/some", "/something", "gstatic.com", PortText("80"), false),
                    ProxyEntry("/sub", "", "localhost", PortText("9000"), false)], "/sub/some/Test.html")
      == Forward(0, "/something/Test.html")
  {
    var entries := [ProxyEntry("/sub/some", "/something", "gstatic.com", PortText("80"), false),
                    ProxyEntry("/sub", "", "localhost", PortText("9000"), false)];
    assert "/sub/some/Test.html" == "/sub/some" + "/Test.html";
    assert "/something" + "/Test.html" == "/something/Test.html";
    HandleFirstEntry(entries, "/sub/some", "/Test.html");
  }

  /** A URL made of the first entry's path and a rest is forwarded to that
      entry, with the rest after its base URL. */
  lemma HandleFirstEntry(entries: seq<ProxyEntry>, path: string, rest: string)
    requires entries != [] && entries[0].path == path
    ensures Handle(entries, path + rest) == Forward(0, entries[0].baseUrl + rest)
  {
    var url := path + rest;
    assert url[..|path|] == path && url[|path|..] == rest;
    ReplacePrefix(url, path, entries[0].baseUrl);
  }

  /** `scheme://host:port/path` parses into its host, port and path; the
      path is `/` when there is none, and an empty port is no port. */
  lemma AuthorityParts(https: bool, host: string, port: string, path: string)
    requires '/' !in host && ':' !in host && '/' !in port
    requires path == "" || StartsWith(path, "/")
    ensures Authority(https, host + ":" + port + path)
      == Target(Some(https), Some(host), if port == "" then None else Some(port), if path == "" then "/" else path)
  {
    var hostPort := host + ":" + port;
    var rest := hostPort + path;
    IndexOfChar(rest, '/', |hostPort|);
    assert IndexOf(rest, "/") == if path == "" then None else Some(|hostPort|);
    assert rest[..|hostPort|] == hostPort && rest[|hostPort|..] == path;
    IndexOfChar(hostPort, ':', |host|);
    assert IndexOf(hostPort, ":") == Some(|host|);
    assert hostPort[..|host|] == host && hostPort[|host| + 1..] == port;
    if path == "" {
      assert rest == hostPort;
    }
  }

  /** `scheme://host/path` without a port parses into its host and path. */
  lemma AuthorityHost(https: bool, host: string, path: string)
    requires '/' !in host && ':' !in host
    requires path == "" || StartsWith(path, "/")
    ensures Authority(https, host + path) == Target(Some(https), Some(host), None, if path == "" then "/" else path)
  {
    var rest := host + path;
    IndexOfChar(rest, '/', |host|);
    assert rest[..|host|] == host && rest[|host|..] == path;
    IndexOfChar(host, ':', |host|);
    if path == "" {
      assert rest == host;
    }
  }

  /** `'/base/': '/proxy/test'` goes to karma's own host and port with the
      base URL `/proxy/test/`. */
  lemma PathOnlyExample()
    ensures ParseEntry("/base/", "/proxy/test", ServerConfig("localhost", 9877))
      == ProxyEntry("/base/", "/proxy/test/", "localhost", PortNumber(9877), false)
  {
    assert "/proxy/test"[0] != "http://"[0];
    assert EndsWith("/base/", "/") && !EndsWith("/proxy/test", "/");
  }
}
