/** karma's `strip_host` middleware (exercised by
    `test/unit/middleware/strip_host.spec.js`): a request for an absolute
    URI `http(s)://host/...` is served as the path that follows the host.
    The middleware stores the result as `request.normalizedUrl` and always
    passes the request on. */
module StripHost {
  import opened Strings

  /** A character of the class `[a-z.:\d-]` the host must consist of. */
  predicate HostChar(c: char) {
    ('a' <= c <= 'z') || ('0' <= c <= '9') || c == '.' || c == ':' || c == '-'
  }

  /** The number of host characters `s` starts with. */
  function HostRun(s: string): (n: nat)
    ensures n <= |s|
    ensures forall i :: 0 <= i < n ==> HostChar(s[i])
    ensures n < |s| ==> !HostChar(s[n])
  {
    if s != [] && HostChar(s[0]) then 1 + HostRun(s[1..]) else 0
  }

  /** What follows the scheme of an `http://` or `https://` URL. */
  function AfterScheme(url: string): (r: string)
    ensures |r| <= |url|
  {
    if StartsWith(url, "http://") then url[7..]
    else if StartsWith(url, "https://") then url[8..]
    else url
  }

  predicate HasScheme(url: string) {
    StartsWith(url, "http://") || StartsWith(url, "https://")
  }

  /** `url.replace(/^https?:\/\/[a-z.:\d-]+\//, '/')`: a scheme, a
      non-empty host and the `/` after it become a single `/`; any other
      URL is kept. (The source's `|| request.url` fallback only matters for
      the empty URL, which is kept anyway.) */
  function Strip(url: string): string {
    var rest := AfterScheme(url);
    var n := HostRun(rest);
    if HasScheme(url) && 0 < n < |rest| && rest[n] == '/' then rest[n..] else url
  }

  /** `scheme://host/path` is served as `/path`, for a host of the
      allowed characters (a name, an IP number, with or without a port),
      over http or https. */
  lemma StripAbsolute(https: bool, host: string, path: string)
    requires host != [] && forall i :: 0 <= i < |host| ==> HostChar(host[i])
    requires StartsWith(path, "/")
    ensures Strip((if https then "https://" else "http://") + host + path) == path
  {
    var scheme := if https then "https://" else "http://";
    var url := scheme + host + path;
    assert StartsWith(url, scheme);
    if https {
      assert url[4] == 's';
      assert !StartsWith(url, "http://");
    }
    var rest := AfterScheme(url);
    assert rest == host + path;
    HostRunOf(host, path);
    assert rest[|host|..] == path;
  }

  lemma {:induction false} HostRunOf(host: string, path: string)
    requires forall i :: 0 <= i < |host| ==> HostChar(host[i])
    requires StartsWith(path, "/")
    ensures HostRun(host + path) == |host|
    decreases |host|
  {
    if host == [] {
      assert (host + path)[0] == '/';
    } else {
      assert (host + path)[1..] == host[1..] + path;
      HostRunOf(host[1..], path);
    }
  }

  /** A URL that is already a path is kept. */
  lemma StripRelative(url: string)
    requires StartsWith(url, "/")
    ensures Strip(url) == url
  {
    assert !HasScheme(url) by {
      assert url[0] == '/';
    }
  }

  /** The result is the URL itself or a path that ends it; normalising
      twice gives what normalising once does. */
  lemma StripIdempotent(url: string)
    ensures Strip(url) == url || (StartsWith(Strip(url), "/") && EndsWith(url, Strip(url)))
    ensures Strip(Strip(url)) == Strip(url)
  {
    var r := Strip(url);
    if r != url {
      var rest := AfterScheme(url);
      var n := HostRun(rest);
      assert r == rest[n..] && r[0] == '/';
      assert url[|url| - |rest|..] == rest;
      assert url[|url| - |r|..] == r;
      StripRelative(r);
    }
  }

  /** The request of the test: an IP host with a query string. */
  lemma StripExample()
    ensures Strip("http://192.12.31.100/base/a.js?123345") == "/base/a.js?123345"
  {
    var host := "192.12.31.100";
    assert "http://192.12.31.100/base/a.js?123345" == "http://" + host + "/base/a.js?123345";
    StripAbsolute(false, host, "/base/a.js?123345");
  }
}
