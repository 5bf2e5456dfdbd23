/** karma's own middleware (exercised by `test/unit/middleware/karma.spec.js`):
    which of karma's pages a request asks for, how a file of the file list
    is addressed from the browser, the tags that load the included files,
    and the placeholders of the page templates. Reading the templates
    from disk, the HTTP headers and `JSON.stringify` of the client config
    are not modelled; the templates and the config's JSON text are inputs. */
module KarmaMiddleware {
  import opened Wrappers
  import opened Strings
  import opened Seqs

  /** A request URL without its query string: everything from the first
      `?` on is dropped. */
  function StripQuery(url: string): (r: string)
    ensures '?' !in r && StartsWith(url, r)
    ensures '?' !in url ==> r == url
  {
    if url == [] || url[0] == '?' then []
    else [url[0]] + StripQuery(url[1..])
  }

  /** What the middleware answers. */
  datatype Route =
    | Redirect(location: string)   // 301 MOVED PERMANENTLY with `Location` set
    | ClientPage                   // client.html
    | KarmaJs                      // karma.js
    | ContextPage                  // context.html, in the iframe
    | DebugPage                    // debug.html, without the server channel
    | ContextJson                  // context.json, the list of files
    | Next                         // not karma's: the next middleware

  /** The decision over the request URL. The `urlRoot` without its trailing
      `/` is redirected to `urlRoot`; outside `urlRoot` the request is not
      karma's; inside it, the part after `urlRoot` chooses the page, and any
      other file goes on to the next middleware. */
  function Decide(url: string, urlRoot: string): Route
    requires EndsWith(urlRoot, "/")
  {
    var path := StripQuery(url);
    if path == urlRoot[..|urlRoot| - 1] then Redirect(urlRoot)
    else if !StartsWith(path, urlRoot) then Next
    else
      var rest := path[|urlRoot| - 1..];
      if rest == "/" then ClientPage
      else if rest == "/karma.js" then KarmaJs
      else if rest == "/context.html" then ContextPage
      else if rest == "/debug.html" then DebugPage
      else if rest == "/context.json" then ContextJson
      else Next
  }

  /** The query string plays no part in the decision. */
  lemma DecideIgnoresQuery(url: string, urlRoot: string, query: string)
    requires EndsWith(urlRoot, "/") && '?' !in url
    requires StartsWith(query, "?") || query == ""
    ensures Decide(url + query, urlRoot) == Decide(url, urlRoot)
  {
    StripQueryAppend(url, query);
  }

  /** Karma answers only inside `urlRoot`: whatever it does not pass on,
      its path (the URL without the query) starts with `urlRoot`, or is
      `urlRoot` without its trailing `/`, and exactly that path is
      redirected, to `urlRoot`. */
  lemma DecideScope(url: string, urlRoot: string)
    requires EndsWith(urlRoot, "/")
    ensures var path := StripQuery(url); var d := Decide(url, urlRoot);
      && (d != Next ==> StartsWith(path, urlRoot) || path + "/" == urlRoot)
      && (d.Redirect? <==> path + "/" == urlRoot)
      && (d.Redirect? ==> d.location == urlRoot)
  {
    var path := StripQuery(url);
    var n := |urlRoot| - 1;
    assert urlRoot == urlRoot[..n] + "/" by {
      assert urlRoot[n..] == "/";
    }
    if path + "/" == urlRoot {
      assert path == (path + "/")[..n];
    }
  }

  /** Inside `urlRoot`, the pages karma serves are exactly `urlRoot`
      followed by one of its names. */
  lemma DecideInside(url: string, urlRoot: string)
    requires EndsWith(urlRoot, "/") && '?' !in url && StartsWith(url, urlRoot)
    ensures var name := url[|urlRoot|..];
      Decide(url, urlRoot) == (
        if name == "" then ClientPage
        else if name == "karma.js" then KarmaJs
        else if name == "context.html" then ContextPage
        else if name == "debug.html" then DebugPage
        else if name == "context.json" then ContextJson
        else Next)
  {
    var n := |urlRoot| - 1;
    assert url != urlRoot[..n];
    var name := url[|urlRoot|..];
    assert url[n..] == "/" + name && ("/" + name)[1..] == name;
    assert "/"[1..] == "" && "/karma.js"[1..] == "karma.js" && "/context.html"[1..] == "context.html";
    assert "/debug.html"[1..] == "debug.html" && "/context.json"[1..] == "context.json";
  }

  lemma StripQueryAppend(url: string, query: string)
    requires '?' !in url
    requires StartsWith(query, "?") || query == ""
    ensures StripQuery(url + query) == url
    decreases |url|
  {
    if url == [] {
      assert url + query == query;
    } else {
      assert (url + query)[1..] == url[1..] + query;
      StripQueryAppend(url[1..], query);
    }
  }

  /** `filePathToUrlPath(path, basePath, urlRoot)`: a file under `basePath`
      is served under `urlRoot + 'base'`, any other under
      `urlRoot + 'absolute'`. */
  function FilePathToUrlPath(path: string, basePath: string, urlRoot: string): string {
    if StartsWith(path, basePath) then urlRoot + "base" + path[|basePath|..]
    else urlRoot + "absolute" + path
  }

  /** The file a served URL path stands for: the way back. */
  function UrlPathToFilePath(url: string, basePath: string, urlRoot: string): Option<string> {
    if StartsWith(url, urlRoot + "base") then Some(basePath + url[|urlRoot| + 4..])
    else if StartsWith(url, urlRoot + "absolute") then Some(url[|urlRoot| + 8..])
    else None
  }

  /** Every file has its own URL: reading the URL back gives the file. */
  lemma FileUrlRoundTrip(path: string, basePath: string, urlRoot: string)
    ensures UrlPathToFilePath(FilePathToUrlPath(path, basePath, urlRoot), basePath, urlRoot) == Some(path)
  {
    var u := FilePathToUrlPath(path, basePath, urlRoot);
    if StartsWith(path, basePath) {
      assert StartsWith(u, urlRoot + "base");
      assert u[|urlRoot| + 4..] == path[|basePath|..];
      assert path == basePath + path[|basePath|..];
    } else {
      assert !StartsWith(u, urlRoot + "base") by {
        assert u[|urlRoot|] == 'a' && (urlRoot + "base")[|urlRoot|] == 'b';
      }
      assert StartsWith(u, urlRoot + "absolute");
      assert u[|urlRoot| + 8..] == path;
    }
  }

  /** An included or served file: its path, whether it is a URL (kept as
      it is), and its content hash. */
  datatype File = File(path: string, isUrl: bool, sha: string)

  /** The address of a file in a page: URLs as they are, files mapped into
      `urlRoot`, with `?sha` appended for the context page so that a new
      version is fetched when the file changes. */
  function FileUrl(f: File, basePath: string, urlRoot: string, withSha: bool): string {
    if f.isUrl then f.path
    else FilePathToUrlPath(f.path, basePath, urlRoot) + (if withSha then "?" + f.sha else "")
  }

  /** The position of the last `c` in `s`. */
  function LastIndexOf(s: string, c: char): (r: Option<nat>)
    ensures r.Some? ==> r.value < |s| && s[r.value] == c && forall j :: r.value < j < |s| ==> s[j] != c
    ensures r.None? ==> c !in s
  {
    if s == [] then None
    else if s[|s| - 1] == c then Some(|s| - 1)
    else LastIndexOf(s[..|s| - 1], c)
  }

  /** `path.extname(p)`: from the last `.` of the last path segment, empty
      when that segment has no `.` past its first character. */
  function Extname(p: string): (ext: string)
    ensures ext == "" || (StartsWith(ext, ".") && EndsWith(p, ext))
  {
    var base := match LastIndexOf(p, '/') case None => p case Some(i) => p[i + 1..];
    match LastIndexOf(base, '.')
    case None => ""
    case Some(k) =>
      if k == 0 then ""
      else
        assert base[k..][0] == '.';
        assert p[|p| - |base|..] == base;
        assert p[|p| - |base[k..]|..] == base[k..];
        base[k..]
  }

  /** Characters appended after the last `c` do not move it. */
  lemma {:induction false} LastIndexOfAppend(s: string, t: string, c: char)
    requires c !in t
    ensures LastIndexOf(s + t, c) == LastIndexOf(s, c)
    decreases |t|
  {
    if t != [] {
      var u := s + t;
      assert u[..|u| - 1] == s + t[..|t| - 1];
      assert t[|t| - 1] in t;
      LastIndexOfAppend(s, t[..|t| - 1], c);
    } else {
      assert s + t == s;
    }
  }

  /** The extension of `stem + ext`, for an extension `.` + letters with
      no `.` or `/`, after a stem that does not end a directory. */
  lemma ExtnameOf(stem: string, ext: string)
    requires |stem| > 0 && stem[|stem| - 1] != '/'
    requires StartsWith(ext, ".") && '.' !in ext[1..] && '/' !in ext
    ensures Extname(stem + ext) == ext
  {
    var p := stem + ext;
    LastIndexOfAppend(stem, ext, '/');
    var li := LastIndexOf(stem, '/');
    var start := match li case None => 0 case Some(i) => i + 1;
    assert start < |stem|;
    var base := p[start..];
    assert base == (match LastIndexOf(p, '/') case None => p case Some(i) => p[i + 1..]);
    var head := stem[start..] + ".";
    assert ext == "." + ext[1..];
    assert base == head + ext[1..];
    LastIndexOfAppend(head, ext[1..], '.');
    var k := |stem| - start;
    assert LastIndexOf(head, '.') == Some(k);
    assert base[k..] == ext;
  }

  /** The tag that loads a file with address `url` and extension `ext`:
      a stylesheet link for `.css`, an HTML import for `.html`, otherwise a
      script whose type is `application/dart` for `.dart` and
      `text/javascript` for anything else. */
  function Tag(url: string, ext: string): string {
    if ext == ".css" then "<link type=\"text/css\" href=\"" + url + "\" rel=\"stylesheet\">"
    else if ext == ".html" then "<link href=\"" + url + "\" rel=\"import\">"
    else "<script type=\"" + ScriptType(ext) + "\" src=\"" + url + "\"></script>"
  }

  function ScriptType(ext: string): string {
    if ext == ".dart" then "application/dart" else "text/javascript"
  }

  /** The tags of the included files, in their order. */
  function Tags(files: seq<File>, basePath: string, urlRoot: string, withSha: bool): (r: seq<string>)
    ensures |r| == |files|
    ensures forall i :: 0 <= i < |files| ==>
      r[i] == Tag(FileUrl(files[i], basePath, urlRoot, withSha), Extname(files[i].path))
  {
    if files == [] then []
    else
      var tag := Tag(FileUrl(files[0], basePath, urlRoot, withSha), Extname(files[0].path));
      [tag] + Tags(files[1..], basePath, urlRoot, withSha)
  }

  /** `%SCRIPTS%`: the tags joined by line breaks. */
  function Scripts(files: seq<File>, basePath: string, urlRoot: string, withSha: bool): string {
    Join(Tags(files, basePath, urlRoot, withSha), "\n")
  }

  /** The lines of `%SCRIPTS%` are the tags, one per included file and in
      the files' order, when no address holds a line break. */
  lemma ScriptsLines(files: seq<File>, basePath: string, urlRoot: string, withSha: bool)
    requires files != []
    requires forall i :: 0 <= i < |files| ==> '\n' !in FileUrl(files[i], basePath, urlRoot, withSha)
    ensures Split(Scripts(files, basePath, urlRoot, withSha), "\n") == Tags(files, basePath, urlRoot, withSha)
  {
    var tags := Tags(files, basePath, urlRoot, withSha);
    forall k | 0 <= k < |tags| ensures "\n"[0] !in tags[k] {
      var u := FileUrl(files[k], basePath, urlRoot, withSha);
      TagFree(u, Extname(files[k].path));
    }
    SplitJoin(tags, "\n");
  }

  lemma TagFree(url: string, ext: string)
    requires '\n' !in url
    ensures '\n' !in Tag(url, ext)
  {
    if ext == ".css" {
      Free3("<link type=\"text/css\" href=\"", url, "\" rel=\"stylesheet\">");
    } else if ext == ".html" {
      Free3("<link href=\"", url, "\" rel=\"import\">");
    } else {
      var t := ScriptType(ext);
      assert '\n' !in t;
      Free3("<script type=\"" + t + "\" src=\"", url, "\"></script>");
    }
  }

  lemma Free3(a: string, b: string, c: string)
    requires '\n' !in a && '\n' !in b && '\n' !in c
    ensures '\n' !in a + b + c
  {
  }

  /** `context.json`: the addresses of the included files, hashes
      appended, in order. */
  function ContextFiles(files: seq<File>, basePath: string, urlRoot: string): (r: seq<string>)
    ensures |r| == |files| && forall i :: 0 <= i < |files| ==> r[i] == FileUrl(files[i], basePath, urlRoot, true)
  {
    if files == [] then [] else [FileUrl(files[0], basePath, urlRoot, true)] + ContextFiles(files[1..], basePath, urlRoot)
  }

  /** `\` doubled, as a file path is written inside a quoted script
      string. */
  function EscapeBackslash(s: string): (r: string)
    ensures '\\' !in s ==> r == s
  {
    if s == [] then []
    else (if s[0] == '\\' then "\\\\" else [s[0]]) + EscapeBackslash(s[1..])
  }

  /** `%MAPPINGS%`: the served files' addresses (without hashes) and their
      hashes, as the lines of a script object. */
  function Mappings(served: seq<File>, basePath: string, urlRoot: string): string {
    "window.__karma__.files = {\n" + Join(MappingLines(served, basePath, urlRoot), ",\n") + "\n};\n"
  }

  function MappingLines(served: seq<File>, basePath: string, urlRoot: string): (r: seq<string>)
    ensures |r| == |served|
    ensures forall i :: 0 <= i < |served| ==>
      r[i] == "  '" + EscapeBackslash(FileUrl(served[i], basePath, urlRoot, false)) + "': '" + served[i].sha + "'"
  {
    if served == [] then []
    else
      var line := "  '" + EscapeBackslash(FileUrl(served[0], basePath, urlRoot, false)) + "': '" + served[0].sha + "'";
      [line] + MappingLines(served[1..], basePath, urlRoot)
  }

  /** A query parameter's value: the text after `name=` in the query, decoded. */
  function QueryParam(url: string, name: string): Option<string> {
    match IndexOf(url, "?")
    case None => None
    case Some(q) => FindParam(Split(url[q + 1..], "&"), name)
  }

  function FindParam(pairs: seq<string>, name: string): Option<string> {
    if pairs == [] then None
    else
      match IndexOf(pairs[0], "=")
      case Some(e) =>
        if pairs[0][..e] == name then Some(Decode(pairs[0][e + 1..])) else FindParam(pairs[1..], name)
      case None =>
        if pairs[0] == name then Some("") else FindParam(pairs[1..], name)
  }

  predicate IsHex(c: char) { ('0' <= c <= '9') || ('A' <= c <= 'F') || ('a' <= c <= 'f') }

  function HexValue(c: char): (n: nat)
    requires IsHex(c)
    ensures n < 16
  {
    if '0' <= c <= '9' then c as int - '0' as int
    else if 'A' <= c <= 'F' then c as int - 'A' as int + 10
    else c as int - 'a' as int + 10
  }

  function HexDigit(n: nat): (c: char)
    requires n < 16
    ensures IsHex(c) && HexValue(c) == n
  {
    if n < 10 then (n + '0' as int) as char else (n - 10 + 'A' as int) as char
  }

  /** `querystring.unescape`: `%XY` is the character with hex code `XY`,
      `+` a space; a `%` without two hex digits stays. */
  function Decode(s: string): string
    decreases |s|
  {
    if s == [] then []
    else if |s| >= 3 && s[0] == '%' && IsHex(s[1]) && IsHex(s[2]) then
      [(HexValue(s[1]) * 16 + HexValue(s[2])) as char] + Decode(s[3..])
    else if s[0] == '+' then " " + Decode(s[1..])
    else [s[0]] + Decode(s[1..])
  }

  /** What `encodeURIComponent` leaves as it is. */
  predicate Unreserved(c: char) {
    ('a' <= c <= 'z') || ('A' <= c <= 'Z') || ('0' <= c <= '9')
    || c in "-_.!~*'()"
  }

  /** `encodeURIComponent` on ASCII: every other character as `%XY`. */
  function Encode(s: string): string {
    if s == [] then []
    else EncodeChar(s[0]) + Encode(s[1..])
  }

  function EncodeChar(c: char): string {
    if Unreserved(c) || c as int >= 128 then [c]
    else ['%', HexDigit(c as int / 16), HexDigit(c as int % 16)]
  }

  /** Decoding undoes encoding. */
  lemma {:induction false} DecodeEncode(s: string)
    ensures Decode(Encode(s)) == s
  {
    if s != [] {
      DecodeEncode(s[1..]);
      var c := s[0];
      var e := EncodeChar(c);
      var t := e + Encode(s[1..]);
      assert Encode(s) == t;
      if Unreserved(c) || c as int >= 128 {
        assert c != '%' && c != '+';
        assert t[1..] == Encode(s[1..]);
      } else {
        assert t[3..] == Encode(s[1..]);
        assert (HexValue(t[1]) * 16 + HexValue(t[2])) as char == c;
      }
    }
  }

  /** The query parameter naming the compatibility mode of the page. */
  const XUaParam: string := "x-ua-compatible"

  /** The `x-ua-compatible` meta tag of a page, when the query names a
      value. */
  function XUaCompatibleTag(url: string): string {
    var v := QueryParam(url, XUaParam);
    if v.Some? && v.value != "" then "\n<meta http-equiv=\"X-UA-Compatible\" content=\"" + v.value + "\"/>" else ""
  }

  /** The query that hands the value on to the pages the client opens. */
  function XUaCompatibleUrl(url: string): string {
    var v := QueryParam(url, XUaParam);
    if v.Some? && v.value != "" then "?" + (XUaParam + "=" + Encode(v.value)) else ""
  }

  /** No character that separates query parameters survives encoding. */
  lemma {:induction false} EncodeFree(s: string)
    ensures '&' !in Encode(s) && '=' !in Encode(s)
  {
    if s != [] {
      EncodeFree(s[1..]);
      var e := EncodeChar(s[0]);
      assert '&' !in e && '=' !in e by {
        if !(Unreserved(s[0]) || s[0] as int >= 128) {
          assert e[1] != '&' && e[2] != '&' && e[1] != '=' && e[2] != '=' by {
            assert IsHex(e[1]) && IsHex(e[2]);
          }
        }
      }
    }
  }

  /** The value handed on to the pages the client opens reads back as the
      value of the request. */
  lemma XUaCompatibleHandedOn(url: string)
    requires QueryParam(url, XUaParam).Some? && QueryParam(url, XUaParam).value != ""
    ensures QueryParam(XUaCompatibleUrl(url), XUaParam) == QueryParam(url, XUaParam)
  {
    EncodedParam(XUaParam, QueryParam(url, XUaParam).value);
  }

  /** `?name=<encoded value>` reads back as the value. */
  lemma EncodedParam(name: string, v: string)
    requires '=' !in name && '&' !in name
    ensures QueryParam("?" + (name + "=" + Encode(v)), name) == Some(v)
  {
    EncodeFree(v);
    QuerySinglePair(name + "=" + Encode(v), name);
    PairValue(name, Encode(v));
    DecodeEncode(v);
  }

  /** A query of one pair is looked up in that pair. */
  lemma QuerySinglePair(pair: string, name: string)
    requires '&' !in pair
    ensures QueryParam("?" + pair, name) == FindParam([pair], name)
  {
    var u := "?" + pair;
    IndexOfChar(u, '?', 0);
    assert u[1..] == pair;
    SplitFree(pair, "&");
  }

  /** The pair `name=value` gives the decoded value for `name`. */
  lemma PairValue(name: string, value: string)
    requires '=' !in name
    ensures FindParam([name + "=" + value], name) == Some(Decode(value))
  {
    var pair := name + "=" + value;
    IndexOfChar(pair, '=', |name|);
    assert pair[..|name|] == name && pair[|name| + 1..] == value;
  }

  /** client.html with its placeholders replaced. */
  function ClientHtml(template: string, url: string): string {
    ReplaceFirst(ReplaceFirst(template, "\n%X_UA_COMPATIBLE%", XUaCompatibleTag(url)), "%X_UA_COMPATIBLE_URL%", XUaCompatibleUrl(url))
  }

  /** karma.js with the URL root and the version filled in. */
  function KarmaJsBody(template: string, urlRoot: string, version: string): string {
    ReplaceFirst(ReplaceFirst(template, "%KARMA_URL_ROOT%", urlRoot), "%KARMA_VERSION%", version)
  }

  /** context.html or debug.html with the file tags (hashed only for
      context.html), the client config, the mappings of the served files
      and the `x-ua-compatible` tag filled in. */
  function PageBody(template: string, included: seq<File>, served: seq<File>, basePath: string, urlRoot: string,
                    context: bool, clientJson: string, url: string): string {
    var t := ReplaceFirst(template, "%SCRIPTS%", Scripts(included, basePath, urlRoot, context));
    var t := ReplaceFirst(t, "%CLIENT_CONFIG%", "window.__karma__.config = " + clientJson + ";\n");
    var t := ReplaceFirst(t, "%MAPPINGS%", Mappings(served, basePath, urlRoot));
    ReplaceFirst(t, "\n%X_UA_COMPATIBLE%", XUaCompatibleTag(url))
  }

  /** A placeholder is replaced where it stands, when its `k`-th
      character occurs neither before it nor earlier in the placeholder,
      so that no earlier occurrence can start in `a`. */
  lemma ReplacePlaceholder(a: string, pattern: string, b: string, r: string, k: nat)
    requires k < |pattern| && pattern[k] !in a && pattern[k] !in pattern[..k]
    ensures ReplaceFirst(a + pattern + b, pattern, r) == a + r + b
  {
    var s := a + pattern + b;
    assert OccursAt(s, pattern, |a|) by {
      assert s[|a|..|a| + |pattern|] == pattern;
    }
    forall j: nat | j < |a| ensures !OccursAt(s, pattern, j) {
      if j + |pattern| <= |s| {
        assert s[j..j + |pattern|][k] == s[j + k];
        if j + k < |a| {
          assert s[j + k] == a[j + k];
        } else {
          assert s[j + k] == pattern[j + k - |a|];
          assert pattern[..k][j + k - |a|] == pattern[j + k - |a|];
        }
      }
    }
    assert IndexOf(s, pattern) == Some(|a|);
    assert s[..|a|] == a && s[|a| + |pattern|..] == b;
  }

  /** karma.js gets the URL root and the version in place of their
      placeholders, when the text before each holds no `%`. */
  lemma KarmaJsFilled(a: string, b: string, c: string, urlRoot: string, version: string)
    requires '%' !in a && '%' !in b && '%' !in urlRoot
    ensures KarmaJsBody(a + "%KARMA_URL_ROOT%" + b + "%KARMA_VERSION%" + c, urlRoot, version)
      == a + urlRoot + b + version + c
  {
    var rest := b + "%KARMA_VERSION%" + c;
    assert a + "%KARMA_URL_ROOT%" + b + "%KARMA_VERSION%" + c == a + "%KARMA_URL_ROOT%" + rest;
    ReplacePlaceholder(a, "%KARMA_URL_ROOT%", rest, urlRoot, 0);
    var head := a + urlRoot + b;
    assert a + urlRoot + rest == head + "%KARMA_VERSION%" + c;
    ReplacePlaceholder(head, "%KARMA_VERSION%", c, version, 0);
  }

  /** context.html and debug.html: the tags of the included files, the
      client config, the mappings of the served files and the
      `x-ua-compatible` tag each stand in place of their placeholder, and
      the rest of the template is kept, when no `%` comes before a
      placeholder. */
  lemma PageFilled(a: string, b: string, c: string, d: string, e: string, included: seq<File>, served: seq<File>,
                   basePath: string, urlRoot: string, context: bool, clientJson: string, url: string)
    requires '%' !in a && '%' !in b && '%' !in c && '%' !in d && '%' !in clientJson
    requires '%' !in Scripts(included, basePath, urlRoot, context) && '%' !in Mappings(served, basePath, urlRoot)
    ensures PageBody(a + "%SCRIPTS%" + b + "%CLIENT_CONFIG%" + c + "%MAPPINGS%" + d + "\n%X_UA_COMPATIBLE%" + e,
                     included, served, basePath, urlRoot, context, clientJson, url)
      == a + Scripts(included, basePath, urlRoot, context) + b
         + ("window.__karma__.config = " + clientJson + ";\n") + c
         + Mappings(served, basePath, urlRoot) + d + XUaCompatibleTag(url) + e
  {
    var config := "window.__karma__.config = " + clientJson + ";\n";
    assert '%' !in config;
    assert "\n%X_UA_COMPATIBLE%"[..1] == "\n";
    ReplaceFour(a, "%SCRIPTS%", b, "%CLIENT_CONFIG%", c, "%MAPPINGS%", d, "\n%X_UA_COMPATIBLE%", e,
                Scripts(included, basePath, urlRoot, context), config, Mappings(served, basePath, urlRoot),
                XUaCompatibleTag(url));
  }

  /** client.html: the `x-ua-compatible` tag and the query that hands the
      value on stand in place of their placeholders, when no `%` comes
      before a placeholder. */
  lemma ClientFilled(a: string, b: string, c: string, url: string)
    requires '%' !in a && '%' !in b && '%' !in XUaCompatibleTag(url)
    ensures ClientHtml(a + "\n%X_UA_COMPATIBLE%" + b + "%X_UA_COMPATIBLE_URL%" + c, url)
      == a + XUaCompatibleTag(url) + b + XUaCompatibleUrl(url) + c
  {
    assert "\n%X_UA_COMPATIBLE%"[..1] == "\n";
    ReplaceTwo(a, "\n%X_UA_COMPATIBLE%", b, "%X_UA_COMPATIBLE_URL%", c, XUaCompatibleTag(url), XUaCompatibleUrl(url), 1, 0);
  }

  /** Four placeholders replaced in turn, each marked by a `%` that nothing
      before it holds: at its first character, or at the second for the
      last. */
  lemma ReplaceFour(a: string, p1: string, b: string, p2: string, c: string, p3: string, d: string, p4: string, e: string,
                    r1: string, r2: string, r3: string, r4: string)
    requires |p1| > 0 && |p2| > 0 && |p3| > 0 && |p4| > 1
    requires p1[0] == p2[0] == p3[0] == p4[1] == '%' && p4[0] != '%'
    requires '%' !in a && '%' !in b && '%' !in c && '%' !in d && '%' !in r1 && '%' !in r2 && '%' !in r3
    ensures ReplaceFirst(ReplaceFirst(ReplaceFirst(ReplaceFirst(a + p1 + b + p2 + c + p3 + d + p4 + e, p1, r1), p2, r2), p3, r3), p4, r4)
      == a + r1 + b + r2 + c + r3 + d + r4 + e
  {
    var tail := c + p3 + d + p4 + e;
    AssocTail(a + p1 + b + p2, c, p3, d, p4, e);
    assert '%' !in a + r1 + b;
    ReplaceTwo(a, p1, b, p2, tail, r1, r2, 0, 0);
    var h := a + r1 + b + r2;
    AssocTail(h, c, p3, d, p4, e);
    assert '%' !in h + c && '%' !in h + c + r3 + d;
    assert p4[..1] == [p4[0]];
    ReplaceTwo(h + c, p3, d, p4, e, r3, r4, 0, 1);
  }

  /** Two placeholders replaced in turn. */
  lemma ReplaceTwo(a: string, p: string, b: string, q: string, c: string, r: string, t: string, k: nat, j: nat)
    requires k < |p| && p[k] !in a && p[k] !in p[..k]
    requires j < |q| && q[j] !in a + r + b && q[j] !in q[..j]
    ensures ReplaceFirst(ReplaceFirst(a + p + b + q + c, p, r), q, t) == a + r + b + t + c
  {
    Assoc(a + p, b + q, c);
    Assoc(a + p, b, q);
    ReplacePlaceholder(a, p, b + q + c, r, k);
    Assoc(a + r, b + q, c);
    Assoc(a + r, b, q);
    ReplacePlaceholder(a + r + b, q, c, t, j);
  }

  /** Concatenation regrouped to the left. */
  lemma AssocTail(h: string, c: string, p: string, d: string, q: string, e: string)
    ensures h + (c + p + d + q + e) == h + c + p + d + q + e
  {
    Assoc(h, c + p + d + q, e);
    Assoc(h, c + p + d, q);
    Assoc(h, c + p, d);
    Assoc(h, c, p);
  }
}
