/** Configuration rules of karma's `lib/config.js`: pattern objects and
    their defaults, `urlRoot` normalisation, path resolution against
    `basePath`, and the field rewriting done by `normalizeConfig` and
    `parseConfig`. Loading and evaluating the configuration file itself is
    not modelled: its `config.set(...)` call is given as a `Settings` value. */
module Config {
  import opened Wrappers
  import opened Strings

  /** A resolved file pattern with the flags the file list reads. */
  datatype Pattern = Pattern(pattern: string, served: bool, included: bool, watched: bool, nocache: bool)

  /** `new Pattern(p)`: served, included and watched default to true,
      nocache to false. */
  function DefaultPattern(p: string): Pattern {
    Pattern(p, true, true, true, false)
  }

  /** An entry of `files` as written in a configuration file: a bare string
      or an object with optional flags. */
  datatype PatternSpec =
    | Text(text: string)
    | Object(pattern: Option<string>, served: Option<bool>, included: Option<bool>,
             watched: Option<bool>, nocache: Option<bool>)

  /** `/^https?:\/\//`: an absolute http or https URL. */
  predicate IsUrl(s: string) {
    StartsWith(s, "http://") || StartsWith(s, "https://")
  }

  /** `createPatternObject`. A URL pattern is included but neither served
      nor watched; an object keeps the flags it gives and defaults the
      others; an entry without a usable pattern string becomes a pattern
      whose flags are all false (its `null` pattern is the empty string). */
  function CreatePattern(spec: PatternSpec): (p: Pattern)
    ensures IsUrl(p.pattern) ==> !p.served && p.included && !p.watched && !p.nocache
    ensures spec.Text? && spec.text != "" ==> p.pattern == spec.text
    ensures spec.Text? && spec.text != "" && !IsUrl(spec.text) ==> p == DefaultPattern(spec.text)
    ensures spec.Object? && spec.pattern.Some? && spec.pattern.value != "" ==>
      p.pattern == spec.pattern.value
    ensures spec.Object? && spec.pattern.Some? && spec.pattern.value != "" && !IsUrl(p.pattern) ==>
      p.served == spec.served.GetOr(true) && p.included == spec.included.GetOr(true)
      && p.watched == spec.watched.GetOr(true) && p.nocache == spec.nocache.GetOr(false)
    ensures PatternText(spec).None? ==> p == Pattern("", false, false, false, false)
  {
    match PatternText(spec)
    case None => Pattern("", false, false, false, false)
    case Some(t) =>
      if IsUrl(t) then Pattern(t, false, true, false, false)
      else if spec.Text? then DefaultPattern(t)
      else Pattern(t, spec.served.GetOr(true), spec.included.GetOr(true),
                   spec.watched.GetOr(true), spec.nocache.GetOr(false))
  }

  /** The pattern string of an entry, when it has a non-empty one. */
  function PatternText(spec: PatternSpec): Option<string> {
    match spec
    case Text(t) => if t == "" then None else Some(t)
    case Object(p, _, _, _, _) => if p.Some? && p.value != "" then p else None
  }

  /** The `urlRoot` rule: a leading and a trailing `/` are added when
      missing. */
  function NormalizeUrlRoot(u: string): (r: string)
    ensures StartsWith(r, "/") && EndsWith(r, "/")
    ensures StartsWith(u, "/") && EndsWith(u, "/") ==> r == u
    ensures |r| <= |u| + 2
  {
    var lead := if StartsWith(u, "/") then u else "/" + u;
    if EndsWith(lead, "/") then lead else lead + "/"
  }

  /** Normalising twice is normalising once. */
  lemma NormalizeUrlRootIdempotent(u: string)
    ensures NormalizeUrlRoot(NormalizeUrlRoot(u)) == NormalizeUrlRoot(u)
  {
  }

  /** The original root sits inside the normalised one, after at most one
      added `/`. */
  lemma NormalizeUrlRootKeepsRoot(u: string)
    ensures var r := NormalizeUrlRoot(u);
      var k := if StartsWith(u, "/") then 0 else 1;
      k + |u| <= |r| && r[k..k + |u|] == u
  {
    var r := NormalizeUrlRoot(u);
    var lead := if StartsWith(u, "/") then u else "/" + u;
    var k := if StartsWith(u, "/") then 0 else 1;
    assert lead[k..] == u;
    assert r[..|lead|] == lead;
  }

  lemma UrlRootExamples()
    ensures NormalizeUrlRoot("") == "/"
    ensures NormalizeUrlRoot("/a/b") == "/a/b/"
    ensures NormalizeUrlRoot("a/") == "/a/"
    ensures NormalizeUrlRoot("some/thing") == "/some/thing/"
  {
    assert !StartsWith("", "/") && "/" + "" == "/";
    assert EndsWith("/", "/");
    assert StartsWith("/a/b", "/") && !EndsWith("/a/b", "/");
    assert "/a/b" + "/" == "/a/b/";
    assert !StartsWith("a/", "/") && "/" + "a/" == "/a/";
    assert EndsWith("/a/", "/");
    assert !StartsWith("some/thing", "/") && "/" + "some/thing" == "/some/thing";
    assert !EndsWith("/some/thing", "/") && "/some/thing" + "/" == "/some/thing/";
  }

  /** `path.resolve(base, p)` for an absolute `base`: an absolute `p` wins,
      `""`, `"."` and a leading `"./"` stay at `base`, anything else is
      joined under `base`. (`..` segments are not collapsed.) */
  function ResolvePath(base: string, p: string): (r: string)
    ensures StartsWith(p, "/") ==> r == p
    ensures StartsWith(base, "/") ==> StartsWith(r, "/")
    decreases |p|
  {
    if StartsWith(p, "/") then p
    else if p == "" || p == "." then base
    else if StartsWith(p, "./") then ResolvePath(base, p[2..])
    else JoinPath(base, p)
  }

  function JoinPath(base: string, p: string): (r: string)
    ensures StartsWith(base, "/") ==> StartsWith(r, "/")
  {
    if EndsWith(base, "/") then base + p else base + "/" + p
  }

  /** Resolving an already resolved path against an absolute base changes
      nothing. */
  lemma ResolvePathIdempotent(base: string, p: string)
    requires StartsWith(base, "/")
    ensures ResolvePath(base, ResolvePath(base, p)) == ResolvePath(base, p)
  {
  }

  /** `path.dirname`: everything before the last `/`; `"/"` for a file at
      the root and `"."` when there is no `/`. */
  function Dirname(p: string): (d: string)
    ensures StartsWith(p, "/") ==> StartsWith(d, "/")
  {
    match LastSlash(p)
    case None => "."
    case Some(i) => if i == 0 then "/" else p[..i]
  }

  function LastSlash(p: string): (r: Option<nat>)
    ensures r.Some? ==> r.value < |p| && p[r.value] == '/'
    ensures r.Some? ==> forall j :: r.value < j < |p| ==> p[j] != '/'
    ensures r.None? ==> '/' !in p
  {
    if |p| == 0 then None
    else if p[|p| - 1] == '/' then Some(|p| - 1)
    else
      var r := LastSlash(p[..|p| - 1]);
      assert p == p[..|p| - 1] + [p[|p| - 1]];
      r
  }

  /** `basePathResolve`: URLs are kept as they are, everything else is
      resolved against the base path. */
  function BasePathResolve(basePath: string, p: string): (r: string)
    ensures IsUrl(p) ==> r == p
    ensures !IsUrl(p) ==> r == ResolvePath(basePath, p)
  {
    if IsUrl(p) then p else ResolvePath(basePath, p)
  }

  /** `files.map(createPatternObject).map(createPatternMapper(basePathResolve))`. */
  function ResolvePatterns(basePath: string, specs: seq<PatternSpec>): (ps: seq<Pattern>)
    ensures |ps| == |specs|
    ensures forall i :: 0 <= i < |specs| ==>
      ps[i] == CreatePattern(specs[i]).(pattern := BasePathResolve(basePath, CreatePattern(specs[i]).pattern))
  {
    if specs == [] then []
    else
      var p := CreatePattern(specs[0]);
      [p.(pattern := BasePathResolve(basePath, p.pattern))] + ResolvePatterns(basePath, specs[1..])
  }

  function ResolveAll(basePath: string, paths: seq<string>): (rs: seq<string>)
    ensures |rs| == |paths|
    ensures forall i :: 0 <= i < |paths| ==> rs[i] == BasePathResolve(basePath, paths[i])
  {
    if paths == [] then [] else [BasePathResolve(basePath, paths[0])] + ResolveAll(basePath, paths[1..])
  }

  /** A URL file pattern survives resolution unchanged, and a non-URL one
      ends up absolute when the base path is absolute. */
  lemma ResolvedPatternsAbsolute(basePath: string, specs: seq<PatternSpec>, i: nat)
    requires StartsWith(basePath, "/") && i < |specs|
    ensures var p := ResolvePatterns(basePath, specs)[i];
      IsUrl(p.pattern) || StartsWith(p.pattern, "/")
    ensures specs[i].Text? && IsUrl(specs[i].text) ==>
      ResolvePatterns(basePath, specs)[i] == Pattern(specs[i].text, false, true, false, false)
  {
  }

  /** The value of a `reporters` setting: a single name or a list. */
  datatype Reporters = ReporterName(name: string) | ReporterList(names: seq<string>)

  /** A preprocessor setting: a single name or a list of names. */
  datatype Preprocessors = OnePreprocessor(name: string) | PreprocessorList(names: seq<string>)

  function ReporterNames(r: Reporters): (names: seq<string>)
    ensures r.ReporterName? ==> names == [r.name]
    ensures r.ReporterList? ==> names == r.names
  {
    match r
    case ReporterName(n) => [n]
    case ReporterList(ns) => ns
  }

  function PreprocessorNames(p: Preprocessors): (names: seq<string>)
    ensures p.OnePreprocessor? ==> names == [p.name]
    ensures p.PreprocessorList? ==> names == p.names
  {
    match p
    case OnePreprocessor(n) => [n]
    case PreprocessorList(ns) => ns
  }

  /** The preprocessor map after `normalizeConfig`, built from the entries
      in key order: every key resolved against the base path, every value a
      list, and a later entry overwriting an earlier one with the same
      resolved key. */
  function NormalizePreprocessors(basePath: string, entries: seq<(string, Preprocessors)>): map<string, seq<string>>
    decreases |entries|
  {
    if entries == [] then map[]
    else
      var last := entries[|entries| - 1];
      NormalizePreprocessors(basePath, entries[..|entries| - 1])[BasePathResolve(basePath, last.0) := PreprocessorNames(last.1)]
  }

  /** A key is in the normalised map exactly when some entry resolves to
      it. */
  lemma {:induction false} NormalizePreprocessorsKeys(basePath: string, entries: seq<(string, Preprocessors)>, key: string)
    ensures key in NormalizePreprocessors(basePath, entries) <==>
      exists i :: 0 <= i < |entries| && BasePathResolve(basePath, entries[i].0) == key
    decreases |entries|
  {
    if entries != [] {
      var init := entries[..|entries| - 1];
      NormalizePreprocessorsKeys(basePath, init, key);
      assert forall i :: 0 <= i < |init| ==> init[i] == entries[i];
    }
  }

  /** The value under a key comes from the last entry that resolves to it. */
  lemma {:induction false} NormalizePreprocessorsLastWins(basePath: string, entries: seq<(string, Preprocessors)>, key: string, i: nat)
    requires i < |entries| && BasePathResolve(basePath, entries[i].0) == key
    requires LastWith(basePath, entries, key, i)
    ensures key in NormalizePreprocessors(basePath, entries)
    ensures NormalizePreprocessors(basePath, entries)[key] == PreprocessorNames(entries[i].1)
    decreases |entries|
  {
    var init := entries[..|entries| - 1];
    if i < |init| {
      assert init[i] == entries[i];
      assert LastWith(basePath, init, key, i) by {
        forall j | i < j < |init| ensures BasePathResolve(basePath, init[j].0) != key {
          assert init[j] == entries[j];
        }
      }
      NormalizePreprocessorsLastWins(basePath, init, key, i);
      assert BasePathResolve(basePath, entries[|entries| - 1].0) != key;
    }
  }

  /** No entry after the `i`-th resolves to `key`. */
  predicate LastWith(basePath: string, entries: seq<(string, Preprocessors)>, key: string, i: nat) {
    forall j :: i < j < |entries| ==> BasePathResolve(basePath, entries[j].0) != key
  }

  /** The `client` setting: the arguments handed to the test page and two
      switches of the client. */
  datatype Client = Client(args: seq<string>, useIframe: bool, captureConsole: bool)

  /** A `client` object as given to `config.set`: each key may be absent. */
  datatype ClientSettings = ClientSettings(args: Option<seq<string>>, useIframe: Option<bool>, captureConsole: Option<bool>)

  const NoClient := ClientSettings(None, None, None)

  /** A `config.set(...)` call. Scalars and arrays given replace the current
      value wholesale (no deep merge of an array); objects (`preprocessors`,
      `client`) are merged key by key, a given key replacing the old one. */
  datatype Settings = Settings(
    basePath: Option<string>,
    files: Option<seq<PatternSpec>>,
    exclude: Option<seq<string>>,
    urlRoot: Option<string>,
    autoWatch: Option<bool>,
    singleRun: Option<bool>,
    reporters: Option<Reporters>,
    preprocessors: Option<seq<(string, Preprocessors)>>,
    port: Option<int>,
    browsers: Option<seq<string>>,
    client: ClientSettings)

  const NoSettings := Settings(None, None, None, None, None, None, None, None, None, None, NoClient)

  /** The default preprocessors of a new configuration. */
  const DefaultPreprocessors: seq<(string, Preprocessors)> := [("**/*.coffee", OnePreprocessor("coffee"))]

  /** The default `client` setting of a new configuration. */
  const DefaultClient := Client([], true, true)

  /** The value of a setting after the defaults (`d`), the configuration
      file's settings (when there is a file) and the command line, each
      overriding what came before. */
  function Layered<T>(cli: Option<T>, file: Option<T>, hasFile: bool, d: T): (r: T)
    ensures cli.Some? ==> r == cli.value
    ensures cli.None? && hasFile && file.Some? ==> r == file.value
    ensures cli.None? && (!hasFile || file.None?) ==> r == d
  {
    cli.GetOr(if hasFile then file.GetOr(d) else d)
  }

  /** The configuration record, with the defaults of its constructor.
      `normalizeConfig` writes `patterns`, `reporterNames` and
      `preprocessorMap`, the normalised forms of `files`, `reporters` and
      `preprocessors`. */
  class Config {
    var basePath: string
    var files: seq<PatternSpec>
    var exclude: seq<string>
    var urlRoot: string
    var autoWatch: bool
    var singleRun: bool
    var reporters: Reporters
    var preprocessors: seq<(string, Preprocessors)>
    var port: int
    var browsers: seq<string>
    var client: Client
    var patterns: seq<Pattern>
    var reporterNames: seq<string>
    var preprocessorMap: map<string, seq<string>>

    constructor()
      ensures basePath == "" && files == [] && exclude == [] && urlRoot == "/"
      ensures autoWatch && !singleRun && reporters == ReporterList(["progress"])
      ensures preprocessors == DefaultPreprocessors
      ensures port == 9876 && browsers == [] && client == DefaultClient
      ensures patterns == [] && reporterNames == [] && preprocessorMap == map[]
    {
      basePath := "";
      files := [];
      exclude := [];
      urlRoot := "/";
      autoWatch := true;
      singleRun := false;
      reporters := ReporterList(["progress"]);
      preprocessors := DefaultPreprocessors;
      port := 9876;
      browsers := [];
      client := DefaultClient;
      patterns := [];
      reporterNames := [];
      preprocessorMap := map[];
    }

    /** `config.set(s)`: given scalars and arrays replace the old values;
        the preprocessor entries given are added after the old ones (a
        later entry for a pattern wins, see NormalizePreprocessorsLastWins),
        and the `client` keys given replace those keys only. */
    method Set(s: Settings)
      modifies this`basePath, this`files, this`exclude, this`urlRoot, this`autoWatch
      modifies this`singleRun, this`reporters, this`preprocessors, this`port, this`browsers, this`client
      ensures basePath == s.basePath.GetOr(old(basePath))
      ensures files == s.files.GetOr(old(files))
      ensures exclude == s.exclude.GetOr(old(exclude))
      ensures urlRoot == s.urlRoot.GetOr(old(urlRoot))
      ensures autoWatch == s.autoWatch.GetOr(old(autoWatch))
      ensures singleRun == s.singleRun.GetOr(old(singleRun))
      ensures reporters == s.reporters.GetOr(old(reporters))
      ensures preprocessors == old(preprocessors) + s.preprocessors.GetOr([])
      ensures port == s.port.GetOr(old(port))
      ensures browsers == s.browsers.GetOr(old(browsers))
      ensures client.args == s.client.args.GetOr(old(client).args)
      ensures client.useIframe == s.client.useIframe.GetOr(old(client).useIframe)
      ensures client.captureConsole == s.client.captureConsole.GetOr(old(client).captureConsole)
    {
      basePath := s.basePath.GetOr(basePath);
      files := s.files.GetOr(files);
      exclude := s.exclude.GetOr(exclude);
      urlRoot := s.urlRoot.GetOr(urlRoot);
      autoWatch := s.autoWatch.GetOr(autoWatch);
      singleRun := s.singleRun.GetOr(singleRun);
      reporters := s.reporters.GetOr(reporters);
      preprocessors := preprocessors + s.preprocessors.GetOr([]);
      port := s.port.GetOr(port);
      browsers := s.browsers.GetOr(browsers);
      client := Client(s.client.args.GetOr(client.args), s.client.useIframe.GetOr(client.useIframe),
                       s.client.captureConsole.GetOr(client.captureConsole));
    }

    /** `normalizeConfig(config, configFilePath)`, with `cwd` standing for
        the process's working directory. The base path is resolved against
        the configuration file's directory (or `cwd` without a file), the
        file's own path is appended to `exclude`, and patterns, excludes
        and preprocessor keys are resolved against the new base path. */
    method Normalize(configFilePath: Option<string>, cwd: string)
      modifies this`basePath, this`exclude, this`patterns, this`urlRoot, this`autoWatch
      modifies this`reporterNames, this`preprocessorMap
      ensures basePath == ResolvePath(if configFilePath.Some? then Dirname(configFilePath.value) else cwd, old(basePath))
      ensures exclude == ResolveAll(basePath, old(exclude) + (if configFilePath.Some? then [configFilePath.value] else []))
      ensures patterns == ResolvePatterns(basePath, files)
      ensures urlRoot == NormalizeUrlRoot(old(urlRoot))
      ensures autoWatch == (old(autoWatch) && !singleRun)
      ensures reporterNames == ReporterNames(reporters)
      ensures preprocessorMap == NormalizePreprocessors(basePath, preprocessors)
    {
      ResolveBase(configFilePath, cwd);
      ResolveFiles();
      NormalizeFlags();
      NormalizePreprocessorMap();
    }

    /** Patterns and excludes resolved against the base path. */
    method ResolveFiles()
      modifies this`patterns, this`exclude
      ensures patterns == ResolvePatterns(basePath, files)
      ensures exclude == ResolveAll(basePath, old(exclude))
    {
      patterns := ResolvePatterns(basePath, files);
      exclude := ResolveAll(basePath, exclude);
    }

    /** The `urlRoot`, `singleRun` and `reporters` rules. */
    method NormalizeFlags()
      modifies this`urlRoot, this`autoWatch, this`reporterNames
      ensures urlRoot == NormalizeUrlRoot(old(urlRoot))
      ensures autoWatch == (old(autoWatch) && !singleRun)
      ensures reporterNames == ReporterNames(reporters)
    {
      urlRoot := NormalizeUrlRoot(urlRoot);
      if singleRun && autoWatch {
        autoWatch := false;
      }
      reporterNames := ReporterNames(reporters);
    }

    /** The base path and the configuration file's exclusion. */
    method ResolveBase(configFilePath: Option<string>, cwd: string)
      modifies this`basePath, this`exclude
      ensures basePath == ResolvePath(if configFilePath.Some? then Dirname(configFilePath.value) else cwd, old(basePath))
      ensures exclude == old(exclude) + (if configFilePath.Some? then [configFilePath.value] else [])
    {
      if configFilePath.Some? {
        basePath := ResolvePath(Dirname(configFilePath.value), basePath);
        exclude := exclude + [configFilePath.value];
      } else {
        basePath := ResolvePath(cwd, basePath);
        assert exclude == exclude + [];
      }
    }

    /** The `Object.keys(preprocessors).forEach(...)` loop. */
    method NormalizePreprocessorMap()
      modifies this`preprocessorMap
      ensures preprocessorMap == NormalizePreprocessors(basePath, preprocessors)
    {
      var normalized: map<string, seq<string>> := map[];
      var i := 0;
      while i < |preprocessors|
        invariant 0 <= i <= |preprocessors|
        invariant normalized == NormalizePreprocessors(basePath, preprocessors[..i])
      {
        assert preprocessors[..i + 1][..i] == preprocessors[..i];
        normalized := normalized[BasePathResolve(basePath, preprocessors[i].0) := PreprocessorNames(preprocessors[i].1)];
        i := i + 1;
      }
      assert preprocessors[..i] == preprocessors;
      preprocessorMap := normalized;
    }
  }

  /** `parseConfig(configFilePath, cliOptions)`: defaults, then the
      configuration file's settings (when there is a file), then the
      command-line options, then `normalizeConfig`. Every setting is the
      layered value normalised; the `client` keys are layered one by one,
      so a default survives a partial `client` object. */
  method ParseConfig(configFilePath: Option<string>, fileSettings: Settings, cli: Settings, cwd: string)
    returns (c: Config)
    ensures fresh(c)
    ensures var f, file := configFilePath.Some?, fileSettings;
      && c.port == Layered(cli.port, file.port, f, 9876)
      && c.browsers == Layered(cli.browsers, file.browsers, f, [])
      && c.autoWatch == (Layered(cli.autoWatch, file.autoWatch, f, true) && !Layered(cli.singleRun, file.singleRun, f, false))
      && c.basePath == ResolvePath(if f then Dirname(configFilePath.value) else cwd, Layered(cli.basePath, file.basePath, f, ""))
      && c.patterns == ResolvePatterns(c.basePath, Layered(cli.files, file.files, f, []))
      && c.exclude == ResolveAll(c.basePath, Layered(cli.exclude, file.exclude, f, []) + (if f then [configFilePath.value] else []))
      && c.urlRoot == NormalizeUrlRoot(Layered(cli.urlRoot, file.urlRoot, f, "/"))
      && c.reporterNames == ReporterNames(Layered(cli.reporters, file.reporters, f, ReporterList(["progress"])))
      && c.preprocessorMap == NormalizePreprocessors(c.basePath,
           DefaultPreprocessors + (if f then file.preprocessors.GetOr([]) else []) + cli.preprocessors.GetOr([]))
      && c.client.args == Layered(cli.client.args, file.client.args, f, DefaultClient.args)
      && c.client.useIframe == Layered(cli.client.useIframe, file.client.useIframe, f, DefaultClient.useIframe)
      && c.client.captureConsole == Layered(cli.client.captureConsole, file.client.captureConsole, f, DefaultClient.captureConsole)
    ensures configFilePath.Some? ==> |c.exclude| > 0 && c.exclude[|c.exclude| - 1] == BasePathResolve(c.basePath, configFilePath.value)
  {
    c := new Config();
    if configFilePath.Some? {
      c.Set(fileSettings);
    } else {
      assert c.preprocessors == DefaultPreprocessors + [];
    }
    c.Set(cli);
    c.Normalize(configFilePath, cwd);
  }

  /** A command line that sets only some `client` keys keeps the defaults
      of the others. */
  method ClientDefaultsSurvive(args: seq<string>, cwd: string) returns (client: Client)
    ensures client == Client(args, DefaultClient.useIframe, DefaultClient.captureConsole)
  {
    var cli := NoSettings.(client := ClientSettings(Some(args), None, None));
    var c := ParseConfig(None, NoSettings, cli, cwd);
    client := c.client;
  }

  /** Preprocessors given by the file or the command line are merged with
      the defaults, so the default coffee preprocessor stays configured. */
  lemma DefaultPreprocessorKept(basePath: string, extra: seq<(string, Preprocessors)>)
    ensures BasePathResolve(basePath, "**/*.coffee") in NormalizePreprocessors(basePath, DefaultPreprocessors + extra)
  {
    var entries := DefaultPreprocessors + extra;
    assert entries[0].0 == "**/*.coffee";
    NormalizePreprocessorsKeys(basePath, entries, BasePathResolve(basePath, "**/*.coffee"));
  }
}
