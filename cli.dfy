/** The command line of `karma` (exercised by `test/unit/cli.spec.js`):
    splitting the arguments around `--`, and `processArgs`, which turns
    the options parsed by optimist into karma's option record. */
module Cli {
  import opened Wrappers
  import opened Strings
  import opened Helper
  import Config

  /** The first position of `--` in `args`. */
  function DoubleDash(args: seq<string>): (r: Option<nat>)
    ensures r.Some? ==> r.value < |args| && args[r.value] == "--" && "--" !in args[..r.value]
    ensures r.None? <==> "--" !in args
  {
    if args == [] then None
    else if args[0] == "--" then Some(0)
    else
      var r := DoubleDash(args[1..]);
      if r.None? then None
      else
        assert args[..r.value + 1] == [args[0]] + args[1..][..r.value];
        Some(r.value + 1)
  }

  /** `argsBeforeDoubleDash(argv)`: the arguments before the first `--`,
      all of them when there is none. */
  function ArgsBeforeDoubleDash(args: seq<string>): seq<string> {
    match DoubleDash(args)
    case None => args
    case Some(i) => args[..i]
  }

  /** The arguments after the first `--`, none when there is none. */
  function ArgsAfterDoubleDash(args: seq<string>): seq<string> {
    match DoubleDash(args)
    case None => []
    case Some(i) => args[i + 1..]
  }

  /** The arguments are exactly what comes before `--`, the `--` itself and
      what comes after; the part before holds no `--`. */
  lemma DoubleDashSplits(args: seq<string>)
    ensures "--" !in ArgsBeforeDoubleDash(args)
    ensures "--" in args ==> args == ArgsBeforeDoubleDash(args) + ["--"] + ArgsAfterDoubleDash(args)
    ensures "--" !in args ==> ArgsBeforeDoubleDash(args) == args && ArgsAfterDoubleDash(args) == []
  {
    match DoubleDash(args)
    case None =>
    case Some(i) =>
      assert args == args[..i] + [args[i]] + args[i + 1..];
  }

  /** `parseClientArgs(process.argv)`: past the interpreter and the script
      name, what follows the first `--` goes to the browsers. */
  function ParseClientArgs(argv: seq<string>): (r: seq<string>)
    ensures |argv| <= 2 ==> r == []
    ensures |argv| > 2 && "--" !in argv[2..] ==> r == []
    ensures |argv| > 2 && "--" in argv[2..] ==>
      exists pre :: "--" !in pre && argv[2..] == pre + ["--"] + r
  {
    var args := if |argv| <= 2 then [] else argv[2..];
    DoubleDashSplits(args);
    ArgsAfterDoubleDash(args)
  }

  /** A value as optimist hands it over: a string, a number or a flag. */
  datatype Arg = Str(s: string) | Num(n: int) | Bool(b: bool)

  /** A value of karma's option record. */
  datatype Opt = Text(text: string) | Number(number: int) | Flag(flag: bool) | List(items: seq<string>) | Null

  type Options = map<string, Opt>

  function OptOf(a: Arg): Opt {
    match a
    case Str(s) => Text(s)
    case Num(n) => Number(n)
    case Bool(b) => Flag(b)
  }

  /** Copies the parsed options into `options` under their camel-case
      names, in the order optimist lists them; an option given several
      times keeps its last value. */
  function CopyArgs(argv: seq<(string, seq<Arg>)>, options: Options): (r: Options)
    decreases |argv|
  {
    if argv == [] then options
    else
      var (name, values) := argv[|argv| - 1];
      var o := CopyArgs(argv[..|argv| - 1], options);
      if values == [] then o else o[DashToCamel(name) := OptOf(values[|values| - 1])]
  }

  /** Whether the entry `(name, values)` sets the option `key`. */
  predicate Sets(entry: (string, seq<Arg>), key: string) {
    entry.1 != [] && DashToCamel(entry.0) == key
  }

  /** The last entry of `argv` that sets `key`. */
  function LastSetting(argv: seq<(string, seq<Arg>)>, key: string): (r: Option<nat>)
    ensures r.Some? ==> (r.value < |argv| && Sets(argv[r.value], key)
      && forall j :: r.value < j < |argv| ==> !Sets(argv[j], key))
    ensures r.None? ==> forall j :: 0 <= j < |argv| ==> !Sets(argv[j], key)
    decreases |argv|
  {
    if argv == [] then None
    else if Sets(argv[|argv| - 1], key) then Some(|argv| - 1)
    else
      var init := argv[..|argv| - 1];
      assert forall j :: 0 <= j < |init| ==> init[j] == argv[j];
      LastSetting(init, key)
  }

  /** An option set in `argv` holds the last value of the last entry that
      sets it; any other key keeps what `options` gave it. */
  lemma {:induction false} CopyArgsLastWins(argv: seq<(string, seq<Arg>)>, options: Options, key: string)
    ensures LastSetting(argv, key).Some? ==> (key in CopyArgs(argv, options)
      && var vs := argv[LastSetting(argv, key).value].1; CopyArgs(argv, options)[key] == OptOf(vs[|vs| - 1]))
    ensures LastSetting(argv, key).None? ==> ((key in CopyArgs(argv, options) <==> key in options)
      && (key in options ==> CopyArgs(argv, options)[key] == options[key]))
    decreases |argv|
  {
    if argv != [] && !Sets(argv[|argv| - 1], key) {
      CopyArgsLastWins(argv[..|argv| - 1], options, key);
    }
  }

  /** The options read as flags: `'true'` is true, any other text false. */
  const FlagOptions: set<string> := {"autoWatch", "colors", "singleRun", "refresh"}

  /** The options given as comma-separated lists. */
  const ListOptions: set<string> := {"browsers", "reporters", "removedFiles", "addedFiles", "changedFiles"}

  /** The log level names karma knows, and the constants they stand for
      (`LOG_DISABLE` is `OFF`). */
  function LogConstant(name: string): Option<string> {
    var n := ToUpper(name);
    if n == "DISABLE" then Some("OFF")
    else if n in ["ERROR", "WARN", "INFO", "DEBUG"] then Some(n)
    else None
  }

  /** The config file karma looks for, given which files exist in the
      working directory. */
  function DefaultConfigFile(exists_: string -> bool): Option<string> {
    if exists_("./karma.conf.js") then Some("./karma.conf.js")
    else if exists_("./karma.conf.coffee") then Some("./karma.conf.coffee")
    else None
  }

  /** The value `processArgs` leaves under `key`, once the log level is
      known to be valid. Each rule of the source touches its own key only,
      so the rules are applied key by key. */
  function Normalise(key: string, v: Opt): Opt {
    if key in FlagOptions && v.Text? then Flag(v.text == "true")
    else if key in ListOptions && v.Text? then List(Split(v.text, ","))
    else if key == "logLevel" && v.Text? && LogConstant(v.text).Some? then Text(LogConstant(v.text).value)
    else if key == "reportSlowerThan" && v == Flag(false) then Number(0)
    else v
  }

  /** Whether the log level, when there is one, is a text karma knows. */
  predicate ValidLogLevel(o: Options) {
    "logLevel" in o ==> o["logLevel"].Text? && LogConstant(o["logLevel"].text).Some?
  }

  /** `processArgs(argv, options, fs, path)`: the named options of `argv`
      are copied over `options`, then normalised; the first positional
      argument, or else the default file that exists, names the config
      file, resolved against `cwd`. An unknown or missing log level ends
      the process with status 1. */
  function ProcessArgs(argv: seq<(string, seq<Arg>)>, positional: seq<string>, options: Options,
                       exists_: string -> bool, cwd: string): (r: Result<Options, nat>)
    ensures r.Err? <==> !ValidLogLevel(CopyArgs(argv, options))
    ensures r.Err? ==> r.error == 1
    ensures r.Ok? ==> "configFile" in r.value && r.value.Keys == CopyArgs(argv, options).Keys + {"configFile"}
    ensures r.Ok? ==> forall k :: k in CopyArgs(argv, options) && k != "configFile" ==>
      r.value[k] == Normalise(k, CopyArgs(argv, options)[k])
  {
    var o := CopyArgs(argv, options);
    if !ValidLogLevel(o) then Err(1)
    else
      var file := if positional != [] && positional[0] != "" then Some(positional[0]) else DefaultConfigFile(exists_);
      var n := map k | k in o :: Normalise(k, o[k]);
      Ok(n["configFile" := if file.Some? then Text(Config.ResolvePath(cwd, file.value)) else Null])
  }

  /** The config file is the first positional argument, or else the first
      default file that exists, resolved to an absolute path; with neither
      it is `null`. */
  lemma ProcessArgsConfigFile(argv: seq<(string, seq<Arg>)>, positional: seq<string>, options: Options,
                              exists_: string -> bool, cwd: string)
    requires StartsWith(cwd, "/")
    requires ProcessArgs(argv, positional, options, exists_, cwd).Ok?
    ensures var f := ProcessArgs(argv, positional, options, exists_, cwd).value["configFile"];
      && (positional != [] && positional[0] != "" ==> f == Text(Config.ResolvePath(cwd, positional[0])))
      && (positional == [] && exists_("./karma.conf.js") ==> f == Text(Config.ResolvePath(cwd, "./karma.conf.js")))
      && (positional == [] && !exists_("./karma.conf.js") && exists_("./karma.conf.coffee") ==>
            f == Text(Config.ResolvePath(cwd, "./karma.conf.coffee")))
      && (positional == [] && !exists_("./karma.conf.js") && !exists_("./karma.conf.coffee") ==> f == Null)
      && (f.Null? || StartsWith(f.text, "/"))
  {
  }

  /** The value the command line gives `key`: the last value of the last
      entry that sets it. */
  function LastValue(argv: seq<(string, seq<Arg>)>, key: string): (r: Option<Arg>)
    ensures r.Some? <==> LastSetting(argv, key).Some?
  {
    match LastSetting(argv, key)
    case None => None
    case Some(j) => Some(argv[j].1[|argv[j].1| - 1])
  }

  /** What `processArgs` makes of an option the command line sets, stated on
      the value given last: a flag is true exactly for the text `true`, and
      a `--no-` flag is false; a list splits into comma-free items that join
      back into the text; the log level becomes one of karma's five
      constants; `--no-report-slower-than` becomes 0; any other option takes
      the value as given. */
  lemma ProcessArgsOption(argv: seq<(string, seq<Arg>)>, positional: seq<string>, options: Options,
                          exists_: string -> bool, cwd: string, key: string)
    requires ProcessArgs(argv, positional, options, exists_, cwd).Ok?
    requires key != "configFile" && LastValue(argv, key).Some?
    ensures var o := ProcessArgs(argv, positional, options, exists_, cwd).value;
      var v := LastValue(argv, key).value;
      && key in o
      && (key in FlagOptions && v.Str? ==> o[key] == Flag(v.s == "true"))
      && (key in FlagOptions && v.Bool? ==> o[key] == Flag(v.b))
      && (key in ListOptions && v.Str? ==> (o[key].List? && Join(o[key].items, ",") == v.s
            && forall k :: 0 <= k < |o[key].items| ==> !Contains(o[key].items[k], ",")))
      && (key == "logLevel" ==> (v.Str? && LogConstant(v.s).Some? && o[key] == Text(LogConstant(v.s).value)
            && o[key].text in ["OFF", "ERROR", "WARN", "INFO", "DEBUG"]))
      && (key == "reportSlowerThan" ==> o[key] == (if v == Bool(false) then Number(0) else OptOf(v)))
      && (key !in FlagOptions && key !in ListOptions && key != "logLevel" && key != "reportSlowerThan" ==>
            o[key] == OptOf(v))
  {
    ProcessArgsValue(argv, positional, options, exists_, cwd, key);
    var o := ProcessArgs(argv, positional, options, exists_, cwd).value;
    var v := LastValue(argv, key).value;
    assert o[key] == Normalise(key, OptOf(v));
    SpecialKeysDistinct();
    if key in FlagOptions {
      assert key !in ListOptions && key != "logLevel" && key != "reportSlowerThan";
    } else if key in ListOptions {
      assert key != "logLevel" && key != "reportSlowerThan";
      if v.Str? {
        assert o[key] == List(Split(v.s, ","));
        JoinSplit(v.s, ",");
        SplitPartsFree(v.s, ",");
      }
    } else if key == "logLevel" {
      LogConstantAnyCase(v.s);
    }
  }

  lemma ProcessArgsValue(argv: seq<(string, seq<Arg>)>, positional: seq<string>, options: Options,
                         exists_: string -> bool, cwd: string, key: string)
    requires ProcessArgs(argv, positional, options, exists_, cwd).Ok?
    requires key != "configFile" && LastValue(argv, key).Some?
    ensures var o := ProcessArgs(argv, positional, options, exists_, cwd).value;
      key in o && o[key] == Normalise(key, OptOf(LastValue(argv, key).value))
      && (key == "logLevel" ==>
            LastValue(argv, key).value.Str? && LogConstant(LastValue(argv, key).value.s).Some?)
  {
    var c := CopyArgs(argv, options);
    var v := LastValue(argv, key).value;
    CopiedLastValue(argv, options, key);
    assert ValidLogLevel(c);
    if key == "logLevel" {
      assert OptOf(v).Text?;
    }
  }

  /** The value `CopyArgs` keeps for a key the command line sets. */
  lemma CopiedLastValue(argv: seq<(string, seq<Arg>)>, options: Options, key: string)
    requires LastValue(argv, key).Some?
    ensures key in CopyArgs(argv, options) && CopyArgs(argv, options)[key] == OptOf(LastValue(argv, key).value)
  {
    CopyArgsLastWins(argv, options, key);
  }

  /** The option names the rules single out are distinct from each other. */
  lemma SpecialKeysDistinct()
    ensures "logLevel" !in ListOptions && "logLevel" !in FlagOptions
    ensures "reportSlowerThan" !in ListOptions && "reportSlowerThan" !in FlagOptions
    ensures FlagOptions !! ListOptions
  {
    assert "logLevel" !in ListOptions && "logLevel" !in FlagOptions by {
      assert "logLevel"[0] != "autoWatch"[0] && "logLevel"[0] != "colors"[0];
      assert "logLevel"[0] != "singleRun"[0] && "logLevel"[0] != "refresh"[0];
      assert "logLevel"[0] != "browsers"[0] && "logLevel"[0] != "reporters"[0];
      assert "logLevel"[0] != "removedFiles"[0] && "logLevel"[0] != "addedFiles"[0];
      assert "logLevel"[0] != "changedFiles"[0];
    }
    assert "reportSlowerThan" !in ListOptions && "reportSlowerThan" !in FlagOptions by {
      assert "reportSlowerThan"[6] != "reporters"[6] && "reportSlowerThan"[2] != "refresh"[2];
      assert "reportSlowerThan"[0] != "autoWatch"[0] && "reportSlowerThan"[0] != "colors"[0];
      assert "reportSlowerThan"[0] != "singleRun"[0] && "reportSlowerThan"[0] != "browsers"[0];
      assert "reportSlowerThan"[0] != "addedFiles"[0] && "reportSlowerThan"[0] != "changedFiles"[0];
    }
    assert "removedFiles"[2] != "refresh"[2] && "reporters"[2] != "refresh"[2];
    assert "autoWatch"[0] != "browsers"[0] && "autoWatch"[0] != "reporters"[0];
    assert "autoWatch"[0] != "removedFiles"[0] && "autoWatch"[1] != "addedFiles"[1] && "autoWatch"[0] != "changedFiles"[0];
    assert "colors"[0] != "browsers"[0] && "colors"[0] != "reporters"[0];
    assert "colors"[0] != "removedFiles"[0] && "colors"[0] != "addedFiles"[0] && "colors"[1] != "changedFiles"[1];
    assert "singleRun"[0] != "browsers"[0] && "singleRun"[0] != "reporters"[0];
    assert "singleRun"[0] != "removedFiles"[0] && "singleRun"[0] != "addedFiles"[0] && "singleRun"[0] != "changedFiles"[0];
    assert "refresh"[0] != "browsers"[0] && "refresh"[0] != "addedFiles"[0] && "refresh"[0] != "changedFiles"[0];
  }

  /** The log level is recognised whatever its case. */
  lemma LogConstantAnyCase(name: string)
    ensures LogConstant(name) == LogConstant(ToUpper(name))
    ensures LogConstant(name).Some? ==> LogConstant(name).value in ["OFF", "ERROR", "WARN", "INFO", "DEBUG"]
  {
    var u := ToUpper(name);
    assert ToUpper(u) == u by {
      assert forall k :: 0 <= k < |u| ==> ToUpper(u)[k] == u[k];
    }
  }

  /** `--port 12 --port 34`: the last value wins. */
  lemma ProcessArgsExample(exists_: string -> bool)
    ensures var r := ProcessArgs([("port", [Num(12), Num(34)])], ["some.conf"], map[], exists_, "/");
      r.Ok? && "port" in r.value && r.value["port"] == Number(34)
      && r.value["configFile"] == Text("/some.conf")
  {
    var argv := [("port", [Num(12), Num(34)])];
    CopyPortTwice();
    assert "port"[0] != "logLevel"[0] && "port"[0] != "configFile"[0];
    assert ValidLogLevel(CopyArgs(argv, map[]));
    ProcessArgsConfigFile(argv, ["some.conf"], map[], exists_, "/");
    ResolveSomeConf();
  }

  lemma ResolveSomeConf()
    ensures Config.ResolvePath("/", "some.conf") == "/some.conf"
  {
    var p := "some.conf";
    assert p[0] != '/' && p[0] != '.';
    assert !StartsWith(p, "/") && !StartsWith(p, "./") && p != "" && p != ".";
    assert EndsWith("/", "/");
    assert Config.JoinPath("/", p) == "/" + p;
  }

  lemma CopyPortTwice()
    ensures CopyArgs([("port", [Num(12), Num(34)])], map[]) == map["port" := Number(34)]
  {
    assert DashToCamel("port") == "port";
  }
}
