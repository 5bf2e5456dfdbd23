/** The JavaScript formatter of `karma init` (exercised by
    `test/unit/init/formatters.spec.js`): the answers of the
    questionnaire become the replacement strings of the config-file
    template, one per placeholder. */
module Formatters {
  import opened Strings

  /** The answers the formatter reads. Preprocessors are an object from
      pattern to preprocessor names, kept in the order of its keys. */
  datatype Answers = Answers(
    frameworks: seq<string>,
    files: seq<string>,
    onlyServedFiles: seq<string>,
    browsers: seq<string>,
    autoWatch: bool,
    preprocessors: seq<(string, seq<string>)>)

  /** The replacement of each template placeholder. */
  datatype Replacements = Replacements(
    frameworks: string,
    files: string,
    autoWatch: string,
    browsers: string,
    preprocessors: string)

  /** A JavaScript string literal in single quotes. */
  function Quote(s: string): (r: string)
    ensures |r| == |s| + 2 && r[0] == '\'' && r[|r| - 1] == '\'' && r[1..|r| - 1] == s
  {
    "'" + s + "'"
  }

  function Quotes(items: seq<string>): (r: seq<string>)
    ensures |r| == |items| && forall i :: 0 <= i < |items| ==> r[i] == Quote(items[i])
  {
    if items == [] then [] else [Quote(items[0])] + Quotes(items[1..])
  }

  /** `formatLine`: the names, quoted, on one line separated by `, `. */
  function FormatLine(items: seq<string>): string {
    Join(Quotes(items), ", ")
  }

  /** The indentation of an entry of an array or object in the template. */
  const Indent: string := "      "

  function FileLine(pattern: string): string {
    Indent + Quote(pattern)
  }

  function ServedLine(pattern: string): string {
    Indent + "{pattern: " + Quote(pattern) + ", included: false}"
  }

  /** The entries of the `files` array: the included patterns, then the
      patterns that are only served. */
  function FileLines(files: seq<string>, served: seq<string>): (r: seq<string>)
    ensures |r| == |files| + |served|
    ensures forall i :: 0 <= i < |files| ==> r[i] == FileLine(files[i])
    ensures forall i :: 0 <= i < |served| ==> r[|files| + i] == ServedLine(served[i])
  {
    if files != [] then [FileLine(files[0])] + FileLines(files[1..], served)
    else if served != [] then [ServedLine(served[0])] + FileLines([], served[1..])
    else []
  }

  /** Each line put on a line of its own. */
  function OnNewLines(lines: seq<string>): (r: seq<string>)
    ensures |r| == |lines|
  {
    if lines == [] then [] else ["\n" + lines[0]] + OnNewLines(lines[1..])
  }

  /** `formatFiles`: every entry on a new line, the entries separated by
      commas; nothing at all when there are no entries. */
  function FormatFiles(files: seq<string>, served: seq<string>): string {
    Join(OnNewLines(FileLines(files, served)), ",")
  }

  /** The entries of the `preprocessors` object: a quoted pattern and the
      array of its preprocessor names. */
  function PreprocessorLines(pre: seq<(string, seq<string>)>): (r: seq<string>)
    ensures |r| == |pre|
    ensures forall i :: 0 <= i < |pre| ==> r[i] == Indent + Quote(pre[i].0) + ": [" + FormatLine(pre[i].1) + "]"
  {
    if pre == [] then []
    else
      var line := Indent + Quote(pre[0].0) + ": [" + FormatLine(pre[0].1) + "]";
      [line] + PreprocessorLines(pre[1..])
  }

  /** `formatPreprocessors`: an object literal whose entries are on lines
      of their own and whose closing brace is indented to the enclosing
      key. */
  function FormatPreprocessors(pre: seq<(string, seq<string>)>): string {
    "{" + Join(OnNewLines(PreprocessorLines(pre)), ",") + "\n    }"
  }

  function FormatBool(b: bool): (r: string)
    ensures r == "true" <==> b
    ensures r == "true" || r == "false"
  {
    if b then "true" else "false"
  }

  /** `formatAnswers`: the replacement of each placeholder. A list is
      empty exactly when there is nothing to put in it, and `autoWatch`
      is written as the literal `true` exactly when it is set. */
  function FormatAnswers(a: Answers): (r: Replacements)
    ensures r.frameworks == "" <==> a.frameworks == []
    ensures r.browsers == "" <==> a.browsers == []
    ensures r.files == "" <==> a.files == [] && a.onlyServedFiles == []
    ensures r.autoWatch == "true" <==> a.autoWatch
  {
    FormatLineEmpty(a.frameworks);
    FormatLineEmpty(a.browsers);
    FormatFilesEmpty(a.files, a.onlyServedFiles);
    Replacements(
      FormatLine(a.frameworks),
      FormatFiles(a.files, a.onlyServedFiles),
      FormatBool(a.autoWatch),
      FormatLine(a.browsers),
      FormatPreprocessors(a.preprocessors))
  }

  /** The lines ended by a comma, all but the last. */
  function Commas(lines: seq<string>): (r: seq<string>)
    ensures |r| == |lines|
  {
    if |lines| <= 1 then lines else [lines[0] + ","] + Commas(lines[1..])
  }

  /** Comma-joining lines that each start a new line is the same as
      putting the comma-ended lines on lines of their own. */
  lemma {:induction false} JoinOnNewLines(lines: seq<string>)
    requires lines != []
    ensures Join(OnNewLines(lines), ",") == "\n" + Join(Commas(lines), "\n")
  {
    var n := OnNewLines(lines);
    var c := Commas(lines);
    if |lines| == 1 {
      assert Join(n, ",") == n[0];
      assert Join(c, "\n") == c[0];
    } else {
      var rest := lines[1..];
      JoinOnNewLines(rest);
      assert n[1..] == OnNewLines(rest);
      assert c[1..] == Commas(rest);
      var j := Join(Commas(rest), "\n");
      assert Join(n, ",") == n[0] + "," + Join(n[1..], ",");
      assert Join(c, "\n") == c[0] + "\n" + Join(c[1..], "\n");
      assert Join(n, ",") == "\n" + lines[0] + "," + ("\n" + j);
      assert Join(c, "\n") == lines[0] + "," + "\n" + j;
    }
  }

  /** Every line but the last gets a comma; the last is kept as it is. */
  lemma {:induction false} CommasShape(lines: seq<string>)
    ensures forall i :: 0 <= i < |lines| - 1 ==> Commas(lines)[i] == lines[i] + ","
    ensures lines != [] ==> Commas(lines)[|lines| - 1] == lines[|lines| - 1]
  {
    if |lines| > 1 {
      CommasShape(lines[1..]);
      var c := Commas(lines);
      assert c[1..] == Commas(lines[1..]);
      forall i | 1 <= i < |lines| ensures c[i] == Commas(lines[1..])[i - 1] {
      }
    }
  }

  /** No comma-ended line holds a character its line does not hold. */
  lemma {:induction false} CommasFree(lines: seq<string>, ch: char)
    requires ch != ',' && forall i :: 0 <= i < |lines| ==> ch !in lines[i]
    ensures forall k :: 0 <= k < |Commas(lines)| ==> ch !in Commas(lines)[k]
  {
    if |lines| > 1 {
      CommasFree(lines[1..], ch);
      var c := Commas(lines);
      assert c == [lines[0] + ","] + Commas(lines[1..]);
      assert ch !in lines[0] + ",";
    }
  }

  /** Splitting comma-joined new lines at line breaks gives an empty first
      line and then the comma-ended lines. */
  lemma SplitOnNewLines(lines: seq<string>)
    requires lines != [] && forall i :: 0 <= i < |lines| ==> '\n' !in lines[i]
    ensures Split(Join(OnNewLines(lines), ","), "\n") == [""] + Commas(lines)
  {
    JoinOnNewLines(lines);
    var parts := Commas(lines);
    CommasFree(lines, '\n');
    SplitJoin(parts, "\n");
    var j := Join(parts, "\n");
    SplitCons("", "\n", j);
    assert "" + "\n" + j == "\n" + j;
  }

  /** The same, with an opening line before and a last line after. */
  lemma SplitBracketed(first: string, lines: seq<string>, last: string)
    requires lines != [] && forall i :: 0 <= i < |lines| ==> '\n' !in lines[i]
    requires '\n' !in first && '\n' !in last
    ensures Split(first + Join(OnNewLines(lines), ",") + "\n" + last, "\n") == [first] + Commas(lines) + [last]
  {
    var body := Join(OnNewLines(lines), ",");
    var c := Commas(lines);
    var tail := Join(c, "\n") + "\n" + last;
    JoinOnNewLines(lines);
    CommasFree(lines, '\n');
    SplitLast(c, last);
    SplitCons(first, "\n", tail);
    assert body == "\n" + Join(c, "\n");
    Assoc(first, Join(c, "\n"), last);
  }

  lemma Assoc(first: string, j: string, last: string)
    ensures first + ("\n" + j) + "\n" + last == first + "\n" + (j + "\n" + last)
  {
  }

  /** Lines joined by line breaks, and one more, split back into the lines. */
  lemma SplitLast(c: seq<string>, last: string)
    requires c != [] && '\n' !in last && forall k :: 0 <= k < |c| ==> '\n' !in c[k]
    ensures Split(Join(c, "\n") + "\n" + last, "\n") == c + [last]
  {
    var parts := c + [last];
    forall k | 0 <= k < |parts| ensures '\n' !in parts[k] {
      if k < |c| {
        assert parts[k] == c[k];
      }
    }
    JoinAppend(c, "\n", last);
    SplitJoin(parts, "\n");
  }

  lemma {:induction false} JoinAppend(parts: seq<string>, sep: string, last: string)
    requires parts != []
    ensures Join(parts + [last], sep) == Join(parts, sep) + sep + last
  {
    if |parts| > 1 {
      JoinAppend(parts[1..], sep, last);
      assert (parts + [last])[1..] == parts[1..] + [last];
    }
  }

  /** FRAMEWORKS and BROWSERS: splitting the line at `, ` gives back the
      names, each in quotes, when no name holds a comma. */
  lemma FormatLineItems(items: seq<string>)
    requires items != [] && forall i :: 0 <= i < |items| ==> ',' !in items[i]
    ensures Split(FormatLine(items), ", ") == Quotes(items)
    ensures forall i :: 0 <= i < |items| ==> Quotes(items)[i][1..|items[i]| + 1] == items[i]
  {
    var q := Quotes(items);
    forall k | 0 <= k < |q| ensures ", "[0] !in q[k] {
      assert q[k] == "'" + items[k] + "'";
    }
    SplitJoin(q, ", ");
  }

  /** A line of names is empty exactly when there are no names. */
  lemma FormatLineEmpty(items: seq<string>)
    ensures FormatLine(items) == "" <==> items == []
  {
    var q := Quotes(items);
    if |q| > 1 {
      assert |Join(q, ", ")| >= |q[0]|;
    } else if |q| == 1 {
      assert Join(q, ", ") == q[0];
    }
  }

  /** FILES is empty exactly when there is nothing to list. */
  lemma FormatFilesEmpty(files: seq<string>, served: seq<string>)
    ensures FormatFiles(files, served) == "" <==> files == [] && served == []
  {
    var lines := FileLines(files, served);
    if lines != [] {
      JoinOnNewLines(lines);
    }
  }

  /** FILES otherwise puts each entry on a line of its own, in order: the
      included patterns quoted, then the served-only patterns as pattern
      objects that are not included, every line but the last ended by a
      comma. */
  lemma FormatFilesLines(files: seq<string>, served: seq<string>)
    requires files != [] || served != []
    requires forall i :: 0 <= i < |files| ==> '\n' !in files[i]
    requires forall i :: 0 <= i < |served| ==> '\n' !in served[i]
    ensures Split(FormatFiles(files, served), "\n") == [""] + Commas(FileLines(files, served))
  {
    var lines := FileLines(files, served);
    forall k | 0 <= k < |lines| ensures '\n' !in lines[k] {
      if k < |files| {
        FileLineFree(files[k]);
      } else {
        ServedLineFree(served[k - |files|]);
      }
    }
    SplitOnNewLines(lines);
  }

  lemma FileLineFree(p: string)
    requires '\n' !in p
    ensures '\n' !in FileLine(p)
  {
    assert FileLine(p) == Indent + ("'" + p + "'");
  }

  lemma ServedLineFree(p: string)
    requires '\n' !in p
    ensures '\n' !in ServedLine(p)
  {
    var a := Indent + "{pattern: ";
    var b := ", included: false}";
    assert ServedLine(p) == a + ("'" + p + "'") + b;
  }

  /** PREPROCESSORS is an object literal: an opening brace, one line per
      pattern, every line but the last ended by a comma, and the indented
      closing brace. */
  lemma FormatPreprocessorsLines(pre: seq<(string, seq<string>)>)
    requires pre != []
    requires forall i :: 0 <= i < |pre| ==> '\n' !in pre[i].0
    requires forall i, j :: 0 <= i < |pre| && 0 <= j < |pre[i].1| ==> '\n' !in pre[i].1[j]
    ensures Split(FormatPreprocessors(pre), "\n") == ["{"] + Commas(PreprocessorLines(pre)) + ["    }"]
  {
    var lines := PreprocessorLines(pre);
    PreprocessorLinesFree(pre);
    SplitBracketed("{", lines, "    }");
    assert FormatPreprocessors(pre) == "{" + Join(OnNewLines(lines), ",") + "\n" + "    }";
  }

  /** No entry line holds a line break its pattern and names do not hold. */
  lemma PreprocessorLinesFree(pre: seq<(string, seq<string>)>)
    requires forall i :: 0 <= i < |pre| ==> '\n' !in pre[i].0
    requires forall i, j :: 0 <= i < |pre| && 0 <= j < |pre[i].1| ==> '\n' !in pre[i].1[j]
    ensures forall k :: 0 <= k < |PreprocessorLines(pre)| ==> '\n' !in PreprocessorLines(pre)[k]
  {
    var lines := PreprocessorLines(pre);
    forall k | 0 <= k < |lines| ensures '\n' !in lines[k] {
      FormatLineFree(pre[k].1);
      PreprocessorLineFree(pre[k].0, FormatLine(pre[k].1));
    }
  }

  lemma PreprocessorLineFree(pattern: string, names: string)
    requires '\n' !in pattern && '\n' !in names
    ensures '\n' !in Indent + Quote(pattern) + ": [" + names + "]"
  {
    assert Indent + Quote(pattern) + ": [" + names + "]" == (Indent + ("'" + pattern + "'")) + (": [" + names + "]");
  }

  /** A line of names holds no line break its names do not hold. */
  lemma {:induction false} FormatLineFree(items: seq<string>)
    requires forall j :: 0 <= j < |items| ==> '\n' !in items[j]
    ensures '\n' !in FormatLine(items)
  {
    var q := Quotes(items);
    forall k | 0 <= k < |q| ensures '\n' !in q[k] {
      assert q[k] == "'" + items[k] + "'";
    }
    JoinFree(q, ", ", '\n');
  }

  lemma {:induction false} JoinFree(parts: seq<string>, sep: string, c: char)
    requires c !in sep && forall k :: 0 <= k < |parts| ==> c !in parts[k]
    ensures c !in Join(parts, sep)
  {
    if |parts| > 1 {
      JoinFree(parts[1..], sep, c);
    }
  }

  lemma LineOfTwo(a: string, b: string)
    ensures FormatLine([a, b]) == Quote(a) + ", " + Quote(b)
  {
    assert [a, b][1..] == [b];
    var q := Quotes([a, b]);
    assert q == [Quote(a), Quote(b)];
    assert q[1..] == [Quote(b)];
    assert Join(q[1..], ", ") == Quote(b);
    assert Join(q, ", ") == q[0] + ", " + Join(q[1..], ", ");
  }

  lemma FilesOfTwo(a: string, b: string)
    ensures FormatFiles([a, b], []) == "\n" + FileLine(a) + "," + "\n" + FileLine(b)
  {
    assert [a, b][1..] == [b];
    assert FileLines([a, b], []) == [FileLine(a), FileLine(b)];
    var n := OnNewLines([FileLine(a), FileLine(b)]);
    assert [FileLine(a), FileLine(b)][1..] == [FileLine(b)];
    assert OnNewLines([FileLine(b)]) == ["\n" + FileLine(b)] by {
      assert [FileLine(b)][1..] == [];
    }
    assert n == ["\n" + FileLine(a), "\n" + FileLine(b)];
    assert n[1..] == ["\n" + FileLine(b)];
    assert Join(n[1..], ",") == "\n" + FileLine(b);
    assert Join(n, ",") == n[0] + "," + Join(n[1..], ",");
  }

  lemma FilesAndServed(a: string, b: string)
    ensures FormatFiles([a], [b]) == "\n" + FileLine(a) + "," + "\n" + ServedLine(b)
  {
    assert FileLines([a], [b]) == [FileLine(a), ServedLine(b)];
    var n := OnNewLines([FileLine(a), ServedLine(b)]);
    assert [FileLine(a), ServedLine(b)][1..] == [ServedLine(b)];
    assert OnNewLines([ServedLine(b)]) == ["\n" + ServedLine(b)] by {
      assert [ServedLine(b)][1..] == [];
    }
    assert n == ["\n" + FileLine(a), "\n" + ServedLine(b)];
    assert n[1..] == ["\n" + ServedLine(b)];
    assert Join(n[1..], ",") == "\n" + ServedLine(b);
    assert Join(n, ",") == n[0] + "," + Join(n[1..], ",");
  }

  lemma PreprocessorOfOne(pattern: string, name: string)
    ensures FormatPreprocessors([(pattern, [name])])
      == "{" + "\n" + Indent + Quote(pattern) + ": [" + Quote(name) + "]" + "\n    }"
  {
    var line := Indent + Quote(pattern) + ": [" + FormatLine([name]) + "]";
    assert PreprocessorLines([(pattern, [name])]) == [line];
    assert OnNewLines([line]) == ["\n" + line];
  }

  /** The answers of the tests and the replacements they expect. */
  lemma FrameworksExample()
    ensures FormatLine(["jasmine", "requirejs"]) == "'jasmine', 'requirejs'"
  {
    LineOfTwo("jasmine", "requirejs");
  }
}
