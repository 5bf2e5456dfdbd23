/** The name-casing rules of karma's `lib/helper.js` that the event
    binding and the command line rely on: `camelToSnake` (an event
    handler `onRunComplete` listens to `run_complete`) and `dashToCamel`
    (the option `--single-run` becomes `singleRun`). */
module Helper {
  import opened Strings

  /** A character `\w` matches. */
  predicate IsWordChar(c: char) {
    IsUpper(c) || IsLower(c) || ('0' <= c <= '9') || c == '_'
  }

  /** `str.replace(/-(\w)/g, (m, l) => l.toUpperCase())`: a dash followed
      by a word character is dropped and the character upper-cased; the
      scan resumes after the pair. */
  function DashToCamel(s: string): (r: string)
    ensures |r| <= |s|
    ensures '-' !in s ==> r == s
    decreases |s|
  {
    if |s| >= 2 && s[0] == '-' && IsWordChar(s[1]) then [ToUpperChar(s[1])] + DashToCamel(s[2..])
    else if s == [] then []
    else [s[0]] + DashToCamel(s[1..])
  }

  /** `str.replace(/[A-Z]/g, (m, pos) => (pos > 0 ? '_' : '') + m.toLowerCase())`:
      every capital is lower-cased, and preceded by `_` unless it is the
      first character. */
  function CamelToSnake(s: string): (r: string)
    ensures forall k :: 0 <= k < |r| ==> !IsUpper(r[k])
    ensures (forall k :: 0 <= k < |s| ==> !IsUpper(s[k])) ==> r == s
  {
    if s == [] then [] else [ToLowerChar(s[0])] + SnakeTail(s[1..])
  }

  /** `CamelToSnake` past the first character. */
  function SnakeTail(s: string): (r: string)
    ensures forall k :: 0 <= k < |r| ==> !IsUpper(r[k])
    ensures (forall k :: 0 <= k < |s| ==> !IsUpper(s[k])) ==> r == s
  {
    if s == [] then []
    else (if IsUpper(s[0]) then ['_', ToLowerChar(s[0])] else [s[0]]) + SnakeTail(s[1..])
  }

  /** A dashed option name: lower-case words separated by single dashes. */
  predicate DashedName(s: string) {
    |s| > 0 && IsLower(s[0]) && DashedTail(s)
  }

  /** Lower-case letters and dashes, each dash followed by a letter. */
  predicate DashedTail(s: string) {
    forall k :: 0 <= k < |s| ==> DashedAt(s, k)
  }

  predicate DashedAt(s: string, k: nat)
    requires k < |s|
  {
    IsLower(s[k]) || (s[k] == '-' && k + 1 < |s| && IsLower(s[k + 1]))
  }

  /** The dashes of `s` written as underscores. */
  function Underscored(s: string): (r: string)
    ensures |r| == |s|
    ensures forall k :: 0 <= k < |s| ==> r[k] == (if s[k] == '-' then '_' else s[k])
  {
    if s == [] then [] else [if s[0] == '-' then '_' else s[0]] + Underscored(s[1..])
  }

  /** An option given on the command line as `--run-complete` is camel-cased
      to a name whose snake case is the event `run_complete`. */
  lemma DashedToSnake(s: string)
    requires DashedName(s)
    ensures CamelToSnake(DashToCamel(s)) == Underscored(s)
  {
    assert s == [s[0]] + s[1..];
    assert DashToCamel(s) == [s[0]] + DashToCamel(s[1..]);
    DashedSuffix(s, 1);
    DashedTailToSnake(s[1..]);
  }

  lemma DashedSuffix(t: string, n: nat)
    requires DashedTail(t) && n <= |t|
    ensures DashedTail(t[n..])
  {
    forall k | 0 <= k < |t[n..]| ensures DashedAt(t[n..], k) {
      assert DashedAt(t, k + n);
    }
  }

  lemma {:induction false} DashedTailToSnake(t: string)
    requires DashedTail(t)
    ensures SnakeTail(DashToCamel(t)) == Underscored(t)
    decreases |t|
  {
    if t == [] {
      return;
    }
    assert DashedAt(t, 0);
    if t[0] == '-' {
      DashedSuffix(t, 2);
      DashedTailToSnake(t[2..]);
      DashPairStep(t);
    } else {
      DashedSuffix(t, 1);
      DashedTailToSnake(t[1..]);
      LetterStep(t);
    }
  }

  /** One dash-letter pair: both sides gain `_` and the letter. */
  lemma DashPairStep(t: string)
    requires |t| >= 2 && t[0] == '-' && IsLower(t[1])
    requires SnakeTail(DashToCamel(t[2..])) == Underscored(t[2..])
    ensures SnakeTail(DashToCamel(t)) == Underscored(t)
  {
    CamelPair(t);
    UnderscoredPair(t);
  }

  lemma CamelPair(t: string)
    requires |t| >= 2 && t[0] == '-' && IsLower(t[1])
    ensures SnakeTail(DashToCamel(t)) == ['_', t[1]] + SnakeTail(DashToCamel(t[2..]))
  {
    var rest := DashToCamel(t[2..]);
    assert DashToCamel(t) == [ToUpperChar(t[1])] + rest;
    SnakeTailCons(ToUpperChar(t[1]), rest);
  }

  lemma UnderscoredPair(t: string)
    requires |t| >= 2 && t[0] == '-' && t[1] != '-'
    ensures Underscored(t) == ['_', t[1]] + Underscored(t[2..])
  {
    UnderscoredCons(t);
    UnderscoredCons(t[1..]);
    assert t[1..][1..] == t[2..];
    var u := Underscored(t[2..]);
    assert ['_'] + ([t[1]] + u) == ['_', t[1]] + u;
  }

  /** One lower-case letter: both sides gain it unchanged. */
  lemma LetterStep(t: string)
    requires |t| >= 1 && IsLower(t[0])
    requires SnakeTail(DashToCamel(t[1..])) == Underscored(t[1..])
    ensures SnakeTail(DashToCamel(t)) == Underscored(t)
  {
    var rest := DashToCamel(t[1..]);
    assert DashToCamel(t) == [t[0]] + rest;
    SnakeTailCons(t[0], rest);
    UnderscoredCons(t);
  }

  lemma SnakeTailCons(x: char, rest: string)
    ensures SnakeTail([x] + rest) == (if IsUpper(x) then ['_', ToLowerChar(x)] else [x]) + SnakeTail(rest)
  {
    assert ([x] + rest)[1..] == rest;
  }

  lemma UnderscoredCons(t: string)
    requires |t| >= 1
    ensures Underscored(t) == [if t[0] == '-' then '_' else t[0]] + Underscored(t[1..])
  { }
}
