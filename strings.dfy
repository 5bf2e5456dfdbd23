/** String rules of JavaScript's `String.prototype` that the modelled code
    relies on: prefix tests, `indexOf`, `split`, `join`, `replace` with a
    string pattern (first occurrence only) and ASCII case mapping. */
module Strings {
  import opened Wrappers

  predicate StartsWith(s: string, prefix: string) {
    prefix <= s
  }

  predicate EndsWith(s: string, suffix: string) {
    |suffix| <= |s| && s[|s| - |suffix|..] == suffix
  }

  /** `sub` occurs in `s` starting at index `i`. */
  predicate OccursAt(s: string, sub: string, i: nat) {
    i + |sub| <= |s| && s[i..i + |sub|] == sub
  }

  predicate Contains(s: string, sub: string) {
    exists i: nat | i <= |s| :: OccursAt(s, sub, i)
  }

  /** `s.indexOf(sub)`, with `None` for JavaScript's `-1`. */
  function IndexOf(s: string, sub: string): (r: Option<nat>)
    ensures r.Some? ==> OccursAt(s, sub, r.value)
    ensures r.Some? ==> forall j: nat :: j < r.value ==> !OccursAt(s, sub, j)
    ensures r.None? <==> !Contains(s, sub)
    decreases |s|
  {
    if |sub| > |s| then
      assert forall j: nat :: !OccursAt(s, sub, j);
      None
    else if sub <= s then
      assert OccursAt(s, sub, 0);
      Some(0)
    else
      assert s[..|sub|] != sub;
      assert !OccursAt(s, sub, 0);
      var rest := IndexOf(s[1..], sub);
      OccursShift(s, sub);
      match rest
      case None =>
        assert forall j: nat :: !OccursAt(s, sub, j) by {
          forall j: nat ensures !OccursAt(s, sub, j) {
            if j > 0 {
              assert !OccursAt(s[1..], sub, j - 1);
            }
          }
        }
        None
      case Some(k) =>
        assert forall j: nat :: j < k + 1 ==> !OccursAt(s, sub, j) by {
          forall j: nat | j < k + 1 ensures !OccursAt(s, sub, j) {
            if j > 0 {
              assert !OccursAt(s[1..], sub, j - 1);
            }
          }
        }
        Some(k + 1)
  }

  /** `indexOf` of a single character: its first position, if any. */
  lemma {:induction false} IndexOfChar(s: string, c: char, k: nat)
    requires k <= |s| && (forall i :: 0 <= i < k ==> s[i] != c) && (k < |s| ==> s[k] == c)
    ensures IndexOf(s, [c]) == if k < |s| then Some(k) else None
    decreases |s|
  {
    if s != [] && s[0] != c {
      assert !([c] <= s);
      IndexOfChar(s[1..], c, k - 1);
    }
  }

  /** Occurrences in `s[1..]` are the occurrences in `s` shifted by one. */
  lemma OccursShift(s: string, sub: string)
    requires |s| > 0
    ensures forall j: nat :: OccursAt(s[1..], sub, j) <==> OccursAt(s, sub, j + 1)
  {
    forall j: nat ensures OccursAt(s[1..], sub, j) <==> OccursAt(s, sub, j + 1) {
      if j + |sub| <= |s[1..]| {
        assert s[1..][j..j + |sub|] == s[j + 1..j + 1 + |sub|];
      }
    }
  }

  /** `s.split(sep)` for a non-empty string separator. */
  function Split(s: string, sep: string): (parts: seq<string>)
    requires |sep| > 0
    ensures |parts| > 0
    decreases |s|
  {
    match IndexOf(s, sep)
    case None => [s]
    case Some(i) => [s[..i]] + Split(s[i + |sep|..], sep)
  }

  /** `parts.join(sep)`. */
  function Join(parts: seq<string>, sep: string): string {
    if |parts| == 0 then ""
    else if |parts| == 1 then parts[0]
    else parts[0] + sep + Join(parts[1..], sep)
  }

  /** Joining the pieces of a split with the same separator gives back the
      original string. */
  lemma {:induction false} JoinSplit(s: string, sep: string)
    requires |sep| > 0
    ensures Join(Split(s, sep), sep) == s
    decreases |s|
  {
    match IndexOf(s, sep)
    case None =>
    case Some(i) =>
      var rest := s[i + |sep|..];
      var parts := Split(rest, sep);
      JoinSplit(rest, sep);
      assert Split(s, sep) == [s[..i]] + parts;
      assert ([s[..i]] + parts)[1..] == parts;
      calc {
        Join(Split(s, sep), sep);
        s[..i] + sep + Join(parts, sep);
        s[..i] + sep + rest;
        { assert s[i..i + |sep|] == sep; }
        s;
      }
  }

  /** No piece of a split contains the separator. */
  lemma {:induction false} SplitPartsFree(s: string, sep: string)
    requires |sep| > 0
    ensures forall k :: 0 <= k < |Split(s, sep)| ==> !Contains(Split(s, sep)[k], sep)
    decreases |s|
  {
    match IndexOf(s, sep)
    case None =>
    case Some(i) =>
      SplitPartsFree(s[i + |sep|..], sep);
      PrefixBeforeFirstFree(s, sep, i);
  }

  /** Splitting the join of pieces that do not contain the separator's first
      character gives back the pieces. */
  lemma {:induction false} SplitJoin(parts: seq<string>, sep: string)
    requires |sep| > 0 && |parts| > 0
    requires forall k :: 0 <= k < |parts| ==> sep[0] !in parts[k]
    ensures Split(Join(parts, sep), sep) == parts
  {
    if |parts| == 1 {
      SplitFree(parts[0], sep);
    } else {
      SplitJoin(parts[1..], sep);
      SplitCons(parts[0], sep, Join(parts[1..], sep));
      assert parts == [parts[0]] + parts[1..];
    }
  }

  lemma SplitFree(s: string, sep: string)
    requires |sep| > 0 && sep[0] !in s
    ensures Split(s, sep) == [s]
  {
    forall i: nat ensures !OccursAt(s, sep, i) {
      if i + |sep| <= |s| {
        assert s[i..i + |sep|][0] == s[i] && s[i] in s;
      }
    }
  }

  lemma SplitCons(head: string, sep: string, rest: string)
    requires |sep| > 0 && sep[0] !in head
    ensures Split(head + sep + rest, sep) == [head] + Split(rest, sep)
  {
    var s := head + sep + rest;
    assert OccursAt(s, sep, |head|) by {
      assert s[|head|..|head| + |sep|] == sep;
    }
    forall j: nat | j < |head| ensures !OccursAt(s, sep, j) {
      assert s[j] == head[j] && head[j] in head;
      if j + |sep| <= |s| {
        assert s[j..j + |sep|][0] == s[j];
      }
    }
    assert s[..|head|] == head;
    assert s[|head| + |sep|..] == rest;
  }

  lemma PrefixBeforeFirstFree(s: string, sep: string, i: nat)
    requires |sep| > 0
    requires OccursAt(s, sep, i)
    requires forall j: nat :: j < i ==> !OccursAt(s, sep, j)
    ensures !Contains(s[..i], sep)
  {
    forall j: nat | OccursAt(s[..i], sep, j) ensures false {
      assert s[..i][j..j + |sep|] == s[j..j + |sep|];
      assert OccursAt(s, sep, j);
    }
  }

  /** `s.replace(pattern, replacement)` with a string pattern: only the first
      occurrence is replaced (JavaScript's `$` replacement patterns aside). */
  function ReplaceFirst(s: string, pattern: string, replacement: string): (r: string)
    ensures !Contains(s, pattern) ==> r == s
    ensures Contains(s, pattern) ==>
      exists i: nat :: OccursAt(s, pattern, i)
        && (forall j: nat :: j < i ==> !OccursAt(s, pattern, j))
        && r == s[..i] + replacement + s[i + |pattern|..]
  {
    match IndexOf(s, pattern)
    case None => s
    case Some(i) => s[..i] + replacement + s[i + |pattern|..]
  }

  predicate IsUpper(c: char) { 'A' <= c <= 'Z' }
  predicate IsLower(c: char) { 'a' <= c <= 'z' }

  function ToLowerChar(c: char): (r: char)
    ensures !IsUpper(r)
    ensures IsUpper(c) ==> IsLower(r)
    ensures !IsUpper(c) ==> r == c
  {
    if IsUpper(c) then (c as int + 32) as char else c
  }

  function ToUpperChar(c: char): (r: char)
    ensures !IsLower(r)
    ensures IsLower(c) ==> IsUpper(r) && ToLowerChar(r) == c
    ensures !IsLower(c) ==> r == c
  {
    if IsLower(c) then (c as int - 32) as char else c
  }

  /** `s.toUpperCase()` restricted to ASCII letters. */
  function ToUpper(s: string): (r: string)
    ensures |r| == |s|
    ensures forall k :: 0 <= k < |s| ==> r[k] == ToUpperChar(s[k])
  {
    if s == [] then [] else [ToUpperChar(s[0])] + ToUpper(s[1..])
  }

  /** `s.trim()` for the ASCII whitespace characters space, tab, CR and LF. */
  predicate IsSpace(c: char) { c == ' ' || c == '\t' || c == '\n' || c == '\r' }

  predicate IsBlank(s: string) {
    forall k :: 0 <= k < |s| ==> IsSpace(s[k])
  }

  /** `s` without its leading white space. */
  function TrimStart(s: string): (r: string)
    ensures |r| <= |s| && r == s[|s| - |r|..] && IsBlank(s[..|s| - |r|])
    ensures r == [] || !IsSpace(r[0])
  {
    if s != [] && IsSpace(s[0]) then
      var r := TrimStart(s[1..]);
      assert s[1..][..|s| - 1 - |r|] == s[1..|s| - |r|];
      r
    else s
  }

  /** `s` without its trailing white space. */
  function TrimEnd(s: string): (r: string)
    ensures |r| <= |s| && r == s[..|r|] && IsBlank(s[|r|..])
    ensures r == [] || !IsSpace(r[|r| - 1])
  {
    if s != [] && IsSpace(s[|s| - 1]) then
      var r := TrimEnd(s[..|s| - 1]);
      assert s[..|s| - 1][|r|..] == s[|r|..|s| - 1];
      assert IsBlank(s[|r|..]) by {
        forall k | 0 <= k < |s| - |r| ensures IsSpace(s[|r|..][k]) {
          if k < |s| - 1 - |r| {
            assert s[|r|..][k] == s[..|s| - 1][|r|..][k];
          }
        }
      }
      r
    else s
  }

  /** JavaScript's `String.prototype.trim`. */
  function Trim(s: string): string {
    TrimEnd(TrimStart(s))
  }

  /** `Trim(s)` is the infix of `s` left once the white space at both ends
      is dropped; it is empty exactly when `s` is blank. */
  lemma TrimShape(s: string)
    ensures exists i, j :: 0 <= i <= j <= |s| && Trim(s) == s[i..j] && IsBlank(s[..i]) && IsBlank(s[j..])
    ensures Trim(s) == [] || (!IsSpace(Trim(s)[0]) && !IsSpace(Trim(s)[|Trim(s)| - 1]))
    ensures Trim(s) == [] <==> IsBlank(s)
  {
    var t := TrimStart(s);
    var r := TrimEnd(t);
    var i := |s| - |t|;
    assert r == s[i..i + |r|];
    assert s[i + |r|..] == t[|r|..];
    if r == [] {
      // a non-blank remainder would start with a character that is kept
      if t != [] {
        assert false;
      }
      forall k | 0 <= k < |s| ensures IsSpace(s[k]) {
        assert s[..i][k] == s[k];
      }
    }
    if r != [] {
      assert !IsSpace(r[0]) by {
        assert r[0] == t[0];
      }
    }
  }

  /** JavaScript's `a <= b` on strings: lexicographic order by character,
      a prefix sorting first. */
  predicate LexLe(a: string, b: string)
    decreases |a|
  {
    |a| == 0 || (|b| > 0 && (a[0] < b[0] || (a[0] == b[0] && LexLe(a[1..], b[1..]))))
  }

  lemma LexLeRefl(a: string)
    ensures LexLe(a, a)
    decreases |a|
  {
    if |a| > 0 {
      LexLeRefl(a[1..]);
    }
  }

  lemma LexLeTotal(a: string, b: string)
    ensures LexLe(a, b) || LexLe(b, a)
    decreases |a|
  {
    if |a| > 0 && |b| > 0 && a[0] == b[0] {
      LexLeTotal(a[1..], b[1..]);
    }
  }

  lemma LexLeTrans(a: string, b: string, c: string)
    requires LexLe(a, b) && LexLe(b, c)
    ensures LexLe(a, c)
    decreases |a|
  {
    if |a| > 0 && a[0] == b[0] && b[0] == c[0] {
      LexLeTrans(a[1..], b[1..], c[1..]);
    }
  }

  lemma LexLeAntisym(a: string, b: string)
    requires LexLe(a, b) && LexLe(b, a)
    ensures a == b
    decreases |a|
  {
    if |a| > 0 {
      LexLeAntisym(a[1..], b[1..]);
      assert a == [a[0]] + a[1..] && b == [b[0]] + b[1..];
    }
  }
}
