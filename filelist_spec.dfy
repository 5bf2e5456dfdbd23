/** The value-level rules of karma's file list (`lib/file-list.js`): the
    order of the `served` and `included` sequences, first-match inclusion
    and exclusion, and the resolution of patterns into buckets against an
    oracle filesystem. The stateful list that uses them is in module
    `FileListState`. */
module FileListSpec {
  import opened Wrappers
  import opened Strings
  import opened Config
  import opened Seqs

  /** A tracked entry: its path, its modification time (unknown until the
      stat of an `addFile` completes, absent for URL entries), whether it
      may be cached, and whether it is a URL that is never read from disk. */
  datatype File = File(path: string, mtime: Option<int>, doNotCache: bool, isUrl: bool)

  /** One bucket per pattern string, in insertion order. */
  type Buckets = map<string, seq<File>>

  /** The filesystem as the file list sees it: what `glob` finds for a
      pattern, the modification time `stat` reports for a path, and the
      error the preprocessor reports for a path (absent when it succeeds). */
  datatype Fs = Fs(glob: map<string, seq<string>>, stat: map<string, int>, failures: map<string, string>)

  /** `minimatch(path, glob)`, supplied by the caller. */
  type Matcher = (string, string) -> bool

  function Glob(fs: Fs, pattern: string): seq<string> {
    if pattern in fs.glob then fs.glob[pattern] else []
  }

  /** Every path `glob` reports has a `stat` entry and is a filesystem path,
      not a URL. */
  predicate Consistent(fs: Fs) {
    forall p, i :: p in fs.glob && 0 <= i < |fs.glob[p]| ==> fs.glob[p][i] in fs.stat && !IsUrl(fs.glob[p][i])
  }

  function Get(b: Buckets, key: string): seq<File> {
    if key in b then b[key] else []
  }

  /** `_exists(path)`: some bucket holds a file with this path. */
  predicate Tracked(b: Buckets, q: string) {
    exists k, i :: k in b && 0 <= i < |b[k]| && b[k][i].path == q
  }

  // ---------------------------------------------------------------------
  // First-match inclusion and exclusion

  /** The index of the first glob in `globs` that matches `path`. */
  function FirstMatch(matcher: Matcher, globs: seq<string>, path: string): (r: Option<nat>)
    ensures r.Some? ==> r.value < |globs| && matcher(path, globs[r.value])
    ensures r.Some? ==> forall j :: 0 <= j < r.value ==> !matcher(path, globs[j])
    ensures r.None? <==> forall j :: 0 <= j < |globs| ==> !matcher(path, globs[j])
  {
    if globs == [] then None
    else if matcher(path, globs[0]) then Some(0)
    else
      match FirstMatch(matcher, globs[1..], path)
      case None => None
      case Some(k) => Some(k + 1)
  }

  function PatternStrings(ps: seq<Pattern>): (r: seq<string>)
    ensures |r| == |ps| && forall i :: 0 <= i < |ps| ==> r[i] == ps[i].pattern
  {
    if ps == [] then [] else [ps[0].pattern] + PatternStrings(ps[1..])
  }

  /** `_isExcluded(path)`: the first exclude glob that matches. */
  function IsExcluded(matcher: Matcher, excludes: seq<string>, path: string): (r: Option<string>)
    ensures r.Some? <==> exists i :: 0 <= i < |excludes| && matcher(path, excludes[i])
    ensures r.Some? ==> exists i :: (0 <= i < |excludes| && excludes[i] == r.value && matcher(path, excludes[i])
      && forall j :: 0 <= j < i ==> !matcher(path, excludes[j]))
  {
    match FirstMatch(matcher, excludes, path)
    case None => None
    case Some(i) => Some(excludes[i])
  }

  /** `_isIncluded(path)`: the first pattern whose glob matches. */
  function IsIncluded(matcher: Matcher, ps: seq<Pattern>, path: string): (r: Option<Pattern>)
    ensures r.Some? <==> exists i :: 0 <= i < |ps| && matcher(path, ps[i].pattern)
    ensures r.Some? ==> exists i :: (0 <= i < |ps| && ps[i] == r.value && matcher(path, ps[i].pattern)
      && forall j :: 0 <= j < i ==> !matcher(path, ps[j].pattern))
  {
    var names := PatternStrings(ps);
    match FirstMatch(matcher, names, path)
    case None => None
    case Some(i) => Some(ps[i])
  }

  predicate Excluded(matcher: Matcher, excludes: seq<string>, path: string) {
    IsExcluded(matcher, excludes, path).Some?
  }

  // ---------------------------------------------------------------------
  // Order of the served and included sequences

  predicate SortedByPath(s: seq<File>) {
    forall i, j :: 0 <= i < j < |s| ==> LexLe(s[i].path, s[j].path)
  }

  function InsertByPath(f: File, s: seq<File>): (r: seq<File>)
    requires SortedByPath(s)
    ensures SortedByPath(r)
    ensures multiset(r) == multiset(s) + multiset{f}
  {
    if s == [] then [f]
    else if LexLe(f.path, s[0].path) then
      BelowSorted(f, s);
      ConsSorted(f, s);
      [f] + s
    else
      LexLeTotal(f.path, s[0].path);
      var rest := InsertByPath(f, s[1..]);
      assert s == [s[0]] + s[1..];
      AboveInserted(f, s, rest);
      ConsSorted(s[0], rest);
      [s[0]] + rest
  }

  /** A file no later than the head of a sorted list is no later than any
      of its files. */
  lemma BelowSorted(f: File, s: seq<File>)
    requires SortedByPath(s) && s != [] && LexLe(f.path, s[0].path)
    ensures forall j :: 0 <= j < |s| ==> LexLe(f.path, s[j].path)
  {
    forall j | 0 < j < |s| ensures LexLe(f.path, s[j].path) {
      LexLeTrans(f.path, s[0].path, s[j].path);
    }
  }

  /** The head of a sorted list comes no later than any file of its tail
      with `f` inserted, when it comes no later than `f`. */
  lemma AboveInserted(f: File, s: seq<File>, rest: seq<File>)
    requires SortedByPath(s) && s != [] && LexLe(s[0].path, f.path)
    requires multiset(rest) == multiset(s[1..]) + multiset{f}
    ensures forall j :: 0 <= j < |rest| ==> LexLe(s[0].path, rest[j].path)
  {
    forall j | 0 <= j < |rest| ensures LexLe(s[0].path, rest[j].path) {
      assert rest[j] in multiset(rest);
      if rest[j] != f {
        assert rest[j] in multiset(s[1..]);
        var k :| 0 <= k < |s[1..]| && s[1..][k] == rest[j];
        assert s[k + 1] == rest[j];
      }
    }
  }

  lemma ConsSorted(x: File, s: seq<File>)
    requires SortedByPath(s) && forall j :: 0 <= j < |s| ==> LexLe(x.path, s[j].path)
    ensures SortedByPath([x] + s)
  {
    forall i, j | 0 <= i < j < |[x] + s| ensures LexLe(([x] + s)[i].path, ([x] + s)[j].path) {
      assert ([x] + s)[j] == s[j - 1];
      if i > 0 { assert ([x] + s)[i] == s[i - 1]; }
    }
  }

  /** `Array.from(bucket).sort(byPath)`. */
  function SortByPath(s: seq<File>): (r: seq<File>)
    ensures SortedByPath(r)
    ensures multiset(r) == multiset(s)
  {
    if s == [] then []
    else
      assert s == [s[0]] + s[1..];
      InsertByPath(s[0], SortByPath(s[1..]))
  }

  /** Two sequences sorted by path that hold the same files with distinct
      paths are equal: the order is fully determined by the paths. */
  lemma {:induction false} SortedUnique(r: seq<File>, t: seq<File>)
    requires SortedByPath(r) && SortedByPath(t) && multiset(r) == multiset(t)
    requires DistinctPaths(r)
    ensures r == t
    decreases |r|
  {
    assert |r| == |multiset(r)| == |t|;
    if r != [] {
      SortedSameHead(r, t);
      MultisetTail(r, t);
      assert DistinctPaths(r[1..]) by {
        forall i, j | 0 <= i < j < |r[1..]| ensures r[1..][i].path != r[1..][j].path {
          assert r[1..][i] == r[i + 1] && r[1..][j] == r[j + 1];
        }
      }
      SortedUnique(r[1..], t[1..]);
      assert r == [r[0]] + r[1..] && t == [t[0]] + t[1..];
    }
  }

  lemma SortedSameHead(r: seq<File>, t: seq<File>)
    requires SortedByPath(r) && SortedByPath(t) && multiset(r) == multiset(t)
    requires DistinctPaths(r) && |r| > 0
    ensures |t| > 0 && r[0] == t[0]
  {
    assert r[0] in multiset(t) && t[0] in multiset(r);
    var a :| 0 <= a < |t| && t[a] == r[0];
    var b :| 0 <= b < |r| && r[b] == t[0];
    LexLeRefl(r[0].path);
    assert LexLe(t[0].path, r[0].path) by { if a > 0 { assert LexLe(t[0].path, t[a].path); } }
    assert LexLe(r[0].path, t[0].path) by { if b > 0 { assert LexLe(r[0].path, r[b].path); } }
    LexLeAntisym(r[0].path, t[0].path);
  }

  lemma MultisetTail(r: seq<File>, t: seq<File>)
    requires |r| > 0 && |t| > 0 && r[0] == t[0] && multiset(r) == multiset(t)
    ensures multiset(r[1..]) == multiset(t[1..])
  {
    assert r == [r[0]] + r[1..] && t == [t[0]] + t[1..];
    assert multiset(r[1..]) == multiset(r) - multiset{r[0]};
    assert multiset(t[1..]) == multiset(t) - multiset{t[0]};
  }

  predicate DistinctPaths(s: seq<File>) {
    forall i, j :: 0 <= i < j < |s| ==> s[i].path != s[j].path
  }

  /** Position `i` of `s` holds the first file of `s` whose path is not in
      `seen`. */
  predicate FirstNew(s: seq<File>, seen: set<string>, i: nat)
    requires i < |s|
  {
    s[i].path !in seen && forall j :: 0 <= j < i ==> s[j].path != s[i].path
  }

  /** `_.uniq(list, 'path')`: the first file of every path, in order;
      `seen` holds the paths already taken. */
  function UniqByPath(s: seq<File>, seen: set<string>): (r: seq<File>)
    ensures DistinctPaths(r)
    ensures forall i :: 0 <= i < |r| ==> r[i] in s && r[i].path !in seen
  {
    if s == [] then []
    else if s[0].path in seen then UniqByPath(s[1..], seen)
    else
      var rest := UniqByPath(s[1..], seen + {s[0].path});
      var r := [s[0]] + rest;
      assert forall i :: 0 < i < |r| ==> r[i] == rest[i - 1];
      r
  }

  /** `uniq` keeps order and first occurrences: its result is `s` read at
      increasing positions, and those positions are exactly the ones that
      hold the first file of a path not in `seen`. */
  lemma {:induction false} UniqPicksFirsts(s: seq<File>, seen: set<string>)
    ensures exists idx :: (PicksAt(UniqByPath(s, seen), s, idx)
      && forall i :: 0 <= i < |s| ==> (i in idx <==> FirstNew(s, seen, i)))
    decreases |s|
  {
    if s == [] {
      var idx: seq<nat> := [];
      assert PicksAt(UniqByPath(s, seen), s, idx);
    } else {
      var seen' := if s[0].path in seen then seen else seen + {s[0].path};
      UniqPicksFirsts(s[1..], seen');
      var idx :| PicksAt(UniqByPath(s[1..], seen'), s[1..], idx)
        && forall i :: 0 <= i < |s[1..]| ==> (i in idx <==> FirstNew(s[1..], seen', i));
      var idx' := UniqStep(s, seen, idx);
    }
  }

  /** The inductive step of `UniqPicksFirsts`: the positions found for the
      tail, shifted, and position 0 when the head's path is new. */
  lemma UniqStep(s: seq<File>, seen: set<string>, idx: seq<nat>) returns (idx': seq<nat>)
    requires s != []
    requires var seen' := if s[0].path in seen then seen else seen + {s[0].path};
      PicksAt(UniqByPath(s[1..], seen'), s[1..], idx)
      && forall i :: 0 <= i < |s[1..]| ==> (i in idx <==> FirstNew(s[1..], seen', i))
    ensures PicksAt(UniqByPath(s, seen), s, idx')
      && forall i :: 0 <= i < |s| ==> (i in idx' <==> FirstNew(s, seen, i))
  {
    var seen' := if s[0].path in seen then seen else seen + {s[0].path};
    var rest := UniqByPath(s[1..], seen');
    assert s == [s[0]] + s[1..];
    FirstNewTail(s, seen, seen + {s[0].path});
    if s[0].path in seen {
      assert seen + {s[0].path} == seen;
      PicksSkip(rest, s[0], s[1..], idx);
      idx' := Shift(idx);
    } else {
      PicksTake(rest, s[0], s[1..], idx);
      idx' := [0] + Shift(idx);
    }
    forall i | 0 < i < |s| ensures i in idx' <==> FirstNew(s, seen, i) {
      assert i - 1 in idx <==> FirstNew(s[1..], seen', i - 1);
    }
  }

  /** Past the head, being a first new file of `s` is being one of its tail
      once the head's path counts as seen. */
  lemma FirstNewTail(s: seq<File>, seen: set<string>, seen': set<string>)
    requires s != [] && seen' == seen + {s[0].path}
    ensures FirstNew(s, seen, 0) <==> s[0].path !in seen
    ensures forall i :: 0 < i < |s| ==> (FirstNew(s, seen, i) <==> FirstNew(s[1..], seen', i - 1))
  {
    forall i | 0 < i < |s| ensures FirstNew(s, seen, i) <==> FirstNew(s[1..], seen', i - 1) {
      assert forall j :: 0 <= j < i - 1 ==> s[1..][j] == s[j + 1];
      if FirstNew(s[1..], seen', i - 1) {
        forall j | 0 <= j < i ensures s[j].path != s[i].path {
          if j > 0 { assert s[1..][j - 1] == s[j]; }
        }
      }
    }
  }

  /** Every path of the input that was not already taken appears in the
      output. */
  lemma {:induction false} UniqCovers(s: seq<File>, seen: set<string>, i: nat)
    requires i < |s| && s[i].path !in seen
    ensures exists j :: 0 <= j < |UniqByPath(s, seen)| && UniqByPath(s, seen)[j].path == s[i].path
    decreases |s|
  {
    var r := UniqByPath(s, seen);
    if i == 0 {
      assert r[0] == s[0];
    } else if s[0].path in seen {
      assert s[1..][i - 1] == s[i];
      UniqCovers(s[1..], seen, i - 1);
    } else if s[i].path == s[0].path {
      assert r[0] == s[0];
    } else {
      assert s[1..][i - 1] == s[i];
      UniqCovers(s[1..], seen + {s[0].path}, i - 1);
      var rest := UniqByPath(s[1..], seen + {s[0].path});
      var j :| 0 <= j < |rest| && rest[j].path == s[i].path;
      assert r[j + 1] == rest[j];
    }
  }

  /** On paths that are already distinct, `uniq` changes nothing. */
  lemma {:induction false} UniqOfDistinct(s: seq<File>, seen: set<string>)
    requires DistinctPaths(s)
    requires forall i :: 0 <= i < |s| ==> s[i].path !in seen
    ensures UniqByPath(s, seen) == s
    decreases |s|
  {
    if s != [] {
      assert DistinctPaths(s[1..]) by {
        forall i, j | 0 <= i < j < |s[1..]| ensures s[1..][i].path != s[1..][j].path {
          assert s[1..][i] == s[i + 1] && s[1..][j] == s[j + 1];
        }
      }
      forall i | 0 <= i < |s[1..]| ensures s[1..][i].path !in seen + {s[0].path} {
        assert s[1..][i] == s[i + 1];
      }
      UniqOfDistinct(s[1..], seen + {s[0].path});
    }
  }

  function Flag(p: Pattern, served: bool): bool {
    if served then p.served else p.included
  }

  /** The buckets of the patterns carrying the flag, in pattern order, each
      sorted by path and then flattened. */
  function Expand(ps: seq<Pattern>, b: Buckets, served: bool): seq<File> {
    if ps == [] then []
    else (if Flag(ps[0], served) then SortByPath(Get(b, ps[0].pattern)) else []) + Expand(ps[1..], b, served)
  }

  /** A file is in the expansion exactly when it is in the bucket of a
      pattern carrying the flag. */
  lemma {:induction false} ExpandMembers(ps: seq<Pattern>, b: Buckets, served: bool, x: File)
    ensures x in Expand(ps, b, served) <==> exists j :: 0 <= j < |ps| && Flag(ps[j], served) && x in Get(b, ps[j].pattern)
  {
    if ps != [] {
      ExpandMembers(ps[1..], b, served, x);
      var head := if Flag(ps[0], served) then SortByPath(Get(b, ps[0].pattern)) else [];
      assert x in head <==> x in multiset(head);
      assert forall j :: 0 < j < |ps| ==> ps[j] == ps[1..][j - 1];
      if x in Expand(ps[1..], b, served) {
        var j :| 0 <= j < |ps[1..]| && Flag(ps[1..][j], served) && x in Get(b, ps[1..][j].pattern);
        assert ps[j + 1] == ps[1..][j];
      }
    }
  }

  /** `files.served`: served buckets in pattern order, sorted within each
      bucket, each path once. */
  function Served(ps: seq<Pattern>, b: Buckets): seq<File> {
    UniqByPath(Expand(ps, b, true), {})
  }

  /** `files.included`: the same for the included patterns. */
  function Included(ps: seq<Pattern>, b: Buckets): seq<File> {
    UniqByPath(Expand(ps, b, false), {})
  }

  /** Every served file comes from the bucket of a served pattern, every
      file in such a bucket is served under its path, and the served files
      are laid out bucket by bucket in pattern order. */
  lemma ServedExactly(ps: seq<Pattern>, b: Buckets, x: File)
    ensures x in Served(ps, b) ==> exists j :: 0 <= j < |ps| && ps[j].served && x in Get(b, ps[j].pattern)
    ensures (exists j :: 0 <= j < |ps| && ps[j].served && x in Get(b, ps[j].pattern)) ==>
      exists y :: y in Served(ps, b) && y.path == x.path
    ensures DistinctPaths(Served(ps, b))
    ensures Served(ps, b) == Layers(ps, b, true, {})
  {
    ExpandLayers(ps, b, true, {});
    var e := Expand(ps, b, true);
    ExpandMembers(ps, b, true, x);
    if exists j :: 0 <= j < |ps| && ps[j].served && x in Get(b, ps[j].pattern) {
      assert x in e;
      var i :| 0 <= i < |e| && e[i] == x;
      UniqCovers(e, {}, i);
      var k :| 0 <= k < |Served(ps, b)| && Served(ps, b)[k].path == e[i].path;
      assert Served(ps, b)[k] in Served(ps, b);
    }
  }

  /** The same for included files. */
  lemma IncludedExactly(ps: seq<Pattern>, b: Buckets, x: File)
    ensures x in Included(ps, b) ==> exists j :: 0 <= j < |ps| && ps[j].included && x in Get(b, ps[j].pattern)
    ensures (exists j :: 0 <= j < |ps| && ps[j].included && x in Get(b, ps[j].pattern)) ==>
      exists y :: y in Included(ps, b) && y.path == x.path
    ensures DistinctPaths(Included(ps, b))
    ensures Included(ps, b) == Layers(ps, b, false, {})
  {
    ExpandLayers(ps, b, false, {});
    var e := Expand(ps, b, false);
    ExpandMembers(ps, b, false, x);
    if exists j :: 0 <= j < |ps| && ps[j].included && x in Get(b, ps[j].pattern) {
      assert x in e;
      var i :| 0 <= i < |e| && e[i] == x;
      UniqCovers(e, {}, i);
      var k :| 0 <= k < |Included(ps, b)| && Included(ps, b)[k].path == e[i].path;
      assert Included(ps, b)[k] in Included(ps, b);
    }
  }

  /** The layout of `served` and `included` stated bucket by bucket: the
      buckets of the patterns carrying the flag, in pattern order, each
      sorted by path, each without the paths of the buckets before it (or of
      `seen`) and without its own repeated paths. */
  function Layers(ps: seq<Pattern>, b: Buckets, served: bool, seen: set<string>): seq<File>
    decreases |ps|
  {
    if ps == [] then []
    else if Flag(ps[0], served) then
      var bucket := Get(b, ps[0].pattern);
      UniqByPath(SortByPath(bucket), seen) + Layers(ps[1..], b, served, seen + PathSet(bucket))
    else Layers(ps[1..], b, served, seen)
  }

  lemma PathSetCons(s: seq<File>)
    requires s != []
    ensures PathSet(s) == {s[0].path} + PathSet(s[1..])
  {
    forall q | q in PathSet(s) ensures q in {s[0].path} + PathSet(s[1..]) {
      var i :| 0 <= i < |s| && s[i].path == q;
      if i > 0 { assert s[1..][i - 1] == s[i]; }
    }
    forall q | q in PathSet(s[1..]) ensures q in PathSet(s) {
      var i :| 0 <= i < |s[1..]| && s[1..][i].path == q;
      assert s[i + 1] == s[1..][i];
    }
  }

  /** Sequences holding the same files have the same paths. */
  lemma PathSetPerm(s: seq<File>, t: seq<File>)
    requires multiset(s) == multiset(t)
    ensures PathSet(s) == PathSet(t)
  {
    forall q | q in PathSet(s) ensures q in PathSet(t) {
      var i :| 0 <= i < |s| && s[i].path == q;
      assert s[i] in multiset(t);
    }
    forall q | q in PathSet(t) ensures q in PathSet(s) {
      var i :| 0 <= i < |t| && t[i].path == q;
      assert t[i] in multiset(s);
    }
  }

  /** `uniq` of a concatenation: the second part loses the paths the first
      part holds. */
  lemma {:induction false} UniqAppend(a: seq<File>, c: seq<File>, seen: set<string>)
    ensures UniqByPath(a + c, seen) == UniqByPath(a, seen) + UniqByPath(c, seen + PathSet(a))
    decreases |a|
  {
    if a == [] {
      assert a + c == c;
      assert seen + PathSet(a) == seen;
    } else {
      PathSetCons(a);
      if a[0].path in seen {
        UniqAppend(a[1..], c, seen);
        UniqAppendSkip(a, c, seen);
      } else {
        UniqAppend(a[1..], c, seen + {a[0].path});
        UniqAppendTake(a, c, seen);
      }
    }
  }

  /** The paths taken once the head of `a` is. */
  lemma PathsAfterHead(a: seq<File>, seen: set<string>)
    requires a != []
    ensures seen + {a[0].path} + PathSet(a[1..]) == seen + PathSet(a)
    ensures a[0].path in seen ==> seen + PathSet(a[1..]) == seen + PathSet(a)
  {
    PathSetCons(a);
  }

  /** The step of `UniqAppend` for a head whose path is taken. */
  lemma UniqAppendSkip(a: seq<File>, c: seq<File>, seen: set<string>)
    requires a != [] && a[0].path in seen
    requires UniqByPath(a[1..] + c, seen) == UniqByPath(a[1..], seen) + UniqByPath(c, seen + PathSet(a[1..]))
    ensures UniqByPath(a + c, seen) == UniqByPath(a, seen) + UniqByPath(c, seen + PathSet(a))
  {
    var ac := a + c;
    assert ac[0] == a[0] && ac[1..] == a[1..] + c;
    PathsAfterHead(a, seen);
  }

  /** The step of `UniqAppend` for a head whose path is new. */
  lemma UniqAppendTake(a: seq<File>, c: seq<File>, seen: set<string>)
    requires a != [] && a[0].path !in seen
    requires var seen' := seen + {a[0].path};
      UniqByPath(a[1..] + c, seen') == UniqByPath(a[1..], seen') + UniqByPath(c, seen' + PathSet(a[1..]))
    ensures UniqByPath(a + c, seen) == UniqByPath(a, seen) + UniqByPath(c, seen + PathSet(a))
  {
    var ac := a + c;
    assert ac[0] == a[0] && ac[1..] == a[1..] + c;
    PathsAfterHead(a, seen);
    var seen' := seen + {a[0].path};
    var u := UniqByPath(a[1..], seen');
    var w := UniqByPath(c, seen + PathSet(a));
    assert [a[0]] + (u + w) == [a[0]] + u + w;
  }

  lemma {:induction false} ExpandLayers(ps: seq<Pattern>, b: Buckets, served: bool, seen: set<string>)
    ensures UniqByPath(Expand(ps, b, served), seen) == Layers(ps, b, served, seen)
    decreases |ps|
  {
    if ps != [] {
      var head := if Flag(ps[0], served) then SortByPath(Get(b, ps[0].pattern)) else [];
      UniqAppend(head, Expand(ps[1..], b, served), seen);
      PathSetPerm(head, if Flag(ps[0], served) then Get(b, ps[0].pattern) else []);
      if Flag(ps[0], served) {
        ExpandLayers(ps[1..], b, served, seen + PathSet(Get(b, ps[0].pattern)));
      } else {
        assert head == [] && seen + PathSet(head) == seen;
        ExpandLayers(ps[1..], b, served, seen);
      }
    }
  }

  // Three patterns (`/a.` with any extension, the `.js` files of `/some`,
  // and `.txt` files anywhere), whose buckets hold `/a.txt`, then
  // `/some/a.js` (`/some/b.js` being excluded), then the unsorted `/c.txt`,
  // `/a.txt`, `/b.txt`: the served files are `/a.txt`, `/some/a.js`,
  // `/b.txt`, `/c.txt`.
  lemma ServedSortsWithinBuckets()
    ensures var a := File("/a.txt", Some(0), false, false);
      var sa := File("/some/a.js", Some(0), false, false);
      var bt := File("/b.txt", Some(0), false, false);
      var c := File("/c.txt", Some(0), false, false);
      var ps := [DefaultPattern("/a.*"), DefaultPattern("/some/*.js"), DefaultPattern("*.txt")];
      var b := map["/a.*" := [a], "/some/*.js" := [sa], "*.txt" := [c, a, bt]];
      Served(ps, b) == [a, sa, bt, c]
  {
    var a := File("/a.txt", Some(0), false, false);
    var sa := File("/some/a.js", Some(0), false, false);
    var bt := File("/b.txt", Some(0), false, false);
    var c := File("/c.txt", Some(0), false, false);
    var ps := [DefaultPattern("/a.*"), DefaultPattern("/some/*.js"), DefaultPattern("*.txt")];
    var b := map["/a.*" := [a], "/some/*.js" := [sa], "*.txt" := [c, a, bt]];
    ExpandLayers(ps, b, true, {});
    assert LexLe(a.path, bt.path) && LexLe(bt.path, c.path);
    LayersOfThree(ps, b, a, sa, bt, c);
  }

  /** The example above with its paths abstracted: what it needs of them
      is their order and that they differ. */
  lemma LayersOfThree(ps: seq<Pattern>, b: Buckets, a: File, sa: File, bt: File, c: File)
    requires |ps| == 3 && ps[0].served && ps[1].served && ps[2].served
    requires Get(b, ps[0].pattern) == [a] && Get(b, ps[1].pattern) == [sa] && Get(b, ps[2].pattern) == [c, a, bt]
    requires LexLe(a.path, bt.path) && LexLe(bt.path, c.path)
    requires a.path != bt.path && bt.path != c.path && a.path != c.path
    requires sa.path != a.path && sa.path != bt.path && sa.path != c.path
    ensures Layers(ps, b, true, {}) == [a, sa, bt, c]
  {
    var p2 := ps[2..];
    assert p2[0] == ps[2];
    ThirdBucket(a, bt, c, {} + {a.path} + {sa.path});
    LastLayer(p2, b, {} + {a.path} + {sa.path}, [c, a, bt], [bt, c]);
    var p1 := ps[1..];
    assert p1[0] == ps[1] && p1[1..] == p2;
    LayerStepOne(p1, b, {} + {a.path}, sa, [bt, c]);
    LayerStepOne(ps, b, {}, a, [sa] + [bt, c]);
    ConsFour(a, sa, bt, c);
  }

  /** The last pattern's step of `Layers`. */
  lemma LastLayer(ps: seq<Pattern>, b: Buckets, seen: set<string>, bucket: seq<File>, head: seq<File>)
    requires |ps| == 1 && ps[0].served && Get(b, ps[0].pattern) == bucket
    requires UniqByPath(SortByPath(bucket), seen) == head
    ensures Layers(ps, b, true, seen) == head
  {
    var seen' := seen + PathSet(bucket);
    LayersEmpty(ps[1..], b, seen');
    LayerStep(ps, b, seen, bucket, head, [], seen');
    assert head + [] == head;
  }

  /** One flagged pattern's step of `Layers`. */
  lemma LayerStep(ps: seq<Pattern>, b: Buckets, seen: set<string>, bucket: seq<File>,
                  head: seq<File>, tail: seq<File>, seen': set<string>)
    requires ps != [] && ps[0].served && Get(b, ps[0].pattern) == bucket
    requires UniqByPath(SortByPath(bucket), seen) == head
    requires seen' == seen + PathSet(bucket) && Layers(ps[1..], b, true, seen') == tail
    ensures Layers(ps, b, true, seen) == head + tail
  {
  }

  lemma LayersEmpty(ps: seq<Pattern>, b: Buckets, seen: set<string>)
    requires ps == []
    ensures Layers(ps, b, true, seen) == []
  {
  }

  lemma ConsFour(w: File, x: File, y: File, z: File)
    ensures [w] + ([x] + [y, z]) == [w, x, y, z]
  {
  }

  /** The step of a pattern whose bucket holds a single file with a new
      path. */
  lemma LayerStepOne(ps: seq<Pattern>, b: Buckets, seen: set<string>, f: File, tail: seq<File>)
    requires ps != [] && ps[0].served && Get(b, ps[0].pattern) == [f] && f.path !in seen
    requires Layers(ps[1..], b, true, seen + {f.path}) == tail
    ensures Layers(ps, b, true, seen) == [f] + tail
  {
    assert [f][1..] == [];
    assert SortByPath([f]) == [f];
    assert UniqByPath([f], seen) == [f];
    PathSetOne(f);
  }

  lemma SortThree(a: File, bt: File, c: File)
    requires LexLe(a.path, bt.path) && LexLe(bt.path, c.path)
    requires a.path != bt.path && bt.path != c.path && a.path != c.path
    ensures SortByPath([c, a, bt]) == [a, bt, c]
  {
    LexLeTrans(a.path, bt.path, c.path);
    var t := [a, bt, c];
    assert SortedByPath(t) by {
      forall i, j | 0 <= i < j < 3 ensures LexLe(t[i].path, t[j].path) {}
    }
    assert DistinctPaths(t) by {
      forall i, j | 0 <= i < j < 3 ensures t[i].path != t[j].path {}
    }
    assert multiset(t) == multiset([c, a, bt]);
    SortOfPerm([c, a, bt], t);
  }

  /** The one path-sorted order of files with distinct paths. */
  lemma SortOfPerm(s: seq<File>, t: seq<File>)
    requires SortedByPath(t) && DistinctPaths(t) && multiset(s) == multiset(t)
    ensures SortByPath(s) == t
  {
    SortedUnique(t, SortByPath(s));
  }

  /** The unsorted bucket of the example, one path already taken. */
  lemma ThirdBucket(a: File, bt: File, c: File, seen: set<string>)
    requires LexLe(a.path, bt.path) && LexLe(bt.path, c.path)
    requires a.path != bt.path && bt.path != c.path && a.path != c.path
    requires a.path in seen && bt.path !in seen && c.path !in seen
    ensures UniqByPath(SortByPath([c, a, bt]), seen) == [bt, c]
  {
    SortThree(a, bt, c);
    UniqTwoOfThree(a, bt, c, seen);
  }

  lemma UniqTwoOfThree(a: File, bt: File, c: File, seen: set<string>)
    requires a.path in seen && bt.path !in seen && c.path !in seen && bt.path != c.path
    ensures UniqByPath([a, bt, c], seen) == [bt, c]
  {
    assert [a, bt, c][1..] == [bt, c] && [bt, c][1..] == [c] && [c][1..] == [];
    assert UniqByPath([c], seen + {bt.path}) == [c];
    assert UniqByPath([bt, c], seen) == [bt, c];
  }

  lemma PathSetOne(f: File)
    ensures PathSet([f]) == {f.path}
  {
    assert [f][0].path in PathSet([f]);
  }

  // ---------------------------------------------------------------------
  // Resolving patterns into buckets (`_refresh`)

  /** The state threaded through a refresh: the buckets built so far, the
      paths already claimed by earlier patterns, and the paths handed to
      the preprocessor, in call order. */
  datatype Resolution = Resolution(buckets: Buckets, claimed: set<string>, calls: seq<string>)

  /** The file one globbed path becomes. */
  function FileFor(p: Pattern, fs: Fs, path: string): File
    requires path in fs.stat
  {
    File(path, Some(fs.stat[path]), p.nocache, false)
  }

  /** The paths of a sequence of files, in order. */
  function PathsOf(s: seq<File>): (r: seq<string>)
    ensures |r| == |s| && forall i :: 0 <= i < |s| ==> r[i] == s[i].path
  {
    if s == [] then [] else [s[0].path] + PathsOf(s[1..])
  }

  function PathSet(s: seq<File>): set<string> {
    set i | 0 <= i < |s| :: s[i].path
  }

  /** The preprocessor calls one pattern's added files make: none for a
      `nocache` pattern, otherwise one per file in order. */
  function CallsFor(p: Pattern, added: seq<File>): seq<string> {
    if p.nocache then [] else PathsOf(added)
  }

  /** The files one pattern adds, in glob order: an excluded path, or one
      already claimed by an earlier pattern or earlier in this glob, is
      skipped; any other path gets its `stat` time and the pattern's
      `nocache` flag. */
  function ScanPaths(p: Pattern, paths: seq<string>, matcher: Matcher, excludes: seq<string>, fs: Fs,
                     claimed: set<string>): seq<File>
    requires forall i :: 0 <= i < |paths| ==> paths[i] in fs.stat
    decreases |paths|
  {
    if paths == [] then []
    else
      var path := paths[0];
      if Excluded(matcher, excludes, path) || path in claimed then
        ScanPaths(p, paths[1..], matcher, excludes, fs, claimed)
      else
        [FileFor(p, fs, path)] + ScanPaths(p, paths[1..], matcher, excludes, fs, claimed + {path})
  }

  /** The per-pattern step: a URL pattern gets a single URL entry and is
      not globbed; a pattern whose glob finds nothing gets an empty bucket;
      otherwise the bucket is set only when some path survived, its paths
      are claimed and, unless `nocache`, handed to the preprocessor. */
  function ResolvePattern(p: Pattern, matcher: Matcher, excludes: seq<string>, fs: Fs, r: Resolution): Resolution
    requires Consistent(fs)
  {
    if IsUrl(p.pattern) then
      r.(buckets := r.buckets[p.pattern := [File(p.pattern, None, false, true)]])
    else
      var found := Glob(fs, p.pattern);
      if found == [] then r.(buckets := r.buckets[p.pattern := []])
      else
        var added := ScanPaths(p, found, matcher, excludes, fs, r.claimed);
        if added == [] then r
        else Resolution(r.buckets[p.pattern := added], r.claimed + PathSet(added),
                        r.calls + CallsFor(p, added))
  }

  function ResolveFrom(ps: seq<Pattern>, matcher: Matcher, excludes: seq<string>, fs: Fs, r: Resolution): Resolution
    requires Consistent(fs)
    decreases |ps|
  {
    if ps == [] then r else ResolveFrom(ps[1..], matcher, excludes, fs, ResolvePattern(ps[0], matcher, excludes, fs, r))
  }

  /** The outcome of resolving every pattern from scratch. */
  function Resolve(ps: seq<Pattern>, matcher: Matcher, excludes: seq<string>, fs: Fs): Resolution
    requires Consistent(fs)
  {
    ResolveFrom(ps, matcher, excludes, fs, Resolution(map[], {}, []))
  }

  /** The error a refresh rejects with: the first preprocessor call that
      fails. */
  function FirstFailure(calls: seq<string>, fs: Fs): (e: Option<string>)
    ensures e.Some? <==> exists i :: 0 <= i < |calls| && calls[i] in fs.failures
    ensures e.Some? ==> exists i :: (0 <= i < |calls| && calls[i] in fs.failures && e.value == fs.failures[calls[i]]
      && forall j :: 0 <= j < i ==> calls[j] !in fs.failures)
  {
    if calls == [] then None
    else if calls[0] in fs.failures then Some(fs.failures[calls[0]])
    else
      var e := FirstFailure(calls[1..], fs);
      assert forall i :: 0 < i < |calls| ==> calls[i] == calls[1..][i - 1];
      e
  }
}
