/** The karma file list (`lib/file-list.js`, exercised by
    `test/unit/file-list.spec.js`): the buckets of resolved files, one per
    pattern, mutated in place by `addFile`, `changeFile` and `removeFile`,
    rebuilt by `refresh`/`reload`, and a debounced `file_list_modified`
    emission.

    Asynchrony is explicit. A `refresh` computes its resolution when it is
    called and settles later (`Settle`); an `addFile`/`changeFile` issues
    its `stat` at once and completes later (`FinishJob`), when the stat
    time is known and the preprocessor has run; the debounce timer is a
    deadline on an integer clock advanced by `Wind`. The filesystem
    (`glob`, `stat`, the preprocessor's failures) is the `Fs` oracle of
    each call. */
module FileList {
  import opened Wrappers
  import opened Strings
  import opened Seqs
  import opened Config
  import opened FileListSpec
  import opened FileListResolution

  /** What `file_list_modified` carries: `files.served` and `files.included`. */
  datatype Snapshot = Snapshot(served: seq<File>, included: seq<File>)

  function SnapshotOf(ps: seq<Pattern>, b: Buckets): Snapshot {
    Snapshot(Served(ps, b), Included(ps, b))
  }

  /** An `addFile` (`isAdd`) or `changeFile` whose `stat` is in flight, for
      the file with `path` in the bucket `key`. */
  datatype Job = Job(path: string, key: string, isAdd: bool)

  /** A `_refresh` in flight: the buckets it built and the error of its
      first failing preprocessor call, if any. */
  datatype Run = Run(result: Resolution, failure: Option<string>)

  datatype RefreshOutcome =
    | Committed(files: Snapshot)    // the latest refresh: its buckets become the list's
    | Superseded(latest: nat)       // resolves with the refresh started last
    | Rejected(error: string)       // a preprocessor failed

  datatype JobOutcome =
    | Done                          // mtime updated, preprocessed, emission scheduled
    | Unchanged                     // a change whose stat time equals the stored one
    | Gone                          // the file was removed while its stat was in flight
    | StatFailed                    // `stat` found no such file
    | PreprocessFailed(error: string)

  // ---------------------------------------------------------------------
  // Bucket updates

  /** The first position of a file with `path` in `s`. */
  function FindByPath(s: seq<File>, path: string): (r: Option<nat>)
    ensures r.Some? ==> r.value < |s| && s[r.value].path == path
    ensures r.Some? ==> forall j :: 0 <= j < r.value ==> s[j].path != path
    ensures r.None? <==> forall j :: 0 <= j < |s| ==> s[j].path != path
  {
    if s == [] then None
    else if s[0].path == path then Some(0)
    else
      match FindByPath(s[1..], path)
      case None => None
      case Some(i) => Some(i + 1)
  }

  /** `addFile`'s insertion of `f` into the bucket `key` (created if the
      pattern had none). */
  function Insert(b: Buckets, key: string, f: File): Buckets {
    b[key := Get(b, key) + [f]]
  }

  /** `removeFile`'s deletion of the `i`-th file of bucket `key`. */
  function Delete(b: Buckets, key: string, i: nat): Buckets
    requires key in b && i < |b[key]|
  {
    b[key := b[key][..i] + b[key][i + 1..]]
  }

  /** The new stat time of the `i`-th file of bucket `key`. */
  function Touch(b: Buckets, key: string, i: nat, mtime: int): Buckets
    requires key in b && i < |b[key]|
  {
    b[key := b[key][i := b[key][i].(mtime := Some(mtime))]]
  }

  /** Inserting a path that no bucket holds keeps every path unique, and the
      path is tracked afterwards. */
  lemma InsertKeepsUnique(b: Buckets, key: string, f: File)
    requires Unique(b) && !Tracked(b, f.path)
    ensures Unique(Insert(b, key, f))
    ensures Tracked(Insert(b, key, f), f.path)
    ensures forall q :: q != f.path ==> (Tracked(Insert(b, key, f), q) <==> Tracked(b, q))
  {
    var b' := Insert(b, key, f);
    var n := |Get(b, key)|;
    assert b'[key][n] == f;
    forall k1, k2, i, j | k1 in b' && k2 in b' && 0 <= i < |b'[k1]| && 0 <= j < |b'[k2]| && b'[k1][i].path == b'[k2][j].path
      ensures k1 == k2 && i == j
    {
      InsertEntry(b, key, f, k1, i);
      InsertEntry(b, key, f, k2, j);
    }
    forall q | q != f.path && Tracked(b', q) ensures Tracked(b, q) {
      var k1, i :| k1 in b' && 0 <= i < |b'[k1]| && b'[k1][i].path == q;
      InsertEntry(b, key, f, k1, i);
    }
    forall q | Tracked(b, q) ensures Tracked(b', q) {
      var k1, i :| k1 in b && 0 <= i < |b[k1]| && b[k1][i].path == q;
      if k1 == key {
        assert b'[k1][i] == b[k1][i];
      } else {
        assert b'[k1] == b[k1];
      }
    }
  }

  /** An entry after an insertion is the inserted file or an entry that was
      there before. */
  lemma InsertEntry(b: Buckets, key: string, f: File, k: string, i: nat)
    requires k in Insert(b, key, f) && i < |Insert(b, key, f)[k]|
    ensures var e := Insert(b, key, f)[k][i];
      (k == key && i == |Get(b, key)| && e == f) || (k in b && i < |b[k]| && e == b[k][i])
  {
  }

  /** Deleting an entry keeps every path unique and untracks exactly the
      deleted path. */
  lemma DeleteKeepsUnique(b: Buckets, key: string, i: nat)
    requires Unique(b) && key in b && i < |b[key]|
    ensures Unique(Delete(b, key, i))
    ensures !Tracked(Delete(b, key, i), b[key][i].path)
    ensures forall q :: q != b[key][i].path ==> (Tracked(Delete(b, key, i), q) <==> Tracked(b, q))
  {
    var b': Buckets := Delete(b, key, i);
    forall k1: string, k2: string, i1: int, j1: int | k1 in b' && k2 in b' && 0 <= i1 < |b'[k1]| && 0 <= j1 < |b'[k2]| && b'[k1][i1].path == b'[k2][j1].path
      ensures k1 == k2 && i1 == j1
    {
      var x := DeleteEntry(b, key, i, k1, i1);
      var y := DeleteEntry(b, key, i, k2, j1);
    }
    forall k1: string, i1: int | k1 in b' && 0 <= i1 < |b'[k1]| ensures b'[k1][i1].path != b[key][i].path {
      var x := DeleteEntry(b, key, i, k1, i1);
    }
    forall q | q != b[key][i].path && Tracked(b, q) ensures Tracked(b', q) {
      var k1, i1 :| k1 in b && 0 <= i1 < |b[k1]| && b[k1][i1].path == q;
      if k1 == key {
        if i1 < i {
          assert b'[k1][i1] == b[k1][i1];
        } else {
          assert b'[k1][i1 - 1] == b[k1][i1];
        }
      } else {
        assert b'[k1] == b[k1];
      }
    }
    forall q | Tracked(b', q) ensures Tracked(b, q) {
      var k1: string, i1: int :| k1 in b' && 0 <= i1 < |b'[k1]| && b'[k1][i1].path == q;
      var x := DeleteEntry(b, key, i, k1, i1);
    }
  }

  /** The position before the deletion of an entry after it. */
  lemma DeleteEntry(b: Buckets, key: string, i: nat, k: string, j: nat) returns (x: nat)
    requires key in b && i < |b[key]| && k in Delete(b, key, i) && j < |Delete(b, key, i)[k]|
    ensures k in b && x < |b[k]| && Delete(b, key, i)[k][j] == b[k][x]
    ensures k == key ==> x != i
    ensures k != key ==> x == j
  {
    if k == key && j >= i {
      x := j + 1;
    } else {
      x := j;
    }
  }

  /** A new stat time changes no path. */
  lemma TouchKeepsUnique(b: Buckets, key: string, i: nat, mtime: int)
    requires Unique(b) && key in b && i < |b[key]|
    ensures Unique(Touch(b, key, i, mtime))
  {
    var b': Buckets := Touch(b, key, i, mtime);
    assert forall k: string, j: int :: k in b' && 0 <= j < |b'[k]| ==> k in b && j < |b[k]| && b'[k][j].path == b[k][j].path;
  }

  /** `addFile` then `removeFile` of a path no bucket held gives every
      pattern its former files back. */
  lemma AddRemoveRoundTrip(b: Buckets, key: string, f: File)
    requires !Tracked(b, f.path)
    ensures var b' := Insert(b, key, f);
      FindByPath(b'[key], f.path) == Some(|Get(b, key)|)
      && forall k :: Get(Delete(b', key, |Get(b, key)|), k) == Get(b, k)
  {
    var b' := Insert(b, key, f);
    var n := |Get(b, key)|;
    assert forall j :: 0 <= j < n ==> b'[key][j] == Get(b, key)[j];
    if key in b {
      assert forall j :: 0 <= j < n ==> b[key][j].path != f.path;
    }
    assert b'[key][n].path == f.path;
    var at := FindByPath(b'[key], f.path);
    assert at.Some?;
    assert at.value == n;
    assert b'[key][..n] + b'[key][n + 1..] == Get(b, key);
  }

  /** The served and included files depend only on what each pattern's
      bucket holds. */
  lemma {:induction false} ExpandOnlyGet(ps: seq<Pattern>, b1: Buckets, b2: Buckets, served: bool)
    requires forall k :: Get(b1, k) == Get(b2, k)
    ensures Expand(ps, b1, served) == Expand(ps, b2, served)
  {
    if ps != [] {
      ExpandOnlyGet(ps[1..], b1, b2, served);
    }
  }

  /** Hence `addFile` then `removeFile` of a new path leaves `files` as it
      was. */
  lemma AddRemoveSameFiles(ps: seq<Pattern>, b: Buckets, key: string, f: File)
    requires !Tracked(b, f.path)
    ensures SnapshotOf(ps, Delete(Insert(b, key, f), key, |Get(b, key)|)) == SnapshotOf(ps, b)
  {
    AddRemoveRoundTrip(b, key, f);
    ExpandOnlyGet(ps, Delete(Insert(b, key, f), key, |Get(b, key)|), b, true);
    ExpandOnlyGet(ps, Delete(Insert(b, key, f), key, |Get(b, key)|), b, false);
  }

  // ---------------------------------------------------------------------
  // `_refresh`, one pattern and one path at a time

  lemma PathSetSnoc(s: seq<File>, f: File)
    ensures PathSet(s + [f]) == PathSet(s) + {f.path}
  {
    assert (s + [f])[|s|] == f;
    forall q | q in PathSet(s) ensures q in PathSet(s + [f]) {
      var i :| 0 <= i < |s| && s[i].path == q;
      assert (s + [f])[i] == s[i];
    }
  }

  /** The step of `_refresh` for one pattern: a URL is wrapped, a glob that
      finds nothing leaves an empty bucket, otherwise each globbed path is
      skipped when excluded or already matched, and kept otherwise. */
  method ResolveOne(p: Pattern, matcher: Matcher, excludes: seq<string>, fs: Fs, r0: Resolution) returns (r: Resolution)
    requires Consistent(fs)
    ensures r == ResolvePattern(p, matcher, excludes, fs, r0)
  {
    if IsUrl(p.pattern) {
      r := r0.(buckets := r0.buckets[p.pattern := [File(p.pattern, None, false, true)]]);
      return;
    }
    var found := Glob(fs, p.pattern);
    if found == [] {
      r := r0.(buckets := r0.buckets[p.pattern := []]);
      return;
    }
    GlobConsistent(fs, p.pattern);
    var added, claimed := ScanGlob(p, found, matcher, excludes, fs, r0.claimed);
    if added == [] {
      r := r0;
    } else {
      r := Resolution(r0.buckets[p.pattern := added], claimed, r0.calls + CallsFor(p, added));
    }
  }

  /** The glob loop of `_refresh` for one pattern: each path is skipped
      when excluded or already claimed, and otherwise gets its file and is
      claimed. */
  method ScanGlob(p: Pattern, found: seq<string>, matcher: Matcher, excludes: seq<string>, fs: Fs,
                  claimed0: set<string>) returns (added: seq<File>, claimed: set<string>)
    requires forall i :: 0 <= i < |found| ==> found[i] in fs.stat
    ensures added == ScanPaths(p, found, matcher, excludes, fs, claimed0)
    ensures claimed == claimed0 + PathSet(added)
  {
    added := [];
    claimed := claimed0;
    var rest := found;
    while rest != []
      invariant forall i :: 0 <= i < |rest| ==> rest[i] in fs.stat
      invariant claimed == claimed0 + PathSet(added)
      invariant added + ScanPaths(p, rest, matcher, excludes, fs, claimed)
             == ScanPaths(p, found, matcher, excludes, fs, claimed0)
      decreases |rest|
    {
      var path := rest[0];
      ScanHead(p, rest, matcher, excludes, fs, claimed);
      if !Excluded(matcher, excludes, path) && path !in claimed {
        var f := FileFor(p, fs, path);
        PathSetSnoc(added, f);
        Assoc(added, [f], ScanPaths(p, rest[1..], matcher, excludes, fs, claimed + {path}));
        added := added + [f];
        claimed := claimed + {path};
      }
      rest := rest[1..];
    }
    assert added + [] == added;
  }

  /** One path of `ScanPaths`: skipped, or kept and claimed. */
  lemma ScanHead(p: Pattern, paths: seq<string>, matcher: Matcher, excludes: seq<string>, fs: Fs,
                 claimed: set<string>)
    requires paths != [] && forall i :: 0 <= i < |paths| ==> paths[i] in fs.stat
    ensures var path := paths[0];
      ScanPaths(p, paths, matcher, excludes, fs, claimed)
      == if Excluded(matcher, excludes, path) || path in claimed
         then ScanPaths(p, paths[1..], matcher, excludes, fs, claimed)
         else [FileFor(p, fs, path)] + ScanPaths(p, paths[1..], matcher, excludes, fs, claimed + {path})
  {
  }

  /** `_refresh`: every pattern in declaration order. */
  method ResolveFiles(ps: seq<Pattern>, matcher: Matcher, excludes: seq<string>, fs: Fs) returns (r: Resolution)
    requires Consistent(fs)
    ensures r == Resolve(ps, matcher, excludes, fs)
  {
    r := Resolution(map[], {}, []);
    var n := 0;
    while n < |ps|
      invariant n <= |ps|
      invariant r == StateAt(ps, matcher, excludes, fs, n)
    {
      r := ResolveOne(ps[n], matcher, excludes, fs, r);
      n := n + 1;
    }
    ResolveIsStateAt(ps, matcher, excludes, fs);
  }

  /** A path some pattern yields: a URL pattern itself, or a path its glob
      finds and no exclude matches. */
  ghost predicate Yielded(ps: seq<Pattern>, m: Matcher, ex: seq<string>, fs: Fs, q: string) {
    exists j :: 0 <= j < |ps| &&
      if IsUrl(ps[j].pattern) then q == ps[j].pattern else q in Glob(fs, ps[j].pattern) && !Excluded(m, ex, q)
  }

  /** After a refresh, a path is tracked exactly when some pattern yields
      it. */
  lemma RefreshTracksExactly(ps: seq<Pattern>, m: Matcher, ex: seq<string>, fs: Fs, q: string)
    requires Consistent(fs)
    ensures Tracked(Resolve(ps, m, ex, fs).buckets, q) <==> Yielded(ps, m, ex, fs, q)
  {
    var b := Resolve(ps, m, ex, fs).buckets;
    ResolveSound(ps, m, ex, fs);
    ResolveComplete(ps, m, ex, fs);
    if Tracked(b, q) {
      var k, i :| k in b && 0 <= i < |b[k]| && b[k][i].path == q;
      var j :| 0 <= j < |ps| && ps[j].pattern == k;
      if IsUrl(k) {
        assert b[k][i] == UrlFile(k);
      } else {
        assert Resolved(ps, m, ex, fs, k, b[k][i]);
      }
    }
    if Yielded(ps, m, ex, fs, q) {
      var j :| 0 <= j < |ps| &&
        if IsUrl(ps[j].pattern) then q == ps[j].pattern else q in Glob(fs, ps[j].pattern) && !Excluded(m, ex, q);
      if IsUrl(ps[j].pattern) {
        assert b[q][0] == UrlFile(q);
      }
    }
  }

  // ---------------------------------------------------------------------
  // The list

  class List {
    var patterns: seq<Pattern>
    var excludes: seq<string>
    const matcher: Matcher
    const batchInterval: nat
    var buckets: Buckets
    var clock: nat
    var deadline: Option<nat>          // the debounced emission, when armed
    var jobs: seq<Job>                 // adds and changes in flight
    var runs: map<nat, Run>            // refreshes in flight, by the order they were started
    var refreshes: nat                 // how many `_refresh` calls were made
    var emitted: seq<Snapshot>         // `file_list_modified` emissions, in order
    var stats: seq<string>             // `fs.stat` calls of adds and changes
    var preprocessed: seq<string>      // preprocessor calls, in order

    ghost predicate Valid() reads this {
      && Unique(buckets)
      && forall g :: g in runs ==> g < refreshes && Unique(runs[g].result.buckets)
    }

    /** `files`. */
    function Files(): Snapshot reads this {
      SnapshotOf(patterns, buckets)
    }

    constructor(patterns: seq<Pattern>, excludes: seq<string>, matcher: Matcher, batchInterval: nat)
      ensures Valid()
      ensures this.patterns == patterns && this.excludes == excludes
      ensures this.matcher == matcher && this.batchInterval == batchInterval
      ensures buckets == map[] && clock == 0 && deadline == None && jobs == [] && runs == map[]
      ensures refreshes == 0 && emitted == [] && stats == [] && preprocessed == []
    {
      this.patterns := patterns;
      this.excludes := excludes;
      this.matcher := matcher;
      this.batchInterval := batchInterval;
      buckets := map[];
      clock := 0;
      deadline := None;
      jobs := [];
      runs := map[];
      refreshes := 0;
      emitted := [];
      stats := [];
      preprocessed := [];
    }

    /** `refresh()`: resolve every pattern now, preprocessing every file
        that is not `nocache`; the result waits in `runs` for `Settle`. */
    method Refresh(fs: Fs) returns (g: nat)
      requires Valid() && Consistent(fs)
      modifies this`runs, this`refreshes, this`preprocessed
      ensures Valid()
      ensures g == old(refreshes) && refreshes == g + 1
      ensures var r := Resolve(patterns, matcher, excludes, fs);
        runs == old(runs)[g := Run(r, FirstFailure(r.calls, fs))]
        && preprocessed == old(preprocessed) + r.calls
    {
      var r := ResolveFiles(patterns, matcher, excludes, fs);
      ResolveUnique(patterns, matcher, excludes, fs);
      g := refreshes;
      runs := runs[g := Run(r, FirstFailure(r.calls, fs))];
      refreshes := refreshes + 1;
      preprocessed := preprocessed + r.calls;
    }

    /** `reload(patterns, excludes)`: the new configuration, then `refresh`. */
    method Reload(ps: seq<Pattern>, ex: seq<string>, fs: Fs) returns (g: nat)
      requires Valid() && Consistent(fs)
      modifies this`patterns, this`excludes, this`runs, this`refreshes, this`preprocessed
      ensures Valid()
      ensures patterns == ps && excludes == ex
      ensures g == old(refreshes) && refreshes == g + 1
      ensures var r := Resolve(ps, matcher, ex, fs);
        runs == old(runs)[g := Run(r, FirstFailure(r.calls, fs))]
        && preprocessed == old(preprocessed) + r.calls
    {
      patterns := ps;
      excludes := ex;
      g := Refresh(fs);
    }

    /** The promise of refresh `g` settles: with the error of its first
        failing preprocessor call; else, if a later refresh was started,
        with that one; else its buckets become the list's, and
        `file_list_modified` fires at once. */
    method Settle(g: nat) returns (outcome: RefreshOutcome)
      requires Valid() && g in runs
      modifies this`runs, this`buckets, this`emitted
      ensures Valid()
      ensures runs == old(runs) - {g}
      ensures var run := old(runs)[g];
        if run.failure.Some? then
          outcome == Rejected(run.failure.value) && buckets == old(buckets) && emitted == old(emitted)
        else if g + 1 < refreshes then
          outcome == Superseded(refreshes - 1) && buckets == old(buckets) && emitted == old(emitted)
        else
          buckets == run.result.buckets && outcome == Committed(Files()) && emitted == old(emitted) + [Files()]
    {
      var run := runs[g];
      runs := runs - {g};
      if run.failure.Some? {
        outcome := Rejected(run.failure.value);
      } else if g + 1 < refreshes {
        outcome := Superseded(refreshes - 1);
      } else {
        buckets := run.result.buckets;
        emitted := emitted + [Files()];
        outcome := Committed(Files());
      }
    }

    /** `addFile(path)`: nothing for an excluded, unmatched or already
        tracked path; otherwise the file joins the bucket of the first
        matching pattern at once (so a second add of the same path is a
        no-op) and its `stat` is issued. */
    method AddFile(path: string)
      requires Valid()
      modifies this`buckets, this`jobs, this`stats
      ensures Valid()
      ensures var p := IsIncluded(matcher, patterns, path);
        if Excluded(matcher, excludes, path) || p.None? || Tracked(old(buckets), path) then
          buckets == old(buckets) && jobs == old(jobs) && stats == old(stats)
        else
          buckets == Insert(old(buckets), p.value.pattern, File(path, None, p.value.nocache, false))
          && jobs == old(jobs) + [Job(path, p.value.pattern, true)]
          && stats == old(stats) + [path]
      ensures Tracked(buckets, path) <==> Tracked(old(buckets), path) || (!Excluded(matcher, excludes, path) && IsIncluded(matcher, patterns, path).Some?)
    {
      var p := IsIncluded(matcher, patterns, path);
      if Excluded(matcher, excludes, path) || p.None? || Tracked(buckets, path) {
        return;
      }
      var f := File(path, None, p.value.nocache, false);
      InsertKeepsUnique(buckets, p.value.pattern, f);
      buckets := Insert(buckets, p.value.pattern, f);
      jobs := jobs + [Job(path, p.value.pattern, true)];
      stats := stats + [path];
    }

    /** Where `changeFile`/`removeFile` look for `path`: in the bucket of
        the first pattern matching it. */
    function Locate(path: string): (r: Option<(string, nat)>)
      reads this
      ensures r.Some? ==>
        r.value.0 in buckets && r.value.1 < |buckets[r.value.0]| && buckets[r.value.0][r.value.1].path == path
    {
      match IsIncluded(matcher, patterns, path)
      case None => None
      case Some(p) =>
        match FindByPath(Get(buckets, p.pattern), path)
        case None => None
        case Some(i) => Some((p.pattern, i))
    }

    /** `changeFile(path)`: nothing unless the file is in its pattern's
        bucket; otherwise its `stat` is issued. */
    method ChangeFile(path: string)
      requires Valid()
      modifies this`jobs, this`stats
      ensures Valid()
      ensures match Locate(path)
        case None => jobs == old(jobs) && stats == old(stats)
        case Some(loc) => jobs == old(jobs) + [Job(path, loc.0, false)] && stats == old(stats) + [path]
    {
      var loc := Locate(path);
      if loc.Some? {
        jobs := jobs + [Job(path, loc.value.0, false)];
        stats := stats + [path];
      }
    }

    /** `removeFile(path)`: nothing unless the file is in its pattern's
        bucket; otherwise it is deleted and the emission is (re)scheduled. */
    method RemoveFile(path: string)
      requires Valid()
      modifies this`buckets, this`deadline
      ensures Valid()
      ensures match old(Locate(path))
        case None => buckets == old(buckets) && deadline == old(deadline)
        case Some(loc) => buckets == Delete(old(buckets), loc.0, loc.1) && deadline == Some(clock + batchInterval)
      ensures !Tracked(buckets, path) || old(Locate(path)).None?
    {
      var loc := Locate(path);
      if loc.Some? {
        DeleteKeepsUnique(buckets, loc.value.0, loc.value.1);
        buckets := Delete(buckets, loc.value.0, loc.value.1);
        deadline := Some(clock + batchInterval);
      }
    }

    /** The `stat` of job `i` returns and, when the file is new or its time
        changed, the file is preprocessed (unless `nocache`); success
        (re)schedules the emission. */
    method FinishJob(i: nat, fs: Fs) returns (outcome: JobOutcome)
      requires Valid() && i < |jobs|
      modifies this`buckets, this`jobs, this`deadline, this`preprocessed
      ensures Valid()
      ensures jobs == old(jobs[..i] + jobs[i + 1..])
      ensures var job := old(jobs[i]);
        var at := FindByPath(Get(old(buckets), job.key), job.path);
        if at.None? then
          outcome == Gone && buckets == old(buckets) && deadline == old(deadline) && preprocessed == old(preprocessed)
        else if job.path !in fs.stat then
          outcome == StatFailed && buckets == old(buckets) && deadline == old(deadline) && preprocessed == old(preprocessed)
        else if !job.isAdd && old(buckets)[job.key][at.value].mtime == Some(fs.stat[job.path]) then
          outcome == Unchanged && buckets == old(buckets) && deadline == old(deadline) && preprocessed == old(preprocessed)
        else
          var f := old(buckets)[job.key][at.value];
          buckets == Touch(old(buckets), job.key, at.value, fs.stat[job.path])
          && preprocessed == old(preprocessed) + (if f.doNotCache then [] else [job.path])
          && if !f.doNotCache && job.path in fs.failures then
               outcome == PreprocessFailed(fs.failures[job.path]) && deadline == old(deadline)
             else
               outcome == Done && deadline == Some(clock + batchInterval)
    {
      var job := jobs[i];
      jobs := jobs[..i] + jobs[i + 1..];
      var at := FindByPath(Get(buckets, job.key), job.path);
      if at.None? {
        return Gone;
      }
      if job.path !in fs.stat {
        return StatFailed;
      }
      var mtime := fs.stat[job.path];
      var f := buckets[job.key][at.value];
      if !job.isAdd && f.mtime == Some(mtime) {
        return Unchanged;
      }
      TouchKeepsUnique(buckets, job.key, at.value, mtime);
      buckets := Touch(buckets, job.key, at.value, mtime);
      if f.doNotCache {
        outcome := Done;
      } else {
        preprocessed := preprocessed + [job.path];
        if job.path in fs.failures {
          return PreprocessFailed(fs.failures[job.path]);
        }
        outcome := Done;
      }
      deadline := Some(clock + batchInterval);
    }

    /** The mock clock advances by `ms`: a due emission fires once, with
        the files as they are then, unless an add or change is still in
        flight, in which case it waits for it. */
    method Wind(ms: nat)
      requires Valid()
      modifies this`clock, this`deadline, this`emitted
      ensures Valid()
      ensures clock == old(clock) + ms
      ensures if Due(old(deadline), clock) && jobs == [] then
          deadline == None && emitted == old(emitted) + [Files()]
        else
          deadline == old(deadline) && emitted == old(emitted)
    {
      clock := clock + ms;
      if Due(deadline, clock) && jobs == [] {
        deadline := None;
        emitted := emitted + [Files()];
      }
    }
  }

  predicate Due(deadline: Option<nat>, clock: nat) {
    deadline.Some? && deadline.value <= clock
  }
}
