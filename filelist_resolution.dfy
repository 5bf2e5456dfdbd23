/** What a refresh of the file list yields (`_refresh` in
    `lib/file-list.js`), proved of the resolution functions of
    `FileListSpec`: no path is tracked twice, every entry comes from its
    bucket's glob with the `stat` time and the pattern's `nocache` flag,
    every globbed path that is not excluded is tracked in the bucket of the
    first pattern that found it, and every file is preprocessed exactly
    once unless `nocache`. */
module FileListResolution {
  import opened Wrappers
  import opened Strings
  import opened Config
  import opened FileListSpec

  /** No path occurs twice across all buckets. */
  ghost predicate Unique(b: Buckets) {
    forall k1, k2, i, j ::
      (k1 in b && k2 in b && 0 <= i < |b[k1]| && 0 <= j < |b[k2]| && b[k1][i].path == b[k2][j].path)
      ==> k1 == k2 && i == j
  }

  /** `q` is the path of a file entry that is preprocessed (not `nocache`). */
  ghost predicate Preprocessed(b: Buckets, q: string) {
    exists k, i :: k in b && 0 <= i < |b[k]| && b[k][i].path == q && !b[k][i].isUrl && !b[k][i].doNotCache
  }

  function UrlFile(url: string): File {
    File(url, None, false, true)
  }

  predicate NoDup(s: seq<string>) {
    forall i, j :: 0 <= i < j < |s| ==> s[i] != s[j]
  }

  lemma NoDupAppend(a: seq<string>, c: seq<string>)
    requires NoDup(a) && NoDup(c) && forall x :: x in c ==> x !in a
    ensures NoDup(a + c)
  {
    forall i, j | 0 <= i < j < |a + c| ensures (a + c)[i] != (a + c)[j] {
      if j >= |a| {
        assert (a + c)[j] == c[j - |a|];
        if i >= |a| {
          assert (a + c)[i] == c[i - |a|];
        } else {
          assert (a + c)[i] == a[i] && a[i] in a && c[j - |a|] in c;
        }
      } else {
        assert (a + c)[i] == a[i] && (a + c)[j] == a[j];
      }
    }
  }

  /** A file entry of bucket `k` as a refresh builds it. */
  ghost predicate Resolved(all: seq<Pattern>, m: Matcher, ex: seq<string>, fs: Fs, k: string, f: File) {
    && !f.isUrl && f.path in Glob(fs, k) && f.path in fs.stat && !Excluded(m, ex, f.path)
    && f.mtime == Some(fs.stat[f.path])
    && exists j :: 0 <= j < |all| && all[j].pattern == k && all[j].nocache == f.doNotCache
  }

  /** What holds of every intermediate state of a refresh over the
      patterns `all`. */
  ghost predicate Good(all: seq<Pattern>, m: Matcher, ex: seq<string>, fs: Fs, r: Resolution) {
    && Unique(r.buckets)
    && UrlBuckets(r)
    && BucketsFromPatterns(all, r)
    && EntriesResolved(all, m, ex, fs, r)
    && ClaimedTracked(r)
    && GlobsClaimed(m, ex, fs, r)
    && NoDup(r.calls)
    && CallsPreprocessed(r)
  }

  /** A URL pattern's bucket holds just its URL. */
  ghost predicate UrlBuckets(r: Resolution) {
    forall k :: k in r.buckets && IsUrl(k) ==> r.buckets[k] == [UrlFile(k)]
  }

  /** Every bucket belongs to one of the patterns. */
  ghost predicate BucketsFromPatterns(all: seq<Pattern>, r: Resolution) {
    forall k :: k in r.buckets ==> exists j :: 0 <= j < |all| && all[j].pattern == k
  }

  /** Every file entry is built as a refresh builds it, and is claimed. */
  ghost predicate EntriesResolved(all: seq<Pattern>, m: Matcher, ex: seq<string>, fs: Fs, r: Resolution) {
    forall k, i :: k in r.buckets && !IsUrl(k) && 0 <= i < |r.buckets[k]| ==>
      Resolved(all, m, ex, fs, k, r.buckets[k][i]) && r.buckets[k][i].path in r.claimed
  }

  /** Every claimed path is tracked in some bucket. */
  ghost predicate ClaimedTracked(r: Resolution) {
    forall q :: q in r.claimed ==> Tracked(r.buckets, q)
  }

  /** Every path the glob of a resolved pattern finds and no exclude
      matches is claimed. */
  ghost predicate GlobsClaimed(m: Matcher, ex: seq<string>, fs: Fs, r: Resolution) {
    forall k, q :: k in r.buckets && !IsUrl(k) && q in Glob(fs, k) && !Excluded(m, ex, q) ==> q in r.claimed
  }

  /** The preprocessor ran on exactly the preprocessed files. */
  ghost predicate CallsPreprocessed(r: Resolution) {
    forall q :: q in r.calls <==> Preprocessed(r.buckets, q)
  }

  // ---------------------------------------------------------------------
  // One pattern's scan

  /** The files a scan adds are distinct, globbed, not excluded, unclaimed
      and built by `FileFor`. */
  lemma {:induction false} ScanShape(p: Pattern, paths: seq<string>, m: Matcher, ex: seq<string>, fs: Fs,
                                     claimed: set<string>)
    requires forall i :: 0 <= i < |paths| ==> paths[i] in fs.stat
    ensures var added := ScanPaths(p, paths, m, ex, fs, claimed);
      DistinctPaths(added)
      && forall i :: 0 <= i < |added| ==>
           added[i].path in paths && added[i].path in fs.stat && added[i] == FileFor(p, fs, added[i].path)
           && !Excluded(m, ex, added[i].path) && added[i].path !in claimed
    decreases |paths|
  {
    if paths != [] {
      var path := paths[0];
      assert forall i :: 0 <= i < |paths[1..]| ==> paths[1..][i] == paths[i + 1];
      if Excluded(m, ex, path) || path in claimed {
        ScanShape(p, paths[1..], m, ex, fs, claimed);
      } else {
        ScanShape(p, paths[1..], m, ex, fs, claimed + {path});
        var rest := ScanPaths(p, paths[1..], m, ex, fs, claimed + {path});
        var added := ScanPaths(p, paths, m, ex, fs, claimed);
        assert added == [FileFor(p, fs, path)] + rest;
        forall i | 0 < i < |added| ensures added[i] == rest[i - 1] {}
      }
    }
  }

  /** A scan adds every path it sees that is neither excluded nor claimed
      (by an earlier pattern or earlier in the same glob). */
  lemma {:induction false} ScanCovers(p: Pattern, paths: seq<string>, m: Matcher, ex: seq<string>, fs: Fs,
                                      claimed: set<string>)
    requires forall i :: 0 <= i < |paths| ==> paths[i] in fs.stat
    ensures forall i :: 0 <= i < |paths| && !Excluded(m, ex, paths[i]) ==>
      paths[i] in claimed + PathSet(ScanPaths(p, paths, m, ex, fs, claimed))
    decreases |paths|
  {
    if paths != [] {
      var path := paths[0];
      assert forall i :: 0 <= i < |paths[1..]| ==> paths[1..][i] == paths[i + 1];
      var added := ScanPaths(p, paths, m, ex, fs, claimed);
      if Excluded(m, ex, path) || path in claimed {
        ScanCovers(p, paths[1..], m, ex, fs, claimed);
      } else {
        ScanCovers(p, paths[1..], m, ex, fs, claimed + {path});
        var rest := ScanPaths(p, paths[1..], m, ex, fs, claimed + {path});
        assert added == [FileFor(p, fs, path)] + rest;
        assert added[0].path == path;
        forall q | q in PathSet(rest) ensures q in PathSet(added) {
          var i :| 0 <= i < |rest| && rest[i].path == q;
          assert added[i + 1] == rest[i];
        }
      }
    }
  }

  /** A scan of paths that are all excluded or already claimed adds
      nothing. */
  lemma {:induction false} ScanNothingNew(p: Pattern, paths: seq<string>, m: Matcher, ex: seq<string>, fs: Fs,
                                          claimed: set<string>)
    requires forall i :: 0 <= i < |paths| ==> paths[i] in fs.stat
    requires forall i :: 0 <= i < |paths| ==> Excluded(m, ex, paths[i]) || paths[i] in claimed
    ensures ScanPaths(p, paths, m, ex, fs, claimed) == []
    decreases |paths|
  {
    if paths != [] {
      assert forall i :: 0 <= i < |paths[1..]| ==> paths[1..][i] == paths[i + 1];
      ScanNothingNew(p, paths[1..], m, ex, fs, claimed);
    }
  }

  /** The paths `glob` reports for a pattern all have a `stat` entry and
      are not URLs. */
  lemma GlobConsistent(fs: Fs, k: string)
    requires Consistent(fs)
    ensures forall i :: 0 <= i < |Glob(fs, k)| ==> Glob(fs, k)[i] in fs.stat && !IsUrl(Glob(fs, k)[i])
  {
    if k in fs.glob {
      forall i | 0 <= i < |Glob(fs, k)| ensures Glob(fs, k)[i] in fs.stat && !IsUrl(Glob(fs, k)[i]) {
        assert Glob(fs, k)[i] == fs.glob[k][i];
      }
    }
  }

  // ---------------------------------------------------------------------
  // One pattern's step

  /** Each step keeps the refresh invariant, keeps every bucket already
      built, and covers the pattern it handles. */
  lemma StepGood(all: seq<Pattern>, m: Matcher, ex: seq<string>, fs: Fs, n: nat, r: Resolution)
    requires Consistent(fs) && n < |all| && Good(all, m, ex, fs, r)
    ensures var r' := ResolvePattern(all[n], m, ex, fs, r);
      Good(all, m, ex, fs, r')
      && (forall k :: k in r.buckets ==> k in r'.buckets && r'.buckets[k] == r.buckets[k])
      && r.claimed <= r'.claimed
      && (IsUrl(all[n].pattern) ==> all[n].pattern in r'.buckets)
      && (!IsUrl(all[n].pattern) ==> forall q :: q in Glob(fs, all[n].pattern) && !Excluded(m, ex, q) ==> q in r'.claimed)
      && (forall q :: q in r'.claimed && q !in r.claimed ==> q in PathSet(Get(r'.buckets, all[n].pattern)))
  {
    var p := all[n];
    var k := p.pattern;
    if IsUrl(k) {
      StepUrl(all, m, ex, fs, n, r);
    } else {
      var found := Glob(fs, k);
      if found == [] {
        StepEmptyGlob(all, m, ex, fs, n, r);
      } else {
        StepScan(all, m, ex, fs, n, r);
      }
    }
  }

  /** One pattern keeps the refresh invariant. */
  lemma StepKeepsGood(all: seq<Pattern>, m: Matcher, ex: seq<string>, fs: Fs, n: nat, r: Resolution)
    requires Consistent(fs) && n < |all|
    ensures Good(all, m, ex, fs, r) ==> Good(all, m, ex, fs, ResolvePattern(all[n], m, ex, fs, r))
  {
    if Good(all, m, ex, fs, r) {
      StepGood(all, m, ex, fs, n, r);
    }
  }

  lemma StepUrl(all: seq<Pattern>, m: Matcher, ex: seq<string>, fs: Fs, n: nat, r: Resolution)
    requires Consistent(fs) && n < |all| && Good(all, m, ex, fs, r) && IsUrl(all[n].pattern)
    ensures var r' := ResolvePattern(all[n], m, ex, fs, r);
      Good(all, m, ex, fs, r')
      && (forall k :: k in r.buckets ==> k in r'.buckets && r'.buckets[k] == r.buckets[k])
      && r'.claimed == r.claimed && all[n].pattern in r'.buckets
  {
    var k := all[n].pattern;
    var r' := ResolvePattern(all[n], m, ex, fs, r);
    assert r' == r.(buckets := r.buckets[k := [UrlFile(k)]]);
    var b := r.buckets;
    var b' := r'.buckets;
    forall k2 | k2 in b ensures k2 in b' && b'[k2] == b[k2] {
      if k2 == k { assert b[k2] == [UrlFile(k)]; }
    }
    assert Unique(b') by {
      forall k1, k2, i, j | k1 in b' && k2 in b' && 0 <= i < |b'[k1]| && 0 <= j < |b'[k2]| && b'[k1][i].path == b'[k2][j].path
        ensures k1 == k2 && i == j
      {
        UrlPathsDiffer(all, m, ex, fs, r, k, k1, i);
        UrlPathsDiffer(all, m, ex, fs, r, k, k2, j);
      }
    }
    forall q | q in r'.claimed ensures Tracked(b', q) {
      var k1, i :| k1 in b && 0 <= i < |b[k1]| && b[k1][i].path == q;
      assert b'[k1] == b[k1];
    }
    forall q ensures q in r'.calls <==> Preprocessed(b', q) {
      if Preprocessed(b', q) {
        var k1, i :| k1 in b' && 0 <= i < |b'[k1]| && b'[k1][i].path == q && !b'[k1][i].isUrl && !b'[k1][i].doNotCache;
        if k1 != k { assert b[k1] == b'[k1]; }
      }
      if Preprocessed(b, q) {
        var k1, i :| k1 in b && 0 <= i < |b[k1]| && b[k1][i].path == q && !b[k1][i].isUrl && !b[k1][i].doNotCache;
        assert b'[k1] == b[k1];
      }
    }
  }

  /** In the state after a URL step, an entry is either the new URL entry
      or an entry of the old state, and its path tells which. */
  lemma UrlPathsDiffer(all: seq<Pattern>, m: Matcher, ex: seq<string>, fs: Fs, r: Resolution, k: string, k1: string, i: nat)
    requires Consistent(fs) && Good(all, m, ex, fs, r) && IsUrl(k)
    requires k1 in r.buckets[k := [UrlFile(k)]] && i < |r.buckets[k := [UrlFile(k)]][k1]|
    ensures var f := r.buckets[k := [UrlFile(k)]][k1][i];
      (f.path == k ==> k1 == k && i == 0)
      && (f.path != k ==> k1 != k && k1 in r.buckets && r.buckets[k1][i] == f)
  {
    var f := r.buckets[k := [UrlFile(k)]][k1][i];
    if k1 != k {
      assert f == r.buckets[k1][i];
      if IsUrl(k1) {
        assert r.buckets[k1] == [UrlFile(k1)];
      } else {
        assert Resolved(all, m, ex, fs, k1, f);
        GlobConsistent(fs, k1);
      }
    }
  }

  /** Every entry of a filesystem bucket in a good state comes from its
      pattern's glob. */
  lemma BucketInGlob(all: seq<Pattern>, m: Matcher, ex: seq<string>, fs: Fs, r: Resolution, k: string, i: nat)
    requires Good(all, m, ex, fs, r) && k in r.buckets && !IsUrl(k) && i < |r.buckets[k]|
    ensures r.buckets[k][i].path in Glob(fs, k)
  {
    assert Resolved(all, m, ex, fs, k, r.buckets[k][i]);
  }

  lemma StepEmptyGlob(all: seq<Pattern>, m: Matcher, ex: seq<string>, fs: Fs, n: nat, r: Resolution)
    requires Consistent(fs) && n < |all| && Good(all, m, ex, fs, r)
    requires !IsUrl(all[n].pattern) && Glob(fs, all[n].pattern) == []
    ensures var r' := ResolvePattern(all[n], m, ex, fs, r);
      Good(all, m, ex, fs, r')
      && (forall k :: k in r.buckets ==> k in r'.buckets && r'.buckets[k] == r.buckets[k])
      && r'.claimed == r.claimed && all[n].pattern in r'.buckets
  {
    var k := all[n].pattern;
    var r' := ResolvePattern(all[n], m, ex, fs, r);
    var b := r.buckets;
    var b' := r'.buckets;
    assert b' == b[k := []];
    if k in b && |b[k]| > 0 {
      BucketInGlob(all, m, ex, fs, r, k, 0);
      assert false;
    }
    assert forall k2 :: k2 in b ==> b'[k2] == b[k2];
    assert Unique(b') by {
      forall k1, k2, i, j | k1 in b' && k2 in b' && 0 <= i < |b'[k1]| && 0 <= j < |b'[k2]| && b'[k1][i].path == b'[k2][j].path
        ensures k1 == k2 && i == j
      {
        assert b'[k1] == b[k1] && b'[k2] == b[k2];
      }
    }
    forall q | q in r'.claimed ensures Tracked(b', q) {
      var k1, i :| k1 in b && 0 <= i < |b[k1]| && b[k1][i].path == q;
      assert b'[k1] == b[k1];
    }
    forall q ensures q in r'.calls <==> Preprocessed(b', q) {
      if Preprocessed(b', q) {
        var k1, i :| k1 in b' && 0 <= i < |b'[k1]| && b'[k1][i].path == q && !b'[k1][i].isUrl && !b'[k1][i].doNotCache;
        assert b[k1] == b'[k1];
      }
      if Preprocessed(b, q) {
        var k1, i :| k1 in b && 0 <= i < |b[k1]| && b[k1][i].path == q && !b[k1][i].isUrl && !b[k1][i].doNotCache;
        assert b'[k1] == b[k1];
      }
    }
  }

  lemma StepScan(all: seq<Pattern>, m: Matcher, ex: seq<string>, fs: Fs, n: nat, r: Resolution)
    requires Consistent(fs) && n < |all| && Good(all, m, ex, fs, r)
    requires !IsUrl(all[n].pattern) && Glob(fs, all[n].pattern) != []
    ensures var r' := ResolvePattern(all[n], m, ex, fs, r);
      Good(all, m, ex, fs, r')
      && (forall k :: k in r.buckets ==> k in r'.buckets && r'.buckets[k] == r.buckets[k])
      && r.claimed <= r'.claimed
      && (forall q :: q in Glob(fs, all[n].pattern) && !Excluded(m, ex, q) ==> q in r'.claimed)
      && (forall q :: q in r'.claimed && q !in r.claimed ==> q in PathSet(Get(r'.buckets, all[n].pattern)))
  {
    var p := all[n];
    var k := p.pattern;
    var found := Glob(fs, k);
    GlobConsistent(fs, k);
    var added := ScanPaths(p, found, m, ex, fs, r.claimed);
    ScanShape(p, found, m, ex, fs, r.claimed);
    ScanCovers(p, found, m, ex, fs, r.claimed);
    forall q | q in found && !Excluded(m, ex, q) ensures q in r.claimed + PathSet(added) {
      var i :| 0 <= i < |found| && found[i] == q;
    }
    if added != [] {
      assert k !in r.buckets by {
        if k in r.buckets {
          ScanNothingNew(p, found, m, ex, fs, r.claimed);
        }
      }
      StepScanSet(all, m, ex, fs, n, r, added);
      StepScanCalls(all, m, ex, fs, n, r, added);
      var r' := ResolvePattern(all[n], m, ex, fs, r);
      assert r' == Resolution(r.buckets[k := added], r.claimed + PathSet(added),
                              r.calls + CallsFor(p, added));
      assert forall k2 :: k2 in r.buckets ==> r'.buckets[k2] == r.buckets[k2];
    }
  }

  /** The scan of a pattern that had no bucket yet added files: they
      become its bucket. */
  lemma StepScanSet(all: seq<Pattern>, m: Matcher, ex: seq<string>, fs: Fs, n: nat, r: Resolution, added: seq<File>)
    requires Consistent(fs) && n < |all| && Good(all, m, ex, fs, r)
    requires !IsUrl(all[n].pattern) && all[n].pattern !in r.buckets
    requires DistinctPaths(added)
    requires forall i :: 0 <= i < |added| ==>
      added[i].path in Glob(fs, all[n].pattern) && added[i].path in fs.stat && added[i] == FileFor(all[n], fs, added[i].path)
      && !Excluded(m, ex, added[i].path) && added[i].path !in r.claimed
    ensures var r' := Resolution(r.buckets[all[n].pattern := added], r.claimed + PathSet(added),
                                 r.calls + CallsFor(all[n], added));
      && Unique(r'.buckets)
      && (forall k :: k in r'.buckets && IsUrl(k) ==> r'.buckets[k] == [UrlFile(k)])
      && (forall k :: k in r'.buckets ==> exists j :: 0 <= j < |all| && all[j].pattern == k)
      && (forall k, i :: k in r'.buckets && !IsUrl(k) && 0 <= i < |r'.buckets[k]| ==>
            Resolved(all, m, ex, fs, k, r'.buckets[k][i]) && r'.buckets[k][i].path in r'.claimed)
      && (forall q :: q in r'.claimed ==> Tracked(r'.buckets, q))
  {
    var k := all[n].pattern;
    var b := r.buckets;
    var b' := b[k := added];
    var claimed' := r.claimed + PathSet(added);
    assert forall k2 :: k2 in b ==> b'[k2] == b[k2];
    GlobConsistent(fs, k);
    assert forall i :: 0 <= i < |added| ==> !IsUrl(added[i].path) by {
      forall i | 0 <= i < |added| ensures !IsUrl(added[i].path) {
        assert added[i].path in Glob(fs, k);
      }
    }
    assert Unique(b') by {
      forall k1, k2, i, j | k1 in b' && k2 in b' && 0 <= i < |b'[k1]| && 0 <= j < |b'[k2]| && b'[k1][i].path == b'[k2][j].path
        ensures k1 == k2 && i == j
      {
        OldEntryClaimedOrUrl(all, m, ex, fs, r, k1, i, k, added);
        OldEntryClaimedOrUrl(all, m, ex, fs, r, k2, j, k, added);
      }
    }
    forall k2, i | k2 in b' && !IsUrl(k2) && 0 <= i < |b'[k2]|
      ensures Resolved(all, m, ex, fs, k2, b'[k2][i]) && b'[k2][i].path in claimed'
    {
      if k2 == k {
        assert b'[k2][i] == FileFor(all[n], fs, added[i].path);
      }
    }
    forall q | q in claimed' ensures Tracked(b', q) {
      if q in r.claimed {
        var k1, i :| k1 in b && 0 <= i < |b[k1]| && b[k1][i].path == q;
        assert b'[k1] == b[k1];
      } else {
        var i :| 0 <= i < |added| && added[i].path == q;
        assert b'[k][i].path == q;
      }
    }
  }

  /** An entry of the state after setting bucket `k` (absent before) is
      either one of the new files, whose paths are unclaimed and not URLs,
      or an old entry, whose path is claimed or is its URL key. */
  lemma OldEntryClaimedOrUrl(all: seq<Pattern>, m: Matcher, ex: seq<string>, fs: Fs, r: Resolution,
                             k1: string, i: nat, k: string, added: seq<File>)
    requires Consistent(fs) && Good(all, m, ex, fs, r) && k !in r.buckets
    requires forall j :: 0 <= j < |added| ==> added[j].path !in r.claimed && !IsUrl(added[j].path)
    requires k1 in r.buckets[k := added] && i < |r.buckets[k := added][k1]|
    ensures k1 == k ==> r.buckets[k := added][k1][i] == added[i]
    ensures k1 != k ==> r.buckets[k := added][k1][i] == r.buckets[k1][i]
    ensures k1 != k ==> r.buckets[k1][i].path in r.claimed || (IsUrl(k1) && r.buckets[k1][i].path == k1)
  {
    if k1 != k && IsUrl(k1) {
      assert r.buckets[k1] == [UrlFile(k1)];
    }
  }

  /** The preprocessor calls after such a step are distinct and are
      exactly the preprocessed entries. */
  lemma StepScanCalls(all: seq<Pattern>, m: Matcher, ex: seq<string>, fs: Fs, n: nat, r: Resolution, added: seq<File>)
    requires Consistent(fs) && n < |all| && Good(all, m, ex, fs, r)
    requires !IsUrl(all[n].pattern) && all[n].pattern !in r.buckets
    requires DistinctPaths(added)
    requires forall i :: 0 <= i < |added| ==>
      added[i].path in fs.stat && added[i] == FileFor(all[n], fs, added[i].path) && added[i].path !in r.claimed
    ensures var b' := r.buckets[all[n].pattern := added];
      var calls' := r.calls + CallsFor(all[n], added);
      NoDup(calls') && forall q :: q in calls' <==> Preprocessed(b', q)
  {
    var b: Buckets := r.buckets;
    assert forall q :: q in r.calls ==> q in r.claimed by {
      forall q | q in r.calls ensures q in r.claimed {
        var k1: string, i: int :| k1 in b && 0 <= i < |b[k1]| && b[k1][i].path == q && !b[k1][i].isUrl && !b[k1][i].doNotCache;
      }
    }
    CallsAppendNoDup(all[n], added, r.calls, r.claimed);
    CallsAppendExact(b, all[n].pattern, all[n], added, r.calls);
  }

  /** New calls for paths not yet claimed keep the calls distinct. */
  lemma CallsAppendNoDup(p: Pattern, added: seq<File>, calls: seq<string>, claimed: set<string>)
    requires NoDup(calls) && (forall q :: q in calls ==> q in claimed) && DistinctPaths(added)
    requires forall i :: 0 <= i < |added| ==> added[i].path !in claimed
    ensures NoDup(calls + CallsFor(p, added))
  {
    var add := CallsFor(p, added);
    assert NoDup(add) by {
      if !p.nocache {
        forall i, j | 0 <= i < j < |add| ensures add[i] != add[j] {
          assert add[i] == added[i].path && add[j] == added[j].path;
        }
      }
    }
    forall x | x in add ensures x !in calls {
      var j :| 0 <= j < |add| && add[j] == x;
      assert x == added[j].path;
    }
    NoDupAppend(calls, add);
  }

  /** A new bucket of the pattern's files adds exactly its calls to the
      preprocessed paths. */
  lemma CallsAppendExact(b: Buckets, k: string, p: Pattern, added: seq<File>, calls: seq<string>)
    requires k !in b && forall q :: q in calls <==> Preprocessed(b, q)
    requires forall i :: 0 <= i < |added| ==> !added[i].isUrl && added[i].doNotCache == p.nocache
    ensures forall q :: q in calls + CallsFor(p, added) <==> Preprocessed(b[k := added], q)
  {
    var b' := b[k := added];
    var add := CallsFor(p, added);
    forall q | q in calls ensures Preprocessed(b', q) {
      var k1, i :| k1 in b && 0 <= i < |b[k1]| && b[k1][i].path == q && !b[k1][i].isUrl && !b[k1][i].doNotCache;
      assert b'[k1] == b[k1];
    }
    forall q | Preprocessed(b', q) && !Preprocessed(b, q) ensures q in add {
      var k1, i :| k1 in b' && 0 <= i < |b'[k1]| && b'[k1][i].path == q && !b'[k1][i].isUrl && !b'[k1][i].doNotCache;
      if k1 == k {
        assert PathsOf(added)[i] == q;
      }
    }
    if !p.nocache {
      forall q | q in add ensures Preprocessed(b', q) {
        var j :| 0 <= j < |added| && PathsOf(added)[j] == q;
        assert b'[k][j].path == q;
      }
    }
  }

  // ---------------------------------------------------------------------
  // The whole refresh

  /** The state after the first `n` patterns. */
  function StateAt(all: seq<Pattern>, m: Matcher, ex: seq<string>, fs: Fs, n: nat): Resolution
    requires Consistent(fs) && n <= |all|
  {
    if n == 0 then Resolution(map[], {}, []) else ResolvePattern(all[n - 1], m, ex, fs, StateAt(all, m, ex, fs, n - 1))
  }

  /** Resolving the remaining patterns from the state after `n` of them
      gives the resolution of all of them. */
  lemma {:induction false} ResolveIsLastState(all: seq<Pattern>, m: Matcher, ex: seq<string>, fs: Fs, n: nat)
    requires Consistent(fs) && n <= |all|
    ensures ResolveFrom(all[n..], m, ex, fs, StateAt(all, m, ex, fs, n)) == StateAt(all, m, ex, fs, |all|)
    decreases |all| - n
  {
    if n < |all| {
      assert all[n..][0] == all[n] && all[n..][1..] == all[n + 1..];
      StateAtUnfold(all, m, ex, fs, n + 1);
      ResolveIsLastState(all, m, ex, fs, n + 1);
    }
  }

  lemma ResolveIsStateAt(all: seq<Pattern>, m: Matcher, ex: seq<string>, fs: Fs)
    requires Consistent(fs)
    ensures Resolve(all, m, ex, fs) == StateAt(all, m, ex, fs, |all|)
  {
    ResolveIsLastState(all, m, ex, fs, 0);
    assert all[0..] == all;
  }

  lemma GoodInitial(all: seq<Pattern>, m: Matcher, ex: seq<string>, fs: Fs)
    ensures Good(all, m, ex, fs, Resolution(map[], {}, []))
  {
  }

  lemma StateAtUnfold(all: seq<Pattern>, m: Matcher, ex: seq<string>, fs: Fs, n: nat)
    requires Consistent(fs) && 0 < n <= |all|
    ensures StateAt(all, m, ex, fs, n) == ResolvePattern(all[n - 1], m, ex, fs, StateAt(all, m, ex, fs, n - 1))
  {
  }

  /** The refresh invariant holds after the first `n` patterns. */
  lemma {:induction false} StateAtGood(all: seq<Pattern>, m: Matcher, ex: seq<string>, fs: Fs, n: nat)
    requires Consistent(fs) && n <= |all|
    ensures Good(all, m, ex, fs, StateAt(all, m, ex, fs, n))
  {
    if n == 0 {
      GoodInitial(all, m, ex, fs);
    } else {
      StateAtGood(all, m, ex, fs, n - 1);
      StepKeepsGood(all, m, ex, fs, n - 1, StateAt(all, m, ex, fs, n - 1));
    }
  }

  /** A step keeps the buckets set before and the paths claimed before,
      covers its own pattern, and puts the paths it newly claims in its
      pattern's bucket. */
  lemma StateAtStep(all: seq<Pattern>, m: Matcher, ex: seq<string>, fs: Fs, n: nat)
    requires Consistent(fs) && n < |all|
    ensures var r0 := StateAt(all, m, ex, fs, n);
      var r := StateAt(all, m, ex, fs, n + 1);
      && (forall k :: k in r0.buckets ==> k in r.buckets && r.buckets[k] == r0.buckets[k])
      && r0.claimed <= r.claimed
      && (IsUrl(all[n].pattern) ==> all[n].pattern in r.buckets)
      && (!IsUrl(all[n].pattern) ==> forall q :: q in Glob(fs, all[n].pattern) && !Excluded(m, ex, q) ==> q in r.claimed)
      && (forall q :: q in r.claimed && q !in r0.claimed ==>
            !IsUrl(all[n].pattern) && q in Glob(fs, all[n].pattern) && q in PathSet(Get(r.buckets, all[n].pattern)))
  {
    var r0 := StateAt(all, m, ex, fs, n);
    var r := StateAt(all, m, ex, fs, n + 1);
    StateAtGood(all, m, ex, fs, n);
    StepGood(all, m, ex, fs, n, r0);
    forall q | q in r.claimed && q !in r0.claimed
      ensures !IsUrl(all[n].pattern) && q in Glob(fs, all[n].pattern)
    {
      var k := all[n].pattern;
      var i :| 0 <= i < |Get(r.buckets, k)| && Get(r.buckets, k)[i].path == q;
      if !IsUrl(k) {
        BucketInGlob(all, m, ex, fs, r, k, i);
      }
    }
  }

  /** After the first `n` patterns, each of them is covered: a URL pattern
      has its bucket, and the paths its glob finds that no exclude matches
      are claimed. */
  lemma {:induction false} StateAtCovers(all: seq<Pattern>, m: Matcher, ex: seq<string>, fs: Fs, n: nat)
    requires Consistent(fs) && n <= |all|
    ensures var r := StateAt(all, m, ex, fs, n);
      && (forall j :: 0 <= j < n && IsUrl(all[j].pattern) ==> all[j].pattern in r.buckets)
      && (forall j, q :: 0 <= j < n && !IsUrl(all[j].pattern) && q in Glob(fs, all[j].pattern) && !Excluded(m, ex, q) ==>
            q in r.claimed)
  {
    if n > 0 {
      StateAtCovers(all, m, ex, fs, n - 1);
      StateAtStep(all, m, ex, fs, n - 1);
    }
  }

  /** Every path claimed after `n` patterns was globbed by one of them. */
  lemma {:induction false} StateAtClaimsGlobbed(all: seq<Pattern>, m: Matcher, ex: seq<string>, fs: Fs, n: nat)
    requires Consistent(fs) && n <= |all|
    ensures forall q :: q in StateAt(all, m, ex, fs, n).claimed ==>
      exists j :: 0 <= j < n && !IsUrl(all[j].pattern) && q in Glob(fs, all[j].pattern)
  {
    if n > 0 {
      StateAtClaimsGlobbed(all, m, ex, fs, n - 1);
      StateAtStep(all, m, ex, fs, n - 1);
      var r0 := StateAt(all, m, ex, fs, n - 1);
      forall q | q in StateAt(all, m, ex, fs, n).claimed
        ensures exists j :: 0 <= j < n && !IsUrl(all[j].pattern) && q in Glob(fs, all[j].pattern)
      {
        if q in r0.claimed {
          var j :| 0 <= j < n - 1 && !IsUrl(all[j].pattern) && q in Glob(fs, all[j].pattern);
        }
      }
    }
  }

  /** Once set, a bucket keeps its contents for the rest of the refresh. */
  lemma {:induction false} StateAtKeeps(all: seq<Pattern>, m: Matcher, ex: seq<string>, fs: Fs, n: nat, n': nat, k: string)
    requires Consistent(fs) && n <= n' <= |all| && k in StateAt(all, m, ex, fs, n).buckets
    ensures k in StateAt(all, m, ex, fs, n').buckets
    ensures StateAt(all, m, ex, fs, n').buckets[k] == StateAt(all, m, ex, fs, n).buckets[k]
    decreases n' - n
  {
    if n < n' {
      StateAtStep(all, m, ex, fs, n);
      StateAtKeeps(all, m, ex, fs, n + 1, n', k);
    }
  }

  /** No path is tracked twice after a refresh. */
  lemma ResolveUnique(all: seq<Pattern>, m: Matcher, ex: seq<string>, fs: Fs)
    requires Consistent(fs)
    ensures Unique(Resolve(all, m, ex, fs).buckets)
  {
    ResolveIsStateAt(all, m, ex, fs);
    StateAtGood(all, m, ex, fs, |all|);
  }

  /** Every bucket belongs to a pattern; a URL pattern's bucket holds just
      its URL; every other entry is a globbed, not excluded path with its
      `stat` time and its pattern's `nocache` flag. */
  lemma ResolveSound(all: seq<Pattern>, m: Matcher, ex: seq<string>, fs: Fs)
    requires Consistent(fs)
    ensures var b := Resolve(all, m, ex, fs).buckets;
      && (forall k :: k in b ==> exists j :: 0 <= j < |all| && all[j].pattern == k)
      && (forall k :: k in b && IsUrl(k) ==> b[k] == [UrlFile(k)])
      && (forall k, i :: k in b && !IsUrl(k) && 0 <= i < |b[k]| ==> Resolved(all, m, ex, fs, k, b[k][i]))
  {
    ResolveIsStateAt(all, m, ex, fs);
    StateAtGood(all, m, ex, fs, |all|);
  }

  /** Every URL pattern gets its bucket and every globbed path that no
      exclude matches is tracked. */
  lemma ResolveComplete(all: seq<Pattern>, m: Matcher, ex: seq<string>, fs: Fs)
    requires Consistent(fs)
    ensures var b := Resolve(all, m, ex, fs).buckets;
      && (forall j :: 0 <= j < |all| && IsUrl(all[j].pattern) ==> all[j].pattern in b)
      && (forall j, q :: 0 <= j < |all| && !IsUrl(all[j].pattern) && q in Glob(fs, all[j].pattern) && !Excluded(m, ex, q) ==>
            Tracked(b, q))
  {
    ResolveIsStateAt(all, m, ex, fs);
    StateAtGood(all, m, ex, fs, |all|);
    StateAtCovers(all, m, ex, fs, |all|);
  }

  /** Every tracked file that is neither a URL nor `nocache` is handed to
      the preprocessor exactly once, and nothing else is. */
  lemma ResolvePreprocessOnce(all: seq<Pattern>, m: Matcher, ex: seq<string>, fs: Fs)
    requires Consistent(fs)
    ensures var r := Resolve(all, m, ex, fs);
      NoDup(r.calls) && forall q :: q in r.calls <==> Preprocessed(r.buckets, q)
  {
    ResolveIsStateAt(all, m, ex, fs);
    StateAtGood(all, m, ex, fs, |all|);
  }

  /** A path lands in the bucket of the first pattern whose glob finds it,
      unless an exclude matches it. */
  lemma ResolveFirstPattern(all: seq<Pattern>, m: Matcher, ex: seq<string>, fs: Fs, j: nat, q: string)
    requires Consistent(fs) && j < |all| && !IsUrl(all[j].pattern)
    requires q in Glob(fs, all[j].pattern) && !Excluded(m, ex, q)
    requires forall i :: 0 <= i < j && !IsUrl(all[i].pattern) ==> q !in Glob(fs, all[i].pattern)
    ensures q in PathSet(Get(Resolve(all, m, ex, fs).buckets, all[j].pattern))
  {
    var k := all[j].pattern;
    var r0 := StateAt(all, m, ex, fs, j);
    var r1 := StateAt(all, m, ex, fs, j + 1);
    StateAtClaimsGlobbed(all, m, ex, fs, j);
    StateAtStep(all, m, ex, fs, j);
    assert q !in r0.claimed;
    assert q in PathSet(Get(r1.buckets, k));
    StateAtKeeps(all, m, ex, fs, j + 1, |all|, k);
    ResolveIsStateAt(all, m, ex, fs);
  }
}
