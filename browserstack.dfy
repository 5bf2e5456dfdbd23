/** The BrowserStack launcher draft (lib/launchers/BrowserStackBase.js): its
    own numbered states, a retry budget spent on every process exit, a
    capture timer per start, temp-dir clean-up callbacks, and the pure
    parsing of a browser name `BS::os::browser[::version]` and selection from
    the browser list the BrowserStack service returns. The service, the
    file system and `setTimeout` are inputs: resolution of the browser,
    process exits and clean-up completions arrive as method calls, and the
    timer runs on an integer clock. */
module BrowserStack {
  import opened Wrappers
  import opened Strings
  import opened Seqs

  /** The draft's state constants. */
  datatype Status = BeingCaptured | Captured | BeingKilled | Finished | BeingTimeouted

  function Code(s: Status): (c: int)
    ensures 1 <= c <= 5
  {
    match s
    case BeingCaptured => 1
    case Captured => 2
    case BeingKilled => 3
    case Finished => 4
    case BeingTimeouted => 5
  }

  /** The five codes are distinct. */
  lemma CodesDistinct(s: Status, t: Status)
    ensures Code(s) == Code(t) <==> s == t
  {
  }

  // ---------------------------------------------------------------------
  // Browser name parsing and selection (`_getBrowser`)

  /** An entry of the service's browser list. `browser` is absent for
      entries that only describe a device. */
  datatype Entry = Entry(os: string, browser: Option<string>, device: Option<string>, version: string)

  /** What the name asks for; `os` is absent for names with fewer than two
      `::` parts (JavaScript's `pop()` on an empty array). */
  datatype Query = Query(os: Option<string>, browser: Option<string>, version: string)

  const LATEST := "latest"

  /** Split on `::`; the version is the last part only when there are
      exactly four parts; then the browser and the OS are taken from the
      end. */
  function ParseName(name: string): (q: Query)
    ensures var parts := Split(name, "::");
      && q.version == (if |parts| == 4 then parts[3] else LATEST)
      && q.browser == Some(if |parts| == 4 then parts[2] else parts[|parts| - 1])
      && q.os == (if |parts| == 4 then Some(parts[1]) else if |parts| >= 2 then Some(parts[|parts| - 2]) else None)
  {
    var parts := Split(name, "::");
    var version := if |parts| == 4 then parts[3] else LATEST;
    var rest := if |parts| == 4 then parts[..3] else parts;
    Query(if |rest| >= 2 then Some(rest[|rest| - 2]) else None, Some(rest[|rest| - 1]), version)
  }

  /** A name assembled from `::`-free pieces with a version parses back
      into its pieces. */
  lemma ParseFourParts(parts: seq<string>)
    requires |parts| == 4 && forall k :: 0 <= k < 4 ==> ':' !in parts[k]
    ensures ParseName(Join(parts, "::")) == Query(Some(parts[1]), Some(parts[2]), parts[3])
  {
    SplitJoin(parts, "::");
  }

  /** A name without a version asks for the latest one. */
  lemma ParseThreeParts(parts: seq<string>)
    requires |parts| == 3 && forall k :: 0 <= k < 3 ==> ':' !in parts[k]
    ensures ParseName(Join(parts, "::")) == Query(Some(parts[1]), Some(parts[2]), LATEST)
  {
    SplitJoin(parts, "::");
  }

  /** The draft's filter: same OS, same browser (an entry describing a
      device never matches, since the query names no device), and the same
      version unless the latest is asked for. */
  predicate Matches(b: Entry, q: Query) {
    && b.device.None?
    && b.browser.Some? && b.browser == q.browser
    && q.os == Some(b.os)
    && (q.version == LATEST || b.version == q.version)
  }

  function Filter(browsers: seq<Entry>, q: Query): (r: seq<Entry>)
    ensures forall k :: 0 <= k < |r| ==> Matches(r[k], q) && r[k] in browsers
    ensures forall b :: b in browsers && Matches(b, q) ==> b in r
    ensures |r| <= |browsers|
  {
    if browsers == [] then []
    else
      var rest := Filter(browsers[1..], q);
      if Matches(browsers[0], q) then [browsers[0]] + rest else rest
  }

  /** `_.filter` keeps list order: the result is the browser list read at
      increasing positions, and those are exactly the positions of the
      matching entries. */
  lemma {:induction false} FilterInOrder(browsers: seq<Entry>, q: Query)
    ensures exists idx :: (PicksAt(Filter(browsers, q), browsers, idx)
      && forall i :: 0 <= i < |browsers| ==> (i in idx <==> Matches(browsers[i], q)))
  {
    if browsers == [] {
      var idx: seq<nat> := [];
      assert PicksAt(Filter(browsers, q), browsers, idx);
    } else {
      FilterInOrder(browsers[1..], q);
      var idx :| PicksAt(Filter(browsers[1..], q), browsers[1..], idx)
        && forall i :: 0 <= i < |browsers[1..]| ==> (i in idx <==> Matches(browsers[1..][i], q));
      var idx' := FilterStep(browsers, q, idx);
    }
  }

  /** The inductive step of `FilterInOrder`: the positions found for the
      tail, shifted, and position 0 when the head matches. */
  lemma FilterStep(browsers: seq<Entry>, q: Query, idx: seq<nat>) returns (idx': seq<nat>)
    requires browsers != []
    requires PicksAt(Filter(browsers[1..], q), browsers[1..], idx)
    requires forall i :: 0 <= i < |browsers[1..]| ==> (i in idx <==> Matches(browsers[1..][i], q))
    ensures PicksAt(Filter(browsers, q), browsers, idx')
    ensures forall i :: 0 <= i < |browsers| ==> (i in idx' <==> Matches(browsers[i], q))
  {
    var x, tail := browsers[0], browsers[1..];
    assert browsers == [x] + tail;
    var rest := Filter(tail, q);
    if Matches(x, q) {
      assert Filter(browsers, q) == [x] + rest;
      PicksTake(rest, x, tail, idx);
      idx' := [0] + Shift(idx);
    } else {
      assert Filter(browsers, q) == rest;
      PicksSkip(rest, x, tail, idx);
      idx' := Shift(idx);
    }
    assert 0 in idx' <==> Matches(browsers[0], q);
    forall i | 0 < i < |browsers| ensures i in idx' <==> Matches(browsers[i], q) {
      assert tail[i - 1] == browsers[i];
      assert i - 1 in idx <==> Matches(tail[i - 1], q);
    }
  }

  /** Outcome of the selection: a browser (possibly none, when the latest
      version is not in the list), a request to the service for the latest
      version of the first candidate, or an error message. */
  datatype Selection =
    | Chosen(browser: Option<Entry>)
    | AskLatest(first: Entry, candidates: seq<Entry>)
    | Failed(message: string)

  function SelectBrowser(name: string, browsers: seq<Entry>): (s: Selection)
    ensures var q := ParseName(name);
      && (s.Chosen? ==>
            s.browser.Some? && Matches(s.browser.value, q)
            && forall b :: b in browsers && Matches(b, q) ==> b == s.browser.value)
      && (s.Chosen? ==> |Filter(browsers, q)| == 1 && s.browser == Some(Filter(browsers, q)[0]))
      && (s.AskLatest? ==>
            q.version == LATEST && |s.candidates| > 1 && s.first == s.candidates[0]
            && s.candidates == Filter(browsers, q)
            && forall b :: b in browsers && Matches(b, q) <==> b in s.candidates)
      && (s.Failed? <==> |Filter(browsers, q)| == 0 || (|Filter(browsers, q)| > 1 && q.version != LATEST))
      && (s.Failed? ==> s.message == "No browser found: " + name)
      && ((forall b :: b in browsers ==> !Matches(b, q)) ==> s.Failed?)
  {
    var q := ParseName(name);
    var found := Filter(browsers, q);
    if |found| > 1 && q.version == LATEST then AskLatest(found[0], found)
    else if |found| == 1 then Chosen(Some(found[0]))
    else
      assert (forall b :: b in browsers ==> !Matches(b, q)) ==> found == [] by {
        if found != [] { assert Matches(found[0], q) && found[0] in browsers; }
      }
      Failed("No browser found: " + name)
  }

  /** The service's answer for the latest version: the candidate with that
      version (none when the list lacks it), or the service's error. */
  function FinishLatest(candidates: seq<Entry>, latest: Result<string, string>): (r: Result<Option<Entry>, string>)
    ensures latest.Err? ==> r == Err(latest.error)
    ensures latest.Ok? ==> r.Ok?
    ensures latest.Ok? && r.value.Some? ==> r.value.value in candidates && r.value.value.version == latest.value
    ensures latest.Ok? && r.value.Some? ==>
      exists k :: 0 <= k < |candidates| && candidates[k] == r.value.value
        && forall j :: 0 <= j < k ==> candidates[j].version != latest.value
    ensures latest.Ok? && r.value.None? ==> forall b :: b in candidates ==> b.version != latest.value
  {
    match latest
    case Err(e) => Err(e)
    case Ok(v) => Ok(FindVersion(candidates, v))
  }

  /** `_.find(candidates, b => b.version === v)`. */
  function FindVersion(candidates: seq<Entry>, v: string): (r: Option<Entry>)
    ensures r.Some? ==>
      exists k :: 0 <= k < |candidates| && candidates[k] == r.value
        && r.value.version == v && forall j :: 0 <= j < k ==> candidates[j].version != v
    ensures r.None? ==> forall b :: b in candidates ==> b.version != v
  {
    var k := FirstWithVersion(candidates, v);
    if k < |candidates| then Some(candidates[k]) else None
  }

  function FirstWithVersion(candidates: seq<Entry>, v: string): (k: nat)
    ensures k <= |candidates|
    ensures k < |candidates| ==> candidates[k].version == v
    ensures forall j :: 0 <= j < k ==> candidates[j].version != v
  {
    if candidates == [] || candidates[0].version == v then 0
    else 1 + FirstWithVersion(candidates[1..], v)
  }

  // ---------------------------------------------------------------------
  // Capture timers

  /** As written, every `start` arms a new capture timer and none is ever
      cleared, so the timers of earlier attempts stay pending. */
  function ArmCaptureAsWritten(pending: seq<nat>, deadline: nat): seq<nat> {
    pending + [deadline]
  }

  /** Corrected: a start replaces the pending capture timer, so no attempt
      can be timed out before its own full window has passed. Every earlier
      deadline is dropped, and the one left is due exactly `timeout` after
      `now`. */
  function ArmCapture(pending: seq<nat>, now: nat, timeout: nat): (r: seq<nat>)
    requires timeout > 0
    ensures forall d :: d in r ==> d >= now + timeout
    ensures forall d :: d in pending && d < now + timeout ==> d !in r
    ensures |r| == 1 && now + timeout in r
  {
    [now + timeout]
  }

  // ---------------------------------------------------------------------
  // The launcher object

  datatype Effect =
    | TempDirCreated(path: string)     // fs.mkdirSync (errors ignored)
    | BrowserRequested                 // _getBrowser asks the service
    | Started(url: string)             // _start(capturingUrl + '?id=' + id)
    | ProcessSpawned                   // _execCommand sets _process
    | ProcessKilled                    // _process.kill()
    | KillWithoutProcess               // _process.kill() with no _process: a TypeError
    | ProcessFailure                   // 'browser_process_failure'
    | TempDirRemoval(path: string)     // rimraf
    | ExitCallback                     // the callback given to kill() runs

  /** What runs once a temp-dir clean-up completes. An exit clean-up
      carries the callback handed to `rimraf` when the process exited
      (`callback` says whether a kill had given one), so a later kill cannot
      change it. */
  datatype Cleanup = RestartAfterCleanup | ExitAfterCleanup(callback: bool)

  class BrowserStackLauncher {
    const id: string
    const captureTimeout: nat
    const initialRetryLimit: nat
    const tempDir: string
    const corrected: bool           // arm the capture timer as ArmCapture does

    var state: Option<Status>
    var capturingUrl: string
    var browser: Option<Entry>
    var retryLimit: int
    var hasExitCallback: bool       // the last kill() was given a callback
    var hasProcess: bool            // `_process` has been set by `_execCommand`
    var browserRequests: nat        // _getBrowser calls not answered yet
    var clock: nat
    var timers: seq<nat>            // deadlines of pending capture timers
    var cleanups: seq<Cleanup>      // temp-dir removals in flight
    var log: seq<Effect>
    ghost var restarts: nat
    ghost var attemptStart: nat     // clock reading at the latest start

    /** Restarts stay below the budget given to the constructor: the budget
        is spent before the check, so at most `retryLimit - 1` restarts. */
    ghost predicate Valid() reads this {
      && (timers != [] ==> captureTimeout > 0)
      && restarts + (if retryLimit > 1 then retryLimit - 1 else 0)
           <= (if initialRetryLimit > 1 then initialRetryLimit - 1 else 0)
      && retryLimit <= initialRetryLimit
      && attemptStart <= clock
      && (corrected ==> |timers| <= 1 && forall d :: d in timers ==> d == attemptStart + captureTimeout)
    }

    /** The capture timers after a start at the current clock reading. */
    function Arm(pending: seq<nat>): seq<nat>
      reads this
      requires captureTimeout > 0
    {
      if corrected then ArmCapture(pending, clock, captureTimeout)
      else ArmCaptureAsWritten(pending, clock + captureTimeout)
    }

    constructor(id: string, tmp: string, captureTimeout: nat, retryLimit: nat, corrected: bool)
      ensures Valid()
      ensures this.id == id && this.captureTimeout == captureTimeout && this.initialRetryLimit == retryLimit
      ensures this.corrected == corrected
      ensures tempDir == tmp + "/testacular-" + id
      ensures state == None && browser == None && this.retryLimit == retryLimit && !hasExitCallback && !hasProcess
      ensures browserRequests == 0 && clock == 0 && timers == [] && cleanups == [] && log == [] && restarts == 0
      ensures attemptStart == 0
    {
      this.id := id;
      this.captureTimeout := captureTimeout;
      this.initialRetryLimit := retryLimit;
      tempDir := tmp + "/testacular-" + id;
      state := None;
      capturingUrl := "";
      browser := None;
      this.retryLimit := retryLimit;
      hasExitCallback := false;
      hasProcess := false;
      browserRequests := 0;
      clock := 0;
      timers := [];
      cleanups := [];
      log := [];
      restarts := 0;
      attemptStart := 0;
      this.corrected := corrected;
    }

    predicate IsCaptured() reads this { state == Some(Captured) }

    /** `start(url)`: record the URL, create the temp directory, ask the
        service for the browser, and arm one more capture timer; as written
        the timers of earlier attempts stay pending, a `corrected` launcher
        replaces them. The state only changes once the browser is resolved. */
    method Start(url: string)
      requires Valid()
      modifies this`capturingUrl, this`log, this`browserRequests, this`timers, this`attemptStart
      ensures Valid() && capturingUrl == url && attemptStart == clock
      ensures log == old(log) + [TempDirCreated(tempDir), BrowserRequested]
      ensures browserRequests == old(browserRequests) + 1
      ensures timers == (if captureTimeout > 0 then Arm(old(timers)) else old(timers))
    {
      capturingUrl := url;
      log := log + [TempDirCreated(tempDir), BrowserRequested];
      browserRequests := browserRequests + 1;
      attemptStart := clock;
      if captureTimeout > 0 {
        timers := Arm(timers);
      }
    }

    /** The `_getBrowser` callback: whatever the outcome (an error leaves no
        browser), start with the capture URL and wait for the browser. */
    method BrowserResolved(b: Option<Entry>)
      requires Valid() && browserRequests > 0
      modifies this`browser, this`log, this`state, this`browserRequests
      ensures Valid() && browser == b && state == Some(BeingCaptured)
      ensures browserRequests == old(browserRequests) - 1
      ensures log == old(log) + [Started(capturingUrl + "?id=" + id)]
    {
      browser := b;
      log := log + [Started(capturingUrl + "?id=" + id)];
      state := Some(BeingCaptured);
      browserRequests := browserRequests - 1;
    }

    /** `_execCommand`, run by a launcher's own `_start`: the process is
        spawned and `_process` set; its `close` event arrives as
        `ProcessExit`. */
    method ExecCommand()
      requires Valid()
      modifies this`hasProcess, this`log
      ensures Valid() && hasProcess && log == old(log) + [ProcessSpawned]
    {
      hasProcess := true;
      log := log + [ProcessSpawned];
    }

    /** `markCaptured()`: unconditionally captured. */
    method MarkCaptured()
      requires Valid()
      modifies this`state
      ensures Valid() && state == Some(Captured) && IsCaptured()
    {
      state := Some(Captured);
    }

    /** The effect of `self._process.kill()`: a kill when a process was
        spawned, a TypeError when `_process` was never set. */
    function KillEffect(): Effect reads this {
      if hasProcess then ProcessKilled else KillWithoutProcess
    }

    /** `kill(callback)`: remember the callback (`callback` says whether
        one was given; without one a no-op runs in its place); a launcher
        that has not finished is marked as being killed and its process
        killed, a finished one only runs the callback. Before any
        `_execCommand` there is no process, and the kill throws (`thrown`)
        after the state is set. */
    method Kill(callback: bool) returns (thrown: bool)
      requires Valid()
      modifies this`hasExitCallback, this`state, this`log
      ensures Valid() && hasExitCallback == callback
      ensures thrown <==> old(state) != Some(Finished) && !hasProcess
      ensures old(state) != Some(Finished) ==> state == Some(BeingKilled) && log == old(log) + [KillEffect()]
      ensures old(state) == Some(Finished) ==>
        state == old(state) && log == old(log) + (if callback then [ExitCallback] else [])
    {
      hasExitCallback := callback;
      thrown := false;
      if state != Some(Finished) {
        state := Some(BeingKilled);
        log := log + [KillEffect()];
        thrown := !hasProcess;
      } else if callback {
        log := log + [ExitCallback];
      }
    }

    /** `_onTimeout`: only a launcher still waiting for its browser is
        marked as timed out and has its process killed. */
    method OnTimeout()
      requires Valid()
      modifies this`state, this`log
      ensures Valid()
      ensures old(state) == Some(BeingCaptured) ==> state == Some(BeingTimeouted) && log == old(log) + [KillEffect()]
      ensures old(state) != Some(BeingCaptured) ==> state == old(state) && log == old(log)
    {
      if state == Some(BeingCaptured) {
        state := Some(BeingTimeouted);
        log := log + [KillEffect()];
      }
    }

    /** The clock advances by `ms`; every capture timer that falls due fires,
        earliest first. */
    method Wind(ms: nat)
      requires Valid()
      modifies this`clock, this`timers, this`state, this`log
      ensures Valid() && clock == old(clock) + ms
      ensures forall d :: d in timers ==> d > clock
      ensures forall d :: d in timers <==> d in old(timers) && d > clock
      ensures old(state) != Some(BeingCaptured) ==> state == old(state) && log == old(log)
      ensures old(state) == Some(BeingCaptured) ==>
        if exists d :: d in old(timers) && d <= clock
        then state == Some(BeingTimeouted) && log == old(log) + [KillEffect()]
        else state == old(state) && log == old(log)
    {
      clock := clock + ms;
      var due: seq<nat> := [];
      var rest: seq<nat> := [];
      var k := 0;
      while k < |timers|
        invariant 0 <= k <= |timers| && timers == old(timers) && |rest| <= k
        invariant forall d :: d in due ==> d <= clock && d in old(timers)
        invariant forall d :: d in rest ==> d > clock && d in old(timers)
        invariant forall j :: 0 <= j < k ==> (timers[j] <= clock ==> timers[j] in due)
        invariant forall j :: 0 <= j < k ==> (timers[j] > clock ==> timers[j] in rest)
      {
        if timers[k] <= clock {
          due := due + [timers[k]];
        } else {
          rest := rest + [timers[k]];
        }
        k := k + 1;
      }
      assert rest != [] ==> rest[0] in old(timers);
      assert |due| > 0 ==> due[0] in due;
      timers := rest;
      ghost var s0 := state;
      k := 0;
      while k < |due|
        invariant 0 <= k <= |due| && Valid()
        invariant clock == old(clock) + ms && timers == rest
        invariant s0 != Some(BeingCaptured) ==> state == s0 && log == old(log)
        invariant s0 == Some(BeingCaptured) ==>
          if k > 0 then state == Some(BeingTimeouted) && log == old(log) + [KillEffect()]
          else state == s0 && log == old(log)
      {
        OnTimeout();
        k := k + 1;
      }
      assert (exists d :: d in old(timers) && d <= clock) ==> |due| > 0 by {
        if exists d :: d in old(timers) && d <= clock {
          var d :| d in old(timers) && d <= clock;
          var j :| 0 <= j < |old(timers)| && old(timers)[j] == d;
        }
      }
    }

    /** `_onProcessExit`: the budget is spent on every exit. A launcher that
        was waiting for its browser or timed out restarts after the clean-up
        while budget remains (and does not finish), otherwise reports the
        failure; every other path finishes and runs the kill callback after
        the clean-up. */
    method ProcessExit()
      requires Valid()
      modifies this`retryLimit, this`restarts, this`state, this`cleanups, this`log
      ensures Valid() && retryLimit == old(retryLimit) - 1
      ensures var waiting := old(state) == Some(BeingCaptured) || old(state) == Some(BeingTimeouted);
        if waiting && retryLimit > 0 then
          state == old(state) && cleanups == old(cleanups) + [RestartAfterCleanup]
          && log == old(log) + [TempDirRemoval(tempDir)] && restarts == old(restarts) + 1
        else
          state == Some(Finished) && cleanups == old(cleanups) + [ExitAfterCleanup(hasExitCallback)]
          && log == old(log) + (if waiting then [ProcessFailure] else []) + [TempDirRemoval(tempDir)]
          && restarts == old(restarts)
      ensures restarts > 0 ==> restarts < initialRetryLimit
    {
      retryLimit := retryLimit - 1;
      if state == Some(BeingCaptured) || state == Some(BeingTimeouted) {
        if retryLimit > 0 {
          restarts := restarts + 1;
          cleanups := cleanups + [RestartAfterCleanup];
          log := log + [TempDirRemoval(tempDir)];
          return;
        }
        log := log + [ProcessFailure];
      }
      state := Some(Finished);
      cleanups := cleanups + [ExitAfterCleanup(hasExitCallback)];
      log := log + [TempDirRemoval(tempDir)];
    }

    /** The earliest temp-dir clean-up completes and its continuation runs:
        start again with the saved URL, or run the kill callback. */
    method CleanupDone()
      requires Valid() && |cleanups| > 0
      modifies this`cleanups, this`capturingUrl, this`log, this`browserRequests, this`timers, this`attemptStart
      ensures Valid() && cleanups == old(cleanups)[1..]
      ensures old(cleanups)[0] == RestartAfterCleanup ==>
        log == old(log) + [TempDirCreated(tempDir), BrowserRequested]
        && browserRequests == old(browserRequests) + 1 && capturingUrl == old(capturingUrl)
        && timers == (if captureTimeout > 0 then Arm(old(timers)) else old(timers)) && attemptStart == clock
      ensures old(cleanups)[0].ExitAfterCleanup? ==>
        log == old(log) + (if old(cleanups)[0].callback then [ExitCallback] else [])
        && browserRequests == old(browserRequests) && timers == old(timers) && attemptStart == old(attemptStart)
    {
      var next := cleanups[0];
      cleanups := cleanups[1..];
      match next
      case RestartAfterCleanup =>
        Start(capturingUrl);
      case ExitAfterCleanup(callback) =>
        if callback {
          log := log + [ExitCallback];
        }
    }
  }

  /** The early kill as the launcher runs it. With capture timeout `t`, the
      first attempt's process exits at time `e < t` while the browser is
      still being captured, so it is started again; at time `t` the first
      attempt's timer fires and times the second attempt out, `t - e` after
      it began, while its own timer is still pending at `e + t`. */
  method RestartTimedOutEarly(t: nat, e: nat, retries: nat)
    returns (state: Option<Status>, clock: nat, last: Effect, pending: seq<nat>)
    requires 0 < e < t && retries >= 2
    ensures state == Some(BeingTimeouted) && last == ProcessKilled
    ensures clock == t && forall d :: d in pending <==> d == e + t
  {
    var l := FirstAttempt(t, e, retries, false);
    SecondAttempt(l, t, e);
    assert t in l.timers && l.clock == e;
    l.Wind(t - e);
    state, clock, last, pending := l.state, l.clock, l.log[|l.log| - 1], l.timers;
  }

  /** The same run on a `corrected` launcher: at time `t` the restarted
      attempt is still being captured and nothing was killed, since its one
      timer is due at `e + t`; it is timed out only when the clock reaches
      `e + t`, a full window after it began. */
  method RestartTimedOutOnTime(t: nat, e: nat, retries: nat)
    returns (atT: Option<Status>, killsAtT: nat, atEnd: Option<Status>, clock: nat, last: Effect)
    requires 0 < e < t && retries >= 2
    ensures atT == Some(BeingCaptured) && killsAtT == 0
    ensures atEnd == Some(BeingTimeouted) && clock == e + t && last == ProcessKilled
  {
    var l := FirstAttempt(t, e, retries, true);
    SecondAttempt(l, t, e);
    var before := l.log;
    l.Wind(t - e);
    atT := l.state;
    killsAtT := |l.log| - |before|;
    assert l.clock == t && e + t in l.timers;
    l.Wind(e);
    atEnd, clock, last := l.state, l.clock, l.log[|l.log| - 1];
  }

  /** The callback of a kill is taken when the process exits: a kill with
      callback `first` is followed by the exit, then by a second kill with
      callback `second` on the finished launcher, then by the end of the
      clean-up. The second kill runs its own callback at once, and the
      clean-up still runs the first one. */
  method CallbackFixedAtExit(first: bool, second: bool) returns (after: seq<Effect>)
    ensures after == (if second then [ExitCallback] else []) + (if first then [ExitCallback] else [])
  {
    var l := new BrowserStackLauncher("1", "/tmp", 0, 1, false);
    l.Start("http://localhost:9876/");
    l.BrowserResolved(None);
    l.ExecCommand();
    var thrown := l.Kill(first);
    l.ProcessExit();
    var exited := l.log;
    thrown := l.Kill(second);
    l.CleanupDone();
    after := l.log[|exited|..];
  }

  /** The restart of the scenarios above, at time `e`: the first process
      exits while being captured, the clean-up starts the launcher again,
      and a second capture timer is armed, beside the first as written, in
      its place when corrected. */
  method SecondAttempt(l: BrowserStackLauncher, t: nat, e: nat)
    requires l.Valid() && l.captureTimeout == t && l.retryLimit >= 2 && 0 < e < t
    requires l.state == Some(BeingCaptured) && l.clock == e && l.hasProcess && l.cleanups == []
    requires forall d :: d in l.timers <==> d == t
    modifies l
    ensures l.Valid() && l.state == Some(BeingCaptured) && l.clock == e && l.hasProcess
    ensures forall d :: d in l.timers <==> (d == t && !l.corrected) || d == e + t
  {
    l.ProcessExit();
    l.CleanupDone();
    l.BrowserResolved(None);
  }

  /** The first attempt of the scenarios above, up to time `e`: started,
      its process spawned, still being captured, its timer pending. */
  method FirstAttempt(t: nat, e: nat, retries: nat, corrected: bool) returns (l: BrowserStackLauncher)
    requires 0 < e < t && retries >= 2
    ensures fresh(l) && l.Valid() && l.captureTimeout == t && l.retryLimit == retries && l.corrected == corrected
    ensures l.state == Some(BeingCaptured) && l.clock == e && l.hasProcess && l.cleanups == []
    ensures forall d :: d in l.timers <==> d == t
  {
    l := new BrowserStackLauncher("1", "/tmp", t, retries, corrected);
    l.Start("http://localhost:9876/");
    l.BrowserResolved(None);
    l.ExecCommand();
    assert l.timers == [t];
    l.Wind(e);
  }
}
