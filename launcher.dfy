/** The karma browser launcher: the base lifecycle (`start`, `markCaptured`,
    `kill`, `forceKill`, `restart`, `_done`) with the three decorators the
    launcher factory applies to it, written out as one object:

    - capture timeout: a timer armed on every `start`, cleared on `done`, that
      kills a launcher still waiting for its browser to connect;
    - process: a temp directory per launcher, a spawned browser process whose
      exit and temp-dir removal report `_done`;
    - retry: on a failed `done`, restart while budget remains.

    Promises are explicit: `kill` listeners call back through
    `KillListenerDone`, the process reports `ProcessExit`, the temp-dir
    removal reports `TempDirRemoved`, and the continuations of a settled kill
    promise run when the event loop turns (`Tick`). The mock timer is the
    integer clock advanced by `Wind`. */
module Launcher {
  import opened Wrappers
  import opened Seqs
  import opened Strings

  datatype State =
    | Null
    | BeingCaptured
    | Captured
    | BeingKilled
    | BeingForceKilled
    | Restarting
    | Finished

  /** What the launcher makes happen, in order: events it emits and calls it
      makes on the temp-dir and process services. */
  datatype Effect =
    | StartEvent(url: string)             // 'start' emitted with the capture URL
    | KillEvent                           // 'kill' emitted (asynchronously awaited)
    | DoneEvent                           // 'done' emitted
    | ProcessFailure                      // 'browser_process_failure' on the emitter
    | KillSettled(callers: nat)           // the promises returned by kill() resolve
    | TempDirCreated(path: string)
    | Spawned(command: string, args: seq<string>)
    | ProcessKilled
    | TempDirRemoval(path: string)

  /** The launcher's kill promise while it exists: the `kill` listeners that
      have not called back yet, whether the process layer's listener waits for
      the process to exit, and the continuations attached to it. */
  datatype KillPromise = KillPromise(
    pending: set<nat>,
    awaitingExit: bool,
    finish: bool,       // kill()'s continuation: state := FINISHED
    restarts: nat,      // restart()'s continuations, in order
    callers: nat)       // kill()/forceKill() callers awaiting the promise

  // the errors the launcher reports
  const NoBinary := "no binary"
  const CannotStart := "cannot start"
  const Crashed := "crashed"
  const Timeout := "timeout"

  /** The URL a browser is started with. */
  function CaptureUrl(url: string, id: string): (r: string)
    ensures |r| == |url| + 4 + |id|
    ensures StartsWith(r, url) && EndsWith(r, id)
    ensures r[|url|..|url| + 4] == "?id="
  {
    url + "?id=" + id
  }

  /** JavaScript's `String.prototype.substring(a, b)`: both bounds clamped to
      the string and swapped when `a > b`. */
  function Substring(s: string, a: int, b: int): (r: string)
    ensures var lo := Clamp(Min(a, b), |s|); var hi := Clamp(Max(a, b), |s|);
      lo <= hi && r == s[lo..hi]
  {
    var x := Clamp(a, |s|);
    var y := Clamp(b, |s|);
    if x <= y then s[x..y] else s[y..x]
  }

  function Clamp(i: int, n: nat): nat { if i < 0 then 0 else if i > n then n else i }
  function Min(a: int, b: int): int { if a <= b then a else b }
  function Max(a: int, b: int): int { if a <= b then b else a }

  predicate IsQuote(c: char) { c == '"' || c == '`' || c == '\'' }

  /** The process layer's `_normalizeCommand`: when the first and last
      characters are the same quote character, the one surrounding pair is
      removed. (The `path.normalize` of the result is left out.) */
  function NormalizeCommand(cmd: string): (r: string)
    ensures |cmd| <= 1 ==> r == cmd
    ensures |cmd| >= 2 && IsQuote(cmd[0]) && cmd[0] == cmd[|cmd| - 1] ==> r == cmd[1..|cmd| - 1]
    ensures |cmd| >= 2 && !(IsQuote(cmd[0]) && cmd[0] == cmd[|cmd| - 1]) ==> r == cmd
  {
    if |cmd| > 0 && cmd[0] == cmd[|cmd| - 1] && IsQuote(cmd[0]) then
      Substring(cmd, 1, |cmd| - 1)
    else
      cmd
  }

  /** Quoting a command with one pair of quotes and normalising it gives the
      command back. */
  lemma NormalizeQuoted(q: char, cmd: string)
    requires IsQuote(q)
    ensures NormalizeCommand([q] + cmd + [q]) == cmd
  {
    var quoted := [q] + cmd + [q];
    assert quoted[1..|quoted| - 1] == cmd;
  }

  /** The retry decorator's reaction to `done`: whether it restarts the
      launcher, and the budget left afterwards. */
  datatype RetryStep = RetryStep(restart: bool, limit: int)

  function OnDoneRetry(limit: int, failed: bool): (s: RetryStep)
    ensures s.restart <==> failed && limit > 0
    ensures s.limit == if s.restart then limit - 1 else limit
  {
    if failed && limit > 0 then RetryStep(true, limit - 1) else RetryStep(false, limit)
  }

  /** Whether `_done` reports `browser_process_failure`: a failure that is
      neither expected (a forced kill) nor being retried. */
  predicate ReportsFailure(error: Option<string>, state: State) {
    error.Some? && state != BeingForceKilled && state != Restarting
  }

  /** For each of `n` consecutive failures, starting with budget `limit`,
      whether the retry decorator restarted the launcher. */
  function Crashes(limit: int, n: nat): (r: seq<bool>)
    ensures |r| == n
  {
    if n == 0 then []
    else
      var s := OnDoneRetry(limit, true);
      [s.restart] + Crashes(s.limit, n - 1)
  }

  /** With budget `limit`, exactly the first `limit` consecutive failures are
      retried; every later one gives up. */
  lemma {:induction false} CrashesRetryExactlyBudget(limit: int, n: nat)
    ensures forall k :: 0 <= k < n ==> (Crashes(limit, n)[k] <==> k < limit)
  {
    if n > 0 {
      var s := OnDoneRetry(limit, true);
      CrashesRetryExactlyBudget(s.limit, n - 1);
      forall k | 0 <= k < n ensures Crashes(limit, n)[k] <==> k < limit {
        if k > 0 {
          assert Crashes(limit, n)[k] == Crashes(s.limit, n - 1)[k - 1];
        }
      }
    }
  }

  function Repeat<T>(xs: seq<T>, n: nat): seq<T> {
    if n == 0 then [] else xs + Repeat(xs, n - 1)
  }

  /** The number of 'kill' events in `log` after its last 'start' event. */
  function KillsSinceStart(log: seq<Effect>): nat {
    KillsBefore(log, |log|)
  }

  /** The number of 'kill' events among the first `i` effects of `log`,
      after the last 'start' event among them. */
  function KillsBefore(log: seq<Effect>, i: nat): (r: nat)
    requires i <= |log|
    ensures r <= i
  {
    if i == 0 || log[i - 1].StartEvent? then 0
    else KillsBefore(log, i - 1) + (if log[i - 1] == KillEvent then 1 else 0)
  }

  /** The number of 'kill' events in `effects`. */
  function Kills(effects: seq<Effect>): (r: nat)
    ensures r <= |effects|
  {
    if effects == [] then 0
    else Kills(effects[..|effects| - 1]) + (if effects[|effects| - 1] == KillEvent then 1 else 0)
  }

  predicate NoStart(effects: seq<Effect>) {
    forall i :: 0 <= i < |effects| ==> !effects[i].StartEvent?
  }

  /** Appending effects does not change the count over a prefix. */
  lemma {:induction false} KillsBeforePrefix(log: seq<Effect>, effects: seq<Effect>, i: nat)
    requires i <= |log|
    ensures KillsBefore(log + effects, i) == KillsBefore(log, i)
  {
    if i > 0 {
      assert (log + effects)[i - 1] == log[i - 1];
      KillsBeforePrefix(log, effects, i - 1);
    }
  }

  /** Effects without a 'start' event add their own 'kill' events to the
      count. */
  lemma {:induction false} KillsSinceStartAppend(log: seq<Effect>, effects: seq<Effect>)
    requires NoStart(effects)
    ensures KillsSinceStart(log + effects) == KillsSinceStart(log) + Kills(effects)
  {
    KillsAppendUpTo(log, effects, |effects|);
    assert effects[..|effects|] == effects;
  }

  lemma {:induction false} KillsAppendUpTo(log: seq<Effect>, effects: seq<Effect>, j: nat)
    requires NoStart(effects) && j <= |effects|
    ensures KillsBefore(log + effects, |log| + j) == KillsSinceStart(log) + Kills(effects[..j])
  {
    if j == 0 {
      KillsBeforePrefix(log, effects, |log|);
    } else {
      KillsAppendUpTo(log, effects, j - 1);
      assert (log + effects)[|log| + j - 1] == effects[j - 1];
      assert effects[..j][..j - 1] == effects[..j - 1];
    }
  }

  /** A 'start' event resets the count. */
  lemma KillsSinceStartRestart(log: seq<Effect>, url: string, effects: seq<Effect>)
    requires NoStart(effects)
    ensures KillsSinceStart(log + ([StartEvent(url)] + effects)) == Kills(effects)
  {
    var started := log + [StartEvent(url)];
    assert log + ([StartEvent(url)] + effects) == started + effects;
    assert started[|started| - 1].StartEvent?;
    KillsSinceStartAppend(started, effects);
  }

  class Launcher {
    // configuration
    const id: string
    const captureTimeout: nat       // 0: no capture-timeout decorator
    const retry: bool               // the retry decorator is applied
    const initialRetryLimit: nat
    const process: bool             // the process decorator is applied
    const command: Option<string>   // the browser binary, if the platform has one
    const tempDir: string           // getPath('/karma-' + id)
    const killListeners: nat        // 'kill' listeners registered by other components

    // base launcher
    var state: State
    var error: Option<string>
    var previousUrl: string
    var killing: Option<KillPromise>
    // capture-timeout decorator
    var clock: nat
    var timer: Option<nat>          // deadline of the pending capture timer
    // retry decorator
    var retryLimit: int
    ghost var retryRestarts: nat
    // process decorator
    var running: bool
    var removals: seq<Option<string>>  // temp-dir removals in flight, with the error each reports
    // everything the launcher did, in order
    var log: seq<Effect>

    function Listeners(): set<nat> { Range(killListeners) }

    /** The invariant that holds between calls. */
    ghost predicate Valid() reads this {
      && Core()
      && KillsSinceStart(log) <= 1
      && (killing.None? ==> KillsSinceStart(log) == 0)
    }

    /** The part of `Valid` that does not relate the kill promise to the
        event log (it also holds while a restart drops the kill promise). */
    ghost predicate Core() reads this {
      && (killing.Some? ==> killing.value.pending <= Listeners())
      && (killing.Some? && killing.value.awaitingExit ==> process)
      && (timer.Some? ==> captureTimeout > 0)
      && (!retry ==> retryRestarts == 0)
      && retryRestarts + (if retryLimit > 0 then retryLimit else 0) <= initialRetryLimit
    }

    predicate IsCaptured() reads this { state == Captured }

    /** The kill promise exists and every listener has called back. */
    predicate Settled() reads this {
      killing.Some? && killing.value.pending == {} && !killing.value.awaitingExit
    }

    /** What emitting 'kill' makes happen. */
    function KillEffects(): seq<Effect> reads this {
      [KillEvent] + (if process && running then [ProcessKilled] else [])
    }

    /** What `start(url)` makes happen. */
    function StartEffects(url: string): seq<Effect> {
      [StartEvent(CaptureUrl(url, id))] + (if process then ProcessStartEffects(url) else [])
    }

    /** What the process layer's 'start' listener makes happen. */
    function ProcessStartEffects(url: string): seq<Effect> {
      [TempDirCreated(tempDir)]
        + match command
          case None => [TempDirRemoval(tempDir)]
          case Some(c) => [Spawned(NormalizeCommand(c), [CaptureUrl(url, id)])]
    }

    /** The temp-dir removals `start(url)` begins: only the one that reports
        'no binary'. */
    function StartRemovals(): seq<Option<string>> {
      if process && command.None? then [Some(NoBinary)] else []
    }

    /** Whether `_done` with retry budget `limit` and error `e`, in state
        `s`, makes the retry decorator restart the launcher. */
    predicate RetriesOnDone(limit: int, e: Option<string>, s: State) {
      OnDoneRetry(limit, retry && e.Some?).restart && s != BeingForceKilled
    }

    /** The kill promise `_done` leaves: the existing one, or a settled one
        when there was none, with one more restart() continuation when the
        retry decorator restarts. */
    function DoneKill(k: Option<KillPromise>, restarted: bool): KillPromise {
      var kp := if k.None? then KillPromise({}, false, false, 0, 0) else k.value;
      kp.(restarts := kp.restarts + if restarted then 1 else 0)
    }

    constructor(id: string, captureTimeout: nat, retry: bool, retryLimit: nat,
                process: bool, command: Option<string>, tempRoot: string, killListeners: nat)
      ensures Valid()
      ensures this.id == id && this.captureTimeout == captureTimeout && this.retry == retry
      ensures this.initialRetryLimit == (if retry then retryLimit else 0)
      ensures this.process == process && this.command == command && this.killListeners == killListeners
      ensures this.tempDir == tempRoot + "/karma-" + id
      ensures state == Null && error == None && killing == None && timer == None
      ensures this.retryLimit == initialRetryLimit && !running && removals == [] && log == [] && clock == 0
    {
      this.id := id;
      this.captureTimeout := captureTimeout;
      this.retry := retry;
      this.initialRetryLimit := if retry then retryLimit else 0;
      this.process := process;
      this.command := command;
      this.tempDir := tempRoot + "/karma-" + id;
      this.killListeners := killListeners;
      state := Null;
      error := None;
      previousUrl := "";
      killing := None;
      clock := 0;
      timer := None;
      this.retryLimit := if retry then retryLimit else 0;
      retryRestarts := 0;
      running := false;
      removals := [];
      log := [];
    }

    /** `start(url)`: record the URL, forget any earlier error, emit 'start';
        the capture timer is armed and the process layer creates the temp
        directory and spawns the browser (or reports 'no binary' and turns
        retries off). */
    method Start(url: string)
      requires Core()
      modifies this`previousUrl, this`error, this`state, this`log, this`timer
      modifies this`retryLimit, this`removals, this`running
      ensures Valid()
      ensures state == BeingCaptured && error == None && previousUrl == url
      ensures timer == (if captureTimeout > 0 then Some(clock + captureTimeout) else None)
      ensures log == old(log) + StartEffects(url) && KillsSinceStart(log) == 0
      ensures running == (old(running) || (process && command.Some?))
      ensures removals == old(removals) + StartRemovals()
      ensures retryLimit == (if process && command.None? then -1 else old(retryLimit))
      ensures killing == old(killing) && clock == old(clock) && retryRestarts == old(retryRestarts)
    {
      Announce(url);
      if process {
        SpawnBrowser(url);
        Assoc(old(log), [StartEvent(CaptureUrl(url, id))], ProcessStartEffects(url));
      }
      KillsSinceStartRestart(old(log), CaptureUrl(url, id), if process then ProcessStartEffects(url) else []);
    }

    /** The launcher's own part of `start(url)`, before the process layer
        reacts: the URL is recorded, the error forgotten, 'start' emitted
        and the capture timer armed. */
    method Announce(url: string)
      requires Core()
      modifies this`previousUrl, this`error, this`state, this`log, this`timer
      ensures Core()
      ensures state == BeingCaptured && error == None && previousUrl == url
      ensures timer == (if captureTimeout > 0 then Some(clock + captureTimeout) else None)
      ensures log == old(log) + [StartEvent(CaptureUrl(url, id))]
    {
      previousUrl := url;
      error := None;
      state := BeingCaptured;
      log := log + [StartEvent(CaptureUrl(url, id))];
      timer := if captureTimeout > 0 then Some(clock + captureTimeout) else None;
    }

    /** The process layer's 'start' listener: the temp directory is created
        and the browser spawned, or, without a binary, the directory is
        removed again, the error 'no binary' reported and retries turned
        off. */
    method SpawnBrowser(url: string)
      requires Core()
      modifies this`log, this`retryLimit, this`removals, this`running
      ensures Core()
      ensures log == old(log) + ProcessStartEffects(url)
      ensures running == (old(running) || command.Some?)
      ensures removals == old(removals) + (if command.None? then [Some(NoBinary)] else [])
      ensures retryLimit == (if command.None? then -1 else old(retryLimit))
    {
      log := log + ProcessStartEffects(url);
      match command
      case None =>
        retryLimit := -1;
        removals := removals + [Some(NoBinary)];
      case Some(c) =>
        running := true;
    }

    /** `markCaptured()`: the browser connected; only a launcher waiting for
        its browser becomes captured. */
    method MarkCaptured()
      requires Valid()
      modifies this
      ensures Valid()
      ensures state == (if old(state) == BeingCaptured then Captured else old(state))
      ensures unchanged(this`error, this`previousUrl, this`killing, this`clock, this`timer)
      ensures unchanged(this`retryLimit, this`running, this`removals, this`log)
    {
      if state == BeingCaptured {
        state := Captured;
      }
    }

    /** Emit 'kill' and create the kill promise. The process layer's listener
        kills a running process and waits for it to exit; with no process it
        calls back at once. */
    method EmitKill()
      requires Valid() && killing.None?
      modifies this`killing, this`log
      ensures Valid()
      ensures killing == Some(KillPromise(Listeners(), process && running, false, 0, 0))
      ensures log == old(log) + old(KillEffects()) && KillsSinceStart(log) == 1
    {
      var effects := KillEffects();
      killing := Some(KillPromise(Listeners(), process && running, false, 0, 0));
      KillsSinceStartAppend(log, effects);
      log := log + effects;
    }

    /** The body of `kill()`: a kill promise that already exists is reused
        (no second 'kill' event); otherwise 'kill' is emitted, FINISHED is
        attached as its continuation and the state becomes BEING_KILLED. */
    method BeginKill()
      requires Valid()
      modifies this`killing, this`log, this`state
      ensures Valid()
      ensures old(killing).Some? ==> killing == old(killing) && state == old(state) && log == old(log)
      ensures old(killing).None? ==>
        && killing == Some(KillPromise(Listeners(), process && running, true, 0, 0))
        && state == BeingKilled
        && log == old(log) + old(KillEffects())
    {
      if killing.None? {
        EmitKill();
        killing := Some(killing.value.(finish := true));
        state := BeingKilled;
      }
    }

    /** `kill()`: the caller awaits the (possibly shared) kill promise. */
    method Kill()
      requires Valid()
      modifies this`killing, this`log, this`state
      ensures Valid() && killing.Some?
      ensures killing.value.callers == (if old(killing).Some? then old(killing).value.callers else 0) + 1
      ensures old(killing).Some? ==>
        killing == Some(old(killing).value.(callers := old(killing).value.callers + 1))
        && state == old(state) && log == old(log)
      ensures old(killing).None? ==>
        && killing == Some(KillPromise(Listeners(), process && running, true, 0, 1))
        && state == BeingKilled
        && log == old(log) + old(KillEffects())
    {
      BeginKill();
      killing := Some(killing.value.(callers := killing.value.callers + 1));
    }

    /** `forceKill()`: kill, and mark the kill as expected so that neither a
        restart nor a failure report follows. */
    method ForceKill()
      requires Valid()
      modifies this`killing, this`log, this`state
      ensures Valid() && killing.Some? && state == BeingForceKilled
      ensures old(killing).Some? ==>
        killing == Some(old(killing).value.(callers := old(killing).value.callers + 1)) && log == old(log)
      ensures old(killing).None? ==>
        killing == Some(KillPromise(Listeners(), process && running, true, 0, 1))
        && log == old(log) + old(KillEffects())
    {
      Kill();
      state := BeingForceKilled;
    }

    /** `restart()`: ignored after a forced kill; otherwise kill (emitting
        'kill' only when no kill promise exists) and start again with the
        previous URL once the kill has settled. */
    method Restart()
      requires Valid()
      modifies this`killing, this`log, this`state
      ensures Valid()
      ensures old(state) == BeingForceKilled ==> unchanged(this`killing, this`log, this`state)
      ensures old(state) != BeingForceKilled ==>
        && state == Restarting && killing.Some?
        && killing.value.restarts == (if old(killing).Some? then old(killing).value.restarts else 0) + 1
        && (old(killing).Some? ==>
              killing == Some(old(killing).value.(restarts := old(killing).value.restarts + 1))
              && log == old(log))
        && (old(killing).None? ==>
              killing == Some(KillPromise(Listeners(), process && running, false, 1, 0))
              && log == old(log) + old(KillEffects()))
    {
      if state != BeingForceKilled {
        if killing.None? {
          EmitKill();
        }
        killing := Some(killing.value.(restarts := killing.value.restarts + 1));
        state := Restarting;
      }
    }

    /** A 'kill' listener registered by another component calls back. */
    method KillListenerDone(i: nat)
      requires Valid()
      modifies this`killing
      ensures Valid()
      ensures old(killing).Some? ==> killing == Some(old(killing).value.(pending := old(killing).value.pending - {i}))
      ensures old(killing).None? ==> killing == None
    {
      if killing.Some? {
        killing := Some(killing.value.(pending := killing.value.pending - {i}));
      }
    }

    /** The decorators' 'done' listeners: the capture-timeout decorator clears
        its timer; the retry decorator restarts a failed launcher while budget
        remains (the kill promise exists, so the restart only adds a
        continuation and emits nothing). */
    method DoneListeners()
      requires Valid() && killing.Some?
      modifies this`timer, this`retryLimit, this`retryRestarts, this`killing, this`state, this`log
      ensures Valid() && timer == None && log == old(log)
      ensures retryLimit == OnDoneRetry(old(retryLimit), retry && error.Some?).limit
      ensures retryRestarts == old(retryRestarts) + (if OnDoneRetry(old(retryLimit), retry && error.Some?).restart then 1 else 0)
      ensures var restarted := OnDoneRetry(old(retryLimit), retry && error.Some?).restart && old(state) != BeingForceKilled;
        && killing == Some(old(killing).value.(restarts := old(killing).value.restarts + if restarted then 1 else 0))
        && state == (if restarted then Restarting else old(state))
    {
      timer := None;
      var step := OnDoneRetry(retryLimit, retry && error.Some?);
      if step.restart {
        Restart();
        retryLimit := step.limit;
        retryRestarts := retryRestarts + 1;
      }
    }

    /** The first steps of `_done`: a missing kill promise becomes a settled
        one and the first error is kept. */
    method SettleKill(err: Option<string>)
      requires Valid()
      modifies this`killing, this`error
      ensures Valid()
      ensures killing == (if old(killing).None? then Some(KillPromise({}, false, false, 0, 0)) else old(killing))
      ensures error == (if old(error).Some? then old(error) else err)
    {
      if killing.None? {
        killing := Some(KillPromise({}, false, false, 0, 0));
      }
      if error.None? {
        error := err;
      }
    }

    /** `_done(error)`: the browser is gone. A missing kill promise becomes a
        settled one (so a restart from a 'done' listener emits no 'kill');
        the first error is kept; 'done' is emitted, which clears the capture
        timer and lets the retry decorator restart; a failure that was
        neither forced nor retried is reported; the state becomes FINISHED. */
    method Done(err: Option<string>)
      requires Valid()
      modifies this
      ensures Valid() && state == Finished && timer == None
      ensures error == (if old(error).Some? then old(error) else err)
      ensures retryLimit == OnDoneRetry(old(retryLimit), retry && error.Some?).limit
      ensures retryRestarts == old(retryRestarts) + (if OnDoneRetry(old(retryLimit), retry && error.Some?).restart then 1 else 0)
      ensures var restarted := RetriesOnDone(old(retryLimit), error, old(state));
        && killing == Some(DoneKill(old(killing), restarted))
        && log == old(log) + [DoneEvent] + (if ReportsFailure(error, if restarted then Restarting else old(state)) then [ProcessFailure] else [])
      ensures old(state) == BeingForceKilled ==> log == old(log) + [DoneEvent]
      ensures retryRestarts <= initialRetryLimit
      ensures unchanged(this`previousUrl, this`clock, this`running, this`removals)
    {
      SettleKill(err);
      // 'done' listeners: the capture-timeout decorator clears its timer, the
      // retry decorator may restart (the kill promise exists, so this adds a
      // continuation and emits nothing)
      DoneListeners();
      EmitDone();
    }

    /** The last steps of `_done`: 'done' is emitted (its listeners have
        already run), a failure that was neither forced nor retried is
        reported, and the state becomes FINISHED. */
    method EmitDone()
      requires Valid()
      modifies this`log, this`state
      ensures Valid() && state == Finished
      ensures log == old(log) + [DoneEvent] + (if ReportsFailure(error, old(state)) then [ProcessFailure] else [])
    {
      var failure := if ReportsFailure(error, state) then [ProcessFailure] else [];
      KillsSinceStartAppend(log, [DoneEvent] + failure);
      log := log + ([DoneEvent] + failure);
      state := Finished;
    }

    /** The mock timer advances by `ms`. A capture timer that falls due fires
        once; it kills the launcher, recording the error 'timeout', only when
        the browser has still not been captured. */
    method Wind(ms: nat)
      requires Valid()
      modifies this
      ensures Valid() && clock == old(clock) + ms
      ensures var fires := old(timer).Some? && old(timer).value <= clock;
        && timer == (if fires then None else old(timer))
        && (fires && old(state) == BeingCaptured ==>
              error == Some(Timeout)
              && (old(killing).None? ==>
                    state == BeingKilled && log == old(log) + old(KillEffects())
                    && killing == Some(KillPromise(Listeners(), process && running, true, 0, 0)))
              && (old(killing).Some? ==> state == old(state) && log == old(log) && killing == old(killing)))
        && (!(fires && old(state) == BeingCaptured) ==>
              unchanged(this`error, this`state, this`log, this`killing))
      ensures unchanged(this`previousUrl, this`retryLimit, this`running, this`removals)
    {
      clock := clock + ms;
      if timer.Some? && timer.value <= clock {
        timer := None;
        if state == BeingCaptured {
          error := Some(Timeout);
          BeginKill();
        }
      }
    }

    /** The spawned process reports an error; 'ENOENT' (the binary does not
        exist) turns retries off. */
    method ProcessError(enoent: bool)
      requires Valid() && running
      modifies this`retryLimit
      ensures Valid()
      ensures retryLimit == (if enoent then -1 else old(retryLimit))
    {
      if enoent {
        retryLimit := -1;
      }
    }

    /** The spawned process exits. Exiting before capture is 'cannot start',
        after capture 'crashed', otherwise (being killed) no error; the temp
        directory is then removed and its removal reports `_done`. */
    method ProcessExit()
      requires Valid() && running
      modifies this`running, this`removals, this`log
      ensures Valid() && !running
      ensures removals == old(removals) + [
        if state == BeingCaptured then Some(CannotStart)
        else if state == Captured then Some(Crashed)
        else None]
      ensures log == old(log) + [TempDirRemoval(tempDir)]
    {
      var e := if state == BeingCaptured then Some(CannotStart)
               else if state == Captured then Some(Crashed)
               else None;
      running := false;
      removals := removals + [e];
      KillsSinceStartAppend(log, [TempDirRemoval(tempDir)]);
      log := log + [TempDirRemoval(tempDir)];
    }

    /** The earliest temp-dir removal completes: `_done` with its error, then
        the process layer's 'kill' listener (if it waited for the exit)
        calls back. */
    method TempDirRemoved()
      requires Valid() && |removals| > 0
      modifies this
      ensures Valid() && state == Finished && timer == None
      ensures removals == old(removals)[1..]
      ensures error == (if old(error).Some? then old(error) else old(removals)[0])
      ensures retryLimit == OnDoneRetry(old(retryLimit), retry && error.Some?).limit
      ensures retryRestarts == old(retryRestarts) + (if OnDoneRetry(old(retryLimit), retry && error.Some?).restart then 1 else 0)
      ensures var restarted := RetriesOnDone(old(retryLimit), error, old(state));
        && killing == Some(DoneKill(old(killing), restarted).(awaitingExit := false))
        && log == old(log) + [DoneEvent] + (if ReportsFailure(error, if restarted then Restarting else old(state)) then [ProcessFailure] else [])
      ensures old(state) == BeingForceKilled ==> log == old(log) + [DoneEvent]
      ensures unchanged(this`previousUrl, this`clock, this`running)
    {
      var e := removals[0];
      removals := removals[1..];
      Done(e);
      killing := Some(killing.value.(awaitingExit := false));
    }

    /** The event loop turns: the continuations of a settled kill promise run
        in order: kill()'s FINISHED, the kill() callers are resolved, then
        each restart() continuation runs. */
    method Tick()
      requires Valid()
      modifies this
      ensures Valid()
      ensures !old(Settled()) ==> unchanged(this)
      ensures unchanged(this`previousUrl, this`clock, this`retryRestarts)
      ensures old(Settled()) ==>
        var kp := old(killing).value;
        var s0 := if kp.finish then Finished else old(state);
        var w := if kp.callers > 0 then [KillSettled(kp.callers)] else [];
        var starts := if s0 == BeingForceKilled then kp.restarts - 1 else kp.restarts;
        if kp.restarts == 0 || (s0 == BeingForceKilled && kp.restarts == 1) then
          && state == (if kp.restarts == 0 then s0 else Finished)
          && log == old(log) + w
          && killing == Some(kp.(finish := false, callers := 0, restarts := 0))
          && unchanged(this`error, this`timer, this`running, this`removals, this`retryLimit)
        else
          && StartedAgain(old(running), old(retryLimit))
          && log == old(log) + w + Repeat(StartEffects(old(previousUrl)), starts)
          && removals == old(removals) + Repeat(StartRemovals(), starts)
    {
      if Settled() {
        var kp := killing.value;
        ResolveKill();
        RunRestarts(kp.restarts);
      }
    }

    /** The first continuations of a settled kill promise: kill()'s FINISHED
        and the resolution of the kill() callers; the restart()
        continuations are still to run. */
    method ResolveKill()
      requires Valid() && Settled()
      modifies this`state, this`killing, this`log
      ensures Valid()
      ensures var kp := old(killing).value;
        && state == (if kp.finish then Finished else old(state))
        && killing == Some(kp.(finish := false, callers := 0, restarts := 0))
        && log == old(log) + (if kp.callers > 0 then [KillSettled(kp.callers)] else [])
    {
      var kp := killing.value;
      if kp.finish {
        state := Finished;
      }
      killing := Some(kp.(finish := false, callers := 0, restarts := 0));
      if kp.callers > 0 {
        KillsSinceStartAppend(log, [KillSettled(kp.callers)]);
        log := log + [KillSettled(kp.callers)];
      }
    }

    /** Run `n` restart() continuations of the settled kill promise, in order:
        after a forced kill the first one only sets FINISHED; every other one
        drops the kill promise and starts again with the previous URL. */
    method RunRestarts(n: nat)
      requires Valid() && killing.Some? && killing.value.restarts == 0
      modifies this
      ensures Valid() && unchanged(this`previousUrl, this`clock, this`retryRestarts)
      ensures n == 0 ==> unchanged(this)
      ensures n == 1 && old(state) == BeingForceKilled ==>
        && state == Finished && log == old(log) && killing == old(killing)
        && unchanged(this`error, this`timer, this`running, this`removals, this`retryLimit)
      ensures n > 0 && !(n == 1 && old(state) == BeingForceKilled) ==>
        var starts := if old(state) == BeingForceKilled then n - 1 else n;
        && StartedAgain(old(running), old(retryLimit))
        && log == old(log) + Repeat(StartEffects(old(previousUrl)), starts)
        && removals == old(removals) + Repeat(StartRemovals(), starts)
    {
      if n == 0 {
        return;
      }
      var url := previousUrl;
      var starts := n;
      if state == BeingForceKilled {
        RestartContinuation(url);
        starts := n - 1;
      }
      StartAgain(url, starts);
    }

    /** Run `n` restart() continuations, none of them after a forced kill:
        each drops the kill promise and starts again with `url`. */
    method StartAgain(url: string, n: nat)
      requires Valid() && previousUrl == url && state != BeingForceKilled
      modifies this`previousUrl, this`error, this`state, this`log, this`timer
      modifies this`retryLimit, this`removals, this`running, this`killing
      ensures Valid() && previousUrl == url
      ensures log == old(log) + Repeat(StartEffects(url), n)
      ensures removals == old(removals) + Repeat(StartRemovals(), n)
      ensures n == 0 ==> unchanged(this)
      ensures n > 0 ==> StartedAgain(old(running), old(retryLimit))
    {
      if n > 0 {
        StartAgain(url, n - 1);
        RepeatSnoc(StartEffects(url), n - 1);
        RepeatSnoc(StartRemovals(), n - 1);
        RestartContinuation(url);
      }
    }

    /** The state a restart() continuation leaves, given whether the process
        was running and the retry budget before it: captured anew, with no
        kill promise, no error and a fresh capture timer. */
    predicate StartedAgain(wasRunning: bool, limit: int) reads this {
      && state == BeingCaptured && killing == None && error == None
      && timer == (if captureTimeout > 0 then Some(clock + captureTimeout) else None)
      && running == (wasRunning || (process && command.Some?))
      && retryLimit == (if process && command.None? then -1 else limit)
    }

    /** One restart() continuation: after a forced kill it only sets
        FINISHED; otherwise it drops the kill promise and starts again. */
    method RestartContinuation(url: string)
      requires Valid() && previousUrl == url
      modifies this`previousUrl, this`error, this`state, this`log, this`timer
      modifies this`retryLimit, this`removals, this`running, this`killing
      ensures Valid() && previousUrl == url
      ensures old(state) == BeingForceKilled ==>
        && state == Finished && log == old(log) && killing == old(killing)
        && unchanged(this`error, this`timer, this`running, this`removals, this`retryLimit)
      ensures old(state) != BeingForceKilled ==>
        && StartedAgain(old(running), old(retryLimit))
        && log == old(log) + StartEffects(url)
        && removals == old(removals) + StartRemovals()
    {
      if state == BeingForceKilled {
        state := Finished;
      } else {
        killing := None;
        Start(url);
      }
    }
  }

  /** The launcher of the flow tests: capture timeout, process and retry
      decorators, a browser binary at `path`, no other 'kill' listeners. */
  method FlowLauncher(id: string, path: string, tmp: string, timeout: nat, retries: nat) returns (l: Launcher)
    ensures fresh(l) && l.Valid() && l.state == Null && l.log == [] && l.clock == 0 && l.killing.None?
    ensures l.id == id && l.captureTimeout == timeout && l.retry && l.retryLimit == retries
    ensures l.process && l.command == Some(path) && l.killListeners == 0 && !l.running && l.removals == []
    ensures l.tempDir == tmp + "/karma-" + id
  {
    l := new Launcher(id, timeout, true, retries, true, Some(path), tmp, 0);
  }

  /** One capture timeout of a flow-test launcher: the mock timer passes
      the deadline, the browser is killed and exits, its temp directory is
      removed and the event loop turns. While retry budget remains the
      browser is started again and no failure is reported; otherwise the
      launcher finishes and reports the failure. */
  method TimeoutCycle(l: Launcher, ms: nat) returns (effects: seq<Effect>)
    requires l.Valid() && l.process && l.retry && l.command.Some? && l.killListeners == 0
    requires l.state == BeingCaptured && l.killing.None? && l.running && l.removals == []
    requires l.timer.Some? && l.timer.value <= l.clock + ms
    modifies l
    ensures l.Valid() && l.removals == [] && l.previousUrl == old(l.previousUrl) && l.clock == old(l.clock) + ms
    ensures old(l.retryLimit) > 0 ==>
      && l.state == BeingCaptured && l.killing.None? && l.running && l.retryLimit == old(l.retryLimit) - 1
      && l.timer == Some(l.clock + l.captureTimeout)
      && effects == [KillEvent, ProcessKilled, TempDirRemoval(l.tempDir), DoneEvent] + l.StartEffects(l.previousUrl)
    ensures old(l.retryLimit) <= 0 ==>
      && l.state == Finished && !l.running
      && effects == [KillEvent, ProcessKilled, TempDirRemoval(l.tempDir), DoneEvent, ProcessFailure]
  {
    var before := l.log;
    FireTimer(l, ms);
    var retried := l.retryLimit > 0;
    ExitAfterKill(l);
    assert l.log == before + [KillEvent, ProcessKilled] + [TempDirRemoval(l.tempDir), DoneEvent] + (if retried then [] else [ProcessFailure]);
    TurnAfterDone(l);
    effects := l.log[|before|..];
  }

  /** The capture timer of a flow-test launcher fires while the browser is
      still being captured: the error becomes 'timeout', 'kill' is
      emitted and the process killed, and the kill waits for its exit. */
  method FireTimer(l: Launcher, ms: nat)
    requires l.Valid() && l.process && l.killListeners == 0
    requires l.state == BeingCaptured && l.killing.None? && l.running && l.removals == []
    requires l.timer.Some? && l.timer.value <= l.clock + ms
    modifies l
    ensures l.Valid() && l.state == BeingKilled && l.error == Some(Timeout) && l.timer == None
    ensures l.killing == Some(KillPromise({}, true, true, 0, 0))
    ensures l.log == old(l.log) + [KillEvent, ProcessKilled] && l.clock == old(l.clock) + ms
    ensures l.running && l.removals == [] && l.retryLimit == old(l.retryLimit) && l.previousUrl == old(l.previousUrl)
  {
    l.Wind(ms);
  }

  /** The killed process of a flow-test launcher exits and its temp
      directory is removed: `_done` keeps the error 'timeout', and the retry
      decorator restarts while budget remains, otherwise the failure is
      reported. The kill promise is then settled. */
  method ExitAfterKill(l: Launcher)
    requires l.Valid() && l.retry && l.state == BeingKilled && l.error == Some(Timeout)
    requires l.killing == Some(KillPromise({}, true, true, 0, 0)) && l.running && l.removals == []
    modifies l
    ensures l.Valid() && l.state == Finished && !l.running && l.removals == [] && l.timer == None
    ensures l.killing == Some(KillPromise({}, false, true, if old(l.retryLimit) > 0 then 1 else 0, 0))
    ensures l.log == old(l.log) + [TempDirRemoval(l.tempDir), DoneEvent] + (if old(l.retryLimit) > 0 then [] else [ProcessFailure])
    ensures l.retryLimit == (if old(l.retryLimit) > 0 then old(l.retryLimit) - 1 else old(l.retryLimit))
    ensures l.previousUrl == old(l.previousUrl) && l.clock == old(l.clock)
  {
    l.ProcessExit();
    l.TempDirRemoved();
  }

  /** The process of a flow-test launcher exits before its browser is
      captured and its temp directory is removed: `_done('cannot start')`
      restarts while retry budget remains, otherwise it reports the
      failure. */
  method ExitBeforeCapture(l: Launcher)
    requires l.Valid() && l.retry && l.state == BeingCaptured && l.killing.None?
    requires l.running && l.removals == []
    modifies l
    ensures l.Valid() && l.state == Finished && !l.running && l.removals == [] && l.timer == None
    ensures l.error == (if old(l.error).Some? then old(l.error) else Some(CannotStart))
    ensures l.killing == Some(KillPromise({}, false, false, if old(l.retryLimit) > 0 then 1 else 0, 0))
    ensures l.log == old(l.log) + [TempDirRemoval(l.tempDir), DoneEvent] + (if old(l.retryLimit) > 0 then [] else [ProcessFailure])
    ensures l.retryLimit == (if old(l.retryLimit) > 0 then old(l.retryLimit) - 1 else old(l.retryLimit))
    ensures l.previousUrl == old(l.previousUrl) && l.clock == old(l.clock)
  {
    l.ProcessExit();
    l.TempDirRemoved();
  }

  /** The process of a flow-test launcher exits before its browser is
      captured, its temp directory is removed and the event loop turns:
      the browser is started again while retry budget remains, otherwise
      the launcher finishes and reports the failure. */
  method ExitCycle(l: Launcher) returns (effects: seq<Effect>)
    requires l.Valid() && l.retry && l.state == BeingCaptured && l.killing.None?
    requires l.running && l.removals == []
    modifies l
    ensures l.Valid() && l.previousUrl == old(l.previousUrl)
    ensures old(l.retryLimit) > 0 ==>
      && l.StartedAgain(false, old(l.retryLimit) - 1)
      && effects == [TempDirRemoval(l.tempDir), DoneEvent] + l.StartEffects(l.previousUrl)
    ensures old(l.retryLimit) <= 0 ==>
      l.state == Finished && effects == [TempDirRemoval(l.tempDir), DoneEvent, ProcessFailure]
  {
    var before := l.log;
    ExitBeforeCapture(l);
    TurnAfterDone(l);
    effects := l.log[|before|..];
  }

  /** The event loop turns after `_done` left a finished launcher with a
      settled kill promise and `restarts` (at most one) restart()
      continuations and no kill() callers: the launcher starts again with
      its previous URL, or stays finished. */
  method TurnAfterDone(l: Launcher)
    requires l.Valid() && l.state == Finished && l.killing.Some?
    requires l.killing.value.pending == {} && !l.killing.value.awaitingExit
    requires l.killing.value.restarts <= 1 && l.killing.value.callers == 0
    modifies l
    ensures l.Valid() && l.previousUrl == old(l.previousUrl) && l.clock == old(l.clock)
    ensures old(l.killing).value.restarts == 1 ==>
      && l.StartedAgain(old(l.running), old(l.retryLimit))
      && l.log == old(l.log) + l.StartEffects(l.previousUrl)
      && l.removals == old(l.removals) + l.StartRemovals()
    ensures old(l.killing).value.restarts == 0 ==>
      && l.state == Finished && l.log == old(l.log) && l.killing.Some?
      && l.removals == old(l.removals) && l.running == old(l.running) && l.retryLimit == old(l.retryLimit)
  {
    l.Tick();
    assert Repeat(l.StartEffects(l.previousUrl), 1) == l.StartEffects(l.previousUrl) + [];
    assert Repeat(l.StartRemovals(), 1) == l.StartRemovals() + [];
  }

  /** What `start(url)` makes a flow-test launcher do: emit 'start', create
      its temp directory and spawn the browser with the capture URL. */
  function FlowStart(id: string, url: string, path: string, tmp: string): (r: seq<Effect>)
    ensures ProcessFailure !in r && Spawned(NormalizeCommand(path), [CaptureUrl(url, id)]) in r
  {
    [StartEvent(CaptureUrl(url, id)), TempDirCreated(tmp + "/karma-" + id), Spawned(NormalizeCommand(path), [CaptureUrl(url, id)])]
  }

  /** process.spec.js 'start -> timeout -> restart': the browser is not
      captured within the timeout; it is killed, exits, and is spawned
      again, and no failure is reported. */
  method TimeoutThenRestart(id: string, url: string, path: string, tmp: string)
    returns (effects: seq<Effect>, state: State)
    ensures effects == [KillEvent, ProcessKilled, TempDirRemoval(tmp + "/karma-" + id), DoneEvent] + FlowStart(id, url, path, tmp)
    ensures ProcessFailure !in effects && state == BeingCaptured
  {
    var l := FlowLauncher(id, path, tmp, 100, 2);
    l.Start(url);
    assert l.StartEffects(url) == FlowStart(id, url, path, tmp);
    effects := TimeoutCycle(l, 101);
    state := l.state;
  }

  /** process.spec.js 'start -> timeout -> 3xrestart -> failure': with two
      retries, the first two timeouts restart the browser without a
      failure; the third spawns nothing and reports the failure. */
  method ThirdTimeoutFails(id: string, url: string, path: string, tmp: string)
    returns (first: seq<Effect>, second: seq<Effect>, third: seq<Effect>, state: State)
    ensures first == second == [KillEvent, ProcessKilled, TempDirRemoval(tmp + "/karma-" + id), DoneEvent] + FlowStart(id, url, path, tmp)
    ensures ProcessFailure !in first && Spawned(NormalizeCommand(path), [CaptureUrl(url, id)]) in first
    ensures third == [KillEvent, ProcessKilled, TempDirRemoval(tmp + "/karma-" + id), DoneEvent, ProcessFailure]
    ensures state == Finished
  {
    var l := FlowLauncher(id, path, tmp, 100, 2);
    l.Start(url);
    assert l.StartEffects(url) == FlowStart(id, url, path, tmp);
    first := TimeoutCycle(l, 101);
    second := TimeoutCycle(l, 101);
    third := TimeoutCycle(l, 201);
    state := l.state;
  }

  /** process.spec.js 'start -> crash -> restart': the browser exits
      before it is captured; the launcher reports 'cannot start', the
      retry decorator starts it again, and no failure is reported. */
  method CrashThenRestart(id: string, url: string, path: string, tmp: string)
    returns (effects: seq<Effect>, state: State)
    ensures effects == [TempDirRemoval(tmp + "/karma-" + id), DoneEvent] + FlowStart(id, url, path, tmp)
    ensures ProcessFailure !in effects && state == BeingCaptured
  {
    var l := FlowLauncher(id, path, tmp, 100, 2);
    l.Start(url);
    assert l.StartEffects(url) == FlowStart(id, url, path, tmp);
    effects := ExitCycle(l);
    state := l.state;
  }

  /** process.spec.js 'should handle spawn ENOENT error and not even
      retry': the binary does not exist, so the process errors and exits;
      the launcher finishes and reports the failure without a restart. */
  method MissingBinaryFails(id: string, url: string, path: string, tmp: string)
    returns (effects: seq<Effect>, state: State)
    ensures effects == [TempDirRemoval(tmp + "/karma-" + id), DoneEvent, ProcessFailure]
    ensures state == Finished
  {
    var l := FlowLauncher(id, path, tmp, 0, 2);
    l.Start(url);
    l.ProcessError(true);
    effects := ExitCycle(l);
    state := l.state;
  }

  /** retry.spec.js 'should restart if browser crashed' and 'should
      eventually fail': a launcher with the retry decorator alone (budget
      2) that reports `error` three times starts again after the first
      two, without a failure, and after the third reports the failure and
      does not start. */
  method CrashesThenFailure(id: string, url: string, tmp: string, error: string)
    returns (first: seq<Effect>, second: seq<Effect>, third: seq<Effect>, state: State)
    ensures first == [DoneEvent, StartEvent(CaptureUrl(url, id))]
    ensures second == first
    ensures third == [DoneEvent, ProcessFailure] && state == Finished
  {
    var l := new Launcher(id, 0, true, 2, false, None, tmp, 0);
    l.Start(url);
    first := CrashCycle(l, error);
    second := CrashCycle(l, error);
    third := CrashCycle(l, error);
    state := l.state;
  }

  /** `_done(error)` on a started retry-only launcher, then the event loop
      turns: the launcher starts again while budget remains, otherwise it
      finishes and reports the failure. */
  method CrashCycle(l: Launcher, error: string) returns (effects: seq<Effect>)
    requires l.Valid() && !l.process && l.retry && l.captureTimeout == 0
    requires l.state == BeingCaptured && l.killing.None? && l.error.None?
    modifies l
    ensures l.Valid() && l.previousUrl == old(l.previousUrl)
    ensures old(l.retryLimit) > 0 ==>
      && l.state == BeingCaptured && l.killing.None? && l.error.None? && l.retryLimit == old(l.retryLimit) - 1
      && effects == [DoneEvent, StartEvent(CaptureUrl(l.previousUrl, l.id))]
    ensures old(l.retryLimit) <= 0 ==> l.state == Finished && effects == [DoneEvent, ProcessFailure]
  {
    var before := l.log;
    l.Done(Some(error));
    TurnAfterDone(l);
    effects := l.log[|before|..];
  }

  function Range(n: nat): (r: set<nat>)
    ensures forall i :: i in r <==> 0 <= i < n
  {
    if n == 0 then {} else Range(n - 1) + {n - 1}
  }

  lemma RepeatSnoc<T>(xs: seq<T>, n: nat)
    ensures Repeat(xs, n + 1) == Repeat(xs, n) + xs
  {
    if n > 0 {
      RepeatSnoc(xs, n - 1);
    }
  }
}
