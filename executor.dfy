/** karma's `Executor` (exercised by `test/unit/executor.spec.js`): starts a
    run when every captured browser is ready, otherwise remembers that a
    run is owed and retries it when the current run completes. */
module Executor {
  /** What the executor emits: `run_start` on the emitter (with the number
      of browsers taking part), `execute` with the client configuration on
      the browser sockets, and `run_complete` on the emitter. */
  datatype Signal = RunStart(browsers: nat) | Execute(client: string) | RunComplete

  class Executor {
    const client: string          // `config.client`, as handed to the browsers
    var scheduled: bool           // `executionScheduled`: a run is owed
    var pending: int              // `pendingCount`: browsers still running
    var signals: seq<Signal>      // what was emitted, in order

    constructor(client: string)
      ensures this.client == client && !scheduled && pending == 0 && signals == []
    {
      this.client := client;
      scheduled := false;
      pending := 0;
      signals := [];
    }

    /** `schedule()` over `captured` browsers, `ready` telling whether all
        of them are ready: no browser means nothing to do; all ready starts
        the run and clears the owed flag; otherwise the run is owed. */
    method Schedule(captured: nat, ready: bool) returns (started: bool)
      modifies this`scheduled, this`pending, this`signals
      ensures started <==> captured > 0 && ready
      ensures started ==>
        !scheduled && pending == captured && signals == old(signals) + [RunStart(captured), Execute(client)]
      ensures captured == 0 ==> scheduled == old(scheduled) && pending == old(pending) && signals == old(signals)
      ensures captured > 0 && !ready ==> scheduled && pending == old(pending) && signals == old(signals)
    {
      if captured == 0 {
        return false;
      }
      if ready {
        scheduled := false;
        pending := captured;
        signals := signals + [RunStart(captured), Execute(client)];
        return true;
      }
      scheduled := true;
      return false;
    }

    /** The `run_complete` listener: an owed run is scheduled again. */
    method OnRunComplete(captured: nat, ready: bool) returns (started: bool)
      modifies this`scheduled, this`pending, this`signals
      ensures started <==> old(scheduled) && captured > 0 && ready
      ensures !old(scheduled) ==> scheduled == old(scheduled) && pending == old(pending) && signals == old(signals)
      ensures started ==>
        !scheduled && pending == captured && signals == old(signals) + [RunStart(captured), Execute(client)]
      ensures old(scheduled) && !started ==> scheduled && pending == old(pending) && signals == old(signals)
    {
      started := false;
      if scheduled {
        started := Schedule(captured, ready);
      }
    }

    /** The `browser_complete` listener: when the last running browser is
        done, `run_complete` is emitted. */
    method OnBrowserComplete()
      modifies this`pending, this`signals
      ensures pending == old(pending) - 1
      ensures signals == old(signals) + (if pending == 0 then [RunComplete] else [])
    {
      pending := pending - 1;
      if pending == 0 {
        signals := signals + [RunComplete];
      }
    }
  }
}
