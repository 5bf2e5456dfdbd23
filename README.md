# karma core, modelled in Dafny

This project models the core of karma (earlier called testacular), the test
runner that starts browsers, serves them a project's files and reports their
results. The model covers these parts:

- **Browser launchers.** Two state machines are modelled:
  - the generic launcher: start, capture, kill, force kill, restart, retry on
    a crash and the capture timeout, together with the process launcher's
    temp directory, command normalisation and handling of a missing binary;
    its states are BEING_CAPTURED, CAPTURED, BEING_KILLED, BEING_FORCE_KILLED
    and FINISHED, plus `Restarting`, held from a restart's kill until the
    browser starts again, in which the end of the old run reports no
    failure;
  - the BrowserStack launcher: browser selection by
    `BS::os::browser[::version]` and its capture timers as the source arms
    them, one more per start and none cleared, and, for comparison, a
    `corrected` launcher whose start replaces the pending timer.
- **File list.** Patterns are resolved into buckets through a filesystem
  oracle, with exclusion, first-match ownership, the preprocessing of every
  file exactly once, and the `served`/`included` order. The list class also
  handles `addFile`, `changeFile` and `removeFile` and their batching.
- **Events.** The event emitter (`bind`, `bindAll`, `emitAsync`,
  `bufferEvents`), the emitter wrapper that removes only the listeners it
  added, and the executor that schedules runs.
- **Configuration.** Parsing and normalising the configuration: base path,
  patterns, url root, `autoWatch`/`singleRun`, reporters and preprocessors.
- **Command line.** The command-line parser (`processArgs`,
  `parseClientArgs`, `argsBeforeDoubleDash`) and shell completion.
- **`karma init`.** The questionnaire's state machine and the formatters
  that fill the config template.
- **Middleware.** `proxy`, `strip_host` and the `karma` middleware: routing
  under the url root, the client page, `karma.js`, the `context.html` and
  `debug.html` tags, the file-to-url mapping and the `x-ua-compatible`
  pass-through.

The repository's `lib/` sources for these parts are not part of this model,
except `lib/launchers/BrowserStackBase.js`. Their unit tests under
`test/unit/` are the contract the model follows, and the table cites them.
Effects are modelled as data:
- a process spawn, a kill, a temp-dir removal or an emitted event becomes an
  entry in a log sequence;
- timers become deadlines on an integer clock that a `Wind(ms)` method
  advances;
- the filesystem, `glob`, `minimatch` and `stat` are given as oracles.

## Model

| member | source | states |
|---|---|---|
| Launcher.CaptureUrl | test/unit/launchers/base.spec.js:23-29 | the url a browser is started with is the capture url followed by `?id=` and the launcher's id |
| Launcher.NormalizeCommand | test/unit/launchers/process.spec.js:64-73 | a command wrapped in a matching pair of `"`, `'` or backquotes loses exactly those two quotes; any other command is kept as it is (`path.normalize` is not applied) |
| Launcher.NormalizeQuoted | test/unit/launchers/process.spec.js:64-73 | unquoting `q + cmd + q` gives back `cmd` for each of the three quote characters |
| Launcher.OnDoneRetry | test/unit/launchers/retry.spec.js:18-95 | a finished run restarts exactly when it failed and retries remain, and a restart spends one retry |
| Launcher.CrashesRetryExactlyBudget | test/unit/launchers/retry.spec.js:38-95 | over `n` consecutive crashes, the k-th crash is retried exactly when `k` is below the initial retry limit |
| Launcher.Launcher.constructor | test/unit/launchers/process.spec.js:38-46 | a new launcher holds its id, timeout and retry limit (0 without retry), has no error and no timer, and its temp dir is `<tmp>/karma-<id>` |
| Launcher.Launcher.Start | test/unit/launchers/base.spec.js:23-29 | start records the url, enters BEING_CAPTURED, arms the capture timer at `clock + captureTimeout` when the timeout is set, and logs the start effects (a process launcher also makes its temp dir and spawns) |
| Launcher.Launcher.Announce | test/unit/launchers/base.spec.js:23-29 | the launcher's own part of start: the url recorded, the error cleared, BEING_CAPTURED entered, the capture timer armed and `start` logged |
| Launcher.Launcher.SpawnBrowser | test/unit/launchers/process.spec.js:76-97 | without a binary nothing is spawned, a "no binary" removal is queued and retries are cut to -1; otherwise the browser is spawned with the capture url |
| Launcher.Launcher.MarkCaptured | test/unit/launchers/base.spec.js:232-236 | markCaptured moves BEING_CAPTURED to CAPTURED and changes nothing else |
| Launcher.Launcher.Kill | test/unit/launchers/base.spec.js:107-193 | the first kill emits `kill` to every listener, logs the kill effects and enters BEING_KILLED; a kill while one is in progress joins it and logs nothing; every caller is counted |
| Launcher.Launcher.ForceKill | test/unit/launchers/base.spec.js:197-228 | force kill acts as kill and leaves the state BEING_FORCE_KILLED, the state in which no restart and no failure report follow |
| Launcher.Launcher.EmitKill | test/unit/launchers/base.spec.js:117-135 | the kill promise waits for every registered kill listener and for the process exit when one is running |
| Launcher.Launcher.BeginKill | test/unit/launchers/base.spec.js:137-182 | a kill in progress is reused; otherwise a new one is emitted and the state becomes BEING_KILLED |
| Launcher.Launcher.Restart | test/unit/launchers/base.spec.js:33-103 | restart is ignored after a force kill; otherwise it emits a kill (or joins the one in progress) and adds one restart to run once the kill settles |
| Launcher.Launcher.KillListenerDone | test/unit/launchers/base.spec.js:117-135 | a listener that settles is removed from the kill promise's pending set |
| Launcher.Launcher.DoneListeners | test/unit/launchers/base.spec.js:240-257 | settling clears the timer, spends a retry exactly when a retrying launcher failed, and schedules that restart unless force-killed |
| Launcher.Launcher.SettleKill | test/unit/launchers/base.spec.js:240-257 | a `_done` with no kill in progress makes a settled kill promise, and the first error is the one that is kept |
| Launcher.Launcher.Done | test/unit/launchers/base.spec.js:240-257 | `_done` ends in FINISHED with the first error and no timer, logs `done` and then `browser_process_failure` exactly when the failure is neither forced nor retried, applies the retry rule, and leaves the kill promise it found (or a settled one when there was none, with nothing pending and no process to wait for) with one more restart exactly when the retry decorator restarts |
| Launcher.Launcher.Wind | test/unit/launchers/capture_timeout.spec.js:16-63 | when the clock passes the capture deadline while still being captured, the error becomes `timeout` and the browser is killed (or the kill in progress is kept); in any other state the due timer is only dropped |
| Launcher.Launcher.ProcessError | test/unit/launchers/process.spec.js:76-97 | an ENOENT spawn error removes every retry |
| Launcher.Launcher.ProcessExit | test/unit/launchers/process.spec.js:48-61 | the process exit queues the removal of the temp dir, with the reason `cannot start` while being captured, `crashed` once captured and none otherwise |
| Launcher.Launcher.TempDirRemoved | test/unit/launchers/process.spec.js:117-252 | once the temp dir is removed the launcher is FINISHED with no timer, the queued reason becomes the error unless one was already set, the retry rule is applied, the log gains `done` and, when neither forced nor retried, `browser_process_failure`, and the kill promise (kept or settled) no longer waits for the exit and carries one more restart exactly when the retry decorator restarts |
| Launcher.Launcher.Tick | test/unit/launchers/base.spec.js:33-103 | a settled kill promise answers its callers, makes a kill end in FINISHED and runs its pending restarts with the previous url, each restart leaving BEING_CAPTURED with no kill promise, no error, a fresh capture timer and the start effects logged; an unsettled one changes nothing |
| Launcher.Launcher.ResolveKill | test/unit/launchers/base.spec.js:107-193 | the settled kill promise ends a kill in FINISHED and answers its callers once, keeping its pending restarts for later |
| Launcher.Launcher.RunRestarts | test/unit/launchers/base.spec.js:56-103 | every pending restart starts the browser again with the previous url, clearing the error and re-arming the capture timer, except that after a force kill the first one only finishes |
| Launcher.Launcher.RestartContinuation | test/unit/launchers/base.spec.js:56-103 | one restart continuation: after a force kill it only finishes and changes nothing else; otherwise it drops the kill promise and starts again with the previous url, with no error and a fresh capture timer |
| Launcher.Launcher.StartAgain | test/unit/launchers/base.spec.js:56-80 | `n` restart continuations outside a forced kill log `n` copies of the start effects and leave the launcher started anew with no error and a fresh capture timer |
| Launcher.Launcher.EmitDone | test/unit/launchers/base.spec.js:240-257 | the last step of `_done` logs `done`, then `browser_process_failure` exactly when the failure is reported, and enters FINISHED |
| Launcher.KillsSinceStartAppend | test/unit/launchers/base.spec.js:137-182 | effects without a `start` event add their own `kill` events to the count of `kill` events since the last `start`; the launcher's invariant bounds that count by one, and by zero when no kill promise exists |
| Launcher.KillsSinceStartRestart | test/unit/launchers/base.spec.js:33-55 | a `start` event resets the count of `kill` events since the last start |
| Launcher.TimeoutCycle | test/unit/launchers/process.spec.js:142-224 | a capture timeout kills the browser, which exits and has its temp dir removed; with retry budget left the browser is spawned again without a failure, otherwise the launcher finishes with `browser_process_failure` |
| Launcher.TimeoutThenRestart | test/unit/launchers/process.spec.js:142-165 | start, then timeout: the log shows the kill, the exit, `done` and the new start and spawn, no failure, and the launcher is BEING_CAPTURED again |
| Launcher.ThirdTimeoutFails | test/unit/launchers/process.spec.js:167-224 | with two retries the first two timeouts respawn without a failure; the third spawns nothing, reports `browser_process_failure` and the launcher finishes |
| Launcher.ExitCycle | test/unit/launchers/process.spec.js:228-250 | a process that exits before capture is started again without a failure while retry budget remains; otherwise the launcher finishes with `browser_process_failure` |
| Launcher.CrashThenRestart | test/unit/launchers/process.spec.js:228-250 | start, then the process exits before capture: `done` is logged, the browser is spawned again, no failure is reported and the launcher is BEING_CAPTURED |
| Launcher.MissingBinaryFails | test/unit/launchers/process.spec.js:76-94 | after a spawn ENOENT error and the exit, the launcher is FINISHED and `browser_process_failure` is reported, with no restart |
| Launcher.CrashCycle | test/unit/launchers/retry.spec.js:18-73 | a retry-only launcher that reports an error starts again (no failure) while budget remains, otherwise finishes with `browser_process_failure` |
| Launcher.CrashesThenFailure | test/unit/launchers/retry.spec.js:18-73 | with a budget of two, the first two crashes each log `done` and a new start, and the third logs `done` and `browser_process_failure` and the launcher finishes |
| Launcher.TurnAfterDone | test/unit/launchers/process.spec.js:142-250 | after `_done` the event loop either starts the browser again (one pending restart) or leaves it finished (none) |
| BrowserStack.Code | lib/launchers/BrowserStackBase.js:12-16 | the five states have the codes 1 to 5 |
| BrowserStack.CodesDistinct | lib/launchers/BrowserStackBase.js:12-16 | two states share a code exactly when they are the same state |
| BrowserStack.ParseName | lib/launchers/BrowserStackBase.js:177-182 | the name splits on `::`; with four parts the last is the version, otherwise the version is `latest`; then come the browser and the os |
| BrowserStack.ParseFourParts | lib/launchers/BrowserStackBase.js:177-182 | `BS::os::browser::version` is read as that os, browser and version |
| BrowserStack.ParseThreeParts | lib/launchers/BrowserStackBase.js:177-182 | `BS::os::browser` is read with version `latest` |
| BrowserStack.Filter | lib/launchers/BrowserStackBase.js:188-202 | the filter keeps exactly the listed browsers that match os, browser and (unless latest) version |
| BrowserStack.FilterInOrder | lib/launchers/BrowserStackBase.js:188-202 | `_.filter` keeps list order: the result is the browser list read at increasing positions, and those are exactly the positions of matching entries |
| BrowserStack.SelectBrowser | lib/launchers/BrowserStackBase.js:169-220 | a single match is chosen and is the first (only) filtered entry; several matches for `latest` ask for the latest version with the filtered list, in its order, as the candidates and its first entry as `first`; no match, or several for a fixed version, is the error `No browser found: <name>` |
| BrowserStack.FinishLatest | lib/launchers/BrowserStackBase.js:206-215 | a failing latest query passes its error on; otherwise the first candidate with that version is chosen, or none when no candidate has it |
| BrowserStack.FirstWithVersion | lib/launchers/BrowserStackBase.js:211-213 | the index found is the first candidate with the version |
| BrowserStack.RestartTimedOutEarly | lib/launchers/BrowserStackBase.js:34-162 | run on the launcher class: with capture timeout `t`, a process exit at `e < t` restarts the browser, and at time `t` the first attempt's timer times the second attempt out and kills its process while that attempt's own deadline `e + t` is still pending |
| BrowserStack.RestartTimedOutOnTime | lib/launchers/BrowserStackBase.js:34-162 | the same run on a `corrected` launcher: at time `t` the restarted attempt is still being captured and nothing was killed; it is timed out only when the clock reaches `e + t`, a full window after it began |
| BrowserStack.ArmCapture | lib/launchers/BrowserStackBase.js:54-56 | the corrected arming: every earlier deadline is dropped and exactly one is left, due `timeout` after the start; a `corrected` launcher keeps its one pending deadline at the latest start plus `captureTimeout` (its `Valid`) |
| BrowserStack.BrowserStackLauncher.constructor | lib/launchers/BrowserStackBase.js:19-31 | a new launcher has no state, no browser, no kill callback, its retry limit and the temp dir `<tmp>/testacular-<id>`; `corrected` chooses the timer arming |
| BrowserStack.BrowserStackLauncher.Start | lib/launchers/BrowserStackBase.js:34-57 | start records the url, makes the temp dir, asks for the browser and, when a timeout is set, adds one more capture deadline `clock + captureTimeout` to those already pending (a `corrected` launcher replaces them with that one) |
| BrowserStack.BrowserStackLauncher.BrowserResolved | lib/launchers/BrowserStackBase.js:44-51 | the resolved browser is stored, the process started with `url?id=<id>`, and the state becomes BEING_CAPTURED |
| BrowserStack.BrowserStackLauncher.ExecCommand | lib/launchers/BrowserStackBase.js:44-51 | the launcher's `_start` spawns the process, which from then on can be killed |
| BrowserStack.BrowserStackLauncher.MarkCaptured | lib/launchers/BrowserStackBase.js:66-73 | after markCaptured, isCaptured holds |
| BrowserStack.BrowserStackLauncher.Kill | lib/launchers/BrowserStackBase.js:76-87 | kill of an unfinished browser enters BEING_KILLED and kills its process, and throws exactly when no process was spawned yet; kill of a finished one calls the callback at once when one was given; the callback given is remembered for the exit |
| BrowserStack.BrowserStackLauncher.OnTimeout | lib/launchers/BrowserStackBase.js:90-99 | a timeout while being captured kills the process and enters BEING_TIMEOUTED; in any other state it does nothing |
| BrowserStack.BrowserStackLauncher.Wind | lib/launchers/BrowserStackBase.js:54-56 | advancing the clock keeps exactly the timers not yet due; a due timer while being captured kills the process and enters BEING_TIMEOUTED, and otherwise changes nothing |
| BrowserStack.BrowserStackLauncher.ProcessExit | lib/launchers/BrowserStackBase.js:134-156 | an exit spends one retry; while capturing or timing out it restarts after cleanup when retries remain, and otherwise reports `browser_process_failure`, enters FINISHED and queues a cleanup that carries the exit callback held at this moment; restarts never reach the initial retry limit |
| BrowserStack.BrowserStackLauncher.CleanupDone | lib/launchers/BrowserStackBase.js:145-162 | a finished cleanup either starts again (temp dir, a new browser request and one more capture deadline) or calls the exit callback that was taken when the process exited, when one was given |
| BrowserStack.CallbackFixedAtExit | lib/launchers/BrowserStackBase.js:76-162 | a kill after the process exited runs its own callback at once but does not replace the callback the exit handed to the cleanup, which still runs |
| FileListSpec.IsExcluded | test/unit/file-list.spec.js:158-169 | the result is the first exclude glob that matches the path, or none when none matches |
| FileListSpec.IsIncluded | test/unit/file-list.spec.js:177-188 | the result is the first pattern whose glob matches the path, or none |
| FileListSpec.SortByPath | test/unit/file-list.spec.js:302-316 | a bucket is sorted by path and is a permutation of its files |
| FileListSpec.SortedUnique | test/unit/file-list.spec.js:302-316 | two path-sorted sequences of the same files with distinct paths are equal |
| FileListSpec.UniqByPath | test/unit/file-list.spec.js:83-150 | `uniq` yields no path twice and only files of `s` whose paths are not yet taken |
| FileListSpec.UniqPicksFirsts | test/unit/file-list.spec.js:83-150 | `uniq` keeps order and first occurrences: its result is `s` read at increasing positions, exactly the positions holding the first file of a path not yet taken |
| FileListSpec.UniqCovers | test/unit/file-list.spec.js:83-150 | every path not already taken appears in the `uniq` result |
| FileListSpec.UniqOfDistinct | test/unit/file-list.spec.js:83-150 | `uniq` of files with distinct paths is the identity |
| FileListSpec.ExpandMembers | test/unit/file-list.spec.js:83-150 | a file is in the flattened buckets exactly when it is in the bucket of a pattern with the flag |
| FileListSpec.ServedExactly | test/unit/file-list.spec.js:83-150 | `served` holds only files of served patterns' buckets, every path of such a bucket once, laid out as the served buckets in pattern order, each sorted by path and without the paths of the buckets before it |
| FileListSpec.IncludedExactly | test/unit/file-list.spec.js:83-150 | the same for `included`: the included buckets in pattern order, each sorted by path, every path once |
| FileListSpec.Served | test/unit/file-list.spec.js:83-150 | `files.served`: `uniq` by path of the served buckets, flattened in pattern order and sorted within each bucket; its layout is stated by ServedExactly |
| FileListSpec.Included | test/unit/file-list.spec.js:83-150 | `files.included`, the same over the included buckets; its layout is stated by IncludedExactly |
| FileListSpec.Layers | test/unit/file-list.spec.js:302-316 | the reference layout: each flagged bucket in pattern order, sorted by path, without paths already taken |
| FileListSpec.UniqAppend | test/unit/file-list.spec.js:83-150 | `uniq` of a concatenation is `uniq` of the first part followed by `uniq` of the second without the first part's paths |
| FileListSpec.ExpandLayers | test/unit/file-list.spec.js:83-150 | `uniq` of the flattened buckets is the bucket-by-bucket layout |
| FileListSpec.ServedSortsWithinBuckets | test/unit/file-list.spec.js:91-98 | the buckets `/a.txt`; `/some/a.js`; and `/c.txt`, `/a.txt`, `/b.txt` are served as `/a.txt`, `/some/a.js`, `/b.txt`, `/c.txt` |
| FileListSpec.FirstFailure | test/unit/file-list.spec.js:349-360 | a refresh rejects with the error of the first failing preprocessor call, and only when one fails |
| FileListResolution.ResolveUnique | test/unit/file-list.spec.js:251-360 | after a refresh no path is tracked twice |
| FileListResolution.ResolveSound | test/unit/file-list.spec.js:251-341 | every bucket belongs to a pattern; a url pattern's bucket holds only its url; every other entry is a globbed, not excluded path with its `stat` time and the pattern's `nocache` flag |
| FileListResolution.ResolveComplete | test/unit/file-list.spec.js:251-341 | every url pattern gets its bucket, and every globbed path that no exclude matches is tracked |
| FileListResolution.ResolvePreprocessOnce | test/unit/file-list.spec.js:343-348 | every tracked file that is neither a url nor `nocache` is preprocessed exactly once, and nothing else is |
| FileListResolution.ResolveFirstPattern | test/unit/file-list.spec.js:83-150 | a path lands in the bucket of the first pattern whose glob finds it, unless excluded |
| FileListResolution.StateAtGood | test/unit/file-list.spec.js:251-360 | the refresh invariant holds after each prefix of the patterns |
| FileListResolution.StateAtCovers | test/unit/file-list.spec.js:251-341 | after the first `n` patterns each of them is covered |
| FileListResolution.StateAtKeeps | test/unit/file-list.spec.js:251-341 | once set, a bucket keeps its contents for the rest of the refresh |
| FileListResolution.ScanCovers | test/unit/file-list.spec.js:318-329 | a scan adds every path it sees that is neither excluded nor already claimed |
| FileList.FindByPath | test/unit/file-list.spec.js:215-224 | the index found is the first entry with the path; none exactly when no entry has it |
| FileList.InsertKeepsUnique | test/unit/file-list.spec.js:408-502 | adding a file of a new path keeps paths unique, tracks it and leaves every other path as it was |
| FileList.DeleteKeepsUnique | test/unit/file-list.spec.js:618-645 | removing an entry keeps paths unique, untracks its path and leaves every other path as it was |
| FileList.TouchKeepsUnique | test/unit/file-list.spec.js:534-589 | changing an entry's mtime keeps paths unique |
| FileList.AddRemoveRoundTrip | test/unit/file-list.spec.js:408-645 | removing the file just added gives back the same buckets |
| FileList.AddRemoveSameFiles | test/unit/file-list.spec.js:408-645 | adding then removing a file leaves `served` and `included` as they were |
| FileList.ResolveOne | test/unit/file-list.spec.js:251-341 | the loop over one pattern's glob computes the per-pattern resolution step |
| FileList.ScanGlob | test/unit/file-list.spec.js:251-341 | the loop over a glob's paths keeps, in glob order, each path that no exclude matches and no earlier pattern or path claimed, and claims exactly those |
| FileList.ResolveFiles | test/unit/file-list.spec.js:251-360 | the loop over the patterns computes the full resolution of a refresh |
| FileList.RefreshTracksExactly | test/unit/file-list.spec.js:251-341 | after a refresh a path is tracked exactly when it is a url pattern or a globbed path that no exclude matches |
| FileList.List.constructor | test/unit/file-list.spec.js:251-262 | a new list holds its patterns, excludes and batch interval with no buckets and nothing pending |
| FileList.List.Refresh | test/unit/file-list.spec.js:251-360 | a refresh starts a new generation whose result is the resolution of the current patterns, failing with the first preprocessor error, and preprocesses every file that is not `nocache` |
| FileList.List.Reload | test/unit/file-list.spec.js:369-381 | reload replaces patterns and excludes, then refreshes |
| FileList.List.Settle | test/unit/file-list.spec.js:263-360 | a failing refresh rejects with its error; a refresh overtaken by a later one settles as superseded and installs nothing; otherwise its buckets are installed and the new files are emitted |
| FileList.List.AddFile | test/unit/file-list.spec.js:408-502 | an excluded, unmatched or already tracked path is ignored; any other joins the bucket of its first matching pattern, and its stat is awaited |
| FileList.List.Locate | test/unit/file-list.spec.js:534-645 | the entry found has the path |
| FileList.List.ChangeFile | test/unit/file-list.spec.js:534-589 | a change of an untracked path is ignored; a tracked one queues a new stat and preprocessing of that entry |
| FileList.List.RemoveFile | test/unit/file-list.spec.js:618-645 | removing a tracked path deletes its entry and arms the batch deadline; an untracked one is ignored |
| FileList.List.FinishJob | test/unit/file-list.spec.js:481-589 | a job whose entry is gone, whose stat fails, or (for a change) whose mtime is the same does nothing; otherwise the mtime is updated, the file preprocessed unless `nocache`, and the batch deadline armed unless preprocessing failed |
| FileList.List.Wind | test/unit/file-list.spec.js:684-733 | once the batch deadline has passed and no job is pending, the current files are emitted once and the deadline is cleared; before that nothing is emitted |
| Events.DeliveriesExactly | test/unit/events.spec.js:16-25 | emit calls every listener of the event with the arguments, and nothing else |
| Events.HandlersExactly | test/unit/events.spec.js:40-63 | bind registers exactly the methods named `onXxx`, under the event `xxx` |
| Events.RemoveLastCount | test/unit/emitter_wrapper.spec.js:46-68 | removing a listener drops one occurrence and nothing else |
| Events.RecordedByExactly | test/unit/events.spec.js:136-187 | a buffer holds exactly the emissions recorded for it |
| Events.ReplayInOrder | test/unit/events.spec.js:136-153 | replaying a buffer delivers its emissions in recorded order |
| Events.EventEmitter.constructor | test/unit/events.spec.js:16-25 | a new emitter has no listeners, deliveries, buffers or pending calls |
| Events.EventEmitter.On | test/unit/events.spec.js:16-25 | `on` appends the listener to the event's listeners |
| Events.EventEmitter.RemoveListener | test/unit/emitter_wrapper.spec.js:46-68 | removeListener drops one occurrence from that event only |
| Events.EventEmitter.Emit | test/unit/events.spec.js:16-25 | emit delivers the arguments to the event's listeners in order, and records the emission in every buffer listening to the event, each of them active |
| Events.EventEmitter.Bind | test/unit/events.spec.js:40-63 | bind adds every `onXxx` handler to `xxx`, in object order |
| Events.EventEmitter.EmitAsync | test/unit/events.spec.js:78-109 | emitAsync hands every listener a done callback and expects one call per listener |
| Events.EventEmitter.ListenerDone | test/unit/events.spec.js:78-109 | a done callback counts one more call |
| Events.EventEmitter.Turn | test/unit/events.spec.js:78-109 | an emitAsync settles exactly when all its listeners have called done |
| Events.EventEmitter.BufferEvents | test/unit/events.spec.js:136-187 | bufferEvents installs a recorder on each named event |
| Events.EventEmitter.AddRecorder | test/unit/events.spec.js:136-187 | one recorder of the buffer is appended to the named event and no other event's listeners change |
| Events.EventEmitter.Replay | test/unit/events.spec.js:136-187 | replaying an active buffer removes its recorders and delivers what it recorded, in order, through the current listeners; replaying an inactive one changes nothing |
| Events.EventEmitter.Dispatch | test/unit/events.spec.js:170-187 | redelivery goes through the current listeners |
| EmitterWrapper.RemoveEachCount | test/unit/emitter_wrapper.spec.js:46-68 | removing the wrapper's listeners drops exactly their occurrences |
| EmitterWrapper.RemoveEachKeepsOthers | test/unit/emitter_wrapper.spec.js:46-68 | listeners the wrapper did not add are kept |
| EmitterWrapper.Wrapper.constructor | test/unit/emitter_wrapper.spec.js:26-37 | a new wrapper has added nothing |
| EmitterWrapper.Wrapper.AddListener | test/unit/emitter_wrapper.spec.js:26-37 | addListener registers on the emitter, remembers the listener and returns the wrapper |
| EmitterWrapper.Wrapper.RemoveAllListeners | test/unit/emitter_wrapper.spec.js:46-68 | removeAllListeners takes off only the wrapper's listeners, of one event or of all of them |
| EmitterWrapper.Wrapper.ClearAll | test/unit/emitter_wrapper.spec.js:46-68 | clearing all events leaves every event with the listeners others added |
| EmitterWrapper.Wrapper.ClearEvent | test/unit/emitter_wrapper.spec.js:46-68 | clearing one event removes the wrapper's listeners of it and leaves the others |
| Executor.Executor.constructor | test/unit/executor.spec.js:32-38 | a new executor has nothing scheduled or pending |
| Executor.Executor.Schedule | test/unit/executor.spec.js:32-53 | with no captured browser nothing happens; with all browsers ready the run starts on every captured browser and nothing stays owed; otherwise the run is owed |
| Executor.Executor.OnRunComplete | test/unit/executor.spec.js:40-53 | when a run completes, an owed run starts exactly when browsers are captured and ready; without an owed run nothing happens |
| Executor.Executor.OnBrowserComplete | test/unit/executor.spec.js:40-53 | each finished browser is counted off, and `run_complete` is signalled when the last one finishes |
| Config.CreatePattern | test/unit/config.spec.js:288-323 | a string becomes a served, included, watched pattern that may be cached; an object keeps the flags it gives and takes those defaults for the rest; a url pattern is included but neither served nor watched; an entry without a pattern has every flag off |
| Config.NormalizeUrlRoot | test/unit/config.spec.js:163-176 | the url root starts and ends with `/`, and a root that already does is kept |
| Config.NormalizeUrlRootIdempotent | test/unit/config.spec.js:163-176 | normalising the url root twice gives what normalising once does |
| Config.UrlRootExamples | test/unit/config.spec.js:163-176 | the roots of the test gain their slashes |
| Config.ResolvePath | test/unit/config.spec.js:78-87 | an absolute path is kept, a relative one is resolved against the base, and the result is absolute with an absolute base |
| Config.ResolvePathIdempotent | test/unit/config.spec.js:78-87 | resolving twice gives what resolving once does |
| Config.BasePathResolve | test/unit/config.spec.js:88-101 | a url pattern is kept and a path one is resolved against `basePath` |
| Config.ResolvePatterns | test/unit/config.spec.js:236-262 | each pattern is made into a pattern object with its path resolved against `basePath` |
| Config.ResolvedPatternsAbsolute | test/unit/config.spec.js:88-101 | every resolved pattern is absolute or a url |
| Config.NormalizePreprocessorsKeys | test/unit/config.spec.js:263-285 | the preprocessor map has exactly the resolved patterns as keys |
| Config.NormalizePreprocessorsLastWins | test/unit/config.spec.js:263-285 | a pattern given twice maps to the names of its last entry, a single name becoming a one-element list |
| Config.Config.constructor | test/unit/config.spec.js:217-232 | the defaults: base path empty, url root `/`, autoWatch on, reporters `progress`, port 9876, coffee preprocessor, and a `client` with no arguments, `useIframe` and `captureConsole` on |
| Config.Config.Set | test/unit/config.spec.js:136-162 | a scalar or array setting that is given replaces the old value wholesale (no deep merge of `browsers`), and others are kept; preprocessor entries are merged after the old ones; each `client` key given replaces that key only |
| Config.ClientDefaultsSurvive | test/unit/config.spec.js:217-232 | a command line that sets only the client's `args` keeps the default `useIframe` and `captureConsole` |
| Config.DefaultPreprocessorKept | test/unit/config.spec.js:263-285 | whatever preprocessors the file or command line add, the default coffee pattern stays in the normalised map (the merge of `config.set`; no test shown fixes it) |
| Config.Config.Normalize | test/unit/config.spec.js:78-285 | normalisation resolves base path, patterns and excludes (adding the config file), fixes the url root and turns autoWatch off in single-run mode |
| Config.Config.NormalizeFlags | test/unit/config.spec.js:177-200 | autoWatch holds only when singleRun does not; reporters become a list |
| Config.ParseConfig | test/unit/config.spec.js:78-232 | command-line settings override the file's, which override the defaults (with no file only the defaults and the command line count); the result is that layering normalised: base path resolved against the file's directory, files and excludes (plus the file itself) resolved against it, url root with its slashes, reporters as a list, preprocessors merged with the defaults, autoWatch off under singleRun, and each `client` key layered on its own |
| Helper.DashedToSnake | test/unit/cli.spec.js:67-74 | camel-casing a dashed name and snake-casing it back writes its dashes as underscores |
| Helper.DashToCamel | test/unit/cli.spec.js:67-74 | a dash followed by a word character becomes that character in upper case; the result is never longer, and a name without dashes is kept |
| Cli.DoubleDash | test/unit/cli.spec.js:181-186 | the index found is the first `--`; none exactly when there is none |
| Cli.DoubleDashSplits | test/unit/cli.spec.js:169-186 | the arguments are those before the first `--`, the `--`, and those after it |
| Cli.ParseClientArgs | test/unit/cli.spec.js:169-178 | past the interpreter and the script, the client arguments are exactly what follows the first `--`, and none when there is no `--` |
| Cli.CopyArgs | test/unit/cli.spec.js:59-66 | the parsed options copied under their camel-case names, last value winning; this is stated by CopyArgsLastWins |
| Cli.CopyArgsLastWins | test/unit/cli.spec.js:59-66 | an option given several times keeps its last value; an option not given keeps its old one |
| Cli.ProcessArgs | test/unit/cli.spec.js:59-166 | an invalid log level is the error 1; otherwise every option, under its camel-case name, goes through the normalisation rules and a `configFile` entry is added |
| Cli.ProcessArgsConfigFile | test/unit/cli.spec.js:75-96 | the config file is the first positional argument resolved against the cwd, else `karma.conf.js`, else `karma.conf.coffee`, else none |
| Cli.ProcessArgsOption | test/unit/cli.spec.js:97-166 | for an option the command line sets, stated on its last value: a flag is true exactly for `true` and false for `--no-x`; a list splits into comma-free items that join back into the text; a log level becomes one of the five constants; `--no-report-slower-than` is 0; any other option keeps its value |
| Cli.Normalise | test/unit/cli.spec.js:97-166 | the per-key rule of `processArgs`; what it makes of the command line is stated by ProcessArgsOption |
| Cli.LastValue | test/unit/cli.spec.js:59-66 | the value the command line gives an option exists exactly when some entry sets it |
| Cli.LogConstantAnyCase | test/unit/cli.spec.js:111-127 | log levels are recognised in any case and are one of the five constants |
| Cli.ProcessArgsExample | test/unit/cli.spec.js:59-66 | `--port 12 --port 34` gives port 34 |
| Completion.OpositePair | test/unit/completion.spec.js:23-34 | `--x` and `--no-x` are each other's opposite |
| Completion.OpositeWord | test/unit/completion.spec.js:23-34 | the opposite of `--x` is `--no-x` and back; stated by OpositePair |
| Completion.SendCompletionExactly | test/unit/completion.spec.js:37-51 | the offered words are exactly the candidates that start with the last word and are neither typed nor opposite to a typed word, in order |
| Completion.SendCompletion | test/unit/completion.spec.js:37-51 | the possible words that are offered, in their order; stated by SendCompletionExactly |
| Completion.SendCompletionExamples | test/unit/completion.spec.js:37-51 | the test's lines complete to the expected words |
| Completion.CompleteCommands | test/unit/completion.spec.js:54-63 | an empty line offers the commands and `s` offers `start` |
| Completion.Complete | test/unit/completion.spec.js:54-63 | while the command (the first word) is typed, the commands it could begin; stated by CompleteCommands |
| StateMachine.SkipShape | test/unit/init/state_machine.spec.js:96-122 | the next question asked is the first whose condition holds, and every one skipped had a false condition |
| StateMachine.ParseValues | test/unit/init/state_machine.spec.js:54-95 | a boolean question reads `yes` as true; an empty line is null; other input is trimmed |
| StateMachine.Parse | test/unit/init/state_machine.spec.js:54-95 | the value of a line for a question; stated by ParseValues |
| StateMachine.RemoveAt | test/unit/init/state_machine.spec.js:21-36 | the option picked for a `multiple` question with options is no longer offered and the rest keep their order; the questions with options in the tests take a single answer, so no test shown fixes this removal |
| StateMachine.Machine.constructor | test/unit/init/state_machine.spec.js:21-37 | a new machine has no question, answers or validations |
| StateMachine.Machine.Process | test/unit/init/state_machine.spec.js:21-37 | process clears the answers and asks the first question whose condition holds |
| StateMachine.Machine.NextQuestion | test/unit/init/state_machine.spec.js:96-122 | the next asked question is the next whose condition holds, or the end is reached with the answers |
| StateMachine.Machine.Validate | test/unit/init/state_machine.spec.js:141-157 | a validated question's non-null answer is handed to its validator |
| StateMachine.Machine.Record | test/unit/init/state_machine.spec.js:69-95 | a multiple question collects answers until an empty one; any other stores one answer and moves on |
| StateMachine.Machine.OnLine | test/unit/init/state_machine.spec.js:38-157 | a line outside the current options is ignored; otherwise it is parsed, validated and recorded |
| Formatters.FormatLineItems | test/unit/init/formatters.spec.js:25-28 | the frameworks line splits on `, ` back into the quoted items |
| Formatters.FormatLineEmpty | test/unit/init/formatters.spec.js:25-28 | the line is empty exactly when the list is |
| Formatters.FormatLine | test/unit/init/formatters.spec.js:25-28 | the names quoted and separated by `, `; stated by FormatLineItems and FormatLineEmpty |
| Formatters.FormatFilesLines | test/unit/init/formatters.spec.js:30-36 | the files part is one line per file, each but the last followed by a comma, after a leading newline |
| Formatters.FormatFilesEmpty | test/unit/init/formatters.spec.js:30-58 | the files part is empty exactly when there are no files and no served-only files |
| Formatters.FormatFiles | test/unit/init/formatters.spec.js:30-58 | the entries of `files`, each on a new line, separated by commas; stated by FormatFilesLines, FormatFilesEmpty and FilesAndServed |
| Formatters.FilesAndServed | test/unit/init/formatters.spec.js:51-58 | a served-only file is written as `{pattern: ..., included: false}` after the included files |
| Formatters.FormatPreprocessorsLines | test/unit/init/formatters.spec.js:60-64 | the preprocessors part is `{`, one `'pattern': [names]` line per entry, and the closing brace |
| Formatters.FormatPreprocessors | test/unit/init/formatters.spec.js:60-64 | the preprocessors object; stated by FormatPreprocessorsLines |
| Formatters.FormatBool | test/unit/init/formatters.spec.js:43-49 | the flag is written `true` exactly when it is set |
| Formatters.FormatAnswers | test/unit/init/formatters.spec.js:25-64 | each replacement is empty exactly when its answer list is, and autoWatch is `true` exactly when set |
| Formatters.FrameworksExample | test/unit/init/formatters.spec.js:25-28 | `jasmine, requirejs` formats as in the test |
| Proxy.ParseTarget | test/unit/middleware/proxy.spec.js:150-163 | a target without a scheme is a path only; with one its path starts with `/`, and a trailing `/` is kept |
| Proxy.ParseEntryAddress | test/unit/middleware/proxy.spec.js:150-192 | a target `scheme://host[:port]/path` gives an entry for that key and host, https exactly for `https`, with the explicit port, or else 443 for https and 80 for http |
| Proxy.ParseEntryPathOnly | test/unit/middleware/proxy.spec.js:221-250 | a target that is a path only goes to karma's own host and port, over http |
| Proxy.ParseTargetAddress | test/unit/middleware/proxy.spec.js:150-192 | `url.parse` of `scheme://host[:port]/path` yields that scheme, host and port, and the path (`/` when none) |
| Proxy.ParseEntry | test/unit/middleware/proxy.spec.js:150-264 | one entry of `proxies`; stated by ParseEntryAddress, ParseEntryPathOnly, ParseEntryHttps and ParseEntryBaseUrl |
| Proxy.ParseEntryHttps | test/unit/middleware/proxy.spec.js:207-220 | an entry is https exactly when its target is |
| Proxy.ParseEntryBaseUrl | test/unit/middleware/proxy.spec.js:193-264 | a key ending in `/` gets a base url ending in `/`; for any other key the base url is the target's path, empty when that path is only the implied `/` |
| Proxy.SortDesc | test/unit/middleware/proxy.spec.js:124-133 | the proxy keys are sorted in descending order and are a permutation of the given keys |
| Proxy.DescendingNested | test/unit/middleware/proxy.spec.js:124-133 | a key that is a proper prefix of another comes after it |
| Proxy.ParseProxyConfigOrder | test/unit/middleware/proxy.spec.js:265-293 | one entry per key, longest-prefix first, each parsed from its own target; none for no proxies |
| Proxy.ParseProxyConfig | test/unit/middleware/proxy.spec.js:265-293 | `parseProxyConfig`; stated by ParseProxyConfigOrder |
| Proxy.HandleFirstMatch | test/unit/middleware/proxy.spec.js:95-149 | a request goes on to the next handler exactly when no entry's path prefixes it; otherwise the first such entry forwards it with that prefix replaced by the base url |
| Proxy.Handle | test/unit/middleware/proxy.spec.js:95-149 | the handler's decision on a request; stated by HandleFirstMatch |
| Proxy.HandleNested | test/unit/middleware/proxy.spec.js:124-133 | `/sub/some/x` goes to the nested entry's target |
| Proxy.AuthorityParts | test/unit/middleware/proxy.spec.js:164-192 | `host:port/path` is split into its host, port and path |
| StripHost.StripAbsolute | test/unit/middleware/strip_host.spec.js:38-72 | `http(s)://host/path` is served as `/path` |
| StripHost.StripRelative | test/unit/middleware/strip_host.spec.js:74-82 | a url that is already a path is kept |
| StripHost.StripIdempotent | test/unit/middleware/strip_host.spec.js:38-82 | the result is the url or a path that ends it, and stripping twice gives what stripping once does |
| StripHost.StripExample | test/unit/middleware/strip_host.spec.js:56-63 | the test's IP-host url becomes its path with the query kept |
| StripHost.Strip | test/unit/middleware/strip_host.spec.js:38-82 | the url with `scheme://host` dropped; stated by StripAbsolute, StripRelative and StripIdempotent |
| KarmaMiddleware.StripQuery | test/unit/middleware/karma.spec.js:106-116 | dropping the query leaves a prefix of the url with no `?` |
| KarmaMiddleware.DecideIgnoresQuery | test/unit/middleware/karma.spec.js:106-116 | the route of a request does not depend on its query string |
| KarmaMiddleware.DecideScope | test/unit/middleware/karma.spec.js:66-92 | karma answers only inside the url root: a request it does not pass on has a path (without the query) that starts with the root, or is the root without its `/`; exactly that path is redirected, to the root |
| KarmaMiddleware.DecideInside | test/unit/middleware/karma.spec.js:94-374 | inside the root the page name selects the client page, `karma.js`, the context page, the debug page or the next handler |
| KarmaMiddleware.Decide | test/unit/middleware/karma.spec.js:66-374 | the route of a request; stated by DecideScope, DecideInside and DecideIgnoresQuery |
| KarmaMiddleware.FilePathToUrlPath | test/unit/middleware/karma.spec.js:183-214 | a file under the base path is served under `urlRoot + "base"`, any other under `urlRoot + "absolute"`; stated by FileUrlRoundTrip |
| KarmaMiddleware.FileUrlRoundTrip | test/unit/middleware/karma.spec.js:183-214 | a file's url path maps back to the file path |
| KarmaMiddleware.ExtnameOf | test/unit/middleware/karma.spec.js:153-182 | the extension of `stem + ".ext"` is `.ext` |
| KarmaMiddleware.Tags | test/unit/middleware/karma.spec.js:153-214 | one tag per included file, in order, holding the file's url (hashed for the context page): a stylesheet link for `.css`, an import link for `.html`, a script otherwise (of type `application/dart` for `.dart`) |
| KarmaMiddleware.ScriptsLines | test/unit/middleware/karma.spec.js:153-214 | the scripts text has one tag per line |
| KarmaMiddleware.ContextFiles | test/unit/middleware/karma.spec.js:215-251 | context.json lists the included files' urls in order |
| KarmaMiddleware.MappingLines | test/unit/middleware/karma.spec.js:269-283 | one line per served file, in order, mapping its unhashed url (backslashes escaped) to its sha |
| KarmaMiddleware.DecodeEncode | test/unit/middleware/karma.spec.js:118-140 | decoding the encoding of a value gives it back |
| KarmaMiddleware.XUaCompatibleHandedOn | test/unit/middleware/karma.spec.js:118-140 | the `x-ua-compatible` value of the page url reaches the context page unchanged |
| KarmaMiddleware.EncodedParam | test/unit/middleware/karma.spec.js:118-140 | a query of one encoded parameter reads back its value |
| KarmaMiddleware.ReplacePlaceholder | test/unit/middleware/karma.spec.js:142-151 | a placeholder is replaced by its value where it stands and the rest of the template is kept, when no earlier occurrence can begin before it |
| KarmaMiddleware.KarmaJsFilled | test/unit/middleware/karma.spec.js:142-151 | `karma.js` receives the url root and the version in place of its placeholders |
| KarmaMiddleware.KarmaJsBody | test/unit/middleware/karma.spec.js:142-151 | `karma.js` with its placeholders filled; stated by KarmaJsFilled |
| KarmaMiddleware.PageFilled | test/unit/middleware/karma.spec.js:153-329 | context.html and debug.html are the template with `%SCRIPTS%` replaced by the tags of the included files, `%CLIENT_CONFIG%` by the client config, `%MAPPINGS%` by the mappings of the served files and `%X_UA_COMPATIBLE%` by the meta tag of the request's value, the rest kept |
| KarmaMiddleware.PageBody | test/unit/middleware/karma.spec.js:153-329 | the context and debug pages; stated by PageFilled, with ScriptsLines and MappingLines for the replaced parts |
| KarmaMiddleware.ClientFilled | test/unit/middleware/karma.spec.js:118-129 | client.html is the template with the meta tag of the request's `x-ua-compatible` value and the query that hands it on in place of their placeholders |
| KarmaMiddleware.ClientHtml | test/unit/middleware/karma.spec.js:118-129 | the client page; stated by ClientFilled and XUaCompatibleHandedOn |

## Left out

- The `lib/` sources of the launchers (base, retry, capture timeout and process), file list, events, emitter wrapper, executor, config, cli, completion, init and middleware are not part of this model. Their behaviour is taken from the unit tests cited above.
- Processes, the filesystem, `rimraf`, `glob`, `chokidar` and `stat` are outside Dafny. Spawns, kills and removals are log entries, and the filesystem is an oracle given as a parameter.
- Timers become deadlines on an integer clock. Promise resolution becomes explicit calls (`Tick`, `Settle`, `FinishJob`, `ListenerDone`, `Turn`).
- HTTP details (headers, status codes, response streaming, caching headers) and `http-proxy` itself are not modelled. A middleware's decision is a value.
- Option parsing by `optimist`, the loading of config files (CoffeeScript, `require`) and dependency injection are not modelled. The parsed arguments and settings are given as inputs.
- `JSON.stringify` is not modelled: the client configuration reaches the page as a given string.
- `process.exit` is not modelled. A command-line error is the exit code in a `Result`.
- KarmaMiddleware.Encode: percent-encodes ASCII characters only. The UTF-8 encoding of other characters is not modelled.
- Trimming uses the ASCII whitespace set, not JavaScript's full set. `String.replace` is modelled without `$` patterns.
- Proxy.ParseEntry: covers the trailing `/` added to a target when the key has one, but not query strings in targets or `config.protocol`.
- StripHost.Strip: works on lower-case ASCII hosts, the character class of the source's pattern.
- Formatters: the `EXCLUDE` replacement is not modelled. An empty preprocessor object is written as `{` and a closing brace on its own line, which the tests do not fix.
- BrowserStack.Matches: does not model device matching (`b.device` against an `options.device` the parser never sets). The source's use of an unimported `_` is read as lodash.
- Windows paths and path separators are not modelled. Paths use `/`.
- Config.ResolvePath: does not normalise as `path.resolve` does: `..` and `.` segments are not collapsed, `//` is not merged and a trailing `/` is not dropped (so `/home` with `../x` gives `/home/../x`, and `/a/` with the empty path gives `/a/`).
- Cli.LogConstant: upper-cases ASCII letters only, where `toUpperCase` covers all of Unicode.
- Proxy.ParseTarget: does not lower-case the host as `url.parse` does.
- KarmaMiddleware.Decode: decodes each `%XX` to the character with that code; the UTF-8 decoding of a multi-byte sequence into one character is not modelled.
- Completion.Complete: covers only the first word (the command). What `complete` offers once a command is typed (the options of that command and their `--no-` forms) is not modelled, since the completion source is not part of this model.
- Launcher.NormalizeCommand: does not apply `path.normalize` to the unquoted command, so `.` and `..` segments are not collapsed and `//` is not merged.
- Completion.SendCompletion: matches the typed word as a literal prefix; the source builds a regular expression from it, so a typed word holding regular-expression characters is not modelled.
- The completion's fallback to file names and its terminal output are not modelled.
- Executor: does not model the `setTimeout` that delays a run. The run starts in the same call.
- `lib/web-server.js`, `lib/tunnel.js`, `lib/launchers/BrowserStack.js` (a factory that builds a launcher on the base one with a fixed timeout of 0 and retry limit of 1, whose `_start` writes a capture script and whose `_execCommand` fakes a process emitter), `lib/reporters/Growl.js`, `tasks/docs.js`, `benchmarks/e2e.js` and `test/unit/middleware/runner.spec.js` are outside the modelled core.

## Findings

| source | as written | input that shows it | evidently intended | confidence | as-written member | corrected member |
|---|---|---|---|---|---|---|
| lib/launchers/BrowserStackBase.js:54-56 | every `start` arms a new capture timer, including the restart from `_onProcessExit` (lines 145-148), and no timer is ever cleared | capture timeout 100; the browser exits and restarts at time 50; the first timer fires at 100, during the second attempt, 50 ms after it began | one pending capture timer per attempt, due `captureTimeout` after that attempt's start | not executed | BrowserStack.RestartTimedOutEarly | BrowserStack.RestartTimedOutOnTime |
