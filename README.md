# keymaster: connection lifecycle, registry and connection list

keymaster keeps a set of named SSH tunnels that the user toggles from a terminal list. The
entries come from the user's SSH config. Each enabled name owns a `Connection` that runs the
external `ssh` binary for that name and restarts it with a linear backoff when it stops. This
project models the three pieces of sequential logic around that process handling:

- `connection.dfy` (module `Connection`): the lifecycle of one `Connection`, from
  lib/connection.ts. The pure part is the specification. `Snapshot` holds the object's fields.
  There is one step function per await-delimited segment: `ActivateStep`, `ConnectStep`,
  `SpawnStep`, `DestroyStep`, `ErrorStep` and `ExitStep`. `Next` and `Run` apply arbitrary
  event sequences. The class `Connection` has the same fields, and each method is proved to
  perform exactly its step. Timers are not waited for: a step that starts `delay(ms)` returns
  `Some(ms)`. The continuation that runs after the timer is a call of `Connect`.
- `keymaster.dfy` (module `Keymaster`): the class `Keymaster` with its `enabled` sequence of
  `Connection` objects. `Enable` creates a connection only when no entry has that name.
- `interface.dfy` (module `Interface`): which SSH-config rows the list shows, the `[X] name` /
  `[ ] name` labels, and how the select handler reads a label back into a toggle request.
- `wrappers.dfy` (module `Wrappers`): `Option`.

Modelling choices:

- `this.proc` is abstracted to counters. `spawned` counts the processes started, and
  `this.proc` is defined once it is positive. `pendingExits` counts processes whose exit
  continuation has not run yet. `kills` counts the calls of `proc.kill()`. `log` holds the
  lines `broadcast` sends from the connect and exit steps.
- `destroy()` sets `destroyed` before it calls `this.proc.kill()`. When no process was ever
  spawned, `this.proc` is undefined and the call throws. That makes the returned promise reject
  (`DestroyOutcome.NoProcess`). `onError` awaits that promise, so it then stops before its timer
  and its trailing `connect()`. `ErrorStep` returns `None` in that case. Nothing handles that
  rejection: `emit` ignores the promise an async listener returns, and no caller awaits
  `destroy()`. It therefore escapes as an unhandled promise rejection.
- The segment of `connect()` after the pre-connect hook has no `destroyed` guard. A `destroy()`
  that arrives while the hook runs therefore does not prevent one more spawn.
  `SpawnsAfterDestroy` states this bound exactly. `DestroyDuringHookLeavesProcessRunning`
  shows that the process spawned then is never killed.
- A backoff timer's `connect()` does not check `active`. Suppose `activate()` runs while a
  reconnect timer waits after an exit, and its attempt spawns before the timer fires. The timer
  then starts another attempt, and two `ssh` processes run for one name, while `this.proc`
  refers only to the newer one. `ReconnectAfterActivateRunsTwoProcesses` shows this trace.
- Events in `Run` may arrive in any order and at any time. This includes events the real
  scheduler delivers only after a timer. Every property proved over `Run` therefore holds for
  every schedule the source allows.

Facts about the code the model relies on:

- `errorCount` is never reset, not even when a connection succeeds.
- There is no separate destroying phase, only the flags `active`, `connecting` and
  `destroyed`. There is no hop chain, no tunnel listener and no key handling: the `ssh` binary
  does all of that.
- There is no `deactivate` in lib/keymaster.ts.

## Model

| member | source | states |
|---|---|---|
| Connection.ActivateGuard | lib/connection.ts:63-71 | `activate` changes nothing on an active or destroyed connection. Otherwise the connection becomes active and an attempt starts exactly when none is in progress. |
| Connection.ConnectGuard | lib/connection.ts:116-121 | `connect` starts an attempt iff none is in progress and the connection is not destroyed. Otherwise it changes nothing, so attempts never overlap. |
| Connection.DestroyIdempotent | lib/connection.ts:76-82 | After `destroy` the connection is destroyed. A second call changes nothing and kills nothing. A kill happens iff the connection was not destroyed and a process exists. |
| Connection.ErrorBackoff | lib/connection.ts:103-111 | `onError` destroys and adds one to `errorCount`. Its delay is the incremented count times 4000 ms. There is no delay when the awaited destroy rejects because no process exists. |
| Connection.ErrorThenReconnectIsNoop | lib/connection.ts:108-110 | The `connect()` that `onError` runs after its delay changes nothing. |
| Connection.ExitBackoff | lib/connection.ts:138-148 | On process exit the connection becomes inactive, `destroyed` is unchanged and the count grows by one. A reconnect after count times 1000 ms is scheduled iff the connection is not destroyed. |
| Connection.ConnectStep | lib/connection.ts:116-122 | An attempt that starts leaves the connection connecting. `active`, `destroyed`, the error count, the spawn count and the kill count are untouched. |
| Connection.ActivateStep | lib/connection.ts:63-71 | A connection that is not destroyed is active afterwards. `destroyed`, the error count, the spawn count and the kill count are untouched. |
| Connection.SpawnStep | lib/connection.ts:124-132 | The segment after the hook starts exactly one process, clears `connecting` and sets `active`. `destroyed`, the error count and the kill count are untouched, whether or not a destroy has happened. |
| Connection.DestroyStep | lib/connection.ts:76-82 | Afterwards the connection is destroyed. It rejects only when no process was ever spawned. `active`, `connecting`, the error count, the spawn count and the log are untouched. |
| Connection.ErrorStep | lib/connection.ts:103-111 | Afterwards the connection is destroyed with one more error counted. A returned delay is the new count times 4000 ms. `active`, `connecting` and the spawn count are untouched. |
| Connection.ExitStep | lib/connection.ts:138-148 | Afterwards the connection is inactive with one more error counted. `destroyed`, `connecting`, the spawn count and the kill count are untouched. A returned delay is the new count times 1000 ms. |
| Connection.Next | lib/connection.ts:63-148 | No event clears `destroyed`. No event adds more than one to the error count or the spawn count, and none lowers them. |
| Connection.Run | lib/connection.ts:63-148 | Over any event sequence, the error count and the spawn count never decrease. Each grows by at most the number of events. |
| Connection.StepErrorCount | lib/connection.ts:107 | Each step adds exactly one to `errorCount` for an error or a process exit, and nothing for any other event. |
| Connection.StepFacts | lib/connection.ts:63-148 | No step clears `destroyed` or lowers `spawned`. Kills happen only when `destroyed` becomes true, at most one per step. After destroy, a spawn only completes an attempt already in progress. |
| Connection.DestroyedIsTerminal | lib/connection.ts:45 | Once destroyed, a connection stays destroyed after any sequence of events. |
| Connection.ErrorCountBounds | lib/connection.ts:30 | `errorCount` never decreases. Over any event sequence it grows at least by the number of errors and at most by the number of errors plus exits. |
| Connection.AtMostOneKill | lib/connection.ts:76-82 | Over any event sequence, `proc.kill()` runs at most once, and never once the connection is destroyed. |
| Connection.SpawnsAfterDestroy | lib/connection.ts:117-131 | After destroy, at most one more process is spawned: the one whose attempt was already waiting on the hook. No new attempt begins. |
| Connection.DestroyDuringHookLeavesProcessRunning | lib/connection.ts:76-131 | Activate, then destroy while the hook runs, then the hook finishes: the connection is destroyed and active, with one process spawned whose exit is still pending. That process is never killed, whatever events follow. |
| Connection.ReconnectAfterActivateRunsTwoProcesses | lib/connection.ts:63-146 | Exit, then `activate()` and a spawn while the reconnect timer waits, then the timer's `connect()`: once that attempt spawns, two processes have pending exits, the connection is not destroyed, and nothing has been killed. |
| Connection.ErrorStopsConnection | lib/connection.ts:108-117 | After an error the connection is destroyed for good and its trailing `connect` does nothing. At most the in-flight attempt still spawns. With no attempt in flight, no process is ever spawned again. |
| Connection.Connection.constructor | lib/connection.ts:20-58 | A new connection is inactive, not connecting, not destroyed, has a zero error count and no process, and keeps its name. |
| Connection.Connection.Activate | lib/connection.ts:63-71 | Performs `ActivateStep` on the fields. It leaves the object unchanged when the connection is active or destroyed. |
| Connection.Connection.Connect | lib/connection.ts:116-122 | Performs `ConnectStep` and reports whether an attempt started. When none started, nothing changes. |
| Connection.Connection.FinishConnect | lib/connection.ts:124-132 | Performs `SpawnStep`: one more process, not connecting, active, `Connected.` logged. |
| Connection.Connection.Destroy | lib/connection.ts:76-82 | Performs `DestroyStep`. Afterwards the connection is destroyed, and a repeated call leaves the object unchanged. |
| Connection.Connection.OnError | lib/connection.ts:103-111 | Performs `ErrorStep` and returns its backoff delay. Afterwards the connection is destroyed with one more error counted. |
| Connection.Connection.OnProcessExit | lib/connection.ts:138-148 | Performs `ExitStep`. Afterwards the connection is inactive, and a delay is returned iff it is not destroyed. |
| Keymaster.FindByName | lib/keymaster.ts:13-15 | Gives the first position whose connection has the name, or nothing iff no connection has it. |
| Keymaster.AfterEnable | lib/keymaster.ts:7-11 | After `enable(name)` the name is present and the old entries are a prefix. At most one entry is added, none when the name was present, and distinct names stay distinct. |
| Keymaster.AfterEnables | lib/keymaster.ts:5-19 | After any sequence of `enable` calls the names stay distinct and the old entries are a prefix. Every requested name is present, and nothing else is added. |
| Keymaster.Keymaster.constructor | lib/keymaster.ts:5 | The registry starts empty, which satisfies the distinct-names invariant. |
| Keymaster.Keymaster.GetConnectionByName | lib/keymaster.ts:13-15 | Returns the first enabled connection with that name, or nothing iff none has it. |
| Keymaster.Keymaster.CreateConnection | lib/keymaster.ts:17-19 | Appends one fresh connection with that name in its initial state. Existing entries and their order are untouched. |
| Keymaster.Keymaster.Enable | lib/keymaster.ts:7-11 | Adds a connection only when no entry has the name, and leaves `enabled` unchanged otherwise. It keeps names pairwise distinct. |
| Interface.Contains | lib/interface.ts:66 | `includes` holds iff the part occurs at some position of the string. |
| Interface.FindParam | lib/interface.ts:65-73 | Gives the first config entry whose `param` contains the key, or nothing iff none does. |
| Interface.Keep | lib/interface.ts:63-80 | A row is kept iff its `param` is `Host`, some entry's `param` contains `LocalForward`, and the first entry whose `param` contains `KeymasterIgnore` does not have value `yes`. |
| Interface.ListedRows | lib/interface.ts:62-80 | Each kept row occurs in the result exactly as often as in the input, and no other row occurs. The result is a subsequence of the input, so the order is preserved. |
| Interface.Label | lib/interface.ts:85 | The label is a four-character marker `[?] ` followed by the name. The marker is `[X] ` when the name is active and `[ ] ` otherwise. |
| Interface.ConnectionItems | lib/interface.ts:81-85 | There is one item per listed row. Item i ends with that row's name after the marker, and its marker is `[X] ` when that name is active and `[ ] ` otherwise. |
| Interface.ItemsLabelListedRows | lib/interface.ts:81-85 | Item i is `[X] name` or `[ ] name` for the i-th listed row, marked iff the name is active. Every kept row gets its item, and there are no more items than rows. |
| Interface.TrimStart | lib/interface.ts:28 | The result is a suffix of the input. Everything removed is whitespace, and the result does not start with whitespace. |
| Interface.TrimEnd | lib/interface.ts:28 | The result is a prefix of the input. Everything removed is whitespace, and the result does not end with whitespace. |
| Interface.Trim | lib/interface.ts:28 | The result is a contiguous piece of the input. Everything outside it is whitespace, and it has no whitespace at either end. |
| Interface.IndexOf | lib/interface.ts:26 | Gives the first position of the character, or nothing iff the character is absent. |
| Interface.ParseLabel | lib/interface.ts:25-28 | Fails iff the label has no `]`, where the handler would throw. Otherwise the name has no `]` and no whitespace at either end. |
| Interface.ParseLabelSplitsAtFirstBracket | lib/interface.ts:26-28 | The flag is whether an `X` occurs before the first `]`. The name is the trimmed text after it when no second `]` follows. |
| Interface.ParseLabelNameBetweenBrackets | lib/interface.ts:26-28 | When a second `]` follows the first, the name is the trimmed text between them. |
| Interface.LabelRoundTrip | lib/interface.ts:25-28 | For a name without `]` and without whitespace at either end, parsing its label gives back the name and the active flag. |
| Interface.SelectAction | lib/interface.ts:24-34 | The handler gives a toggle request iff the label contains `]`. |
| Interface.SelectTogglesLabel | lib/interface.ts:29-33 | Selecting a marked label deactivates its name, and selecting an unmarked one activates it. |
| Interface.SelectListedItem | lib/interface.ts:24-34 | Selecting the i-th item of the list deactivates that row's name when it is active, and activates it otherwise. |

## Left out

- Process spawning, `proc.kill()` and reading its output with `byline` (lib/connection.ts:124-136). These are foreign I/O. The spawn is a counter, the exit is an event, and the `ssh` output lines are not logged in the model.
- `delay` timers (lib/connection.ts:109, 145). The model returns the delay in milliseconds instead of waiting.
- The pre-connect hook `executeHook` (lib/connection.ts:157-177). It checks that a file exists and runs an external process. Its outcome never affects the state, so only the await it introduces is modelled, and its log lines are not.
- `debug` logging and the EventEmitter2 plumbing (lib/connection.ts:56, 89-95). The `broadcast` lines from connect and exit are kept as `log`. Nothing in lib/connection.ts, lib/keymaster.ts or lib/interface.ts emits the `error` event, so it is an event that may arrive at any time.
- The `destroying` field (lib/connection.ts:40). It is declared and never used.
- The `config` constructor argument. It only supplies the `ssh` path and the hook path, both used by the I/O that is left out.
- lib/keymaster.ts:18 as written cannot add an entry. It calls `new Connection(name).start()`, but lib/connection.ts has no `start` method, and its constructor also takes a config. TypeScript rejects the line. At runtime, calling the missing `start` throws a TypeError before the `push`, so `enable` would never add anything. The model instead gives the insert-if-absent behaviour the registry is written for: it creates the connection, appends it, and calls nothing on it.
- `activate`, `deactivate`, `getActivatedNames` and `on`, which lib/interface.ts calls on the registry, do not exist in lib/keymaster.ts. Only the toggle choice is modelled (`SelectAction`).
- lib/config.ts: config file loading, SSH config parsing, default merging and platform detection are foreign libraries and I/O. Parsed rows are the input of `ListedRows`, with a missing `param` given as the empty string and a missing `config` as the empty sequence.
- The terminal UI in lib/interface.ts: `initLayout`, `logLines`, rendering, key handlers and the event subscriptions (lib/interface.ts:36-57, 86-167).
- Multi-hop routes, tunnel multiplexing and the SSH transport. The code delegates all of these to the `ssh` binary.
- Interleaving inside a segment. Each await-delimited segment is one atomic step. `onError` computes its delay just after awaiting `destroy()`, and it is modelled in the same step as the increment.
- Interface.Trim: JavaScript strings are UTF-16 code units, while Dafny characters are Unicode scalar values. Only the whitespace set of `String.prototype.trim` is modelled, not lone surrogates.
