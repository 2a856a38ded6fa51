# simple-express-cluster: the master's lifecycle state machine in Dafny

This project models the supervisor ("master") of `simple-express-cluster`. It
forks a pool of Node.js cluster workers and tracks each one in an
insertion-ordered table keyed by the cluster worker id. It reacts to the
`online`, `disconnect` and `exit` events. It decides whether a dead worker gets a
replacement under a restart budget: a replacement carries the dead worker's
restart count plus one, and no replacement is forked once that count reaches
the limit. On `SIGQUIT` it shuts down
cooperatively. When an Express application is attached, it renders the table
into a session snapshot at start-up and after each online, disconnect and exit
event (twice for an exit). SIGQUIT and attaching Express write none.

Every event handler is a pure function from one supervisor state to the next.
It also returns the handler's effects, in the order the handler produces them:

- `Output(text)`: a line on the `output` event channel, without its timestamp;
- `Write(session)`: a snapshot handed to the file writer;
- `Send(id, "quit")`: a message to a worker.

Modules, leaves first:

- `Wrappers` (`wrappers.dfy`): the `Option` type, used for every field the
  source may leave undefined.
- `Text` (`text.dfy`): decimal rendering of integers, as template literals
  print them below 10^21, and its inverse.
- `Types` (`types.dfy`): the records of `src/types.ts`.
  - `Worker`: the `IWorker` bookkeeping, plus the process id.
  - `ClusterOptionsInput` and `ClusterOptions`: `IClusterOptions` as given and
    as resolved.
  - `WorkerData` and `SessionData`: the snapshot shapes. In `WorkerData`,
    `reason` is the only optional field.
- `Options` (`options.dfy`): the constructor's merge of defaults with the
  caller's options.
- `Registry` (`registry.dfy`): the JavaScript `Map` of workers. It is a
  sequence of entries with pairwise distinct keys. `Set` overwrites in place
  or appends, `Delete` removes, and `Lookup` is the reference view both are
  specified against.
- `Master` (`master.dfy`): the supervisor state (`Machine`), the invariant
  `Wf` and the handlers.
  - Handlers: `Start` (`get`), `OnOnline`, `OnDisconnect`, `OnExit`,
    `OnQuit` (SIGQUIT) and `OnAttachExpress` (`setExpress`).
  - Supporting functions: the restart policy `ShouldRestart`, the snapshot
    `Snapshot`, and the notice texts.
- `Lifecycle` (`lifecycle.dfy`): runs of many events and the properties
  every run keeps.

Abstractions:

- `cluster.fork()` is a fresh-id supply. `Machine.nextId` is above every
  registered id, and each fork takes it and increments it. An event that
  reports an id the master never registered advances the supply past that
  id, because the cluster module has already issued it. Until such an event
  arrives the supply does not know the id (see "Left out").
- `Wf` is the invariant of every reachable state. `Start` establishes it and
  every handler keeps it (`Lifecycle.Run`). So when `OnExit` requires it,
  that only asks for a reachable state. It is needed there because a
  replacement's id must be free.
- A worker's OS process id is an opaque function `pidOf` of its worker id.
- The master's own pid and the host's core count are parameters.

Behaviour of the code worth noting:

- A replacement worker is registered under a new id from the supply. It does
  not reuse the dead worker's id. The dead worker's entry, with status
  `exit`, is never removed.
- The snapshot's `cluster_status` is always `"running"`. No handler changes
  it, not even SIGQUIT.
- SIGQUIT sends `quit` to every registry entry, exited workers included.
- The exit notice says ", Restarting...!" whenever `auto_restart` is on, even
  when the limit then prevents the restart. The limit notice follows it.
- An event for a worker id the master never registered (a worker forked by
  other code and reported before the master's next fork; see "Left out") is added by `Map.set` with an undefined restart count. Such a
  worker is never replaced, because `limit > undefined` is false.

## Model

| member | source | states |
|---|---|---|
| Options.Resolve | src/index.ts:186-192 | each configuration field is the caller's value when supplied, otherwise its default: the host core count, `false`, `3`, `false` |
| Options.ResolveOmitted | src/index.ts:186-190 | with no options at all, the cluster forks one worker per host core, never restarts, has restart limit 3 and no Express application |
| Options.ResolveComplete | src/types.ts:9-14 | every field of the input is optional, and a fully supplied input overrides every default, whatever the host |
| Registry.Lookup | src/index.ts:13 | the worker found under a key is exactly the one stored at that key's position, and there is one iff the key is registered |
| Registry.Set | src/index.ts:94 | after `set`, the key maps to the new worker and every other key's worker is unchanged; a present key keeps its position, an absent one is appended |
| Registry.Delete | src/index.ts:107-109 | after `delete`, the key is gone, every other key keeps its worker, and the remaining entries keep their order |
| Registry.MoveToEnd | src/index.ts:107-113 | delete followed by set moves the key behind every other entry; the size grows only if the key was absent |
| Master.Fork | src/index.ts:118-120 | a fork appends one worker under the next fresh id with the given restart count, and keeps the invariant |
| Master.ForkMany | src/index.ts:41-46 | the start-up loop appends workers with consecutive fresh ids, restart count 0 and no status, after the existing entries |
| Master.Start | src/index.ts:37-50 | after `get`, the registry holds exactly `max(0, cpus)` workers with consecutive fresh ids, restart count 0 and no status; the start notice and one fork notice per worker are emitted, then a snapshot if Express is attached; the invariant holds |
| Master.OnOnline | src/index.ts:91-96 | only that worker's status changes, to `online`; a registered worker keeps its position and every other entry is unchanged; an unregistered one is appended |
| Master.OnDisconnect | src/index.ts:98-103 | only that worker's status changes, to `disconnect`, with the same position and frame guarantees; it never shrinks the registry and makes no restart decision |
| Master.Died | src/index.ts:111-112 | the dead worker's record has status `exit` and the reason "The worker died with exit code {code}, and signal {signal}"; its pid and restart count are kept |
| Master.Settle | src/index.ts:107-114 | the dead worker's entry is moved to the end with its new record, every other worker is unchanged, and the invariant holds |
| Master.Replace | src/index.ts:116-123 | a replacement with restart count + 1 is appended under an unused id iff `auto_restart && limit > restartCount`; otherwise the registry is unchanged |
| Master.OnExit | src/index.ts:105-126 | the registry becomes the other entries in order, then the dead worker, then a replacement under a new id with restart count + 1 exactly when the policy approves; the size grows by one iff a replacement is forked (plus one for an unregistered id); the invariant holds |
| Master.ExitFrame | src/index.ts:107-123 | after an exit, the dead worker's entry is its exit record, the replacement id was free, a replacement exists iff the policy approves, and no other worker changes |
| Master.ExitEffects | src/index.ts:106-125 | the exit handler's first effect is the death notice; the "Maximum restart limit reached" notice is among its effects exactly when no replacement is registered; with Express attached it writes exactly two snapshots, first the state with the dead worker moved to the end, last the final state; without Express it writes none |
| Master.ShouldRestart | src/index.ts:116-117 | no restart when `auto_restart` is off or the count is undefined; for a defined count, a restart happens exactly when `auto_restart` is on and the replacement's count, one higher, stays within the limit |
| Master.StartNotice | src/index.ts:38-40 | the start-up notice is exactly a fixed prefix, the master's pid (which reads back), ", forking ", and the configured worker count followed by " processes" |
| Master.OnlineNotice | src/index.ts:92 | the online notice is exactly "Worker ", the worker's pid (which reads back), and " is online" |
| Master.DisconnectNotice | src/index.ts:99 | the disconnect notice is exactly "Worker ", the worker id (which reads back), " with PID ", and the worker's pid followed by " disconnected." |
| Master.ExitNotice | src/index.ts:106 | the death notice starts with the worker id, which reads back from it, and ends in ", Restarting...!" exactly when `auto_restart` is on |
| Master.CodeText | src/index.ts:112 | an absent exit code is written `null`; a present one is written so that it reads back as the same number |
| Master.DiedReason | src/index.ts:112 | the recorded reason is exactly "The worker died with exit code ", the exit code's text (so a present code reads back), ", and signal ", and the signal's text |
| Master.LimitNotice | src/index.ts:122 | the limit notice is a fixed prefix followed by the worker id, which reads back from it |
| Types.Status.Name | src/types.ts:5 | each status the handlers assign is written as nonempty text that reads back as the same status |
| Master.StatusText | src/index.ts:65 | `status \|\| ""` writes `""` exactly for a worker with no status yet, and the written text reads back as the worker's status |
| Master.Summary | src/index.ts:62-70 | a worker's snapshot line carries its id and pid, its status (`""` exactly when it has none, otherwise reading back as that status), and a reason exactly when its status is `exit`, its recorded reason or `""` |
| Master.Persist | src/index.ts:56-73 | `storeProcessData` writes nothing without Express; with Express it writes exactly one effect, the snapshot of the current state |
| Master.Snapshot | src/index.ts:56-73 | nothing when no Express application is attached; otherwise one summary per registry entry in registry order, carrying its id, pid and status (`""` exactly when there is none, otherwise read back exactly), with a reason iff the status is `exit` |
| Master.OnQuit | src/index.ts:133-139 | `auto_restart` becomes false and nothing else in the state changes; the quit notice is followed by one `quit` per registry entry, in registry order, exited workers included |
| Master.OnAttachExpress | src/index.ts:218-219 | attaching Express sets only `has_express_instance` and writes nothing at once |
| Lifecycle.Apply | src/index.ts:90-140 | handling any single event, by the handler registered for it, keeps the invariant (ids below the fork counter, restart counts within the limit), never changes the worker count, the restart limit or the master's pid, never switches `auto_restart` on and never detaches Express |
| Lifecycle.Run | src/index.ts:90-140 | over any sequence of events the invariant holds, the worker count and restart limit never change, `auto_restart` is never switched back on, and Express once attached stays attached |
| Lifecycle.ApplyKeepsCounts | src/index.ts:91-123 | no event changes a worker's restart count once it has one; while restarts are impossible, no event gives any worker one |
| Lifecycle.ApplyKeepsPids | src/index.ts:91-123 | no event removes a registered worker or changes its process id: the exit handler deletes and re-adds the dead worker, and the other handlers only set |
| Lifecycle.RunKeepsPids | src/index.ts:91-123 | over any run, every registered worker stays registered with the same process id |
| Lifecycle.RunKeepsCounts | src/index.ts:44 | a restart count, once assigned at fork, is the same after any number of events |
| Lifecycle.NoRestartOnceDisabled | src/index.ts:116-117 | once `auto_restart` is off or the limit is at most 0, no later exit forks a replacement and every worker's restart count stays as it is |
| Lifecycle.QuitIsFinal | src/index.ts:133-134 | after SIGQUIT, `auto_restart` stays false and no exit in any later run forks a replacement |
| Lifecycle.NonPositiveLimitNeverRestarts | src/index.ts:116-119 | a restart limit of 0 or less never produces a replacement, whatever `auto_restart` says |
| Lifecycle.QuitIdempotent | src/index.ts:134 | repeating SIGQUIT leaves the state, options included, as the first one left it |
| Lifecycle.RestartCountBounded | src/index.ts:116-119 | in every run from start-up, each worker's restart count is between 0 and `max(0, auto_restart_limit)` |
| Lifecycle.NoSnapshotWithoutExpress | src/index.ts:57-59 | without an Express application, no run writes a snapshot |
| Lifecycle.ApplyWritesNothingWithoutExpress | src/index.ts:57-59 | no single event other than attaching Express writes a snapshot while none is attached |
| Text.ParseIntText | src/index.ts:112 | the decimal text of an exit code, a pid or an id loses nothing: it parses back to the number |

## Left out

- File I/O: writing and reading `data.json` (`writeFile`, `fs.readFile`) and
  its path. A snapshot is an effect value, not bytes on disk, so write errors
  and stale reads are not modelled.
- `JSON.stringify` and `JSON.parse`: library serialisation whose code is not
  part of this model. Therefore the snapshot's JSON round trip is not stated.
- The Express routes `/cluster/healthcheck` and `/cluster/stats`: HTTP
  plumbing. Only the flag that `setExpress` sets is modelled.
- `run`'s master/worker role dispatch and the `Worker` class that calls the
  user's callback: process and IPC primitives with no decision logic.
- The `uncaughtException` handler: in the master, `cluster.worker` is
  undefined, so the worker it disconnects is not defined.
- The mechanics of `cluster.fork()` and `worker.send`. They are modelled as
  the fresh-id supply and `Send` effects.
- The timestamp prefix of every output line: it comes from the wall clock.
- `os.cpus()` and `process.pid`: host queries, taken as parameters.
- Options.Resolve: an option passed explicitly as `undefined` is treated as
  omitted. The object spread in the constructor would copy `undefined` over
  the default.
- Numbers are modelled as integers. A fractional `cpus` or
  `auto_restart_limit`, or `NaN`, is not modelled. Decimal rendering matches
  JavaScript's only below 10^21, where it switches to exponent notation, and
  is exact only up to 2^53; ids, pids and exit codes stay far below both.
- Master.ExitNotice: the contract pins down the leading id and the trailing
  ", Restarting...!" but not the cause text between them (the signal, or
  "exit code" and the code); that part is only defined by the function body.
- Forks by other code are assumed to be reported to the master before its
  own next fork. Node's `cluster.fork()` takes ids from one counter shared by
  every caller, but the model learns of a foreign id only when an event for it
  arrives. If another caller forks before that, the model's supply can hand
  the master's replacement the id the foreign worker already holds, and a
  later event for that worker is then applied to the replacement.
- Master.Cause and Master.SignalText: the cause text of the death notice (the
  signal unless it is absent or empty, otherwise "exit code" and the code) and
  the `null` rendering of an absent signal are fixed only by their bodies.
- Events for one worker arriving after its exit are handled like any other
  event. The model does not restrict the order in which Node delivers them.
