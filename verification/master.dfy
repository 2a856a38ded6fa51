/**
 * The master process's lifecycle state machine. Each cluster event is a pure
 * transition from one supervisor state to the next, together with the effects
 * the handler produces, in order: notices on the output channel, snapshots
 * written for the stats endpoint, and messages sent to workers.
 *
 * `cluster.fork()` is a fresh-id supply (`nextId`, above every key) and the OS
 * process id of a worker is an opaque function of its id.
 */
module Master {
  import opened Wrappers
  import opened Types
  import opened Text
  import opened Registry

  /** The OS process id behind each worker id. */
  type PidSupply = WorkerId -> int

  datatype Machine = Machine(
    options: ClusterOptions,
    clusterSize: int,
    masterPid: int,
    registry: Registry,
    nextId: WorkerId)

  datatype Effect =
    | Output(message: string)
    | Write(session: SessionData)
    | Send(recipient: WorkerId, message: string)

  /** The state after an event and the effects of handling it. */
  datatype Step = Step(machine: Machine, effects: seq<Effect>)

  const RunningStatus := "running"
  const ForkingNotice := "Forking a new worker...!"
  const QuitNotice := "QUIT received, will exit once all workers have finished current requests"
  const QuitMessage := "quit"
  const StartPrefix := "Master started on pid "
  const ForkingLabel := ", forking "
  const ProcessesSuffix := " processes"
  const WorkerPrefix := "Worker "
  const OnlineSuffix := " is online"
  const PidLabel := " with PID "
  const DisconnectedSuffix := " disconnected."
  const SignalLabel := ", and signal "
  const RestartingSuffix := ", Restarting...!"
  const LimitPrefix := "Maximum restart limit reached for worker "
  const ReasonPrefix := "The worker died with exit code "

  function Max(a: int, b: int): int {
    if a < b then b else a
  }

  /** The number of iterations of the start-up loop `for (index = 0; index < cpus; index++)`. */
  function ForkCount(cpus: int): nat {
    if cpus > 0 then cpus else 0
  }

  // ---------------------------------------------------------------------------
  // Invariant

  /** A worker's restart count, when it has one, lies between 0 and the limit (0 if the limit is negative). */
  predicate CountWithinLimit(limit: int, w: Worker) {
    w.restartCount.Some? ==> 0 <= w.restartCount.value <= Max(0, limit)
  }

  /** Every state the master reaches: ids below the fork counter, restart counts within the limit. */
  predicate Wf(m: Machine) {
    forall i :: 0 <= i < |m.registry| ==>
      m.registry[i].id < m.nextId && CountWithinLimit(m.options.autoRestartLimit, m.registry[i].worker)
  }

  // ---------------------------------------------------------------------------
  // Notices (the body of each output line; the timestamp prefix is not modelled)

  /**
   * The start-up notice: a fixed prefix, the master's pid (which reads back),
   * ", forking ", and the worker count followed by " processes"; nothing else.
   */
  function StartNotice(masterPid: int, cpus: int): (n: string)
    ensures |n| == |StartPrefix| + |IntText(masterPid)| + |ForkingLabel| + |IntText(cpus)| + |ProcessesSuffix|
    ensures n[..|StartPrefix|] == StartPrefix
    ensures var k := |StartPrefix| + |IntText(masterPid)|;
      k <= |n| && IsIntText(n[|StartPrefix|..k]) && ParseInt(n[|StartPrefix|..k]) == masterPid
    ensures var k := |StartPrefix| + |IntText(masterPid)|;
      var tail := IntText(cpus) + ProcessesSuffix;
      k <= |n| - |tail| && n[k..|n| - |tail|] == ForkingLabel && n[|n| - |tail|..] == tail
  {
    var tail := IntText(cpus) + ProcessesSuffix;
    var n := StartPrefix + IntText(masterPid) + ForkingLabel + tail;
    ConcatParts(StartPrefix, IntText(masterPid), ForkingLabel, tail);
    ParseIntText(masterPid);
    n
  }

  /** The online notice: "Worker ", the worker's pid (which reads back), then " is online"; nothing else. */
  function OnlineNotice(pid: int): (n: string)
    ensures |n| == |WorkerPrefix| + |IntText(pid)| + |OnlineSuffix|
    ensures n[..|WorkerPrefix|] == WorkerPrefix
    ensures var k := |WorkerPrefix| + |IntText(pid)|;
      k <= |n| && IsIntText(n[|WorkerPrefix|..k]) && ParseInt(n[|WorkerPrefix|..k]) == pid
    ensures n[|n| - |OnlineSuffix|..] == OnlineSuffix
  {
    var n := WorkerPrefix + IntText(pid) + OnlineSuffix;
    ConcatParts(WorkerPrefix, IntText(pid), "", OnlineSuffix);
    assert WorkerPrefix + IntText(pid) + "" + OnlineSuffix == n;
    ParseIntText(pid);
    n
  }

  /**
   * The disconnect notice: "Worker ", the worker id (which reads back),
   * " with PID ", and the pid followed by " disconnected."; nothing else.
   */
  function DisconnectNotice(id: WorkerId, pid: int): (n: string)
    ensures |n| == |WorkerPrefix| + |IntText(id)| + |PidLabel| + |IntText(pid)| + |DisconnectedSuffix|
    ensures n[..|WorkerPrefix|] == WorkerPrefix
    ensures var k := |WorkerPrefix| + |IntText(id)|;
      k <= |n| && IsIntText(n[|WorkerPrefix|..k]) && ParseInt(n[|WorkerPrefix|..k]) == id
    ensures var k := |WorkerPrefix| + |IntText(id)|;
      var tail := IntText(pid) + DisconnectedSuffix;
      k <= |n| - |tail| && n[k..|n| - |tail|] == PidLabel && n[|n| - |tail|..] == tail
  {
    var tail := IntText(pid) + DisconnectedSuffix;
    var n := WorkerPrefix + IntText(id) + PidLabel + tail;
    ConcatParts(WorkerPrefix, IntText(id), PidLabel, tail);
    ParseIntText(id);
    n
  }

  /** A template literal renders an absent exit code or signal as `null`; a present code reads back exactly. */
  function CodeText(code: Option<int>): (t: string)
    ensures code.None? ==> t == "null"
    ensures code.Some? ==> IsIntText(t) && ParseInt(t) == code.value
  {
    match code
    case Some(c) => ParseIntText(c); IntText(c)
    case None => "null"
  }

  function SignalText(signal: Option<string>): string {
    match signal
    case Some(s) => s
    case None => "null"
  }

  /** `signal || ("exit code " + code)`: the signal unless it is absent or empty. */
  function Cause(code: Option<int>, signal: Option<string>): string {
    if signal.Some? && signal.value != "" then signal.value else "exit code " + CodeText(code)
  }

  /**
   * The death notice: it starts with the worker id, from which the id reads
   * back, and ends in ", Restarting...!" exactly when automatic restart is on,
   * whether or not a replacement then follows.
   */
  function ExitNotice(id: WorkerId, code: Option<int>, signal: Option<string>, autoRestart: bool): (n: string)
    ensures |n| > |IntText(id)| && n[..|IntText(id)|] == IntText(id)
    ensures ParseInt(n[..|IntText(id)|]) == id
    ensures autoRestart <==> |n| >= |RestartingSuffix| && n[|n| - |RestartingSuffix|..] == RestartingSuffix
  {
    var n := IntText(id) + " died with " + Cause(code, signal) + " " + (if autoRestart then RestartingSuffix else "");
    ParseIntText(id);
    assert n[..|IntText(id)|] == IntText(id);
    assert !autoRestart ==> n[|n| - 1] == ' ';
    n
  }

  /** The notice that the restart budget is used up; the worker id reads back from its tail. */
  function LimitNotice(id: WorkerId): (n: string)
    ensures |n| > |LimitPrefix| && n[..|LimitPrefix|] == LimitPrefix
    ensures IsIntText(n[|LimitPrefix|..]) && ParseInt(n[|LimitPrefix|..]) == id
  {
    var n := LimitPrefix + IntText(id);
    ParseIntText(id);
    assert n[|LimitPrefix|..] == IntText(id);
    n
  }

  /**
   * The reason recorded for a dead worker: a fixed prefix, the exit code's
   * text (so a present code reads back), ", and signal ", and the signal's
   * text; nothing else.
   */
  function DiedReason(code: Option<int>, signal: Option<string>): (r: string)
    ensures |r| == |ReasonPrefix| + |CodeText(code)| + |SignalLabel| + |SignalText(signal)|
    ensures r[..|ReasonPrefix|] == ReasonPrefix
    ensures r[|ReasonPrefix|..|ReasonPrefix| + |CodeText(code)|] == CodeText(code)
    ensures r[|ReasonPrefix| + |CodeText(code)|..|r| - |SignalText(signal)|] == SignalLabel
    ensures r[|r| - |SignalText(signal)|..] == SignalText(signal)
  {
    ConcatParts(ReasonPrefix, CodeText(code), SignalLabel, SignalText(signal));
    ReasonPrefix + CodeText(code) + SignalLabel + SignalText(signal)
  }

  // ---------------------------------------------------------------------------
  // Snapshot

  /** A missing status is written as the empty text. */
  function StatusText(s: Option<Status>): (t: string)
    ensures t == "" <==> s.None?
    ensures ParseStatus(t) == s
  {
    match s
    case Some(st) => st.Name()
    case None => ""
  }

  /**
   * One worker's line of the snapshot: its id and pid, its status (empty when
   * it has none yet, otherwise reading back exactly), and a reason exactly
   * when it has exited.
   */
  function Summary(e: Entry): (d: WorkerData)
    ensures d.workerId == e.id && d.pid == e.worker.pid
    ensures d.status == "" <==> e.worker.status.None?
    ensures ParseStatus(d.status) == e.worker.status
    ensures d.reason.Some? <==> e.worker.status == Some(Exit)
    ensures d.reason.Some? ==> d.reason.value == e.worker.diedReason.GetOr("")
  {
    WorkerData(
      e.id,
      e.worker.pid,
      StatusText(e.worker.status),
      if e.worker.status == Some(Exit) then Some(e.worker.diedReason.GetOr("")) else None)
  }

  /**
   * The session data written after a transition: nothing unless an Express
   * application is attached, otherwise one summary per registry entry in
   * registry order, from which each worker's id, pid and status can be read
   * back, with a reason exactly for exited workers.
   */
  function Snapshot(m: Machine): (d: Option<SessionData>)
    ensures d.None? <==> !m.options.hasExpressInstance
    ensures d.Some? ==>
      && d.value.clusterSize == m.clusterSize
      && d.value.masterProcessId == m.masterPid
      && d.value.clusterStatus == RunningStatus
      && |d.value.workers| == |m.registry|
    ensures d.Some? ==> forall i :: 0 <= i < |m.registry| ==>
      && d.value.workers[i].workerId == m.registry[i].id
      && d.value.workers[i].pid == m.registry[i].worker.pid
      && (d.value.workers[i].status == "" <==> m.registry[i].worker.status.None?)
      && ParseStatus(d.value.workers[i].status) == m.registry[i].worker.status
      && (d.value.workers[i].reason.Some? <==> d.value.workers[i].status == "exit")
      && (d.value.workers[i].reason.Some? ==>
            d.value.workers[i].reason.value == m.registry[i].worker.diedReason.GetOr(""))
  {
    if !m.options.hasExpressInstance then None
    else
      var r := m.registry;
      Some(SessionData(
        m.clusterSize, m.masterPid, RunningStatus,
        seq(|r|, i requires 0 <= i < |r| => Summary(r[i]))))
  }

  /** `storeProcessData`: writes the snapshot, if there is one. */
  function Persist(m: Machine): (effects: seq<Effect>)
    ensures effects == [] <==> !m.options.hasExpressInstance
    ensures m.options.hasExpressInstance ==> effects == [Write(Snapshot(m).value)]
    ensures |effects| <= 1
    ensures forall e :: e in effects ==> e.Write?
  {
    match Snapshot(m)
    case Some(d) => [Write(d)]
    case None => []
  }

  // ---------------------------------------------------------------------------
  // Forking

  /** `cluster.fork()` followed by `workers.set`: a new worker under a fresh id, with the given restart count. */
  function Fork(m: Machine, restartCount: int, pidOf: PidSupply): (m': Machine)
    requires Wf(m)
    requires 0 <= restartCount <= Max(0, m.options.autoRestartLimit)
    ensures Wf(m')
    ensures m'.registry == m.registry + [Entry(m.nextId, Worker(pidOf(m.nextId), Some(restartCount), None, None))]
    ensures Lookup(m'.registry, m.nextId) == Some(Worker(pidOf(m.nextId), Some(restartCount), None, None))
    ensures forall j :: j != m.nextId ==> Lookup(m'.registry, j) == Lookup(m.registry, j)
    ensures m'.nextId == m.nextId + 1
    ensures m'.options == m.options && m'.clusterSize == m.clusterSize && m'.masterPid == m.masterPid
  {
    var id := m.nextId;
    assert !Has(m.registry, id);
    m.(registry := Set(m.registry, id, Worker(pidOf(id), Some(restartCount), None, None)), nextId := id + 1)
  }

  /** `n` consecutive forks with restart count 0, as the start-up loop performs them. */
  function ForkMany(m: Machine, n: nat, pidOf: PidSupply): (m': Machine)
    requires Wf(m)
    ensures Wf(m')
    ensures |m'.registry| == |m.registry| + n
    ensures m'.registry[..|m.registry|] == m.registry
    ensures forall i :: |m.registry| <= i < |m'.registry| ==>
      var id := m.nextId + (i - |m.registry|);
      m'.registry[i] == Entry(id, Worker(pidOf(id), Some(0), None, None))
    ensures m'.nextId == m.nextId + n
    ensures m'.options == m.options && m'.clusterSize == m.clusterSize && m'.masterPid == m.masterPid
    decreases n
  {
    if n == 0 then m
    else
      var m1 := Fork(m, 0, pidOf);
      var e := Entry(m.nextId, Worker(pidOf(m.nextId), Some(0), None, None));
      assert m1.registry == m.registry + [e];
      var m' := ForkMany(m1, n - 1, pidOf);
      PrefixOfPrefix(m.registry, e, m'.registry);
      m'
  }

  /** A sequence that starts with `a + [e]` starts with `a`, followed by `e`. */
  lemma PrefixOfPrefix<T>(a: seq<T>, e: T, b: seq<T>)
    requires |b| >= |a| + 1 && b[..|a| + 1] == a + [e]
    ensures b[..|a|] == a && b[|a|] == e
  {
    assert b[..|a|] == b[..|a| + 1][..|a|];
  }

  /**
   * `Master.get`: a fresh master forks `cpus` workers (none when `cpus` is not
   * positive), each with restart count 0 and no status yet, under consecutive
   * fresh ids; then writes the first snapshot.
   */
  function Start(options: ClusterOptions, masterPid: int, firstId: WorkerId, pidOf: PidSupply): (s: Step)
    ensures Wf(s.machine)
    ensures s.machine.options == options
    ensures s.machine.clusterSize == options.cpus && s.machine.masterPid == masterPid
    ensures |s.machine.registry| == ForkCount(options.cpus)
    ensures forall i :: 0 <= i < |s.machine.registry| ==>
      s.machine.registry[i] == Entry(firstId + i, Worker(pidOf(firstId + i), Some(0), None, None))
    ensures s.machine.nextId == firstId + ForkCount(options.cpus)
    ensures s.effects ==
      [Output(StartNotice(masterPid, options.cpus))]
      + seq(ForkCount(options.cpus), _ => Output(ForkingNotice))
      + Persist(s.machine)
  {
    var m := ForkMany(Machine(options, options.cpus, masterPid, [], firstId), ForkCount(options.cpus), pidOf);
    Step(m, [Output(StartNotice(masterPid, options.cpus))] + seq(ForkCount(options.cpus), _ => Output(ForkingNotice)) + Persist(m))
  }

  // ---------------------------------------------------------------------------
  // Event handlers

  /**
   * The worker object an event reports: the registered one, or, for a worker
   * the master never registered, one without bookkeeping.
   */
  function Observed(m: Machine, id: WorkerId, pidOf: PidSupply): (w: Worker)
    ensures Has(m.registry, id) ==> Some(w) == Lookup(m.registry, id)
    ensures !Has(m.registry, id) ==> w == Worker(pidOf(id), None, None, None)
  {
    match Lookup(m.registry, id)
    case Some(w) => w
    case None => Worker(pidOf(id), None, None, None)
  }

  /** `workers.set(worker.id, worker)`; the fork counter never re-issues an id it has seen. */
  function Record(m: Machine, id: WorkerId, w: Worker): Machine {
    m.(registry := Set(m.registry, id, w), nextId := Max(m.nextId, id + 1))
  }

  /**
   * What the online and disconnect handlers do to the state: only worker
   * `id`'s status changes, to `st`; a registered worker keeps its position,
   * an unregistered one is appended; everything else is unchanged.
   */
  ghost predicate StatusOnlyChanged(m: Machine, m': Machine, id: WorkerId, st: Status, pidOf: PidSupply) {
    && m'.options == m.options && m'.clusterSize == m.clusterSize && m'.masterPid == m.masterPid
    && Lookup(m'.registry, id) == Some(Observed(m, id, pidOf).(status := Some(st)))
    && (forall j :: j != id ==> Lookup(m'.registry, j) == Lookup(m.registry, j))
    && (Has(m.registry, id) ==>
          && |m'.registry| == |m.registry|
          && forall i :: 0 <= i < |m.registry| ==>
               m'.registry[i] == if m.registry[i].id == id
                                 then Entry(id, m.registry[i].worker.(status := Some(st)))
                                 else m.registry[i])
    && (!Has(m.registry, id) ==> m'.registry == m.registry + [Entry(id, Worker(pidOf(id), None, Some(st), None))])
  }

  function MarkStatus(m: Machine, id: WorkerId, st: Status, pidOf: PidSupply): (m': Machine)
    ensures Wf(m) ==> Wf(m')
    ensures StatusOnlyChanged(m, m', id, st, pidOf)
  {
    var w := Observed(m, id, pidOf);
    var m' := Record(m, id, w.(status := Some(st)));
    assert Has(m.registry, id) ==> forall i :: 0 <= i < |m.registry| && m.registry[i].id == id ==>
      m.registry[i].worker == w;
    m'
  }

  /** The `online` handler: notice, status `online`, snapshot. */
  function OnOnline(m: Machine, id: WorkerId, pidOf: PidSupply): (s: Step)
    ensures Wf(m) ==> Wf(s.machine)
    ensures StatusOnlyChanged(m, s.machine, id, Online, pidOf)
    ensures s.effects == [Output(OnlineNotice(Observed(m, id, pidOf).pid))] + Persist(s.machine)
  {
    var m' := MarkStatus(m, id, Online, pidOf);
    Step(m', [Output(OnlineNotice(Observed(m, id, pidOf).pid))] + Persist(m'))
  }

  /** The `disconnect` handler: notice, status `disconnect`, snapshot; no restart decision. */
  function OnDisconnect(m: Machine, id: WorkerId, pidOf: PidSupply): (s: Step)
    ensures Wf(m) ==> Wf(s.machine)
    ensures StatusOnlyChanged(m, s.machine, id, Disconnect, pidOf)
    ensures |s.machine.registry| >= |m.registry|
    ensures s.effects == [Output(DisconnectNotice(id, Observed(m, id, pidOf).pid))] + Persist(s.machine)
  {
    var m' := MarkStatus(m, id, Disconnect, pidOf);
    Step(m', [Output(DisconnectNotice(id, Observed(m, id, pidOf).pid))] + Persist(m'))
  }

  /** The dead worker's record: status `exit` and the reason built from code and signal; nothing else changes. */
  function Died(w: Worker, code: Option<int>, signal: Option<string>): (d: Worker)
    ensures d.status == Some(Exit) && d.diedReason == Some(DiedReason(code, signal))
    ensures d.pid == w.pid && d.restartCount == w.restartCount
  {
    w.(status := Some(Exit), diedReason := Some(DiedReason(code, signal)))
  }

  /** The restart policy: `auto_restart && auto_restart_limit > restartCount`, false for an undefined count. */
  function ShouldRestart(o: ClusterOptions, w: Worker): (b: bool)
    ensures !o.autoRestart ==> !b
    ensures w.restartCount.None? ==> !b
    ensures w.restartCount.Some? && w.restartCount.value >= 0 ==>
      (b <==> o.autoRestart && CountWithinLimit(o.autoRestartLimit, w.(restartCount := Some(w.restartCount.value + 1))))
  {
    o.autoRestart && w.restartCount.Some? && o.autoRestartLimit > w.restartCount.value
  }

  /** `workers.delete(id)` then `workers.set(id, dead)`: the state the first snapshot of an exit shows. */
  function Settle(m: Machine, id: WorkerId, dead: Worker): (m': Machine)
    requires Wf(m)
    requires CountWithinLimit(m.options.autoRestartLimit, dead)
    ensures Wf(m')
    ensures m'.registry == Delete(m.registry, id) + [Entry(id, dead)]
    ensures forall j :: Lookup(m'.registry, j) == if j == id then Some(dead) else Lookup(m.registry, j)
    ensures m'.nextId == Max(m.nextId, id + 1)
    ensures m'.options == m.options && m'.clusterSize == m.clusterSize && m'.masterPid == m.masterPid
  {
    MoveToEnd(m.registry, id, dead);
    var m1 := m.(registry := Delete(m.registry, id));
    var m2 := Record(m1, id, dead);
    assert Wf(m2) by {
      forall i | 0 <= i < |m2.registry| - 1
        ensures m2.registry[i].id < m2.nextId
        ensures CountWithinLimit(m.options.autoRestartLimit, m2.registry[i].worker)
      {
        var e := m2.registry[i];
        assert Lookup(m1.registry, e.id) == Some(e.worker);
        var k := IndexOf(m.registry, e.id);
      }
    }
    m2
  }

  /**
   * The restart decision after a worker died: a replacement under the next
   * fresh id with the restart count one higher, or no change.
   */
  function Replace(m: Machine, dead: Worker, pidOf: PidSupply): (m': Machine)
    requires Wf(m)
    requires dead.restartCount.Some? ==> 0 <= dead.restartCount.value
    ensures Wf(m')
    ensures m'.options == m.options && m'.clusterSize == m.clusterSize && m'.masterPid == m.masterPid
    ensures m'.nextId == m.nextId + (if ShouldRestart(m.options, dead) then 1 else 0)
    ensures !Has(m.registry, m.nextId)
    ensures m'.registry ==
      m.registry
      + (if ShouldRestart(m.options, dead)
         then [Entry(m.nextId, Worker(pidOf(m.nextId), Some(dead.restartCount.value + 1), None, None))]
         else [])
    ensures forall j :: j != m.nextId ==> Lookup(m'.registry, j) == Lookup(m.registry, j)
    ensures ShouldRestart(m.options, dead) <==> Has(m'.registry, m.nextId)
  {
    assert !Has(m.registry, m.nextId) by {
      forall i | 0 <= i < |m.registry| ensures m.registry[i].id != m.nextId {
        assert m.registry[i].id < m.nextId;
      }
    }
    if ShouldRestart(m.options, dead) then
      Fork(m, dead.restartCount.value + 1, pidOf)
    else
      m
  }

  /**
   * The `exit` handler. The dead worker is deleted and set again, so it stays
   * in the registry, moved to the end, with status `exit` and its reason.
   * Then the restart policy either appends a replacement under a fresh id with
   * the restart count one higher, or emits the limit notice and adds nothing.
   */
  function OnExit(m: Machine, id: WorkerId, code: Option<int>, signal: Option<string>, pidOf: PidSupply): (s: Step)
    requires Wf(m)
    ensures Wf(s.machine)
    ensures s.machine.options == m.options
    ensures s.machine.clusterSize == m.clusterSize && s.machine.masterPid == m.masterPid
    ensures var dead := Died(Observed(m, id, pidOf), code, signal);
      var newId := Max(m.nextId, id + 1);
      s.machine.registry ==
        Delete(m.registry, id) + [Entry(id, dead)]
        + (if ShouldRestart(m.options, dead)
           then [Entry(newId, Worker(pidOf(newId), Some(dead.restartCount.value + 1), None, None))]
           else [])
    ensures s.machine.nextId == Max(m.nextId, id + 1) + (if ShouldRestart(m.options, Observed(m, id, pidOf)) then 1 else 0)
    ensures |s.machine.registry| ==
      |m.registry|
      + (if Has(m.registry, id) then 0 else 1)
      + (if ShouldRestart(m.options, Observed(m, id, pidOf)) then 1 else 0)
  {
    var w := Observed(m, id, pidOf);
    var dead := Died(w, code, signal);
    assert !Has(m.registry, Max(m.nextId, id + 1)) by {
      forall i | 0 <= i < |m.registry| ensures m.registry[i].id != Max(m.nextId, id + 1) {
        assert m.registry[i].id < m.nextId;
      }
    }
    var settled := Settle(m, id, dead);
    var m' := Replace(settled, dead, pidOf);
    assert ShouldRestart(m.options, w) == ShouldRestart(m.options, dead);
    Step(m', [Output(ExitNotice(id, code, signal, m.options.autoRestart))]
             + Persist(settled)
             + (if ShouldRestart(m.options, dead) then [] else [Output(LimitNotice(id))])
             + Persist(m'))
  }

  /**
   * What the `exit` handler does to individual workers: the dead one is
   * registered with its new record; a replacement exists exactly when the
   * policy approves, under an id that was free; no other worker changes.
   */
  lemma ExitFrame(m: Machine, id: WorkerId, code: Option<int>, signal: Option<string>, pidOf: PidSupply)
    requires Wf(m)
    ensures !Has(m.registry, Max(m.nextId, id + 1))
    ensures var r' := OnExit(m, id, code, signal, pidOf).machine.registry;
      && Lookup(r', id) == Some(Died(Observed(m, id, pidOf), code, signal))
      && (forall j :: j != id && j != Max(m.nextId, id + 1) ==> Lookup(r', j) == Lookup(m.registry, j))
      && (ShouldRestart(m.options, Observed(m, id, pidOf)) <==> Has(r', Max(m.nextId, id + 1)))
  {
    var w := Observed(m, id, pidOf);
    var dead := Died(w, code, signal);
    assert !Has(m.registry, Max(m.nextId, id + 1)) by {
      forall i | 0 <= i < |m.registry| ensures m.registry[i].id != Max(m.nextId, id + 1) {
        assert m.registry[i].id < m.nextId;
      }
    }
    var settled := Settle(m, id, dead);
    assert OnExit(m, id, code, signal, pidOf).machine == Replace(settled, dead, pidOf);
  }

  /**
   * What the `exit` handler emits, in order: the death notice (which says
   * "Restarting" whenever automatic restart is on), the snapshot with the dead
   * worker moved to the end, the limit notice when no replacement is forked,
   * and the final snapshot.
   */
  lemma ExitEffectSequence(m: Machine, id: WorkerId, code: Option<int>, signal: Option<string>, pidOf: PidSupply)
    requires Wf(m)
    ensures var s := OnExit(m, id, code, signal, pidOf);
      var settled := Settle(m, id, Died(Observed(m, id, pidOf), code, signal));
      s.effects ==
        [Output(ExitNotice(id, code, signal, m.options.autoRestart))]
        + Persist(settled)
        + (if ShouldRestart(m.options, Observed(m, id, pidOf)) then [] else [Output(LimitNotice(id))])
        + Persist(s.machine)
  {
  }

  /**
   * The shape of the exit handler's effects, apart from the machine: a notice
   * that is not the limit notice, an optional snapshot, the optional limit
   * notice, and an optional snapshot, both snapshots present or both absent.
   */
  lemma ExitEffectShape(effects: seq<Effect>, notice: string, id: WorkerId, limit: bool,
                        first: Option<SessionData>, last: Option<SessionData>)
    requires |notice| >= 1 && notice[0] != LimitNotice(id)[0]
    requires first.Some? <==> last.Some?
    requires effects ==
      [Output(notice)]
      + (if first.Some? then [Write(first.value)] else [])
      + (if limit then [Output(LimitNotice(id))] else [])
      + (if last.Some? then [Write(last.value)] else [])
    ensures |effects| >= 1 && effects[0] == Output(notice)
    ensures Output(LimitNotice(id)) in effects <==> limit
    ensures first.None? ==> forall x :: x in effects ==> !x.Write?
    ensures first.Some? ==>
      && |effects| >= 3
      && effects[1] == Write(first.value)
      && effects[|effects| - 1] == Write(last.value)
      && forall i :: 1 < i < |effects| - 1 ==> !effects[i].Write?
  {
    assert Output(notice) != Output(LimitNotice(id));
  }

  /**
   * What the `exit` handler emits: first the death notice; the limit notice
   * exactly when no replacement was forked; and, only when Express is
   * attached, two snapshots, the first showing the dead worker moved to the
   * end and the last showing the final state, with no write in between.
   */
  lemma ExitEffects(m: Machine, id: WorkerId, code: Option<int>, signal: Option<string>, pidOf: PidSupply)
    requires Wf(m)
    ensures var s := OnExit(m, id, code, signal, pidOf);
      |s.effects| >= 1 && s.effects[0] == Output(ExitNotice(id, code, signal, m.options.autoRestart))
    ensures var s := OnExit(m, id, code, signal, pidOf);
      Output(LimitNotice(id)) in s.effects <==> !Has(s.machine.registry, Max(m.nextId, id + 1))
    ensures !m.options.hasExpressInstance ==>
      forall x :: x in OnExit(m, id, code, signal, pidOf).effects ==> !x.Write?
    ensures m.options.hasExpressInstance ==>
      var s := OnExit(m, id, code, signal, pidOf);
      var settled := Settle(m, id, Died(Observed(m, id, pidOf), code, signal));
      && |s.effects| >= 3
      && s.effects[1] == Write(Snapshot(settled).value)
      && s.effects[|s.effects| - 1] == Write(Snapshot(s.machine).value)
      && forall i :: 1 < i < |s.effects| - 1 ==> !s.effects[i].Write?
  {
    ExitEffectSequence(m, id, code, signal, pidOf);
    ExitFrame(m, id, code, signal, pidOf);
    var s := OnExit(m, id, code, signal, pidOf);
    var settled := Settle(m, id, Died(Observed(m, id, pidOf), code, signal));
    var notice := ExitNotice(id, code, signal, m.options.autoRestart);
    assert notice[0] == IntText(id)[0];
    ExitEffectShape(s.effects, notice, id, !ShouldRestart(m.options, Observed(m, id, pidOf)),
                    Snapshot(settled), Snapshot(s.machine));
  }

  /**
   * The `SIGQUIT` handler: automatic restart is switched off for good, and
   * `quit` is sent to every registry entry in order, exited workers included.
   * Nothing else changes and no snapshot is written.
   */
  function OnQuit(m: Machine): (s: Step)
    ensures !s.machine.options.autoRestart
    ensures s.machine == m.(options := m.options.(autoRestart := false))
    ensures |s.effects| == |m.registry| + 1
    ensures s.effects[0] == Output(QuitNotice)
    ensures forall i :: 0 <= i < |m.registry| ==> s.effects[i + 1] == Send(m.registry[i].id, QuitMessage)
  {
    var r := m.registry;
    Step(m.(options := m.options.(autoRestart := false)),
         [Output(QuitNotice)] + seq(|r|, i requires 0 <= i < |r| => Send(r[i].id, QuitMessage)))
  }

  /** `setExpress`: snapshots are written from now on; nothing is written right away. */
  function OnAttachExpress(m: Machine): (s: Step)
    ensures s.machine.options.hasExpressInstance
    ensures s.machine == m.(options := m.options.(hasExpressInstance := true))
    ensures s.effects == []
  {
    Step(m.(options := m.options.(hasExpressInstance := true)), [])
  }
}
