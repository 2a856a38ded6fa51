/**
 * Whole runs of the master: the events Node's cluster module and the process
 * deliver, one at a time, and the properties every run keeps.
 */
module Lifecycle {
  import opened Wrappers
  import opened Types
  import opened Registry
  import opened Master

  datatype Event =
    | WorkerOnline(id: WorkerId)
    | WorkerDisconnect(id: WorkerId)
    | WorkerExit(id: WorkerId, code: Option<int>, signal: Option<string>)
    | SigQuit
    | AttachExpress

  /** Dispatches one event to its handler. */
  function Apply(m: Machine, e: Event, pidOf: PidSupply): (s: Step)
    requires Wf(m)
    ensures Wf(s.machine)
    ensures s.machine.options.cpus == m.options.cpus
    ensures s.machine.options.autoRestartLimit == m.options.autoRestartLimit
    ensures s.machine.options.autoRestart ==> m.options.autoRestart
    ensures m.options.hasExpressInstance ==> s.machine.options.hasExpressInstance
    ensures s.machine.clusterSize == m.clusterSize && s.machine.masterPid == m.masterPid
  {
    match e
    case WorkerOnline(id) => OnOnline(m, id, pidOf)
    case WorkerDisconnect(id) => OnDisconnect(m, id, pidOf)
    case WorkerExit(id, code, signal) => OnExit(m, id, code, signal, pidOf)
    case SigQuit => OnQuit(m)
    case AttachExpress => OnAttachExpress(m)
  }

  /**
   * Handles the events in order, collecting their effects. Along the way the
   * invariant holds, the worker count, restart limit and master pid never
   * change, automatic restart is never switched back on and the Express flag
   * is never cleared.
   */
  function Run(m: Machine, events: seq<Event>, pidOf: PidSupply): (s: Step)
    requires Wf(m)
    ensures Wf(s.machine)
    ensures s.machine.options.cpus == m.options.cpus
    ensures s.machine.options.autoRestartLimit == m.options.autoRestartLimit
    ensures s.machine.options.autoRestart ==> m.options.autoRestart
    ensures m.options.hasExpressInstance ==> s.machine.options.hasExpressInstance
    ensures s.machine.clusterSize == m.clusterSize && s.machine.masterPid == m.masterPid
    decreases |events|
  {
    if |events| == 0 then Step(m, [])
    else
      var first := Apply(m, events[0], pidOf);
      var rest := Run(first.machine, events[1..], pidOf);
      Step(rest.machine, first.effects + rest.effects)
  }

  /** The restart count of the worker registered under `k`, if it is registered and has one. */
  function CountOf(r: Registry, k: WorkerId): Option<int> {
    match Lookup(r, k)
    case Some(w) => w.restartCount
    case None => None
  }

  /** Whether an exit can lead to a replacement at all under these options. */
  predicate CanRestart(o: ClusterOptions) {
    o.autoRestart && o.autoRestartLimit > 0
  }

  lemma StatusKeepsCounts(m: Machine, m': Machine, id: WorkerId, st: Status, pidOf: PidSupply)
    requires StatusOnlyChanged(m, m', id, st, pidOf)
    ensures forall k :: CountOf(m'.registry, k) == CountOf(m.registry, k)
  {
    forall k
      ensures CountOf(m'.registry, k) == CountOf(m.registry, k)
    {
      if k == id {
        assert Lookup(m'.registry, id).value.restartCount == Observed(m, id, pidOf).restartCount;
      }
    }
  }

  /**
   * The registry-level core of an exit: the dead worker keeps its count, every
   * other key but the replacement's keeps its worker, so every count but the
   * replacement's is unchanged.
   */
  lemma CountsAcrossExit(r: Registry, r': Registry, id: WorkerId, newId: WorkerId, w: Worker, dead: Worker)
    requires Lookup(r', id) == Some(dead) && dead.restartCount == w.restartCount
    requires Has(r, id) ==> Lookup(r, id) == Some(w)
    requires !Has(r, id) ==> w.restartCount.None?
    requires forall j :: j != id && j != newId ==> Lookup(r', j) == Lookup(r, j)
    ensures forall k :: k != newId ==> CountOf(r', k) == CountOf(r, k)
  {
    forall k | k != newId
      ensures CountOf(r', k) == CountOf(r, k)
    {
      if k != id {
        assert Lookup(r', k) == Lookup(r, k);
      }
    }
  }

  lemma ExitKeepsCounts(m: Machine, id: WorkerId, code: Option<int>, signal: Option<string>, pidOf: PidSupply)
    requires Wf(m)
    ensures var m' := OnExit(m, id, code, signal, pidOf).machine;
      forall k :: k != Max(m.nextId, id + 1) ==> CountOf(m'.registry, k) == CountOf(m.registry, k)
    ensures CountOf(m.registry, Max(m.nextId, id + 1)) == None
  {
    var r' := OnExit(m, id, code, signal, pidOf).machine.registry;
    var w := Observed(m, id, pidOf);
    ExitFrame(m, id, code, signal, pidOf);
    CountsAcrossExit(m.registry, r', id, Max(m.nextId, id + 1), w, Died(w, code, signal));
  }

  /** While restarts are impossible, an exit registers nothing under the replacement id. */
  lemma ExitAddsNoCount(m: Machine, id: WorkerId, code: Option<int>, signal: Option<string>, pidOf: PidSupply)
    requires Wf(m)
    requires !CanRestart(m.options)
    ensures CountOf(OnExit(m, id, code, signal, pidOf).machine.registry, Max(m.nextId, id + 1)) == None
  {
    var w := Observed(m, id, pidOf);
    ExitFrame(m, id, code, signal, pidOf);
    assert !ShouldRestart(m.options, w) by {
      if w.restartCount.Some? {
        var i := IndexOf(m.registry, id);
        assert CountWithinLimit(m.options.autoRestartLimit, m.registry[i].worker);
      }
    }
  }

  /**
   * One event never changes the restart count of a worker that has one, and
   * while restarts are impossible it gives no worker a restart count.
   */
  lemma ApplyKeepsCounts(m: Machine, e: Event, pidOf: PidSupply)
    requires Wf(m)
    ensures forall k :: CountOf(m.registry, k).Some? ==> CountOf(Apply(m, e, pidOf).machine.registry, k) == CountOf(m.registry, k)
    ensures !CanRestart(m.options) ==> forall k :: CountOf(Apply(m, e, pidOf).machine.registry, k) == CountOf(m.registry, k)
  {
    match e
    case WorkerOnline(id) =>
      StatusKeepsCounts(m, Apply(m, e, pidOf).machine, id, Online, pidOf);
    case WorkerDisconnect(id) =>
      StatusKeepsCounts(m, Apply(m, e, pidOf).machine, id, Disconnect, pidOf);
    case WorkerExit(id, code, signal) =>
      ExitKeepsCounts(m, id, code, signal, pidOf);
      if !CanRestart(m.options) {
        ExitAddsNoCount(m, id, code, signal, pidOf);
      }
    case SigQuit =>
      assert Apply(m, e, pidOf).machine.registry == m.registry;
    case AttachExpress =>
      assert Apply(m, e, pidOf).machine.registry == m.registry;
  }

  /**
   * The registry-level core of every handler: worker `id` is (re)registered
   * with its pid kept, and every other key but a fresh one keeps its worker,
   * so no registered worker disappears or changes pid.
   */
  lemma PidsAcrossEvent(r: Registry, r': Registry, id: WorkerId, newId: WorkerId, w: Worker, w': Worker)
    requires Lookup(r', id) == Some(w') && w'.pid == w.pid
    requires Has(r, id) ==> Lookup(r, id) == Some(w)
    requires !Has(r, newId)
    requires forall j :: j != id && j != newId ==> Lookup(r', j) == Lookup(r, j)
    ensures forall j :: Has(r, j) ==> Lookup(r', j).Some? && Lookup(r', j).value.pid == Lookup(r, j).value.pid
  {
    forall j | Has(r, j)
      ensures Lookup(r', j).Some? && Lookup(r', j).value.pid == Lookup(r, j).value.pid
    {
      if j != id {
        assert Lookup(r', j) == Lookup(r, j);
      }
    }
  }

  /** No event removes a registered worker or changes its process id. */
  lemma ApplyKeepsPids(m: Machine, e: Event, pidOf: PidSupply)
    requires Wf(m)
    ensures forall j :: Has(m.registry, j) ==>
      && Lookup(Apply(m, e, pidOf).machine.registry, j).Some?
      && Lookup(Apply(m, e, pidOf).machine.registry, j).value.pid == Lookup(m.registry, j).value.pid
  {
    var r' := Apply(m, e, pidOf).machine.registry;
    match e
    case WorkerOnline(id) =>
      var w := Observed(m, id, pidOf);
      PidsAcrossEvent(m.registry, r', id, m.nextId, w, w.(status := Some(Online)));
    case WorkerDisconnect(id) =>
      var w := Observed(m, id, pidOf);
      PidsAcrossEvent(m.registry, r', id, m.nextId, w, w.(status := Some(Disconnect)));
    case WorkerExit(id, code, signal) =>
      var w := Observed(m, id, pidOf);
      ExitFrame(m, id, code, signal, pidOf);
      PidsAcrossEvent(m.registry, r', id, Max(m.nextId, id + 1), w, Died(w, code, signal));
    case SigQuit =>
      assert r' == m.registry;
    case AttachExpress =>
      assert r' == m.registry;
  }

  /** Over any run, every registered worker stays registered with the same process id. */
  lemma {:induction false} RunKeepsPids(m: Machine, events: seq<Event>, pidOf: PidSupply)
    requires Wf(m)
    ensures forall j :: Has(m.registry, j) ==>
      && Lookup(Run(m, events, pidOf).machine.registry, j).Some?
      && Lookup(Run(m, events, pidOf).machine.registry, j).value.pid == Lookup(m.registry, j).value.pid
    decreases |events|
  {
    if |events| > 0 {
      var first := Apply(m, events[0], pidOf);
      ApplyKeepsPids(m, events[0], pidOf);
      RunKeepsPids(first.machine, events[1..], pidOf);
    }
  }

  lemma {:induction false} RunKeepsCounts(m: Machine, events: seq<Event>, pidOf: PidSupply)
    requires Wf(m)
    ensures forall k :: CountOf(m.registry, k).Some? ==> CountOf(Run(m, events, pidOf).machine.registry, k) == CountOf(m.registry, k)
    decreases |events|
  {
    if |events| > 0 {
      var first := Apply(m, events[0], pidOf);
      ApplyKeepsCounts(m, events[0], pidOf);
      RunKeepsCounts(first.machine, events[1..], pidOf);
    }
  }

  /**
   * Once restarts are impossible (automatic restart off, or a limit of zero or
   * less) they stay impossible, and no later event forks a replacement: every
   * worker's restart count, and the set of workers having one, stay as they are.
   */
  lemma {:induction false} NoRestartOnceDisabled(m: Machine, events: seq<Event>, pidOf: PidSupply)
    requires Wf(m)
    requires !CanRestart(m.options)
    ensures !CanRestart(Run(m, events, pidOf).machine.options)
    ensures forall k :: CountOf(Run(m, events, pidOf).machine.registry, k) == CountOf(m.registry, k)
    decreases |events|
  {
    if |events| > 0 {
      var first := Apply(m, events[0], pidOf);
      ApplyKeepsCounts(m, events[0], pidOf);
      NoRestartOnceDisabled(first.machine, events[1..], pidOf);
    }
  }

  /** After SIGQUIT no exit, however late and whatever the worker's count, is followed by a replacement. */
  lemma QuitIsFinal(m: Machine, events: seq<Event>, pidOf: PidSupply)
    requires Wf(m)
    ensures !Run(OnQuit(m).machine, events, pidOf).machine.options.autoRestart
    ensures forall k :: CountOf(Run(OnQuit(m).machine, events, pidOf).machine.registry, k) == CountOf(m.registry, k)
  {
    var q := OnQuit(m).machine;
    assert q.registry == m.registry;
    NoRestartOnceDisabled(q, events, pidOf);
  }

  /** A restart limit of zero or less never produces a replacement, whatever `auto_restart` says. */
  lemma NonPositiveLimitNeverRestarts(m: Machine, events: seq<Event>, pidOf: PidSupply)
    requires Wf(m)
    requires m.options.autoRestartLimit <= 0
    ensures forall k :: CountOf(Run(m, events, pidOf).machine.registry, k) == CountOf(m.registry, k)
  {
    NoRestartOnceDisabled(m, events, pidOf);
  }

  /** Repeating SIGQUIT changes nothing in the state; it only sends `quit` again. */
  lemma QuitIdempotent(m: Machine)
    ensures OnQuit(OnQuit(m).machine).machine == OnQuit(m).machine
  {
  }

  /**
   * In every run from start-up, every worker's restart count is between 0 and
   * the restart limit (0 when the limit is negative).
   */
  lemma RestartCountBounded(options: ClusterOptions, masterPid: int, firstId: WorkerId, pidOf: PidSupply, events: seq<Event>)
    ensures var m := Run(Start(options, masterPid, firstId, pidOf).machine, events, pidOf).machine;
      forall i :: 0 <= i < |m.registry| && m.registry[i].worker.restartCount.Some? ==>
        0 <= m.registry[i].worker.restartCount.value <= Max(0, options.autoRestartLimit)
  {
    var m := Run(Start(options, masterPid, firstId, pidOf).machine, events, pidOf).machine;
    assert Wf(m);
  }

  /** An event other than attaching Express writes no snapshot while none is attached. */
  lemma ApplyWritesNothingWithoutExpress(m: Machine, e: Event, pidOf: PidSupply)
    requires Wf(m)
    requires !m.options.hasExpressInstance && !e.AttachExpress?
    ensures !Apply(m, e, pidOf).machine.options.hasExpressInstance
    ensures forall x :: x in Apply(m, e, pidOf).effects ==> !x.Write?
  {
    match e
    case WorkerOnline(id) =>
    case WorkerDisconnect(id) =>
    case WorkerExit(id, code, signal) =>
      ExitEffects(m, id, code, signal, pidOf);
    case SigQuit =>
  }

  /** Without an Express application no snapshot is ever written. */
  lemma {:induction false} NoSnapshotWithoutExpress(m: Machine, events: seq<Event>, pidOf: PidSupply)
    requires Wf(m)
    requires !m.options.hasExpressInstance
    requires forall i :: 0 <= i < |events| ==> !events[i].AttachExpress?
    ensures forall e :: e in Run(m, events, pidOf).effects ==> !e.Write?
    decreases |events|
  {
    if |events| > 0 {
      var first := Apply(m, events[0], pidOf);
      ApplyWritesNothingWithoutExpress(m, events[0], pidOf);
      NoSnapshotWithoutExpress(first.machine, events[1..], pidOf);
    }
  }
}
