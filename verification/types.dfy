/**
 * The records of the cluster: a worker's bookkeeping, the configuration as
 * given and as resolved, and the snapshot shapes written for diagnostics.
 */
module Types {
  import opened Wrappers

  /** The id `cluster.fork()` gives a worker; unique for the master's lifetime. */
  type WorkerId = nat

  /** The statuses the master's event handlers assign to a worker. */
  datatype Status = Online | Disconnect | Exit {

    /** The status as written in a snapshot. */
    function Name(): (s: string)
      ensures s != ""
      ensures ParseStatus(s) == Some(this)
    {
      match this
      case Online => "online"
      case Disconnect => "disconnect"
      case Exit => "exit"
    }
  }

  /** Reads a snapshot status back; the empty text stands for "no status yet". */
  function ParseStatus(s: string): Option<Status> {
    if s == "online" then Some(Online)
    else if s == "disconnect" then Some(Disconnect)
    else if s == "exit" then Some(Exit)
    else None
  }

  /**
   * A worker as the master sees it: the OS process id and the optional
   * bookkeeping fields the master attaches to the worker object.
   */
  datatype Worker = Worker(
    pid: int,
    restartCount: Option<int>,
    status: Option<Status>,
    diedReason: Option<string>)

  /** Configuration as the caller passes it: every field may be omitted. */
  datatype ClusterOptionsInput = ClusterOptionsInput(
    cpus: Option<int>,
    autoRestart: Option<bool>,
    autoRestartLimit: Option<int>,
    hasExpressInstance: Option<bool>)

  /** Configuration after the defaults are filled in. */
  datatype ClusterOptions = ClusterOptions(
    cpus: int,
    autoRestart: bool,
    autoRestartLimit: int,
    hasExpressInstance: bool)

  /** One worker's line in a snapshot; `reason` is the only optional field. */
  datatype WorkerData = WorkerData(
    workerId: WorkerId,
    pid: int,
    status: string,
    reason: Option<string>)

  /** The whole snapshot written for the stats endpoint. */
  datatype SessionData = SessionData(
    clusterSize: int,
    masterProcessId: int,
    clusterStatus: string,
    workers: seq<WorkerData>)
}
