/** Whole runs of a job with a DW attribute: the job manager, the dws-jobtap plugin,
    the coral2_dws service with its timers, the cleanup thread and the k8s workflow
    object, interleaved in any order.

    Assumed of the surroundings: snapshots arrive in order, though some may be
    skipped, repeated or late; only the service writes desiredState; a job never
    starts after a severity-0 exception or while its prolog is active. Messages may
    overtake each other, and any callback of the service may fail. */
module DwsProtocol {
  import opened Wrappers
  import opened DwsTypes
  import opened DwsJobtap
  import opened DwsService

  datatype World = World(job: Job, dws: Dws)

  const START := World(NEW_JOB, Dws(None, false, NO_WORKFLOW, Net(multiset{CreateRequest}, Empty)))

  datatype Step =
    // the job manager
    | EnterRun
    | JobStart
    | JobFinish
    | Exception(abort: bool)
    | Retire
    // the plugin's callbacks
    | CleanupCall
    | FinishCall
    | ExceptionCall(severity: nat, abort: bool)
    | RFetched(ok: bool)
    | PluginReceives(reply: Msg)
    // the service's callbacks
    | ServiceHandles(request: Msg, fault: Fault)
    | TimerFires(fault: Fault)
    | Delivered(index: nat, fit: Fit, fault: Fault)
    // the cluster
    | TeardownPatched
    | ControllerReports(state: Option<WState>, ready: bool)
    | WorkflowDeleted

  /** An epilog has been started and not been finished since: the job stays in CLEANUP. */
  predicate EpilogHeld(l: Log) {
    l.Then? && (l.last.EpilogStart? || (!l.last.EpilogFinish? && EpilogHeld(l.before)))
  }

  predicate ForService(m: Msg) {
    m.CreateRequest? || m.SetupRequest? || m.PostRunRequest? || m.TeardownRequest? || m.AbortRequest?
  }

  predicate Enabled(w: World, s: Step) {
    var j, d := w.job, w.dws;
    match s
    case EnterRun => j.phase == Sched && !j.fatal
    case JobStart => j.phase == Run && !j.fatal && !j.started && j.prolog == Some(false)
    case JobFinish => j.started && !j.finished && j.phase != Inactive
    case Exception(_) => j.phase != Inactive
    case Retire =>
      && j.phase == Cleanup && !j.cleanupPending && j.prolog != Some(true)
      && (j.started ==> j.finishHandled) && !EpilogHeld(d.net.log)
    case CleanupCall => j.cleanupPending
    case FinishCall => j.finished && j.phase != Inactive
    case ExceptionCall(severity, abort) => (severity == 0 ==> j.fatal) && (abort ==> j.abort) && j.phase != Inactive
    case RFetched(_) => j.fetching
    case PluginReceives(m) => m in d.net.msgs && !ForService(m)
    case ServiceHandles(m, _) => m in d.net.msgs && ForService(m)
    case TimerFires(_) => d.armed
    case Delivered(i, _, _) => d.cluster.cursor <= i < |d.cluster.hist|
    case TeardownPatched => d.cluster.pending > 0
    case ControllerReports(_, _) => true
    case WorkflowDeleted => true
  }

  /** A job that was still running moves on to CLEANUP. */
  function ToCleanup(j: Job): Job {
    j.(phase := Cleanup, cleanupPending := j.cleanupPending || j.phase != Cleanup)
  }

  function Receive(j: Job, n: Net, m: Msg): (Job, Net) {
    match m
    case SetupReply(success) => SetupRpcCb(j, n, success)
    case PostRunReply(success) => PostRunRpcCb(j, n, success)
    case ResourceUpdate(failed) => ResourceUpdateCb(j, n, failed)
    case PrologRemove => PrologRemoveCb(j, n)
    case EpilogRemove => EpilogRemoveCb(j, n)
    case _ => (j, n)
  }

  function Handle(d: Dws, m: Msg, fault: Fault): Dws {
    match m
    case CreateRequest => CreateCb(d, fault)
    case SetupRequest => SetupCb(d, fault)
    case PostRunRequest(runStarted) => PostRunCb(d, runStarted, fault)
    case TeardownRequest => TeardownCb(d, fault)
    case AbortRequest => AbortCb(d, fault)
    case _ => d
  }

  /** What a step of the job manager or the plugin does. */
  function PluginStep(j: Job, n: Net, s: Step): (Job, Net) {
    match s
    case EnterRun => RunCb(j.(phase := Run), n)
    case JobStart => (j.(started := true), n)
    case JobFinish => (ToCleanup(j).(finished := true), n)
    case Exception(abort) => (Raise(j, abort), n)
    case Retire => (j.(phase := Inactive, prolog := None, epilog := false), n)
    case CleanupCall => CleanupCb(j, n)
    case FinishCall => FinishCb(j, n)
    case ExceptionCall(severity, abort) => ExceptionCb(j, n, severity, abort)
    case RFetched(ok) => FetchR(j, n, ok)
    case PluginReceives(m) => Receive(j, Take(n, m), m)
    case _ => (j, n)
  }

  /** What a step of the service or the cluster does. */
  function ServiceStep(d: Dws, s: Step): Dws
    requires s.Delivered? ==> s.index < |d.cluster.hist|
    requires s.TeardownPatched? ==> d.cluster.pending > 0
  {
    match s
    case ServiceHandles(m, fault) => Handle(d.(net := Take(d.net, m)), m, fault)
    case TimerFires(fault) => TimerCb(d, fault)
    case Delivered(i, fit, fault) => Deliver(d, i, fit, fault)
    case TeardownPatched => d.(cluster := TeardownLands(d.cluster))
    case ControllerReports(state, ready) => d.(cluster := Controller(d.cluster, state, ready))
    case WorkflowDeleted => d.(cluster := Delete(d.cluster))
    case _ => d
  }

  predicate IsPlugin(s: Step) {
    !(s.ServiceHandles? || s.TimerFires? || s.Delivered? || s.TeardownPatched? || s.ControllerReports?
      || s.WorkflowDeleted?)
  }

  function Next(w: World, s: Step): World
    requires Enabled(w, s)
  {
    if IsPlugin(s) then
      var (j, n) := PluginStep(w.job, w.dws.net, s);
      World(j, w.dws.(net := n))
    else
      World(w.job, ServiceStep(w.dws, s))
  }

  /** The world after a run, if the run is possible. */
  function After(run: seq<Step>): Option<World> {
    if run == [] then Some(START)
    else
      var w := After(run[..|run| - 1]);
      var s := run[|run| - 1];
      if w.None? || !Enabled(w.value, s) then None else Some(Next(w.value, s))
  }

  // What a log says.

  /** The highest state requested. */
  function Highest(l: Log): nat {
    if l.Empty? then 0
    else if l.last.Requested? && Rank(l.last.state) > Highest(l.before) then Rank(l.last.state)
    else Highest(l.before)
  }

  /** No request goes backward. */
  predicate Monotone(l: Log) {
    l.Then? ==> Monotone(l.before) && (l.last.Requested? ==> Rank(l.last.state) >= Highest(l.before))
  }

  /** How much of the way to a mounted file system the log has seen, in order. */
  function Progress(l: Log): nat {
    if l.Empty? then 0
    else
      var p := Progress(l.before);
      if p < 6 && l.last == Milestone(p) then p + 1 else p
  }

  function Milestone(p: nat): Event {
    match p
    case 0 => Requested(Setup)
    case 1 => Reported(Setup)
    case 2 => Requested(DataIn)
    case 3 => Reported(DataIn)
    case 4 => Requested(PreRun)
    case _ => Reported(PreRun)
  }

  /** Every successful end of the prolog comes after all six milestones. */
  predicate Earned(l: Log) {
    l.Then? ==> Earned(l.before) && (l.last == PrologFinish(true) ==> Progress(l.before) == 6)
  }
}
