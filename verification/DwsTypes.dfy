/** The DWS job lifecycle: what the job-manager plugin, the coral2_dws service and
    the k8s workflow object have in common. */
module DwsTypes {
  import opened Wrappers

  /** WorkflowState, without the transient-condition marker. */
  datatype WState = Proposal | Setup | DataIn | PreRun | PostRun | DataOut | Teardown

  function Rank(s: WState): nat {
    match s
    case Proposal => 0
    case Setup => 1
    case DataIn => 2
    case PreRun => 3
    case PostRun => 4
    case DataOut => 5
    case Teardown => 6
  }

  /** One version of a workflow object as the watch delivers it, or its deletion. */
  datatype Snapshot = Snapshot(desired: WState, state: Option<WState>, ready: bool) | Deleted

  /** state_active and state_complete. */
  predicate StateActive(s: Snapshot, x: WState) { s.Snapshot? && s.desired == x && s.state == Some(x) }

  predicate StateComplete(s: Snapshot, x: WState) { StateActive(s, x) && s.ready }

  /** RPC requests and replies between plugin and service. They may overtake each
      other. */
  datatype Msg =
    | CreateRequest
    | SetupRequest
    | PostRunRequest(runStarted: bool)
    | TeardownRequest
    | AbortRequest
    | SetupReply(success: bool)
    | PostRunReply(success: bool)
    | ResourceUpdate(failed: bool)
    | PrologRemove
    | EpilogRemove

  /** What is worth remembering about a run. */
  datatype Event =
    | Requested(state: WState)      // the service asks for this desiredState
    | Reported(state: WState)       // the service acts on a report of this state being ready
    | PrologStart
    | PrologFinish(success: bool)
    | EpilogStart(runStarted: bool)
    | EpilogFinish(success: bool)
    | RemovalSent                   // the service asks for the epilog to be removed
    | AbortSent                     // the plugin gives up its epilog and asks for an abort
    | ExceptionHandled              // the plugin has handled a severity-0 exception

  /** The events of a run, newest last. */
  datatype Log = Empty | Then(before: Log, last: Event)

  function Count(l: Log, e: Event): nat {
    if l.Empty? then 0 else Count(l.before, e) + if l.last == e then 1 else 0
  }

  /** Messages in flight and the events so far. */
  datatype Net = Net(msgs: multiset<Msg>, log: Log)

  function Send(n: Net, m: Msg): Net { n.(msgs := n.msgs + multiset{m}) }

  function Take(n: Net, m: Msg): Net { n.(msgs := n.msgs - multiset{m}) }

  function Note(n: Net, e: Event): Net { n.(log := Then(n.log, e)) }

  /** The net that plugin and service share. */
  class Bus {
    var net: Net

    constructor (net: Net)
      ensures this.net == net
    {
      this.net := net;
    }
  }
}
