/** coral2_dws: the service's view of one job's workflow and what it does to it. */
module DwsService {
  import opened Wrappers
  import opened DwsTypes

  /** The flags of WorkflowInfo that steer the callbacks. */
  datatype Info = Info(toredown: bool, deleted: bool, epilogRemoved: bool)

  const NEW_INFO := Info(false, false, false)

  /** The workflow object and its watch stream. Every change adds a snapshot;
      `cursor` is the newest one delivered; `pending` counts the teardown patches
      handed to the cleanup thread that have not landed. */
  datatype Cluster = Cluster(live: bool,
                             desired: WState,
                             state: Option<WState>,
                             ready: bool,
                             pending: nat,
                             hist: seq<Snapshot>,
                             cursor: nat)

  const NO_WORKFLOW := Cluster(false, Proposal, None, false, 0, [], 0)

  /** The service: its cache entry for the job, whether a teardown timer has been
      started, the object it works on and its messages. */
  datatype Dws = Dws(cache: Option<Info>, armed: bool, cluster: Cluster, net: Net)

  /** Where an exception interrupts a callback. */
  datatype Fault = NoFault | Early | Midway | Late

  /** What apply_breakdowns makes of the jobspec: rewritten, refused, or nothing left
      to do. */
  datatype Fit = Fits | Unfit | AlreadyApplied

  function Sends(d: Dws, m: Msg): Dws { d.(net := Send(d.net, m)) }

  function Notes(d: Dws, e: Event): Dws { d.(net := Note(d.net, e)) }

  /** The dws.epilog-remove RPC. */
  function RemoveEpilog(d: Dws): Dws { Notes(Sends(d, EpilogRemove), RemovalSent) }

  /** WorkflowInfo.get: a missing entry is made anew. */
  function InfoOf(d: Dws): Info { if d.cache.Some? then d.cache.value else NEW_INFO }

  function Cached(d: Dws): Dws { d.(cache := Some(InfoOf(d))) }

  /** The object changes and the watch has one more snapshot. */
  function Changed(c: Cluster): Cluster { c.(hist := c.hist + [Snapshot(c.desired, c.state, c.ready)]) }

  function Created(c: Cluster): Cluster {
    Changed(c.(live := true, desired := Proposal, state := None, ready := false))
  }

  /** move_desiredstate on an object that exists. */
  function MoveDesired(d: Dws, s: WState): Dws {
    Notes(d, Requested(s)).(cluster := Changed(d.cluster.(desired := s)))
  }

  /** WorkflowInfo.move_to_teardown: the patch itself is left to another thread. */
  function MoveToTeardown(d: Dws): Dws {
    Notes(d, Requested(Teardown)).(
      cache := Some(InfoOf(d).(toredown := true)),
      cluster := d.cluster.(pending := d.cluster.pending + 1))
  }

  /** check_existence_and_move_to_teardown. */
  function CheckExistence(d: Dws): Dws {
    if d.cluster.live then MoveToTeardown(d) else RemoveEpilog(d.(cache := None))
  }

  /** create_cb: an unusable failure tolerance is noticed after the object exists. */
  function CreateCb(d: Dws, fault: Fault): Dws {
    if fault == Early then d
    else
      var d' := d.(cluster := Created(d.cluster));
      if fault == Midway then d' else d'.(cache := Some(NEW_INFO))
  }

  /** setup_cb. */
  function SetupCb(d: Dws, fault: Fault): Dws {
    if fault == Early || !d.cluster.live then Sends(d, SetupReply(false))
    else Sends(MoveDesired(Cached(d), Setup), SetupReply(fault == NoFault))
  }

  /** post_run_cb. */
  function PostRunCb(d: Dws, runStarted: bool, fault: Fault): Dws {
    var d' := Cached(d);
    if InfoOf(d').toredown then Sends(d', PostRunReply(true))
    else if fault == Early then Sends(d', PostRunReply(false))
    else if !runStarted then Sends(CheckExistence(d'), PostRunReply(true))
    else if !d'.cluster.live then Sends(d', PostRunReply(false))
    else Sends(MoveDesired(d', PostRun).(armed := true), PostRunReply(fault == NoFault))
  }

  /** teardown_cb. */
  function TeardownCb(d: Dws, fault: Fault): Dws {
    var d' := Cached(d);
    if InfoOf(d').toredown || fault == Early then d' else CheckExistence(d')
  }

  /** abort_cb. */
  function AbortCb(d: Dws, fault: Fault): Dws {
    TeardownCb(d.(cache := Some(InfoOf(d).(epilogRemoved := true))), fault)
  }

  /** teardown_after_timer_cb and postrun_timeout_cb: they do not look at `toredown`,
      and removing a cache entry that is gone fails before anything is sent. */
  function TimerCb(d: Dws, fault: Fault): Dws {
    if fault == Early then d
    else if !d.cluster.live && d.cache.None? then d
    else CheckExistence(d)
  }

  /** A branch that asks for the next state, and whether it raises: it does when
      the object is gone. */
  function Advance(d: Dws, s: WState, fault: Fault): (Dws, bool) {
    if fault == Early || !d.cluster.live then (d, true) else (MoveDesired(d, s), fault != NoFault)
  }

  /** The branch of a completed state before Teardown. */
  function Completed(d: Dws, s: WState, fit: Fit, fault: Fault): (Dws, bool) {
    var d' := Notes(d, Reported(s));
    match s
    case Proposal =>
      if fault == Early then (d', true)
      else (if fit == AlreadyApplied then d' else Sends(d', ResourceUpdate(fit == Unfit)), fault != NoFault)
    case Setup => Advance(d', DataIn, fault)
    case DataIn => Advance(d', PreRun, fault)
    case PreRun => if fault == Early then (d', true) else (Sends(d', PrologRemove), fault != NoFault)
    case PostRun => Advance(d', DataOut, fault)
    case DataOut => (MoveToTeardown(d'), fault != NoFault)
    case Teardown => (d', false)
  }

  /** The branch of a completed Teardown. */
  function TornDown(d: Dws, fault: Fault): (Dws, bool) {
    if fault == Early then (d, true)
    else
      var d' := if InfoOf(d).epilogRemoved then d else RemoveEpilog(d);
      if fault == Midway then (d', true)
      else (d'.(cache := Some(InfoOf(d').(deleted := true))), fault == Late)
  }

  /** _workflow_state_change_cb_inner: the new state, and whether it raises. */
  function Inner(d: Dws, s: Snapshot, fit: Fit, fault: Fault): (Dws, bool)
    requires s.Snapshot?
  {
    if s.state.None? || InfoOf(d).deleted then (d, false)
    else if StateActive(s, Teardown) && !StateComplete(s, Teardown) then (d, fault != NoFault)
    else if StateComplete(s, Teardown) then TornDown(d, fault)
    else if InfoOf(d).toredown then (d, false)
    else if StateComplete(s, s.desired) then Completed(d, s.desired, fit, fault)
    else (d, fault != NoFault)
  }

  /** workflow_state_change_cb: whatever goes wrong ends in teardown. */
  function StateChange(d: Dws, s: Snapshot, fit: Fit, fault: Fault): Dws {
    if s.Deleted? then d.(cache := None)
    else
      var (d', raised) := Inner(Cached(d), s, fit, fault);
      if raised then MoveToTeardown(d') else d'
  }

  /** The watch delivers snapshot i, which is not older than the last one. */
  function Deliver(d: Dws, i: nat, fit: Fit, fault: Fault): Dws
    requires i < |d.cluster.hist|
  {
    StateChange(d.(cluster := d.cluster.(cursor := i)), d.cluster.hist[i], fit, fault)
  }

  // The cluster's own steps.

  /** A patch of the cleanup thread lands, if there still is an object. */
  function TeardownLands(c: Cluster): Cluster
    requires c.pending > 0
  {
    var c' := c.(pending := c.pending - 1);
    if c.live then Changed(c'.(desired := Teardown)) else c'
  }

  /** The DWS controllers report what they please. */
  function Controller(c: Cluster, state: Option<WState>, ready: bool): Cluster {
    if c.live then Changed(c.(state := state, ready := ready)) else c
  }

  function Delete(c: Cluster): Cluster {
    if c.live then c.(live := false, hist := c.hist + [Deleted]) else c
  }

  /** The callbacks on their mutable state. */
  class Coral2Dws {
    const bus: Bus
    var cache: Option<Info>
    var armed: bool
    var cluster: Cluster

    function State(): Dws
      reads this, bus
    {
      Dws(cache, armed, cluster, bus.net)
    }

    constructor (bus: Bus)
      ensures this.bus == bus && State() == Dws(None, false, NO_WORKFLOW, bus.net)
    {
      this.bus, cache, armed, cluster := bus, None, false, NO_WORKFLOW;
    }

    method GetInfo() returns (info: Info)
      modifies this, bus
      ensures State() == Cached(old(State())) && cache == Some(info)
    {
      if cache.None? {
        cache := Some(NEW_INFO);
      }
      info := cache.value;
    }

    method MoveDesiredState(s: WState)
      modifies this, bus
      ensures State() == MoveDesired(old(State()), s)
    {
      cluster := cluster.(desired := s);
      cluster := Changed(cluster);
      bus.net := Note(bus.net, Requested(s));
    }

    method Teardown()
      modifies this, bus
      ensures State() == MoveToTeardown(old(State()))
    {
      var info := GetInfo();
      cluster := cluster.(pending := cluster.pending + 1);
      bus.net := Note(bus.net, Requested(WState.Teardown));
      cache := Some(info.(toredown := true));
    }

    method CheckExistenceAndTeardown()
      modifies this, bus
      ensures State() == CheckExistence(old(State()))
    {
      if !cluster.live {
        cache := None;
        bus.net := Note(Send(bus.net, EpilogRemove), RemovalSent);
      } else {
        Teardown();
      }
    }

    method OnCreate(fault: Fault)
      modifies this, bus
      ensures State() == CreateCb(old(State()), fault)
    {
      if fault == Early {
        return;
      }
      cluster := Created(cluster);
      if fault != Midway {
        cache := Some(NEW_INFO);
      }
    }

    method OnTimer(fault: Fault)
      modifies this, bus
      ensures State() == TimerCb(old(State()), fault)
    {
      if fault == Early || (!cluster.live && cache.None?) {
        return;
      }
      CheckExistenceAndTeardown();
    }

    method OnSetup(fault: Fault)
      modifies this, bus
      ensures State() == SetupCb(old(State()), fault)
    {
      if fault == Early || !cluster.live {
        bus.net := Send(bus.net, SetupReply(false));
        return;
      }
      var _ := GetInfo();
      MoveDesiredState(Setup);
      bus.net := Send(bus.net, SetupReply(fault == NoFault));
    }

    method OnPostRun(runStarted: bool, fault: Fault)
      modifies this, bus
      ensures State() == PostRunCb(old(State()), runStarted, fault)
    {
      var info := GetInfo();
      if info.toredown {
        bus.net := Send(bus.net, PostRunReply(true));
        return;
      }
      if fault == Early {
        bus.net := Send(bus.net, PostRunReply(false));
        return;
      }
      if !runStarted {
        CheckExistenceAndTeardown();
        bus.net := Send(bus.net, PostRunReply(true));
        return;
      }
      if !cluster.live {
        bus.net := Send(bus.net, PostRunReply(false));
        return;
      }
      MoveDesiredState(PostRun);
      armed := true;
      bus.net := Send(bus.net, PostRunReply(fault == NoFault));
    }

    method OnTeardown(fault: Fault)
      modifies this, bus
      ensures State() == TeardownCb(old(State()), fault)
    {
      var info := GetInfo();
      if !info.toredown && fault != Early {
        CheckExistenceAndTeardown();
      }
    }

    method OnAbort(fault: Fault)
      modifies this, bus
      ensures State() == AbortCb(old(State()), fault)
    {
      var info := GetInfo();
      cache := Some(info.(epilogRemoved := true));
      if !info.toredown && fault != Early {
        CheckExistenceAndTeardown();
      }
    }

    method AdvanceTo(s: WState, fault: Fault) returns (raised: bool)
      modifies this, bus
      ensures (State(), raised) == Advance(old(State()), s, fault)
    {
      if fault == Early || !cluster.live {
        return true;
      }
      MoveDesiredState(s);
      raised := fault != NoFault;
    }

    method OnCompleted(s: WState, fit: Fit, fault: Fault) returns (raised: bool)
      requires s != WState.Teardown
      modifies this, bus
      ensures (State(), raised) == Completed(old(State()), s, fit, fault)
    {
      bus.net := Note(bus.net, Reported(s));
      raised := fault != NoFault;
      if s == Proposal {
        if fault != Early && fit != AlreadyApplied {
          bus.net := Send(bus.net, ResourceUpdate(fit == Unfit));
        }
      } else if s == Setup {
        raised := AdvanceTo(DataIn, fault);
      } else if s == DataIn {
        raised := AdvanceTo(PreRun, fault);
      } else if s == PreRun {
        if fault != Early {
          bus.net := Send(bus.net, PrologRemove);
        }
      } else if s == PostRun {
        raised := AdvanceTo(DataOut, fault);
      } else {
        Teardown();
      }
    }

    method OnTornDown(fault: Fault) returns (raised: bool)
      requires cache.Some?
      modifies this, bus
      ensures (State(), raised) == TornDown(old(State()), fault)
    {
      if fault == Early {
        return true;
      }
      if !cache.value.epilogRemoved {
        bus.net := Note(Send(bus.net, EpilogRemove), RemovalSent);
      }
      if fault == Midway {
        return true;
      }
      cache := Some(cache.value.(deleted := true));
      raised := fault == Late;
    }

    method OnStateChange(s: Snapshot, fit: Fit, fault: Fault)
      modifies this, bus
      ensures State() == StateChange(old(State()), s, fit, fault)
    {
      if s.Deleted? {
        cache := None;
        return;
      }
      var info := GetInfo();
      var raised := false;
      if s.state.None? || info.deleted {
        return;
      } else if StateActive(s, WState.Teardown) && !StateComplete(s, WState.Teardown) {
        raised := fault != NoFault;
      } else if StateComplete(s, WState.Teardown) {
        raised := OnTornDown(fault);
      } else if info.toredown {
        return;
      } else if StateComplete(s, s.desired) {
        raised := OnCompleted(s.desired, fit, fault);
      } else {
        raised := fault != NoFault;
      }
      if raised {
        Teardown();
      }
    }
  }
}
