/** Every step of the service and of the cluster keeps the invariant. */
module DwsServiceProof {
  import opened Wrappers
  import opened DwsTypes
  import opened DwsJobtap
  import opened DwsService
  import opened DwsProtocol
  import opened DwsInvariant

  // What each action of the service keeps.

  /** A message to the plugin. */
  predicate Sendable(d: Dws, m: Msg) {
    !ForService(m) && (m == PrologRemove ==> Progress(d.net.log) == 6)
  }

  lemma {:induction false} SendKeeps(j: Job, d: Dws, m: Msg, ordered: bool)
    requires Inv(j, d, ordered) && Sendable(d, m)
    ensures Inv(j, Sends(d, m), ordered)
  {
    NetSend(j, d.net, m);
    NetStepKeeps(j, j, d, Send(d.net, m), ordered);
  }

  lemma {:induction false} RemoveEpilogKeeps(j: Job, d: Dws, ordered: bool)
    requires Inv(j, d, ordered)
    ensures Inv(j, RemoveEpilog(d), ordered)
  {
    var n := Send(d.net, EpilogRemove);
    NetSend(j, d.net, EpilogRemove);
    NeutralNote(j, n, RemovalSent);
    NetStepsAdd(d.net, j, n, j, Note(n, RemovalSent));
    NetStepKeeps(j, j, d, Note(n, RemovalSent), ordered);
  }

  /** A report, or a request that takes up its token. */
  lemma {:induction false} NoteKeepsNet(j: Job, n: Net, e: Event)
    requires NetInv(j, n) && (e.Requested? || e.Reported?)
    requires e == Requested(Setup) ==> SetupTokens(j, n) == 0 && (j.prolog.Some? || j.phase == Inactive)
    requires e == Requested(PostRun) ==> PostRunTokens(n) == 0 && j.started && j.finishHandled
    ensures NetInv(j, Note(n, e))
  {
    NeutralKeepsPlugin(j, n, e);
    ProgressGrows(n.log, e);
  }

  /** The snapshot at hand. */
  predicate AtHand(d: Dws, s: WState) {
    && d.cluster.cursor < |d.cluster.hist|
    && d.cluster.hist[d.cluster.cursor].Snapshot?
    && d.cluster.hist[d.cluster.cursor].desired == s
  }

  lemma {:induction false} ReportKeepsStream(d: Dws, s: WState)
    requires StreamInv(d)
    ensures StreamInv(Notes(d, Reported(s)))
  {
  }

  lemma {:induction false} ReportKeepsOrder(d: Dws, s: WState)
    requires OrderInv(d) && AtHand(d, s)
    ensures OrderInv(Notes(d, Reported(s)))
  {
    ProgressGrows(d.net.log, Reported(s));
  }

  lemma {:induction false} ReportKeeps(j: Job, d: Dws, s: WState, ordered: bool)
    requires Inv(j, d, ordered) && AtHand(d, s)
    ensures Inv(j, Notes(d, Reported(s)), ordered)
  {
    NoteKeepsNet(j, d.net, Reported(s));
    LevelsGrow(d.cluster.hist, d.net.log, Reported(s));
    ReportKeepsStream(d, s);
    if ordered {
      ReportKeepsOrder(d, s);
    }
  }

  lemma {:induction false} TeardownKeepsStream(d: Dws)
    requires StreamInv(d) && d.cluster.hist != []
    ensures StreamInv(MoveToTeardown(d))
  {
  }

  lemma {:induction false} TeardownKeepsOrder(d: Dws)
    requires OrderInv(d)
    ensures OrderInv(MoveToTeardown(d))
  {
    HighestBound(d.net.log);
  }

  lemma {:induction false} TeardownKeeps(j: Job, d: Dws, ordered: bool)
    requires Inv(j, d, ordered) && d.cluster.hist != []
    ensures Inv(j, MoveToTeardown(d), ordered)
  {
    NoteKeepsNet(j, d.net, Requested(Teardown));
    LevelsGrow(d.cluster.hist, d.net.log, Requested(Teardown));
    TeardownKeepsStream(d);
    if ordered {
      TeardownKeepsOrder(d);
    }
  }

  lemma {:induction false} CacheKeeps(j: Job, d: Dws, info: Info, ordered: bool)
    requires Inv(j, d, ordered) && info.toredown == InfoOf(d).toredown
    ensures Inv(j, d.(cache := Some(info)), ordered)
  {
  }

  /** A request that is due. */
  predicate Due(j: Job, d: Dws, s: WState, ordered: bool) {
    && d.cluster.live
    && s != Teardown && s != Proposal
    && Level(s) <= Progress(Then(d.net.log, Requested(s)))
    && (s == Setup ==> SetupTokens(j, d.net) == 0 && (j.prolog.Some? || j.phase == Inactive))
    && (s == PostRun ==> PostRunTokens(d.net) == 0 && j.started && j.finishHandled)
    && (s == DataOut ==> Count(d.net.log, Requested(PostRun)) > 0)
    && (ordered ==>
          && !TornDownIn(d.net.log)
          && d.cluster.cursor < |d.cluster.hist|
          && d.cluster.hist[d.cluster.cursor].Snapshot?
          && Highest(d.net.log) <= Rank(s) <= Rank(d.cluster.hist[d.cluster.cursor].desired) + 1)
  }

  lemma {:induction false} MoveKeepsLevels(j: Job, d: Dws, s: WState)
    requires LevelInv(d.cluster.hist, d.net.log) && Due(j, d, s, false)
    ensures LevelInv(MoveDesired(d, s).cluster.hist, MoveDesired(d, s).net.log)
  {
    LevelsGrow(d.cluster.hist, d.net.log, Requested(s));
    assert LevelOk(Snapshot(s, d.cluster.state, d.cluster.ready), Then(d.net.log, Requested(s)));
  }

  lemma {:induction false} MoveKeepsOrder(j: Job, d: Dws, s: WState)
    requires StreamInv(d) && OrderInv(d) && Due(j, d, s, true)
    ensures OrderInv(MoveDesired(d, s))
  {
    ProgressGrows(d.net.log, Requested(s));
    RisingMore(d.cluster.hist, Snapshot(s, d.cluster.state, d.cluster.ready));
  }

  lemma {:induction false} MoveKeepsStream(j: Job, d: Dws, s: WState)
    requires StreamInv(d) && Due(j, d, s, false)
    ensures StreamInv(MoveDesired(d, s))
  {
  }

  lemma {:induction false} MoveKeeps(j: Job, d: Dws, s: WState, ordered: bool)
    requires Inv(j, d, ordered) && Due(j, d, s, ordered)
    ensures Inv(j, MoveDesired(d, s), ordered)
  {
    MoveKeepsStream(j, d, s);
    MoveKeepsLevels(j, d, s);
    NoteKeepsNet(j, d.net, Requested(s));
    if ordered {
      MoveKeepsOrder(j, d, s);
    }
  }

  // What each callback of the service keeps.

  lemma {:induction false} CheckExistenceKeeps(j: Job, d: Dws, ordered: bool)
    requires Inv(j, d, ordered)
    ensures Inv(j, CheckExistence(d), ordered)
  {
    if d.cluster.live {
      TeardownKeeps(j, d, ordered);
    } else {
      RemoveEpilogKeeps(j, d.(cache := None), ordered);
    }
  }

  lemma {:induction false} CreatedKeeps(j: Job, d: Dws, ordered: bool)
    requires Inv(j, d, ordered) && d.cluster.hist == [] && d.net.msgs[CreateRequest] == 0
    ensures Inv(j, d.(cluster := Created(d.cluster)), ordered)
  {
    var d' := d.(cluster := Created(d.cluster));
    ProgressBound(d.net.log);
    assert d'.cluster.hist == [Snapshot(Proposal, None, false)];
    assert StreamInv(d');
    assert ordered ==> OrderInv(d');
  }

  lemma {:induction false} CreateKeeps(j: Job, d: Dws, fault: Fault, ordered: bool)
    requires Inv(j, d, ordered) && d.cluster.hist == [] && d.net.msgs[CreateRequest] == 0
    ensures Inv(j, CreateCb(d, fault), ordered)
  {
    CreatedKeeps(j, d, ordered);
    CacheKeeps(j, d.(cluster := Created(d.cluster)), NEW_INFO, ordered);
  }

  /** dws.setup is handled in time. */
  predicate InTime(d: Dws, fault: Fault) {
    fault != Early && d.cluster.live ==> !InfoOf(d).toredown
  }

  /** While no Setup has been asked for, nothing has. */
  lemma {:induction false} SetupIsDue(j: Job, d: Dws, ordered: bool)
    requires Inv(j, d, ordered) && SetupTokens(j, d.net) == 0 && d.cluster.live
    requires j.prolog.Some? || j.phase == Inactive
    requires ordered ==> !InfoOf(d).toredown
    ensures Due(j, d, Setup, ordered)
  {
    ProgressBound(d.net.log);
    MilestoneReached(d.net.log, 0);
    var last := d.cluster.hist[|d.cluster.hist| - 1];
    assert LevelOk(last, d.net.log);
    if ordered {
      HighestBelowTeardown(d.net.log);
    }
  }

  lemma {:induction false} SetupMoves(j: Job, d: Dws, success: bool, ordered: bool)
    requires Inv(j, d, ordered) && SetupTokens(j, d.net) == 0 && d.cluster.live
    requires j.prolog.Some? || j.phase == Inactive
    requires ordered ==> !InfoOf(d).toredown
    ensures Inv(j, Sends(MoveDesired(d, Setup), SetupReply(success)), ordered)
  {
    SetupIsDue(j, d, ordered);
    MoveKeeps(j, d, Setup, ordered);
    SendKeeps(j, MoveDesired(d, Setup), SetupReply(success), ordered);
  }

  lemma {:induction false} SetupKeeps(j: Job, d: Dws, fault: Fault, ordered: bool)
    requires Inv(j, d, ordered) && SetupTokens(j, d.net) == 0
    requires j.prolog.Some? || j.phase == Inactive
    requires ordered ==> InTime(d, fault)
    ensures Inv(j, SetupCb(d, fault), ordered)
  {
    if fault == Early || !d.cluster.live {
      SendKeeps(j, d, SetupReply(false), ordered);
    } else {
      CacheKeeps(j, d, InfoOf(d), ordered);
      SetupMoves(j, Cached(d), fault == NoFault, ordered);
    }
  }

  /** Before PostRun has been asked for, a started job is no further than PreRun. */
  lemma {:induction false} PostRunIsDue(j: Job, d: Dws, ordered: bool)
    requires Inv(j, d, ordered) && PostRunTokens(d.net) == 0 && j.started && j.finishHandled
    requires d.cluster.live && !InfoOf(d).toredown
    ensures Due(j, d, PostRun, ordered)
  {
    ProgressGrows(d.net.log, Requested(PostRun));
    var last := d.cluster.hist[|d.cluster.hist| - 1];
    assert LevelOk(last, d.net.log);
    if ordered {
      assert last.desired != PostRun && last.desired != DataOut;
      assert Abreast(d.cluster, d.net.log);
      HighestBelowTeardown(d.net.log);
    }
  }

  lemma {:induction false} PostRunMoves(j: Job, d: Dws, success: bool, ordered: bool)
    requires Inv(j, d, ordered) && PostRunTokens(d.net) == 0 && j.started && j.finishHandled
    requires d.cluster.live && !InfoOf(d).toredown
    ensures Inv(j, Sends(MoveDesired(d, PostRun).(armed := true), PostRunReply(success)), ordered)
  {
    PostRunIsDue(j, d, ordered);
    MoveKeeps(j, d, PostRun, ordered);
    ArmedKeeps(j, MoveDesired(d, PostRun), ordered);
    SendKeeps(j, MoveDesired(d, PostRun).(armed := true), PostRunReply(success), ordered);
  }

  lemma {:induction false} ArmedKeeps(j: Job, d: Dws, ordered: bool)
    requires Inv(j, d, ordered) && d.cluster.live
    ensures Inv(j, d.(armed := true), ordered)
  {
  }

  lemma {:induction false} PostRunKeeps(j: Job, d: Dws, runStarted: bool, fault: Fault, ordered: bool)
    requires Inv(j, d, ordered)
    requires runStarted ==> PostRunTokens(d.net) == 0 && j.started && j.finishHandled
    ensures Inv(j, PostRunCb(d, runStarted, fault), ordered)
  {
    var d' := Cached(d);
    CacheKeeps(j, d, InfoOf(d), ordered);
    if InfoOf(d').toredown {
      SendKeeps(j, d', PostRunReply(true), ordered);
    } else if fault == Early || (runStarted && !d'.cluster.live) {
      SendKeeps(j, d', PostRunReply(false), ordered);
    } else if !runStarted {
      CheckExistenceKeeps(j, d', ordered);
      SendKeeps(j, CheckExistence(d'), PostRunReply(true), ordered);
    } else {
      PostRunMoves(j, d', fault == NoFault, ordered);
    }
  }

  lemma {:induction false} TeardownCbKeeps(j: Job, d: Dws, fault: Fault, ordered: bool)
    requires Inv(j, d, ordered)
    ensures Inv(j, TeardownCb(d, fault), ordered)
  {
    CacheKeeps(j, d, InfoOf(d), ordered);
    CheckExistenceKeeps(j, Cached(d), ordered);
  }

  lemma {:induction false} AbortKeeps(j: Job, d: Dws, fault: Fault, ordered: bool)
    requires Inv(j, d, ordered)
    ensures Inv(j, AbortCb(d, fault), ordered)
  {
    var info := InfoOf(d).(epilogRemoved := true);
    CacheKeeps(j, d, info, ordered);
    TeardownCbKeeps(j, d.(cache := Some(info)), fault, ordered);
  }

  lemma {:induction false} AdvanceKeeps(j: Job, d: Dws, s: WState, fault: Fault, ordered: bool)
    requires Inv(j, d, ordered)
    requires d.cluster.live ==> Due(j, d, s, ordered)
    ensures Inv(j, Advance(d, s, fault).0, ordered)
    ensures Advance(d, s, fault).0.cluster.hist == [] ==> d.cluster.hist == []
  {
    if !(fault == Early || !d.cluster.live) {
      MoveKeeps(j, d, s, ordered);
    }
  }

  function Successor(s: WState): WState
    requires s == Setup || s == DataIn || s == PostRun
  {
    if s == Setup then DataIn else if s == DataIn then PreRun else DataOut
  }

  /** A reported state makes the next one due. */
  lemma {:induction false} SuccessorIsDue(j: Job, d: Dws, s: WState, ordered: bool)
    requires s == Setup || s == DataIn || s == PostRun
    requires Inv(j, d, ordered) && AtHand(d, s) && !InfoOf(d).toredown && d.cluster.live
    requires Inv(j, Notes(d, Reported(s)), ordered)
    ensures Due(j, Notes(d, Reported(s)), Successor(s), ordered)
  {
    var l := d.net.log;
    var l' := Then(l, Reported(s));
    assert LevelOk(d.cluster.hist[d.cluster.cursor], l);
    ProgressGrows(l, Reported(s));
    ProgressGrows(l', Requested(Successor(s)));
    if s != PostRun {
      MilestoneReached(l, Level(s));
      MilestoneReached(l', Level(s) + 1);
    }
  }

  lemma {:induction false} ReportAdvances(j: Job, d: Dws, s: WState, fault: Fault, ordered: bool)
    requires s == Setup || s == DataIn || s == PostRun
    requires Inv(j, d, ordered) && AtHand(d, s) && !InfoOf(d).toredown
    ensures Inv(j, Advance(Notes(d, Reported(s)), Successor(s), fault).0, ordered)
    ensures Advance(Notes(d, Reported(s)), Successor(s), fault).0.cluster.hist != []
  {
    ReportKeeps(j, d, s, ordered);
    if d.cluster.live {
      SuccessorIsDue(j, d, s, ordered);
    }
    AdvanceKeeps(j, Notes(d, Reported(s)), Successor(s), fault, ordered);
  }

  /** A completed PreRun means that every milestone has been passed. */
  lemma {:induction false} PreRunCompletes(j: Job, d: Dws, ordered: bool)
    requires Inv(j, d, ordered) && AtHand(d, PreRun)
    ensures Sendable(Notes(d, Reported(PreRun)), PrologRemove)
  {
    assert LevelOk(d.cluster.hist[d.cluster.cursor], d.net.log);
    MilestoneReached(d.net.log, 5);
    ProgressGrows(d.net.log, Reported(PreRun));
  }

  /** The states whose completion sends a message. */
  lemma {:induction false} ReportSends(j: Job, d: Dws, s: WState, m: Msg, ordered: bool)
    requires Inv(j, d, ordered) && AtHand(d, s) && Sendable(Notes(d, Reported(s)), m)
    ensures Inv(j, Sends(Notes(d, Reported(s)), m), ordered)
    ensures Inv(j, Notes(d, Reported(s)), ordered)
  {
    ReportKeeps(j, d, s, ordered);
    SendKeeps(j, Notes(d, Reported(s)), m, ordered);
  }

  lemma {:induction false} ReportTearsDown(j: Job, d: Dws, s: WState, ordered: bool)
    requires Inv(j, d, ordered) && AtHand(d, s)
    ensures Inv(j, MoveToTeardown(Notes(d, Reported(s))), ordered)
  {
    ReportKeeps(j, d, s, ordered);
    TeardownKeeps(j, Notes(d, Reported(s)), ordered);
  }

  lemma {:induction false} CompletedKeeps(j: Job, d: Dws, s: WState, fit: Fit, fault: Fault, ordered: bool)
    requires Inv(j, d, ordered) && AtHand(d, s) && !InfoOf(d).toredown && s != Teardown
    ensures Inv(j, Completed(d, s, fit, fault).0, ordered)
    ensures Completed(d, s, fit, fault).0.cluster.hist != []
  {
    match s
    case Proposal => ReportSends(j, d, s, ResourceUpdate(fit == Unfit), ordered);
    case PreRun =>
      PreRunCompletes(j, d, ordered);
      ReportSends(j, d, s, PrologRemove, ordered);
    case DataOut => ReportTearsDown(j, d, s, ordered);
    case _ => ReportAdvances(j, d, s, fault, ordered);
  }

  lemma {:induction false} TornDownKeeps(j: Job, d: Dws, fault: Fault, ordered: bool)
    requires Inv(j, d, ordered)
    ensures Inv(j, TornDown(d, fault).0, ordered)
    ensures TornDown(d, fault).0.cluster.hist == d.cluster.hist
  {
    RemoveEpilogKeeps(j, d, ordered);
    var d' := if InfoOf(d).epilogRemoved then d else RemoveEpilog(d);
    CacheKeeps(j, d', InfoOf(d').(deleted := true), ordered);
  }

  lemma {:induction false} InnerKeeps(j: Job, d: Dws, fit: Fit, fault: Fault, ordered: bool)
    requires Inv(j, d, ordered) && d.cluster.hist != []
    requires d.cluster.hist[d.cluster.cursor].Snapshot?
    ensures Inv(j, Inner(d, d.cluster.hist[d.cluster.cursor], fit, fault).0, ordered)
    ensures Inner(d, d.cluster.hist[d.cluster.cursor], fit, fault).0.cluster.hist != []
  {
    var s := d.cluster.hist[d.cluster.cursor];
    if s.state.None? || InfoOf(d).deleted || (StateActive(s, Teardown) && !StateComplete(s, Teardown)) {
    } else if StateComplete(s, Teardown) {
      TornDownKeeps(j, d, fault, ordered);
    } else if !InfoOf(d).toredown && StateComplete(s, s.desired) {
      CompletedKeeps(j, d, s.desired, fit, fault, ordered);
    }
  }

  lemma {:induction false} StateChangeKeeps(j: Job, d: Dws, fit: Fit, fault: Fault, ordered: bool)
    requires Inv(j, d, ordered) && d.cluster.hist != []
    requires d.cluster.hist[d.cluster.cursor].Deleted? ==> !d.cluster.live
    ensures Inv(j, StateChange(d, d.cluster.hist[d.cluster.cursor], fit, fault), ordered)
  {
    var s := d.cluster.hist[d.cluster.cursor];
    if s.Snapshot? {
      CacheKeeps(j, d, InfoOf(d), ordered);
      InnerKeeps(j, Cached(d), fit, fault, ordered);
      var (d', raised) := Inner(Cached(d), s, fit, fault);
      if raised {
        TeardownKeeps(j, d', ordered);
      }
    }
  }

  lemma {:induction false} CursorKeepsOrder(d: Dws, i: nat)
    requires StreamInv(d) && OrderInv(d) && d.cluster.cursor <= i < |d.cluster.hist|
    ensures OrderInv(d.(cluster := d.cluster.(cursor := i)))
  {
    var c := d.cluster;
    if c.live && !TornDownIn(d.net.log) {
      assert c.hist[c.cursor].Snapshot? && c.hist[i].Snapshot?;
      assert Rank(c.hist[c.cursor].desired) <= Rank(c.hist[i].desired);
    }
  }

  lemma {:induction false} CursorKeepsStream(d: Dws, i: nat)
    requires StreamInv(d) && d.cluster.cursor <= i < |d.cluster.hist|
    ensures StreamInv(d.(cluster := d.cluster.(cursor := i)))
  {
  }

  lemma {:induction false} CursorKeeps(j: Job, d: Dws, i: nat, ordered: bool)
    requires Inv(j, d, ordered) && d.cluster.cursor <= i < |d.cluster.hist|
    ensures Inv(j, d.(cluster := d.cluster.(cursor := i)), ordered)
  {
    CursorKeepsStream(d, i);
    if ordered {
      CursorKeepsOrder(d, i);
    }
  }

  lemma {:induction false} DeliverKeeps(j: Job, d: Dws, i: nat, fit: Fit, fault: Fault, ordered: bool)
    requires Inv(j, d, ordered) && d.cluster.cursor <= i < |d.cluster.hist|
    ensures Inv(j, Deliver(d, i, fit, fault), ordered)
  {
    CursorKeeps(j, d, i, ordered);
    StateChangeKeeps(j, d.(cluster := d.cluster.(cursor := i)), fit, fault, ordered);
  }

  /** A live object changes: its desiredState stays, or a teardown lands. */
  predicate Follows(c: Cluster, c': Cluster) {
    && c.live && c'.live && c'.hist == c.hist && c'.cursor == c.cursor
    && (|| (c'.desired == c.desired && c'.pending == c.pending)
        || (c'.desired == Teardown && c'.pending == c.pending - 1))
  }

  lemma {:induction false} ChangedKeepsStream(d: Dws, c: Cluster)
    requires StreamInv(d) && Follows(d.cluster, c)
    ensures StreamInv(d.(cluster := Changed(c)))
  {
  }

  lemma {:induction false} LevelsMore(hist: seq<Snapshot>, s: Snapshot, l: Log)
    requires LevelInv(hist, l) && LevelOk(s, l)
    ensures LevelInv(hist + [s], l)
  {
  }

  lemma {:induction false} ChangedKeepsLevels(d: Dws, c: Cluster)
    requires StreamInv(d) && LevelInv(d.cluster.hist, d.net.log) && Follows(d.cluster, c)
    ensures LevelInv(Changed(c).hist, d.net.log)
  {
    assert LevelOk(c.hist[|c.hist| - 1], d.net.log);
    LevelsMore(c.hist, Snapshot(c.desired, c.state, c.ready), d.net.log);
  }

  lemma {:induction false} ChangedKeepsOrder(d: Dws, c: Cluster)
    requires StreamInv(d) && OrderInv(d) && Follows(d.cluster, c)
    ensures OrderInv(d.(cluster := Changed(c)))
  {
    RisingMore(c.hist, Snapshot(c.desired, c.state, c.ready));
    assert Changed(c).hist[..|c.hist|] == c.hist;
  }

  lemma {:induction false} ChangedKeeps(j: Job, d: Dws, c: Cluster, ordered: bool)
    requires Inv(j, d, ordered) && Follows(d.cluster, c)
    ensures Inv(j, d.(cluster := Changed(c)), ordered)
  {
    ChangedKeepsStream(d, c);
    ChangedKeepsLevels(d, c);
    if ordered {
      ChangedKeepsOrder(d, c);
    }
  }

  lemma {:induction false} ControllerKeeps(j: Job, d: Dws, state: Option<WState>, ready: bool, ordered: bool)
    requires Inv(j, d, ordered)
    ensures Inv(j, d.(cluster := Controller(d.cluster, state, ready)), ordered)
  {
    if d.cluster.live {
      ChangedKeeps(j, d, d.cluster.(state := state, ready := ready), ordered);
    }
  }

  lemma {:induction false} TeardownLandsKeeps(j: Job, d: Dws, ordered: bool)
    requires Inv(j, d, ordered) && d.cluster.pending > 0
    ensures Inv(j, d.(cluster := TeardownLands(d.cluster)), ordered)
  {
    if d.cluster.live {
      ChangedKeeps(j, d, d.cluster.(pending := d.cluster.pending - 1, desired := Teardown), ordered);
    }
  }

  lemma {:induction false} DeleteKeepsStream(d: Dws)
    requires StreamInv(d)
    ensures StreamInv(d.(cluster := Delete(d.cluster)))
  {
  }

  lemma {:induction false} DeleteKeepsOrder(d: Dws)
    requires OrderInv(d)
    ensures OrderInv(d.(cluster := Delete(d.cluster)))
  {
    RisingMore(d.cluster.hist, Deleted);
  }

  lemma {:induction false} DeleteKeeps(j: Job, d: Dws, ordered: bool)
    requires Inv(j, d, ordered)
    ensures Inv(j, d.(cluster := Delete(d.cluster)), ordered)
  {
    DeleteKeepsStream(d);
    LevelsMore(d.cluster.hist, Deleted, d.net.log);
    if ordered {
      DeleteKeepsOrder(d);
    }
  }

  /** What a request in flight tells about the world that handles it. */
  lemma {:induction false} RequestTells(j: Job, d: Dws, m: Msg)
    requires Inv(j, d, false) && m in d.net.msgs
    ensures m == CreateRequest ==> d.cluster.hist == [] && Take(d.net, m).msgs[CreateRequest] == 0
    ensures m == SetupRequest ==> SetupTokens(j, Take(d.net, m)) == 0 && (j.prolog.Some? || j.phase == Inactive)
    ensures m == PostRunRequest(true) ==> PostRunTokens(Take(d.net, m)) == 0 && j.started && j.finishHandled
  {
  }

  lemma {:induction false} HandleKeeps(j: Job, d: Dws, m: Msg, fault: Fault, ordered: bool)
    requires Inv(j, d, ordered) && m in d.net.msgs && ForService(m)
    requires ordered && m == SetupRequest ==> InTime(d, fault)
    ensures Inv(j, Handle(d.(net := Take(d.net, m)), m, fault), ordered)
  {
    var d' := d.(net := Take(d.net, m));
    TakeKeeps(j, d, m, ordered);
    RequestTells(j, d, m);
    match m
    case CreateRequest => CreateKeeps(j, d', fault, ordered);
    case SetupRequest => SetupKeeps(j, d', fault, ordered);
    case PostRunRequest(runStarted) => PostRunKeeps(j, d', runStarted, fault, ordered);
    case TeardownRequest => TeardownCbKeeps(j, d', fault, ordered);
    case AbortRequest => AbortKeeps(j, d', fault, ordered);
  }

  /** A step that handles dws.setup does so in time. */
  predicate SetupInTime(w: World, s: Step) {
    s.ServiceHandles? && s.request == SetupRequest ==> InTime(w.dws, s.fault)
  }

  lemma {:induction false} ServiceStepKeeps(w: World, s: Step, ordered: bool)
    requires Enabled(w, s) && !IsPlugin(s) && Inv(w.job, w.dws, ordered)
    requires ordered ==> SetupInTime(w, s)
    ensures Inv(w.job, ServiceStep(w.dws, s), ordered)
  {
    var j, d := w.job, w.dws;
    match s
    case ServiceHandles(m, fault) => HandleKeeps(j, d, m, fault, ordered);
    case TimerFires(fault) => CheckExistenceKeeps(j, d, ordered);
    case Delivered(i, fit, fault) => DeliverKeeps(j, d, i, fit, fault, ordered);
    case TeardownPatched => TeardownLandsKeeps(j, d, ordered);
    case ControllerReports(state, ready) => ControllerKeeps(j, d, state, ready, ordered);
    case WorkflowDeleted => DeleteKeeps(j, d, ordered);
  }
}
