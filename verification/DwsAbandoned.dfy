/** Workflows that outlive their job: when nobody has asked for their teardown and
    nothing is on its way that would. */
module DwsAbandoned {
  import opened Wrappers
  import opened DwsTypes
  import opened DwsJobtap
  import opened DwsService
  import opened DwsProtocol
  import opened DwsInvariant
  import DwsEffects
  import DwsEnding
  import DwsRuns

  // The steps that tear down.

  /** A delivered snapshot does: something failed while it was handled, or the data is
      out. */
  predicate SnapshotTearsDown(d: Dws, s: Snapshot, fault: Fault) {
    && s.Snapshot? && s.state.Some? && !InfoOf(d).deleted
    && if StateActive(s, Teardown) then fault != NoFault
       else if InfoOf(d).toredown then false
       else
         || fault != NoFault
         || StateComplete(s, DataOut)
         || (!d.cluster.live && (StateComplete(s, Setup) || StateComplete(s, DataIn) || StateComplete(s, PostRun)))
  }

  /** A request does if it finds the object and does not fail first. */
  predicate RequestTearsDown(d: Dws, m: Msg, fault: Fault) {
    && (m == PostRunRequest(false) || m == TeardownRequest || m == AbortRequest)
    && d.cluster.live && !InfoOf(d).toredown && fault != Early
  }

  predicate TearsDown(w: World, s: Step)
    requires Enabled(w, s)
  {
    match s
    case ServiceHandles(m, fault) => RequestTearsDown(w.dws, m, fault)
    case TimerFires(fault) => w.dws.cluster.live && fault != Early
    case Delivered(i, _, fault) => SnapshotTearsDown(w.dws, w.dws.cluster.hist[i], fault)
    case _ => false
  }

  lemma {:induction false} InnerRaises(d: Dws, s: Snapshot, fit: Fit, fault: Fault)
    requires s.Snapshot?
    ensures Inner(d, s, fit, fault).1 || DwsEffects.DataIsOut(d, s) <==> SnapshotTearsDown(d, s, fault)
  {
  }

  lemma {:induction false} DeliverTearsDown(d: Dws, i: nat, fit: Fit, fault: Fault)
    requires i < |d.cluster.hist|
    ensures Deliver(d, i, fit, fault).cluster.pending > d.cluster.pending
            <==> SnapshotTearsDown(d, d.cluster.hist[i], fault)
  {
    var d' := Cached(d.(cluster := d.cluster.(cursor := i)));
    var s := d.cluster.hist[i];
    if s.Snapshot? {
      DwsEffects.InnerEffect(d', s, fit, fault);
      InnerRaises(d', s, fit, fault);
    }
  }

  lemma {:induction false} StepTearsDown(w: World, s: Step)
    requires Enabled(w, s)
    ensures Next(w, s).dws.cluster.pending > w.dws.cluster.pending <==> TearsDown(w, s)
  {
    if s.Delivered? {
      DeliverTearsDown(w.dws, s.index, s.fit, s.fault);
    }
  }

  // Every request is handled once.

  /** How often a run handles a request. */
  function Handled(run: seq<Step>, m: Msg): nat {
    if run == [] then 0
    else
      var s := run[|run| - 1];
      Handled(run[..|run| - 1], m) + if s.ServiceHandles? && s.request == m then 1 else 0
  }

  /** The requests that the log tells of, and the events that do. */
  predicate Tracked(m: Msg) { m.PostRunRequest? || m.AbortRequest? }

  function Sent(m: Msg): Event
    requires Tracked(m)
  {
    if m.AbortRequest? then AbortSent else EpilogStart(m.runStarted)
  }

  /** How many of them were sent and are no longer on their way. */
  function Answered(n: Net, m: Msg): int
    requires Tracked(m)
  {
    Count(n.log, Sent(m)) - n.msgs[m]
  }

  predicate Same(n: Net, n': Net) {
    && Answered(n', PostRunRequest(true)) == Answered(n, PostRunRequest(true))
    && Answered(n', PostRunRequest(false)) == Answered(n, PostRunRequest(false))
    && Answered(n', AbortRequest) == Answered(n, AbortRequest)
  }

  lemma {:induction false} ExceptionAnswers(j: Job, n: Net, severity: nat, abort: bool)
    ensures Same(n, ExceptionCb(j, n, severity, abort).1)
  {
    var handled := Note(n, ExceptionHandled);
    assert Same(n, handled);
    assert Same(n, Note(Send(handled, AbortRequest), AbortSent));
  }

  lemma {:induction false} ReceiveAnswers(j: Job, n: Net, m: Msg)
    requires !ForService(m)
    ensures Same(n, Receive(j, Take(n, m), m).1)
  {
    assert Same(n, Take(n, m));
  }

  lemma {:induction false} PluginAnswers(w: World, s: Step)
    requires Enabled(w, s) && IsPlugin(s)
    ensures Same(w.dws.net, Next(w, s).dws.net)
  {
    if s.ExceptionCall? {
      ExceptionAnswers(w.job, w.dws.net, s.severity, s.abort);
    } else if s.PluginReceives? {
      ReceiveAnswers(w.job, w.dws.net, s.reply);
    }
  }

  lemma {:induction false} EffectAnswers(d: Dws, d': Dws)
    requires DwsEffects.Effect(d, d')
    ensures Same(d.net, d'.net)
  {
    DwsEffects.AddsKeeps(d.net.log, d'.net.log, true, EpilogStart(true));
    DwsEffects.AddsKeeps(d.net.log, d'.net.log, true, EpilogStart(false));
    DwsEffects.AddsKeeps(d.net.log, d'.net.log, true, AbortSent);
    assert DwsEffects.NotSent(PostRunRequest(true)) && DwsEffects.NotSent(PostRunRequest(false));
    assert DwsEffects.NotSent(AbortRequest);
  }

  lemma {:induction false} HandleAnswers(d: Dws, m: Msg, fault: Fault)
    requires ForService(m)
    ensures Same(d.net, Handle(d, m, fault).net)
  {
    if m.PostRunRequest? {
      DwsEffects.PostRunEffect(d, m.runStarted, fault);
      EffectAnswers(d, DwsEffects.PostRunWork(d, m.runStarted, fault));
    } else if m != CreateRequest {
      DwsEffects.HandleEffect(d, m, fault);
      EffectAnswers(d, Handle(d, m, fault));
    }
  }

  lemma {:induction false} ClusterAnswers(w: World, s: Step)
    requires Enabled(w, s) && !IsPlugin(s) && !s.ServiceHandles?
    ensures Same(w.dws.net, Next(w, s).dws.net)
  {
    if s.Delivered? {
      DwsEffects.DeliverEffect(w.dws, s.index, s.fit, s.fault);
      EffectAnswers(w.dws, Next(w, s).dws);
    } else if s.TimerFires? {
      DwsEffects.CheckExistenceEffect(w.dws);
      EffectAnswers(w.dws, CheckExistence(w.dws));
    }
  }

  lemma {:induction false} StepAnswers(w: World, s: Step, m: Msg)
    requires Enabled(w, s) && Tracked(m)
    ensures Answered(Next(w, s).dws.net, m) ==
            Answered(w.dws.net, m) + if s.ServiceHandles? && s.request == m then 1 else 0
  {
    if IsPlugin(s) {
      PluginAnswers(w, s);
    } else if s.ServiceHandles? {
      HandleAnswers(w.dws.(net := Take(w.dws.net, s.request)), s.request, s.fault);
    } else {
      ClusterAnswers(w, s);
    }
  }

  lemma {:induction false} HandledIsAnswered(run: seq<Step>, m: Msg)
    requires After(run).Some? && Tracked(m)
    ensures Handled(run, m) == Answered(After(run).value.dws.net, m)
  {
    if run != [] {
      HandledIsAnswered(run[..|run| - 1], m);
      StepAnswers(After(run[..|run| - 1]).value, run[|run| - 1], m);
    }
  }

  // Abandoned workflows.

  /** The job is over and no message is on its way, and its workflow is there. */
  predicate Over(w: World) {
    w.job.phase == Inactive && w.dws.net.msgs == multiset{} && w.dws.cluster.live
  }

  /** And nobody has asked for its teardown. */
  predicate Abandoned(w: World) { Over(w) && !TornDownIn(w.dws.net.log) }

  ghost predicate NothingTearsDown(run: seq<Step>)
    requires After(run).Some?
  {
    run != [] ==>
      var front, last := run[..|run| - 1], run[|run| - 1];
      NothingTearsDown(front) && !TearsDown(After(front).value, last)
  }

  lemma {:induction false} TornDownIff(run: seq<Step>)
    requires After(run).Some?
    ensures TornDownIn(After(run).value.dws.net.log) <==> !NothingTearsDown(run)
  {
    if run != [] {
      TornDownIff(run[..|run| - 1]);
      DwsEffects.StepAsks(After(run[..|run| - 1]).value, run[|run| - 1]);
      StepTearsDown(After(run[..|run| - 1]).value, run[|run| - 1]);
    }
  }

  lemma {:induction false} GoneStaysGone(w: World, s: Step)
    requires Enabled(w, s) && StreamInv(w.dws) && !w.dws.cluster.live && w.dws.cluster.hist != []
    ensures !Next(w, s).dws.cluster.live && Next(w, s).dws.cluster.hist != []
  {
    DwsEffects.StepAdds(w, s);
    if s.Delivered? {
      DwsEffects.DeliverEffect(w.dws, s.index, s.fit, s.fault);
    }
  }

  /** The request came before the workflow had been created, or failed at once. */
  predicate Missed(w: World, fault: Fault) { fault == Early || w.dws.cluster.hist == [] }

  /** The run handles the request at step k, and misses. */
  ghost predicate MissedAt(run: seq<Step>, m: Msg, k: nat) {
    && k < |run| && After(run[..k]).Some?
    && run[k].ServiceHandles? && run[k].request == m && Missed(After(run[..k]).value, run[k].fault)
  }

  /** The run handles the request at step k, with nothing torn down by then. */
  ghost predicate PassedAt(run: seq<Step>, m: Msg, k: nat) {
    && k < |run| && run[k].ServiceHandles? && run[k].request == m
    && After(run[..k]).Some? && Enabled(After(run[..k]).value, run[k])
    && NothingTearsDown(run[..k]) && !TearsDown(After(run[..k]).value, run[k])
  }

  /** A request that would have torn the workflow down, had it not missed. */
  lemma {:induction false} RequestWasMissed(run: seq<Step>, m: Msg) returns (k: nat)
    requires After(run).Some? && NothingTearsDown(run) && Handled(run, m) > 0
    requires After(run).value.dws.cluster.live && (m == PostRunRequest(false) || m == AbortRequest)
    ensures MissedAt(run, m, k) && Enabled(After(run[..k]).value, run[k])
  {
    k := HandledAt(run, m);
    LiveBefore(run, k);
    DwsRuns.RunKeeps(run[..k], false);
    TornDownIff(run[..k]);
  }

  lemma {:induction false} HandledAt(run: seq<Step>, m: Msg) returns (k: nat)
    requires After(run).Some? && NothingTearsDown(run) && Handled(run, m) > 0
    ensures PassedAt(run, m, k)
  {
    var front, last := run[..|run| - 1], run[|run| - 1];
    if last.ServiceHandles? && last.request == m {
      k := |front|;
    } else {
      k := HandledAt(front, m);
      assert front[..k] == run[..k];
    }
  }

  /** An object that is there at the end was there, or not yet made, at every point. */
  lemma {:induction false} LiveBefore(run: seq<Step>, k: nat)
    requires After(run).Some? && k <= |run| && After(run).value.dws.cluster.live && After(run[..k]).Some?
    ensures After(run[..k]).value.dws.cluster.live || After(run[..k]).value.dws.cluster.hist == []
  {
    if k == |run| {
      assert run[..k] == run;
    } else {
      var front := run[..|run| - 1];
      assert front[..k] == run[..k];
      DwsRuns.RunKeeps(front, false);
      var w := After(front).value;
      if !w.dws.cluster.live && w.dws.cluster.hist != [] {
        GoneStaysGone(w, run[|run| - 1]);
      } else if w.dws.cluster.live {
        LiveBefore(front, k);
      } else {
        EmptyBefore(front, k);
      }
    }
  }

  lemma {:induction false} EmptyBefore(run: seq<Step>, k: nat)
    requires After(run).Some? && k <= |run| && After(run).value.dws.cluster.hist == [] && After(run[..k]).Some?
    ensures After(run[..k]).value.dws.cluster.hist == []
  {
    if k == |run| {
      assert run[..k] == run;
    } else {
      var front := run[..|run| - 1];
      assert front[..k] == run[..k];
      DwsEffects.StepAdds(After(front).value, run[|run| - 1]);
      EmptyBefore(front, k);
    }
  }

  /** A job that has ended without having started does not start. */
  lemma {:induction false} NeverStarts(run: seq<Step>, k: nat)
    requires After(run).Some? && k <= |run| && After(run[..k]).Some?
    requires var j := After(run[..k]).value.job; DwsEnding.Ended(j) && !j.started
    ensures var j := After(run).value.job; DwsEnding.Ended(j) && !j.started
  {
    if k == |run| {
      assert run[..k] == run;
    } else {
      var front := run[..|run| - 1];
      assert front[..k] == run[..k];
      NeverStarts(front, k);
      StaysEnded(After(front).value, run[|run| - 1]);
    }
  }

  lemma {:induction false} StaysEnded(w: World, s: Step)
    requires Enabled(w, s) && DwsEnding.Ended(w.job) && !w.job.started
    ensures DwsEnding.Ended(Next(w, s).job) && !Next(w, s).job.started
  {
    if s.PluginReceives? {
      ReceiveStaysEnded(w.job, Take(w.dws.net, s.reply), s.reply);
    }
  }

  lemma {:induction false} ReceiveStaysEnded(j: Job, n: Net, m: Msg)
    requires DwsEnding.Ended(j) && !j.started
    ensures DwsEnding.Ended(Receive(j, n, m).0) && !Receive(j, n, m).0.started
  {
  }

  /** Of a job that is over, the workflow is abandoned if and only if none of the steps
      tore it down: neither its one dws.post_run nor any dws.teardown, dws.abort or timer
      found the object without failing first, and no snapshot was handled with an error
      or with the data out. */
  lemma {:induction false} AbandonedIff(run: seq<Step>)
    requires After(run).Some? && Over(After(run).value)
    ensures Abandoned(After(run).value) <==> NothingTearsDown(run)
  {
    TornDownIff(run);
  }

  /** A dws.post_run that failed, wherever it did, or a dws.abort that failed at once. */
  ghost predicate FailedAt(run: seq<Step>, k: nat) {
    && k < |run| && run[k].ServiceHandles?
    && (|| (run[k].request == PostRunRequest(true) && run[k].fault != NoFault)
        || (run[k].request == AbortRequest && run[k].fault == Early))
  }

  lemma {:induction false} PostRunFailedAt(run: seq<Step>, k: nat)
    requires After(run).Some? && DwsEnding.FailsAt(run, k) && After(run).value.dws.cluster.live
    requires Handled(run, PostRunRequest(false)) == 0
    ensures FailedAt(run, k)
  {
    var w := After(run[..k]).value;
    DwsRuns.RunKeeps(run[..k], false);
    LiveBefore(run, k);
    HandledOnce(run, k);
    if w.job.started { DwsEnding.StartedHasWatch(w.job, w.dws); }
  }

  lemma {:induction false} HandledOnce(run: seq<Step>, k: nat)
    requires k < |run| && run[k].ServiceHandles?
    ensures Handled(run, run[k].request) > 0
  {
    if k < |run| - 1 {
      HandledOnce(run[..|run| - 1], k);
    }
  }

  lemma {:induction false} AbortFailedAt(run: seq<Step>) returns (k: nat)
    requires After(run).Some? && NothingTearsDown(run) && Handled(run, AbortRequest) > 0
    requires After(run).value.dws.cluster.live && After(run).value.job.started
    ensures FailedAt(run, k)
  {
    k := RequestWasMissed(run, AbortRequest);
    var w := After(run[..k]).value;
    DwsRuns.RunKeeps(run[..k], false);
    DwsEnding.RunIsClean(run[..k]);
    if w.job.started {
      DwsEnding.StartedHasWatch(w.job, w.dws);
    } else {
      NeverStarts(run, k);
    }
  }

  /** The workflow of a job that never started is abandoned only after its dws.post_run,
      which is handled exactly once, came before dws.create or failed at once. */
  lemma {:induction false} AbandonedBeforeStart(run: seq<Step>) returns (k: nat)
    requires After(run).Some? && Abandoned(After(run).value) && !After(run).value.job.started
    ensures Handled(run, PostRunRequest(false)) == 1 && MissedAt(run, PostRunRequest(false), k)
  {
    DwsRuns.RunKeeps(run, false);
    DwsRuns.EpilogStartedOnce(run);
    HandledIsAnswered(run, PostRunRequest(false));
    TornDownIff(run);
    k := RequestWasMissed(run, PostRunRequest(false));
  }

  /** That of a job that started, only after its dws.post_run failed or a dws.abort failed
      at once. */
  lemma {:induction false} AbandonedAfterStart(run: seq<Step>) returns (k: nat)
    requires After(run).Some? && Abandoned(After(run).value) && After(run).value.job.started
    ensures Handled(run, PostRunRequest(true)) == 1 && FailedAt(run, k)
  {
    var n := After(run).value.dws.net;
    DwsRuns.RunKeeps(run, false);
    DwsRuns.EpilogStartedOnce(run);
    HandledIsAnswered(run, PostRunRequest(true));
    HandledIsAnswered(run, PostRunRequest(false));
    HandledIsAnswered(run, AbortRequest);
    DwsEnding.RunIsClean(run);
    TornDownIff(run);
    if Count(n.log, AbortSent) > 0 {
      k := AbortFailedAt(run);
    } else {
      k := DwsEnding.DebtHasCause(run);
      PostRunFailedAt(run, k);
    }
  }

  // Runs that abandon a workflow.

  lemma {:induction false} Quietly(run: seq<Step>, s: Step)
    requires After(run).Some? && Enabled(After(run).value, s)
    requires NothingTearsDown(run) && !TearsDown(After(run).value, s)
    ensures After(run + [s]) == Some(Next(After(run).value, s)) && NothingTearsDown(run + [s])
  {
    assert (run + [s])[..|run|] == run;
  }

  /** A step that leads from a world that is known to another. */
  predicate Leads(w: World, s: Step, w': World) { Enabled(w, s) && !TearsDown(w, s) && Next(w, s) == w' }

  lemma {:induction false} Led(run: seq<Step>, s: Step, w: World, w': World)
    requires After(run) == Some(w) && NothingTearsDown(run) && Leads(w, s, w')
    ensures After(run + [s]) == Some(w') && NothingTearsDown(run + [s])
  {
    Quietly(run, s);
  }

  const POST_RUN := PostRunRequest(false)

  /** A job cancelled before it could be scheduled, its cleanup callback still to come;
      and after that, and after an exception has sent it back. */
  const CANCELLED := Raise(NEW_JOB, false)
  const CLEANED := CANCELLED.(cleanupPending := false, epilog := true)
  const OVER := CLEANED.(phase := Inactive, epilog := false)

  function Around(j: Job, d: Dws, msgs: multiset<Msg>, log: Log): World { World(j, d.(net := Net(msgs, log))) }

  lemma {:induction false} CancelSteps(d: Dws, msgs: multiset<Msg>, log: Log)
    ensures Leads(Around(NEW_JOB, d, msgs, log), Exception(false), Around(CANCELLED, d, msgs, log))
    ensures Leads(Around(CANCELLED, d, msgs, log), CleanupCall,
                  Around(CLEANED, d, msgs + multiset{POST_RUN}, Then(log, EpilogStart(false))))
  {
  }

  lemma {:induction false} RemovalStep(d: Dws, msgs: multiset<Msg>, log: Log)
    ensures Leads(Around(CLEANED, d, msgs + multiset{EpilogRemove}, log), PluginReceives(EpilogRemove),
                  Around(CLEANED, d, msgs, Then(log, EpilogFinish(true))))
  {
    assert msgs + multiset{EpilogRemove} - multiset{EpilogRemove} == msgs;
  }

  lemma {:induction false} SuccessStep(d: Dws, msgs: multiset<Msg>, log: Log)
    ensures Leads(Around(CLEANED, d, msgs + multiset{PostRunReply(true)}, log), PluginReceives(PostRunReply(true)),
                  Around(CLEANED, d, msgs, log))
  {
    assert msgs + multiset{PostRunReply(true)} - multiset{PostRunReply(true)} == msgs;
  }

  lemma {:induction false} FailureStep(j: Job, d: Dws, msgs: multiset<Msg>, log: Log)
    requires j.phase == Cleanup
    ensures Leads(Around(j, d, msgs + multiset{PostRunReply(false)}, log), PluginReceives(PostRunReply(false)),
                  Around(Raise(j, false), d, msgs, Then(log, EpilogFinish(false))))
  {
    assert msgs + multiset{PostRunReply(false)} - multiset{PostRunReply(false)} == msgs;
  }

  lemma {:induction false} ExceptionStep(j: Job, d: Dws, msgs: multiset<Msg>, log: Log)
    requires j.phase == Cleanup && j.fatal && j.epilog && j.prolog != Some(true)
    ensures Leads(Around(j, d, msgs, log), ExceptionCall(0, false),
                  Around(j, d, msgs + multiset{TeardownRequest}, Then(log, ExceptionHandled)))
  {
  }

  /** The job has nothing left to do but to end its epilog. */
  predicate AtEnd(j: Job) {
    j.phase == Cleanup && !j.cleanupPending && j.prolog != Some(true) && (j.started ==> j.finishHandled) && j.epilog
  }

  function Retired(j: Job): Job { j.(phase := Inactive, prolog := None, epilog := false) }

  lemma {:induction false} RetireStep(j: Job, d: Dws, msgs: multiset<Msg>, log: Log)
    requires AtEnd(j) && !EpilogHeld(log)
    ensures Leads(Around(j, d, msgs, log), Retire, Around(Retired(j), d, msgs, log))
  {
  }

  /** The service before and after the workflow has been created. */
  const NOBODY := START.dws
  const SOMEBODY := CreateCb(START.dws, NoFault)

  lemma {:induction false} CreateStep(j: Job, msgs: multiset<Msg>, log: Log)
    ensures Leads(Around(j, NOBODY, msgs + multiset{CreateRequest}, log), ServiceHandles(CreateRequest, NoFault),
                  Around(j, SOMEBODY, msgs, log))
  {
    assert msgs + multiset{CreateRequest} - multiset{CreateRequest} == msgs;
  }

  lemma {:induction false} EarlyStep(j: Job, d: Dws, msgs: multiset<Msg>, log: Log, m: Msg)
    requires d.cache == Some(NEW_INFO) && (m.PostRunRequest? || m == TeardownRequest)
    ensures Leads(Around(j, d, msgs + multiset{m}, log), ServiceHandles(m, Early),
                  Around(j, d, if m.PostRunRequest? then msgs + multiset{PostRunReply(false)} else msgs, log))
  {
    assert msgs + multiset{m} - multiset{m} == msgs;
  }

  function Both(msgs: multiset<Msg>): multiset<Msg> { msgs + multiset{EpilogRemove} + multiset{PostRunReply(true)} }

  lemma {:induction false} NobodyThere(j: Job, msgs: multiset<Msg>, log: Log)
    ensures Leads(Around(j, NOBODY, msgs + multiset{POST_RUN}, log), ServiceHandles(POST_RUN, NoFault),
                  Around(j, NOBODY, Both(msgs), Then(log, RemovalSent)))
  {
    assert msgs + multiset{POST_RUN} - multiset{POST_RUN} == msgs;
  }

  lemma {:induction false} Unanswered() returns (run: seq<Step>)
    ensures After(run) == Some(Around(CLEANED, NOBODY, multiset{CreateRequest} + multiset{POST_RUN},
                                      Then(Empty, EpilogStart(false))))
    ensures NothingTearsDown(run)
  {
    var msgs := multiset{CreateRequest};
    CancelSteps(NOBODY, msgs, Empty);
    Led([], Exception(false), START, Around(CANCELLED, NOBODY, msgs, Empty));
    run := [] + [Exception(false)];
    Led(run, CleanupCall, Around(CANCELLED, NOBODY, msgs, Empty),
        Around(CLEANED, NOBODY, msgs + multiset{POST_RUN}, Then(Empty, EpilogStart(false))));
    run := run + [CleanupCall];
  }

  /** dws.post_run overtakes dws.create: the service finds no workflow, so the epilog
      ends; the workflow is created for a job that is over. */
  lemma {:induction false} CreatedTooLate() returns (run: seq<Step>)
    ensures After(run).Some? && Abandoned(After(run).value)
  {
    var msgs, none := multiset{CreateRequest}, multiset{};
    var l1 := Then(Empty, EpilogStart(false));
    var l2 := Then(l1, RemovalSent);
    var l3 := Then(l2, EpilogFinish(true));
    run := Unanswered();
    NobodyThere(CLEANED, msgs, l1);
    Led(run, ServiceHandles(POST_RUN, NoFault), Around(CLEANED, NOBODY, msgs + multiset{POST_RUN}, l1),
        Around(CLEANED, NOBODY, Both(msgs), l2));
    run := run + [ServiceHandles(POST_RUN, NoFault)];
    run := EndsAfterReplies(run, msgs, l2);
    CreateStep(OVER, none, l3);
    assert msgs == none + multiset{CreateRequest};
    Led(run, ServiceHandles(CreateRequest, NoFault), Around(OVER, NOBODY, msgs, l3), Around(OVER, SOMEBODY, none, l3));
    run := run + [ServiceHandles(CreateRequest, NoFault)];
    TornDownIff(run);
  }

  lemma {:induction false} EndsAfterReplies(run: seq<Step>, msgs: multiset<Msg>, log: Log) returns (run': seq<Step>)
    requires After(run) == Some(Around(CLEANED, NOBODY, Both(msgs), log))
    requires NothingTearsDown(run)
    ensures After(run') == Some(Around(OVER, NOBODY, msgs, Then(log, EpilogFinish(true)))) && NothingTearsDown(run')
  {
    var some := msgs + multiset{EpilogRemove};
    SuccessStep(NOBODY, some, log);
    Led(run, PluginReceives(PostRunReply(true)), Around(CLEANED, NOBODY, some + multiset{PostRunReply(true)}, log),
        Around(CLEANED, NOBODY, some, log));
    run' := run + [PluginReceives(PostRunReply(true))];
    RemovalStep(NOBODY, msgs, log);
    var log' := Then(log, EpilogFinish(true));
    Led(run', PluginReceives(EpilogRemove), Around(CLEANED, NOBODY, some, log), Around(CLEANED, NOBODY, msgs, log'));
    run' := run' + [PluginReceives(EpilogRemove)];
    RetireStep(CLEANED, NOBODY, msgs, log');
    Led(run', Retire, Around(CLEANED, NOBODY, msgs, log'), Around(OVER, NOBODY, msgs, log'));
    run' := run' + [Retire];
  }

  /** dws.post_run fails at once, which ends the epilog; so does the dws.teardown that
      the exception leads to. */
  lemma {:induction false} FailedTwice() returns (run: seq<Step>)
    ensures After(run).Some? && Abandoned(After(run).value)
  {
    var none: multiset<Msg> := multiset{};
    var d, l1 := SOMEBODY, Then(Empty, EpilogStart(false));
    CreateStep(NEW_JOB, none, Empty);
    assert none + multiset{CreateRequest} == multiset{CreateRequest};
    Led([], ServiceHandles(CreateRequest, NoFault), START, Around(NEW_JOB, d, none, Empty));
    run := [] + [ServiceHandles(CreateRequest, NoFault)];
    CancelSteps(d, none, Empty);
    Led(run, Exception(false), Around(NEW_JOB, d, none, Empty), Around(CANCELLED, d, none, Empty));
    run := run + [Exception(false)];
    Led(run, CleanupCall, Around(CANCELLED, d, none, Empty), Around(CLEANED, d, none + multiset{POST_RUN}, l1));
    run := run + [CleanupCall];
    run := PostRunFailure(run, CLEANED, d, none, l1, false);
    assert Raise(CLEANED, false) == CLEANED;
    run := TeardownFailure(run, CLEANED, d, none, l1);
    TornDownIff(run);
  }

  /** The epilog ends because dws.post_run fails at once. */
  lemma {:induction false} PostRunFailure(run: seq<Step>, j: Job, d: Dws, msgs: multiset<Msg>, log: Log, started: bool)
    returns (run': seq<Step>)
    requires After(run) == Some(Around(j, d, msgs + multiset{PostRunRequest(started)}, log)) && NothingTearsDown(run)
    requires d.cache == Some(NEW_INFO) && j.phase == Cleanup
    ensures After(run') == Some(Around(Raise(j, false), d, msgs, Then(log, EpilogFinish(false))))
    ensures NothingTearsDown(run')
  {
    var m := PostRunRequest(started);
    EarlyStep(j, d, msgs, log, m);
    Led(run, ServiceHandles(m, Early), Around(j, d, msgs + multiset{m}, log),
        Around(j, d, msgs + multiset{PostRunReply(false)}, log));
    run' := run + [ServiceHandles(m, Early)];
    FailureStep(j, d, msgs, log);
    Led(run', PluginReceives(PostRunReply(false)), Around(j, d, msgs + multiset{PostRunReply(false)}, log),
        Around(Raise(j, false), d, msgs, Then(log, EpilogFinish(false))));
    run' := run' + [PluginReceives(PostRunReply(false))];
  }

  /** So does the dws.teardown that the exception leads to, and the job is over. */
  lemma {:induction false} TeardownFailure(run: seq<Step>, j: Job, d: Dws, msgs: multiset<Msg>, log: Log)
    returns (run': seq<Step>)
    requires After(run) == Some(Around(j, d, msgs, Then(log, EpilogFinish(false)))) && NothingTearsDown(run)
    requires d.cache == Some(NEW_INFO) && AtEnd(j) && j.fatal
    ensures After(run').Some? && NothingTearsDown(run')
    ensures After(run').value == Around(Retired(j), d, msgs, Then(Then(log, EpilogFinish(false)), ExceptionHandled))
  {
    var l1 := Then(log, EpilogFinish(false));
    var l2 := Then(l1, ExceptionHandled);
    ExceptionStep(j, d, msgs, l1);
    Led(run, ExceptionCall(0, false), Around(j, d, msgs, l1), Around(j, d, msgs + multiset{TeardownRequest}, l2));
    run' := run + [ExceptionCall(0, false)];
    EarlyStep(j, d, msgs, l2, TeardownRequest);
    Led(run', ServiceHandles(TeardownRequest, Early), Around(j, d, msgs + multiset{TeardownRequest}, l2),
        Around(j, d, msgs, l2));
    run' := run' + [ServiceHandles(TeardownRequest, Early)];
    assert !EpilogHeld(l1) && !EpilogHeld(l2);
    RetireStep(j, d, msgs, l2);
    Led(run', Retire, Around(j, d, msgs, l2), Around(Retired(j), d, msgs, l2));
    run' := run' + [Retire];
  }

  // A job that has started comes to its end, and its dws.post_run is sent.

  function Finished(j: Job): Job { ToCleanup(j).(finished := true) }

  function Waiting(j: Job): Job { Finished(j).(cleanupPending := false) }

  function Held(j: Job): Job { Waiting(j).(finishHandled := true, epilog := true) }

  lemma {:induction false} SetupReplyStep(j: Job, d: Dws, msgs: multiset<Msg>, log: Log)
    ensures Leads(Around(j, d, msgs + multiset{SetupReply(true)}, log), PluginReceives(SetupReply(true)),
                  Around(j, d, msgs, log))
  {
    assert msgs + multiset{SetupReply(true)} - multiset{SetupReply(true)} == msgs;
  }

  lemma {:induction false} JobFinishStep(j: Job, d: Dws, msgs: multiset<Msg>, log: Log)
    requires DwsInvariant.JobShape(j) && j.phase == Run && j.started
    ensures Leads(Around(j, d, msgs, log), JobFinish, Around(Finished(j), d, msgs, log))
  {
  }

  lemma {:induction false} CleanupCallStep(j: Job, d: Dws, msgs: multiset<Msg>, log: Log)
    requires DwsInvariant.JobShape(j) && j.phase == Run && j.started
    ensures Leads(Around(Finished(j), d, msgs, log), CleanupCall, Around(Waiting(j), d, msgs, log))
  {
  }

  lemma {:induction false} FinishCallStep(j: Job, d: Dws, msgs: multiset<Msg>, log: Log)
    requires DwsInvariant.JobShape(j) && j.phase == Run && j.started
    ensures Leads(Around(Waiting(j), d, msgs, log), FinishCall,
                  Around(Held(j), d, msgs + multiset{PostRunRequest(true)}, Then(log, EpilogStart(true))))
    ensures AtEnd(Raise(Held(j), false))
  {
  }

  /** The same after the job has run: its workflow stays in PreRun. */
  lemma {:induction false} FailedAfterRun() returns (run: seq<Step>)
    ensures After(run).Some? && Abandoned(After(run).value) && After(run).value.job.started
  {
    run := DwsRuns.SomeJobStarts();
    DwsRuns.RunKeeps(run, false);
    TornDownIff(run);
    var w, none: multiset<Msg> := After(run).value, multiset{};
    var j, d, log := w.job, w.dws, w.dws.net.log;
    SetupReplyStep(j, d, none, log);
    assert none + multiset{SetupReply(true)} == multiset{SetupReply(true)};
    Led(run, PluginReceives(SetupReply(true)), w, Around(j, d, none, log));
    run := run + [PluginReceives(SetupReply(true))];
    JobFinishStep(j, d, none, log);
    Led(run, JobFinish, Around(j, d, none, log), Around(Finished(j), d, none, log));
    run := run + [JobFinish];
    CleanupCallStep(j, d, none, log);
    Led(run, CleanupCall, Around(Finished(j), d, none, log), Around(Waiting(j), d, none, log));
    run := run + [CleanupCall];
    var l1 := Then(log, EpilogStart(true));
    FinishCallStep(j, d, none, log);
    Led(run, FinishCall, Around(Waiting(j), d, none, log),
        Around(Held(j), d, none + multiset{PostRunRequest(true)}, l1));
    run := run + [FinishCall];
    run := PostRunFailure(run, Held(j), d, none, l1, true);
    run := TeardownFailure(run, Raise(Held(j), false), d, none, l1);
    TornDownIff(run);
  }
}
