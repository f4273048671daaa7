/** How epilogs come to an end: what a removal and what a failed end tell about the
    workflow and about the requests that were handled. */
module DwsEnding {
  import opened DwsTypes
  import opened DwsJobtap
  import opened DwsService
  import opened DwsProtocol
  import opened DwsInvariant
  import opened DwsEffects
  import DwsRuns

  predicate Ended(j: Job) { j.phase == Cleanup || j.phase == Inactive }

  /** The service has removed the epilog, or the plugin has done as it was told. */
  predicate Removed(n: Net) {
    EpilogRemove in n.msgs || Count(n.log, RemovalSent) > 0 || Count(n.log, EpilogFinish(true)) > 0
  }

  function Finished(l: Log): nat { Count(l, EpilogFinish(true)) + Count(l, EpilogFinish(false)) }

  /** The requests that a job sends when it has ended. */
  predicate Ending(m: Msg) { m.PostRunRequest? || m == TeardownRequest || m == AbortRequest }

  predicate EndingSent(n: Net) {
    || PostRunRequest(true) in n.msgs || PostRunRequest(false) in n.msgs
    || TeardownRequest in n.msgs || AbortRequest in n.msgs
  }

  /** The object is there, or still to be made, and nobody has asked for its teardown. */
  predicate Untouched(d: Dws) { (d.cluster.live || d.cluster.hist == []) && !TornDownIn(d.net.log) }

  /** Of the plugin and its messages: a job that is over has finished its epilog; and a
      removal while the object is untouched means that the job never started. */
  predicate EndInv(j: Job, n: Net, untouched: bool) {
    && (EndingSent(n) ==> Ended(j))
    && (untouched && Removed(n) ==> Ended(j) && !j.started)
    && (j.phase == Inactive ==> Finished(n.log) > 0)
  }

  predicate CleanInv(j: Job, d: Dws) {
    && EndInv(j, d.net, Untouched(d))
    && (d.cluster.pending > 0 ==> TornDownIn(d.net.log))
    && (Untouched(d) ==> Calm(d.cluster.hist))
  }

  // The plugin's steps.

  lemma {:induction false} NotHeldIsFinished(l: Log)
    requires !EpilogHeld(l) && Count(l, EpilogStart(true)) + Count(l, EpilogStart(false)) > 0
    ensures Finished(l) > 0
  {
    if !l.last.EpilogFinish? {
      NotHeldIsFinished(l.before);
    }
  }

  lemma {:induction false} RetireEnds(w: World, untouched: bool)
    requires Enabled(w, Retire) && PluginInv(w.job, w.dws.net) && EndInv(w.job, w.dws.net, untouched)
    ensures EndInv(PluginStep(w.job, w.dws.net, Retire).0, w.dws.net, untouched)
  {
    NotHeldIsFinished(w.dws.net.log);
  }

  lemma {:induction false} ExceptionEnds(j: Job, n: Net, severity: nat, abort: bool, untouched: bool)
    requires PluginInv(j, n) && EndInv(j, n, untouched)
    ensures EndInv(ExceptionCb(j, n, severity, abort).0, ExceptionCb(j, n, severity, abort).1, untouched)
  {
    if severity == 0 {
      var handled := Note(n, ExceptionHandled);
      assert EndInv(j, handled, untouched);
      assert EndInv(j, Note(Send(handled, AbortRequest), AbortSent), untouched) || !j.epilog;
    }
  }

  lemma {:induction false} TakeEnds(j: Job, n: Net, m: Msg, untouched: bool)
    requires EndInv(j, n, untouched) && m in n.msgs
    ensures EndInv(j, Take(n, m), untouched)
  {
  }

  lemma {:induction false} RemoveEnds(j: Job, n: Net, untouched: bool)
    requires EndInv(j, n, untouched) && (untouched ==> !j.started)
    ensures EndInv(EpilogRemoveCb(j, n).0, EpilogRemoveCb(j, n).1, untouched)
  {
  }

  lemma {:induction false} FailureEnds(j: Job, n: Net, success: bool, untouched: bool)
    requires EndInv(j, n, untouched)
    ensures EndInv(PostRunRpcCb(j, n, success).0, PostRunRpcCb(j, n, success).1, untouched)
  {
  }

  lemma {:induction false} PrologEnds(j: Job, n: Net, untouched: bool)
    requires EndInv(j, n, untouched)
    ensures EndInv(PrologRemoveCb(j, n).0, PrologRemoveCb(j, n).1, untouched)
  {
  }

  lemma {:induction false} ReplyEnds(j: Job, n: Net, m: Msg, untouched: bool)
    requires EndInv(j, n, untouched) && (m.SetupReply? || m.ResourceUpdate?)
    ensures EndInv(Receive(j, n, m).0, Receive(j, n, m).1, untouched)
  {
  }

  lemma {:induction false} ReceiveEnds(j: Job, n: Net, m: Msg, untouched: bool)
    requires EndInv(j, n, untouched) && m in n.msgs && !ForService(m)
    ensures EndInv(Receive(j, Take(n, m), m).0, Receive(j, Take(n, m), m).1, untouched)
  {
    TakeEnds(j, n, m, untouched);
    if m == EpilogRemove {
      RemoveEnds(j, Take(n, m), untouched);
    } else if m.PostRunReply? {
      FailureEnds(j, Take(n, m), m.success, untouched);
    } else if m == PrologRemove {
      PrologEnds(j, Take(n, m), untouched);
    } else {
      ReplyEnds(j, Take(n, m), m, untouched);
    }
  }

  lemma {:induction false} EpilogEnds(w: World, s: Step, untouched: bool)
    requires Enabled(w, s) && PluginInv(w.job, w.dws.net) && EndInv(w.job, w.dws.net, untouched)
    requires s.CleanupCall? || s.FinishCall?
    ensures EndInv(PluginStep(w.job, w.dws.net, s).0, PluginStep(w.job, w.dws.net, s).1, untouched)
  {
  }

  lemma {:induction false} EnterRunEnds(w: World, untouched: bool)
    requires Enabled(w, EnterRun) && EndInv(w.job, w.dws.net, untouched)
    ensures EndInv(PluginStep(w.job, w.dws.net, EnterRun).0, PluginStep(w.job, w.dws.net, EnterRun).1, untouched)
  {
  }

  lemma {:induction false} FetchEnds(w: World, s: Step, untouched: bool)
    requires Enabled(w, s) && s.RFetched? && EndInv(w.job, w.dws.net, untouched)
    ensures EndInv(PluginStep(w.job, w.dws.net, s).0, PluginStep(w.job, w.dws.net, s).1, untouched)
  {
  }

  lemma {:induction false} ManagerEnds(w: World, s: Step, untouched: bool)
    requires Enabled(w, s) && PluginInv(w.job, w.dws.net) && EndInv(w.job, w.dws.net, untouched)
    requires s.JobStart? || s.JobFinish? || s.Exception?
    ensures EndInv(PluginStep(w.job, w.dws.net, s).0, PluginStep(w.job, w.dws.net, s).1, untouched)
  {
  }

  lemma {:induction false} PluginEnds(w: World, s: Step, untouched: bool)
    requires Enabled(w, s) && IsPlugin(s) && PluginInv(w.job, w.dws.net) && EndInv(w.job, w.dws.net, untouched)
    ensures EndInv(PluginStep(w.job, w.dws.net, s).0, PluginStep(w.job, w.dws.net, s).1, untouched)
  {
    match s
    case Retire => RetireEnds(w, untouched);
    case ExceptionCall(severity, abort) => ExceptionEnds(w.job, w.dws.net, severity, abort, untouched);
    case PluginReceives(m) => ReceiveEnds(w.job, w.dws.net, m, untouched);
    case CleanupCall => EpilogEnds(w, s, untouched);
    case FinishCall => EpilogEnds(w, s, untouched);
    case RFetched(_) => FetchEnds(w, s, untouched);
    case EnterRun => EnterRunEnds(w, untouched);
    case _ => ManagerEnds(w, s, untouched);
  }

  lemma {:induction false} PluginKeepsClean(w: World, s: Step)
    requires Enabled(w, s) && IsPlugin(s) && Inv(w.job, w.dws, false) && CleanInv(w.job, w.dws)
    ensures CleanInv(Next(w, s).job, Next(w, s).dws)
  {
    StepExtends(w, s, Requested(Teardown));
    PluginEnds(w, s, Untouched(w.dws));
  }

  // The service's steps.

  lemma {:induction false} StartedHasWatch(j: Job, d: Dws)
    requires Inv(j, d, false) && j.started
    ensures d.cluster.hist != []
  {
    ProgressBound(d.net.log);
  }

  /** A callback that removes no epilog, or may. */
  lemma {:induction false} EffectKeepsClean(j: Job, d: Dws, d': Dws)
    requires CleanInv(j, d) && Effect(d, d')
    requires Removals(d'.net) == Removals(d.net) || d.cluster.hist != [] || (Ended(j) && !j.started)
    ensures CleanInv(j, d')
  {
    AddsKeeps(d.net.log, d'.net.log, true, EpilogFinish(true));
    AddsKeeps(d.net.log, d'.net.log, true, EpilogFinish(false));
    assert NotSent(PostRunRequest(true)) && NotSent(PostRunRequest(false));
    assert NotSent(TeardownRequest) && NotSent(AbortRequest);
    if Untouched(d') {
      assert Untouched(d);
      assert Removed(d'.net) ==> Removed(d.net) || Removals(d'.net) != Removals(d.net);
    }
  }

  lemma {:induction false} TakeKeepsClean(j: Job, d: Dws, m: Msg)
    requires CleanInv(j, d) && m in d.net.msgs
    ensures CleanInv(j, d.(net := Take(d.net, m)))
  {
  }

  lemma {:induction false} RepliedKeepsClean(j: Job, d: Dws, success: bool)
    requires CleanInv(j, d)
    ensures CleanInv(j, Sends(d, PostRunReply(success)))
  {
  }

  lemma {:induction false} EndingKeepsClean(j: Job, d: Dws, m: Msg, fault: Fault)
    requires CleanInv(j, d) && Ending(m) && Ended(j) && (j.started ==> d.cluster.hist != [])
    ensures CleanInv(j, Handle(d, m, fault))
  {
    if m.PostRunRequest? {
      PostRunEffect(d, m.runStarted, fault);
      EffectKeepsClean(j, d, PostRunWork(d, m.runStarted, fault));
      RepliedKeepsClean(j, PostRunWork(d, m.runStarted, fault), !PostRunFails(d, m.runStarted, fault));
    } else {
      HandleEffect(d, m, fault);
      EffectKeepsClean(j, d, Handle(d, m, fault));
    }
  }

  lemma {:induction false} CreateKeepsClean(j: Job, d: Dws, fault: Fault)
    requires CleanInv(j, d) && d.cluster.hist == []
    ensures CleanInv(j, CreateCb(d, fault))
  {
  }

  lemma {:induction false} HandleKeepsClean(w: World, m: Msg, fault: Fault)
    requires m in w.dws.net.msgs && ForService(m) && Inv(w.job, w.dws, false) && CleanInv(w.job, w.dws)
    ensures CleanInv(w.job, Handle(w.dws.(net := Take(w.dws.net, m)), m, fault))
  {
    var j, d := w.job, w.dws.(net := Take(w.dws.net, m));
    TakeKeepsClean(j, w.dws, m);
    if m == CreateRequest {
      CreateKeepsClean(j, d, fault);
    } else if m == SetupRequest {
      SetupEffect(d, fault);
      EffectKeepsClean(j, d, SetupCb(d, fault));
    } else {
      if j.started { StartedHasWatch(j, w.dws); }
      assert EndingSent(w.dws.net);
      EndingKeepsClean(j, d, m, fault);
    }
  }

  lemma {:induction false} ClusterKeepsClean(w: World, s: Step)
    requires Enabled(w, s) && Inv(w.job, w.dws, false) && CleanInv(w.job, w.dws)
    requires s.TeardownPatched? || s.ControllerReports? || s.WorkflowDeleted?
    ensures CleanInv(w.job, Next(w, s).dws)
  {
    var c := w.dws.cluster;
    assert c.live ==> c.hist[|c.hist| - 1].Snapshot?;
  }

  lemma {:induction false} StepKeepsClean(w: World, s: Step)
    requires Enabled(w, s) && Inv(w.job, w.dws, false) && CleanInv(w.job, w.dws)
    ensures CleanInv(Next(w, s).job, Next(w, s).dws)
  {
    if IsPlugin(s) {
      PluginKeepsClean(w, s);
    } else if s.ServiceHandles? {
      HandleKeepsClean(w, s.request, s.fault);
    } else if s.Delivered? {
      DeliverEffect(w.dws, s.index, s.fit, s.fault);
      EffectKeepsClean(w.job, w.dws, Next(w, s).dws);
    } else if s.TimerFires? {
      CheckExistenceEffect(w.dws);
      EffectKeepsClean(w.job, w.dws, Next(w, s).dws);
    } else {
      ClusterKeepsClean(w, s);
    }
  }

  lemma {:induction false} RunIsClean(run: seq<Step>)
    requires After(run).Some?
    ensures CleanInv(After(run).value.job, After(run).value.dws)
  {
    if run != [] {
      var front := run[..|run| - 1];
      RunIsClean(front);
      DwsRuns.RunKeeps(front, false);
      StepKeepsClean(After(front).value, run[|run| - 1]);
    }
  }

  /** In every run, while the workflow is there and nobody has asked for its teardown, the
      epilog of a job that started has not been removed. */
  lemma {:induction false} StartedIsNotRemoved(run: seq<Step>)
    requires After(run).Some?
    ensures var w := After(run).value;
            w.dws.cluster.live && !TornDownIn(w.dws.net.log) && w.job.started ==> !Removed(w.dws.net)
  {
    RunIsClean(run);
  }

  // Failed ends.

  /** Failed ends of the epilog, made or to come, that no abort stands for. */
  function Debt(n: Net): int {
    n.msgs[PostRunReply(false)] + Count(n.log, EpilogFinish(false)) - Count(n.log, AbortSent)
  }

  predicate FailsPostRun(w: World, s: Step) {
    && s.ServiceHandles? && s.request.PostRunRequest?
    && PostRunFails(w.dws, s.request.runStarted, s.fault)
  }

  lemma {:induction false} ExceptionOwes(j: Job, n: Net, severity: nat, abort: bool)
    ensures Debt(ExceptionCb(j, n, severity, abort).1) == Debt(n)
  {
    var handled := Note(n, ExceptionHandled);
    assert Debt(handled) == Debt(n);
    assert Debt(Note(Send(handled, AbortRequest), AbortSent)) == Debt(n) - 1;
  }

  lemma {:induction false} ReceiveOwes(j: Job, n: Net, m: Msg)
    requires m in n.msgs && !ForService(m)
    ensures Debt(Receive(j, Take(n, m), m).1) <= Debt(n)
  {
    assert Debt(Take(n, m)) == Debt(n) - if m == PostRunReply(false) then 1 else 0;
  }

  lemma {:induction false} PluginOwes(w: World, s: Step)
    requires Enabled(w, s) && IsPlugin(s)
    ensures Debt(Next(w, s).dws.net) <= Debt(w.dws.net)
  {
    if s.ExceptionCall? {
      ExceptionOwes(w.job, w.dws.net, s.severity, s.abort);
    } else if s.PluginReceives? {
      ReceiveOwes(w.job, w.dws.net, s.reply);
    }
  }

  lemma {:induction false} EffectOwes(d: Dws, d': Dws)
    requires Effect(d, d')
    ensures Debt(d'.net) == Debt(d.net)
  {
    AddsKeeps(d.net.log, d'.net.log, true, EpilogFinish(false));
    AddsKeeps(d.net.log, d'.net.log, true, AbortSent);
    assert NotSent(PostRunReply(false));
  }

  lemma {:induction false} HandleOwes(d: Dws, m: Msg, fault: Fault)
    requires ForService(m)
    ensures Debt(Handle(d, m, fault).net) ==
            Debt(d.net) + if m.PostRunRequest? && PostRunFails(d, m.runStarted, fault) then 1 else 0
  {
    if m.PostRunRequest? {
      PostRunEffect(d, m.runStarted, fault);
      EffectOwes(d, PostRunWork(d, m.runStarted, fault));
    } else if m != CreateRequest {
      HandleEffect(d, m, fault);
      EffectOwes(d, Handle(d, m, fault));
    }
  }

  lemma {:induction false} StepOwes(w: World, s: Step)
    requires Enabled(w, s)
    ensures Debt(Next(w, s).dws.net) <= Debt(w.dws.net) + if FailsPostRun(w, s) then 1 else 0
  {
    if IsPlugin(s) {
      PluginOwes(w, s);
    } else if s.ServiceHandles? {
      HandleOwes(w.dws.(net := Take(w.dws.net, s.request)), s.request, s.fault);
    } else if s.Delivered? {
      DeliverEffect(w.dws, s.index, s.fit, s.fault);
      EffectOwes(w.dws, Next(w, s).dws);
    } else if s.TimerFires? {
      CheckExistenceEffect(w.dws);
      EffectOwes(w.dws, Next(w, s).dws);
    }
  }

  /** Step k of the run handles a dws.post_run that fails. */
  ghost predicate FailsAt(run: seq<Step>, k: nat) {
    && k < |run| && After(run[..k]).Some?
    && Enabled(After(run[..k]).value, run[k]) && FailsPostRun(After(run[..k]).value, run[k])
  }

  /** An epilog that ended in failure, and not in an abort, had a dws.post_run that failed. */
  lemma {:induction false} DebtHasCause(run: seq<Step>) returns (k: nat)
    requires After(run).Some? && Debt(After(run).value.dws.net) > 0
    ensures FailsAt(run, k)
  {
    var front, last := run[..|run| - 1], run[|run| - 1];
    StepOwes(After(front).value, last);
    if FailsPostRun(After(front).value, last) {
      k := |front|;
    } else {
      k := DebtHasCause(front);
      assert front[..k] == run[..k];
    }
  }
}
