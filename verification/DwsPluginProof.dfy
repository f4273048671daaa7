/** Every step of the job manager and of the plugin keeps the invariant. */
module DwsPluginProof {
  import opened Wrappers
  import opened DwsTypes
  import opened DwsJobtap
  import opened DwsProtocol
  import opened DwsInvariant

  lemma {:induction false} RaiseNet(j: Job, n: Net, abort: bool)
    requires NetInv(j, n)
    ensures NetStep(n, Raise(j, abort), n)
  {
  }

  lemma {:induction false} PrologSuccessNet(j: Job, n: Net)
    requires NetInv(j, n) && j.prolog == Some(true) && Progress(n.log) == 6
    ensures NetStep(n, j.(prolog := Some(false)), Note(n, PrologFinish(true)))
  {
    QuietNote(n.log, PrologFinish(true));
  }

  lemma {:induction false} PrologFinishNet(j: Job, n: Net, success: bool)
    requires NetInv(j, n) && j.prolog.Some? && (success ==> Progress(n.log) == 6)
    ensures NetStep(n, PrologFinishOf(j, n, success).0, PrologFinishOf(j, n, success).1)
  {
    if j.prolog.value && !success {
      RaiseNet(j, n, false);
    } else if j.prolog.value {
      PrologSuccessNet(j, n);
    }
  }

  lemma {:induction false} RunNet(j: Job, n: Net)
    requires NetInv(j, n) && j.phase == Sched
    ensures NetStep(n, RunCb(j.(phase := Run), n).0, RunCb(j.(phase := Run), n).1)
  {
    QuietNote(n.log, PrologStart);
    ProgressGrows(n.log, PrologStart);
  }

  lemma {:induction false} FetchedNet(j: Job, n: Net)
    requires NetInv(j, n) && j.fetching
    ensures NetStep(n, j.(fetching := false), n)
    ensures NetStep(n, j.(fetching := false), Send(n, SetupRequest))
  {
  }

  lemma {:induction false} FetchRNet(j: Job, n: Net, ok: bool)
    requires NetInv(j, n) && j.fetching
    ensures NetStep(n, FetchR(j, n, ok).0, FetchR(j, n, ok).1)
  {
    var j' := j.(fetching := false);
    FetchedNet(j, n);
    if !ok && j'.prolog.Some? {
      PrologFinishNet(j', n, false);
    }
  }

  lemma {:induction false} FinishEpilogNet(j: Job, n: Net)
    requires NetInv(j, n) && !j.epilog && j.phase == Cleanup && j.finished && !j.finishHandled
    ensures var j' := j.(finishHandled := true);
            NetStep(n, StartEpilog(j', n, true).0, StartEpilog(j', n, true).1)
  {
    QuietNote(n.log, EpilogStart(true));
  }

  lemma {:induction false} CleanupEpilogNet(j: Job, n: Net)
    requires NetInv(j, n) && !j.epilog && j.phase == Cleanup && !j.started && j.cleanupPending
    ensures var j' := j.(cleanupPending := false);
            NetStep(n, StartEpilog(j', n, false).0, StartEpilog(j', n, false).1)
  {
    QuietNote(n.log, EpilogStart(false));
  }

  lemma {:induction false} CleanupNet(j: Job, n: Net)
    requires NetInv(j, n) && j.cleanupPending
    ensures NetStep(n, CleanupCb(j, n).0, CleanupCb(j, n).1)
  {
    if !j.started {
      CleanupEpilogNet(j, n);
    }
  }

  lemma {:induction false} FinishNet(j: Job, n: Net)
    requires NetInv(j, n) && j.finished && j.phase != Inactive
    ensures NetStep(n, FinishCb(j, n).0, FinishCb(j, n).1)
  {
    if j.epilog {
      assert j.(finishHandled := true) == j;
    } else {
      FinishEpilogNet(j, n);
    }
  }

  lemma {:induction false} ExceptionEndsProlog(j: Job, n: Net)
    requires NetInv(j, n) && j.fatal && j.prolog == Some(true)
    ensures NetStep(n, j.(prolog := Some(false)), Note(Note(n, ExceptionHandled), PrologFinish(false)))
  {
    var n' := Note(n, ExceptionHandled);
    QuietNote(n.log, ExceptionHandled);
    QuietNote(n'.log, PrologFinish(false));
    assert Finishes(n'.log) == Finishes(n.log) == 0;
    assert EpilogInv(j, n'.log);
  }

  lemma {:induction false} HandledNet(j: Job, n: Net)
    requires NetInv(j, n) && j.fatal && j.prolog != Some(true)
    ensures NetStep(n, j, Note(n, ExceptionHandled))
  {
    QuietNote(n.log, ExceptionHandled);
  }

  lemma {:induction false} AbortNet(j: Job, n: Net)
    requires NetInv(j, n)
    ensures NetStep(n, j, Note(Note(Send(n, AbortRequest), AbortSent), EpilogFinish(false)))
  {
    var n1 := Send(n, AbortRequest);
    var n2 := Note(n1, AbortSent);
    NetSend(j, n, AbortRequest);
    NeutralNote(j, n1, AbortSent);
    NetStepsAdd(n, j, n1, j, n2);
    NeutralNote(j, n2, EpilogFinish(false));
    NetStepsAdd(n, j, n2, j, Note(n2, EpilogFinish(false)));
  }

  lemma {:induction false} ExceptionNet(j: Job, n: Net, severity: nat, abort: bool)
    requires NetInv(j, n) && j.phase != Inactive && (severity == 0 ==> j.fatal)
    ensures NetStep(n, ExceptionCb(j, n, severity, abort).0, ExceptionCb(j, n, severity, abort).1)
  {
    if severity == 0 {
      if j.prolog == Some(true) {
        ExceptionEndsProlog(j, n);
      } else {
        var n' := Note(n, ExceptionHandled);
        HandledNet(j, n);
        if j.epilog {
          AbortNet(j, n');
          NetSend(j, n', TeardownRequest);
          NetStepsAdd(n, j, n', j, ExceptionCb(j, n, severity, abort).1);
        }
      }
    }
  }

  /** Progress, and hence any prolog-remove message, means that the prolog began. */
  lemma {:induction false} ProgressMeansProlog(j: Job, n: Net)
    requires PluginInv(j, n) && Progress(n.log) >= 1
    ensures j.prolog.Some? || j.phase == Inactive
  {
    ProgressBound(n.log);
  }

  lemma {:induction false} PrologRemoveNet(j: Job, n: Net)
    requires NetInv(j, n) && Progress(n.log) == 6
    ensures NetStep(n, PrologRemoveCb(j, n).0, PrologRemoveCb(j, n).1)
  {
    if j.phase != Inactive {
      ProgressMeansProlog(j, n);
      PrologFinishNet(j, n, true);
    }
  }

  lemma {:induction false} PostRunReplyNet(j: Job, n: Net, success: bool)
    requires NetInv(j, n)
    ensures NetStep(n, PostRunRpcCb(j, n, success).0, PostRunRpcCb(j, n, success).1)
  {
    var j' := Raise(j, false);
    RaiseNet(j, n, false);
    NeutralNote(j', n, EpilogFinish(false));
  }

  lemma {:induction false} ResourceUpdateNet(j: Job, n: Net, failed: bool)
    requires NetInv(j, n)
    ensures NetStep(n, ResourceUpdateCb(j, n, failed).0, ResourceUpdateCb(j, n, failed).1)
  {
    if failed {
      RaiseNet(j, n, false);
    }
  }

  lemma {:induction false} ReceiveNet(j: Job, n: Net, m: Msg)
    requires NetInv(j, n) && !ForService(m) && (m == PrologRemove ==> Progress(n.log) == 6)
    ensures NetStep(n, Receive(j, n, m).0, Receive(j, n, m).1)
  {
    match m
    case SetupReply(success) =>
      if j.prolog.Some? {
        PrologFinishNet(j, n, false);
      }
    case PostRunReply(success) => PostRunReplyNet(j, n, success);
    case ResourceUpdate(failed) => ResourceUpdateNet(j, n, failed);
    case PrologRemove => PrologRemoveNet(j, n);
    case EpilogRemove => NeutralNote(j, n, EpilogFinish(true));
  }

  lemma {:induction false} ReceivesNet(j: Job, n: Net, m: Msg)
    requires NetInv(j, n) && m in n.msgs && !ForService(m)
    ensures NetStep(n, Receive(j, Take(n, m), m).0, Receive(j, Take(n, m), m).1)
  {
    NetTake(j, n, m);
    ReceiveNet(j, Take(n, m), m);
    NetStepsAdd(n, j, Take(n, m), Receive(j, Take(n, m), m).0, Receive(j, Take(n, m), m).1);
  }

  /** The steps of the job manager. */
  lemma {:induction false} ManagerNet(w: World, s: Step)
    requires Enabled(w, s) && NetInv(w.job, w.dws.net)
    requires s.JobStart? || s.JobFinish? || s.Retire?
    ensures NetStep(w.dws.net, PluginStep(w.job, w.dws.net, s).0, w.dws.net)
  {
  }

  lemma {:induction false} PluginStepNet(w: World, s: Step)
    requires Enabled(w, s) && IsPlugin(s) && NetInv(w.job, w.dws.net)
    ensures NetStep(w.dws.net, PluginStep(w.job, w.dws.net, s).0, PluginStep(w.job, w.dws.net, s).1)
  {
    var j, n := w.job, w.dws.net;
    match s
    case EnterRun => RunNet(j, n);
    case JobStart => ManagerNet(w, s);
    case JobFinish => ManagerNet(w, s);
    case Retire => ManagerNet(w, s);
    case Exception(abort) => RaiseNet(j, n, abort);
    case CleanupCall => CleanupNet(j, n);
    case FinishCall => FinishNet(j, n);
    case ExceptionCall(severity, abort) => ExceptionNet(j, n, severity, abort);
    case RFetched(ok) => FetchRNet(j, n, ok);
    case PluginReceives(m) => ReceivesNet(j, n, m);
  }

  lemma {:induction false} PluginStepKeeps(w: World, s: Step, ordered: bool)
    requires Enabled(w, s) && IsPlugin(s) && Inv(w.job, w.dws, ordered)
    ensures Inv(Next(w, s).job, Next(w, s).dws, ordered)
  {
    PluginStepNet(w, s);
    var (j, n) := PluginStep(w.job, w.dws.net, s);
    NetStepKeeps(w.job, j, w.dws, n, ordered);
  }
}
