/** A job that runs beside its workflow can always be brought to its end. */
module DwsCompletion {
  import opened Wrappers
  import opened DwsTypes
  import opened DwsJobtap
  import opened DwsService
  import opened DwsProtocol
  import opened DwsInvariant
  import opened DwsAnswers
  import DwsEffects
  import DwsEnding
  import DwsRemoval
  import DwsRuns

  // An abort comes from a job that has ended.

  lemma {:induction false} EndedStays(w: World, s: Step)
    requires Enabled(w, s) && DwsEnding.Ended(w.job)
    ensures DwsEnding.Ended(Next(w, s).job)
  {
    if s.PluginReceives? {
      ReceiptStays(w.job, Take(w.dws.net, s.reply), s.reply);
    }
  }

  lemma {:induction false} ReceiptStays(j: Job, n: Net, m: Msg)
    requires DwsEnding.Ended(j)
    ensures DwsEnding.Ended(Receive(j, n, m).0)
  {
  }

  lemma {:induction false} AbortStep(w: World, s: Step)
    requires Enabled(w, s) && JobShape(w.job) && !DwsEnding.Ended(w.job)
    ensures Count(Next(w, s).dws.net.log, AbortSent) == Count(w.dws.net.log, AbortSent)
  {
    if s.PluginReceives? {
      ReceiptSendsNoAbort(w.job, Take(w.dws.net, s.reply), s.reply);
    } else if !IsPlugin(s) {
      DwsEffects.StepAdds(w, s);
      DwsEffects.AddsKeeps(w.dws.net.log, Next(w, s).dws.net.log, true, AbortSent);
    }
  }

  lemma {:induction false} ReceiptSendsNoAbort(j: Job, n: Net, m: Msg)
    ensures Count(Receive(j, n, m).1.log, AbortSent) == Count(n.log, AbortSent)
  {
  }

  lemma {:induction false} AbortIsOfEnded(run: seq<Step>)
    requires After(run).Some? && Count(After(run).value.dws.net.log, AbortSent) > 0
    ensures DwsEnding.Ended(After(run).value.job)
  {
    var front, last := run[..|run| - 1], run[|run| - 1];
    DwsRuns.RunKeeps(front, false);
    if DwsEnding.Ended(After(front).value.job) {
      EndedStays(After(front).value, last);
    } else {
      AbortStep(After(front).value, last);
      AbortIsOfEnded(front);
    }
  }

  // The way to the end.

  /** DWS reports the desired state ready. */
  lemma {:induction false} Ready(run: seq<Step>) returns (run': seq<Step>, i: nat)
    requires After(run).Some? && After(run).value.dws.cluster.live
    ensures run' == run + [ControllerReports(Some(After(run).value.dws.cluster.desired), true)]
    ensures var World(j, Dws(cache, armed, c, n)) := After(run).value;
            var s := Snapshot(c.desired, Some(c.desired), true);
            && i == |c.hist| && After(run') ==
               Some(World(j, Dws(cache, armed, c.(state := Some(c.desired), ready := true, hist := c.hist + [s]), n)))
    ensures Delivers(After(run').value, i)
    ensures StateComplete(After(run').value.dws.cluster.hist[i], After(run).value.dws.cluster.desired)
  {
    var x := After(run).value.dws.cluster.desired;
    i := |After(run).value.dws.cluster.hist|;
    DwsRuns.RunKeeps(run, false);
    DwsRuns.Onward(run, ControllerReports(Some(x), true));
    run' := run + [ControllerReports(Some(x), true)];
  }

  /** The job runs beside a workflow that nobody has torn down. */
  predicate Running(w: World) {
    w.job.started && w.job.phase == Run && w.dws.cluster.live && Open(w.dws)
  }

  /** It has come to its end well, and its epilog waits. */
  predicate Waiting(j: Job) {
    j.phase == Cleanup && !j.cleanupPending && j.finishHandled && j.prolog == Some(false) && j.started && !j.fatal
  }

  /** Its workflow has been asked for x. */
  predicate Asked(w: World, x: WState, torndown: bool) {
    && Waiting(w.job) && w.dws.cluster.live && w.dws.cluster.desired == x
    && w.dws.cache == Some(Info(torndown, false, false))
  }

  /** The job finishes, and its job.state.cleanup is called. */
  lemma {:induction false} Finishes(run: seq<Step>) returns (run': seq<Step>)
    requires After(run).Some? && Running(After(run).value)
    ensures run <= run' && After(run').Some?
    ensures var (w, w') := (After(run).value, After(run').value);
            && w'.job == w.job.(phase := Cleanup, finished := true, cleanupPending := false)
            && w'.dws == w.dws && !w.job.epilog && !w.job.fatal && w.job.prolog == Some(false)
  {
    DwsRuns.RunKeeps(run, false);
    DwsRuns.Onward(run, JobFinish);
    run' := run + [JobFinish];
    CleanupStartsEpilog(After(run').value);
    DwsRuns.Onward(run', CleanupCall);
    run' := run' + [CleanupCall];
  }

  /** The epilog is started and dws.post_run sent. */
  lemma {:induction false} StartsEpilog(run: seq<Step>) returns (run': seq<Step>)
    requires After(run).Some? && Running(After(run).value)
    ensures run <= run' && After(run').Some?
    ensures var (w, w') := (After(run).value, After(run').value);
            && Waiting(w'.job) && w'.dws.cluster == w.dws.cluster && w'.dws.cache == w.dws.cache
            && PostRunRequest(true) in w'.dws.net.msgs
  {
    run' := Finishes(run);
    FinishStartsEpilog(After(run').value);
    DwsRuns.Onward(run', FinishCall);
    run' := run' + [FinishCall];
  }

  /** No abort was handled while the job ran. */
  lemma {:induction false} NotAborted(run: seq<Step>)
    requires After(run).Some? && Running(After(run).value)
    ensures !InfoOf(After(run).value.dws).epilogRemoved
  {
    DwsRemoval.DeletionFollowsRemoval(run);
    if InfoOf(After(run).value.dws).epilogRemoved { AbortIsOfEnded(run); }
  }

  lemma {:induction false} AsksForPostRun(run: seq<Step>) returns (run': seq<Step>)
    requires After(run).Some? && Running(After(run).value)
    ensures run <= run' && After(run').Some? && Asked(After(run').value, PostRun, false)
  {
    NotAborted(run);
    run' := StartsEpilog(run);
    PostRunIsAnswered(After(run').value, NoFault);
    DwsRuns.Onward(run', ServiceHandles(PostRunRequest(true), NoFault));
    run' := run' + [ServiceHandles(PostRunRequest(true), NoFault)];
  }

  lemma {:induction false} AsksForDataOut(run: seq<Step>) returns (run': seq<Step>)
    requires After(run).Some? && Asked(After(run).value, PostRun, false)
    ensures run <= run' && After(run').Some? && Asked(After(run').value, DataOut, false)
  {
    var i;
    run', i := Ready(run);
    ReadyIsFollowed(After(run').value, i, Fits);
    DwsRuns.Onward(run', Delivered(i, Fits, NoFault));
    run' := run' + [Delivered(i, Fits, NoFault)];
  }

  lemma {:induction false} AsksForTeardown(run: seq<Step>) returns (run': seq<Step>)
    requires After(run).Some? && Asked(After(run).value, DataOut, false)
    ensures run <= run' && After(run').Some? && Asked(After(run').value, Teardown, true)
  {
    var i;
    run', i := Ready(run);
    DataOutIsAnswered(After(run').value, i, Fits);
    DwsRuns.Onward(run', Delivered(i, Fits, NoFault));
    run' := run' + [Delivered(i, Fits, NoFault)];
    DwsRuns.Onward(run', TeardownPatched);
    run' := run' + [TeardownPatched];
  }

  /** What the end should look like: the epilog is removed with success, the workflow torn
      down and given up, and nothing went wrong. */
  predicate EndedWell(w: World) {
    && w.job.phase == Inactive && w.job.started && !w.job.fatal
    && w.dws.cluster.desired == Teardown && w.dws.cache == Some(Info(true, true, false))
    && w.dws.net.log.Then? && w.dws.net.log.last == EpilogFinish(true)
    && w.dws.net.log.before.Then? && w.dws.net.log.before.last == RemovalSent
  }

  lemma {:induction false} Completes(run: seq<Step>) returns (run': seq<Step>)
    requires After(run).Some? && Asked(After(run).value, Teardown, true)
    ensures run <= run' && After(run').Some? && EndedWell(After(run').value)
  {
    var i;
    run', i := Ready(run);
    TeardownIsAnswered(After(run').value, i, Fits);
    DwsRuns.Onward(run', Delivered(i, Fits, NoFault));
    run' := run' + [Delivered(i, Fits, NoFault)];
    assert EpilogRemove in After(run').value.dws.net.msgs;
    EpilogIsRemoved(After(run').value);
    DwsRuns.Onward(run', PluginReceives(EpilogRemove));
    run' := run' + [PluginReceives(EpilogRemove)];
    DwsRuns.Onward(run', Retire);
    run' := run' + [Retire];
  }

  /** From every reachable world in which a job runs beside a workflow that nobody has torn
      down, the job can be brought to its end with its data staged out, whatever messages
      are on their way. */
  lemma {:induction false} JobCanEnd(run: seq<Step>) returns (more: seq<Step>)
    requires After(run).Some? && Running(After(run).value)
    ensures run <= more && After(more).Some? && EndedWell(After(more).value)
  {
    more := AsksForPostRun(run);
    more := AsksForDataOut(more);
    more := AsksForTeardown(more);
    more := Completes(more);
  }
}
