/** What every run of the DWS protocol keeps to. */
module DwsRuns {
  import opened Wrappers
  import opened DwsTypes
  import opened DwsJobtap
  import opened DwsService
  import opened DwsProtocol
  import opened DwsInvariant
  import DwsEffects
  import DwsServiceProof
  import DwsPluginProof

  /** Whenever dws.setup was acted on, no teardown had been asked for. */
  predicate SetupBeforeTeardown(run: seq<Step>)
    requires After(run).Some?
  {
    run != [] ==>
      var front, last := run[..|run| - 1], run[|run| - 1];
      SetupBeforeTeardown(front) && DwsServiceProof.SetupInTime(After(front).value, last)
  }

  lemma {:induction false} StepKeeps(w: World, s: Step, ordered: bool)
    requires Enabled(w, s) && Inv(w.job, w.dws, ordered)
    requires ordered ==> DwsServiceProof.SetupInTime(w, s)
    ensures Inv(Next(w, s).job, Next(w, s).dws, ordered)
  {
    if IsPlugin(s) {
      DwsPluginProof.PluginStepKeeps(w, s, ordered);
    } else {
      DwsServiceProof.ServiceStepKeeps(w, s, ordered);
    }
  }

  lemma {:induction false} RunKeeps(run: seq<Step>, ordered: bool)
    requires After(run).Some? && (ordered ==> SetupBeforeTeardown(run))
    ensures Inv(After(run).value.job, After(run).value.dws, ordered)
  {
    if run == [] {
      assert Progress(Empty) == 0 && Finishes(Empty) == 0;
    } else {
      var front, last := run[..|run| - 1], run[|run| - 1];
      RunKeeps(front, ordered);
      StepKeeps(After(front).value, last, ordered);
    }
  }

  // Requests never go backward.

  /** The step acts on dws.setup: the request reaches the object. */
  predicate SetsUp(w: World, s: Step) {
    s.ServiceHandles? && s.request == SetupRequest && s.fault != Early && w.dws.cluster.live
  }

  lemma {:induction false} SettingUp(w: World, s: Step)
    requires Enabled(w, s) && SetsUp(w, s)
    ensures var d, d' := w.dws, Next(w, s).dws;
            && d'.net.log == Then(d.net.log, Requested(Setup)) && InfoOf(d') == InfoOf(d)
            && d'.cluster == Changed(d.cluster.(desired := Setup))
  {
  }

  lemma {:induction false} SetupIsBehindTeardown(l: Log)
    requires TornDownIn(l)
    ensures !Monotone(Then(l, Requested(Setup)))
  {
    HighestBound(l);
  }

  /** dws.setup acted on too late asks for a state behind Teardown. */
  lemma {:induction false} LateSetupGoesBack(w: World, s: Step)
    requires Enabled(w, s) && StreamInv(w.dws) && !DwsServiceProof.SetupInTime(w, s)
    ensures !Monotone(Next(w, s).dws.net.log)
  {
    SettingUp(w, s);
    SetupIsBehindTeardown(w.dws.net.log);
  }

  /** In every run, the requested states never go backward if and only if dws.setup
      is never acted on after a teardown has been asked for. */
  lemma {:induction false} MonotoneIffSetupBeforeTeardown(run: seq<Step>)
    requires After(run).Some?
    ensures Monotone(After(run).value.dws.net.log) <==> SetupBeforeTeardown(run)
  {
    if SetupBeforeTeardown(run) {
      RunKeeps(run, true);
    } else {
      var front, last := run[..|run| - 1], run[|run| - 1];
      var w := After(front).value;
      if SetupBeforeTeardown(front) {
        RunKeeps(front, false);
        LateSetupGoesBack(w, last);
      } else {
        MonotoneIffSetupBeforeTeardown(front);
        DwsEffects.StepExtends(w, last, PrologStart);
      }
    }
  }

  function Events(l: Log): seq<Event> { if l.Empty? then [] else Events(l.before) + [l.last] }

  /** No request is followed by one for an earlier state. */
  predicate RequestsRise(es: seq<Event>) {
    forall i, k :: 0 <= i < k < |es| && es[i].Requested? && es[k].Requested? ==> Rank(es[i].state) <= Rank(es[k].state)
  }

  lemma {:induction false} HighestMeans(l: Log, r: nat)
    ensures Highest(l) <= r <==>
            forall i :: 0 <= i < |Events(l)| && Events(l)[i].Requested? ==> Rank(Events(l)[i].state) <= r
  {
    if l.Then? {
      HighestMeans(l.before, r);
      var es := Events(l);
      assert es[|es| - 1] == l.last && es[..|es| - 1] == Events(l.before);
      forall i | 0 <= i < |es| - 1 ensures es[i] == Events(l.before)[i] {
      }
      assert l.last.Requested? && Rank(l.last.state) > r ==> Rank(es[|es| - 1].state) > r;
    }
  }

  /** Monotone says what it seems to say. */
  lemma {:induction false} MonotoneMeans(l: Log)
    ensures Monotone(l) <==> RequestsRise(Events(l))
  {
    if l.Then? {
      MonotoneMeans(l.before);
      var es, front := Events(l), Events(l.before);
      assert es == front + [l.last];
      if l.last.Requested? {
        HighestMeans(l.before, Rank(l.last.state));
      }
      if Monotone(l) {
        forall i, k | 0 <= i < k < |es| && es[i].Requested? && es[k].Requested?
          ensures Rank(es[i].state) <= Rank(es[k].state)
        {
          assert es[i] == front[i];
        }
      }
      if RequestsRise(es) {
        assert RequestsRise(front) by {
          forall i, k | 0 <= i < k < |front| && front[i].Requested? && front[k].Requested?
            ensures Rank(front[i].state) <= Rank(front[k].state)
          {
            assert es[i] == front[i] && es[k] == front[k];
          }
        }
        if l.last.Requested? {
          forall i | 0 <= i < |front| && front[i].Requested? ensures Rank(front[i].state) <= Rank(l.last.state) {
            assert es[i] == front[i] && es[|front|] == l.last;
          }
        }
      }
    }
  }

  // The prolog succeeds only over a mounted file system.

  /** The first p milestones stand in the log in order, at these places. */
  predicate Stands(es: seq<Event>, at: seq<nat>, p: nat) {
    && |at| == p <= 6
    && (forall q :: 0 <= q < p ==> at[q] < |es| && es[at[q]] == Milestone(q))
    && (forall q, r :: 0 <= q < r < p ==> at[q] < at[r])
  }

  lemma {:induction false} StandsInMore(es: seq<Event>, e: Event, at: seq<nat>, p: nat)
    requires Stands(es, at, p)
    ensures Stands(es + [e], at, p)
    ensures p < 6 && e == Milestone(p) ==> Stands(es + [e], at + [|es|], p + 1)
  {
    var more := es + [e];
    assert more[|es|] == e;
    forall q | 0 <= q < p ensures at[q] < |more| && more[at[q]] == Milestone(q) { assert more[at[q]] == es[at[q]]; }
  }

  lemma {:induction false} ProgressMeans(l: Log) returns (at: seq<nat>)
    ensures Stands(Events(l), at, Progress(l))
  {
    if l.Empty? {
      at := [];
    } else {
      at := ProgressMeans(l.before);
      StandsInMore(Events(l.before), l.last, at, Progress(l.before));
      at := if Progress(l) > Progress(l.before) then at + [|Events(l.before)|] else at;
    }
  }

  lemma {:induction false} EarnedMeans(l: Log, k: nat) returns (at: seq<nat>)
    requires Earned(l) && k < |Events(l)| && Events(l)[k] == PrologFinish(true)
    ensures Stands(Events(l)[..k], at, 6)
  {
    if k == |Events(l)| - 1 {
      at := ProgressMeans(l.before);
      assert Events(l)[..k] == Events(l.before);
    } else {
      at := EarnedMeans(l.before, k);
      assert Events(l)[..k] == Events(l.before)[..k];
    }
  }

  /** In every run, a successful end of the prolog comes after the service has asked
      for Setup and seen it ready, then DataIn, then PreRun. */
  lemma {:induction false} PrologSuccessIsEarned(run: seq<Step>, k: nat) returns (at: seq<nat>)
    requires After(run).Some?
    requires k < |Events(After(run).value.dws.net.log)|
    requires Events(After(run).value.dws.net.log)[k] == PrologFinish(true)
    ensures Stands(Events(After(run).value.dws.net.log)[..k], at, 6)
  {
    RunKeeps(run, false);
    at := EarnedMeans(After(run).value.dws.net.log, k);
  }

  /** In every run, the prolog is finished at most once, and no handled exception
      leaves it active. */
  lemma {:induction false} PrologFinishedOnce(run: seq<Step>)
    requires After(run).Some?
    ensures Finishes(After(run).value.dws.net.log) <= 1
    ensures Count(After(run).value.dws.net.log, ExceptionHandled) > 0 ==> After(run).value.job.prolog != Some(true)
  {
    RunKeeps(run, false);
  }

  /** A job starts only once its prolog has been finished with success. */
  lemma {:induction false} StartFollowsProlog(run: seq<Step>)
    requires After(run).Some? && After(run).value.job.started
    ensures Count(After(run).value.dws.net.log, PrologFinish(true)) == 1
    ensures Count(After(run).value.dws.net.log, PrologFinish(false)) == 0
  {
    RunKeeps(run, false);
  }

  /** In every run, the epilog is never started for the wrong kind of job, and it
      has been started exactly once as soon as the callback that is due for the job,
      finish if there was a start event and cleanup otherwise, has been called,
      however often. */
  lemma {:induction false} EpilogStartedOnce(run: seq<Step>)
    requires After(run).Some?
    ensures var j, l := After(run).value.job, After(run).value.dws.net.log;
            && Count(l, EpilogStart(!j.started)) == 0
            && Count(l, EpilogStart(j.started)) == if (if j.started then j.finishHandled else Cleaned(j)) then 1 else 0
  {
    RunKeeps(run, false);
  }

  // A run that goes backward.

  lemma {:induction false} Onward(run: seq<Step>, s: Step)
    requires After(run).Some? && Enabled(After(run).value, s)
    ensures After(run + [s]) == Some(Next(After(run).value, s))
  {
  }

  /** The workflow has been proposed and the job may be scheduled. */
  lemma {:induction false} RunProposed() returns (run: seq<Step>)
    ensures After(run).Some?
    ensures var w := After(run).value;
            && w.job == NEW_JOB
            && w.dws.cluster.live && w.dws.cluster.desired == Proposal && w.dws.cluster.pending == 0
            && w.dws.cluster.cursor <= |w.dws.cluster.hist|
            && w.dws.cache == Some(NEW_INFO)
            && w.dws.net.msgs == multiset{ResourceUpdate(false)}
  {
    var create, propose := ServiceHandles(CreateRequest, NoFault), ControllerReports(Some(Proposal), true);
    run := [];
    Onward(run, create);
    run := run + [create];
    Onward(run, propose);
    run := run + [propose];
    Onward(run, Delivered(1, Fits, NoFault));
    run := run + [Delivered(1, Fits, NoFault)];
  }

  /** The job is in RUN with its prolog active, and the workflow, not torn down, has
      been asked for state x. */
  predicate Underway(w: World, x: WState) {
    && w.job.phase == Run && !w.job.fatal && !w.job.started && w.job.prolog == Some(true)
    && w.dws.cluster.live && w.dws.cluster.desired == x && w.dws.cluster.cursor <= |w.dws.cluster.hist|
    && w.dws.cache == Some(NEW_INFO)
  }

  /** The job has entered RUN and its R is being looked up. */
  lemma {:induction false} RunEntered() returns (run: seq<Step>)
    ensures After(run).Some?
    ensures var w := After(run).value;
            && Underway(w, Proposal) && w.job.fetching && !w.job.cleanupPending
            && w.dws.cluster.pending == 0 && w.dws.net.msgs == multiset{}
  {
    run := RunProposed();
    Onward(run, PluginReceives(ResourceUpdate(false)));
    run := run + [PluginReceives(ResourceUpdate(false))];
    Onward(run, EnterRun);
    run := run + [EnterRun];
  }

  /** It is cancelled meanwhile. */
  lemma {:induction false} RunCancelled() returns (run: seq<Step>)
    ensures After(run).Some?
    ensures var w := After(run).value;
            && w.job.fetching && w.job.cleanupPending && !w.job.started && w.job.fatal
            && w.dws.cluster.live && w.dws.cluster.desired == Proposal && w.dws.cluster.pending == 0
            && w.dws.cache == Some(NEW_INFO)
            && w.dws.net.msgs == multiset{}
  {
    run := RunEntered();
    Onward(run, Exception(false));
    run := run + [Exception(false)];
  }

  /** The workflow is torn down. */
  lemma {:induction false} RunTornDown() returns (run: seq<Step>)
    ensures After(run).Some?
    ensures var w := After(run).value;
            && w.job.fetching
            && w.dws.cluster.live && w.dws.cluster.desired == Teardown && w.dws.cluster.pending == 0
            && w.dws.cache == Some(NEW_INFO.(toredown := true))
  {
    var handle := ServiceHandles(PostRunRequest(false), NoFault);
    run := RunCancelled();
    Onward(run, CleanupCall);
    run := run + [CleanupCall];
    Onward(run, handle);
    run := run + [handle];
    Onward(run, TeardownPatched);
    run := run + [TeardownPatched];
  }

  // A run that goes well.

  lemma {:induction false} RunInSetup() returns (run: seq<Step>)
    ensures After(run).Some? && Underway(After(run).value, Setup)
    ensures After(run).value.dws.net.msgs == multiset{SetupReply(true)}
  {
    var handle := ServiceHandles(SetupRequest, NoFault);
    run := RunEntered();
    Onward(run, RFetched(true));
    run := run + [RFetched(true)];
    assert After(run).value.dws.net.msgs == multiset{SetupRequest};
    Onward(run, handle);
    run := run + [handle];
  }

  /** DWS reports the state ready and the service sees it. */
  lemma {:induction false} RunReported(run: seq<Step>, x: WState) returns (run': seq<Step>)
    requires After(run).Some? && Underway(After(run).value, x)
    requires x == Setup || x == DataIn || x == PreRun
    ensures After(run').Some?
    ensures x != PreRun ==> Underway(After(run').value, DwsServiceProof.Successor(x))
    ensures x == PreRun ==> Underway(After(run').value, x)
    ensures After(run').value.dws.net.msgs ==
            After(run).value.dws.net.msgs + if x == PreRun then multiset{PrologRemove} else multiset{}
  {
    var c := After(run).value.dws.cluster;
    var report, deliver := ControllerReports(Some(x), true), Delivered(|c.hist|, Fits, NoFault);
    Onward(run, report);
    run' := run + [report];
    assert After(run').value.dws.cluster.hist[|c.hist|] == Snapshot(x, Some(x), true);
    Onward(run', deliver);
    run' := run' + [deliver];
  }

  lemma {:induction false} PrologEnds(w: World)
    requires Underway(w, PreRun) && PrologRemove in w.dws.net.msgs
    ensures Enabled(w, PluginReceives(PrologRemove)) && Enabled(Next(w, PluginReceives(PrologRemove)), JobStart)
    ensures Started(Next(Next(w, PluginReceives(PrologRemove)), JobStart), w.dws.net.msgs - multiset{PrologRemove})
  {
  }

  /** The job runs beside a workflow that nobody has torn down. */
  predicate Started(w: World, msgs: multiset<Msg>) {
    && w.job.started && w.job.phase == Run && w.dws.cluster.live && w.dws.cache == Some(NEW_INFO)
    && w.dws.net.msgs == msgs
  }

  lemma {:induction false} RunStarted(run: seq<Step>) returns (run': seq<Step>)
    requires After(run).Some? && Underway(After(run).value, PreRun) && PrologRemove in After(run).value.dws.net.msgs
    ensures After(run').Some?
    ensures Started(After(run').value, After(run).value.dws.net.msgs - multiset{PrologRemove})
  {
    PrologEnds(After(run).value);
    Onward(run, PluginReceives(PrologRemove));
    run' := run + [PluginReceives(PrologRemove)];
    Onward(run', JobStart);
    run' := run' + [JobStart];
  }

  /** Jobs do start, after a prolog that ended well. */
  lemma {:induction false} SomeJobStarts() returns (run: seq<Step>)
    ensures After(run).Some? && Started(After(run).value, multiset{SetupReply(true)})
    ensures Count(After(run).value.dws.net.log, PrologFinish(true)) == 1
  {
    run := RunInSetup();
    run := RunReported(run, Setup);
    run := RunReported(run, DataIn);
    run := RunReported(run, PreRun);
    run := RunStarted(run);
    StartFollowsProlog(run);
  }
}
