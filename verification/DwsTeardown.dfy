/** What a teardown request does to the workflow object, and when it is undone. */
module DwsTeardown {
  import opened DwsTypes
  import opened DwsService
  import opened DwsProtocol
  import opened DwsInvariant
  import DwsEffects
  import DwsServiceProof
  import DwsRuns

  // After a teardown request, few steps touch the object.

  /** The object and its pending patches after a step, once a teardown was asked for. */
  predicate TouchedBy(c: Cluster, c': Cluster, w: World, s: Step) {
    if !c.live then !c'.live && c'.hist == c.hist
    else if DwsRuns.SetsUp(w, s) then
      && c'.live && c'.desired == Setup && c'.pending == c.pending
      && c'.hist == c.hist + [Snapshot(Setup, c.state, c.ready)]
    else
      match s
      case TeardownPatched =>
        && c'.live && c'.desired == Teardown
        && c'.hist == c.hist + [Snapshot(Teardown, c.state, c.ready)]
      case ControllerReports(state, ready) =>
        && c'.live && c'.desired == c.desired && c'.pending == c.pending
        && c'.hist == c.hist + [Snapshot(c.desired, state, ready)]
      case WorkflowDeleted => !c'.live && c'.hist == c.hist + [Deleted]
      case _ => c'.live && c'.desired == c.desired && c'.pending >= c.pending && c'.hist == c.hist
  }

  lemma {:induction false} InnerTouches(d: Dws, s: Snapshot, fit: Fit, fault: Fault)
    requires s.Snapshot? && (d.cluster.live ==> InfoOf(d).toredown)
    ensures Inner(d, s, fit, fault).0.cluster.(pending := 0) == d.cluster.(pending := 0)
    ensures Inner(d, s, fit, fault).0.cluster.pending >= d.cluster.pending
  {
  }

  lemma {:induction false} DeliveryTouches(w: World, s: Step)
    requires Enabled(w, s) && s.Delivered?
    requires w.dws.cluster.live ==> InfoOf(w.dws).toredown
    ensures TouchedBy(w.dws.cluster, Next(w, s).dws.cluster, w, s)
  {
    var d := w.dws;
    if d.cluster.hist[s.index].Snapshot? {
      InnerTouches(Cached(d.(cluster := d.cluster.(cursor := s.index))), d.cluster.hist[s.index], s.fit, s.fault);
    }
  }

  lemma {:induction false} HandlingTouches(w: World, s: Step)
    requires Enabled(w, s) && s.ServiceHandles? && s.request != CreateRequest
    requires w.dws.cluster.live ==> InfoOf(w.dws).toredown
    ensures TouchedBy(w.dws.cluster, Next(w, s).dws.cluster, w, s)
  {
  }

  lemma {:induction false} OthersTouch(w: World, s: Step)
    requires Enabled(w, s) && !s.ServiceHandles? && !s.Delivered?
    ensures TouchedBy(w.dws.cluster, Next(w, s).dws.cluster, w, s)
  {
  }

  lemma {:induction false} TornDownTouches(w: World, s: Step)
    requires Enabled(w, s) && Inv(w.job, w.dws, false) && TornDownIn(w.dws.net.log)
    ensures TouchedBy(w.dws.cluster, Next(w, s).dws.cluster, w, s)
  {
    if s.Delivered? {
      DeliveryTouches(w, s);
    } else if s.ServiceHandles? {
      HandlingTouches(w, s);
    } else {
      OthersTouch(w, s);
    }
  }

  // The object's own desiredState.

  /** dws.setup is never acted on while the object is to be torn down. */
  predicate NeverSetUpFromTeardown(run: seq<Step>)
    requires After(run).Some?
  {
    run != [] ==>
      var front, last := run[..|run| - 1], run[|run| - 1];
      var w := After(front).value;
      NeverSetUpFromTeardown(front) && !(DwsRuns.SetsUp(w, last) && w.dws.cluster.desired == Teardown)
  }

  /** Setup is asked for once, so only Proposal or Teardown can come before it. */
  lemma {:induction false} BeforeSetup(w: World, s: Step)
    requires Enabled(w, s) && Inv(w.job, w.dws, false) && DwsRuns.SetsUp(w, s)
    ensures w.dws.cluster.desired == Proposal || w.dws.cluster.desired == Teardown
  {
    var d := w.dws;
    DwsServiceProof.RequestTells(w.job, d, SetupRequest);
    ProgressBound(d.net.log);
    assert LevelOk(d.cluster.hist[|d.cluster.hist| - 1], d.net.log);
  }

  /** Every step after a teardown request adds a state at least as high as the last. */
  lemma {:induction false} AddsNoLower(w: World, s: Step, c': Cluster)
    requires StreamInv(w.dws) && TouchedBy(w.dws.cluster, c', w, s) && Rising(w.dws.cluster.hist)
    requires DwsRuns.SetsUp(w, s) ==> w.dws.cluster.desired == Proposal
    ensures Rising(c'.hist)
  {
    var c := w.dws.cluster;
    if c'.hist != c.hist {
      RisingMore(c.hist, c'.hist[|c.hist|]);
    }
  }

  lemma {:induction false} RisesAfterTeardown(w: World, s: Step)
    requires Enabled(w, s) && Inv(w.job, w.dws, false) && TornDownIn(w.dws.net.log)
    requires Rising(w.dws.cluster.hist) && !(DwsRuns.SetsUp(w, s) && w.dws.cluster.desired == Teardown)
    ensures Rising(Next(w, s).dws.cluster.hist)
  {
    TornDownTouches(w, s);
    if DwsRuns.SetsUp(w, s) {
      BeforeSetup(w, s);
    }
    AddsNoLower(w, s, Next(w, s).dws.cluster);
  }

  lemma {:induction false} RisesWhileSetUpEarly(run: seq<Step>)
    requires After(run).Some? && NeverSetUpFromTeardown(run)
    ensures var d := After(run).value.dws;
            Rising(d.cluster.hist) && (!TornDownIn(d.net.log) ==> OrderInv(d))
  {
    if run == [] {
      DwsRuns.RunKeeps(run, true);
    } else {
      var front, last := run[..|run| - 1], run[|run| - 1];
      var w := After(front).value;
      RisesWhileSetUpEarly(front);
      DwsRuns.RunKeeps(front, false);
      if TornDownIn(w.dws.net.log) {
        RisesAfterTeardown(w, last);
        DwsEffects.StepExtends(w, last, Requested(Teardown));
      } else {
        DwsRuns.StepKeeps(w, last, true);
      }
    }
  }

  lemma {:induction false} SetUpFromTeardownFalls(w: World, s: Step)
    requires Enabled(w, s) && StreamInv(w.dws) && DwsRuns.SetsUp(w, s) && w.dws.cluster.desired == Teardown
    ensures !Rising(Next(w, s).dws.cluster.hist)
  {
    DwsRuns.SettingUp(w, s);
    var hist, k := Next(w, s).dws.cluster.hist, |w.dws.cluster.hist|;
    assert hist[k - 1].Snapshot? && hist[k].Snapshot? && Rank(hist[k - 1].desired) > Rank(hist[k].desired);
  }

  /** In every run, the desiredState of the object never goes backward if and only if
      dws.setup is never acted on while it is Teardown. */
  lemma {:induction false} WorkflowRisesIff(run: seq<Step>)
    requires After(run).Some?
    ensures Rising(After(run).value.dws.cluster.hist) <==> NeverSetUpFromTeardown(run)
  {
    if NeverSetUpFromTeardown(run) {
      RisesWhileSetUpEarly(run);
    } else {
      var front, last := run[..|run| - 1], run[|run| - 1];
      var w := After(front).value;
      if NeverSetUpFromTeardown(front) {
        DwsRuns.RunKeeps(front, false);
        SetUpFromTeardownFalls(w, last);
      } else {
        WorkflowRisesIff(front);
        DwsEffects.StepAdds(w, last);
        if Rising(Next(w, last).dws.cluster.hist) {
          RisingPrefix(w.dws.cluster.hist, Next(w, last).dws.cluster.hist);
        }
      }
    }
  }

  lemma {:induction false} RisingPrefix(h: seq<Snapshot>, h': seq<Snapshot>)
    requires h <= h' && Rising(h')
    ensures Rising(h)
  {
    forall i, j | 0 <= i < j < |h| && h[i].Snapshot? && h[j].Snapshot?
      ensures Rank(h[i].desired) <= Rank(h[j].desired)
    {
      assert h[i] == h'[i] && h[j] == h'[j];
    }
  }

  // No teardown is lost.

  /** While the object is there, a teardown that was asked for is on its way or has
      been made. */
  predicate NotLost(d: Dws) {
    d.cluster.live && InfoOf(d).toredown ==> d.cluster.pending > 0 || d.cluster.desired == Teardown
  }

  predicate NeverLost(run: seq<Step>)
    requires After(run).Some?
  {
    NotLost(After(run).value.dws) && (run != [] ==> NeverLost(run[..|run| - 1]))
  }

  /** dws.setup is acted on after a teardown request only while its patch is on the way. */
  predicate TeardownStillToCome(run: seq<Step>)
    requires After(run).Some?
  {
    run != [] ==>
      var front, last := run[..|run| - 1], run[|run| - 1];
      var w := After(front).value;
      && TeardownStillToCome(front)
      && (DwsRuns.SetsUp(w, last) && InfoOf(w.dws).toredown ==> w.dws.cluster.pending > 0)
  }

  lemma {:induction false} NotLostStep(w: World, s: Step)
    requires Enabled(w, s) && Inv(w.job, w.dws, false) && NotLost(w.dws)
    ensures NotLost(Next(w, s).dws) <==> (DwsRuns.SetsUp(w, s) && InfoOf(w.dws).toredown ==> w.dws.cluster.pending > 0)
  {
    DwsRuns.StepKeeps(w, s, false);
    if TornDownIn(w.dws.net.log) {
      TornDownTouches(w, s);
    } else {
      DwsEffects.StepAsks(w, s);
    }
  }

  /** In every run, no teardown is ever lost if and only if dws.setup is acted on after
      a teardown request only while the patch is on the way. */
  lemma {:induction false} NeverLostIff(run: seq<Step>)
    requires After(run).Some?
    ensures NeverLost(run) <==> TeardownStillToCome(run)
  {
    if run != [] {
      var front, last := run[..|run| - 1], run[|run| - 1];
      NeverLostIff(front);
      if NeverLost(front) {
        DwsRuns.RunKeeps(front, false);
        NotLostStep(After(front).value, last);
      }
    }
  }

  lemma {:induction false} LateSetupUndoes(w: World, s: Step)
    requires Enabled(w, s) && Inv(w.job, w.dws, false) && DwsRuns.SetsUp(w, s)
    requires w.dws.cluster.desired == Teardown && w.dws.cluster.pending == 0 && InfoOf(w.dws).toredown
    ensures var d := Next(w, s).dws;
            && !Monotone(d.net.log) && !Rising(d.cluster.hist) && !NotLost(d)
            && d.cluster.live && d.cluster.desired == Setup && d.cluster.pending == 0 && InfoOf(d).toredown
  {
    DwsRuns.SettingUp(w, s);
    DwsRuns.LateSetupGoesBack(w, s);
    SetUpFromTeardownFalls(w, s);
  }

  /** A job cancelled while its R is being looked up: dws.setup is sent, and acted on,
      after the teardown. The workflow is back in Setup, no teardown is on its way and
      the service believes it to be torn down. */
  lemma {:induction false} SetupUndoesTeardown() returns (run: seq<Step>)
    ensures After(run).Some?
    ensures var d := After(run).value.dws;
            && !Monotone(d.net.log) && !Rising(d.cluster.hist) && !NotLost(d)
            && d.cluster.live && d.cluster.desired == Setup && d.cluster.pending == 0 && InfoOf(d).toredown
  {
    var handle := ServiceHandles(SetupRequest, NoFault);
    run := DwsRuns.RunTornDown();
    DwsRuns.Onward(run, RFetched(true));
    run := run + [RFetched(true)];
    DwsRuns.RunKeeps(run, false);
    LateSetupUndoes(After(run).value, handle);
    DwsRuns.Onward(run, handle);
    run := run + [handle];
  }
}
