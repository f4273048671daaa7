/** What each callback adds to the log, the messages and the watch: the facts about
    single steps that the results on whole runs share. */
module DwsEffects {
  import opened Wrappers
  import opened DwsTypes
  import opened DwsJobtap
  import opened DwsService
  import opened DwsProtocol
  import opened DwsInvariant

  // Logs only grow, by events of the plugin or of the service.

  predicate OfService(e: Event) { e.Requested? || e.Reported? || e.RemovalSent? }

  predicate Adds(l: Log, l': Log, service: bool) {
    l' == l || (l'.Then? && OfService(l'.last) == service && Adds(l, l'.before, service))
  }

  lemma {:induction false} AddsTransitive(l: Log, l': Log, l'': Log, service: bool)
    requires Adds(l, l', service) && Adds(l', l'', service)
    ensures Adds(l, l'', service)
  {
    if l'' != l' {
      AddsTransitive(l, l', l''.before, service);
    }
  }

  lemma {:induction false} AddsKeeps(l: Log, l': Log, service: bool, e: Event)
    requires Adds(l, l', service)
    ensures Monotone(l') ==> Monotone(l)
    ensures Count(l, e) <= Count(l', e)
    ensures OfService(e) != service ==> Count(l, e) == Count(l', e)
  {
    if l' != l {
      AddsKeeps(l, l'.before, service, e);
    }
  }

  // The service.

  /** No snapshot shows a teardown. */
  predicate Calm(hist: seq<Snapshot>) {
    forall i :: 0 <= i < |hist| && hist[i].Snapshot? ==> hist[i].desired != Teardown
  }

  function Removals(n: Net): nat { n.msgs[EpilogRemove] + Count(n.log, RemovalSent) }

  /** Messages that no callback of the service sends, but for the reply to dws.post_run. */
  predicate NotSent(m: Msg) { ForService(m) || m == PostRunReply(false) }

  /** A callback of the service on an object that stays what it is. It patches no
      teardown itself; it hands one to the cleanup thread whenever it asks for one; and
      it removes the epilog only if the object is gone or was shown in Teardown. */
  ghost predicate Effect(d: Dws, d': Dws) {
    && Adds(d.net.log, d'.net.log, true)
    && (forall m :: NotSent(m) ==> d'.net.msgs[m] == d.net.msgs[m])
    && d.cluster.hist <= d'.cluster.hist && d'.cluster.live == d.cluster.live
    && (Calm(d.cluster.hist) ==> Calm(d'.cluster.hist))
    && d'.cluster.pending >= d.cluster.pending
    && (TornDownIn(d'.net.log) <==> TornDownIn(d.net.log) || d'.cluster.pending > d.cluster.pending)
    && (Removals(d'.net) != Removals(d.net) ==> !d.cluster.live || !Calm(d.cluster.hist))
  }

  lemma {:induction false} EffectTransitive(d: Dws, d': Dws, d'': Dws)
    requires Effect(d, d') && Effect(d', d'')
    ensures Effect(d, d'')
  {
    AddsTransitive(d.net.log, d'.net.log, d''.net.log, true);
  }

  lemma {:induction false} SendEffect(d: Dws, m: Msg)
    requires !NotSent(m) && m != EpilogRemove
    ensures Effect(d, Sends(d, m))
  {
  }

  lemma {:induction false} ReportEffect(d: Dws, s: WState)
    ensures Effect(d, Notes(d, Reported(s)))
  {
  }

  lemma {:induction false} CacheEffect(d: Dws, cache: Option<Info>)
    ensures Effect(d, d.(cache := cache))
  {
  }

  lemma {:induction false} MoveEffect(d: Dws, s: WState)
    requires s != Teardown
    ensures Effect(d, MoveDesired(d, s))
  {
  }

  lemma {:induction false} MoveToTeardownEffect(d: Dws)
    ensures Effect(d, MoveToTeardown(d)) && MoveToTeardown(d).cluster.pending == d.cluster.pending + 1
  {
  }

  lemma {:induction false} RemoveEpilogEffect(d: Dws)
    requires !d.cluster.live || !Calm(d.cluster.hist)
    ensures Effect(d, RemoveEpilog(d))
  {
  }

  lemma {:induction false} CheckExistenceEffect(d: Dws)
    ensures Effect(d, CheckExistence(d))
  {
    if d.cluster.live {
      MoveToTeardownEffect(d);
    } else {
      CacheEffect(d, None);
      RemoveEpilogEffect(d.(cache := None));
      EffectTransitive(d, d.(cache := None), CheckExistence(d));
    }
  }

  lemma {:induction false} MoveAndSendEffect(d: Dws, s: WState, m: Msg)
    requires s != Teardown && !NotSent(m) && m != EpilogRemove
    ensures Effect(d, Sends(MoveDesired(Cached(d), s), m))
  {
    CacheEffect(d, Some(InfoOf(d)));
    MoveEffect(Cached(d), s);
    EffectTransitive(d, Cached(d), MoveDesired(Cached(d), s));
    SendEffect(MoveDesired(Cached(d), s), m);
    EffectTransitive(d, MoveDesired(Cached(d), s), Sends(MoveDesired(Cached(d), s), m));
  }

  lemma {:induction false} SetupEffect(d: Dws, fault: Fault)
    ensures Effect(d, SetupCb(d, fault)) && Removals(SetupCb(d, fault).net) == Removals(d.net)
  {
    if fault == Early || !d.cluster.live {
      SendEffect(d, SetupReply(false));
    } else {
      MoveAndSendEffect(d, Setup, SetupReply(fault == NoFault));
    }
  }

  /** The replies of dws.post_run. */
  predicate PostRunFails(d: Dws, runStarted: bool, fault: Fault) {
    !InfoOf(d).toredown && (fault == Early || (runStarted && (!d.cluster.live || fault != NoFault)))
  }

  /** What dws.post_run does but for its reply. */
  function PostRunWork(d: Dws, runStarted: bool, fault: Fault): Dws {
    var d' := Cached(d);
    if InfoOf(d').toredown || fault == Early || (runStarted && !d.cluster.live) then d'
    else if runStarted then MoveDesired(d', PostRun).(armed := true)
    else CheckExistence(d')
  }

  lemma {:induction false} PostRunEffect(d: Dws, runStarted: bool, fault: Fault)
    ensures Effect(d, PostRunWork(d, runStarted, fault))
    ensures PostRunCb(d, runStarted, fault)
            == Sends(PostRunWork(d, runStarted, fault), PostRunReply(!PostRunFails(d, runStarted, fault)))
  {
    var d' := Cached(d);
    CacheEffect(d, Some(InfoOf(d)));
    if runStarted {
      MoveEffect(d', PostRun);
      EffectTransitive(d, d', MoveDesired(d', PostRun));
    } else {
      CheckExistenceEffect(d');
      EffectTransitive(d, d', CheckExistence(d'));
    }
  }

  lemma {:induction false} TeardownCbEffect(d: Dws, fault: Fault)
    ensures Effect(d, TeardownCb(d, fault))
  {
    CacheEffect(d, Some(InfoOf(d)));
    CheckExistenceEffect(Cached(d));
    EffectTransitive(d, Cached(d), CheckExistence(Cached(d)));
  }

  lemma {:induction false} AbortEffect(d: Dws, fault: Fault)
    ensures Effect(d, AbortCb(d, fault))
  {
    var d' := d.(cache := Some(InfoOf(d).(epilogRemoved := true)));
    CacheEffect(d, d'.cache);
    TeardownCbEffect(d', fault);
    EffectTransitive(d, d', TeardownCb(d', fault));
  }

  lemma {:induction false} AdvanceEffect(d: Dws, s: WState, fault: Fault)
    requires s != Teardown
    ensures Effect(d, Advance(d, s, fault).0)
  {
    MoveEffect(d, s);
  }

  /** A completed state adds its report and what it leads to. */
  lemma {:induction false} CompletedEffect(d: Dws, s: WState, fit: Fit, fault: Fault)
    ensures Effect(d, Completed(d, s, fit, fault).0)
    ensures Completed(d, s, fit, fault).0.cluster.pending == d.cluster.pending + if s == DataOut then 1 else 0
  {
    var d' := Notes(d, Reported(s));
    ReportEffect(d, s);
    match s
    case Proposal =>
      SendEffect(d', ResourceUpdate(fit == Unfit));
      EffectTransitive(d, d', Sends(d', ResourceUpdate(fit == Unfit)));
    case PreRun =>
      SendEffect(d', PrologRemove);
      EffectTransitive(d, d', Sends(d', PrologRemove));
    case DataOut =>
      MoveToTeardownEffect(d');
      EffectTransitive(d, d', MoveToTeardown(d'));
    case Teardown =>
    case _ =>
      var next := if s == Setup then DataIn else if s == DataIn then PreRun else DataOut;
      AdvanceEffect(d', next, fault);
      EffectTransitive(d, d', Advance(d', next, fault).0);
  }

  lemma {:induction false} TornDownEffect(d: Dws, fault: Fault)
    requires !Calm(d.cluster.hist)
    ensures Effect(d, TornDown(d, fault).0) && TornDown(d, fault).0.cluster == d.cluster
  {
    var d' := if InfoOf(d).epilogRemoved then d else RemoveEpilog(d);
    RemoveEpilogEffect(d);
    CacheEffect(d', Some(InfoOf(d').(deleted := true)));
    EffectTransitive(d, d', d'.(cache := Some(InfoOf(d').(deleted := true))));
  }

  /** The branch of a completed DataOut is taken. */
  predicate DataIsOut(d: Dws, s: Snapshot) {
    StateComplete(s, DataOut) && !InfoOf(d).deleted && !InfoOf(d).toredown
  }

  lemma {:induction false} InnerEffect(d: Dws, s: Snapshot, fit: Fit, fault: Fault)
    requires s.Snapshot? && s in d.cluster.hist
    ensures Effect(d, Inner(d, s, fit, fault).0)
    ensures Inner(d, s, fit, fault).0.cluster.pending == d.cluster.pending + if DataIsOut(d, s) then 1 else 0
  {
    if StateComplete(s, Teardown) {
      TornDownEffect(d, fault);
    } else if StateComplete(s, s.desired) {
      CompletedEffect(d, s.desired, fit, fault);
    }
  }

  lemma {:induction false} StateChangeEffect(d: Dws, s: Snapshot, fit: Fit, fault: Fault)
    requires s in d.cluster.hist
    ensures Effect(d, StateChange(d, s, fit, fault))
  {
    if s.Deleted? {
      CacheEffect(d, None);
    } else {
      var d' := Cached(d);
      CacheEffect(d, d'.cache);
      InnerEffect(d', s, fit, fault);
      var d'' := Inner(d', s, fit, fault).0;
      EffectTransitive(d, d', d'');
      MoveToTeardownEffect(d'');
      EffectTransitive(d, d'', MoveToTeardown(d''));
    }
  }

  lemma {:induction false} DeliverEffect(d: Dws, i: nat, fit: Fit, fault: Fault)
    requires i < |d.cluster.hist|
    ensures Effect(d, Deliver(d, i, fit, fault))
  {
    StateChangeEffect(d.(cluster := d.cluster.(cursor := i)), d.cluster.hist[i], fit, fault);
  }

  /** The requests but for the two that do more than Effect says. */
  lemma {:induction false} HandleEffect(d: Dws, m: Msg, fault: Fault)
    requires m == SetupRequest || m == TeardownRequest || m == AbortRequest
    ensures Effect(d, Handle(d, m, fault))
  {
    match m
    case SetupRequest => SetupEffect(d, fault);
    case TeardownRequest => TeardownCbEffect(d, fault);
    case AbortRequest => AbortEffect(d, fault);
  }

  // Any step.

  lemma {:induction false} ExceptionAdds(j: Job, n: Net, severity: nat, abort: bool)
    ensures Adds(n.log, ExceptionCb(j, n, severity, abort).1.log, false)
  {
    var handled := Then(n.log, ExceptionHandled);
    assert Adds(n.log, handled, false);
    assert Adds(n.log, Then(handled, AbortSent), false);
  }

  lemma {:induction false} PluginAdds(w: World, s: Step)
    requires Enabled(w, s) && IsPlugin(s)
    ensures Adds(w.dws.net.log, Next(w, s).dws.net.log, false)
  {
    if s.ExceptionCall? {
      ExceptionAdds(w.job, w.dws.net, s.severity, s.abort);
    }
  }

  lemma {:induction false} RequestAdds(d: Dws, m: Msg, fault: Fault)
    requires ForService(m)
    ensures Adds(d.net.log, Handle(d, m, fault).net.log, true) && d.cluster.hist <= Handle(d, m, fault).cluster.hist
  {
    if m.PostRunRequest? {
      PostRunEffect(d, m.runStarted, fault);
    } else if m != CreateRequest {
      HandleEffect(d, m, fault);
    }
  }

  /** No step takes anything back from the log or the watch. */
  lemma {:induction false} StepAdds(w: World, s: Step)
    requires Enabled(w, s)
    ensures Adds(w.dws.net.log, Next(w, s).dws.net.log, !IsPlugin(s))
    ensures w.dws.cluster.hist <= Next(w, s).dws.cluster.hist
  {
    if IsPlugin(s) {
      PluginAdds(w, s);
    } else if s.ServiceHandles? {
      RequestAdds(w.dws.(net := Take(w.dws.net, s.request)), s.request, s.fault);
    } else if s.Delivered? {
      DeliverEffect(w.dws, s.index, s.fit, s.fault);
    } else if s.TimerFires? {
      CheckExistenceEffect(w.dws);
    }
  }

  lemma {:induction false} StepExtends(w: World, s: Step, e: Event)
    requires Enabled(w, s)
    ensures Monotone(Next(w, s).dws.net.log) ==> Monotone(w.dws.net.log)
    ensures Count(w.dws.net.log, e) <= Count(Next(w, s).dws.net.log, e)
    ensures OfService(e) == IsPlugin(s) ==> Count(w.dws.net.log, e) == Count(Next(w, s).dws.net.log, e)
  {
    StepAdds(w, s);
    AddsKeeps(w.dws.net.log, Next(w, s).dws.net.log, !IsPlugin(s), e);
  }

  /** A teardown is asked for exactly if one is handed to the cleanup thread. */
  lemma {:induction false} StepAsks(w: World, s: Step)
    requires Enabled(w, s)
    ensures TornDownIn(Next(w, s).dws.net.log) <==>
            TornDownIn(w.dws.net.log) || Next(w, s).dws.cluster.pending > w.dws.cluster.pending
  {
    if IsPlugin(s) {
      StepExtends(w, s, Requested(Teardown));
    } else if s.ServiceHandles? {
      RequestAsks(w.dws.(net := Take(w.dws.net, s.request)), s.request, s.fault);
    } else if s.Delivered? {
      DeliverEffect(w.dws, s.index, s.fit, s.fault);
    } else if s.TimerFires? {
      CheckExistenceEffect(w.dws);
    }
  }

  lemma {:induction false} RequestAsks(d: Dws, m: Msg, fault: Fault)
    requires ForService(m)
    ensures TornDownIn(Handle(d, m, fault).net.log) <==>
            TornDownIn(d.net.log) || Handle(d, m, fault).cluster.pending > d.cluster.pending
  {
    if m.PostRunRequest? {
      PostRunEffect(d, m.runStarted, fault);
    } else if m != CreateRequest {
      HandleEffect(d, m, fault);
    }
  }
}
