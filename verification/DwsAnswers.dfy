/** How the service and the plugin answer whatever can reach them at any point of a run:
    the whole world after the step, told by what was there before it. */
module DwsAnswers {
  import opened Wrappers
  import opened DwsTypes
  import opened DwsJobtap
  import opened DwsService
  import opened DwsProtocol
  import opened DwsInvariant
  import DwsAbandoned
  import DwsRuns

  /** Step s is possible in world w, reached by a run or not, and leads to w'. */
  predicate Answers(w: World, s: Step, w': World) { Enabled(w, s) && Next(w, s) == w' }

  /** The service believes the workflow neither torn down nor given up for deletion. */
  predicate Open(d: Dws) { d.cache.Some? ==> !d.cache.value.toredown && !d.cache.value.deleted }

  /** Snapshot i can be delivered. */
  predicate Delivers(w: World, i: nat) {
    w.dws.cluster.cursor <= i < |w.dws.cluster.hist| && w.dws.cluster.hist[i].Snapshot?
  }

  // ----- the service and the watch

  /** A snapshot that reports Setup, DataIn or PostRun ready is answered by the request for
      DataIn, PreRun or DataOut. */
  lemma {:induction false} ReadyIsFollowed(w: World, i: nat, fit: Fit)
    requires Delivers(w, i) && Open(w.dws) && w.dws.cluster.live
    requires var s := w.dws.cluster.hist[i];
             StateComplete(s, Setup) || StateComplete(s, DataIn) || StateComplete(s, PostRun)
    ensures var World(j, Dws(cache, armed, c, n)) := w;
            var x := c.hist[i].desired;
            var to := if x == Setup then DataIn else if x == DataIn then PreRun else DataOut;
            var entry := if cache.Some? then cache.value else NEW_INFO;
            var c' := Cluster(true, to, c.state, c.ready, c.pending, c.hist + [Snapshot(to, c.state, c.ready)], i);
            Answers(w, Delivered(i, fit, NoFault),
                  World(j, Dws(Some(entry), armed, c', Net(n.msgs, Then(Then(n.log, Reported(x)), Requested(to))))))
  {
  }

  /** If the object is gone, by a teardown request. */
  lemma {:induction false} GoneIsGivenUp(w: World, i: nat, fit: Fit)
    requires Delivers(w, i) && Open(w.dws) && !w.dws.cluster.live
    requires var s := w.dws.cluster.hist[i];
             StateComplete(s, Setup) || StateComplete(s, DataIn) || StateComplete(s, PostRun)
    ensures var World(j, Dws(cache, armed, c, n)) := w;
            var entry := if cache.Some? then cache.value else NEW_INFO;
            Answers(w, Delivered(i, fit, NoFault),
                  World(j, Dws(Some(entry.(toredown := true)), armed, c.(cursor := i, pending := c.pending + 1),
                               Net(n.msgs, Then(Then(n.log, Reported(c.hist[i].desired)), Requested(Teardown))))))
  {
  }

  /** The object stays as it is, and the service has sent these messages and noted these
      events, the newest last. */
  ghost predicate JustSends(w: World, i: nat, fit: Fit, entry: Info, sent: multiset<Msg>, log: Log)
    requires Delivers(w, i)
  {
    var World(j, Dws(_, armed, c, n)) := w;
    Answers(w, Delivered(i, fit, NoFault),
          World(j, Dws(Some(entry), armed, c.(cursor := i), Net(n.msgs + sent, log))))
  }

  /** Proposal ready: the plugin is told whether the breakdowns failed, once. */
  lemma {:induction false} ProposalIsAnswered(w: World, i: nat, fit: Fit)
    requires Delivers(w, i) && Open(w.dws)
    requires StateComplete(w.dws.cluster.hist[i], Proposal)
    ensures var d := w.dws;
            var sent := match fit
                        case Fits => multiset{ResourceUpdate(false)}
                        case Unfit => multiset{ResourceUpdate(true)}
                        case AlreadyApplied => multiset{};
            JustSends(w, i, fit, if d.cache.Some? then d.cache.value else NEW_INFO, sent,
                      Then(d.net.log, Reported(Proposal)))
  {
    assert w.dws.net.msgs + multiset{} == w.dws.net.msgs;
  }

  /** PreRun ready: the prolog is removed. */
  lemma {:induction false} PreRunIsAnswered(w: World, i: nat, fit: Fit)
    requires Delivers(w, i) && Open(w.dws)
    requires StateComplete(w.dws.cluster.hist[i], PreRun)
    ensures var d := w.dws;
            JustSends(w, i, fit, if d.cache.Some? then d.cache.value else NEW_INFO, multiset{PrologRemove},
                      Then(d.net.log, Reported(PreRun)))
  {
  }

  /** DataOut ready: the teardown is asked for. */
  lemma {:induction false} DataOutIsAnswered(w: World, i: nat, fit: Fit)
    requires Delivers(w, i) && Open(w.dws)
    requires StateComplete(w.dws.cluster.hist[i], DataOut)
    ensures var World(j, Dws(cache, armed, c, n)) := w;
            var entry := if cache.Some? then cache.value else NEW_INFO;
            Answers(w, Delivered(i, fit, NoFault),
                  World(j, Dws(Some(entry.(toredown := true)), armed, c.(cursor := i, pending := c.pending + 1),
                               Net(n.msgs, Then(Then(n.log, Reported(DataOut)), Requested(Teardown))))))
  {
  }

  /** Teardown ready: the epilog is removed and the workflow given up for deletion. */
  lemma {:induction false} TeardownIsAnswered(w: World, i: nat, fit: Fit)
    requires Delivers(w, i) && StateComplete(w.dws.cluster.hist[i], Teardown)
    requires !InfoOf(w.dws).deleted && !InfoOf(w.dws).epilogRemoved
    ensures var d := w.dws;
            JustSends(w, i, fit, Info(d.cache.Some? && d.cache.value.toredown, true, false), multiset{EpilogRemove},
                      Then(d.net.log, RemovalSent))
  {
    var World(j, Dws(cache, armed, c, n)) := w;
    var entry := Info(cache.Some? && cache.value.toredown, true, false);
    assert Deliver(w.dws, i, fit, NoFault)
        == Dws(Some(entry), armed, c.(cursor := i), Net(n.msgs + multiset{EpilogRemove}, Then(n.log, RemovalSent)));
  }

  /** If the entry has the epilog removed, only the latter. */
  lemma {:induction false} AbortedTeardownIsAnswered(w: World, i: nat, fit: Fit)
    requires Delivers(w, i) && StateComplete(w.dws.cluster.hist[i], Teardown)
    requires !InfoOf(w.dws).deleted && InfoOf(w.dws).epilogRemoved
    ensures var d := w.dws;
            JustSends(w, i, fit, Info(d.cache.Some? && d.cache.value.toredown, true, true), multiset{}, d.net.log)
  {
    var World(j, Dws(cache, armed, c, n)) := w;
    assert n.msgs + multiset{} == n.msgs;
    assert Deliver(w.dws, i, fit, NoFault)
        == Dws(Some(cache.value.(deleted := true)), armed, c.(cursor := i), n);
  }

  lemma {:induction false} FlagStep(w: World, s: Step)
    requires Enabled(w, s) && InfoOf(Next(w, s).dws).epilogRemoved
    ensures InfoOf(w.dws).epilogRemoved || s == ServiceHandles(AbortRequest, s.fault)
  {
  }

  /** The service takes the epilog for removed only after an abort. */
  lemma {:induction false} FlagTellsOfAbort(run: seq<Step>)
    requires After(run).Some? && InfoOf(After(run).value.dws).epilogRemoved
    ensures DwsAbandoned.Handled(run, AbortRequest) > 0
  {
    var front, last := run[..|run| - 1], run[|run| - 1];
    FlagStep(After(front).value, last);
    if InfoOf(After(front).value.dws).epilogRemoved {
      FlagTellsOfAbort(front);
    }
  }

  /** How a ready state is answered in world w, with w' after it: by the request for the next
      state, by a message, or by giving the workflow up. */
  predicate ReadyAnswered(w: World, w': World, x: WState, fit: Fit, aborted: bool) {
    var d, d' := w.dws, w'.dws;
    match x
    case Setup | DataIn | PostRun =>
      var to := if x == Setup then DataIn else if x == DataIn then PreRun else DataOut;
      if d.cluster.live
      then d'.net.log == Then(Then(d.net.log, Reported(x)), Requested(to)) && d'.cluster.desired == to
      else d'.net.log == Then(Then(d.net.log, Reported(x)), Requested(Teardown))
    case Proposal =>
      d'.net.msgs == d.net.msgs + if fit == AlreadyApplied then multiset{} else multiset{ResourceUpdate(fit == Unfit)}
    case PreRun => d'.net.msgs == d.net.msgs + multiset{PrologRemove}
    case DataOut =>
      && d'.net.log == Then(Then(d.net.log, Reported(DataOut)), Requested(Teardown))
      && d'.cluster.pending == d.cluster.pending + 1
    case Teardown =>
      && d'.cache.Some? && d'.cache.value.deleted
      && (d'.net.msgs == d.net.msgs + multiset{EpilogRemove} || (d'.net.msgs == d.net.msgs && aborted))
  }

  lemma {:induction false} ReadyInWorld(w: World, i: nat, fit: Fit, x: WState, aborted: bool)
    requires Delivers(w, i) && StateComplete(w.dws.cluster.hist[i], x)
    requires if x == Teardown then !InfoOf(w.dws).deleted else Open(w.dws)
    requires InfoOf(w.dws).epilogRemoved ==> aborted
    ensures Enabled(w, Delivered(i, fit, NoFault))
    ensures ReadyAnswered(w, Next(w, Delivered(i, fit, NoFault)), x, fit, aborted)
  {
    match x
    case Proposal => ProposalIsAnswered(w, i, fit);
    case PreRun => PreRunIsAnswered(w, i, fit);
    case DataOut => DataOutIsAnswered(w, i, fit);
    case Teardown =>
      if InfoOf(w.dws).epilogRemoved {
        AbortedTeardownIsAnswered(w, i, fit);
      } else {
        TeardownIsAnswered(w, i, fit);
      }
    case _ => if w.dws.cluster.live { ReadyIsFollowed(w, i, fit); } else { GoneIsGivenUp(w, i, fit); }
  }

  /** After every run, a state reported ready is answered so, and the epilog is left alone
      only by a run that has handled an abort. */
  lemma {:induction false} ReadyIsAnswered(run: seq<Step>, i: nat, fit: Fit, x: WState)
    requires After(run).Some? && Delivers(After(run).value, i)
    requires StateComplete(After(run).value.dws.cluster.hist[i], x)
    requires var d := After(run).value.dws; if x == Teardown then !InfoOf(d).deleted else Open(d)
    ensures After(run + [Delivered(i, fit, NoFault)]).Some?
    ensures ReadyAnswered(After(run).value, After(run + [Delivered(i, fit, NoFault)]).value, x, fit,
                          DwsAbandoned.Handled(run, AbortRequest) > 0)
  {
    if InfoOf(After(run).value.dws).epilogRemoved { FlagTellsOfAbort(run); }
    ReadyInWorld(After(run).value, i, fit, x, DwsAbandoned.Handled(run, AbortRequest) > 0);
    DwsRuns.Onward(run, Delivered(i, fit, NoFault));
  }

  /** What needs no answer: an entry given up for deletion, a workflow without a state, one
      that is to be torn down, and a state that is not ready. */
  predicate Idle(d: Dws, s: Snapshot)
    requires s.Snapshot?
  {
    var entry := if d.cache.Some? then d.cache.value else NEW_INFO;
    entry.deleted || s.state.None? || (s.state == Some(Teardown) == Some(s.desired) && !s.ready)
    || (!StateActive(s, Teardown) && (entry.toredown || s.state != Some(s.desired) || !s.ready))
  }

  lemma {:induction false} IdleIsNotAnswered(w: World, i: nat, fit: Fit)
    requires Delivers(w, i) && Idle(w.dws, w.dws.cluster.hist[i])
    ensures var d := w.dws;
            JustSends(w, i, fit, if d.cache.Some? then d.cache.value else NEW_INFO, multiset{}, d.net.log)
  {
    assert w.dws.net.msgs + multiset{} == w.dws.net.msgs;
  }

  /** A deletion drops the entry. */
  lemma {:induction false} DeletionDropsEntry(w: World, i: nat, fit: Fit, fault: Fault)
    requires w.dws.cluster.cursor <= i < |w.dws.cluster.hist|
    requires w.dws.cluster.hist[i].Deleted?
    ensures var World(j, Dws(_, armed, c, n)) := w;
            Answers(w, Delivered(i, fit, fault), World(j, Dws(None, armed, c.(cursor := i), n)))
  {
  }

  /** Any failure while a workflow is looked after ends in a teardown request. */
  lemma {:induction false} FailureIsGivenUp(w: World, i: nat, fit: Fit, fault: Fault)
    requires Delivers(w, i) && fault != NoFault
    requires var d := w.dws;
             var s := d.cluster.hist[i];
             s.state.Some? && !InfoOf(d).deleted && (StateActive(s, Teardown) || !InfoOf(d).toredown)
    ensures Enabled(w, Delivered(i, fit, fault))
    ensures var (d, d') := (w.dws, Next(w, Delivered(i, fit, fault)).dws);
            && d'.net.log.Then? && d'.net.log.last == Requested(Teardown)
            && d'.cache.Some? && d'.cache.value.toredown && d'.cluster.pending > d.cluster.pending
  {
    InnerFails(Cached(w.dws.(cluster := w.dws.cluster.(cursor := i))), w.dws.cluster.hist[i], fit, fault);
  }

  lemma {:induction false} InnerFails(d: Dws, s: Snapshot, fit: Fit, fault: Fault)
    requires s.Snapshot? && s.state.Some? && !InfoOf(d).deleted && fault != NoFault
    requires StateActive(s, Teardown) || !InfoOf(d).toredown
    ensures Inner(d, s, fit, fault).1 && Inner(d, s, fit, fault).0.cluster.pending >= d.cluster.pending
  {
  }

  // ----- the service and its requests

  /** Request m is on its way. */
  ghost predicate Requests(w: World, m: Msg) {
    m in w.dws.net.msgs && ForService(m)
  }

  /** dws.create makes the object. */
  lemma {:induction false} CreateIsAnswered(w: World, fault: Fault)
    requires Requests(w, CreateRequest)
    ensures var World(j, Dws(cache, armed, c, n)) := w;
            var hist := c.hist + [Snapshot(Proposal, None, false)];
            var c' := Cluster(true, Proposal, None, false, c.pending, hist, c.cursor);
            var made := if fault == Early || fault == Midway then cache else Some(Info(false, false, false));
            Answers(w, ServiceHandles(CreateRequest, fault),
                  World(j, Dws(made, armed, if fault == Early then c else c',
                               Net(n.msgs - multiset{CreateRequest}, n.log))))
  {
  }

  /** dws.setup asks for Setup and says whether all went well. */
  lemma {:induction false} SetupIsAnswered(w: World, fault: Fault)
    requires Requests(w, SetupRequest)
    ensures var World(j, Dws(cache, armed, c, n)) := w;
            var rest, entry := n.msgs - multiset{SetupRequest}, if cache.Some? then cache.value else NEW_INFO;
            var c' := c.(desired := Setup, hist := c.hist + [Snapshot(Setup, c.state, c.ready)]);
            Answers(w, ServiceHandles(SetupRequest, fault),
                  World(j, if c.live && fault != Early
                           then Dws(Some(entry), armed, c',
                                    Net(rest + multiset{SetupReply(fault == NoFault)}, Then(n.log, Requested(Setup))))
                           else Dws(cache, armed, c, Net(rest + multiset{SetupReply(false)}, n.log))))
  {
  }

  /** dws.post_run of a job that ran asks for PostRun and starts a timer, unless the
      workflow is torn down. */
  lemma {:induction false} PostRunIsAnswered(w: World, fault: Fault)
    requires Requests(w, PostRunRequest(true))
    ensures var World(j, Dws(cache, armed, c, n)) := w;
            var rest := n.msgs - multiset{PostRunRequest(true)};
            var entry := if cache.Some? then cache.value else NEW_INFO;
            var c' := c.(desired := PostRun, hist := c.hist + [Snapshot(PostRun, c.state, c.ready)]);
            Answers(w, ServiceHandles(PostRunRequest(true), fault),
                  World(j, if !entry.toredown && c.live && fault != Early
                           then Dws(Some(entry), true, c', Net(rest + multiset{PostRunReply(fault == NoFault)},
                                                               Then(n.log, Requested(PostRun))))
                           else Dws(Some(entry), armed, c, Net(rest + multiset{PostRunReply(entry.toredown)}, n.log))))
  {
  }

  /** The requests that want a teardown: dws.post_run of a job that did not run,
      dws.teardown and dws.abort. */
  predicate WantsTeardown(m: Msg) { m == PostRunRequest(false) || m == TeardownRequest || m == AbortRequest }

  /** The entry that such a request finds. An abort has removed the epilog. */
  function Found(d: Dws, m: Msg): Info {
    var entry := if d.cache.Some? then d.cache.value else NEW_INFO;
    entry.(epilogRemoved := entry.epilogRemoved || m == AbortRequest)
  }

  /** What they do: ask for it if the object is there, remove the epilog if it is not. */
  ghost predicate Asks(w: World, s: Step, entry: Info, msgs: multiset<Msg>)
  {
    var World(j, Dws(_, armed, c, n)) := w;
    if c.live
    then Answers(w, s, World(j, Dws(Some(entry.(toredown := true)), armed, c.(pending := c.pending + 1),
                                    Net(msgs, Then(n.log, Requested(Teardown))))))
    else Answers(w, s, World(j, Dws(None, armed, c, Net(msgs + multiset{EpilogRemove}, Then(n.log, RemovalSent)))))
  }

  lemma {:induction false} TeardownIsAsked(w: World, m: Msg, fault: Fault)
    requires Requests(w, m) && WantsTeardown(m) && fault != Early && !Found(w.dws, m).toredown
    ensures var d := w.dws;
            Asks(w, ServiceHandles(m, fault), Found(d, m),
                 d.net.msgs - multiset{m} + if m.PostRunRequest? then multiset{PostRunReply(true)} else multiset{})
  {
    if m.PostRunRequest? {
      PostRunAsks(w, fault);
    } else {
      RequestAsks(w, m, fault);
    }
  }

  lemma {:induction false} PostRunAsks(w: World, fault: Fault)
    requires Requests(w, PostRunRequest(false)) && fault != Early && !InfoOf(w.dws).toredown
    ensures var d, m := w.dws, PostRunRequest(false);
            Asks(w, ServiceHandles(m, fault), InfoOf(d), d.net.msgs - multiset{m} + multiset{PostRunReply(true)})
  {
    var d := w.dws;
    var rest := d.net.msgs - multiset{PostRunRequest(false)};
    PostRunChecks(d.(net := d.net.(msgs := rest)), fault);
  }

  lemma {:induction false} PostRunChecks(d: Dws, fault: Fault)
    requires fault != Early && !InfoOf(d).toredown
    ensures var (c, n) := (d.cluster, d.net);
            var msgs := n.msgs + multiset{PostRunReply(true)};
            Handle(d, PostRunRequest(false), fault) ==
            if c.live
            then Dws(Some(InfoOf(d).(toredown := true)), d.armed, c.(pending := c.pending + 1),
                     Net(msgs, Then(n.log, Requested(Teardown))))
            else Dws(None, d.armed, c, Net(msgs + multiset{EpilogRemove}, Then(n.log, RemovalSent)))
  {
    assert d.net.msgs + multiset{EpilogRemove} + multiset{PostRunReply(true)}
        == d.net.msgs + multiset{PostRunReply(true)} + multiset{EpilogRemove};
  }

  lemma {:induction false} RequestAsks(w: World, m: Msg, fault: Fault)
    requires Requests(w, m) && (m == TeardownRequest || m == AbortRequest) && fault != Early
    requires !InfoOf(w.dws).toredown
    ensures var d := w.dws;
            Asks(w, ServiceHandles(m, fault), Found(d, m), d.net.msgs - multiset{m} + multiset{})
  {
    var d := w.dws;
    var rest := d.net.msgs - multiset{m};
    assert rest + multiset{} == rest;
    RequestChecks(d.(net := d.net.(msgs := rest)), m, fault);
  }

  lemma {:induction false} RequestChecks(d: Dws, m: Msg, fault: Fault)
    requires fault != Early && !InfoOf(d).toredown && (m == TeardownRequest || m == AbortRequest)
    ensures var (c, n) := (d.cluster, d.net);
            Handle(d, m, fault) ==
            if c.live
            then Dws(Some(Found(d, m).(toredown := true)), d.armed, c.(pending := c.pending + 1),
                     Net(n.msgs, Then(n.log, Requested(Teardown))))
            else Dws(None, d.armed, c, Net(n.msgs + multiset{EpilogRemove}, Then(n.log, RemovalSent)))
  {
  }

  /** If one fails at once or finds the workflow torn down, it is just answered. */
  lemma {:induction false} TeardownIsNotAsked(w: World, m: Msg, fault: Fault)
    requires Requests(w, m) && WantsTeardown(m) && (fault == Early || Found(w.dws, m).toredown)
    ensures var World(j, Dws(cache, armed, c, n)) := w;
            var entry := Found(w.dws, m);
            var sent := n.msgs - multiset{m}
                        + if m.PostRunRequest? then multiset{PostRunReply(entry.toredown)} else multiset{};
            Answers(w, ServiceHandles(m, fault), World(j, Dws(Some(entry), armed, c, Net(sent, n.log))))
  {
    var n := w.dws.net;
    assert n.msgs - multiset{m} + multiset{} == n.msgs - multiset{m};
  }

  /** A timer asks for the teardown whatever the entry says; without object and entry it
      does nothing. */
  lemma {:induction false} TimerIsAnswered(w: World, fault: Fault)
    requires w.dws.armed
    ensures var World(j, Dws(cache, armed, c, n)) := w;
            var entry := if cache.Some? then cache.value else NEW_INFO;
            Answers(w, TimerFires(fault),
                  if fault == Early || (!c.live && cache.None?) then w
                  else if c.live
                  then World(j, Dws(Some(entry.(toredown := true)), armed, c.(pending := c.pending + 1),
                                    Net(n.msgs, Then(n.log, Requested(Teardown)))))
                  else World(j, Dws(None, armed, c, Net(n.msgs + multiset{EpilogRemove}, Then(n.log, RemovalSent)))))
  {
  }

  // ----- the job and the plugin

  /** The steps that end a job: an exception raised by others, the lookup of R or dws.setup
      failing while the prolog is active, breakdowns that do not fit, and a dws.post_run
      that failed. */
  predicate Ends(j: Job, s: Step) {
    match s
    case Exception(_) => j.phase != Inactive
    case RFetched(ok) => !ok && j.prolog == Some(true)
    case PluginReceives(m) =>
      || (m == SetupReply(false) && j.prolog == Some(true))
      || (m == ResourceUpdate(true) && j.phase != Inactive)
      || (m == PostRunReply(false) && j.phase != Inactive)
    case _ => false
  }

  /** A job is ended by these steps and no others, at any point of any run. */
  lemma {:induction false} FatalIff(run: seq<Step>, s: Step)
    requires After(run).Some? && Enabled(After(run).value, s)
    ensures After(run + [s]).Some?
    ensures After(run + [s]).value.job.fatal <==> After(run).value.job.fatal || Ends(After(run).value.job, s)
    ensures Ends(After(run).value.job, s) ==> After(run + [s]).value.job.phase == Cleanup
  {
    DwsRuns.RunKeeps(run, false);
    DwsRuns.Onward(run, s);
    StepEnds(After(run).value, s);
  }

  lemma {:induction false} StepEnds(w: World, s: Step)
    requires Enabled(w, s) && JobShape(w.job)
    ensures Next(w, s).job.fatal <==> w.job.fatal || Ends(w.job, s)
    ensures Ends(w.job, s) ==> Next(w, s).job.phase == Cleanup
  {
    if s.PluginReceives? {
      ReceiptEnds(w.job, Take(w.dws.net, s.reply), s.reply);
    }
  }

  lemma {:induction false} ReceiptEnds(j: Job, n: Net, m: Msg)
    requires JobShape(j)
    ensures var (j', _) := Receive(j, n, m);
            && j'.started == j.started
            && (j'.fatal <==> j.fatal || Ends(j, PluginReceives(m)))
            && (Ends(j, PluginReceives(m)) ==> j'.phase == Cleanup)
  {
  }

  /** A job that had not started by then never starts. */
  lemma {:induction false} EndedNeverStarts(run: seq<Step>, k: nat)
    requires After(run).Some? && k < |run| && After(run[..k]).Some?
    requires var j := After(run[..k]).value.job; Ends(j, run[k]) && !j.started
    ensures !After(run).value.job.started
  {
    ReachedBefore(run, k + 1);
    EndedAfter(run[..k], run[k]);
    assert run[..k + 1] == run[..k] + [run[k]];
    DwsAbandoned.NeverStarts(run, k + 1);
  }

  lemma {:induction false} EndedAfter(run: seq<Step>, s: Step)
    requires After(run).Some? && Enabled(After(run).value, s)
    requires Ends(After(run).value.job, s) && !After(run).value.job.started
    ensures After(run + [s]).Some?
    ensures var j := After(run + [s]).value.job; j.phase == Cleanup && !j.started
  {
    DwsRuns.RunKeeps(run, false);
    DwsRuns.Onward(run, s);
    StepEnds(After(run).value, s);
    StartedBefore(After(run).value, s);
  }

  lemma {:induction false} ReachedBefore(run: seq<Step>, k: nat)
    requires After(run).Some? && 0 < k <= |run|
    ensures After(run[..k]).Some? && After(run[..k - 1]).Some? && Enabled(After(run[..k - 1]).value, run[k - 1])
  {
    if k < |run| {
      ReachedBefore(run[..|run| - 1], k);
      assert run[..|run| - 1][..k] == run[..k] && run[..|run| - 1][..k - 1] == run[..k - 1];
    } else {
      assert run[..k] == run;
    }
  }

  lemma {:induction false} StartedBefore(w: World, s: Step)
    requires Enabled(w, s)
    requires JobShape(w.job)
    ensures Next(w, s).job.started <==> w.job.started || s == JobStart
  {
    if s.PluginReceives? {
      ReceiptEnds(w.job, Take(w.dws.net, s.reply), s.reply);
    }
  }

  /** The service and the cluster are untouched. */
  ghost predicate PluginAnswers(w: World, s: Step, j: Job, n: Net)
  {
    Answers(w, s, World(j, w.dws.(net := n)))
  }

  /** The job as an exception of severity 0 leaves it: in CLEANUP, if it was not there. */
  function Ended(j: Job): Job {
    j.(fatal := true, phase := Cleanup, cleanupPending := j.cleanupPending || j.phase != Cleanup)
  }

  /** What a failed dws.setup, breakdowns that do not fit and a failed lookup of R do in any
      run: they end the job, if at all, and leave the rest to the exception. */
  lemma {:induction false} FailureIsReceived(run: seq<Step>, w: World, m: Msg)
    requires After(run) == Some(w) && m in w.dws.net.msgs
    requires m == SetupReply(false) || m == ResourceUpdate(true)
    ensures PluginAnswers(w, PluginReceives(m), if Ends(w.job, PluginReceives(m)) then Ended(w.job) else w.job,
                          Take(w.dws.net, m))
  {
    DwsRuns.RunKeeps(run, false);
    FailureInWorld(w, m);
  }

  lemma {:induction false} FailureInWorld(w: World, m: Msg)
    requires JobShape(w.job) && m in w.dws.net.msgs && (m == SetupReply(false) || m == ResourceUpdate(true))
    ensures PluginAnswers(w, PluginReceives(m), if Ends(w.job, PluginReceives(m)) then Ended(w.job) else w.job,
                          Take(w.dws.net, m))
  {
  }

  lemma {:induction false} RIsMissing(run: seq<Step>, w: World)
    requires After(run) == Some(w) && w.job.fetching
    ensures PluginAnswers(w, RFetched(false),
                          (if Ends(w.job, RFetched(false)) then Ended(w.job) else w.job).(fetching := false), w.dws.net)
  {
    DwsRuns.RunKeeps(run, false);
    MissingInWorld(w);
  }

  lemma {:induction false} MissingInWorld(w: World)
    requires JobShape(w.job) && w.job.fetching
    ensures PluginAnswers(w, RFetched(false),
                          (if Ends(w.job, RFetched(false)) then Ended(w.job) else w.job).(fetching := false), w.dws.net)
  {
  }

  /** A job that enters RUN has its prolog started and its R looked up. */
  lemma {:induction false} RunIsEntered(w: World)
    requires Enabled(w, EnterRun)
    ensures var World(j, d) := w;
            PluginAnswers(w, EnterRun, j.(phase := Run, prolog := Some(true), fetching := true),
                        d.net.(log := Then(d.net.log, PrologStart)))
  {
  }

  /** R found: dws.setup is sent, whatever has become of the job. */
  lemma {:induction false} RIsSent(w: World)
    requires w.job.fetching
    ensures var World(j, d) := w;
            PluginAnswers(w, RFetched(true), j.(fetching := false),
                        d.net.(msgs := d.net.msgs + multiset{SetupRequest}))
  {
  }

  /** Breakdowns that fit let the job be scheduled. */
  lemma {:induction false} FitIsScheduled(w: World)
    requires ResourceUpdate(false) in w.dws.net.msgs
    ensures var World(j, d) := w;
            PluginAnswers(w, PluginReceives(ResourceUpdate(false)),
                        if j.phase == Depend then j.(phase := Sched) else j,
                        d.net.(msgs := d.net.msgs - multiset{ResourceUpdate(false)}))
  {
  }

  /** dws.prolog-remove ends an active prolog with success; in no run does it do anything
      else. */
  lemma {:induction false} PrologIsRemoved(run: seq<Step>, w: World)
    requires After(run) == Some(w) && PrologRemove in w.dws.net.msgs
    ensures Removed(w)
  {
    DwsRuns.RunKeeps(run, false);
    ProgressBound(w.dws.net.log);
    RemovalInWorld(w);
  }

  ghost predicate Removed(w: World) {
    var World(j, d) := w;
    var rest := d.net.(msgs := d.net.msgs - multiset{PrologRemove});
    if j.prolog == Some(true)
    then PluginAnswers(w, PluginReceives(PrologRemove), j.(prolog := Some(false)),
                       rest.(log := Then(rest.log, PrologFinish(true))))
    else PluginAnswers(w, PluginReceives(PrologRemove), j, rest)
  }

  lemma {:induction false} RemovalInWorld(w: World)
    requires PrologRemove in w.dws.net.msgs && JobShape(w.job) && (w.job.prolog.None? ==> w.job.phase == Inactive)
    ensures Removed(w)
  {
  }

  /** dws.epilog-remove ends the epilog of a job in CLEANUP. */
  lemma {:induction false} EpilogIsRemoved(w: World)
    requires EpilogRemove in w.dws.net.msgs
    ensures var World(j, d) := w;
            var rest := d.net.(msgs := d.net.msgs - multiset{EpilogRemove});
            PluginAnswers(w, PluginReceives(EpilogRemove), j,
                        if j.phase == Cleanup then rest.(log := Then(rest.log, EpilogFinish(true))) else rest)
  {
  }

  /** A severity-0 exception ends an active prolog; otherwise it has the workflow of a job
      in its epilog torn down, or aborted, which ends the epilog at once. */
  lemma {:induction false} ExceptionIsHandled(w: World, abort: bool)
    requires Enabled(w, ExceptionCall(0, abort))
    ensures var World(j, d) := w;
            var log := Then(d.net.log, ExceptionHandled);
            var s := ExceptionCall(0, abort);
            if j.prolog == Some(true)
            then PluginAnswers(w, s, j.(prolog := Some(false)), d.net.(log := Then(log, PrologFinish(false))))
            else if !j.epilog then PluginAnswers(w, s, j, d.net.(log := log))
            else if abort
            then PluginAnswers(w, s, j, Net(d.net.msgs + multiset{AbortRequest},
                                            Then(Then(log, AbortSent), EpilogFinish(false))))
            else PluginAnswers(w, s, j, Net(d.net.msgs + multiset{TeardownRequest}, log))
  {
  }

  /** The epilog of a job that did not start is started as it enters CLEANUP, with
      dws.post_run. */
  lemma {:induction false} CleanupStartsEpilog(w: World)
    requires w.job.cleanupPending
    ensures var World(j, d) := w;
            if j.started then PluginAnswers(w, CleanupCall, j.(cleanupPending := false), d.net)
            else PluginAnswers(w, CleanupCall, j.(cleanupPending := false, epilog := true),
                             Net(d.net.msgs + multiset{PostRunRequest(false)}, Then(d.net.log, EpilogStart(false))))
  {
  }

  /** That of a job that did, as it finishes, once. */
  lemma {:induction false} FinishStartsEpilog(w: World)
    requires Enabled(w, FinishCall)
    ensures var World(j, d) := w;
            if j.epilog then PluginAnswers(w, FinishCall, j.(finishHandled := true), d.net)
            else PluginAnswers(w, FinishCall, j.(finishHandled := true, epilog := true),
                             Net(d.net.msgs + multiset{PostRunRequest(true)}, Then(d.net.log, EpilogStart(true))))
  {
  }

  /** A dws.post_run that failed ends the epilog, too. */
  lemma {:induction false} FailedPostRunEndsEpilog(w: World)
    requires PostRunReply(false) in w.dws.net.msgs
    requires w.job.phase != Inactive
    ensures var World(j, d) := w;
            PluginAnswers(w, PluginReceives(PostRunReply(false)),
                        Ended(j), Net(d.net.msgs - multiset{PostRunReply(false)}, Then(d.net.log, EpilogFinish(false))))
  {
  }
}
