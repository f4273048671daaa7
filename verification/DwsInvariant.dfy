/** What holds throughout every run of the DWS protocol. */
module DwsInvariant {
  import opened Wrappers
  import opened DwsTypes
  import opened DwsJobtap
  import opened DwsService
  import opened DwsProtocol

  predicate TornDownIn(l: Log) { Count(l, Requested(Teardown)) > 0 }

  /** The workflow, its watch and the service's entry for it. */
  predicate StreamInv(d: Dws) {
    var c := d.cluster;
    && (c.live ==> c.hist != [] && c.hist[|c.hist| - 1] == Snapshot(c.desired, c.state, c.ready))
    && (c.live ==> forall i :: 0 <= i < |c.hist| ==> c.hist[i].Snapshot?)
    && (c.live ==> (InfoOf(d).toredown <==> TornDownIn(d.net.log)))
    && (c.hist == [] ==> !c.live && c.cursor == 0 && !InfoOf(d).toredown && !d.armed && c.pending == 0)
    && (c.hist == [] ==> Highest(d.net.log) == 0 && !TornDownIn(d.net.log))
    && (c.hist != [] ==> c.cursor < |c.hist|)
    && d.net.msgs[CreateRequest] <= 1
    && (d.net.msgs[CreateRequest] > 0 ==> c.hist == [])
  }

  /** The least progress that a desiredState needs. */
  function Level(s: WState): nat {
    match s
    case Proposal => 0
    case Setup => 1
    case DataIn => 3
    case PreRun => 5
    case PostRun => 6
    case DataOut => 6
    case Teardown => 0
  }

  predicate LevelOk(s: Snapshot, l: Log) {
    s.Snapshot? ==>
      && Level(s.desired) <= Progress(l)
      && (s.desired == PostRun || s.desired == DataOut ==> Count(l, Requested(PostRun)) > 0)
  }

  function SetupTokens(j: Job, n: Net): nat {
    (if j.fetching then 1 else 0) + n.msgs[SetupRequest] + Count(n.log, Requested(Setup))
  }

  function PostRunTokens(n: Net): nat { n.msgs[PostRunRequest(true)] + Count(n.log, Requested(PostRun)) }

  /** What has been asked for once, and what a start and a prolog-remove message tell. */
  predicate TokenInv(j: Job, n: Net) {
    && SetupTokens(j, n) <= 1
    && PostRunTokens(n) <= 1
    && (PostRunTokens(n) > 0 ==> j.started && j.finishHandled)
    && (PrologRemove in n.msgs ==> Progress(n.log) == 6)
    && (j.started ==> Progress(n.log) == 6)
  }

  /** How far the workflow has come. */
  predicate LevelInv(hist: seq<Snapshot>, l: Log) { forall i :: 0 <= i < |hist| ==> LevelOk(hist[i], l) }

  /** Desired states as the watch has shown them never go backward. */
  predicate Rising(hist: seq<Snapshot>) {
    forall i, j :: 0 <= i < j < |hist| && hist[i].Snapshot? && hist[j].Snapshot? ==>
      Rank(hist[i].desired) <= Rank(hist[j].desired)
  }

  /** What the last delivered snapshot says about the object while no teardown has
      been asked for: at most one request lies between them. */
  predicate Abreast(c: Cluster, l: Log)
    requires c.cursor < |c.hist| && c.hist[c.cursor].Snapshot?
  {
    && Highest(l) == Rank(c.desired) <= Rank(c.hist[c.cursor].desired) + 1
    && (Progress(l) == 6 ==> Rank(c.hist[c.cursor].desired) >= Rank(PreRun))
  }

  /** Requests and snapshots in order. */
  predicate OrderInv(d: Dws) {
    var c := d.cluster;
    && Monotone(d.net.log)
    && Rising(c.hist)
    && (c.pending > 0 ==> TornDownIn(d.net.log))
    && (c.live && TornDownIn(d.net.log) ==> c.pending > 0 || c.desired == Teardown)
    && (c.live && !TornDownIn(d.net.log) ==>
          c.cursor < |c.hist| && c.hist[c.cursor].Snapshot? && Abreast(c, d.net.log))
  }

  /** Where a job can be. */
  predicate JobShape(j: Job) {
    && (j.phase == Depend || j.phase == Sched ==>
          j.prolog.None? && !j.fetching && !j.started && !j.fatal && !j.epilog)
    && (j.phase == Run ==> j.prolog.Some? && !j.fatal && !j.epilog)
    && (j.phase != Cleanup ==> !j.cleanupPending)
    && (j.phase == Inactive ==> j.prolog.None? && !j.epilog && (j.started ==> j.finishHandled))
    && (j.finishHandled ==> j.finished)
    && (j.finished ==> j.started && (j.phase == Cleanup || j.phase == Inactive))
    && (j.started && j.phase != Inactive ==> j.prolog == Some(false))
  }

  /** job.state.cleanup has been called. */
  predicate Cleaned(j: Job) { (j.phase == Cleanup || j.phase == Inactive) && !j.cleanupPending }

  /** How often the prolog has been finished. */
  function Finishes(l: Log): nat { Count(l, PrologFinish(true)) + Count(l, PrologFinish(false)) }

  predicate PrologInv(j: Job, l: Log) {
    && Finishes(l) <= 1
    && (j.phase != Inactive ==> Finishes(l) == if j.prolog == Some(false) then 1 else 0)
    && (Count(l, ExceptionHandled) > 0 ==> j.fatal && j.prolog != Some(true))
    && (j.started || (j.prolog == Some(false) && !j.fatal) ==> Count(l, PrologFinish(true)) == 1)
  }

  predicate EpilogInv(j: Job, l: Log) {
    && Count(l, EpilogStart(true)) == (if j.finishHandled then 1 else 0)
    && Count(l, EpilogStart(false)) == (if !j.started && Cleaned(j) then 1 else 0)
    && (j.epilog <==> j.phase != Inactive && (j.finishHandled || (!j.started && Cleaned(j))))
  }

  /** The plugin's flags agree with what it has done. */
  predicate PluginInv(j: Job, n: Net) {
    && JobShape(j)
    && PrologInv(j, n.log)
    && EpilogInv(j, n.log)
    && (j.prolog.None? && j.phase != Inactive ==> SetupTokens(j, n) == 0)
    && (j.prolog == Some(false) && !j.fatal ==> Progress(n.log) == 6)
  }

  /** What concerns the plugin and the messages only. */
  predicate NetInv(j: Job, n: Net) { PluginInv(j, n) && TokenInv(j, n) && Earned(n.log) }

  /** Everything together. The order is kept only by runs that set up before they
      tear down. */
  predicate Inv(j: Job, d: Dws, ordered: bool) {
    && NetInv(j, d.net)
    && StreamInv(d)
    && LevelInv(d.cluster.hist, d.net.log)
    && (ordered ==> OrderInv(d))
  }

  lemma {:induction false} HighestBound(l: Log)
    ensures Highest(l) <= Rank(Teardown)
    ensures TornDownIn(l) ==> Highest(l) == Rank(Teardown)
  {
    if l.Then? {
      HighestBound(l.before);
    }
  }

  lemma {:induction false} ProgressBound(l: Log)
    ensures Progress(l) <= 6
    ensures Progress(l) >= 1 ==> Count(l, Requested(Setup)) > 0 && Highest(l) >= 1
  {
    if l.Then? {
      ProgressBound(l.before);
    }
  }

  lemma {:induction false} ProgressGrows(l: Log, e: Event)
    ensures Progress(l) <= Progress(Then(l, e)) <= 6
    ensures !e.Requested? && !e.Reported? ==> Progress(Then(l, e)) == Progress(l)
    ensures Progress(l) < 6 && Progress(Then(l, e)) == 6 ==> e == Reported(PreRun)
  {
    ProgressBound(l);
  }

  lemma {:induction false} LevelsGrow(hist: seq<Snapshot>, l: Log, e: Event)
    requires LevelInv(hist, l)
    ensures LevelInv(hist, Then(l, e))
  {
    ProgressGrows(l, e);
  }

  lemma {:induction false} MilestoneReached(l: Log, p: nat)
    requires p < 6 && p <= Progress(l)
    ensures p + 1 <= Progress(Then(l, Milestone(p)))
  {
  }

  lemma {:induction false} HighestBelowTeardown(l: Log)
    requires !TornDownIn(l)
    ensures Highest(l) < Rank(Teardown)
  {
    if l.Then? {
      HighestBelowTeardown(l.before);
    }
  }

  lemma {:induction false} RisingMore(hist: seq<Snapshot>, s: Snapshot)
    requires Rising(hist)
    requires hist != [] && s.Snapshot? ==> (forall i :: 0 <= i < |hist| ==> hist[i].Snapshot?)
    requires hist != [] && s.Snapshot? ==> Rank(hist[|hist| - 1].desired) <= Rank(s.desired)
    ensures Rising(hist + [s])
  {
  }

  /** Nothing new about the service's requests. */
  predicate Quiet(l: Log, l': Log) {
    && Highest(l') == Highest(l)
    && Progress(l') == Progress(l)
    && Count(l', Requested(Setup)) == Count(l, Requested(Setup))
    && Count(l', Requested(PostRun)) == Count(l, Requested(PostRun))
    && Count(l', Requested(Teardown)) == Count(l, Requested(Teardown))
    && (Monotone(l) ==> Monotone(l'))
  }

  lemma {:induction false} QuietNote(l: Log, e: Event)
    requires !e.Requested? && !e.Reported?
    ensures Quiet(l, Then(l, e))
  {
    ProgressGrows(l, e);
  }

  /** A step of the plugin, or a message: the job and the net change, and nothing is
      asked of the workflow. */
  predicate NetStep(n: Net, j': Job, n': Net) {
    NetInv(j', n') && Quiet(n.log, n'.log) && n'.msgs[CreateRequest] <= n.msgs[CreateRequest]
  }

  lemma {:induction false} NetKeepsLevels(hist: seq<Snapshot>, l: Log, l': Log)
    requires Quiet(l, l') && LevelInv(hist, l)
    ensures LevelInv(hist, l')
  {
    forall i | 0 <= i < |hist| ensures LevelOk(hist[i], l') {
      assert LevelOk(hist[i], l);
    }
  }

  lemma {:induction false} NetKeepsStream(d: Dws, n: Net)
    requires StreamInv(d) && Quiet(d.net.log, n.log)
    requires n.msgs[CreateRequest] <= d.net.msgs[CreateRequest]
    ensures StreamInv(d.(net := n))
  {
  }

  lemma {:induction false} NetKeepsOrder(d: Dws, n: Net)
    requires OrderInv(d) && Quiet(d.net.log, n.log)
    ensures OrderInv(d.(net := n))
  {
  }

  lemma {:induction false} NetStepKeeps(j: Job, j': Job, d: Dws, n: Net, ordered: bool)
    requires Inv(j, d, ordered) && NetStep(d.net, j', n)
    ensures Inv(j', d.(net := n), ordered)
  {
    NetKeepsStream(d, n);
    NetKeepsLevels(d.cluster.hist, d.net.log, n.log);
    if ordered {
      NetKeepsOrder(d, n);
    }
  }

  /** An event that no flag of the plugin stands for. */
  predicate Neutral(e: Event) {
    e.Requested? || e.Reported? || e.PrologStart? || e.EpilogFinish? || e.RemovalSent? || e.AbortSent?
  }

  lemma {:induction false} NeutralKeepsPlugin(j: Job, n: Net, e: Event)
    requires PluginInv(j, n) && Neutral(e)
    requires e == Requested(Setup) ==> j.prolog.Some? || j.phase == Inactive
    ensures PluginInv(j, Note(n, e))
  {
    ProgressGrows(n.log, e);
  }

  lemma {:induction false} NeutralNote(j: Job, n: Net, e: Event)
    requires NetInv(j, n) && Neutral(e) && !e.Requested? && !e.Reported?
    ensures NetStep(n, j, Note(n, e))
  {
    NeutralKeepsPlugin(j, n, e);
    QuietNote(n.log, e);
  }

  lemma {:induction false} NetTake(j: Job, n: Net, m: Msg)
    requires NetInv(j, n) && m in n.msgs
    ensures NetStep(n, j, Take(n, m))
  {
  }

  /** A message that is not counted. */
  lemma {:induction false} NetSend(j: Job, n: Net, m: Msg)
    requires NetInv(j, n) && m != CreateRequest && m != SetupRequest && m != PostRunRequest(true)
    requires m == PrologRemove ==> Progress(n.log) == 6
    ensures NetStep(n, j, Send(n, m))
  {
  }

  lemma {:induction false} NetStepsAdd(n: Net, j: Job, n': Net, j': Job, n'': Net)
    requires NetStep(n, j, n') && NetStep(n', j', n'')
    ensures NetStep(n, j', n'')
  {
  }

  lemma {:induction false} TakeKeeps(j: Job, d: Dws, m: Msg, ordered: bool)
    requires Inv(j, d, ordered) && m in d.net.msgs
    ensures Inv(j, d.(net := Take(d.net, m)), ordered)
  {
    NetTake(j, d.net, m);
    NetStepKeeps(j, j, d, Take(d.net, m), ordered);
  }
}
