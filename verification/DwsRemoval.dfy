/** The epilog of a job outlives its workflow only with a removal on record. */
module DwsRemoval {
  import opened Wrappers
  import opened DwsTypes
  import opened DwsJobtap
  import opened DwsService
  import opened DwsProtocol

  /** A workflow is given up for deletion only after the epilog's removal was sent, or
      was found done by an abort; and an abort comes from a plugin that has ended it. */
  predicate RemovalInv(d: Dws) {
    && (InfoOf(d).deleted ==> InfoOf(d).epilogRemoved || Count(d.net.log, RemovalSent) > 0)
    && (InfoOf(d).epilogRemoved || AbortRequest in d.net.msgs ==> Count(d.net.log, AbortSent) > 0)
  }

  lemma {:induction false} ReceiveKeepsRemoval(j: Job, d: Dws, m: Msg)
    requires RemovalInv(d)
    ensures RemovalInv(d.(net := Receive(j, d.net, m).1))
  {
  }

  lemma {:induction false} ExceptionKeepsRemoval(j: Job, d: Dws, severity: nat, abort: bool)
    requires RemovalInv(d)
    ensures RemovalInv(d.(net := ExceptionCb(j, d.net, severity, abort).1))
  {
    var handled := Notes(d, ExceptionHandled);
    assert RemovalInv(handled);
    assert RemovalInv(Notes(Sends(handled, AbortRequest), AbortSent));
  }

  lemma {:induction false} PluginKeepsRemoval(w: World, s: Step)
    requires Enabled(w, s) && IsPlugin(s) && RemovalInv(w.dws)
    ensures RemovalInv(Next(w, s).dws)
  {
    if s.PluginReceives? {
      ReceiveKeepsRemoval(w.job, w.dws.(net := Take(w.dws.net, s.reply)), s.reply);
    } else if s.ExceptionCall? {
      ExceptionKeepsRemoval(w.job, w.dws, s.severity, s.abort);
    }
  }

  lemma {:induction false} CheckExistenceKeepsRemoval(d: Dws)
    requires RemovalInv(d)
    ensures RemovalInv(CheckExistence(d))
  {
  }

  lemma {:induction false} CompletedKeepsRemoval(d: Dws, s: WState, fit: Fit, fault: Fault)
    requires RemovalInv(d)
    ensures RemovalInv(Completed(d, s, fit, fault).0)
  {
    assert RemovalInv(Notes(d, Reported(s)));
  }

  lemma {:induction false} TornDownKeepsRemoval(d: Dws, fault: Fault)
    requires RemovalInv(d)
    ensures RemovalInv(TornDown(d, fault).0)
  {
  }

  lemma {:induction false} InnerKeepsRemoval(d: Dws, s: Snapshot, fit: Fit, fault: Fault)
    requires s.Snapshot? && RemovalInv(d)
    ensures RemovalInv(Inner(d, s, fit, fault).0)
  {
    TornDownKeepsRemoval(d, fault);
    CompletedKeepsRemoval(d, s.desired, fit, fault);
  }

  lemma {:induction false} DeliverKeepsRemoval(d: Dws, i: nat, fit: Fit, fault: Fault)
    requires i < |d.cluster.hist| && RemovalInv(d)
    ensures RemovalInv(Deliver(d, i, fit, fault))
  {
    var s := d.cluster.hist[i];
    if s.Snapshot? {
      InnerKeepsRemoval(Cached(d.(cluster := d.cluster.(cursor := i))), s, fit, fault);
    }
  }

  /** A request and a reply. */
  lemma {:induction false} RequestKeepsRemoval(d: Dws, s: WState, m: Msg)
    requires RemovalInv(d) && m != AbortRequest
    ensures RemovalInv(Sends(MoveDesired(d, s), m))
    ensures RemovalInv(Sends(d, m))
  {
    assert RemovalInv(MoveDesired(d, s));
  }

  lemma {:induction false} PostRunKeepsRemoval(d: Dws, runStarted: bool, fault: Fault)
    requires RemovalInv(d)
    ensures RemovalInv(PostRunCb(d, runStarted, fault))
  {
    var d' := Cached(d);
    assert RemovalInv(d');
    if !InfoOf(d').toredown && fault != Early && !runStarted {
      CheckExistenceKeepsRemoval(d');
      RequestKeepsRemoval(CheckExistence(d'), PostRun, PostRunReply(true));
    } else {
      RequestKeepsRemoval(d', PostRun, PostRunReply(true));
      RequestKeepsRemoval(d', PostRun, PostRunReply(false));
    }
  }

  lemma {:induction false} SetupKeepsRemoval(d: Dws, fault: Fault)
    requires RemovalInv(d)
    ensures RemovalInv(SetupCb(d, fault))
  {
    assert RemovalInv(Cached(d));
    RequestKeepsRemoval(d, Setup, SetupReply(false));
    RequestKeepsRemoval(Cached(d), Setup, SetupReply(fault == NoFault));
  }

  lemma {:induction false} CreateKeepsRemoval(d: Dws, fault: Fault)
    requires RemovalInv(d)
    ensures RemovalInv(CreateCb(d, fault))
  {
  }

  lemma {:induction false} AbortKeepsRemoval(d: Dws, fault: Fault)
    requires RemovalInv(d) && AbortRequest in d.net.msgs
    ensures RemovalInv(AbortCb(d.(net := Take(d.net, AbortRequest)), fault))
  {
    var d' := d.(net := Take(d.net, AbortRequest));
    CheckExistenceKeepsRemoval(d'.(cache := Some(InfoOf(d').(epilogRemoved := true))));
  }

  lemma {:induction false} HandleKeepsRemoval(d: Dws, m: Msg, fault: Fault)
    requires RemovalInv(d) && m in d.net.msgs && ForService(m)
    ensures RemovalInv(Handle(d.(net := Take(d.net, m)), m, fault))
  {
    var d' := d.(net := Take(d.net, m));
    assert RemovalInv(d');
    match m
    case CreateRequest => CreateKeepsRemoval(d', fault);
    case SetupRequest => SetupKeepsRemoval(d', fault);
    case PostRunRequest(runStarted) => PostRunKeepsRemoval(d', runStarted, fault);
    case TeardownRequest => CheckExistenceKeepsRemoval(Cached(d'));
    case AbortRequest => AbortKeepsRemoval(d, fault);
  }

  lemma {:induction false} ServiceKeepsRemoval(w: World, s: Step)
    requires Enabled(w, s) && !IsPlugin(s) && RemovalInv(w.dws)
    ensures RemovalInv(Next(w, s).dws)
  {
    match s
    case ServiceHandles(m, fault) => HandleKeepsRemoval(w.dws, m, fault);
    case Delivered(i, fit, fault) => DeliverKeepsRemoval(w.dws, i, fit, fault);
    case TimerFires(_) => CheckExistenceKeepsRemoval(w.dws);
    case _ =>
  }

  /** In every run, once the service has asked for the workflow's deletion, it has sent
      dws.epilog-remove, or the plugin has ended the epilog itself as it sent an abort. */
  lemma {:induction false} DeletionFollowsRemoval(run: seq<Step>)
    requires After(run).Some?
    ensures var d := After(run).value.dws;
            InfoOf(d).deleted ==> Count(d.net.log, RemovalSent) + Count(d.net.log, AbortSent) > 0
    ensures RemovalInv(After(run).value.dws)
  {
    if run != [] {
      var front, last := run[..|run| - 1], run[|run| - 1];
      DeletionFollowsRemoval(front);
      if IsPlugin(last) {
        PluginKeepsRemoval(After(front).value, last);
      } else {
        ServiceKeepsRemoval(After(front).value, last);
      }
    }
  }
}
