/** The plugin and the service at work on one bus: a driver that takes the steps of a
    run one after the other, so that what is proved of runs holds of the callbacks. */
module DwsSystem {
  import opened Wrappers
  import opened DwsTypes
  import opened DwsJobtap
  import opened DwsService
  import opened DwsProtocol
  import opened DwsInvariant
  import DwsRuns
  import DwsTeardown

  class System {
    const bus: Bus
    const plugin: Plugin
    const service: Coral2Dws

    predicate Valid()
    {
      plugin.bus == bus && service.bus == bus
    }

    function View(): World
      reads plugin, service, service.bus
    {
      World(plugin.job, service.State())
    }

    constructor ()
      ensures Valid() && View() == START
    {
      var net := new Bus(Net(multiset{CreateRequest}, Empty));
      bus := net;
      plugin := new Plugin(net);
      service := new Coral2Dws(net);
    }

    method Receive(m: Msg)
      requires Valid() && m in bus.net.msgs && !ForService(m)
      modifies plugin, bus
      ensures (plugin.job, bus.net) == DwsProtocol.Receive(old(plugin.job), Take(old(bus.net), m), m)
    {
      bus.net := Take(bus.net, m);
      match m
      case SetupReply(success) => plugin.OnSetupReply(success);
      case PostRunReply(success) => plugin.OnPostRunReply(success);
      case ResourceUpdate(failed) => plugin.OnResourceUpdate(failed);
      case PrologRemove => plugin.OnPrologRemove();
      case EpilogRemove => plugin.OnEpilogRemove();
    }

    method Handle(m: Msg, fault: Fault)
      requires Valid() && m in bus.net.msgs && ForService(m)
      modifies service, bus
      ensures service.State() == DwsProtocol.Handle(old(service.State()).(net := Take(old(bus.net), m)), m, fault)
    {
      bus.net := Take(bus.net, m);
      match m
      case CreateRequest => service.OnCreate(fault);
      case SetupRequest => service.OnSetup(fault);
      case PostRunRequest(runStarted) => service.OnPostRun(runStarted, fault);
      case TeardownRequest => service.OnTeardown(fault);
      case AbortRequest => service.OnAbort(fault);
    }

    method StepPlugin(s: Step)
      requires Valid() && Enabled(View(), s) && IsPlugin(s)
      modifies plugin, bus
      ensures (plugin.job, bus.net) == PluginStep(old(plugin.job), old(bus.net), s)
    {
      var j := plugin.job;
      match s
      case EnterRun =>
        plugin.job := j.(phase := Phase.Run);
        plugin.OnRun();
      case JobStart => plugin.job := j.(started := true);
      case JobFinish => plugin.job := ToCleanup(j).(finished := true);
      case Exception(abort) => plugin.job := Raise(j, abort);
      case Retire => plugin.job := j.(phase := Inactive, prolog := None, epilog := false);
      case CleanupCall => plugin.OnCleanup();
      case FinishCall => plugin.OnFinish();
      case ExceptionCall(severity, abort) => plugin.OnException(severity, abort);
      case RFetched(ok) => plugin.OnFetchR(ok);
      case PluginReceives(m) => Receive(m);
    }

    method StepService(s: Step)
      requires Valid() && Enabled(View(), s) && !IsPlugin(s)
      modifies service, bus
      ensures service.State() == ServiceStep(old(service.State()), s)
    {
      var c := service.cluster;
      match s
      case ServiceHandles(m, fault) => Handle(m, fault);
      case TimerFires(fault) => service.OnTimer(fault);
      case Delivered(i, fit, fault) =>
        service.cluster := c.(cursor := i);
        service.OnStateChange(c.hist[i], fit, fault);
      case TeardownPatched => service.cluster := TeardownLands(c);
      case ControllerReports(state, ready) => service.cluster := Controller(c, state, ready);
      case WorkflowDeleted => service.cluster := Delete(c);
    }

    /** Takes the steps in order, and stops at one that cannot happen. After a run that
        can happen the callbacks have led to its world, where the theorems about runs
        hold. */
    method Run(run: seq<Step>) returns (possible: bool)
      requires Valid() && View() == START
      modifies plugin, service, bus
      ensures possible <==> After(run).Some?
      ensures possible ==> View() == After(run).value && Inv(plugin.job, service.State(), false)
      ensures possible ==> (Monotone(bus.net.log) <==> DwsRuns.SetupBeforeTeardown(run))
      ensures possible ==> (Rising(service.cluster.hist) <==> DwsTeardown.NeverSetUpFromTeardown(run))
      ensures possible ==> Earned(bus.net.log) && Finishes(bus.net.log) <= 1
    {
      for k := 0 to |run|
        invariant After(run[..k]) == Some(View())
      {
        assert run[..k + 1][..k] == run[..k];
        if !Enabled(View(), run[k]) {
          Stuck(run, k + 1);
          return false;
        }
        if IsPlugin(run[k]) {
          StepPlugin(run[k]);
        } else {
          StepService(run[k]);
        }
      }
      assert run[..|run|] == run;
      DwsRuns.RunKeeps(run, false);
      DwsRuns.MonotoneIffSetupBeforeTeardown(run);
      DwsTeardown.WorkflowRisesIff(run);
      return true;
    }
  }

  /** A run that cannot happen does not become possible later. */
  lemma {:induction false} Stuck(run: seq<Step>, k: nat)
    requires k <= |run| && After(run[..k]).None?
    ensures After(run).None?
    decreases |run| - k
  {
    if k < |run| {
      assert run[..k + 1][..k] == run[..k];
      Stuck(run, k + 1);
    } else {
      assert run[..k] == run;
    }
  }
}
