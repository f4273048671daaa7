/** dws-jobtap: the job-manager plugin's callbacks for one job with a DW attribute.
    Calls into the job manager succeed and the plugin is not reloaded. */
module DwsJobtap {
  import opened Wrappers
  import opened DwsTypes

  datatype Phase = Depend | Sched | Run | Cleanup | Inactive

  /** The job as the job manager knows it, and what the plugin has attached to it. */
  datatype Job = Job(phase: Phase,
                     started: bool,          // a start event was posted
                     finished: bool,         // a finish event was posted
                     fatal: bool,            // a severity-0 exception was posted
                     abort: bool,            // ... of type dws-epilog-timeout
                     cleanupPending: bool,   // job.state.cleanup is still to be called
                     finishHandled: bool,    // job.event.finish has been called
                     prolog: Option<bool>,   // aux dws_prolog_active
                     epilog: bool,           // aux dws_epilog_active
                     fetching: bool)         // the lookup of R is outstanding

  const NEW_JOB := Job(Depend, false, false, false, false, false, false, None, false, false)

  /** A severity-0 exception is posted, which sends the job to CLEANUP. */
  function Raise(j: Job, abort: bool): Job {
    if j.phase == Inactive then j
    else
      j.(fatal := true, abort := j.abort || abort, phase := Cleanup,
         cleanupPending := j.cleanupPending || j.phase != Cleanup)
  }

  /** dws_prolog_finish on the job's own flag: failure is left to the exception
      handler. */
  function PrologFinishOf(j: Job, n: Net, success: bool): (Job, Net)
    requires j.prolog.Some?
  {
    if !j.prolog.value then (j, n)
    else if !success then (Raise(j, false), n)
    else (j.(prolog := Some(false)), Note(n, PrologFinish(true)))
  }

  /** run_cb, called as the job enters RUN. */
  function RunCb(j: Job, n: Net): (Job, Net) {
    (j.(prolog := Some(true), fetching := true), Note(n, PrologStart))
  }

  /** fetch_R_callback: it does not ask whether the prolog is still active, nor
      whether the job is still there. */
  function FetchR(j: Job, n: Net, ok: bool): (Job, Net) {
    var j' := j.(fetching := false);
    if ok then (j', Send(n, SetupRequest))
    else if j'.prolog.None? then (j', n)
    else PrologFinishOf(j', n, false)
  }

  /** setup_rpc_cb. */
  function SetupRpcCb(j: Job, n: Net, success: bool): (Job, Net) {
    if j.prolog.None? || success then (j, n) else PrologFinishOf(j, n, false)
  }

  /** start_dws_epilog_for_job. */
  function StartEpilog(j: Job, n: Net, runStarted: bool): (Job, Net) {
    (j.(epilog := true), Send(Note(n, EpilogStart(runStarted)), PostRunRequest(runStarted)))
  }

  /** cleanup_cb: the epilog starts here only if there was no start event. */
  function CleanupCb(j: Job, n: Net): (Job, Net) {
    var j' := j.(cleanupPending := false);
    if !j'.started then StartEpilog(j', n, false) else (j', n)
  }

  /** finish_cb, which may be called again for the same event. */
  function FinishCb(j: Job, n: Net): (Job, Net) {
    var j' := j.(finishHandled := true);
    if j'.epilog then (j', n) else StartEpilog(j', n, true)
  }

  /** exception_cb, which may be called again for the same event. */
  function ExceptionCb(j: Job, n: Net, severity: nat, abort: bool): (Job, Net) {
    if severity != 0 then (j, n)
    else
      var n' := Note(n, ExceptionHandled);
      if j.prolog == Some(true) then (j.(prolog := Some(false)), Note(n', PrologFinish(false)))
      else if !j.epilog then (j, n')
      else if abort then (j, Note(Note(Send(n', AbortRequest), AbortSent), EpilogFinish(false)))
      else (j, Send(n', TeardownRequest))
  }

  /** prolog_remove_msg_cb. Without the aux the code finishes a prolog on a dummy
      flag; on a job that is gone every call fails. */
  function PrologRemoveCb(j: Job, n: Net): (Job, Net) {
    if j.phase == Inactive then (j, n)
    else if j.prolog.None? then (j, Note(n, PrologFinish(true)))
    else PrologFinishOf(j, n, true)
  }

  /** epilog_remove_msg_cb. */
  function EpilogRemoveCb(j: Job, n: Net): (Job, Net) {
    if j.phase == Cleanup then (j, Note(n, EpilogFinish(true))) else (j, n)
  }

  /** post_run_rpc_callback. */
  function PostRunRpcCb(j: Job, n: Net, success: bool): (Job, Net) {
    if success || j.phase == Inactive then (j, n) else (Raise(j, false), Note(n, EpilogFinish(false)))
  }

  /** resource_update_msg_cb: releases the dependency of a job still in DEPEND. */
  function ResourceUpdateCb(j: Job, n: Net, failed: bool): (Job, Net) {
    if failed then (Raise(j, false), n)
    else if j.phase == Depend then (j.(phase := Sched), n)
    else (j, n)
  }

  /** The callbacks on their mutable state. */
  class Plugin {
    const bus: Bus
    var job: Job

    constructor (bus: Bus)
      ensures this.bus == bus && job == NEW_JOB
    {
      this.bus, job := bus, NEW_JOB;
    }

    method DwsPrologFinish(success: bool)
      requires job.prolog.Some?
      modifies this, bus
      ensures (job, bus.net) == PrologFinishOf(old(job), old(bus.net), success)
    {
      if job.prolog.value {
        if !success {
          job := Raise(job, false);
          return;
        }
        bus.net := Note(bus.net, PrologFinish(true));
        job := job.(prolog := Some(false));
      }
    }

    method OnRun()
      modifies this, bus
      ensures (job, bus.net) == RunCb(old(job), old(bus.net))
    {
      job := job.(prolog := Some(true));
      bus.net := Note(bus.net, PrologStart);
      job := job.(fetching := true);
    }

    method OnFetchR(ok: bool)
      modifies this, bus
      ensures (job, bus.net) == FetchR(old(job), old(bus.net), ok)
    {
      job := job.(fetching := false);
      if !ok {
        if job.prolog.Some? {
          DwsPrologFinish(false);
        }
        return;
      }
      bus.net := Send(bus.net, SetupRequest);
    }

    method OnSetupReply(success: bool)
      modifies this, bus
      ensures (job, bus.net) == SetupRpcCb(old(job), old(bus.net), success)
    {
      if job.prolog.None? {
        return;
      }
      if !success {
        DwsPrologFinish(false);
      }
    }

    method StartDwsEpilog(runStarted: bool)
      modifies this, bus
      ensures (job, bus.net) == StartEpilog(old(job), old(bus.net), runStarted)
    {
      job := job.(epilog := true);
      bus.net := Note(bus.net, EpilogStart(runStarted));
      bus.net := Send(bus.net, PostRunRequest(runStarted));
    }

    method OnCleanup()
      modifies this, bus
      ensures (job, bus.net) == CleanupCb(old(job), old(bus.net))
    {
      job := job.(cleanupPending := false);
      if !job.started {
        StartDwsEpilog(false);
      }
    }

    method OnFinish()
      modifies this, bus
      ensures (job, bus.net) == FinishCb(old(job), old(bus.net))
    {
      job := job.(finishHandled := true);
      if job.epilog {
        return;
      }
      StartDwsEpilog(true);
    }

    method OnException(severity: nat, abort: bool)
      modifies this, bus
      ensures (job, bus.net) == ExceptionCb(old(job), old(bus.net), severity, abort)
    {
      if severity != 0 {
        return;
      }
      bus.net := Note(bus.net, ExceptionHandled);
      if job.prolog.Some? && job.prolog.value {
        bus.net := Note(bus.net, PrologFinish(false));
        job := job.(prolog := Some(false));
      } else if job.epilog {
        if abort {
          bus.net := Note(Send(bus.net, AbortRequest), AbortSent);
          bus.net := Note(bus.net, EpilogFinish(false));
        } else {
          bus.net := Send(bus.net, TeardownRequest);
        }
      }
    }

    method OnPrologRemove()
      modifies this, bus
      ensures (job, bus.net) == PrologRemoveCb(old(job), old(bus.net))
    {
      if job.phase == Inactive {
        return;
      }
      if job.prolog.None? {
        bus.net := Note(bus.net, PrologFinish(true));
      } else {
        DwsPrologFinish(true);
      }
    }

    method OnEpilogRemove()
      modifies this, bus
      ensures (job, bus.net) == EpilogRemoveCb(old(job), old(bus.net))
    {
      if job.phase != Cleanup {
        return;
      }
      bus.net := Note(bus.net, EpilogFinish(true));
    }

    method OnPostRunReply(success: bool)
      modifies this, bus
      ensures (job, bus.net) == PostRunRpcCb(old(job), old(bus.net), success)
    {
      if success || job.phase == Inactive {
        return;
      }
      job := Raise(job, false);
      bus.net := Note(bus.net, EpilogFinish(false));
    }

    method OnResourceUpdate(failed: bool)
      modifies this, bus
      ensures (job, bus.net) == ResourceUpdateCb(old(job), old(bus.net), failed)
    {
      if failed {
        job := Raise(job, false);
        return;
      }
      if job.phase == Depend {
        job := job.(phase := Sched);
      }
    }
  }
}
