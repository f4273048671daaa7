/** The cray-slingshot job-manager plugin: the callbacks that drive the VNI pool. */
module CraySlingshot {
  import opened Wrappers
  import opened VniPool

  /** The cray-slingshot shell option of a job. A vnicount of -1 counts as unset. */
  datatype Options = Unset | Off | Count(n: int) | Unparsable

  /** What job_state_run_cb leaves in the job's eventlog. */
  datatype Outcome = Posted(vnis: seq<Vni>) | PostedEmpty | Raised

  class Plugin {
    const vnipool: Vnipool
    var vnisPerJob: int
    var reserveFatal: bool

    ghost predicate Valid()
      reads this, vnipool
    {
      vnipool.Valid() && 0 <= vnisPerJob <= MAX_VNIS
    }

    constructor ()
      ensures Valid() && fresh(vnipool) && vnipool.View() == EMPTY
    {
      vnipool := new Vnipool();
      vnisPerJob, reserveFatal := 0, false;
    }

    /** conf_update_cb. The per-job settings take effect even if the pool setting is
        then refused. */
    method ConfUpdate(decoded: Result<set<Vni>, Error>, perJob: int, fatal: bool) returns (ok: bool)
      requires Valid()
      modifies `vnisPerJob, `reserveFatal, vnipool`universe, vnipool`pool
      ensures Valid()
      ensures ok <==> 0 <= perJob <= MAX_VNIS && decoded.Ok? && forall v :: v in decoded.value ==> IsValid(v)
      ensures vnipool.View() == Next(old(vnipool.View()), if ok then Configured(decoded.value) else Failed)
      ensures if 0 <= perJob <= MAX_VNIS then vnisPerJob == perJob && reserveFatal == fatal
              else vnisPerJob == old(vnisPerJob) && reserveFatal == old(reserveFatal)
    {
      if perJob < 0 || perJob > 4 {
        return false;
      }
      vnisPerJob, reserveFatal := perJob, fatal;
      var r := vnipool.Configure(decoded);
      ok := r.Ok?;
    }

    /** job_state_run_cb. postOk says whether the event could be posted. A job that does
        not say how many VNIs it wants gets the configured number. */
    method JobStateRun(id: JobId, options: Options, postOk: bool) returns (r: Outcome)
      requires Valid()
      modifies vnipool`pool, vnipool`jobs
      ensures Valid()
      ensures r.Posted? ==>
                && Enabled(old(vnipool.View()), Reserved(id, r.vnis))
                && vnipool.View() == Next(old(vnipool.View()), Reserved(id, r.vnis))
      ensures !r.Posted? && (postOk || id !in old(vnipool.jobs)) ==> vnipool.View() == old(vnipool.View())
      ensures !postOk || options == Unparsable ==> r == Raised
      ensures postOk && options == Off ==> r == PostedEmpty
      ensures postOk && (options == Unset || options == Count(-1)) && 1 <= vnisPerJob <= |old(vnipool.pool)| ==>
                r.Posted? && |r.vnis| == vnisPerJob
      ensures postOk && (options == Unset || options == Count(-1)) && vnisPerJob == 0 ==> r == PostedEmpty
      ensures postOk && (options == Unset || options == Count(-1)) && vnisPerJob > |old(vnipool.pool)| ==>
                r == if reserveFatal then Raised else PostedEmpty
      ensures postOk && options.Count? && 1 <= options.n <= 4 && options.n <= |old(vnipool.pool)| ==>
                r.Posted? && |r.vnis| == options.n
      ensures postOk && options == Count(0) ==> r == PostedEmpty
      ensures postOk && options.Count? && (options.n < -1 || options.n > 4 || options.n > |old(vnipool.pool)|) ==>
                r == if reserveFatal then Raised else PostedEmpty
    {
      if options == Off {
        return if postOk then PostedEmpty else Raised;
      }
      if options == Unparsable {
        return Raised;
      }
      var vnicount := if options.Count? then options.n else -1;
      if vnicount == -1 {
        vnicount := vnisPerJob;
      }
      if vnicount == 0 {
        return if postOk then PostedEmpty else Raised;
      }
      var reserved := vnipool.Reserve(id, vnicount);
      if reserved.Err? {
        return if reserveFatal || !postOk then Raised else PostedEmpty;
      }
      if !postOk {
        ghost var before := old(vnipool.View());
        UndoneReservation(before, id, reserved.value);
        var released := vnipool.Release(id);
        return Raised;
      }
      return Posted(reserved.value);
    }

    /** job_state_cleanup_cb. A job without a reservation is not an error. */
    method JobStateCleanup(id: JobId)
      requires Valid()
      modifies vnipool`pool, vnipool`jobs
      ensures Valid() && id !in vnipool.jobs
      ensures vnipool.View() == Next(old(vnipool.View()), if id in old(vnipool.jobs) then Released(id) else Failed)
    {
      var released := vnipool.Release(id);
    }
  }

  /** A job that enters RUN after an accepted update gets VNIs of that update, as many as
      it says unless the job says otherwise: configured ones that were not allocated. */
  method RunAfterUpdate(plugin: Plugin, universe: set<Vni>, perJob: int, fatal: bool, id: JobId, options: Options)
    returns (ok: bool, r: Outcome)
    requires plugin.Valid()
    modifies plugin, plugin.vnipool
    ensures ok <==> 0 <= perJob <= 4 && forall v :: v in universe ==> v <= 65535 && v != 1 && v != 10
    ensures ok && (options == Unset || options == Count(-1)) ==>
              var taken := old(plugin.vnipool.universe) - old(plugin.vnipool.pool);
              if 1 <= perJob <= |universe - taken|
              then r.Posted? && |r.vnis| == perJob && Elements(r.vnis) <= universe - taken
              else r == if perJob > 0 && fatal then Raised else PostedEmpty
  {
    ghost var taken := plugin.vnipool.universe - plugin.vnipool.pool;
    ghost var was := plugin.vnipool.View();
    ok := plugin.ConfUpdate(Ok(universe), perJob, fatal);
    if ok {
      RebuiltIsNotAllocated(was, universe);
      assert plugin.vnipool.pool == universe - taken;
    }
    r := plugin.JobStateRun(id, options, true);
  }

  lemma {:induction false} RebuiltIsNotAllocated(p: Pool, u: set<Vni>)
    requires Bounded(p)
    ensures Next(p, Configured(u)).free == u - (p.universe - p.free)
  {
  }

  /** Releasing a reservation that has just been made for a new job puts the pool
      back as it was. */
  lemma {:induction false} UndoneReservation(p: Pool, id: JobId, vnis: seq<Vni>)
    requires Bounded(p) && Enabled(p, Reserved(id, vnis))
    ensures id !in p.jobs ==> Next(Next(p, Reserved(id, vnis)), Released(id)) == p
  {
  }
}
