/** VNIs from their reservation to the destruction of the service that carries them:
    the job manager's pool and one device in one run. The plugin releases a reservation
    when its job enters CLEANUP, whether its prolog is over or not and in parallel with
    the epilog that destroys the service. The epilog runs again in housekeeping, and
    never asks whether the service it finds is its own job's. */
module SlingshotRuns {
  import opened CxiServices
  import VniPool

  type Jobs = map<JobId, Reservation>

  /** `posted` holds the reservations as the jobs' eventlogs keep them, `ran` the jobs
      whose prolog has run on the device. `reused` holds the pairs (i, j) of jobs such
      that j was given a VNI which i still held, which i's service still carried, or
      which i's prolog was still to bring to the device. */
  datatype System = System(pool: VniPool.Pool, posted: Jobs, node: Node, ran: set<JobId>, reused: set<(JobId, JobId)>)

  const START := System(VniPool.EMPTY, map[], Node([], map[], map[]), {}, {})

  datatype Step =
    | PoolStep(change: VniPool.Event, uid: nat)   // uid is the owner of a reserving job
    | DeviceStep(event: CxiServices.Event)

  /** A job reserves once and its prolog runs once. Prolog and epilog take the
      reservation from the eventlog, whatever the pool thinks of it by then. */
  ghost predicate CanStep(s: System, e: Step) {
    match e
    case PoolStep(p, _) => VniPool.Enabled(s.pool, p) && (p.Reserved? ==> p.id !in s.posted)
    case DeviceStep(d) =>
      && Possible(s.node, d) && d.job in s.posted && d.res == s.posted[d.job]
      && (d.Prolog? ==> d.job !in s.ran)
  }

  /** The job holds its VNIs, its service stands and carries them, or its prolog is still
      to come. */
  ghost predicate Active(s: System, i: JobId) {
    i in s.posted && (i in s.pool.jobs || Standing(s.node, i) || i !in s.ran)
  }

  ghost function Claimants(s: System, res: Reservation): set<JobId> {
    set i | i in s.posted.Keys && Active(s, i) && Overlap(s.posted[i], res)
  }

  ghost function After(s: System, e: Step): System
    requires CanStep(s, e)
  {
    match e
    case PoolStep(p, uid) =>
      var s' := s.(pool := VniPool.Next(s.pool, p));
      if p.Reserved? then
        var res := Reservation(uid, p.vnis);
        s'.(posted := s.posted[p.id := res], reused := s.reused + set i | i in Claimants(s, res) :: (i, p.id))
      else s'
    case DeviceStep(d) =>
      s.(node := CxiServices.Next(s.node, d), ran := if d.Prolog? then s.ran + {d.job} else s.ran)
  }

  /** The service was created by the prolog of its owner. */
  ghost predicate Owned(s: System, svc: Service) {
    && svc.id in s.node.owner
    && var j := s.node.owner[svc.id];
       j in s.posted && j in s.ran && Serves(svc, s.posted[j])
  }

  /** The eventlogs, the pool and the device agree. */
  ghost predicate Agree(s: System) {
    && (forall j :: j in s.pool.jobs ==> j in s.posted && s.pool.jobs[j] == s.posted[j].vnis)
    && (forall j :: j in s.node.live ==> j in s.posted && s.node.live[j] == s.posted[j] && j in s.ran)
    && (forall svc :: svc in s.node.services ==> Owned(s, svc))
  }

  /** Two active jobs that share a VNI were made to share it. */
  ghost predicate SharesAreReuse(s: System) {
    forall i, j :: i != j && Active(s, i) && Active(s, j) && Overlap(s.posted[i], s.posted[j]) ==>
                     (i, j) in s.reused || (j, i) in s.reused
  }

  ghost predicate ReuseIsShared(s: System) {
    forall i, j :: (i, j) in s.reused ==>
      i != j && i in s.posted && j in s.posted && Overlap(s.posted[i], s.posted[j])
  }

  ghost predicate Inv(s: System) { Agree(s) && SharesAreReuse(s) && ReuseIsShared(s) }

  lemma {:induction false} OverlapSymmetric(a: Reservation, b: Reservation)
    ensures Overlap(a, b) <==> Overlap(b, a)
  {
  }

  lemma {:induction false} ReserveKeepsShares(s: System, p: VniPool.Event, uid: nat)
    requires Inv(s) && p.Reserved? && CanStep(s, PoolStep(p, uid))
    ensures SharesAreReuse(After(s, PoolStep(p, uid)))
  {
    var t := After(s, PoolStep(p, uid));
    var res := t.posted[p.id];
    forall i, j | i != j && Active(t, i) && Active(t, j) && Overlap(t.posted[i], t.posted[j])
      ensures (i, j) in t.reused || (j, i) in t.reused
    {
      OverlapSymmetric(t.posted[i], t.posted[j]);
      if j == p.id {
        assert i in Claimants(s, res);
      } else if i == p.id {
        assert j in Claimants(s, res);
      } else {
        assert Active(s, i) && Active(s, j);
      }
    }
  }

  lemma {:induction false} ReserveKeeps(s: System, p: VniPool.Event, uid: nat)
    requires Inv(s) && p.Reserved? && CanStep(s, PoolStep(p, uid))
    ensures Inv(After(s, PoolStep(p, uid)))
  {
    var t := After(s, PoolStep(p, uid));
    ReserveKeepsShares(s, p, uid);
    forall svc | svc in t.node.services ensures Owned(t, svc) { assert Owned(s, svc); }
  }

  /** A step after which no more jobs are active than before. */
  lemma {:induction false} FewerActive(s: System, t: System)
    requires Inv(s) && Agree(t) && t.posted == s.posted && t.reused == s.reused
    requires forall i :: Active(t, i) ==> Active(s, i)
    ensures Inv(t)
  {
  }

  lemma {:induction false} PoolKeeps(s: System, e: Step)
    requires Inv(s) && CanStep(s, e) && e.PoolStep? && !e.change.Reserved?
    ensures Inv(After(s, e))
  {
    var t := After(s, e);
    forall svc | svc in t.node.services ensures Owned(t, svc) { assert Owned(s, svc); }
    FewerActive(s, t);
  }

  lemma {:induction false} PrologKeeps(s: System, e: Step)
    requires Inv(s) && CanStep(s, e) && e.DeviceStep? && e.event.Prolog?
    ensures Inv(After(s, e))
  {
    var t, j := After(s, e), e.event.job;
    forall svc | svc in t.node.services ensures Owned(t, svc) {
      if svc in s.node.services { assert Owned(s, svc); }
    }
    forall i | Active(t, i) ensures Active(s, i) {
      if i != j && Standing(t.node, i) {
        var svc :| svc in t.node.services && svc.id in t.node.owner && t.node.owner[svc.id] == i;
        assert svc in s.node.services;
      }
    }
    FewerActive(s, t);
  }

  lemma {:induction false} EpilogKeeps(s: System, e: Step)
    requires Inv(s) && CanStep(s, e) && e.DeviceStep? && e.event.Epilog?
    ensures Inv(After(s, e))
  {
    var t := After(s, e);
    forall svc | svc in t.node.services ensures svc in s.node.services && Owned(t, svc) {
      EpilogOnlyRemoves(s.node.services, e.event.res, e.event.reply, svc);
      assert Owned(s, svc);
    }
    forall i | Active(t, i) ensures Active(s, i) {
      if Standing(t.node, i) {
        var svc :| svc in t.node.services && svc.id in t.node.owner && t.node.owner[svc.id] == i;
      }
    }
    FewerActive(s, t);
  }

  lemma {:induction false} StepKeeps(s: System, e: Step)
    requires Inv(s) && CanStep(s, e)
    ensures Inv(After(s, e))
  {
    match e
    case PoolStep(p, uid) => if p.Reserved? { ReserveKeeps(s, p, uid); } else { PoolKeeps(s, e); }
    case DeviceStep(d) => if d.Prolog? { PrologKeeps(s, e); } else { EpilogKeeps(s, e); }
  }

  // ----- whole runs

  ghost predicate IsRun(es: seq<Step>)
    decreases |es|, 0
  {
    es == [] || (IsRun(es[..|es| - 1]) && CanStep(Reached(es[..|es| - 1]), es[|es| - 1]))
  }

  ghost function Reached(es: seq<Step>): System
    requires IsRun(es)
    decreases |es|, 1
  {
    if es == [] then START else After(Reached(es[..|es| - 1]), es[|es| - 1])
  }

  lemma {:induction false} RunKeeps(es: seq<Step>)
    requires IsRun(es)
    ensures Inv(Reached(es))
  {
    if es != [] {
      RunKeeps(es[..|es| - 1]);
      StepKeeps(Reached(es[..|es| - 1]), es[|es| - 1]);
    }
  }

  /** Every prolog finds the VNIs of its job new to the device. */
  ghost predicate PrologsNew(es: seq<Step>)
    requires IsRun(es)
  {
    es != [] ==>
      var front, e := es[..|es| - 1], es[|es| - 1];
      PrologsNew(front) && (e.DeviceStep? && e.event.Prolog? ==> NewTo(Reached(front).node, e.event.res))
  }

  /** No job's prolog runs while the service created for a job stands with which it was
      made to share a VNI. */
  ghost predicate ApartAtProlog(s: System, e: Step) {
    e.DeviceStep? && e.event.Prolog? ==>
      forall i: JobId :: Standing(s.node, i) ==> (i, e.event.job) !in s.reused && (e.event.job, i) !in s.reused
  }

  ghost predicate ApartThroughout(es: seq<Step>)
    requires IsRun(es)
  {
    es != [] ==>
      ApartThroughout(es[..|es| - 1]) && ApartAtProlog(Reached(es[..|es| - 1]), es[|es| - 1])
  }

  lemma {:induction false} NewIffApart(s: System, d: CxiServices.Event)
    requires Inv(s) && CanStep(s, DeviceStep(d)) && d.Prolog?
    ensures NewTo(s.node, d.res) <==> ApartAtProlog(s, DeviceStep(d))
  {
    forall svc | svc in s.node.services
      ensures Owned(s, svc)
      ensures var i := s.node.owner[svc.id];
              Carries(svc, d.res) <==> (i, d.job) in s.reused || (d.job, i) in s.reused
    {
      assert Owned(s, svc);
      var i := s.node.owner[svc.id];
      assert Standing(s.node, i) && Active(s, i) && Active(s, d.job) && i != d.job;
      OverlapSymmetric(s.posted[i], d.res);
      assert Carries(svc, d.res) <==> Overlap(s.posted[i], d.res);
    }
    if NewTo(s.node, d.res) {
      forall i: JobId | Standing(s.node, i) ensures (i, d.job) !in s.reused && (d.job, i) !in s.reused {
        var svc :| svc in s.node.services && svc.id in s.node.owner && s.node.owner[svc.id] == i;
        assert !Carries(svc, d.res);
      }
    } else {
      var svc :| svc in s.node.services && Carries(svc, d.res);
      assert Standing(s.node, s.node.owner[svc.id]);
    }
  }

  /** Over every run of pool and device, every prolog's VNIs are new to the device if
      and only if no prolog runs while the service of a job stands with which its own
      job was made to share a VNI. */
  lemma {:induction false} PrologsNewIff(es: seq<Step>)
    requires IsRun(es)
    ensures PrologsNew(es) <==> ApartThroughout(es)
  {
    if es != [] {
      var front, e := es[..|es| - 1], es[|es| - 1];
      PrologsNewIff(front);
      RunKeeps(front);
      if e.DeviceStep? && e.event.Prolog? {
        NewIffApart(Reached(front), e.event);
      }
    }
  }

  /** No epilog of a job without a service meets one that it would destroy: that of a
      live job of the same user with the same VNIs. */
  ghost predicate MissesAtEpilog(s: System, e: Step) {
    e.DeviceStep? && e.event.Epilog? ==> e.event.job in s.node.live || !Hits(s.node, e.event.res, e.event.reply)
  }

  ghost predicate MissesThroughout(es: seq<Step>)
    requires IsRun(es)
  {
    es != [] ==>
      MissesThroughout(es[..|es| - 1]) && MissesAtEpilog(Reached(es[..|es| - 1]), es[|es| - 1])
  }

  /** At every point, each live job has its own service and shares no VNI. */
  ghost predicate OneEachThroughout(es: seq<Step>)
    requires IsRun(es)
  {
    OneEach(Reached(es).node) && (es != [] ==> OneEachThroughout(es[..|es| - 1]))
  }

  lemma {:induction false} OneEachAfterStep(s: System, e: Step)
    requires Inv(s) && CanStep(s, e) && OneEach(s.node)
    ensures OneEach(After(s, e).node) <==> ApartAtProlog(s, e) && MissesAtEpilog(s, e)
  {
    if e.DeviceStep? {
      CxiServices.OneEachStepIff(s.node, e.event);
      if e.event.Prolog? {
        NewIffApart(s, e.event);
      }
    }
  }

  /** Over every run of pool and device, each live job has its own service at every
      point if and only if no prolog runs beside the service of a job it was made to
      share a VNI with, and no epilog of a job without a service hits that of a live job
      with the same user and VNIs. */
  lemma {:induction false} OneEachIff(es: seq<Step>)
    requires IsRun(es)
    ensures OneEachThroughout(es) <==> ApartThroughout(es) && MissesThroughout(es)
  {
    if es == [] {
      assert Reached(es).node == Node([], map[], map[]);
    } else {
      var front, e := es[..|es| - 1], es[|es| - 1];
      OneEachIff(front);
      RunKeeps(front);
      if OneEachThroughout(front) {
        OneEachAfterStep(Reached(front), e);
      }
    }
  }

  /** If no VNI is ever reserved while a job holds it, a service carries it or a prolog
      is to bring it, all prologs find their VNIs new. The epilogs are another matter. */
  lemma {:induction false} NoReuseSuffices(es: seq<Step>)
    requires IsRun(es) && Reached(es).reused == {}
    ensures PrologsNew(es) && (OneEachThroughout(es) <==> MissesThroughout(es))
  {
    NoReuseIsApart(es);
    PrologsNewIff(es);
    OneEachIff(es);
  }

  lemma {:induction false} NoReuseIsApart(es: seq<Step>)
    requires IsRun(es) && Reached(es).reused == {}
    ensures ApartThroughout(es)
  {
    if es != [] {
      var front := es[..|es| - 1];
      assert Reached(front).reused <= Reached(es).reused;
      NoReuseIsApart(front);
    }
  }

  // ----- how reuse comes about

  /** The pool's part of a run. */
  ghost function PoolEvents(es: seq<Step>): seq<VniPool.Event> {
    if es == [] then []
    else
      var e := es[|es| - 1];
      PoolEvents(es[..|es| - 1]) + if e.PoolStep? then [e.change] else []
  }

  lemma {:induction false} PoolOfRun(es: seq<Step>)
    requires IsRun(es)
    ensures VniPool.IsRun(PoolEvents(es)) && Reached(es).pool == VniPool.After(PoolEvents(es))
  {
    if es != [] {
      var front, e := es[..|es| - 1], es[|es| - 1];
      var before := PoolEvents(front);
      PoolOfRun(front);
      if e.PoolStep? {
        assert (before + [e.change])[..|before|] == before;
      } else {
        assert PoolEvents(es) == before;
      }
    }
  }

  /** While the pool keeps reservations exclusive, a VNI is only ever taken from a job
      that has released it and whose service still stands or is still to come. */
  lemma {:induction false} ReuseFollowsRelease(es: seq<Step>, e: Step, i: JobId, j: JobId)
    requires IsRun(es) && CanStep(Reached(es), e) && VniPool.SafeRun(PoolEvents(es))
    requires (i, j) in After(Reached(es), e).reused && (i, j) !in Reached(es).reused
    ensures i !in Reached(es).pool.jobs && (Standing(Reached(es).node, i) || i !in Reached(es).ran)
  {
    RunKeeps(es);
    PoolOfRun(es);
    VniPool.ExclusiveIffSafeRun(PoolEvents(es));
  }

  // ----- runs in which a VNI goes from one job to the next

  lemma {:induction false} Onward(es: seq<Step>, e: Step)
    requires IsRun(es) && CanStep(Reached(es), e)
    ensures IsRun(es + [e]) && Reached(es + [e]) == After(Reached(es), e)
    ensures PoolEvents(es + [e]) == PoolEvents(es) + if e.PoolStep? then [e.change] else []
    ensures ApartThroughout(es + [e]) <==> ApartThroughout(es) && ApartAtProlog(Reached(es), e)
    ensures MissesThroughout(es + [e]) <==> MissesThroughout(es) && MissesAtEpilog(Reached(es), e)
  {
    assert (es + [e])[..|es|] == es;
  }

  /** A step from a system that is known, with no harm done. */
  lemma {:induction false} Stepped(es: seq<Step>, e: Step, s: System, t: System)
    requires IsRun(es) && Reached(es) == s && CanStep(s, e) && After(s, e) == t
    requires ApartThroughout(es) && ApartAtProlog(s, e) && MissesThroughout(es) && MissesAtEpilog(s, e)
    ensures IsRun(es + [e]) && Reached(es + [e]) == t && ApartThroughout(es + [e]) && MissesThroughout(es + [e])
    ensures PoolEvents(es + [e]) == PoolEvents(es) + if e.PoolStep? then [e.change] else []
  {
    Onward(es, e);
  }

  /** A reservation of the pool's only VNI. */
  function Lone(uid: nat): Reservation { Reservation(uid, [5]) }

  const BARE := Node([], map[], map[])
  const FIRST := Node([ServiceFor(Lone(100), 1)], map[1 := Lone(100)], map[1 := 1])
  const GONE := Node([], map[], map[1 := 1])

  const CONFIGURE := PoolStep(VniPool.Configured({5}), 0)
  const RELEASE := PoolStep(VniPool.Released(1), 0)
  const PROLOG_1 := DeviceStep(Prolog(1, Lone(100), 1, 0))
  const EPILOG_1 := DeviceStep(Epilog(1, Lone(100), _ => Destroyed))
  function Reserve(j: JobId, uid: nat): Step { PoolStep(VniPool.Reserved(j, [5]), uid) }
  function SecondProlog(uid: nat): Step { DeviceStep(Prolog(2, Lone(uid), 2, 0)) }

  /** The pool has one VNI, and job j holds it unless j is 0. */
  function PoolOf(j: JobId): VniPool.Pool {
    if j == 0 then VniPool.Pool({5}, {5}, map[]) else VniPool.Pool({5}, {}, map[j := [5]])
  }

  lemma {:induction false} PoolMoves(j: JobId)
    requires j > 0
    ensures VniPool.Next(VniPool.EMPTY, VniPool.Configured({5})) == PoolOf(0)
    ensures VniPool.Next(PoolOf(0), VniPool.Reserved(j, [5])) == PoolOf(j)
    ensures VniPool.Next(PoolOf(j), VniPool.Released(j)) == PoolOf(0)
  {
    assert VniPool.Elements([5]) == {5};
    assert map[j := [5]] - {j} == map[];
  }

  lemma {:induction false} FirstComes()
    ensures Possible(BARE, PROLOG_1.event) && Next(BARE, PROLOG_1.event) == FIRST
  {
  }

  lemma {:induction false} FirstStands()
    ensures Standing(FIRST, 1) && !Standing(BARE, 1) && !Standing(GONE, 1)
  {
    assert FIRST.services[0] in FIRST.services;
  }

  lemma {:induction false} FirstGoes()
    ensures Possible(FIRST, EPILOG_1.event) && Next(FIRST, EPILOG_1.event) == GONE
  {
    var list := FIRST.services;
    assert Remove(list, 0) == [];
    EpilogOfOne(list, Lone(100), EPILOG_1.event.reply, 0);
    assert FIRST.live - {1} == map[];
  }

  /** Job 1 has reserved. */
  lemma {:induction false} RunReserved() returns (es: seq<Step>)
    ensures IsRun(es) && Reached(es) == System(PoolOf(1), map[1 := Lone(100)], BARE, {}, {})
    ensures ApartThroughout(es) && MissesThroughout(es) && PoolEvents(es) == [CONFIGURE.change, Reserve(1, 100).change]
  {
    var s := System(PoolOf(0), map[], BARE, {}, {});
    PoolMoves(1);
    es := [];
    Stepped(es, CONFIGURE, START, s);
    es := es + [CONFIGURE];
    assert Claimants(s, Lone(100)) == {};
    Stepped(es, Reserve(1, 100), s, System(PoolOf(1), map[1 := Lone(100)], BARE, {}, {}));
    es := es + [Reserve(1, 100)];
  }

  /** Its prolog has run. */
  lemma {:induction false} RunServed() returns (es: seq<Step>)
    ensures IsRun(es) && Reached(es) == System(PoolOf(1), map[1 := Lone(100)], FIRST, {1}, {})
    ensures ApartThroughout(es) && MissesThroughout(es) && PoolEvents(es) == [CONFIGURE.change, Reserve(1, 100).change]
  {
    es := RunReserved();
    FirstComes();
    Stepped(es, PROLOG_1, Reached(es), System(PoolOf(1), map[1 := Lone(100)], FIRST, {1}, {}));
    es := es + [PROLOG_1];
  }

  const ONE := map[1 := Lone(100)]

  lemma {:induction false} Releases(n: Node, ran: set<JobId>)
    ensures var s := System(PoolOf(1), ONE, n, ran, {});
            CanStep(s, RELEASE) && After(s, RELEASE) == s.(pool := PoolOf(0))
  {
    PoolMoves(1);
  }

  /** Was the VNI given to job 2 too early? */
  ghost function Early(n: Node, ran: set<JobId>): set<(JobId, JobId)> {
    if Standing(n, 1) || 1 !in ran then {(1, 2)} else {}
  }

  lemma {:induction false} ReservesAgain(n: Node, ran: set<JobId>, uid: nat)
    ensures var s := System(PoolOf(0), ONE, n, ran, {});
            && CanStep(s, Reserve(2, uid))
            && After(s, Reserve(2, uid)) == System(PoolOf(2), ONE[2 := Lone(uid)], n, ran, Early(n, ran))
  {
    var s := System(PoolOf(0), ONE, n, ran, {});
    PoolMoves(2);
    assert 5 in Lone(100).vnis && 5 in Lone(uid).vnis;
    assert Claimants(s, Lone(uid)) == if Standing(n, 1) || 1 !in ran then {1} else {};
  }

  /** Its reservation has been released and given to job 2. */
  lemma {:induction false} Reassigned(es: seq<Step>, n: Node, ran: set<JobId>, uid: nat) returns (es': seq<Step>)
    requires IsRun(es) && Reached(es) == System(PoolOf(1), ONE, n, ran, {})
    requires ApartThroughout(es) && MissesThroughout(es) && PoolEvents(es) == [CONFIGURE.change, Reserve(1, 100).change]
    ensures IsRun(es') && ApartThroughout(es') && MissesThroughout(es') && GoodPool(es')
    ensures Reached(es') == System(PoolOf(2), ONE[2 := Lone(uid)], n, ran, Early(n, ran))
  {
    var s := System(PoolOf(0), ONE, n, ran, {});
    Releases(n, ran);
    Stepped(es, RELEASE, Reached(es), s);
    es' := es + [RELEASE];
    ReservesAgain(n, ran, uid);
    Stepped(es', Reserve(2, uid), s, System(PoolOf(2), ONE[2 := Lone(uid)], n, ran, Early(n, ran)));
    es' := es' + [Reserve(2, uid)];
    GoodAfterFour(es');
  }

  lemma {:induction false} GoodAfterFour(es: seq<Step>)
    requires IsRun(es)
    requires PoolEvents(es) == [CONFIGURE.change, Reserve(1, 100).change, RELEASE.change, VniPool.Reserved(2, [5])]
    ensures GoodPool(es)
  {
    PoolOfRun(es);
    GoodPoolRun(PoolEvents(es));
    VniPool.ExclusiveIffSafeRun(PoolEvents(es));
  }

  /** The pool has done all that is asked of it. */
  ghost predicate GoodPool(es: seq<Step>)
    requires IsRun(es)
  {
    var ps := PoolEvents(es);
    VniPool.SafeRun(ps) && VniPool.NothingDropped(ps) && VniPool.OncePerJob(ps) && VniPool.Exclusive(Reached(es).pool)
  }

  lemma {:induction false} GoodPoolRun(ps: seq<VniPool.Event>)
    requires |ps| == 4 && ps[0] == CONFIGURE.change && ps[1] == Reserve(1, 100).change && ps[2] == RELEASE.change
    requires ps[3] == VniPool.Reserved(2, [5]) && VniPool.IsRun(ps)
    ensures VniPool.NothingDropped(ps) && VniPool.OncePerJob(ps) && VniPool.SafeRun(ps)
  {
    var p1, p2, p3 := ps[..1], ps[..2], ps[..3];
    assert p1[..0] == [] && p2[..1] == p1 && p3[..2] == p2;
    assert VniPool.Held(VniPool.EMPTY) == {};
    assert VniPool.NothingDropped(p1);
    assert VniPool.NothingDropped(p2);
    assert VniPool.NothingDropped(p3);
    VniPool.NothingDroppedIsSafe(ps);
  }

  /** A device step keeps the pool good. */
  lemma {:induction false} OnwardOnDevice(es: seq<Step>, e: Step)
    requires IsRun(es) && CanStep(Reached(es), e) && e.DeviceStep? && GoodPool(es)
    ensures IsRun(es + [e]) && Reached(es + [e]) == After(Reached(es), e) && GoodPool(es + [e])
    ensures ApartThroughout(es + [e]) <==> ApartThroughout(es) && ApartAtProlog(Reached(es), e)
    ensures MissesThroughout(es + [e]) <==> MissesThroughout(es) && MissesAtEpilog(Reached(es), e)
  {
    Onward(es, e);
    assert PoolEvents(es + [e]) == PoolEvents(es);
  }

  function Second(uid: nat, owner: map<nat, JobId>): Node {
    Node([ServiceFor(Lone(uid), 2)], map[2 := Lone(uid)], owner[2 := 2])
  }

  lemma {:induction false} SecondComes(uid: nat, owner: map<nat, JobId>)
    ensures var n, e := Node([], map[], owner), SecondProlog(uid).event;
            Possible(n, e) && Next(n, e) == Second(uid, owner)
    ensures Possible(Second(uid, owner), EPILOG_1.event)
    ensures forall i :: !Standing(Node([], map[], owner), i)
  {
  }

  /** What job 1's second epilog does to job 2's service. */
  lemma {:induction false} SecondGoesIfSame(uid: nat, owner: map<nat, JobId>)
    ensures Hits(Second(uid, owner), Lone(100), EPILOG_1.event.reply) <==> uid == 100
    ensures var n := Second(uid, owner);
            Next(n, EPILOG_1.event) == if uid == 100 then n.(services := []) else n
  {
    var n := Second(uid, owner);
    assert n.live - {1} == n.live;
    if uid == 100 {
      assert 2 in n.live && n.services[0] in n.services && Serves(n.services[0], Lone(100));
      EpilogOfOne(n.services, Lone(100), EPILOG_1.event.reply, 0);
      assert Remove(n.services, 0) == [];
    } else {
      EpilogOfNone(n.services, Lone(100), EPILOG_1.event.reply);
    }
  }

  /** Job 1's service is busy and still stands when job 2's prolog runs. With a pool that
      does all that is asked of it, job 1's epilog, repeated, destroys job 2's service. */
  lemma {:induction false} EpilogHitsNewOwner() returns (es: seq<Step>)
    ensures IsRun(es) && GoodPool(es) && !ApartThroughout(es) && !OneEachThroughout(es)
    ensures var s := Reached(es);
            && 1 !in s.pool.jobs && 2 in s.pool.jobs && s.posted == s.node.live == map[1 := Lone(100), 2 := Lone(100)]
            && s.node.services == [ServiceFor(Lone(100), 2), ServiceFor(Lone(100), 1)]
            && EpilogResult(s.node.services, Lone(100), EPILOG_1.event.reply).0 == [ServiceFor(Lone(100), 1)]
  {
    es := RunServed();
    FirstStands();
    es := Reassigned(es, FIRST, {1}, 100);
    assert !ApartAtProlog(Reached(es), SecondProlog(100)) by {
      FirstStands();
      assert (1, 2) in Reached(es).reused;
    }
    OnwardOnDevice(es, SecondProlog(100));
    es := es + [SecondProlog(100)];
    OneEachIff(es);
    assert Reached(es).node.services == [ServiceFor(Lone(100), 2), ServiceFor(Lone(100), 1)];
    SharedReservationHitsFirst(Lone(100), EPILOG_1.event.reply);
  }

  /** Job 1's service is destroyed and only then its VNI released and given to job 2, as
      the guide asks: no VNI is reused. Job 1's second epilog, in housekeeping, destroys
      job 2's service all the same. */
  lemma {:induction false} SecondEpilogHitsNewOwner() returns (es: seq<Step>)
    ensures IsRun(es) && GoodPool(es) && Reached(es).reused == {} && PrologsNew(es) && !OneEachThroughout(es)
    ensures Reached(es) == System(PoolOf(2), map[1 := Lone(100), 2 := Lone(100)],
                                  Second(100, map[1 := 1]).(services := []), {1, 2}, {})
  {
    es := RunServed();
    FirstGoes();
    Stepped(es, EPILOG_1, Reached(es), System(PoolOf(1), map[1 := Lone(100)], GONE, {1}, {}));
    es := es + [EPILOG_1];
    FirstStands();
    es := Reassigned(es, GONE, {1}, 100);
    es := SecondProlog100(es, map[1 := 1]);
    SecondComes(100, map[1 := 1]);
    SecondGoesIfSame(100, map[1 := 1]);
    OnwardOnDevice(es, EPILOG_1);
    es := es + [EPILOG_1];
    NoReuseSuffices(es);
  }

  /** A service that is gone has no claim, whoever destroyed it: job 2 releases the VNI
      and job 3 has it without reuse, and its prolog finds it new. */
  lemma {:induction false} DestroyedServiceHasNoClaim() returns (es: seq<Step>)
    ensures IsRun(es) && Reached(es).reused == {} && 2 in Reached(es).node.live && 3 in Reached(es).posted
    ensures NewTo(Reached(es).node, Reached(es).posted[3])
    ensures ApartAtProlog(Reached(es), DeviceStep(Prolog(3, Lone(100), 3, 0)))
  {
    var release := PoolStep(VniPool.Released(2), 0);
    es := SecondEpilogHitsNewOwner();
    PoolMoves(2);
    PoolMoves(3);
    Onward(es, release);
    es := es + [release];
    var s := Reached(es);
    assert s.pool == PoolOf(0) && !Standing(s.node, 1) && !Standing(s.node, 2);
    assert Claimants(s, Lone(100)) == {};
    Onward(es, Reserve(3, 100));
    es := es + [Reserve(3, 100)];
  }

  /** Job 1 is cancelled in its prolog: its VNI is released and given to job 2 before
      the prolog creates the service. */
  lemma {:induction false} LatePrologCollides() returns (es: seq<Step>)
    ensures IsRun(es) && GoodPool(es) && ApartThroughout(es) && OneEachThroughout(es)
    ensures var s := Reached(es);
            && 1 !in s.pool.jobs && 2 in s.pool.jobs && 2 in s.node.live
            && CanStep(s, PROLOG_1) && !NewTo(s.node, s.posted[1]) && !OneEach(After(s, PROLOG_1).node)
  {
    es := RunReserved();
    FirstStands();
    es := Reassigned(es, BARE, {}, 100);
    es := SecondProlog100(es, map[]);
    OneEachIff(es);
    RunKeeps(es);
    LateIsNotNew(Reached(es));
  }

  /** Job 2's prolog on a device without services. */
  lemma {:induction false} SecondProlog100(es: seq<Step>, owner: map<nat, JobId>) returns (es': seq<Step>)
    requires IsRun(es) && GoodPool(es) && ApartThroughout(es) && MissesThroughout(es)
    requires Reached(es).node == Node([], map[], owner) && CanStep(Reached(es), SecondProlog(100))
    ensures IsRun(es') && GoodPool(es') && ApartThroughout(es') && MissesThroughout(es')
    ensures Reached(es') == Reached(es).(node := Second(100, owner), ran := Reached(es).ran + {2})
  {
    SecondComes(100, owner);
    OnwardOnDevice(es, SecondProlog(100));
    es' := es + [SecondProlog(100)];
  }

  lemma {:induction false} LateIsNotNew(s: System)
    requires Inv(s) && OneEach(s.node) && s.node == Second(100, map[])
    requires s.posted == map[1 := Lone(100), 2 := Lone(100)] && 1 !in s.ran
    ensures CanStep(s, PROLOG_1) && !NewTo(s.node, Lone(100)) && !OneEach(After(s, PROLOG_1).node)
  {
    assert 5 in Lone(100).vnis && Carries(s.node.services[0], Lone(100));
    CxiServices.OneEachStepIff(s.node, PROLOG_1.event);
  }

  /** Reuse need not do harm: another user's job is given the VNI just as early, job 1's
      service is gone when its prolog runs, and job 1's second epilog finds nothing. */
  lemma {:induction false} ReuseCanBeHarmless() returns (es: seq<Step>)
    ensures IsRun(es) && Reached(es).reused != {} && OneEachThroughout(es) && 2 in Reached(es).node.live
    ensures |es| > 0 && es[|es| - 1] == EPILOG_1 && 1 !in Reached(es).node.live
  {
    es := RunServed();
    FirstStands();
    es := Reassigned(es, FIRST, {1}, 200);
    FirstGoes();
    OnwardOnDevice(es, EPILOG_1);
    es := es + [EPILOG_1];
    SecondComes(200, map[1 := 1]);
    OnwardOnDevice(es, SecondProlog(200));
    es := es + [SecondProlog(200)];
    SecondGoesIfSame(200, map[1 := 1]);
    OnwardOnDevice(es, EPILOG_1);
    es := es + [EPILOG_1];
    OneEachIff(es);
  }
}
