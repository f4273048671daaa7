/** The VNI reservation pool of the cray-slingshot job-manager plugin. */
module VniPool {
  import opened Wrappers

  type Vni = nat
  type JobId = nat

  datatype Error = EINVAL | ENOSPC | ENOENT

  const MAX_VNIS := 4  // CXI_SVC_MAX_VNIS

  /** VNI_VALID_SET: 16-bit values other than the default service's 1 and 10. */
  predicate IsValid(v: Vni) { v <= 65535 && v != 1 && v != 10 }

  /** What the pool knows: the configured VNIs, the unallocated ones, and the
      reservation of each job. A NULL idset is an empty one. */
  datatype Pool = Pool(universe: set<Vni>, free: set<Vni>, jobs: map<JobId, seq<Vni>>)

  const EMPTY := Pool({}, {}, map[])

  function Elements(s: seq<Vni>): set<Vni> { set v | v in s }

  function Held(p: Pool): set<Vni> { set j, v | j in p.jobs && v in p.jobs[j] :: v }

  /** One completed operation, with the VNIs that idset_alloc happened to choose. */
  datatype Event =
    | Configured(universe: set<Vni>)
    | Reserved(id: JobId, vnis: seq<Vni>)
    | Released(id: JobId)
    | Failed

  ghost predicate Distinct(s: seq<Vni>) { forall i, j :: 0 <= i < j < |s| ==> s[i] != s[j] }

  ghost predicate Enabled(p: Pool, e: Event) {
    match e
    case Configured(u) => forall v :: v in u ==> IsValid(v)
    case Reserved(_, vnis) => |vnis| <= MAX_VNIS && Distinct(vnis) && forall v :: v in vnis ==> v in p.free
    case Released(id) => id in p.jobs
    case Failed => true
  }

  /** The pool that create_vnipool builds when the universe changes. */
  function Rebuilt(p: Pool, u: set<Vni>): set<Vni> { set v | v in u && !(v in p.universe && v !in p.free) }

  function Next(p: Pool, e: Event): Pool {
    match e
    case Configured(u) => if u == p.universe then p else p.(universe := u, free := Rebuilt(p, u))
    case Reserved(id, vnis) => p.(free := p.free - Elements(vnis), jobs := p.jobs[id := vnis])
    case Released(id) =>
      if id in p.jobs then p.(free := p.free + Elements(p.jobs[id]) * p.universe, jobs := p.jobs - {id}) else p
    case Failed => p
  }

  // ----- invariants of one step

  ghost predicate Bounded(p: Pool) { p.free <= p.universe && forall v :: v in p.universe ==> IsValid(v) }

  ghost predicate Disjoint(p: Pool) {
    && (forall i, j, v :: i in p.jobs && j in p.jobs && v in p.jobs[i] && v in p.jobs[j] ==> i == j)
    && forall i :: i in p.jobs ==> Distinct(p.jobs[i])
  }

  /** No VNI has two owners, and the free VNIs are exactly the configured ones that
      nobody holds. */
  ghost predicate Exclusive(p: Pool) { Disjoint(p) && p.free == p.universe - Held(p) }

  /** What must be true before a step for it to keep reservations exclusive. A
      reconfiguration must not bring back a VNI that was dropped while held; a
      reservation must not replace one that still holds configured VNIs. */
  ghost predicate Safe(p: Pool, e: Event) {
    match e
    case Configured(u) => (u - p.universe) !! Held(p)
    case Reserved(id, _) => id in p.jobs ==> Elements(p.jobs[id]) !! p.universe
    case _ => true
  }

  lemma {:induction false} BoundedStep(p: Pool, e: Event)
    requires Bounded(p) && Enabled(p, e)
    ensures Bounded(Next(p, e))
  {}

  lemma {:induction false} ConfigureStep(p: Pool, u: set<Vni>)
    requires Bounded(p) && Exclusive(p)
    ensures Exclusive(Next(p, Configured(u))) <==> Safe(p, Configured(u))
  {
  }

  lemma {:induction false} HeldAfterReserve(p: Pool, id: JobId, vnis: seq<Vni>)
    requires Disjoint(p) && Enabled(p, Reserved(id, vnis))
    ensures var was := if id in p.jobs then Elements(p.jobs[id]) else {};
            Held(Next(p, Reserved(id, vnis))) == (Held(p) - was) + Elements(vnis)
  {
    var q := Next(p, Reserved(id, vnis));
    var was := if id in p.jobs then Elements(p.jobs[id]) else {};
    forall v ensures v in Held(q) <==> v in (Held(p) - was) + Elements(vnis) {
      if v in Held(q) {
        var j :| j in q.jobs && v in q.jobs[j];
      }
      if v in Elements(vnis) {
        assert v in q.jobs[id];
      } else if v in Held(p) - was {
        var j :| j in p.jobs && v in p.jobs[j];
        assert v in q.jobs[j];
      }
    }
  }

  lemma {:induction false} ReserveStep(p: Pool, id: JobId, vnis: seq<Vni>)
    requires Bounded(p) && Exclusive(p) && Enabled(p, Reserved(id, vnis))
    ensures Exclusive(Next(p, Reserved(id, vnis))) <==> Safe(p, Reserved(id, vnis))
  {
    var q := Next(p, Reserved(id, vnis));
    HeldAfterReserve(p, id, vnis);
    assert forall j, v :: j in p.jobs && v in p.jobs[j] ==> v in Held(p) && v !in p.free;
    assert Disjoint(q);
    if id in p.jobs && exists v :: v in Elements(p.jobs[id]) && v in p.universe {
      var v :| v in Elements(p.jobs[id]) && v in p.universe;
      assert v in q.universe - Held(q) && v !in q.free;
    }
  }

  lemma {:induction false} ReleaseStep(p: Pool, id: JobId)
    requires Bounded(p) && Exclusive(p) && id in p.jobs
    ensures Exclusive(Next(p, Released(id)))
  {
    var q := Next(p, Released(id));
    forall v ensures v in Held(q) <==> v in Held(p) - Elements(p.jobs[id]) {
      if v in Held(p) && v !in Elements(p.jobs[id]) {
        var j :| j in p.jobs && v in p.jobs[j];
        assert j in q.jobs && v in q.jobs[j];
      }
    }
  }

  /** A step keeps reservations exclusive exactly when it is safe. */
  lemma {:induction false} ExclusiveStepIffSafe(p: Pool, e: Event)
    requires Bounded(p) && Exclusive(p) && Enabled(p, e)
    ensures Exclusive(Next(p, e)) <==> Safe(p, e)
  {
    match e
    case Configured(u) => ConfigureStep(p, u);
    case Reserved(id, vnis) => ReserveStep(p, id, vnis);
    case Released(id) => ReleaseStep(p, id);
    case Failed =>
  }

  // ----- whole runs

  ghost function After(es: seq<Event>): Pool {
    if es == [] then EMPTY else Next(After(es[..|es| - 1]), es[|es| - 1])
  }

  ghost predicate IsRun(es: seq<Event>) {
    es == [] || (IsRun(es[..|es| - 1]) && Enabled(After(es[..|es| - 1]), es[|es| - 1]))
  }

  ghost predicate SafeRun(es: seq<Event>) {
    es == [] || (SafeRun(es[..|es| - 1]) && Safe(After(es[..|es| - 1]), es[|es| - 1]))
  }

  ghost predicate ExclusiveThroughout(es: seq<Event>) {
    Exclusive(After(es)) && (es == [] || ExclusiveThroughout(es[..|es| - 1]))
  }

  lemma {:induction false} RunBounded(es: seq<Event>)
    requires IsRun(es)
    ensures Bounded(After(es))
  {
    if es != [] {
      RunBounded(es[..|es| - 1]);
      BoundedStep(After(es[..|es| - 1]), es[|es| - 1]);
    }
  }

  /** Over every run of the pool, reservations are exclusive at every point exactly
      when every step was safe. */
  lemma {:induction false} ExclusiveIffSafeRun(es: seq<Event>)
    requires IsRun(es)
    ensures ExclusiveThroughout(es) <==> SafeRun(es)
  {
    if es == [] {
      assert Held(EMPTY) == {};
    } else {
      var front := es[..|es| - 1];
      ExclusiveIffSafeRun(front);
      RunBounded(front);
      if ExclusiveThroughout(front) {
        assert Exclusive(After(front));
        ExclusiveStepIffSafe(After(front), es[|es| - 1]);
      }
    }
  }

  /** No reconfiguration ever drops a VNI that a job holds. */
  ghost predicate NothingDropped(es: seq<Event>) {
    es == [] ||
    (var p, e := After(es[..|es| - 1]), es[|es| - 1];
     NothingDropped(es[..|es| - 1]) && (e.Configured? ==> Held(p) <= e.universe))
  }

  /** The job manager enters the RUN state once per job. */
  ghost predicate OncePerJob(es: seq<Event>) {
    forall i, j :: 0 <= i < j < |es| && es[i].Reserved? && es[j].Reserved? ==> es[i].id != es[j].id
  }

  lemma {:induction false} HoldersReserved(es: seq<Event>, id: JobId)
    requires id in After(es).jobs
    ensures exists i :: 0 <= i < |es| && es[i].Reserved? && es[i].id == id
  {
    var front, e := es[..|es| - 1], es[|es| - 1];
    if e.Reserved? && e.id == id {
    } else {
      HoldersReserved(front, id);
      var i :| 0 <= i < |front| && front[i].Reserved? && front[i].id == id;
      assert es[i] == front[i];
    }
  }

  lemma {:induction false} HeldGrows(p: Pool, e: Event)
    requires Bounded(p) && Enabled(p, e)
    ensures Held(Next(p, e)) <= Held(p) + p.universe
  {
  }

  /** Runs that drop nothing and reserve once per job are safe, hence exclusive. */
  lemma {:induction false} NothingDroppedIsSafe(es: seq<Event>)
    requires IsRun(es) && NothingDropped(es) && OncePerJob(es)
    ensures SafeRun(es) && Held(After(es)) <= After(es).universe
  {
    if es == [] {
      assert Held(EMPTY) == {};
    } else {
      var front, e := es[..|es| - 1], es[|es| - 1];
      var p := After(front);
      NothingDroppedIsSafe(front);
      RunBounded(front);
      HeldGrows(p, e);
      if e.Configured? { assert Held(Next(p, e)) == Held(p); }
      if e.Reserved? && e.id in p.jobs { HoldersReserved(front, e.id); }
    }
  }

  /** Once every job has been released, a run that dropped nothing has every
      configured VNI back in the pool. */
  lemma {:induction false} NothingLeaks(es: seq<Event>)
    requires IsRun(es) && NothingDropped(es) && OncePerJob(es) && After(es).jobs == map[]
    ensures After(es).free == After(es).universe
  {
    NothingDroppedIsSafe(es);
    ExclusiveIffSafeRun(es);
    assert Held(After(es)) == {};
  }

  lemma {:induction false} Onward(es: seq<Event>, e: Event)
    requires IsRun(es) && Enabled(After(es), e)
    ensures IsRun(es + [e]) && After(es + [e]) == Next(After(es), e)
  {
    assert (es + [e])[..|es|] == es;
  }

  /** A step from a pool that is known. */
  lemma {:induction false} Stepped(es: seq<Event>, e: Event, p: Pool, q: Pool)
    requires IsRun(es) && After(es) == p && Enabled(p, e) && Next(p, e) == q
    ensures IsRun(es + [e]) && After(es + [e]) == q
  {
    Onward(es, e);
  }

  lemma {:induction false} ReconfiguredAround(v: Vni)
    requires IsValid(v)
    ensures var held := map[1 := [v]];
            && Next(EMPTY, Configured({v})) == Pool({v}, {v}, map[])
            && Next(Pool({v}, {v}, map[]), Reserved(1, [v])) == Pool({v}, {}, held)
            && Next(Pool({v}, {}, held), Configured({})) == Pool({}, {}, held)
            && Next(Pool({}, {}, held), Configured({v})) == Pool({v}, {v}, held)
            && Next(Pool({v}, {v}, held), Reserved(2, [v])) == Pool({v}, {}, held[2 := [v]])
  {
    assert Elements([v]) == {v};
  }

  /** Dropping a held VNI and configuring it back gives it to a second job while the
      first still holds it; so it is for every VNI. */
  lemma {:induction false} DroppedVniIsReservedTwice(v: Vni) returns (es: seq<Event>)
    requires IsValid(v)
    ensures IsRun(es) && 1 in After(es).jobs && 2 in After(es).jobs
    ensures After(es).jobs[1] == After(es).jobs[2] == [v]
  {
    var held := map[1 := [v]];
    ReconfiguredAround(v);
    es := [];
    Stepped(es, Configured({v}), EMPTY, Pool({v}, {v}, map[]));
    es := es + [Configured({v})];
    Stepped(es, Reserved(1, [v]), Pool({v}, {v}, map[]), Pool({v}, {}, held));
    es := es + [Reserved(1, [v])];
    Stepped(es, Configured({}), Pool({v}, {}, held), Pool({}, {}, held));
    es := es + [Configured({})];
    Stepped(es, Configured({v}), Pool({}, {}, held), Pool({v}, {v}, held));
    es := es + [Configured({v})];
    Stepped(es, Reserved(2, [v]), Pool({v}, {v}, held), Pool({v}, {}, held[2 := [v]]));
    es := es + [Reserved(2, [v])];
  }

  // ----- the pool itself

  function UpTo(n: nat): (s: set<Vni>)
    ensures forall v: Vni :: v in s <==> v < n
  {
    if n == 0 then {} else UpTo(n - 1) + {n - 1}
  }

  lemma {:induction false} ElementsOfAppend(s: seq<Vni>, v: Vni)
    ensures Elements(s + [v]) == Elements(s) + {v}
    ensures Distinct(s) && v !in s ==> Distinct(s + [v])
  {}

  lemma {:induction false} NotIn(s: seq<Vni>, v: Vni)
    requires v !in Elements(s)
    ensures v !in s
  {}

  class Vnipool {
    var universe: set<Vni>
    var pool: set<Vni>
    var jobs: map<JobId, seq<Vni>>

    function View(): Pool
      reads this
    {
      Pool(universe, pool, jobs)
    }

    ghost predicate Valid()
      reads this
    {
      Bounded(View())
    }

    constructor ()
      ensures Valid() && View() == EMPTY
    {
      universe, pool, jobs := {}, {}, map[];
    }

    /** Return VNIs to the pool, except those that are no longer configured. */
    method FreeArray(vnis: seq<Vni>)
      modifies `pool
      ensures pool == old(pool) + Elements(vnis) * universe
    {
      for i := 0 to |vnis|
        invariant pool == old(pool) + Elements(vnis[..i]) * universe
      {
        assert vnis[..i + 1] == vnis[..i] + [vnis[i]];
        ElementsOfAppend(vnis[..i], vnis[i]);
        if vnis[i] in universe {
          pool := pool + {vnis[i]};
        }
      }
      assert vnis[..|vnis|] == vnis;
    }

    /** idset_alloc: some free VNI, whichever it picks. */
    method AllocOne() returns (r: Result<Vni, Error>)
      modifies `pool
      ensures r.Ok? <==> old(pool) != {}
      ensures r.Ok? ==> r.value in old(pool) && pool == old(pool) - {r.value} && |pool| == |old(pool)| - 1
      ensures r.Err? ==> pool == old(pool)
    {
      if pool == {} {
        return Err(ENOSPC);
      }
      var vni :| vni in pool;
      pool := pool - {vni};
      return Ok(vni);
    }

    /** Take count VNIs out of the pool, or none at all. */
    method AllocArray(count: nat) returns (r: Result<seq<Vni>, Error>)
      requires Valid()
      modifies `pool
      ensures r.Ok? <==> count <= |old(pool)|
      ensures r.Ok? ==> |r.value| == count && Distinct(r.value) && Elements(r.value) <= old(pool)
      ensures r.Ok? ==> pool == old(pool) - Elements(r.value)
      ensures r.Err? ==> pool == old(pool)
    {
      ghost var before, taken := pool, {};
      var vnis: seq<Vni> := [];
      for i := 0 to count
        invariant |vnis| == i && Distinct(vnis) && Elements(vnis) == taken
        invariant taken <= before && pool == before - taken && |pool| + i == |before|
      {
        var one := AllocOne();
        if one.Err? {
          Restore(vnis, before);
          return Err(ENOSPC);
        }
        NotIn(vnis, one.value);
        ElementsOfAppend(vnis, one.value);
        vnis, taken := vnis + [one.value], taken + {one.value};
      }
      return Ok(vnis);
    }

    /** The error path of the allocation: everything taken goes back. */
    method Restore(vnis: seq<Vni>, ghost before: set<Vni>)
      requires before <= universe && Elements(vnis) <= before && pool == before - Elements(vnis)
      modifies `pool
      ensures pool == before
    {
      FreeArray(vnis);
    }

    method Reserve(id: JobId, count: int) returns (r: Result<seq<Vni>, Error>)
      requires Valid()
      modifies `pool, `jobs
      ensures Valid()
      ensures !(0 <= count <= MAX_VNIS) ==> r == Err(EINVAL)
      ensures 0 <= count <= MAX_VNIS && |old(pool)| < count ==> r == Err(ENOSPC)
      ensures 0 <= count <= MAX_VNIS && count <= |old(pool)| ==> r.Ok? && |r.value| == count
      ensures var e := if r.Ok? then Reserved(id, r.value) else Failed;
              Enabled(old(View()), e) && View() == Next(old(View()), e)
    {
      if count < 0 || count > MAX_VNIS {
        return Err(EINVAL);
      }
      r := AllocArray(count);
      if r.Err? {
        return Err(ENOSPC);
      }
      assert forall v :: v in r.value ==> v in Elements(r.value);
      jobs := jobs[id := r.value];
    }

    method Release(id: JobId) returns (r: Result<(), Error>)
      requires Valid()
      modifies `pool, `jobs
      ensures Valid()
      ensures r == if id in old(jobs) then Ok(()) else Err(ENOENT)
      ensures View() == Next(old(View()), if r.Ok? then Released(id) else Failed)
    {
      if id !in jobs {
        return Err(ENOENT);
      }
      FreeArray(jobs[id]);
      jobs := jobs - {id};
      return Ok(());
    }

    /** create_vnipool: start from a full set and clear what is not configured and
        what is already allocated. */
    method CreatePool(u: set<Vni>, size: nat) returns (p: set<Vni>)
      requires forall v :: v in u ==> v < size
      ensures p == Rebuilt(View(), u)
    {
      p := UpTo(size);
      for id := 0 to size
        invariant forall v :: v in p <==> v < size && (v >= id || v in Rebuilt(View(), u))
      {
        if id !in u || (id in universe && id !in pool) {
          p := p - {id};
        }
      }
    }

    /** vnipool_configure on a decoded idset; a decode error is a missing one. */
    method Configure(decoded: Result<set<Vni>, Error>) returns (r: Result<(), Error>)
      requires Valid()
      modifies `universe, `pool
      ensures Valid()
      ensures r.Ok? <==> decoded.Ok? && forall v :: v in decoded.value ==> v <= 65535 && v != 1 && v != 10
      ensures r.Err? ==> r.error == EINVAL
      ensures r.Ok? ==> universe == decoded.value && pool == universe - (old(universe) - old(pool))
      ensures View() == Next(old(View()), if r.Ok? then Configured(decoded.value) else Failed)
    {
      if decoded.Err? || exists v :: v in decoded.value && !IsValid(v) {
        return Err(EINVAL);
      }
      if decoded.value == universe {
        return Ok(());
      }
      var p := CreatePool(decoded.value, 65536);
      universe, pool := decoded.value, p;
      return Ok(());
    }
  }
}
