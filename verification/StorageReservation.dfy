/** What the rewritten jobspec reserves for a job's rabbit storage, and whether it
    covers what is then placed on the rabbits. */
module StorageReservation {
  import opened Wrappers
  import opened Arithmetic
  import opened DirectiveBreakdown

  // ----- what the jobspec reserves

  /** The allocation strategy each label must come with. */
  function Expected(kind: Label): Strategy {
    match kind
    case Xfs | Raw | Gfs2 => PerCompute
    case Ost | Mdt | MgtMdt => AcrossServers
    case Mgt => SingleServer
  }

  predicate IsPerCompute(kind: Label) { kind == Xfs || kind == Gfs2 || kind == Raw }

  function CapacityGib(a: Allocation, minSize: nat): nat { Max(minSize, CeilDiv(a.minimumCapacity, GIB)) }

  /** GiB of SSD reserved beside every node of the job for one allocation. A job without
      nodes cannot divide anything over them. */
  function PerNode(a: Allocation, minSize: nat, nodecount: nat): nat {
    if IsPerCompute(a.kind) then CapacityGib(a, minSize)
    else if nodecount == 0 then 0
    else CeilDiv(CapacityGib(a, minSize), nodecount)
  }

  function SumPerNode(allocations: seq<Allocation>, minSize: nat, nodecount: nat): nat {
    if allocations == [] then 0
    else SumPerNode(allocations[..|allocations| - 1], minSize, nodecount)
         + PerNode(allocations[|allocations| - 1], minSize, nodecount)
  }

  /** So many GiB beside every node are enough for an allocation exactly if they are no
      less: with the minimum size for it, and without rounding anything twice. */
  lemma {:induction false} PerNodeIsLeast(a: Allocation, minSize: nat, nodecount: nat, x: nat)
    requires nodecount > 0
    ensures IsPerCompute(a.kind) ==>
              (PerNode(a, minSize, nodecount) <= x <==> minSize <= x && a.minimumCapacity <= x * GIB)
    ensures !IsPerCompute(a.kind) ==>
              (PerNode(a, minSize, nodecount) <= x <==>
               minSize <= x * nodecount && a.minimumCapacity <= x * nodecount * GIB)
  {
    CeilDivIff(a.minimumCapacity, GIB, x);
    CeilDivIff(a.minimumCapacity, GIB, x * nodecount);
    CeilDivIff(CapacityGib(a, minSize), nodecount, x);
  }

  lemma {:induction false} CeilDivIff(m: nat, d: nat, x: nat)
    requires d > 0
    ensures CeilDiv(m, d) <= x <==> m <= x * d
  {
    if m <= x * d {
      CeilDivLeast(m, d, x);
    } else {
      CeilDivBounds(m, d);
      if CeilDiv(m, d) <= x { MulLe(CeilDiv(m, d), x, d); }
    }
  }

  /** What the allocations with one label ask for, each in whole GiB and no less than the
      minimum. */
  function Requested(allocations: seq<Allocation>, kind: Label, minSize: nat): nat {
    if allocations == [] then 0
    else
      var a := allocations[|allocations| - 1];
      Requested(allocations[..|allocations| - 1], kind, minSize)
      + if a.kind == kind then Max(minSize, CeilDiv(a.minimumCapacity, GIB)) else 0
  }

  /** The four sums kept while a list is applied. Of the Lustre labels only the OSTs
      count. */
  ghost predicate Sums(before: Limits, after: Limits, allocations: seq<Allocation>, minSize: nat) {
    && after.xfs == before.xfs + Requested(allocations, Xfs, minSize)
    && after.gfs2 == before.gfs2 + Requested(allocations, Gfs2, minSize)
    && after.raw == before.raw + Requested(allocations, Raw, minSize)
    && after.lustre == before.lustre + Requested(allocations, Ost, minSize)
  }

  datatype Limits = Limits(xfs: nat, gfs2: nat, lustre: nat, raw: nat)

  function Incremented(l: Limits, kind: Label, capacity: nat): Limits {
    match kind
    case Xfs => l.(xfs := l.xfs + capacity)
    case Gfs2 => l.(gfs2 := l.gfs2 + capacity)
    case Raw => l.(raw := l.raw + capacity)
    case Ost => l.(lustre := l.lustre + capacity)
    case _ => l
  }

  predicate Within(requested: nat, allowed: Option<nat>) { allowed.Some? ==> requested <= allowed.value }

  /** Is the allocation one that a job of so many nodes can have? */
  function Verdict(a: Allocation, nodecount: nat): Result<(), Error> {
    if a.strategy != Expected(a.kind) then Err(WrongStrategy)
    else if nodecount == 0 && !IsPerCompute(a.kind) then Err(ZeroDivision)
    else Ok(())
  }

  class NodeJobspecModifier {
    const nodecount: nat
    const minSize: nat
    var ssd: nat
    var limits: Limits

    constructor (nodecount: nat, minSize: nat)
      ensures this.nodecount == nodecount && this.minSize == minSize && ssd == 0 && limits == Limits(0, 0, 0, 0)
    {
      this.nodecount, this.minSize, this.ssd, this.limits := nodecount, minSize, 0, Limits(0, 0, 0, 0);
    }

    method ApplyAllocation(a: Allocation) returns (r: Result<(), Error>)
      modifies this
      ensures r == Verdict(a, nodecount)
      ensures r == Err(WrongStrategy) <==>
              a.strategy != match a.kind case Xfs | Gfs2 | Raw => PerCompute case Mgt => SingleServer
                                         case Ost | Mdt | MgtMdt => AcrossServers
      ensures r == Err(ZeroDivision) ==> nodecount == 0 && a.strategy != PerCompute
      ensures r.Ok? ==> nodecount > 0 || a.strategy == PerCompute
      ensures ssd == old(ssd) + if r.Ok? then PerNode(a, minSize, nodecount) else 0
      ensures limits == if r == Err(WrongStrategy) then old(limits)
                        else Incremented(old(limits), a.kind, CapacityGib(a, minSize))
    {
      var capacity := Max(minSize, CeilDiv(a.minimumCapacity, GIB));
      if a.strategy != Expected(a.kind) {
        return Err(WrongStrategy);
      }
      limits := Incremented(limits, a.kind, capacity);
      if !IsPerCompute(a.kind) {
        if nodecount == 0 {
          return Err(ZeroDivision);
        }
        capacity := CeilDiv(capacity, nodecount);
      }
      ssd := ssd + capacity;
      return Ok(());
    }

    /** The loop of apply_breakdowns over the allocation sets of the directives. */
    method ApplyAll(allocations: seq<Allocation>) returns (r: Result<(), Error>)
      modifies this
      ensures r.Ok? <==> forall i :: 0 <= i < |allocations| ==> Verdict(allocations[i], nodecount).Ok?
      ensures r.Ok? ==> ssd == old(ssd) + SumPerNode(allocations, minSize, nodecount)
      ensures r.Ok? ==> Sums(old(limits), limits, allocations, minSize)
      ensures r.Err? ==> exists i :: 0 <= i < |allocations| && Verdict(allocations[i], nodecount) == r
                                     && forall k :: 0 <= k < i ==> Verdict(allocations[k], nodecount).Ok?
    {
      for i := 0 to |allocations|
        invariant forall j :: 0 <= j < i ==> Verdict(allocations[j], nodecount).Ok?
        invariant ssd == old(ssd) + SumPerNode(allocations[..i], minSize, nodecount)
        invariant Sums(old(limits), limits, allocations[..i], minSize)
      {
        assert allocations[..i + 1][..i] == allocations[..i];
        r := ApplyAllocation(allocations[i]);
        if r.Err? {
          return;
        }
      }
      assert allocations[..|allocations|] == allocations;
      return Ok(());
    }

    /** ResourceLimits.validate against the configured maxima. Lustre comes last and is
        limited per node on average, the others per node. */
    method Validate(xfs: Option<nat>, gfs2: Option<nat>, lustre: Option<nat>, raw: Option<nat>)
      returns (r: Result<(), Error>)
      ensures r.Ok? <==> Within(limits.xfs, xfs) && Within(limits.gfs2, gfs2) && Within(limits.raw, raw)
                         && nodecount > 0 && (lustre.Some? ==> limits.lustre < (lustre.value + 1) * nodecount)
      ensures r == Err(ZeroDivision) <==> Within(limits.xfs, xfs) && Within(limits.gfs2, gfs2)
                                          && Within(limits.raw, raw) && nodecount == 0
      ensures r.Err? ==> r.error == ZeroDivision || r.error == OverLimit
    {
      if !Within(limits.xfs, xfs) || !Within(limits.gfs2, gfs2) || !Within(limits.raw, raw) {
        return Err(OverLimit);
      }
      if nodecount == 0 {
        return Err(ZeroDivision);
      }
      if lustre.Some? { QuotientBelow(limits.lustre, nodecount, lustre.value); }
      return if Within(limits.lustre / nodecount, lustre) then Ok(()) else Err(OverLimit);
    }
  }

  /** Nothing reserved means that nothing was asked for. */
  lemma {:induction false} NothingRequested(allocations: seq<Allocation>, minSize: nat, nodecount: nat)
    requires forall i :: 0 <= i < |allocations| ==> Verdict(allocations[i], nodecount).Ok?
    requires SumPerNode(allocations, minSize, nodecount) == 0
    ensures Sums(Limits(0, 0, 0, 0), Limits(0, 0, 0, 0), allocations, minSize)
  {
    if allocations != [] {
      var front, a := allocations[..|allocations| - 1], allocations[|allocations| - 1];
      NothingRequested(front, minSize, nodecount);
      assert Verdict(a, nodecount).Ok? && PerNode(a, minSize, nodecount) == 0;
      if nodecount > 0 { CeilDivBounds(CapacityGib(a, minSize), nodecount); }
    }
  }

  /** What apply_breakdowns does with the allocations of a job with nodes: the SSD count
      that goes into the jobspec, or none if it stays as it is, which nobody validates. */
  method ApplyBreakdowns(nodecount: nat, minSize: nat, allocations: seq<Allocation>,
                         xfs: Option<nat>, gfs2: Option<nat>, lustre: Option<nat>, raw: Option<nat>)
    returns (r: Result<Option<nat>, Error>)
    ensures r.Ok? <==>
              && (forall i :: 0 <= i < |allocations| ==> Verdict(allocations[i], nodecount).Ok?)
              && (xfs.Some? ==> Requested(allocations, Xfs, minSize) <= xfs.value)
              && (gfs2.Some? ==> Requested(allocations, Gfs2, minSize) <= gfs2.value)
              && (raw.Some? ==> Requested(allocations, Raw, minSize) <= raw.value)
              && (nodecount > 0 || SumPerNode(allocations, minSize, nodecount) == 0)
              && (nodecount > 0 && lustre.Some? ==>
                    Requested(allocations, Ost, minSize) < (lustre.value + 1) * nodecount)
    ensures r.Ok? ==> (r.value.None? <==> SumPerNode(allocations, minSize, nodecount) == 0)
    ensures r.Ok? && r.value.Some? ==> r.value.value == SumPerNode(allocations, minSize, nodecount)
  {
    var modifier := new NodeJobspecModifier(nodecount, minSize);
    var applied := modifier.ApplyAll(allocations);
    if applied.Err? {
      return Err(applied.error);
    }
    if modifier.ssd == 0 {
      NothingRequested(allocations, minSize, nodecount);
      return Ok(None);
    }
    var valid := modifier.Validate(xfs, gfs2, lustre, raw);
    return if valid.Ok? then Ok(Some(modifier.ssd)) else Err(valid.error);
  }

  // ----- what is placed on a rabbit

  /** A job with rabbits, whose compute nodes are the ones attached to them. */
  ghost predicate IsJob(rs: seq<Rabbit>) { WellFormed(rs) && rs != [] && GcdOfNodes(rs) > 0 && SumNodes(rs) > 0 }

  lemma {:induction false} JobOf(rs: seq<Rabbit>)
    requires WellFormed(rs) && rs != []
    ensures IsJob(rs) && MostCommon(rs) != []
  {
    GcdIsUnit(rs);
    SumPositive(rs);
    MostCommonNonEmpty(rs);
  }

  /** The server set that is built for an allocation of the job. */
  ghost function Built(a: Allocation, rs: seq<Rabbit>, minSize: nat): ServerSet
    requires IsJob(rs) && BaseSize(a, rs, SumNodes(rs)).Ok?
  {
    ServerSet(a.kind, Max(BaseSize(a, rs, SumNodes(rs)).value, minSize * GIB), Storage(a, rs))
  }

  /** The bytes that a server set puts on a rabbit. */
  function BytesOn(r: ServerSet, name: Name): int { CountFor(r.storage, name) * r.allocationSize }

  /** Does the SSD reserved with the nodes of the rabbit hold what is placed on it? */
  ghost predicate Covered(a: Allocation, rs: seq<Rabbit>, rabbit: Rabbit, minSize: nat)
    requires IsJob(rs) && BaseSize(a, rs, SumNodes(rs)).Ok?
  {
    BytesOn(Built(a, rs, minSize), rabbit.name) <= rabbit.nodes * (PerNode(a, minSize, SumNodes(rs)) * GIB)
  }

  /** Without a fixed number, the placement follows the nodes. */
  lemma {:induction false} BytesFollowNodes(a: Allocation, rs: seq<Rabbit>, i: nat, minSize: nat)
    requires IsJob(rs) && i < |rs| && FixedCount(a).None?
    ensures BaseSize(a, rs, SumNodes(rs)).Ok?
    ensures BytesOn(Built(a, rs, minSize), rs[i].name)
            == rs[i].nodes / Unit(a, rs) * Max(BaseSize(a, rs, SumNodes(rs)).value, minSize * GIB)
  {
    var w := Weighted(rs, Unit(a, rs));
    CountInWeighted(rs, Unit(a, rs), i, |rs|);
    assert w[..|rs|] == w;
  }

  lemma {:induction false} PerComputeCovered(a: Allocation, rs: seq<Rabbit>, i: nat, minSize: nat)
    requires IsJob(rs) && i < |rs| && a.strategy == PerCompute == Expected(a.kind)
    ensures Covered(a, rs, rs[i], minSize)
  {
    BytesFollowNodes(a, rs, i, minSize);
    var c := CapacityGib(a, minSize);
    CeilDivBounds(a.minimumCapacity, GIB);
    assert Max(a.minimumCapacity, minSize * GIB) <= c * GIB;
    MulLe(Max(a.minimumCapacity, minSize * GIB), c * GIB, rs[i].nodes);
  }

  /** The capacity divided over n nodes, times n, is enough for the bytes asked for. */
  lemma {:induction false} CapacityReaches(m: nat, n: nat, cap: nat)
    requires n > 0 && CeilDiv(m, GIB) <= cap
    ensures m <= (CeilDiv(cap, n) * GIB) * n
  {
    var c := CeilDiv(cap, n);
    CeilDivBounds(m, GIB);
    CeilDivBounds(cap, n);
    assert m <= cap * GIB;
    MulLe(cap, c * n, GIB);
    assert (c * n) * GIB == (c * GIB) * n;
  }

  /** One allocation of a weighted split fits in what g nodes have reserved. */
  lemma {:induction false} ShareFits(m: nat, g: nat, n: nat, minSize: nat)
    requires g > 0 && n > 0
    ensures CeilDiv(g * m, n) <= g * CeilDiv(Max(minSize, CeilDiv(m, GIB)), n) * GIB
  {
    var c := CeilDiv(Max(minSize, CeilDiv(m, GIB)), n);
    CapacityReaches(m, n, Max(minSize, CeilDiv(m, GIB)));
    MulLe(m, (c * GIB) * n, g);
    Rearranged(g, c, n);
    CeilDivLeast(g * m, n, g * c * GIB);
  }

  lemma {:induction false} Rearranged(g: nat, c: nat, n: nat)
    ensures g * ((c * GIB) * n) == (g * c * GIB) * n
  {
    assert g * ((c * GIB) * n) == (g * (c * GIB)) * n;
    assert g * (c * GIB) == (g * c) * GIB;
  }

  lemma {:induction false} WeightedCoverage(q: nat, g: nat, size: nat, minSize: nat, c: nat)
    requires q > 0 && size <= g * c * GIB
    ensures q * Max(size, minSize * GIB) <= (q * g) * (c * GIB) <==> minSize <= g * c
  {
    var big, room := Max(size, minSize * GIB), g * c * GIB;
    assert (q * g) * (c * GIB) == q * room by {
      assert (q * g) * (c * GIB) == q * (g * (c * GIB));
      assert g * (c * GIB) == (g * c) * GIB;
    }
    if minSize <= g * c { MulLe(big, room, q); }
    if q * big <= q * room { MulCancel(q, big, room); }
  }

  /** Across servers, the reservation covers the placement on every rabbit exactly
      when the minimum allocation size is at most what g nodes reserve, g being the
      greatest common divisor of the rabbits' node counts. */
  lemma {:induction false} AcrossServersCoveredIff(a: Allocation, rs: seq<Rabbit>, i: nat, minSize: nat)
    requires IsJob(rs) && i < |rs| && a.strategy == AcrossServers == Expected(a.kind) && a.count.None?
    ensures Covered(a, rs, rs[i], minSize) <==> minSize <= GcdOfNodes(rs) * PerNode(a, minSize, SumNodes(rs))
  {
    var g, n := GcdOfNodes(rs), SumNodes(rs);
    GcdIsUnit(rs);
    WeightOf(rs, g, i);
    BytesFollowNodes(a, rs, i, minSize);
    ShareFits(a.minimumCapacity, g, n, minSize);
    WeightedCoverage(rs[i].nodes / g, g, CeilDiv(g * a.minimumCapacity, n), minSize, PerNode(a, minSize, n));
  }

  /** In particular, a minimum size that does not bind never does harm. */
  lemma {:induction false} UnclampedIsCovered(a: Allocation, rs: seq<Rabbit>, i: nat, minSize: nat)
    requires IsJob(rs) && i < |rs| && a.strategy == AcrossServers == Expected(a.kind) && a.count.None?
    requires minSize * GIB <= BaseSize(a, rs, SumNodes(rs)).value
    ensures Covered(a, rs, rs[i], minSize)
  {
    ShareFits(a.minimumCapacity, GcdOfNodes(rs), SumNodes(rs), minSize);
    AcrossServersCoveredIff(a, rs, i, minSize);
  }

  /** A fixed number of allocations goes to the rabbits with the most nodes, whatever
      they have reserved: the rabbit in position p of that order is covered exactly when
      its share of them fits its nodes' part of the reservation. */
  lemma {:induction false} FixedCoveredIff(a: Allocation, rs: seq<Rabbit>, p: nat, minSize: nat)
    requires IsJob(rs) && p < |rs| && a.strategy == Expected(a.kind) && FixedCount(a).Some? && FixedCount(a).value > 0
    ensures |MostCommon(rs)| == |rs|
    ensures Covered(a, rs, MostCommon(rs)[p], minSize) <==> FixedFits(a, rs, p, minSize)
  {
    MostCommonSorted(rs);
    MostCommonNames(rs);
    CountOfDealt(MostCommon(rs), FixedCount(a).value, p);
  }

  ghost predicate FixedFits(a: Allocation, rs: seq<Rabbit>, p: nat, minSize: nat)
    requires IsJob(rs) && p < |MostCommon(rs)| && FixedCount(a).Some? && FixedCount(a).value > 0
  {
    var count := FixedCount(a).value;
    Share(count, |rs|, p) * Max(CeilDiv(a.minimumCapacity, count), minSize * GIB)
    <= MostCommon(rs)[p].nodes * (CeilDiv(CapacityGib(a, minSize), SumNodes(rs)) * GIB)
  }

  /** The minimum size can outgrow the reservation: eight nodes split one and seven
      get eight allocations of 4 GiB but reserve 1 GiB each. */
  lemma {:induction false} MinimumOutgrowsReservation(a: Allocation)
    requires a.kind == Ost && a.strategy == AcrossServers && a.count.None? && a.minimumCapacity == GIB
    ensures var rs := [Rabbit("a", 1), Rabbit("b", 7)];
            IsJob(rs) && BaseSize(a, rs, SumNodes(rs)).Ok? && !Covered(a, rs, rs[0], 4)
  {
    var rs := [Rabbit("a", 1), Rabbit("b", 7)];
    assert rs[..1] == [Rabbit("a", 1)];
    assert GcdOfNodes(rs) == Gcd(1, 7) == Gcd(7, 1) == Gcd(1, 0) == 1;
    assert SumNodes(rs[..1]) == 1 && SumNodes(rs) == 8;
    AcrossServersCoveredIff(a, rs, 0, 4);
  }

  /** A single server needs more than its own rabbit's part: 2 GiB on one of two rabbits
      with a node each, which reserve 1 GiB each. */
  lemma {:induction false} SingleServerOutgrowsReservation(a: Allocation, rs: seq<Rabbit>)
    requires a.kind == Mgt && a.strategy == SingleServer && a.minimumCapacity == 2 * GIB
    requires WellFormed(rs) && |rs| == 2 && rs[0].nodes == rs[1].nodes == 1
    ensures IsJob(rs) && BaseSize(a, rs, SumNodes(rs)).Ok? && !Covered(a, rs, rs[0], 1)
  {
    JobOf(rs);
    TwoEqualRabbits(rs);
    FixedCoveredIff(a, rs, 0, 1);
    TwoGiBDoNotFit(a, rs);
  }

  lemma {:induction false} TwoEqualRabbits(rs: seq<Rabbit>)
    requires |rs| == 2 && rs[0].nodes == rs[1].nodes == 1
    ensures SumNodes(rs) == 2 && MostCommon(rs) == rs
  {
    var one := rs[..1];
    assert one[..0] == [] && one == [rs[0]] && rs == one + [rs[1]];
    assert SumNodes(one) == 1 && MostCommon(one) == one;
  }

  lemma {:induction false} TwoGiBDoNotFit(a: Allocation, rs: seq<Rabbit>)
    requires IsJob(rs) && |rs| == 2 && SumNodes(rs) == 2 && MostCommon(rs) == rs && rs[0].nodes == 1
    requires FixedCount(a) == Some(1) && a.minimumCapacity == 2 * GIB
    ensures !FixedFits(a, rs, 0, 1)
  {
    assert CapacityGib(a, 1) == 2;
    assert CeilDiv(CapacityGib(a, 1), 2) == 1 && CeilDiv(a.minimumCapacity, 1) == 2 * GIB && Share(1, 2, 0) == 1;
  }

  // ----- all allocations together

  /** What must be true of an allocation for the reservation to cover it on a rabbit. */
  ghost predicate Coverable(a: Allocation, rs: seq<Rabbit>, i: nat, minSize: nat)
    requires IsJob(rs) && i < |rs| && Verdict(a, SumNodes(rs)).Ok? && BaseSize(a, rs, SumNodes(rs)).Ok?
  {
    match a.strategy
    case PerCompute => true
    case _ =>
      if FixedCount(a).None? then minSize <= GcdOfNodes(rs) * PerNode(a, minSize, SumNodes(rs))
      else exists p :: 0 <= p < |MostCommon(rs)| && MostCommon(rs)[p] == rs[i] && FixedFits(a, rs, p, minSize)
  }

  lemma {:induction false} FixedCoveredSomewhere(a: Allocation, rs: seq<Rabbit>, i: nat, minSize: nat)
    requires IsJob(rs) && i < |rs| && a.strategy == Expected(a.kind) && FixedCount(a).Some? && FixedCount(a).value > 0
    ensures Covered(a, rs, rs[i], minSize) <==>
            exists p :: 0 <= p < |MostCommon(rs)| && MostCommon(rs)[p] == rs[i] && FixedFits(a, rs, p, minSize)
  {
    MostCommonSorted(rs);
    assert rs[i] in multiset(rs);
    var p :| 0 <= p < |MostCommon(rs)| && MostCommon(rs)[p] == rs[i];
    FixedCoveredIff(a, rs, p, minSize);
    if q :| 0 <= q < |MostCommon(rs)| && MostCommon(rs)[q] == rs[i] && FixedFits(a, rs, q, minSize) {
      FixedCoveredIff(a, rs, q, minSize);
    }
  }

  /** It is exactly that, for every allocation that is accepted and built. */
  lemma {:induction false} CoveredIffCoverable(a: Allocation, rs: seq<Rabbit>, i: nat, minSize: nat)
    requires IsJob(rs) && i < |rs| && Verdict(a, SumNodes(rs)).Ok? && BaseSize(a, rs, SumNodes(rs)).Ok?
    ensures Covered(a, rs, rs[i], minSize) <==> Coverable(a, rs, i, minSize)
  {
    if a.strategy == PerCompute {
      PerComputeCovered(a, rs, i, minSize);
    } else if FixedCount(a).None? {
      AcrossServersCoveredIff(a, rs, i, minSize);
    } else {
      FixedCoveredSomewhere(a, rs, i, minSize);
    }
  }

  function SumBytes(sets: seq<ServerSet>, name: Name): int {
    if sets == [] then 0 else SumBytes(sets[..|sets| - 1], name) + BytesOn(sets[|sets| - 1], name)
  }

  lemma {:induction false} SumFits(s: int, p: int, nodes: nat, x: nat, y: nat)
    requires s <= nodes * (x * GIB) && p <= nodes * (y * GIB)
    ensures s + p <= nodes * ((x + y) * GIB)
  {
    Distribute(x * GIB, y * GIB, nodes);
  }

  /** The server set was built for an accepted allocation that can be covered. */
  ghost predicate BuiltCoverable(r: ServerSet, a: Allocation, rs: seq<Rabbit>, i: nat, minSize: nat)
    requires IsJob(rs) && i < |rs|
  {
    && IsServerSet(r, a, rs, SumNodes(rs), minSize)
    && Verdict(a, SumNodes(rs)).Ok?
    && Coverable(a, rs, i, minSize)
  }

  /** The bytes on the rabbit are no more than its nodes have reserved for them. */
  ghost predicate Fits(r: ServerSet, a: Allocation, rabbit: Rabbit, n: nat, minSize: nat) {
    BytesOn(r, rabbit.name) <= rabbit.nodes * (PerNode(a, minSize, n) * GIB)
  }

  lemma {:induction false} SumOfFits(allocations: seq<Allocation>, sets: seq<ServerSet>, rabbit: Rabbit,
                                     n: nat, minSize: nat)
    requires |sets| == |allocations|
    requires forall k :: 0 <= k < |sets| ==> Fits(sets[k], allocations[k], rabbit, n, minSize)
    ensures SumBytes(sets, rabbit.name) <= rabbit.nodes * (SumPerNode(allocations, minSize, n) * GIB)
  {
    if sets != [] {
      var last := |sets| - 1;
      SumOfFits(allocations[..last], sets[..last], rabbit, n, minSize);
      assert Fits(sets[last], allocations[last], rabbit, n, minSize);
      SumFits(SumBytes(sets[..last], rabbit.name), BytesOn(sets[last], rabbit.name), rabbit.nodes,
              SumPerNode(allocations[..last], minSize, n), PerNode(allocations[last], minSize, n));
    }
  }

  lemma {:induction false} BuiltIsCovered(r: ServerSet, a: Allocation, rs: seq<Rabbit>, i: nat, minSize: nat)
    requires IsJob(rs) && i < |rs| && BuiltCoverable(r, a, rs, i, minSize)
    ensures Fits(r, a, rs[i], SumNodes(rs), minSize)
  {
    CoveredIffCoverable(a, rs, i, minSize);
    assert r == Built(a, rs, minSize);
  }

  /** Of one result of build_allocation_sets and the SSD count of one rewritten jobspec:
      if every allocation can be covered, the SSD reserved for the nodes of each rabbit
      holds everything that is placed on it. */
  lemma {:induction false} ReservationCoversPlacement(allocations: seq<Allocation>, sets: seq<ServerSet>, ssd: nat,
                                                      rs: seq<Rabbit>, i: nat, minSize: nat)
    requires IsJob(rs) && i < |rs| && |sets| == |allocations|
    requires forall k :: 0 <= k < |sets| ==> BuiltCoverable(sets[k], allocations[k], rs, i, minSize)
    requires ssd == SumPerNode(allocations, minSize, SumNodes(rs))
    ensures SumBytes(sets, rs[i].name) <= rs[i].nodes * (ssd * GIB)
  {
    forall k | 0 <= k < |sets| ensures Fits(sets[k], allocations[k], rs[i], SumNodes(rs), minSize) {
      BuiltIsCovered(sets[k], allocations[k], rs, i, minSize);
    }
    SumOfFits(allocations, sets, rs[i], SumNodes(rs), minSize);
  }
}
