/** Rabbit storage: how a directive breakdown is split over the rabbits a job runs
    on. */
module DirectiveBreakdown {
  import opened Wrappers
  import opened Arithmetic

  const GIB := 1024 * 1024 * 1024

  type Name = string

  datatype Strategy = PerCompute | SingleServer | AcrossServers

  datatype Label = Xfs | Gfs2 | Raw | Ost | Mdt | Mgt | MgtMdt

  datatype Allocation = Allocation(kind: Label, strategy: Strategy, minimumCapacity: nat, count: Option<nat>)

  /** A rabbit and how many of the job's compute nodes are attached to it. */
  datatype Rabbit = Rabbit(name: Name, nodes: nat)

  datatype Placement = Placement(name: Name, count: nat)

  datatype ServerSet = ServerSet(kind: Label, allocationSize: nat, storage: seq<Placement>)

  /** The exceptions that can be raised, and Endless for a loop that does not end. */
  datatype Error = ZeroDivision | EmptyReduce | WrongStrategy | OverLimit | Endless

  /** nodes_per_nnf as setup_cb builds it: one entry per rabbit, each with a node. */
  ghost predicate WellFormed(rs: seq<Rabbit>) {
    && (forall i, j :: 0 <= i < j < |rs| ==> rs[i].name != rs[j].name)
    && forall i :: 0 <= i < |rs| ==> rs[i].nodes > 0
  }

  function SumNodes(rs: seq<Rabbit>): nat {
    if rs == [] then 0 else SumNodes(rs[..|rs| - 1]) + rs[|rs| - 1].nodes
  }

  function SumCounts(ps: seq<Placement>): nat {
    if ps == [] then 0 else SumCounts(ps[..|ps| - 1]) + ps[|ps| - 1].count
  }

  function Max(a: nat, b: nat): nat { if a >= b then a else b }

  // ----- nodes per rabbit

  /** nodes_per_nnf[name] = nodes_per_nnf.get(name, 0) + 1 on an ordered dict. */
  function Bump(rs: seq<Rabbit>, name: Name): seq<Rabbit> {
    if rs == [] then [Rabbit(name, 1)]
    else if rs[0].name == name then [Rabbit(name, rs[0].nodes + 1)] + rs[1..]
    else [rs[0]] + Bump(rs[1..], name)
  }

  function NodesOn(rs: seq<Rabbit>, name: Name): nat {
    if rs == [] then 0 else if rs[0].name == name then rs[0].nodes else NodesOn(rs[1..], name)
  }

  lemma {:induction false} SumNodesFront(rs: seq<Rabbit>)
    requires rs != []
    ensures SumNodes(rs) == rs[0].nodes + SumNodes(rs[1..])
  {
    if |rs| > 1 {
      var front := rs[..|rs| - 1];
      SumNodesFront(front);
      assert front[1..] == rs[1..][..|rs| - 2];
    }
  }

  lemma {:induction false} ConsWellFormed(r: Rabbit, rest: seq<Rabbit>)
    requires WellFormed(rest) && r.nodes > 0 && forall x :: x in rest ==> x.name != r.name
    ensures WellFormed([r] + rest)
  {
  }

  lemma {:induction false} BumpedNames(rs: seq<Rabbit>, name: Name)
    requires WellFormed(rs)
    ensures WellFormed(Bump(rs, name))
    ensures forall r :: r in Bump(rs, name) ==> r.name == name || r in rs
  {
    if rs == [] {
    } else if rs[0].name == name {
      ConsWellFormed(Rabbit(name, rs[0].nodes + 1), rs[1..]);
    } else {
      BumpedNames(rs[1..], name);
      ConsWellFormed(rs[0], Bump(rs[1..], name));
    }
  }

  lemma {:induction false} BumpedSum(rs: seq<Rabbit>, name: Name)
    ensures SumNodes(Bump(rs, name)) == SumNodes(rs) + 1
  {
    var b := Bump(rs, name);
    SumNodesFront(b);
    if rs != [] {
      SumNodesFront(rs);
      if rs[0].name == name {
        assert b[1..] == rs[1..];
      } else {
        BumpedSum(rs[1..], name);
        assert b[1..] == Bump(rs[1..], name);
      }
    }
  }

  lemma {:induction false} BumpedNodes(rs: seq<Rabbit>, name: Name, other: Name)
    ensures NodesOn(Bump(rs, name), other) == NodesOn(rs, other) + if other == name then 1 else 0
  {
    var b := Bump(rs, name);
    if rs != [] {
      if rs[0].name == name {
        assert b[1..] == rs[1..];
      } else {
        BumpedNodes(rs[1..], name, other);
        assert b[1..] == Bump(rs[1..], name);
      }
    }
  }

  /** How many of these hosts are compute nodes attached to the named rabbit. */
  function AttachedTo(hosts: seq<Name>, rabbitOf: map<Name, Name>, rabbits: set<Name>, name: Name): nat {
    if hosts == [] then 0
    else
      var h := hosts[|hosts| - 1];
      AttachedTo(hosts[..|hosts| - 1], rabbitOf, rabbits, name)
      + if h !in rabbits && h in rabbitOf && rabbitOf[h] == name then 1 else 0
  }

  /** The node-counting loop of setup_cb. Rabbits in the host list are skipped, and an
      unknown host is a KeyError. */
  method CountNodes(hosts: seq<Name>, rabbitOf: map<Name, Name>, rabbits: set<Name>)
    returns (ok: bool, rs: seq<Rabbit>, computeNodes: nat)
    ensures ok <==> forall h :: h in hosts ==> h in rabbits || h in rabbitOf
    ensures ok ==> WellFormed(rs) && SumNodes(rs) == computeNodes
    ensures ok ==> forall name :: NodesOn(rs, name) == AttachedTo(hosts, rabbitOf, rabbits, name)
  {
    rs, computeNodes := [], 0;
    for i := 0 to |hosts|
      invariant forall h :: h in hosts[..i] ==> h in rabbits || h in rabbitOf
      invariant WellFormed(rs) && SumNodes(rs) == computeNodes
      invariant forall name :: NodesOn(rs, name) == AttachedTo(hosts[..i], rabbitOf, rabbits, name)
    {
      assert hosts[..i + 1][..i] == hosts[..i];
      var h := hosts[i];
      if h !in rabbits {
        computeNodes := computeNodes + 1;
        if h !in rabbitOf {
          return false, rs, computeNodes;
        }
        BumpedNames(rs, rabbitOf[h]);
        BumpedSum(rs, rabbitOf[h]);
        forall name { BumpedNodes(rs, rabbitOf[h], name); }
        rs := Bump(rs, rabbitOf[h]);
      }
    }
    assert hosts[..|hosts|] == hosts;
    ok := true;
  }

  // ----- most_common

  /** Insert before the first entry with fewer nodes, so equal entries keep their
      order. */
  function InsertByNodes(rs: seq<Rabbit>, r: Rabbit): seq<Rabbit> {
    if rs == [] || rs[|rs| - 1].nodes >= r.nodes then rs + [r]
    else InsertByNodes(rs[..|rs| - 1], r) + [rs[|rs| - 1]]
  }

  /** Counter(nodes).most_common(): most nodes first, ties in insertion order. */
  function MostCommon(rs: seq<Rabbit>): seq<Rabbit> {
    if rs == [] then [] else InsertByNodes(MostCommon(rs[..|rs| - 1]), rs[|rs| - 1])
  }

  ghost predicate Descending(rs: seq<Rabbit>) { forall i, j :: 0 <= i < j < |rs| ==> rs[i].nodes >= rs[j].nodes }

  lemma {:induction false} DescendingAppend(rs: seq<Rabbit>, r: Rabbit)
    requires Descending(rs) && forall x :: x in rs ==> x.nodes >= r.nodes
    ensures Descending(rs + [r])
  {
  }

  lemma {:induction false} InsertSorted(rs: seq<Rabbit>, r: Rabbit)
    requires Descending(rs)
    ensures Descending(InsertByNodes(rs, r)) && multiset(InsertByNodes(rs, r)) == multiset(rs) + multiset{r}
  {
    if rs == [] || rs[|rs| - 1].nodes >= r.nodes {
      assert forall x :: x in rs ==> x.nodes >= r.nodes;
      DescendingAppend(rs, r);
    } else {
      var front, last := rs[..|rs| - 1], rs[|rs| - 1];
      InsertSorted(front, r);
      var m := InsertByNodes(front, r);
      assert multiset(rs) == multiset(front) + multiset{last} by { assert rs == front + [last]; }
      forall x | x in m ensures x.nodes >= last.nodes { assert x in multiset(m); }
      DescendingAppend(m, last);
    }
  }

  lemma {:induction false} MostCommonSorted(rs: seq<Rabbit>)
    ensures Descending(MostCommon(rs)) && multiset(MostCommon(rs)) == multiset(rs) && |MostCommon(rs)| == |rs|
  {
    if rs != [] {
      var front, last := rs[..|rs| - 1], rs[|rs| - 1];
      assert rs == front + [last];
      MostCommonSorted(front);
      InsertSorted(MostCommon(front), last);
      assert |multiset(MostCommon(rs))| == |multiset(rs)|;
    }
  }

  lemma {:induction false} MostCommonNames(rs: seq<Rabbit>)
    requires WellFormed(rs)
    ensures WellFormed(MostCommon(rs))
  {
    var m := MostCommon(rs);
    MostCommonSorted(rs);
    forall i | 0 <= i < |m| ensures m[i].nodes > 0 { assert m[i] in multiset(m); }
    forall i, j | 0 <= i < j < |m| ensures m[i].name != m[j].name {
      assert m[i] in multiset(m) && m[j] in multiset(m);
      var a :| 0 <= a < |rs| && rs[a] == m[i];
      var b :| 0 <= b < |rs| && rs[b] == m[j];
      if a == b { Twice(m, i, j); Once(rs, a); }
    }
  }

  lemma {:induction false} Twice(m: seq<Rabbit>, i: nat, j: nat)
    requires i < j < |m| && m[i] == m[j]
    ensures multiset(m)[m[i]] >= 2
  {
    assert m == m[..j] + [m[j]] + m[j + 1..];
    assert m[i] in m[..j];
  }

  lemma {:induction false} Once(rs: seq<Rabbit>, a: nat)
    requires WellFormed(rs) && a < |rs|
    ensures multiset(rs)[rs[a]] == 1
  {
    assert rs == rs[..a] + [rs[a]] + rs[a + 1..];
    assert rs[a] !in rs[..a] && rs[a] !in rs[a + 1..];
  }

  /** x comes before y. */
  ghost predicate Before(rs: seq<Rabbit>, x: Rabbit, y: Rabbit) {
    exists p, q :: 0 <= p < q < |rs| && rs[p] == x && rs[q] == y
  }

  lemma {:induction false} BeforeInMore(rs: seq<Rabbit>, more: seq<Rabbit>, x: Rabbit, y: Rabbit)
    requires Before(rs, x, y)
    ensures Before(rs + more, x, y)
  {
    var p, q :| 0 <= p < q < |rs| && rs[p] == x && rs[q] == y;
    assert (rs + more)[p] == x && (rs + more)[q] == y;
  }

  lemma {:induction false} BeforeLast(rs: seq<Rabbit>, x: Rabbit, y: Rabbit)
    requires x in rs
    ensures Before(rs + [y], x, y)
  {
    var p :| 0 <= p < |rs| && rs[p] == x;
    assert (rs + [y])[p] == x && (rs + [y])[|rs|] == y;
  }

  lemma {:induction false} InsertHas(rs: seq<Rabbit>, r: Rabbit, x: Rabbit)
    ensures x in InsertByNodes(rs, r) <==> x in rs || x == r
  {
    if rs != [] && rs[|rs| - 1].nodes < r.nodes {
      InsertHas(rs[..|rs| - 1], r, x);
    }
  }

  lemma {:induction false} InsertKeepsBefore(rs: seq<Rabbit>, r: Rabbit, x: Rabbit, y: Rabbit)
    requires Before(rs, x, y)
    ensures Before(InsertByNodes(rs, r), x, y)
  {
    if rs[|rs| - 1].nodes >= r.nodes {
      BeforeInMore(rs, [r], x, y);
    } else {
      var front, last := rs[..|rs| - 1], rs[|rs| - 1];
      var p, q :| 0 <= p < q < |rs| && rs[p] == x && rs[q] == y;
      if q == |front| {
        assert front[p] == x;
        InsertHas(front, r, x);
        BeforeLast(InsertByNodes(front, r), x, last);
      } else {
        assert front[p] == x && front[q] == y;
        InsertKeepsBefore(front, r, x, y);
        BeforeInMore(InsertByNodes(front, r), [last], x, y);
      }
    }
  }

  lemma {:induction false} InsertIsAfter(rs: seq<Rabbit>, r: Rabbit, x: Rabbit)
    requires x in rs && x.nodes >= r.nodes
    ensures Before(InsertByNodes(rs, r), x, r)
  {
    if rs[|rs| - 1].nodes >= r.nodes {
      BeforeLast(rs, x, r);
    } else {
      var front, last := rs[..|rs| - 1], rs[|rs| - 1];
      assert x in front by { assert x != last; }
      InsertIsAfter(front, r, x);
      BeforeInMore(InsertByNodes(front, r), [last], x, r);
    }
  }

  /** A rabbit with at least the nodes of a later one stays before it. */
  lemma {:induction false} MostCommonStable(rs: seq<Rabbit>, i: nat, j: nat)
    requires i < j < |rs| && rs[i].nodes >= rs[j].nodes
    ensures Before(MostCommon(rs), rs[i], rs[j])
  {
    var front, last := rs[..|rs| - 1], rs[|rs| - 1];
    if j == |front| {
      MostCommonSorted(front);
      assert rs[i] == front[i] && rs[i] in multiset(front);
      InsertIsAfter(MostCommon(front), last, rs[i]);
    } else {
      MostCommonStable(front, i, j);
      InsertKeepsBefore(MostCommon(front), last, rs[i], rs[j]);
    }
  }

  // ----- a fixed number of allocations

  /** How many of count allocations the rabbit in position p of n receives. */
  function Share(count: nat, n: nat, p: nat): nat
    requires n > 0
  {
    count / n + if p < count % n then 1 else 0
  }

  function Dealt(sorted: seq<Rabbit>, count: nat): seq<Placement>
    requires sorted != []
  {
    seq(if count < |sorted| then count else |sorted|,
        p requires 0 <= p < |sorted| => Placement(sorted[p].name, Share(count, |sorted|, p)))
  }

  /** The count that a placement list gives a rabbit; rabbits not named get none. */
  function CountFor(ps: seq<Placement>, name: Name): nat {
    if ps == [] then 0
    else if ps[|ps| - 1].name == name then ps[|ps| - 1].count
    else CountFor(ps[..|ps| - 1], name)
  }

  function Get(counts: map<Name, nat>, name: Name): nat { if name in counts then counts[name] else 0 }

  /** After k whole rounds and the first q rabbits of the next one: `order` is the
      order in which the rabbits entered the dictionary. */
  ghost predicate DealtSoFar(sorted: seq<Rabbit>, counts: map<Name, nat>, order: seq<Name>, k: nat, q: nat) {
    && q <= |sorted| && |order| == (if k > 0 then |sorted| else q)
    && forall p :: 0 <= p < |sorted| ==>
         && (p < |order| ==> order[p] == sorted[p].name)
         && (sorted[p].name in counts <==> p < |order|)
         && Get(counts, sorted[p].name) == k + if p < q then 1 else 0
  }

  lemma {:induction false} DealOne(sorted: seq<Rabbit>, counts: map<Name, nat>, order: seq<Name>, k: nat, q: nat)
    requires WellFormed(sorted) && DealtSoFar(sorted, counts, order, k, q) && q < |sorted|
    ensures var name := sorted[q].name;
            DealtSoFar(sorted, counts[name := Get(counts, name) + 1],
                       if name in counts then order else order + [name], k, q + 1)
  {}

  /** What is left to place on n rabbits after some rounds. */
  function LeftAfter(n: nat, count: nat, rounds: nat): nat {
    if rounds == 0 then count
    else
      var left := LeftAfter(n, count, rounds - 1);
      if left < n then 0 else left - n
  }

  lemma {:induction false} LeftBound(n: nat, count: nat, rounds: nat)
    ensures n > 0 ==> LeftAfter(n, count, rounds) <= if count < rounds then 0 else count - rounds
    ensures n == 0 ==> LeftAfter(n, count, rounds) == count
  {
    if rounds > 0 {
      LeftBound(n, count, rounds - 1);
    }
  }

  /** The placement loop ends if and only if there is a rabbit or nothing to place. */
  lemma {:induction false} PlacementEndsIff(n: nat, count: nat)
    ensures (exists rounds :: LeftAfter(n, count, rounds) == 0) <==> n > 0 || count == 0
  {
    LeftBound(n, count, count);
    if n > 0 || count == 0 {
      assert LeftAfter(n, count, count) == 0;
    } else {
      forall rounds: nat ensures LeftAfter(n, count, rounds) > 0 { LeftBound(n, count, rounds); }
    }
  }

  /** One pass of the inner loop: one allocation each for the rabbits with the most
      nodes, at most `count` of them. */
  method DealRound(sorted: seq<Rabbit>, counts0: map<Name, nat>, order0: seq<Name>, count: nat, ghost k: nat)
    returns (counts: map<Name, nat>, order: seq<Name>, left: nat)
    requires WellFormed(sorted) && DealtSoFar(sorted, counts0, order0, k, 0)
    ensures left <= count && left == LeftAfter(|sorted|, count, 1)
    ensures DealtSoFar(sorted, counts, order, k, count - left)
  {
    counts, order, left := counts0, order0, count;
    var top := sorted[..if count < |sorted| then count else |sorted|];
    var i := 0;
    while i < |top|
      invariant 0 <= i <= |top| && left == count - i && DealtSoFar(sorted, counts, order, k, i)
    {
      counts, order := DealTo(sorted, counts, order, i, k);
      left := left - 1;
      i := i + 1;
      if left == 0 { break; }
    }
  }

  method DealTo(sorted: seq<Rabbit>, counts0: map<Name, nat>, order0: seq<Name>, i: nat, ghost k: nat)
    returns (counts: map<Name, nat>, order: seq<Name>)
    requires WellFormed(sorted) && i < |sorted| && DealtSoFar(sorted, counts0, order0, k, i)
    ensures DealtSoFar(sorted, counts, order, k, i + 1)
  {
    var name := sorted[i].name;
    DealOne(sorted, counts0, order0, k, i);
    order := if name in counts0 then order0 else order0 + [name];
    counts := counts0[name := Get(counts0, name) + 1];
  }

  lemma {:induction false} NextRound(sorted: seq<Rabbit>, counts: map<Name, nat>, order: seq<Name>, k: nat)
    requires DealtSoFar(sorted, counts, order, k, |sorted|)
    ensures DealtSoFar(sorted, counts, order, k + 1, 0)
  {}

  method DealAll(sorted: seq<Rabbit>, count: nat)
    returns (counts: map<Name, nat>, order: seq<Name>, ghost k: nat, ghost q: nat)
    requires WellFormed(sorted) && sorted != []
    ensures DealtSoFar(sorted, counts, order, k, q) && count == k * |sorted| + q
  {
    var left: nat := count;
    counts, order, k, q := map[], [], 0, 0;
    ghost var rounds := 0;
    while left > 0
      invariant DealtSoFar(sorted, counts, order, k, q)
      invariant rounds == k * |sorted| && count == left + rounds + q && (left > 0 ==> q == 0)
      decreases left
    {
      var before := left;
      counts, order, left := DealRound(sorted, counts, order, before, k);
      q := before - left;
      if left > 0 {
        NextRound(sorted, counts, order, k);
        assert (k + 1) * |sorted| == k * |sorted| + |sorted|;
        k, q, rounds := k + 1, 0, rounds + |sorted|;
      }
    }
  }

  /** The placement of a fixed number of allocations in build_allocation_sets. */
  method Deal(rs: seq<Rabbit>, count: nat) returns (storage: seq<Placement>)
    requires WellFormed(rs) && rs != []
    ensures storage == Dealt(MostCommon(rs), count)
  {
    MostCommonSorted(rs);
    MostCommonNames(rs);
    var sorted := MostCommon(rs);
    var counts, order;
    ghost var k, q;
    counts, order, k, q := DealAll(sorted, count);
    SharesFromRounds(count, |sorted|, k, q);
    storage := [];
    for i := 0 to |order|
      invariant |storage| == i && forall j :: 0 <= j < i ==> storage[j] == Placement(order[j], Get(counts, order[j]))
    {
      storage := storage + [Placement(order[i], counts[order[i]])];
    }
    assert forall p :: 0 <= p < |storage| ==> order[p] == sorted[p].name && storage[p] == Dealt(sorted, count)[p];
  }

  lemma {:induction false} SharesFromRounds(count: nat, n: nat, k: nat, q: nat)
    requires n > 0 && q <= n && count == k * n + q
    ensures (if k > 0 then n else q) == if count < n then count else n
    ensures forall p: nat :: p < n ==> Share(count, n, p) == k + if p < q then 1 else 0
  {
    assert (k + 1) * n == k * n + n;
    if q < n {
      DivModUnique(count, n, k, q);
    } else {
      DivModUnique(count, n, k + 1, 0);
    }
    if k > 0 { MulLe(1, k, n); }
  }

  lemma {:induction false} SumOfMore(ps: seq<Placement>, len: nat)
    requires 0 < len <= |ps|
    ensures SumCounts(ps[..len]) == SumCounts(ps[..len - 1]) + ps[len - 1].count
  {
    assert ps[..len][..len - 1] == ps[..len - 1];
  }

  /** What the first len of n rabbits receive, with q for each and one more for r. */
  function SharesUpTo(len: nat, q: nat, r: nat): nat { len * q + if len < r then len else r }

  lemma {:induction false} SharesStep(len: nat, q: nat, r: nat)
    requires len > 0
    ensures SharesUpTo(len, q, r) == SharesUpTo(len - 1, q, r) + q + if len - 1 < r then 1 else 0
  {
    Distribute(len - 1, 1, q);
  }

  lemma {:induction false} SharesPrefix(ps: seq<Placement>, len: nat, q: nat, r: nat)
    requires len <= |ps| && forall p :: 0 <= p < |ps| ==> ps[p].count == q + if p < r then 1 else 0
    ensures SumCounts(ps[..len]) == SharesUpTo(len, q, r)
  {
    if len > 0 {
      SharesPrefix(ps, len - 1, q, r);
      SumOfMore(ps, len);
      SharesStep(len, q, r);
    }
  }

  /** Exactly count allocations are placed. */
  lemma {:induction false} DealtTotal(sorted: seq<Rabbit>, count: nat)
    requires sorted != []
    ensures SumCounts(Dealt(sorted, count)) == count
  {
    var d, n := Dealt(sorted, count), |sorted|;
    SharesPrefix(d, |d|, count / n, count % n);
    assert d[..|d|] == d;
    if count < n {
      DivModUnique(count, n, 0, count);
    } else {
      assert n * (count / n) + count % n == count;
    }
  }

  lemma {:induction false} CountInPrefix(sorted: seq<Rabbit>, count: nat, len: nat, p: nat)
    requires WellFormed(sorted) && p < |sorted| && len <= |Dealt(sorted, count)|
    ensures CountFor(Dealt(sorted, count)[..len], sorted[p].name) == if p < len then Share(count, |sorted|, p) else 0
  {
    var d := Dealt(sorted, count);
    if len > 0 {
      assert d[..len][..len - 1] == d[..len - 1];
      assert p != len - 1 ==> sorted[len - 1].name != sorted[p].name;
      CountInPrefix(sorted, count, len - 1, p);
    }
  }

  lemma {:induction false} CountOfDealt(sorted: seq<Rabbit>, count: nat, p: nat)
    requires WellFormed(sorted) && p < |sorted|
    ensures CountFor(Dealt(sorted, count), sorted[p].name) == Share(count, |sorted|, p)
  {
    var d := Dealt(sorted, count);
    CountInPrefix(sorted, count, |d|, p);
    assert d[..|d|] == d;
    if count < |sorted| { DivModUnique(count, |sorted|, 0, count); }
  }

  /** Any two rabbits' counts differ by at most one, and a rabbit with more nodes
      never gets fewer allocations. */
  lemma {:induction false} DealtFairly(rs: seq<Rabbit>, count: nat, a: Rabbit, b: Rabbit)
    requires WellFormed(rs) && a in rs && b in rs
    ensures var d := Dealt(MostCommon(rs), count);
            && SumCounts(d) == count
            && CountFor(d, a.name) <= CountFor(d, b.name) + 1
            && (a.nodes > b.nodes ==> CountFor(d, a.name) >= CountFor(d, b.name))
  {
    var sorted := MostCommon(rs);
    MostCommonSorted(rs);
    MostCommonNames(rs);
    DealtTotal(sorted, count);
    assert a in multiset(rs) && b in multiset(rs);
    var p :| 0 <= p < |sorted| && sorted[p] == a;
    var q :| 0 <= q < |sorted| && sorted[q] == b;
    CountOfDealt(sorted, count, p);
    CountOfDealt(sorted, count, q);
  }

  /** Rabbit i is served before rabbit j: it has more nodes, or as many and comes first. */
  ghost predicate First(rs: seq<Rabbit>, i: nat, j: nat)
    requires i < |rs| && j < |rs|
  {
    rs[i].nodes > rs[j].nodes || (rs[i].nodes == rs[j].nodes && i < j)
  }

  /** Rabbits are served in turn: no count is more than one below that of a rabbit that
      is served before, or above it. */
  ghost predicate InTurn(ps: seq<Placement>, rs: seq<Rabbit>) {
    forall i, j :: 0 <= i < |rs| && 0 <= j < |rs| && First(rs, i, j) ==>
      CountFor(ps, rs[j].name) <= CountFor(ps, rs[i].name) <= CountFor(ps, rs[j].name) + 1
  }

  lemma {:induction false} FirstIsBefore(rs: seq<Rabbit>, i: nat, j: nat) returns (p: nat, q: nat)
    requires i < |rs| && j < |rs| && First(rs, i, j)
    ensures p < q < |MostCommon(rs)| && MostCommon(rs)[p] == rs[i] && MostCommon(rs)[q] == rs[j]
  {
    var m := MostCommon(rs);
    if i < j {
      MostCommonStable(rs, i, j);
      p, q :| 0 <= p < q < |m| && m[p] == rs[i] && m[q] == rs[j];
    } else {
      MostCommonSorted(rs);
      assert rs[i] in multiset(rs) && rs[j] in multiset(rs);
      p :| 0 <= p < |m| && m[p] == rs[i];
      q :| 0 <= q < |m| && m[q] == rs[j];
    }
  }

  lemma {:induction false} DealtInTurn(rs: seq<Rabbit>, count: nat)
    requires WellFormed(rs) && rs != []
    ensures MostCommon(rs) != [] && InTurn(Dealt(MostCommon(rs), count), rs)
  {
    var m := MostCommon(rs);
    MostCommonSorted(rs);
    MostCommonNames(rs);
    forall i, j | 0 <= i < |rs| && 0 <= j < |rs| && First(rs, i, j)
      ensures var d := Dealt(m, count);
              CountFor(d, rs[j].name) <= CountFor(d, rs[i].name) <= CountFor(d, rs[j].name) + 1
    {
      var p, q := FirstIsBefore(rs, i, j);
      CountOfDealt(m, count, p);
      CountOfDealt(m, count, q);
    }
  }

  /** Each entry is for a rabbit of the job, once, and gives it something. */
  ghost predicate EntriesOf(ps: seq<Placement>, rs: seq<Rabbit>) {
    && (forall k, l :: 0 <= k < l < |ps| ==> ps[k].name != ps[l].name)
    && forall k :: 0 <= k < |ps| ==> ps[k].count > 0 && exists i :: 0 <= i < |rs| && rs[i].name == ps[k].name
  }

  lemma {:induction false} DealtEntries(rs: seq<Rabbit>, count: nat)
    requires WellFormed(rs) && rs != []
    ensures MostCommon(rs) != [] && EntriesOf(Dealt(MostCommon(rs), count), rs)
  {
    var m := MostCommon(rs);
    var d := Dealt(m, count);
    MostCommonSorted(rs);
    MostCommonNames(rs);
    forall k | 0 <= k < |d| ensures d[k].count > 0 && exists i :: 0 <= i < |rs| && rs[i].name == d[k].name {
      assert m[k] in multiset(m) && m[k] in multiset(rs);
      var i :| 0 <= i < |rs| && rs[i] == m[k];
      assert rs[i].name == d[k].name;
      SharePositive(count, |m|, k);
    }
  }

  lemma {:induction false} SharePositive(count: nat, n: nat, p: nat)
    requires p < n && p < count
    ensures Share(count, n, p) > 0
  {
    if count < n { DivModUnique(count, n, 0, count); }
  }

  // ----- a split weighted by nodes

  /** functools.reduce(math.gcd, ...) over a non-empty collection. */
  function GcdOfNodes(rs: seq<Rabbit>): nat
    requires rs != []
  {
    if |rs| == 1 then rs[0].nodes else Gcd(GcdOfNodes(rs[..|rs| - 1]), rs[|rs| - 1].nodes)
  }

  lemma {:induction false} GcdOfNodesDivides(rs: seq<Rabbit>, i: nat)
    requires WellFormed(rs) && i < |rs|
    ensures GcdOfNodes(rs) > 0 && Divides(GcdOfNodes(rs), rs[i].nodes)
  {
    var g := GcdOfNodes(rs);
    if |rs| == 1 {
      assert 1 * g == rs[i].nodes;
    } else {
      var front := rs[..|rs| - 1];
      GcdIsGreatest(GcdOfNodes(front), rs[|rs| - 1].nodes, 0);
      GcdOfNodesDivides(front, if i < |front| then i else 0);
      if i < |front| { DividesTransitive(g, GcdOfNodes(front), rs[i].nodes); }
    }
  }

  lemma {:induction false} GcdOfNodesGreatest(rs: seq<Rabbit>, d: nat)
    requires rs != [] && forall i :: 0 <= i < |rs| ==> Divides(d, rs[i].nodes)
    ensures Divides(d, GcdOfNodes(rs))
  {
    if |rs| > 1 {
      GcdOfNodesGreatest(rs[..|rs| - 1], d);
      GcdIsGreatest(GcdOfNodes(rs[..|rs| - 1]), rs[|rs| - 1].nodes, d);
    }
  }

  /** The split in proportion to nodes, in units of g nodes. */
  function Weighted(rs: seq<Rabbit>, g: nat): seq<Placement>
    requires g > 0
  {
    seq(|rs|, i requires 0 <= i < |rs| => Placement(rs[i].name, rs[i].nodes / g))
  }

  ghost predicate IsUnit(rs: seq<Rabbit>, g: nat) {
    g > 0 && forall i :: 0 <= i < |rs| ==> Divides(g, rs[i].nodes)
  }

  lemma {:induction false} GcdIsUnit(rs: seq<Rabbit>)
    requires WellFormed(rs) && rs != []
    ensures IsUnit(rs, GcdOfNodes(rs))
  {
    GcdOfNodesDivides(rs, 0);
    forall i | 0 <= i < |rs| ensures Divides(GcdOfNodes(rs), rs[i].nodes) { GcdOfNodesDivides(rs, i); }
  }

  lemma {:induction false} WeightOf(rs: seq<Rabbit>, g: nat, i: nat)
    requires IsUnit(rs, g) && i < |rs|
    ensures Weighted(rs, g)[i].count * g == rs[i].nodes
  {
    QuotientOf(g, rs[i].nodes);
  }

  lemma {:induction false} CountInWeighted(rs: seq<Rabbit>, g: nat, i: nat, len: nat)
    requires WellFormed(rs) && g > 0 && i < len <= |rs|
    ensures CountFor(Weighted(rs, g)[..len], rs[i].name) == rs[i].nodes / g
  {
    var w := Weighted(rs, g);
    assert w[..len][..len - 1] == w[..len - 1];
    if i < len - 1 {
      assert rs[len - 1].name != rs[i].name;
      CountInWeighted(rs, g, i, len - 1);
    }
  }

  lemma {:induction false} WeightedPrefix(rs: seq<Rabbit>, g: nat, len: nat)
    requires IsUnit(rs, g) && len <= |rs|
    ensures SumCounts(Weighted(rs, g)[..len]) * g == SumNodes(rs[..len])
  {
    var w := Weighted(rs, g);
    if len > 0 {
      WeightedPrefix(rs, g, len - 1);
      WeightOf(rs, g, len - 1);
      assert w[..len][..len - 1] == w[..len - 1] && rs[..len][..len - 1] == rs[..len - 1];
      Distribute(SumCounts(w[..len - 1]), w[len - 1].count, g);
    }
  }

  lemma {:induction false} WeightedTotal(rs: seq<Rabbit>, g: nat)
    requires IsUnit(rs, g)
    ensures SumCounts(Weighted(rs, g)) * g == SumNodes(rs)
  {
    WeightedPrefix(rs, g, |rs|);
    assert Weighted(rs, g)[..|rs|] == Weighted(rs, g) && rs[..|rs|] == rs;
  }

  /** In units of the greatest common divisor the counts are in lowest terms. */
  lemma {:induction false} WeightsCoprime(rs: seq<Rabbit>, d: nat)
    requires WellFormed(rs) && rs != []
    requires GcdOfNodes(rs) > 0 && forall i :: 0 <= i < |rs| ==> Divides(d, Weighted(rs, GcdOfNodes(rs))[i].count)
    ensures d == 1
  {
    var g := GcdOfNodes(rs);
    GcdIsUnit(rs);
    forall i | 0 <= i < |rs| ensures Divides(d * g, rs[i].nodes) {
      WeightOf(rs, g, i);
      DividesScaled(d, Weighted(rs, g)[i].count, g);
    }
    GcdOfNodesGreatest(rs, d * g);
    OnlyUnitScales(d, g);
  }

  // ----- build_allocation_sets

  /** Must a fixed number of allocations be made, and how many? */
  function FixedCount(a: Allocation): Option<nat> {
    match a.strategy
    case PerCompute => None
    case SingleServer => Some(1)
    case AcrossServers => a.count
  }

  /** The size of one allocation before the minimum is enforced. */
  function BaseSize(a: Allocation, rs: seq<Rabbit>, computeNodes: nat): Result<nat, Error> {
    if a.strategy == PerCompute then Ok(a.minimumCapacity)
    else
      match FixedCount(a)
      case Some(count) =>
        if count == 0 then Err(ZeroDivision)
        else if rs == [] then Err(Endless)
        else Ok(CeilDiv(a.minimumCapacity, count))
      case None =>
        if rs == [] then Err(EmptyReduce)
        else if computeNodes == 0 then Err(ZeroDivision)
        else Ok(CeilDiv(GcdOfNodes(rs) * a.minimumCapacity, computeNodes))
  }

  /** How many nodes one allocation stands for when none is fixed. */
  function Unit(a: Allocation, rs: seq<Rabbit>): nat
    requires rs != []
  {
    if a.strategy == PerCompute then 1 else GcdOfNodes(rs)
  }

  function Storage(a: Allocation, rs: seq<Rabbit>): seq<Placement>
    requires rs != [] && GcdOfNodes(rs) > 0
  {
    if FixedCount(a).Some? then Dealt(MostCommon(rs), FixedCount(a).value)
    else Weighted(rs, Unit(a, rs))
  }

  lemma {:induction false} MostCommonNonEmpty(rs: seq<Rabbit>)
    requires rs != []
    ensures MostCommon(rs) != []
  {
  }

  /** Is r the server set for allocation a? */
  ghost predicate IsServerSet(r: ServerSet, a: Allocation, rs: seq<Rabbit>, computeNodes: nat, minSize: nat)
    requires rs != [] ==> GcdOfNodes(rs) > 0
  {
    && BaseSize(a, rs, computeNodes).Ok? && r.kind == a.kind
    && r.storage == (if rs == [] then [] else Storage(a, rs))
    && r.allocationSize == Max(BaseSize(a, rs, computeNodes).value, minSize * GIB)
  }

  // What a server set should be, strategy by strategy.

  /** Every rabbit, in order, with one allocation for each of its nodes. */
  ghost predicate OnePerNode(r: ServerSet, capacity: nat, rs: seq<Rabbit>, minSize: nat) {
    && |r.storage| == |rs| && SumCounts(r.storage) == SumNodes(rs)
    && (forall i :: 0 <= i < |rs| ==> r.storage[i].name == rs[i].name && r.storage[i].count == rs[i].nodes)
    && r.allocationSize == Max(capacity, minSize * GIB)
  }

  /** So many allocations dealt out in turn, of equal parts of the capacity. */
  ghost predicate FixedNumber(r: ServerSet, count: nat, capacity: nat, rs: seq<Rabbit>, minSize: nat) {
    && SumCounts(r.storage) == count > 0 && EntriesOf(r.storage, rs) && InTurn(r.storage, rs)
    && r.allocationSize == Max(CeilDiv(capacity, count), minSize * GIB)
  }

  /** Entry i is for rabbit i and counts its nodes in units of the gcd. */
  ghost predicate InProportion(ps: seq<Placement>, rs: seq<Rabbit>, i: nat)
    requires i < |rs|
  {
    |ps| == |rs| && ps[i].name == rs[i].name && ps[i].count * GcdOfNodes(rs) == rs[i].nodes
  }

  /** Every rabbit, in order, in proportion to its nodes and in lowest terms, with
      allocations of g of the job's nodes each. */
  ghost predicate Proportional(r: ServerSet, capacity: nat, rs: seq<Rabbit>, computeNodes: nat, minSize: nat) {
    && rs != [] && computeNodes > 0
    && (forall i :: 0 <= i < |rs| ==> InProportion(r.storage, rs, i))
    && r.allocationSize == Max(CeilDiv(GcdOfNodes(rs) * capacity, computeNodes), minSize * GIB)
  }

  ghost predicate Serves(r: ServerSet, a: Allocation, rs: seq<Rabbit>, computeNodes: nat, minSize: nat) {
    && r.kind == a.kind
    && match a.strategy
       case PerCompute => OnePerNode(r, a.minimumCapacity, rs, minSize)
       case SingleServer => FixedNumber(r, 1, a.minimumCapacity, rs, minSize)
       case AcrossServers =>
         if a.count.Some? then FixedNumber(r, a.count.value, a.minimumCapacity, rs, minSize)
         else Proportional(r, a.minimumCapacity, rs, computeNodes, minSize)
  }

  lemma {:induction false} PerComputeServes(r: ServerSet, a: Allocation, rs: seq<Rabbit>,
                                            computeNodes: nat, minSize: nat)
    requires WellFormed(rs) && (rs != [] ==> GcdOfNodes(rs) > 0) && a.strategy == PerCompute
    requires IsServerSet(r, a, rs, computeNodes, minSize)
    ensures OnePerNode(r, a.minimumCapacity, rs, minSize)
  {
    if rs != [] {
      assert IsUnit(rs, 1) by {
        forall i | 0 <= i < |rs| ensures Divides(1, rs[i].nodes) { assert rs[i].nodes * 1 == rs[i].nodes; }
      }
      WeightedTotal(rs, 1);
    }
  }

  lemma {:induction false} FixedServes(r: ServerSet, a: Allocation, rs: seq<Rabbit>, computeNodes: nat, minSize: nat)
    requires WellFormed(rs) && (rs != [] ==> GcdOfNodes(rs) > 0) && FixedCount(a).Some?
    requires IsServerSet(r, a, rs, computeNodes, minSize)
    ensures FixedNumber(r, FixedCount(a).value, a.minimumCapacity, rs, minSize)
  {
    DealtInTurn(rs, FixedCount(a).value);
    DealtEntries(rs, FixedCount(a).value);
    DealtTotal(MostCommon(rs), FixedCount(a).value);
  }

  lemma {:induction false} SplitServes(r: ServerSet, a: Allocation, rs: seq<Rabbit>, computeNodes: nat, minSize: nat)
    requires WellFormed(rs) && (rs != [] ==> GcdOfNodes(rs) > 0) && a.strategy == AcrossServers && a.count.None?
    requires IsServerSet(r, a, rs, computeNodes, minSize)
    ensures Proportional(r, a.minimumCapacity, rs, computeNodes, minSize)
  {
    GcdIsUnit(rs);
    forall i | 0 <= i < |rs| ensures InProportion(r.storage, rs, i) { WeightOf(rs, GcdOfNodes(rs), i); }
  }

  lemma {:induction false} SetServes(r: ServerSet, a: Allocation, rs: seq<Rabbit>, computeNodes: nat, minSize: nat)
    requires WellFormed(rs) && (rs != [] ==> GcdOfNodes(rs) > 0) && IsServerSet(r, a, rs, computeNodes, minSize)
    ensures Serves(r, a, rs, computeNodes, minSize)
  {
    if a.strategy == PerCompute {
      PerComputeServes(r, a, rs, computeNodes, minSize);
    } else if FixedCount(a).Some? {
      FixedServes(r, a, rs, computeNodes, minSize);
    } else {
      SplitServes(r, a, rs, computeNodes, minSize);
    }
  }

  /** The size and the placement of one allocation set. Without rabbits the loop that
      places a fixed number of allocations is not entered here, since it does not end. */
  method BuildOne(a: Allocation, rs: seq<Rabbit>, computeNodes: nat, minSize: nat) returns (r: Result<ServerSet, Error>)
    requires WellFormed(rs)
    ensures rs != [] ==> GcdOfNodes(rs) > 0
    ensures r.Ok? ==> IsServerSet(r.value, a, rs, computeNodes, minSize)
    ensures r.Err? ==> BaseSize(a, rs, computeNodes) == Err(r.error)
    ensures r.Ok? ==> Serves(r.value, a, rs, computeNodes, minSize)
    ensures a.strategy == PerCompute ==> r.Ok?
    ensures a.strategy == SingleServer ==> if rs == [] then r == Err(Endless) else r.Ok?
    ensures a.strategy == AcrossServers && a.count.Some? ==>
              if a.count.value == 0 then r == Err(ZeroDivision) else if rs == [] then r == Err(Endless) else r.Ok?
    ensures a.strategy == AcrossServers && a.count.None? ==>
              if rs == [] then r == Err(EmptyReduce) else if computeNodes == 0 then r == Err(ZeroDivision) else r.Ok?
  {
    var storage: seq<Placement> := [];
    var size := a.minimumCapacity;
    if rs != [] {
      GcdIsUnit(rs);
      MostCommonNonEmpty(rs);
    }
    if a.strategy == PerCompute {
      storage := PlaceWeighted(rs, 1);
    } else if a.count.Some? || a.strategy == SingleServer {
      var count := if a.strategy == SingleServer then 1 else a.count.value;
      if count == 0 {
        return Err(ZeroDivision);
      }
      if rs == [] {
        return Err(Endless);
      }
      size := CeilDiv(a.minimumCapacity, count);
      storage := Deal(rs, count);
    } else {
      if rs == [] {
        return Err(EmptyReduce);
      }
      if computeNodes == 0 {
        return Err(ZeroDivision);
      }
      size := CeilDiv(GcdOfNodes(rs) * a.minimumCapacity, computeNodes);
      storage := PlaceWeighted(rs, GcdOfNodes(rs));
    }
    size := Max(size, minSize * GIB);
    SetServes(ServerSet(a.kind, size, storage), a, rs, computeNodes, minSize);
    return Ok(ServerSet(a.kind, size, storage));
  }

  /** One entry per rabbit, its nodes counted in units of g. */
  method PlaceWeighted(rs: seq<Rabbit>, g: nat) returns (storage: seq<Placement>)
    requires g > 0
    ensures storage == Weighted(rs, g)
  {
    storage := [];
    for i := 0 to |rs|
      invariant storage == Weighted(rs, g)[..i]
    {
      storage := storage + [Placement(rs[i].name, rs[i].nodes / g)];
    }
    assert Weighted(rs, g)[..|rs|] == Weighted(rs, g);
  }

  /** build_allocation_sets: one server set per allocation, in order, or the first
      exception. */
  method BuildAllocationSets(allocations: seq<Allocation>, rs: seq<Rabbit>, computeNodes: nat, minSize: nat)
    returns (r: Result<seq<ServerSet>, Error>)
    requires WellFormed(rs)
    ensures rs != [] ==> GcdOfNodes(rs) > 0
    ensures r.Ok? <==> forall i :: 0 <= i < |allocations| ==> BaseSize(allocations[i], rs, computeNodes).Ok?
    ensures r.Ok? ==>
              && |r.value| == |allocations|
              && forall i :: 0 <= i < |r.value| ==> IsServerSet(r.value[i], allocations[i], rs, computeNodes, minSize)
                                                    && Serves(r.value[i], allocations[i], rs, computeNodes, minSize)
    ensures r.Err? ==> exists i :: 0 <= i < |allocations| && BaseSize(allocations[i], rs, computeNodes) == Err(r.error)
                                   && forall k :: 0 <= k < i ==> BaseSize(allocations[k], rs, computeNodes).Ok?
  {
    if rs != [] {
      GcdIsUnit(rs);
    }
    var sets: seq<ServerSet> := [];
    for i := 0 to |allocations|
      invariant |sets| == i
      invariant forall j :: 0 <= j < i ==> IsServerSet(sets[j], allocations[j], rs, computeNodes, minSize)
                                           && Serves(sets[j], allocations[j], rs, computeNodes, minSize)
    {
      var one := BuildOne(allocations[i], rs, computeNodes, minSize);
      if one.Err? {
        assert BaseSize(allocations[i], rs, computeNodes) == Err(one.error);
        return Err(one.error);
      }
      sets := sets + [one.value];
    }
    return Ok(sets);
  }

  // ----- enough, and not much more

  lemma {:induction false} SplitReaches(m: nat, g: nat, total: nat, n: nat, size: nat)
    requires g > 0 && n > 0 && total * g == n && size == CeilDiv(g * m, n)
    ensures m <= size * total < m + total
  {
    CeilDivBounds(g * m, n);
    assert size * n == g * (size * total) by { assert size * (total * g) == g * (size * total); }
    MulCancel(g, m, size * total);
    assert g * (m + total) == g * m + total * g;
    assert (size * total) * g < (m + total) * g;
    MulCancelStrict(g, size * total, m + total);
  }

  /** With the node count of the job itself, a server set in proportion to the nodes
      provides the capacity asked for, and exceeds it by less than one byte per
      allocation unless the minimum size applies. */
  lemma {:induction false} WeightedSplitSuffices(r: ServerSet, capacity: nat, rs: seq<Rabbit>, minSize: nat)
    requires WellFormed(rs) && Proportional(r, capacity, rs, SumNodes(rs), minSize)
    ensures var total := SumCounts(r.storage);
            && total * GcdOfNodes(rs) == SumNodes(rs)
            && capacity <= r.allocationSize * total
            && (r.allocationSize > minSize * GIB ==> r.allocationSize * total < capacity + total)
  {
    var g, n := GcdOfNodes(rs), SumNodes(rs);
    GcdIsUnit(rs);
    ProportionTotal(r.storage, rs, g);
    var total, size := SumCounts(r.storage), CeilDiv(g * capacity, n);
    SplitReaches(capacity, g, total, n, size);
    MulLe(size, r.allocationSize, total);
  }

  lemma {:induction false} ProportionTotal(ps: seq<Placement>, rs: seq<Rabbit>, g: nat)
    requires rs != [] && g == GcdOfNodes(rs) && IsUnit(rs, g)
    requires forall i :: 0 <= i < |rs| ==> InProportion(ps, rs, i)
    ensures SumCounts(ps) * g == SumNodes(rs)
  {
    var w := Weighted(rs, g);
    assert InProportion(ps, rs, 0);
    forall i | 0 <= i < |rs| ensures ps[i] == w[i] {
      assert InProportion(ps, rs, i);
      WeightOf(rs, g, i);
      SameMultiple(g, ps[i].count, w[i].count);
    }
    assert ps == w;
    WeightedTotal(rs, g);
  }

  lemma {:induction false} SameMultiple(g: nat, x: nat, y: nat)
    requires g > 0 && x * g == y * g
    ensures x == y
  {
    MulCancel(g, x, y);
    MulCancel(g, y, x);
  }

  lemma {:induction false} SumPositive(rs: seq<Rabbit>)
    requires WellFormed(rs) && rs != []
    ensures SumNodes(rs) > 0
  {}
}
