/** flux-slingshot: the CXI services that a job's prolog creates on a device and
    its epilog destroys. */
module CxiServices {
  import opened Wrappers
  import VniPool

  type Vni = VniPool.Vni
  type JobId = VniPool.JobId

  datatype Member = Uid(uid: nat) | Other

  /** The parts of cxi_svc_desc that identify a service. */
  datatype Service = Service(id: nat, isSystem: bool, restrictedMembers: bool, member: Member,
                             restrictedVnis: bool, vnis: seq<Vni>)

  datatype Reservation = Reservation(uid: nat, vnis: seq<Vni>)

  /** What cxil_destroy_svc answers for a service. */
  datatype Reply = Destroyed | Busy | OtherError

  // ----- reading a reservation

  /** parse_reservation_vnis on an array of JSON values; a non-integer is missing. */
  predicate Acceptable(entries: seq<Result<int, VniPool.Error>>) {
    |entries| <= VniPool.MAX_VNIS
    && forall i :: 0 <= i < |entries| ==>
         entries[i].Ok? && 0 <= entries[i].value <= 65535 && entries[i].value != 1 && entries[i].value != 10
  }

  method ParseReservation(entries: seq<Result<int, VniPool.Error>>) returns (r: Result<seq<Vni>, VniPool.Error>)
    ensures r.Ok? <==> Acceptable(entries)
    ensures r.Ok? ==> |r.value| == |entries| && forall i :: 0 <= i < |entries| ==> r.value[i] == entries[i].value
  {
    if |entries| > VniPool.MAX_VNIS {
      return Err(VniPool.EINVAL);
    }
    var vnis: seq<Vni> := [];
    for i := 0 to |entries|
      invariant |vnis| == i && forall j :: 0 <= j < i ==>
                  entries[j].Ok? && entries[j].value == vnis[j] <= 65535 && vnis[j] != 1 && vnis[j] != 10
    {
      var e := entries[i];
      if e.Err? || e.value < 0 || e.value == 1 || e.value == 10 || e.value > 65535 {
        return Err(VniPool.EINVAL);
      }
      vnis := vnis + [e.value];
    }
    return Ok(vnis);
  }

  // ----- matching and destroying

  /** The descriptor that allocate_cxi_service_device fills in. */
  function ServiceFor(res: Reservation, id: nat): Service {
    Service(id, false, true, Uid(res.uid), true, res.vnis)
  }

  predicate Matches(s: Service, res: Reservation) {
    !s.isSystem && s.restrictedMembers && s.member == Uid(res.uid) && s.restrictedVnis && s.vnis == res.vnis
  }

  method MatchReservation(s: Service, res: Reservation) returns (b: bool)
    ensures b <==> Matches(s, res)
    ensures b <==> !s.isSystem && s.restrictedMembers && s.member == Uid(res.uid) && s.restrictedVnis
                   && |s.vnis| == |res.vnis| && forall i :: 0 <= i < |s.vnis| ==> s.vnis[i] == res.vnis[i]
  {
    if s.isSystem {
      return false;
    }
    if !s.restrictedMembers || s.member.Other? || s.member.uid != res.uid {
      return false;
    }
    if !s.restrictedVnis || |s.vnis| != |res.vnis| {
      return false;
    }
    for i := 0 to |s.vnis|
      invariant s.vnis[..i] == res.vnis[..i]
    {
      if s.vnis[i] != res.vnis[i] {
        return false;
      }
    }
    assert s.vnis == s.vnis[..|s.vnis|] == res.vnis[..|res.vnis|] == res.vnis;
    return true;
  }

  /** What is left on a device, and how many matches were busy, after destroying
      the first match or all of them, given the outcome for the first i services. */
  function Sweep(list: seq<Service>, i: nat, all: bool, matchfun: Service -> bool, reply: nat -> Reply,
                 kept: seq<Service>, busy: nat): (seq<Service>, nat)
    requires i <= |list|
    decreases |list| - i
  {
    if i == |list| then (kept, busy)
    else if !matchfun(list[i]) then Sweep(list, i + 1, all, matchfun, reply, kept + [list[i]], busy)
    else
      var answer := reply(list[i].id);
      var kept' := if answer == Destroyed then kept else kept + [list[i]];
      var busy' := if answer == Busy then busy + 1 else busy;
      if all then Sweep(list, i + 1, all, matchfun, reply, kept', busy') else (kept' + list[i + 1..], busy')
  }

  ghost predicate DistinctIds(list: seq<Service>) { forall i, j :: 0 <= i < j < |list| ==> list[i].id != list[j].id }

  function WithoutId(list: seq<Service>, id: nat): seq<Service> {
    if list == [] then []
    else (if list[0].id == id then [] else [list[0]]) + WithoutId(list[1..], id)
  }

  lemma {:induction false} WithoutAbsent(list: seq<Service>, id: nat)
    requires forall s :: s in list ==> s.id != id
    ensures WithoutId(list, id) == list
  {
    if list != [] {
      assert list[0] in list;
      WithoutAbsent(list[1..], id);
    }
  }

  lemma {:induction false} WithoutOne(a: seq<Service>, s: Service, b: seq<Service>)
    requires forall t :: t in a + b ==> t.id != s.id
    ensures WithoutId(a + [s] + b, s.id) == a + b
  {
    if a == [] {
      assert a + [s] + b == [s] + b;
      WithoutAbsent(b, s.id);
      assert ([s] + b)[1..] == b;
    } else {
      assert a[0] in a + b;
      assert (a + [s] + b)[1..] == a[1..] + [s] + b;
      WithoutOne(a[1..], s, b);
      assert a + b == [a[0]] + (a[1..] + b);
    }
  }

  lemma {:induction false} RemoveNext(kept: seq<Service>, list: seq<Service>, i: nat)
    requires i < |list| && DistinctIds(kept + list[i..])
    ensures WithoutId(kept + list[i..], list[i].id) == kept + list[i + 1..] && DistinctIds(kept + list[i + 1..])
  {
    var all, rest := kept + list[i..], kept + list[i + 1..];
    assert all == kept + [list[i]] + list[i + 1..];
    forall j | 0 <= j < |rest| ensures rest[j] == all[if j < |kept| then j else j + 1] {}
    assert all[|kept|] == list[i];
    WithoutOne(kept, list[i], list[i + 1..]);
  }

  lemma {:induction false} SweepStep(list: seq<Service>, i: nat, all: bool, matchfun: Service -> bool,
                                     reply: nat -> Reply, kept: seq<Service>, busy: nat)
    requires i < |list|
    ensures var hit, answer := matchfun(list[i]), reply(list[i].id);
            var kept' := if hit && answer == Destroyed then kept else kept + [list[i]];
            var busy' := if hit && answer == Busy then busy + 1 else busy;
            Sweep(list, i, all, matchfun, reply, kept, busy) ==
              if hit && !all then (kept' + list[i + 1..], busy')
              else Sweep(list, i + 1, all, matchfun, reply, kept', busy')
  {}

  class Device {
    var services: seq<Service>

    /** cxil_destroy_svc. */
    method DestroyService(id: nat, reply: nat -> Reply) returns (r: Reply)
      modifies this
      ensures r == reply(id)
      ensures services == if r == Destroyed then WithoutId(old(services), id) else old(services)
    {
      r := reply(id);
      if r == Destroyed {
        services := WithoutId(services, id);
      }
    }

    /** One iteration: look at service i and destroy it if it matches. */
    method Visit(ghost kept: seq<Service>, list: seq<Service>, i: nat, matchfun: Service -> bool, reply: nat -> Reply)
      returns (hit: bool, busy: bool, ghost kept': seq<Service>)
      requires i < |list| && services == kept + list[i..] && DistinctIds(services)
      modifies this
      ensures hit == matchfun(list[i]) && busy == (hit && reply(list[i].id) == Busy)
      ensures kept' == if hit && reply(list[i].id) == Destroyed then kept else kept + [list[i]]
      ensures services == kept' + list[i + 1..] && DistinctIds(services)
    {
      var desc := list[i];
      hit, busy, kept' := matchfun(desc), false, kept + [desc];
      assert kept' + list[i + 1..] == kept + list[i..];
      if hit {
        RemoveNext(kept, list, i);
        var e := DestroyService(desc.id, reply);
        busy := e == Busy;
        kept' := if e == Destroyed then kept else kept';
      }
    }

    /** The first i services have been dealt with: what was kept of them, followed by
        the rest, is on the device, and the rest of the sweep gives `result`. */
    ghost predicate OnTrack(list: seq<Service>, i: nat, all: bool, matchfun: Service -> bool, reply: nat -> Reply,
                            stopped: bool, kept: seq<Service>, busy: nat, result: (seq<Service>, nat))
      reads this
    {
      && i <= |list| && services == kept + list[i..] && DistinctIds(services)
      && result == if stopped then (kept + list[i..], busy) else Sweep(list, i, all, matchfun, reply, kept, busy)
    }

    method Iterate(list: seq<Service>, i: nat, all: bool, matchfun: Service -> bool, reply: nat -> Reply, busy: nat,
                   ghost kept: seq<Service>, ghost result: (seq<Service>, nat))
      returns (hit: bool, busy': nat, ghost kept': seq<Service>)
      requires OnTrack(list, i, all, matchfun, reply, false, kept, busy, result) && i < |list|
      modifies this
      ensures OnTrack(list, i + 1, all, matchfun, reply, hit && !all, kept', busy', result)
    {
      SweepStep(list, i, all, matchfun, reply, kept, busy);
      var isBusy;
      hit, isBusy, kept' := Visit(kept, list, i, matchfun, reply);
      busy' := if isBusy then busy + 1 else busy;
    }

    /** destroy_cxi_service_device, outside a dry run. */
    method Destroy(all: bool, matchfun: Service -> bool, reply: nat -> Reply) returns (busycount: nat)
      requires DistinctIds(services)
      modifies this
      ensures (services, busycount) == Sweep(old(services), 0, all, matchfun, reply, [], 0)
    {
      var list := services;
      var matchcount, i, hit := 0, 0, false;
      busycount := 0;
      ghost var kept: seq<Service> := [];
      ghost var result := Sweep(list, 0, all, matchfun, reply, [], 0);
      while i < |list| && (all || matchcount == 0)
        invariant OnTrack(list, i, all, matchfun, reply, !all && matchcount > 0, kept, busycount, result)
        decreases |list| - i
      {
        hit, busycount, kept := Iterate(list, i, all, matchfun, reply, busycount, kept, result);
        matchcount := if hit then matchcount + 1 else matchcount;
        i := i + 1;
      }
      assert i == |list| ==> kept + list[i..] == kept;
    }
  }

  function Those(list: seq<Service>, wanted: Service -> bool): seq<Service> {
    if list == [] then []
    else (if wanted(list[0]) then [list[0]] else []) + Those(list[1..], wanted)
  }

  /** Destroying all matches leaves every other service, and every match that could not
      be destroyed, in the order they had, and counts those that were busy. */
  lemma {:induction false} SweepAll(list: seq<Service>, i: nat, matchfun: Service -> bool, reply: nat -> Reply,
                                    kept: seq<Service>, busy: nat)
    requires i <= |list|
    ensures var (left, busycount) := Sweep(list, i, true, matchfun, reply, kept, busy);
            && left == kept + Those(list[i..], s => !matchfun(s) || reply(s.id) != Destroyed)
            && busycount == busy + |Those(list[i..], s => matchfun(s) && reply(s.id) == Busy)|
    decreases |list| - i
  {
    if i < |list| {
      var x := list[i];
      var keep := !matchfun(x) || reply(x.id) != Destroyed;
      var stuck := matchfun(x) && reply(x.id) == Busy;
      assert list[i..][1..] == list[i + 1..];
      SweepAll(list, i + 1, matchfun, reply, if keep then kept + [x] else kept, if stuck then busy + 1 else busy);
    }
  }

  /** Destroying the first match removes just that service, or counts it busy. */
  lemma {:induction false} SweepFirst(list: seq<Service>, i: nat, matchfun: Service -> bool,
                                      reply: nat -> Reply, k: nat)
    requires i <= k < |list| && matchfun(list[k]) && forall j :: 0 <= j < k ==> !matchfun(list[j])
    ensures Sweep(list, i, false, matchfun, reply, list[..i], 0) ==
              (if reply(list[k].id) == Destroyed then list[..k] + list[k + 1..] else list,
               if reply(list[k].id) == Busy then 1 else 0)
    decreases k - i
  {
    assert list[..i] + [list[i]] == list[..i + 1];
    if i < k {
      SweepFirst(list, i + 1, matchfun, reply, k);
    } else {
      assert list[..i + 1] + list[i + 1..] == list;
    }
  }

  lemma {:induction false} SweepNone(list: seq<Service>, i: nat, all: bool, matchfun: Service -> bool,
                                     reply: nat -> Reply)
    requires i <= |list| && forall j :: 0 <= j < |list| ==> !matchfun(list[j])
    ensures Sweep(list, i, all, matchfun, reply, list[..i], 0) == (list, 0)
    decreases |list| - i
  {
    if i < |list| {
      assert list[..i] + [list[i]] == list[..i + 1];
      SweepNone(list, i + 1, all, matchfun, reply);
    } else {
      assert list[..i] == list;
    }
  }

  // ----- a device over time

  /** The services on a device, and which job's prolog last created one with a given id.
      `live` holds the jobs that should have a service: their prolog has created it, and
      no epilog of their own has destroyed one since. */
  datatype Node = Node(services: seq<Service>, live: map<JobId, Reservation>, owner: map<nat, JobId>)

  predicate Serves(s: Service, res: Reservation) { s == ServiceFor(res, s.id) }

  ghost predicate Overlap(a: Reservation, b: Reservation) { exists v :: v in a.vnis && v in b.vnis }

  ghost predicate Exclusive(live: map<JobId, Reservation>) {
    && (forall j :: j in live ==> live[j].vnis != [])
    && forall i, j :: i in live && j in live && i != j ==> !Overlap(live[i], live[j])
  }

  /** s is the one service on the device that was created for job j. */
  ghost predicate OwnService(n: Node, j: JobId, s: Service) {
    && j in n.live && s in n.services && Serves(s, n.live[j])
    && forall t :: t in n.services && Serves(t, n.live[j]) ==> t == s
  }

  ghost predicate Explained(n: Node, s: Service) { s.isSystem || exists j :: j in n.live && Serves(s, n.live[j]) }

  /** Live jobs share no VNI, each has one service, and every other service is the
      system's. */
  ghost predicate OneEach(n: Node) {
    && DistinctIds(n.services) && Exclusive(n.live)
    && (forall s :: s in n.services ==> Explained(n, s))
    && forall j :: j in n.live ==> exists s :: OwnService(n, j, s)
  }

  lemma {:induction false} ServesOnlyOne(live: map<JobId, Reservation>, s: Service, i: JobId, j: JobId)
    requires Exclusive(live) && i in live && j in live && Serves(s, live[i]) && s.vnis == live[j].vnis
    ensures i == j
  {
    assert live[i].vnis[0] in live[i].vnis;
    assert i != j ==> !Overlap(live[i], live[j]);
  }

  /** Only a job's own service matches its reservation. */
  lemma {:induction false} MatchIsOwn(n: Node, j: JobId, s: Service)
    requires OneEach(n) && j in n.live && s in n.services
    ensures Matches(s, n.live[j]) <==> OwnService(n, j, s)
  {
  }

  function Remove(list: seq<Service>, k: nat): seq<Service>
    requires k < |list|
  {
    list[..k] + list[k + 1..]
  }

  /** What an epilog for this reservation leaves, and how many services were busy. It
      does not ask whose service it finds. */
  function EpilogResult(services: seq<Service>, res: Reservation, reply: nat -> Reply): (seq<Service>, nat) {
    if res.vnis == [] then (services, 0) else Sweep(services, 0, false, s => Matches(s, res), reply, [], 0)
  }

  lemma {:induction false} EpilogOfOne(services: seq<Service>, res: Reservation, reply: nat -> Reply, k: nat)
    requires k < |services| && res.vnis != []
    requires forall l :: 0 <= l < |services| ==> (Matches(services[l], res) <==> l == k)
    ensures var answer := reply(services[k].id);
            EpilogResult(services, res, reply) ==
              (if answer == Destroyed then Remove(services, k) else services, if answer == Busy then 1 else 0)
  {
    assert services[..0] == [];
    SweepFirst(services, 0, s => Matches(s, res), reply, k);
  }

  lemma {:induction false} EpilogOfNone(services: seq<Service>, res: Reservation, reply: nat -> Reply)
    requires forall s :: s in services ==> !Matches(s, res)
    ensures EpilogResult(services, res, reply) == (services, 0)
  {
    assert services[..0] == [];
    SweepNone(services, 0, false, s => Matches(s, res), reply);
  }

  lemma {:induction false} SweepKeepsOnly(list: seq<Service>, i: nat, all: bool, matchfun: Service -> bool,
                                          reply: nat -> Reply, kept: seq<Service>, busy: nat, s: Service)
    requires i <= |list| && s in Sweep(list, i, all, matchfun, reply, kept, busy).0
    ensures s in kept || s in list
    decreases |list| - i
  {
    if i < |list| {
      var hit, answer := matchfun(list[i]), reply(list[i].id);
      var kept' := if hit && answer == Destroyed then kept else kept + [list[i]];
      var busy' := if hit && answer == Busy then busy + 1 else busy;
      if !hit || all {
        SweepKeepsOnly(list, i + 1, all, matchfun, reply, kept', busy', s);
      }
    }
  }

  lemma {:induction false} EpilogOnlyRemoves(services: seq<Service>, res: Reservation, reply: nat -> Reply, s: Service)
    requires s in EpilogResult(services, res, reply).0
    ensures s in services
  {
    if res.vnis != [] {
      SweepKeepsOnly(services, 0, false, x => Matches(x, res), reply, [], 0, s);
    }
  }

  /** An epilog destroys its own job's service unless it cannot be destroyed, and
      touches no other, whatever the order of the services. */
  lemma {:induction false} EpilogIsPrecise(n: Node, j: JobId, reply: nat -> Reply, k: nat)
    requires OneEach(n) && k < |n.services| && OwnService(n, j, n.services[k])
    ensures var answer := reply(n.services[k].id);
            EpilogResult(n.services, n.live[j], reply) ==
              (if answer == Destroyed then Remove(n.services, k) else n.services,
               if answer == Busy then 1 else 0)
  {
    forall l | 0 <= l < |n.services| ensures Matches(n.services[l], n.live[j]) <==> l == k {
      MatchIsOwn(n, j, n.services[l]);
    }
    EpilogOfOne(n.services, n.live[j], reply, k);
  }

  datatype Event =
    | Prolog(job: JobId, res: Reservation, id: nat, pos: nat)
    | Epilog(job: JobId, res: Reservation, reply: nat -> Reply)

  /** The service that was created for job j still stands. */
  ghost predicate Standing(n: Node, j: JobId) {
    exists s :: s in n.services && s.id in n.owner && n.owner[s.id] == j
  }

  ghost predicate Carries(s: Service, res: Reservation) { !s.isSystem && exists v :: v in s.vnis && v in res.vnis }

  /** A service with these VNIs would be the only one on the device to carry them, the
      system's own apart. */
  ghost predicate NewTo(n: Node, res: Reservation) { forall s :: s in n.services ==> !Carries(s, res) }

  /** The same of the services there should be. */
  ghost predicate NewToLive(n: Node, res: Reservation) {
    forall i :: i in n.live ==> !Overlap(n.live[i], res) && !Overlap(res, n.live[i])
  }

  lemma {:induction false} NewIffNewToLive(n: Node, res: Reservation)
    requires OneEach(n)
    ensures NewTo(n, res) <==> NewToLive(n, res)
  {
    if NewToLive(n, res) {
      forall s | s in n.services ensures !Carries(s, res) {
        assert Explained(n, s);
      }
    } else {
      var i :| i in n.live && (Overlap(n.live[i], res) || Overlap(res, n.live[i]));
      var s :| OwnService(n, i, s);
      assert Carries(s, res);
    }
  }

  /** The service of a live job has just this reservation and would be destroyed. */
  ghost predicate Hits(n: Node, res: Reservation, reply: nat -> Reply) {
    exists i, s :: i in n.live && n.live[i] == res && s in n.services && Serves(s, res) && reply(s.id) == Destroyed
  }

  /** The driver gives the new service an unused id and some place in the list. An
      epilog may come at any time, and again. */
  ghost predicate Possible(n: Node, e: Event) {
    match e
    case Prolog(j, res, id, pos) =>
      j !in n.live && pos <= |n.services| && forall s :: s in n.services ==> s.id != id
    case Epilog(j, res, _) => j in n.live ==> res == n.live[j]
  }

  /** A prolog brings new VNIs, and the epilog of a job that has no service (any more)
      hits nobody else's. */
  ghost predicate Harmless(n: Node, e: Event) {
    match e
    case Prolog(_, res, _, _) => NewTo(n, res)
    case Epilog(j, res, reply) => j in n.live || !Hits(n, res, reply)
  }

  /** Without VNIs there is no service to create or to destroy. */
  ghost function Next(n: Node, e: Event): Node
    requires Possible(n, e)
  {
    match e
    case Prolog(j, res, id, pos) =>
      if res.vnis == [] then n
      else Node(n.services[..pos] + [ServiceFor(res, id)] + n.services[pos..], n.live[j := res], n.owner[id := j])
    case Epilog(j, res, reply) =>
      var left := EpilogResult(n.services, res, reply).0;
      n.(services := left, live := if |left| < |n.services| then n.live - {j} else n.live)
  }

  function Insert(list: seq<Service>, pos: nat, s: Service): seq<Service>
    requires pos <= |list|
  {
    list[..pos] + [s] + list[pos..]
  }

  lemma {:induction false} Inserted(list: seq<Service>, pos: nat, s: Service)
    requires pos <= |list| && DistinctIds(list) && forall t :: t in list ==> t.id != s.id
    ensures DistinctIds(Insert(list, pos, s))
    ensures forall t :: t in Insert(list, pos, s) <==> t in list || t == s
  {
  }

  lemma {:induction false} Removed(list: seq<Service>, k: nat)
    requires k < |list| && DistinctIds(list)
    ensures DistinctIds(Remove(list, k))
    ensures forall t :: t in Remove(list, k) <==> t in list && t != list[k]
  {
  }

  lemma {:induction false} NewService(n: Node, m: Node, j: JobId, res: Reservation, own: Service)
    requires OneEach(n) && res.vnis != [] && Serves(own, res)
    requires forall i :: i in n.live ==> !Overlap(n.live[i], res)
    requires j in m.live && m.live[j] == res && forall t :: t in m.services <==> t in n.services || t == own
    ensures OwnService(m, j, own)
  {
    forall t | t in n.services ensures !Serves(t, res) {
      if !t.isSystem {
        assert Explained(n, t);
        var i :| i in n.live && Serves(t, n.live[i]);
        assert n.live[i].vnis[0] in n.live[i].vnis;
      }
    }
  }

  lemma {:induction false} OldService(n: Node, m: Node, i: JobId, res: Reservation, own: Service)
    requires OneEach(n) && i in n.live && i in m.live && m.live[i] == n.live[i] && Serves(own, res)
    requires !Overlap(n.live[i], res) && forall t :: t in m.services <==> t in n.services || t == own
    ensures exists s :: OwnService(m, i, s)
  {
    assert n.live[i].vnis[0] in n.live[i].vnis;
    var s :| OwnService(n, i, s);
    assert OwnService(m, i, s);
  }

  lemma {:induction false} StillExplained(n: Node, m: Node, j: JobId, res: Reservation, own: Service)
    requires OneEach(n) && j !in n.live && m.live == n.live[j := res] && Serves(own, res)
    requires forall t :: t in m.services <==> t in n.services || t == own
    ensures forall s :: s in m.services ==> Explained(m, s)
  {
    forall s | s in m.services ensures Explained(m, s) {
      if s == own {
        assert Serves(s, m.live[j]);
      } else if !s.isSystem {
        assert Explained(n, s);
        var i :| i in n.live && Serves(s, n.live[i]);
        assert Serves(s, m.live[i]);
      }
    }
  }

  lemma {:induction false} StillExclusive(n: Node, j: JobId, res: Reservation)
    requires Exclusive(n.live) && j !in n.live && res.vnis != [] && NewToLive(n, res)
    ensures Exclusive(n.live[j := res])
  {
  }

  lemma {:induction false} PrologStep(n: Node, j: JobId, res: Reservation, id: nat, pos: nat)
    requires OneEach(n) && Possible(n, Prolog(j, res, id, pos)) && NewTo(n, res)
    ensures OneEach(Next(n, Prolog(j, res, id, pos)))
  {
    var m := Next(n, Prolog(j, res, id, pos));
    var own := ServiceFor(res, id);
    NewIffNewToLive(n, res);
    if res.vnis != [] {
      assert m.services == Insert(n.services, pos, own);
      Inserted(n.services, pos, own);
      StillExplained(n, m, j, res, own);
      StillExclusive(n, j, res);
      forall i | i in m.live ensures exists s :: OwnService(m, i, s) {
        if i == j {
          NewService(n, m, j, res, own);
        } else {
          OldService(n, m, i, res, own);
        }
      }
    }
  }

  lemma {:induction false} SharedVni(m: Node, i: JobId, j: JobId)
    requires i in m.live && j in m.live && i != j && (Overlap(m.live[i], m.live[j]) || Overlap(m.live[j], m.live[i]))
    ensures !OneEach(m)
  {
    assert !Exclusive(m.live);
  }

  lemma {:induction false} PrologStepIff(n: Node, j: JobId, res: Reservation, id: nat, pos: nat)
    requires OneEach(n) && Possible(n, Prolog(j, res, id, pos))
    ensures OneEach(Next(n, Prolog(j, res, id, pos))) <==> NewTo(n, res)
  {
    if NewTo(n, res) {
      PrologStep(n, j, res, id, pos);
    } else {
      var m := Next(n, Prolog(j, res, id, pos));
      NewIffNewToLive(n, res);
      var i :| i in n.live && (Overlap(n.live[i], res) || Overlap(res, n.live[i]));
      assert m.live == n.live[j := res];
      SharedVni(m, i, j);
    }
  }

  lemma {:induction false} LoseService(n: Node, m: Node, j: JobId, own: Service)
    requires OneEach(n) && OwnService(n, j, own) && m.live == n.live - {j}
    requires DistinctIds(m.services) && forall t :: t in m.services <==> t in n.services && t != own
    ensures OneEach(m)
  {
    assert Exclusive(m.live);
    forall s | s in m.services ensures Explained(m, s) {
      assert Explained(n, s);
      if !s.isSystem {
        var i :| i in n.live && Serves(s, n.live[i]);
        assert i != j;
        assert i in m.live && Serves(s, m.live[i]);
      }
    }
    forall i | i in m.live ensures exists s :: OwnService(m, i, s) {
      var s :| OwnService(n, i, s);
      if s == own { ServesOnlyOne(n.live, s, i, j); }
      assert OwnService(m, i, s);
    }
  }

  /** The epilog of a live job. */
  lemma {:induction false} EpilogStep(n: Node, j: JobId, reply: nat -> Reply)
    requires OneEach(n) && j in n.live
    ensures OneEach(Next(n, Epilog(j, n.live[j], reply)))
  {
    var own :| OwnService(n, j, own);
    var k: nat :| k < |n.services| && n.services[k] == own;
    EpilogIsPrecise(n, j, reply, k);
    if reply(own.id) == Destroyed {
      Removed(n.services, k);
      LoseService(n, n.(services := Remove(n.services, k), live := n.live - {j}), j, own);
    }
  }

  /** Under OneEach, a service that matches a reservation is some live job's own. */
  lemma {:induction false} MatchHasOwner(n: Node, res: Reservation, s: Service) returns (i: JobId)
    requires OneEach(n) && s in n.services && Matches(s, res)
    ensures i in n.live && n.live[i] == res && OwnService(n, i, s)
  {
    assert Explained(n, s);
    i :| i in n.live && Serves(s, n.live[i]);
    MatchIsOwn(n, i, s);
  }

  lemma {:induction false} LostService(n: Node, m: Node, i: JobId, own: Service)
    requires OwnService(n, i, own) && m.live == n.live && forall t :: t in m.services <==> t in n.services && t != own
    ensures !OneEach(m)
  {
    assert forall s :: !OwnService(m, i, s);
  }

  /** The epilog of a job that has no service: it leaves every job its own exactly when
      it hits none. */
  lemma {:induction false} SpentEpilogIff(n: Node, j: JobId, res: Reservation, reply: nat -> Reply)
    requires OneEach(n) && j !in n.live
    ensures OneEach(Next(n, Epilog(j, res, reply))) <==> !Hits(n, res, reply)
  {
    assert n.live - {j} == n.live;
    if k: nat :| k < |n.services| && Matches(n.services[k], res) {
      var i := MatchHasOwner(n, res, n.services[k]);
      EpilogIsPrecise(n, i, reply, k);
      assert Serves(n.services[k], res);
      if reply(n.services[k].id) == Destroyed {
        Removed(n.services, k);
        LostService(n, n.(services := Remove(n.services, k)), i, n.services[k]);
      }
    } else {
      EpilogOfNone(n.services, res, reply);
    }
  }

  /** A step leaves each live job its own service exactly when it is harmless. */
  lemma {:induction false} OneEachStepIff(n: Node, e: Event)
    requires OneEach(n) && Possible(n, e)
    ensures OneEach(Next(n, e)) <==> Harmless(n, e)
  {
    match e
    case Prolog(j, res, id, pos) => PrologStepIff(n, j, res, id, pos);
    case Epilog(j, res, reply) => if j in n.live { EpilogStep(n, j, reply); } else { SpentEpilogIff(n, j, res, reply); }
  }

  ghost predicate IsRun(start: Node, es: seq<Event>, ns: seq<Node>) {
    && |ns| == |es| + 1 && ns[0] == start
    && forall i :: 0 <= i < |es| ==> Possible(ns[i], es[i]) && ns[i + 1] == Next(ns[i], es[i])
  }

  ghost predicate OneEachUpTo(ns: seq<Node>, k: nat)
    requires k < |ns|
  {
    forall i :: 0 <= i <= k ==> OneEach(ns[i])
  }

  ghost predicate HarmlessUpTo(es: seq<Event>, ns: seq<Node>, k: nat)
    requires k <= |es| && k <= |ns|
  {
    forall i :: 0 <= i < k ==> Harmless(ns[i], es[i])
  }

  /** Over every interleaving of prologs and epilogs, each live job keeps exactly its
      own service up to any point if and only if every step before it was harmless. */
  lemma {:induction false} OneEachAlways(start: Node, es: seq<Event>, ns: seq<Node>, k: nat)
    requires OneEach(start) && IsRun(start, es, ns) && k < |ns|
    ensures OneEachUpTo(ns, k) <==> HarmlessUpTo(es, ns, k)
  {
    if k > 0 {
      OneEachAlways(start, es, ns, k - 1);
      assert OneEachUpTo(ns, k) <==> OneEachUpTo(ns, k - 1) && OneEach(ns[k]);
      assert HarmlessUpTo(es, ns, k) <==> HarmlessUpTo(es, ns, k - 1) && Harmless(ns[k - 1], es[k - 1]);
      if OneEach(ns[k - 1]) {
        OneEachStepIff(ns[k - 1], es[k - 1]);
      }
    }
  }

  /** With equal reservations, the first service in the device's order is the one that
      goes, even if it belongs to the other job. */
  lemma {:induction false} SharedReservationHitsFirst(res: Reservation, reply: nat -> Reply)
    requires reply(2) == Destroyed
    ensures var mine, other := ServiceFor(res, 1), ServiceFor(res, 2);
            Sweep([other, mine], 0, false, s => Matches(s, res), reply, [], 0) == ([mine], 0)
  {
    var list := [ServiceFor(res, 2), ServiceFor(res, 1)];
    assert list[..0] == [] && list[..0] + list[1..] == [ServiceFor(res, 1)];
    SweepFirst(list, 0, s => Matches(s, res), reply, 0);
  }
}
