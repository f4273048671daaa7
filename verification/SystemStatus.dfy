/** SystemStatusManager: which compute nodes the k8s SystemStatus resource marks as
    Disabled, driven by broker membership and by drains. */
module SystemStatus {

  type Host = string

  datatype Status = Enabled | Disabled

  /** The manager's two sets and the resource's node table. */
  datatype State = State(lastOnline: set<nat>, drained: set<Host>, nodes: map<Host, Status>)

  datatype Event = Drain(hosts: set<Host>) | Undrain(hosts: set<Host>) | Online(ranks: set<nat>)

  ghost predicate DistinctHosts(hlist: seq<Host>) { forall i, j :: 0 <= i < j < |hlist| ==> hlist[i] != hlist[j] }

  function HostsOf(hlist: seq<Host>, ranks: set<nat>): set<Host> { set i | i in ranks && i < |hlist| :: hlist[i] }

  /** The instance's idset, "0-(n-1)". */
  function Ranks(hlist: seq<Host>): (ranks: set<nat>)
    ensures forall i: nat :: i in ranks <==> i < |hlist|
  {
    if hlist == [] then {} else Ranks(hlist[1..]) + {|hlist| - 1}
  }

  /** The merge patch: Disabled wins where a node is named for both reasons. */
  function Merged(nodes: map<Host, Status>, enabled: set<Host>, disabled: set<Host>): map<Host, Status> {
    nodes + (map h | h in enabled :: Enabled) + (map h | h in disabled :: Disabled)
  }

  function Next(hlist: seq<Host>, s: State, e: Event): State {
    match e
    case Drain(hosts) =>
      var drained := s.drained + hosts;
      s.(drained := drained, nodes := Merged(s.nodes, {}, drained))
    case Undrain(hosts) =>
      var undrained := hosts * s.drained;
      if undrained == {} then s
      else s.(drained := s.drained - undrained, nodes := Merged(s.nodes, undrained, s.drained - undrained))
    case Online(ranks) =>
      State(ranks, s.drained,
            Merged(s.nodes, HostsOf(hlist, ranks - s.lastOnline), HostsOf(hlist, Ranks(hlist) - ranks) + s.drained))
  }

  predicate IsDisabled(s: State, h: Host) { h in s.nodes && s.nodes[h] == Disabled }

  ghost predicate DrainedDisabled(s: State) { forall h :: h in s.drained ==> IsDisabled(s, h) }

  /** A Disabled node of the instance is drained or was not online when last heard
      of. */
  ghost predicate DisabledExplained(hlist: seq<Host>, s: State) {
    forall i :: 0 <= i < |hlist| && IsDisabled(s, hlist[i]) ==> hlist[i] in s.drained || i !in s.lastOnline
  }

  ghost predicate Consistent(hlist: seq<Host>, s: State) { DrainedDisabled(s) && DisabledExplained(hlist, s) }

  ghost predicate ExactAt(hlist: seq<Host>, s: State, i: nat)
    requires i < |hlist|
  {
    IsDisabled(s, hlist[i]) <==> hlist[i] in s.drained || i !in s.lastOnline
  }

  /** The class's purpose read both ways: a node of the instance is Disabled exactly
      when it is offline or drained. */
  ghost predicate Exact(hlist: seq<Host>, s: State) { forall i :: 0 <= i < |hlist| ==> ExactAt(hlist, s, i) }

  lemma {:induction false} HostsOfRank(hlist: seq<Host>, ranks: set<nat>, i: nat)
    requires DistinctHosts(hlist) && i < |hlist|
    ensures hlist[i] in HostsOf(hlist, ranks) <==> i in ranks
  {}

  lemma {:induction false} ConsistentStep(hlist: seq<Host>, s: State, e: Event)
    requires DistinctHosts(hlist) && Consistent(hlist, s)
    ensures Consistent(hlist, Next(hlist, s, e))
  {
    if e.Online? {
      forall i: nat | i < |hlist|
        ensures hlist[i] in HostsOf(hlist, e.ranks - s.lastOnline) <==> i in e.ranks - s.lastOnline
        ensures hlist[i] in HostsOf(hlist, Ranks(hlist) - e.ranks) <==> i !in e.ranks
      {
        HostsOfRank(hlist, e.ranks - s.lastOnline, i);
        HostsOfRank(hlist, Ranks(hlist) - e.ranks, i);
      }
    }
  }

  /** An online update makes the table exact, whatever happened before it. */
  lemma {:induction false} OnlineMakesExact(hlist: seq<Host>, s: State, ranks: set<nat>)
    requires DistinctHosts(hlist) && Consistent(hlist, s)
    ensures Exact(hlist, Next(hlist, s, Online(ranks)))
  {
    ConsistentStep(hlist, s, Online(ranks));
    forall i: nat | i < |hlist| && i !in ranks ensures hlist[i] in HostsOf(hlist, Ranks(hlist) - ranks) {
      HostsOfRank(hlist, Ranks(hlist) - ranks, i);
    }
  }

  /** A host that is about to be undrained although its broker is offline. */
  ghost predicate OfflineUndrain(hlist: seq<Host>, s: State, e: Event) {
    e.Undrain? && exists i :: 0 <= i < |hlist| && hlist[i] in e.hosts * s.drained && i !in s.lastOnline
  }

  /** Steps keep the table exact, except undraining a node that is offline. */
  lemma {:induction false} ExactStepIff(hlist: seq<Host>, s: State, e: Event)
    requires DistinctHosts(hlist) && Consistent(hlist, s) && Exact(hlist, s)
    ensures Exact(hlist, Next(hlist, s, e)) <==> !OfflineUndrain(hlist, s, e)
  {
    match e
    case Drain(hosts) =>
      var t := Next(hlist, s, e);
      forall i | 0 <= i < |hlist| ensures ExactAt(hlist, t, i) { assert ExactAt(hlist, s, i); }
    case Online(ranks) => OnlineMakesExact(hlist, s, ranks);
    case Undrain(hosts) =>
      var t := Next(hlist, s, e);
      if OfflineUndrain(hlist, s, e) {
        var i :| 0 <= i < |hlist| && hlist[i] in hosts * s.drained && i !in s.lastOnline;
        assert !ExactAt(hlist, t, i);
      } else {
        forall i | 0 <= i < |hlist| ensures ExactAt(hlist, t, i) { assert ExactAt(hlist, s, i); }
      }
  }

  ghost function After(hlist: seq<Host>, nodes: map<Host, Status>, es: seq<Event>): State {
    if es == [] then State({}, {}, nodes) else Next(hlist, After(hlist, nodes, es[..|es| - 1]), es[|es| - 1])
  }

  /** From any initial table, every drained node is Disabled and every Disabled node
      of the instance is explained, after any sequence of accepted updates. */
  lemma {:induction false} AlwaysConsistent(hlist: seq<Host>, nodes: map<Host, Status>, es: seq<Event>)
    requires DistinctHosts(hlist)
    ensures Consistent(hlist, After(hlist, nodes, es))
  {
    if es != [] {
      AlwaysConsistent(hlist, nodes, es[..|es| - 1]);
      ConsistentStep(hlist, After(hlist, nodes, es[..|es| - 1]), es[|es| - 1]);
    }
  }

  /** There has been an online update, and no offline node was undrained after the
      most recent one. */
  ghost predicate NoOfflineUndrainSince(hlist: seq<Host>, nodes: map<Host, Status>, es: seq<Event>) {
    es != [] && (es[|es| - 1].Online? ||
                 (NoOfflineUndrainSince(hlist, nodes, es[..|es| - 1])
                  && !OfflineUndrain(hlist, After(hlist, nodes, es[..|es| - 1]), es[|es| - 1])))
  }

  /** There has been an online update, and the table was exact at every point since the
      most recent one. */
  ghost predicate ExactSince(hlist: seq<Host>, nodes: map<Host, Status>, es: seq<Event>) {
    es != [] && Exact(hlist, After(hlist, nodes, es))
    && (es[|es| - 1].Online? || ExactSince(hlist, nodes, es[..|es| - 1]))
  }

  /** The table has been exact since the most recent online update if and only if no
      offline node has been undrained since. */
  lemma {:induction false} ExactSinceIff(hlist: seq<Host>, nodes: map<Host, Status>, es: seq<Event>)
    requires DistinctHosts(hlist)
    ensures ExactSince(hlist, nodes, es) <==> NoOfflineUndrainSince(hlist, nodes, es)
  {
    if es != [] {
      var front, e := es[..|es| - 1], es[|es| - 1];
      var s := After(hlist, nodes, front);
      AlwaysConsistent(hlist, nodes, front);
      if e.Online? {
        OnlineMakesExact(hlist, s, e.ranks);
      } else {
        ExactSinceIff(hlist, nodes, front);
        if ExactSince(hlist, nodes, front) {
          ExactStepIff(hlist, s, e);
        }
      }
    }
  }

  /** Node i was undrained while offline, and neither drained nor covered by an online
      update after that. */
  ghost predicate Stale(hlist: seq<Host>, nodes: map<Host, Status>, es: seq<Event>, i: nat)
    requires i < |hlist|
  {
    es != [] &&
    var front, e := es[..|es| - 1], es[|es| - 1];
    var s := After(hlist, nodes, front);
    match e
    case Online(_) => false
    case Drain(hosts) => hlist[i] !in hosts && Stale(hlist, nodes, front, i)
    case Undrain(hosts) =>
      (hlist[i] in hosts * s.drained && i !in s.lastOnline) || Stale(hlist, nodes, front, i)
  }

  ghost predicate NoneStale(hlist: seq<Host>, nodes: map<Host, Status>, es: seq<Event>) {
    forall i :: 0 <= i < |hlist| ==> !Stale(hlist, nodes, es, i)
  }

  ghost predicate HasOnline(es: seq<Event>) { exists k :: 0 <= k < |es| && es[k].Online? }

  lemma {:induction false} StaleIsInexact(hlist: seq<Host>, nodes: map<Host, Status>, es: seq<Event>, i: nat)
    requires DistinctHosts(hlist) && HasOnline(es) && i < |hlist|
    ensures Stale(hlist, nodes, es, i) <==> !ExactAt(hlist, After(hlist, nodes, es), i)
  {
    var front, e := es[..|es| - 1], es[|es| - 1];
    var s := After(hlist, nodes, front);
    AlwaysConsistent(hlist, nodes, front);
    if e.Online? {
      OnlineMakesExact(hlist, s, e.ranks);
      assert ExactAt(hlist, Next(hlist, s, e), i);
    } else {
      var k :| 0 <= k < |es| && es[k].Online?;
      assert front[k].Online?;
      StaleIsInexact(hlist, nodes, front, i);
    }
  }

  /** At any point after an online update, the table is exact if and only if no node is
      stale. */
  lemma {:induction false} ExactIffNoneStale(hlist: seq<Host>, nodes: map<Host, Status>, es: seq<Event>)
    requires DistinctHosts(hlist) && HasOnline(es)
    ensures Exact(hlist, After(hlist, nodes, es)) <==> NoneStale(hlist, nodes, es)
  {
    var s := After(hlist, nodes, es);
    forall i | 0 <= i < |hlist| ensures Stale(hlist, nodes, es, i) <==> !ExactAt(hlist, s, i) {
      StaleIsInexact(hlist, nodes, es, i);
    }
    if Exact(hlist, s) {
      forall i | 0 <= i < |hlist| ensures !Stale(hlist, nodes, es, i) { assert ExactAt(hlist, s, i); }
    } else {
      var i :| 0 <= i < |hlist| && !ExactAt(hlist, s, i);
      assert Stale(hlist, nodes, es, i);
    }
  }

  lemma {:induction false} AfterOne(hlist: seq<Host>, nodes: map<Host, Status>, es: seq<Event>, e: Event)
    ensures After(hlist, nodes, es + [e]) == Next(hlist, After(hlist, nodes, es), e)
  {
    assert (es + [e])[..|es|] == es;
  }

  /** On any host and from any table: a drained node goes offline and is undrained. It is
      marked Enabled, although its broker is not there. */
  lemma {:induction false} OfflineNodeIsEnabled(h: Host, nodes: map<Host, Status>) returns (es: seq<Event>)
    ensures DistinctHosts([h]) && !Exact([h], After([h], nodes, es))
    ensures 0 !in After([h], nodes, es).lastOnline && h !in After([h], nodes, es).drained
  {
    var hlist := [h];
    es := [];
    AfterOne(hlist, nodes, es, Drain({h}));
    es := es + [Drain({h})];
    assert After(hlist, nodes, es).drained == {h};
    AfterOne(hlist, nodes, es, Online({}));
    es := es + [Online({})];
    var s := After(hlist, nodes, es);
    assert s.drained == {h} && s.lastOnline == {};
    AfterOne(hlist, nodes, es, Undrain({h}));
    es := es + [Undrain({h})];
    var t := After(hlist, nodes, es);
    assert {h} * s.drained == {h} && t.nodes[h] == Enabled;
    assert !ExactAt(hlist, t, 0);
  }

  // ----- refused patches

  /** An event, and whether k8s accepted the patch that it led to. */
  datatype Update = Update(event: Event, accepted: bool)

  /** What the manager notes of an event even if its patch is refused. */
  function Noted(s: State, e: Event): State {
    match e
    case Drain(hosts) => s.(drained := s.drained + hosts)
    case Undrain(hosts) => s.(drained := s.drained - hosts)
    case Online(ranks) => s.(lastOnline := ranks)
  }

  function Step(hlist: seq<Host>, s: State, u: Update): State {
    if u.accepted then Next(hlist, s, u.event) else Noted(s, u.event)
  }

  ghost function AfterAll(hlist: seq<Host>, nodes: map<Host, Status>, us: seq<Update>): State {
    if us == [] then State({}, {}, nodes) else Step(hlist, AfterAll(hlist, nodes, us[..|us| - 1]), us[|us| - 1])
  }

  ghost predicate Unavailable(hlist: seq<Host>, s: State, i: nat)
    requires i < |hlist|
  {
    hlist[i] in s.drained || i !in s.lastOnline
  }

  /** Node i is marked wrongly after these updates. A refused patch makes the entry of
      every node wrong, or right again, whose availability has changed. An accepted one
      sets the nodes it names right, but for those undrained while offline; an online
      update does not name the nodes that were online when last heard of. */
  ghost predicate Wrong(hlist: seq<Host>, nodes: map<Host, Status>, us: seq<Update>, i: nat)
    requires i < |hlist|
  {
    if us == [] then !IsDisabled(State({}, {}, nodes), hlist[i])
    else
      var front, u := us[..|us| - 1], us[|us| - 1];
      var s, h := AfterAll(hlist, nodes, front), hlist[i];
      var was := Wrong(hlist, nodes, front, i);
      if !u.accepted then was != (Unavailable(hlist, s, i) != Unavailable(hlist, Noted(s, u.event), i))
      else
        match u.event
        case Online(ranks) => was && h !in s.drained && i in s.lastOnline && i in ranks
        case Drain(hosts) => was && h !in s.drained + hosts
        case Undrain(hosts) =>
          if hosts * s.drained == {} then was
          else if h in hosts * s.drained then i !in s.lastOnline
          else was && h !in s.drained
  }

  lemma {:induction false} RefusedStep(hlist: seq<Host>, s: State, e: Event, i: nat)
    requires i < |hlist|
    ensures ExactAt(hlist, Noted(s, e), i) <==>
            (ExactAt(hlist, s, i) <==> (Unavailable(hlist, s, i) <==> Unavailable(hlist, Noted(s, e), i)))
  {
  }

  lemma {:induction false} AcceptedOnline(hlist: seq<Host>, s: State, ranks: set<nat>, i: nat)
    requires DistinctHosts(hlist) && i < |hlist|
    ensures ExactAt(hlist, Next(hlist, s, Online(ranks)), i) <==>
            ExactAt(hlist, s, i) || hlist[i] in s.drained || i !in s.lastOnline || i !in ranks
  {
    HostsOfRank(hlist, ranks - s.lastOnline, i);
    HostsOfRank(hlist, Ranks(hlist) - ranks, i);
  }

  /** After any sequence of updates, accepted and refused, from any table, a node of the
      instance is marked Disabled when it is neither offline nor drained, or is not when
      it is, if and only if it is wrong. */
  lemma {:induction false} WrongIff(hlist: seq<Host>, nodes: map<Host, Status>, us: seq<Update>, i: nat)
    requires DistinctHosts(hlist) && i < |hlist|
    ensures Wrong(hlist, nodes, us, i) <==> !ExactAt(hlist, AfterAll(hlist, nodes, us), i)
  {
    if us != [] {
      var front, u := us[..|us| - 1], us[|us| - 1];
      var s := AfterAll(hlist, nodes, front);
      WrongIff(hlist, nodes, front, i);
      if !u.accepted {
        RefusedStep(hlist, s, u.event, i);
      } else if u.event.Online? {
        AcceptedOnline(hlist, s, u.event.ranks, i);
      }
    }
  }

  /** While accepted online updates keep reporting a node that is not drained, a wrong
      entry is never put right. */
  lemma {:induction false} WrongStays(hlist: seq<Host>, nodes: map<Host, Status>, us: seq<Update>, i: nat,
                                      ranks: set<nat>)
    requires i < |hlist| && Wrong(hlist, nodes, us, i) && i in ranks
    requires !Unavailable(hlist, AfterAll(hlist, nodes, us), i)
    ensures Wrong(hlist, nodes, us + [Update(Online(ranks), true)], i)
    ensures !Unavailable(hlist, AfterAll(hlist, nodes, us + [Update(Online(ranks), true)]), i)
  {
    assert (us + [Update(Online(ranks), true)])[..|us|] == us;
  }

  /** For every host: it comes online in an update that is refused, and stays Disabled
      through any number of accepted updates that report it. */
  lemma {:induction false} RefusedNodeStaysDisabled(h: Host, nodes: map<Host, Status>, count: nat)
    returns (us: seq<Update>)
    ensures |us| == count + 2 && us[1] == Update(Online({0}), false)
    ensures forall k :: 2 <= k < |us| ==> us[k] == Update(Online({0}), true)
    ensures Wrong([h], nodes, us, 0) && !Unavailable([h], AfterAll([h], nodes, us), 0)
  {
    if count == 0 {
      var offline := [Update(Online({}), true)];
      us := offline + [Update(Online({0}), false)];
      assert us[..1] == offline && offline[..0] == [];
      AcceptedOnline([h], State({}, {}, nodes), {}, 0);
      WrongIff([h], nodes, offline, 0);
    } else {
      var front := RefusedNodeStaysDisabled(h, nodes, count - 1);
      us := front + [Update(Online({0}), true)];
      WrongStays([h], nodes, front, 0, {0});
    }
  }

  // ----- the manager

  class Manager {
    const hlist: seq<Host>
    var lastOnline: set<nat>
    var drained: set<Host>
    var nodes: map<Host, Status>  // the resource in k8s, which accepted patches change

    function View(): State
      reads this
    {
      State(lastOnline, drained, nodes)
    }

    constructor (hlist: seq<Host>, nodes: map<Host, Status>)
      ensures this.hlist == hlist && View() == State({}, {}, nodes)
    {
      this.hlist, this.lastOnline, this.drained, this.nodes := hlist, {}, {}, nodes;
    }

    method PatchResource(newlyOnline: set<Host>, newlyOffline: set<Host>, accepted: bool)
      modifies `nodes
      ensures nodes == if accepted then Merged(old(nodes), newlyOnline, newlyOffline + drained) else old(nodes)
    {
      var patch := map h | h in newlyOnline :: Enabled;
      var todo := newlyOffline + drained;
      ghost var finished: set<Host> := {};
      while todo != {}
        invariant finished + todo == newlyOffline + drained
        invariant patch == (map h | h in newlyOnline :: Enabled) + (map h | h in finished :: Disabled)
        decreases todo
      {
        var h :| h in todo;
        patch := patch[h := Disabled];
        todo, finished := todo - {h}, finished + {h};
      }
      if accepted {
        assert finished == newlyOffline + drained;
        nodes := nodes + patch;
      }
    }

    method DisableUntilUndrained(hosts: seq<Host>, accepted: bool)
      modifies this
      ensures View() == Step(hlist, old(View()), Update(Drain(set h | h in hosts), accepted))
    {
      for i := 0 to |hosts|
        invariant drained == old(drained) + (set h | h in hosts[..i])
        invariant lastOnline == old(lastOnline) && nodes == old(nodes)
      {
        drained := drained + {hosts[i]};
        assert hosts[..i + 1] == hosts[..i] + [hosts[i]];
      }
      assert hosts[..|hosts|] == hosts;
      PatchResource({}, {}, accepted);
      assert {} + drained == drained;
    }

    method JournalUndrain(hosts: seq<Host>, accepted: bool)
      modifies this
      ensures View() == Step(hlist, old(View()), Update(Undrain(set h | h in hosts), accepted))
    {
      var undrained: set<Host> := {};
      for i := 0 to |hosts|
        invariant undrained == (set h | h in hosts[..i]) * old(drained)
        invariant drained == old(drained) - undrained
        invariant lastOnline == old(lastOnline) && nodes == old(nodes)
      {
        assert hosts[..i + 1] == hosts[..i] + [hosts[i]];
        if hosts[i] in drained {
          undrained := undrained + {hosts[i]};
          drained := drained - {hosts[i]};
        }
      }
      assert hosts[..|hosts|] == hosts;
      assert drained == old(drained) - (set h | h in hosts);
      if undrained != {} {
        PatchResource(undrained, {}, accepted);
        assert {} + drained == drained;
      }
    }

    method UpdateOffline(online: set<nat>, accepted: bool)
      requires forall i :: i in online ==> i < |hlist|
      modifies this
      ensures View() == Step(hlist, old(View()), Update(Online(online), accepted))
    {
      var newlyOnline := online - lastOnline;
      var offline := Ranks(hlist) - online;
      lastOnline := online;
      PatchResource(HostsOf(hlist, newlyOnline), HostsOf(hlist, offline), accepted);
    }
  }
}
