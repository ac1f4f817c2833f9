// What clients can rely on while a rebalance runs: reads do not miss.
module Guarantees {
  import opened Types
  import opened Ring
  import opened Routing
  import opened StoreSpec
  import opened Migration
  import opened Rebalance

  // What a store answers to a get.
  function ReadAt(stores: Stores, n: NodeId, k: Key, now: real): Option<Value> {
    if n in stores && k in stores[n] && !Expired(stores[n][k], now) then Some(stores[n][k].value) else None
  }

  // A cluster get whose first read sees s1 and whose second, if there is one,
  // sees the later s2.
  function GetVia(r: RoutingDecision, k: Key, s1: Stores, t1: real, replicaAlive: bool, s2: Stores,
                  t2: real): Option<Value> {
    if r.servedBy.None? then None
    else
      var first := ReadAt(s1, r.servedBy.value.id, k, t1);
      if first.Some? then first
      else if r.replica.Some? && r.replica.value.id != r.servedBy.value.id && replicaAlive then
        ReadAt(s2, r.replica.value.id, k, t2)
      else None
  }

  // Nodes on a ring are members.
  ghost predicate OnlyMembers(v: Vnodes, members: set<NodeId>) {
    forall p | p in v :: v[p].id in members
  }

  lemma OwnersAreMembers(v: Vnodes, members: set<NodeId>, from: Position)
    requires OnlyMembers(v, members)
    ensures OwnerIds(v, from) <= members
  {
    OwnersAreOnTheRing(v, from);
  }

  // In a state reached with the invariant, a node whose copy of k carried v,
  // or will be made from one that did, holds v whenever it holds anything.
  lemma HolderReadsValue(job: Job, k: Key, c0: Copies, s: State, n: NodeId, v: Value)
    requires KeyInv(job, k, c0, s) && n in job.members
    requires LiveThrough(c0, s.clock)
    requires n in c0 ==> c0[n].value == v
    requires s.phase.Migrating? ==> n in PutTargets(s.phase.plan, k, c0) ==>
               Source(s.phase.plan, k, c0).value.value == v
    ensures ReadAt(s.stores, n, k, s.clock) in {None, Some(v)}
    ensures n in c0 && (s.phase.Migrating? ==> n !in DeleteTargets(s.phase.plan, k, c0)) ==>
              ReadAt(s.stores, n, k, s.clock) == Some(v)
    ensures s.phase.Migrating? && Done(s, k) && n in PutTargets(s.phase.plan, k, c0) ==>
              ReadAt(s.stores, n, k, s.clock) == Some(v)
  {
    var copy := CopyAt(CopiesOf(s.stores, k), n);
    if s.phase.Migrating? {
      var plan := s.phase.plan;
      assert CopyStatus(plan, k, c0, s.phase.pending, n, copy, s.clock);
      if n in PutTargets(plan, k, c0) {
        SourceIsACopy(plan, k, c0);
      }
    } else {
      assert copy == CopyAt(c0, n);
    }
  }

  // ---------------------------------------------------------------------
  // Adding a node.

  // The situation right after add_node: the ring has one node more, everyone
  // is alive, the newcomer's store has no copy of k, and the old primary does.
  ghost predicate AddSetting(job: Job, replicas: nat, n: Node, k: Key, s: State, v: Value) {
    && job.change == NodeAdded && job.previous != map[]
    && Fresh(job.previous, n.id) && HarmlessCollisions(job.previous, job.hash, replicas, n)
    && job.current == WithNode(job.previous, job.hash, replicas, n)
    && OnlyMembers(job.previous, job.members) && n.id in job.members && job.members <= job.alive(k)
    && Switched(job, s) && k !in s.stores[n.id]
    && var primary := Lookup(job.previous, job.hash(k)).value.id;
       primary in s.stores && k in s.stores[primary] && s.stores[primary][k].value == v
  }

  // The plan copies the old primary's copy, and spares it.
  lemma AddPlanUsesOldPrimary(job: Job, k: Key, c0: Copies, order: seq<NodeId>, now: real)
    requires job.change == NodeAdded && job.previous != map[] && job.members <= job.alive(k)
    requires Lookup(job.previous, job.hash(k)).value.id in c0 && c0.Keys <= job.members
    ensures Source(PlanningOf(job, order, now), k, c0) == Some(c0[Lookup(job.previous, job.hash(k)).value.id])
  {
  }

  // In every reachable state the old primary answers v, and the newcomer v or
  // nothing.
  lemma AddHolders(job: Job, replicas: nat, n: Node, k: Key, s: State, v: Value, events: seq<Event>)
    requires AddSetting(job, replicas, n, k, s, v)
    requires Runs(job, iset{k}, s, events)
    requires LiveThrough(MemberCopies(job.members, s.stores, k), Exec(job, iset{k}, s, events).clock)
    ensures var s1 := Exec(job, iset{k}, s, events);
            && ReadAt(s1.stores, Lookup(job.previous, job.hash(k)).value.id, k, s1.clock) == Some(v)
            && ReadAt(s1.stores, n.id, k, s1.clock) in {None, Some(v)}
  {
    var primary := Lookup(job.previous, job.hash(k)).value.id;
    var c0 := MemberCopies(job.members, s.stores, k);
    var s1 := Exec(job, iset{k}, s, events);
    SwitchedHasInv(job, k, s);
    RunKeepsInv(job, iset{k}, k, c0, s, events);
    LookupInRing(job.previous, job.hash(k));
    assert primary in c0 && c0[primary].value == v && n.id !in c0;
    if s1.phase.Migrating? {
      AddPlanUsesOldPrimary(job, k, c0, s1.phase.plan.order, s1.phase.plan.now);
      PrimaryIsSpared(job, replicas, n, s1.phase.plan, k, c0);
    }
    HolderReadsValue(job, k, c0, s1, primary, v);
    HolderReadsValue(job, k, c0, s1, n.id, v);
  }

  lemma PrimaryIsSpared(job: Job, replicas: nat, n: Node, plan: Planning, k: Key, c: Copies)
    requires job.previous != map[] && plan.previous == job.previous
             && plan.current == job.current && plan.hash == job.hash
    requires Fresh(job.previous, n.id) && HarmlessCollisions(job.previous, job.hash, replicas, n)
    requires job.current == WithNode(job.previous, job.hash, replicas, n)
    ensures Lookup(job.previous, job.hash(k)).value.id !in DeleteTargets(plan, k, c)
  {
    OwnersUnderAdd(job.previous, job.hash, replicas, n, job.hash(k));
  }

  // A key held by its old primary is found by every get, in every state of
  // every run after the ring switch, even if the get's two reads see different
  // states.  Copies of other keys may change in any way meanwhile.
  lemma AddReadsNeverMiss(job: Job, replicas: nat, n: Node, k: Key, s: State, v: Value,
                          early: seq<Event>, later: seq<Event>, up: set<NodeId>)
    requires AddSetting(job, replicas, n, k, s, v) && job.members <= up
    requires Runs(job, iset{k}, s, early + later)
    requires LiveThrough(MemberCopies(job.members, s.stores, k), Exec(job, iset{k}, s, early + later).clock)
    ensures Runs(job, iset{k}, s, early)
    ensures var s1, s2 := Exec(job, iset{k}, s, early), Exec(job, iset{k}, s, early + later);
            GetVia(Route(job.current, job.hash(k), up), k, s1.stores, s1.clock, true, s2.stores, s2.clock) == Some(v)
  {
    ExecConcat(job, iset{k}, s, early, later);
    ClockOnlyGrows(job, iset{k}, Exec(job, iset{k}, s, early), later);
    AddHolders(job, replicas, n, k, s, v, early);
    AddHolders(job, replicas, n, k, s, v, early + later);
    LookupInRing(job.previous, job.hash(k));
    OwnersUnderAdd(job.previous, job.hash, replicas, n, job.hash(k));
  }

  // So is a get that was routed before the switch and reads after it.
  lemma AddReadsOnOldRoute(job: Job, replicas: nat, n: Node, k: Key, s: State, v: Value,
                           early: seq<Event>, later: seq<Event>, up: set<NodeId>)
    requires AddSetting(job, replicas, n, k, s, v) && job.members <= up
    requires Runs(job, iset{k}, s, early + later)
    requires LiveThrough(MemberCopies(job.members, s.stores, k), Exec(job, iset{k}, s, early + later).clock)
    ensures Runs(job, iset{k}, s, early)
    ensures var s1, s2 := Exec(job, iset{k}, s, early), Exec(job, iset{k}, s, early + later);
            GetVia(Route(job.previous, job.hash(k), up), k, s1.stores, s1.clock, true, s2.stores, s2.clock) == Some(v)
  {
    ExecConcat(job, iset{k}, s, early, later);
    ClockOnlyGrows(job, iset{k}, Exec(job, iset{k}, s, early), later);
    AddHolders(job, replicas, n, k, s, v, early);
    LookupInRing(job.previous, job.hash(k));
  }

  // ---------------------------------------------------------------------
  // Removing a node.

  // The situation right after remove_node: the ring is that without the node,
  // every survivor is alive, and the surviving old owners of k all hold v.
  ghost predicate RemoveSetting(job: Job, id: NodeId, k: Key, s: State, v: Value) {
    && job.change == NodeRemoved && id !in job.members
    && job.current == Without(job.previous, id) && job.current != map[]
    && OnlyMembers(job.current, job.members)
    && Switched(job, s)
    && forall o | o in OwnerIds(job.previous, job.hash(k)) && o != id ::
         o in s.stores && k in s.stores[o] && s.stores[o][k].value == v
  }

  // The new primary was an owner before, so it has a copy and it is the source.
  lemma RemovePlanUsesNewPrimary(job: Job, id: NodeId, k: Key, s: State, v: Value)
    requires RemoveSetting(job, id, k, s, v)
    ensures var primary := Lookup(job.current, job.hash(k)).value.id;
            var c0 := MemberCopies(job.members, s.stores, k);
            && primary in c0 && c0[primary].value == v && primary in OwnerIds(job.current, job.hash(k))
            && forall order, now :: Source(PlanningOf(job, order, now), k, c0) == Some(c0[primary])
  {
    assert job.previous != map[];
    OwnersUnderRemove(job.previous, job.hash(k), id);
    OwnersAreOnTheRing(job.previous, job.hash(k));
    LookupInRing(job.current, job.hash(k));
  }

  lemma RemoveHolders(job: Job, id: NodeId, k: Key, s: State, v: Value, events: seq<Event>)
    requires RemoveSetting(job, id, k, s, v)
    requires Runs(job, iset{k}, s, events)
    requires LiveThrough(MemberCopies(job.members, s.stores, k), Exec(job, iset{k}, s, events).clock)
    ensures var s1 := Exec(job, iset{k}, s, events);
            ReadAt(s1.stores, Lookup(job.current, job.hash(k)).value.id, k, s1.clock) == Some(v)
  {
    SwitchedHasInv(job, k, s);
    RunKeepsInv(job, iset{k}, k, MemberCopies(job.members, s.stores, k), s, events);
    RemovePlanUsesNewPrimary(job, id, k, s, v);
    HolderReadsValue(job, k, MemberCopies(job.members, s.stores, k), Exec(job, iset{k}, s, events),
                     Lookup(job.current, job.hash(k)).value.id, v);
  }

  // A key whose old owners agreed on v is found with value v by every get in
  // every state after the ring switch.
  lemma RemoveReadsNeverMiss(job: Job, id: NodeId, k: Key, s: State, v: Value, early: seq<Event>, later: seq<Event>,
                             up: set<NodeId>)
    requires RemoveSetting(job, id, k, s, v) && job.members <= up
    requires Runs(job, iset{k}, s, early + later)
    requires LiveThrough(MemberCopies(job.members, s.stores, k), Exec(job, iset{k}, s, early + later).clock)
    ensures Runs(job, iset{k}, s, early)
    ensures var s1, s2 := Exec(job, iset{k}, s, early), Exec(job, iset{k}, s, early + later);
            GetVia(Route(job.current, job.hash(k), up), k, s1.stores, s1.clock, true, s2.stores, s2.clock) == Some(v)
  {
    ExecConcat(job, iset{k}, s, early, later);
    ClockOnlyGrows(job, iset{k}, Exec(job, iset{k}, s, early), later);
    RemoveHolders(job, id, k, s, v, early);
    LookupInRing(job.current, job.hash(k));
  }

  // So is a get that was routed before the switch and reads after it, even from
  // the departed node, whose copy, if it has one, carries v as well.
  lemma RemoveReadsOnOldRoute(job: Job, id: NodeId, k: Key, s: State, v: Value, early: seq<Event>, later: seq<Event>,
                              up: set<NodeId>)
    requires RemoveSetting(job, id, k, s, v) && job.members <= up
    requires OnlyMembers(job.previous, job.members + {id})
    requires id in s.stores && k in s.stores[id] ==> s.stores[id][k].value == v
    requires Runs(job, iset{k}, s, early + later)
    requires LiveThrough(MemberCopies(job.members, s.stores, k), Exec(job, iset{k}, s, early + later).clock)
    ensures Runs(job, iset{k}, s, early)
    ensures var s1, s2 := Exec(job, iset{k}, s, early), Exec(job, iset{k}, s, early + later);
            GetVia(Route(job.previous, job.hash(k), up), k, s1.stores, s1.clock, true, s2.stores, s2.clock) == Some(v)
  {
    ExecConcat(job, iset{k}, s, early, later);
    ClockOnlyGrows(job, iset{k}, Exec(job, iset{k}, s, early), later);
    RemoveHolders(job, id, k, s, v, early);
    RemoveHolders(job, id, k, s, v, early + later);
    DepartedReads(job, id, k, s, v, early);
    OldRouteLeadsToNewPrimary(job, id, k, s, v, up);
  }

  // What the departed node answers, if anything, is v.
  lemma DepartedReads(job: Job, id: NodeId, k: Key, s: State, v: Value, events: seq<Event>)
    requires RemoveSetting(job, id, k, s, v)
    requires id in s.stores && k in s.stores[id] ==> s.stores[id][k].value == v
    requires Runs(job, iset{k}, s, events)
    requires LiveThrough(MemberCopies(job.members, s.stores, k), Exec(job, iset{k}, s, events).clock)
    ensures ReadAt(Exec(job, iset{k}, s, events).stores, id, k, Exec(job, iset{k}, s, events).clock) in {None, Some(v)}
  {
    var c0 := MemberCopies(job.members, s.stores, k);
    SwitchedHasInv(job, k, s);
    OutsiderKeepsCopy(job, iset{k}, k, c0, s, events, id);
    var stores := Exec(job, iset{k}, s, events).stores;
    assert CopyAt(CopiesOf(stores, k), id) == CopyAt(CopiesOf(s.stores, k), id);
  }

  // On the old ring a get is served by the new primary, or by the departed node
  // with the new primary as replica.
  lemma OldRouteLeadsToNewPrimary(job: Job, id: NodeId, k: Key, s: State, v: Value, up: set<NodeId>)
    requires RemoveSetting(job, id, k, s, v) && job.members <= up && OnlyMembers(job.previous, job.members + {id})
    ensures var r, primary := Route(job.previous, job.hash(k), up), Lookup(job.current, job.hash(k));
            && r.servedBy.Some?
            && (r.servedBy == primary || (r.servedBy.value.id == id && r.replica == primary && primary.value.id != id))
  {
    assert job.previous != map[];
    OwnersUnderRemove(job.previous, job.hash(k), id);
    OwnersAreMembers(job.previous, job.members + {id}, job.hash(k));
    OwnersAreOnTheRing(job.previous, job.hash(k));
    var o := OwnersOf(job.previous, job.hash(k));
    assert o.primary.value.id in Ids(o) && (o.replica.Some? ==> o.replica.value.id in Ids(o));
  }

  // At completion every new owner holds v, provided none of them kept a stray
  // copy with another value; and only then.
  lemma RemoveCompletesIff(job: Job, id: NodeId, k: Key, s: State, v: Value, events: seq<Event>)
    requires RemoveSetting(job, id, k, s, v)
    requires Runs(job, iset{k}, s, events) && Done(Exec(job, iset{k}, s, events), k)
    requires LiveThrough(MemberCopies(job.members, s.stores, k), Exec(job, iset{k}, s, events).clock)
    ensures var s1, owners := Exec(job, iset{k}, s, events), OwnerIds(job.current, job.hash(k));
            (forall o | o in owners :: ReadAt(s1.stores, o, k, s1.clock) == Some(v))
            <==> (forall o | o in owners :: k in s.stores[o] ==> s.stores[o][k].value == v)
  {
    var c0 := MemberCopies(job.members, s.stores, k);
    var s1, owners := Exec(job, iset{k}, s, events), OwnerIds(job.current, job.hash(k));
    SwitchedHasInv(job, k, s);
    RunKeepsInv(job, iset{k}, k, c0, s, events);
    RemovePlanUsesNewPrimary(job, id, k, s, v);
    OwnersAreMembers(job.current, job.members, job.hash(k));
    forall o | o in owners
      ensures ReadAt(s1.stores, o, k, s1.clock) == Some(v) <==> (k in s.stores[o] ==> s.stores[o][k].value == v)
    {
      OwnerAtCompletion(job, id, k, s, v, s1, o);
    }
  }

  lemma OwnerAtCompletion(job: Job, id: NodeId, k: Key, s: State, v: Value, s1: State, o: NodeId)
    requires RemoveSetting(job, id, k, s, v) && o in OwnerIds(job.current, job.hash(k)) && o in job.members
    requires KeyInv(job, k, MemberCopies(job.members, s.stores, k), s1) && Done(s1, k)
    requires LiveThrough(MemberCopies(job.members, s.stores, k), s1.clock)
    ensures ReadAt(s1.stores, o, k, s1.clock) == Some(v) <==> (k in s.stores[o] ==> s.stores[o][k].value == v)
  {
    var c0 := MemberCopies(job.members, s.stores, k);
    if o in c0 {
      OldHolderAtCompletion(job, k, c0, s1, o);
    } else {
      NewHolderAtCompletion(job, id, k, s, v, s1, o);
    }
  }

  lemma OldHolderAtCompletion(job: Job, k: Key, c0: Copies, s1: State, o: NodeId)
    requires o in OwnerIds(job.current, job.hash(k)) && o in job.members && o in c0
    requires KeyInv(job, k, c0, s1) && Done(s1, k) && LiveThrough(c0, s1.clock)
    ensures ReadAt(s1.stores, o, k, s1.clock) == Some(c0[o].value)
  {
    HolderReadsValue(job, k, c0, s1, o, c0[o].value);
  }

  lemma NewHolderAtCompletion(job: Job, id: NodeId, k: Key, s: State, v: Value, s1: State, o: NodeId)
    requires RemoveSetting(job, id, k, s, v) && o in OwnerIds(job.current, job.hash(k)) && o in job.members
    requires KeyInv(job, k, MemberCopies(job.members, s.stores, k), s1) && Done(s1, k)
    requires LiveThrough(MemberCopies(job.members, s.stores, k), s1.clock)
    requires o !in MemberCopies(job.members, s.stores, k)
    ensures ReadAt(s1.stores, o, k, s1.clock) == Some(v)
  {
    RemovePlanUsesNewPrimary(job, id, k, s, v);
    RemoveOwnerMissing(job, id, k, s, v, s1.phase.plan.order, s1.phase.plan.now, o);
    HolderReadsValue(job, k, MemberCopies(job.members, s.stores, k), s1, o, v);
  }

  // A new owner without a copy is a put target.
  lemma RemoveOwnerMissing(job: Job, id: NodeId, k: Key, s: State, v: Value, order: seq<NodeId>, now: real, o: NodeId)
    requires RemoveSetting(job, id, k, s, v) && o in OwnerIds(job.current, job.hash(k)) && o in job.members
    requires o !in MemberCopies(job.members, s.stores, k) && LiveThrough(MemberCopies(job.members, s.stores, k), now)
    ensures o in PutTargets(PlanningOf(job, order, now), k, MemberCopies(job.members, s.stores, k))
  {
    RemovePlanUsesNewPrimary(job, id, k, s, v);
    assert o !in OwnerIds(job.previous, job.hash(k));
  }
}
