// Adding a node while the old primary of a key is silent: the new copy is made
// from the old replica's, which may be newer.
module SilentPrimary {
  import opened Types
  import opened Ring
  import opened Routing
  import opened StoreSpec
  import opened Migration
  import opened Rebalance
  import opened Guarantees

  // The situation right after add_node when the key's old primary looks dead and
  // its old replica holds v.  The primary may hold anything.
  ghost predicate SilentSetting(job: Job, replicas: nat, n: Node, k: Key, s: State, v: Value) {
    && job.change == NodeAdded && job.previous != map[]
    && Fresh(job.previous, n.id) && HarmlessCollisions(job.previous, job.hash, replicas, n)
    && job.current == WithNode(job.previous, job.hash, replicas, n)
    && OnlyMembers(job.previous, job.members) && n.id in job.members
    && Switched(job, s) && k !in s.stores[n.id]
    && var o := OwnersOf(job.previous, job.hash(k));
       && o.primary.value.id !in job.alive(k) && o.replica.Some?
       && o.replica.value.id in s.stores && k in s.stores[o.replica.value.id]
       && s.stores[o.replica.value.id][k].value == v
  }

  // Every planned put of k migrates the old replica's copy.
  lemma SilentPlan(job: Job, k: Key, c0: Copies, order: seq<NodeId>, now: real, t: Task)
    requires job.change == NodeAdded && job.previous != map[]
    requires var o := OwnersOf(job.previous, job.hash(k));
             o.primary.value.id !in job.alive(k) && o.replica.Some? && o.replica.value.id in c0
    requires t in KeyTasks(PlanningOf(job, order, now), k, c0) && t.PutTask? && forall n | n in c0 :: n in order
    ensures CarriesEntry(t, c0[OwnersOf(job.previous, job.hash(k)).replica.value.id], now)
  {
    AddPutsCarry(PlanningOf(job, order, now), k, c0, t);
  }

  // What of that setting the plan depends on.
  ghost predicate SilentCopies(job: Job, n: Node, k: Key, c0: Copies, v: Value) {
    && job.change == NodeAdded && job.previous != map[] && Fresh(job.previous, n.id) && n.id in job.members
    && n.id !in c0
    && var o := OwnersOf(job.previous, job.hash(k));
       && o.primary.value.id !in job.alive(k) && o.replica.Some?
       && o.replica.value.id in c0 && c0[o.replica.value.id].value == v
  }

  ghost function OldReplica(job: Job, k: Key): NodeId
    requires OwnersOf(job.previous, job.hash(k)).replica.Some?
  {
    OwnersOf(job.previous, job.hash(k)).replica.value.id
  }

  lemma SilentSource(job: Job, n: Node, k: Key, c0: Copies, v: Value, order: seq<NodeId>, now: real)
    requires SilentCopies(job, n, k, c0, v)
    ensures Source(PlanningOf(job, order, now), k, c0) == Some(c0[OldReplica(job, k)])
  {
  }

  lemma SilentStart(job: Job, replicas: nat, n: Node, k: Key, s: State, v: Value)
    requires SilentSetting(job, replicas, n, k, s, v)
    ensures SilentCopies(job, n, k, MemberCopies(job.members, s.stores, k), v) && OldReplica(job, k) in job.members
  {
    OwnersAreMembers(job.previous, job.members, job.hash(k));
    assert OldReplica(job, k) in OwnerIds(job.previous, job.hash(k));
  }

  lemma NewcomerReads(job: Job, n: Node, k: Key, c0: Copies, v: Value, s1: State)
    requires SilentCopies(job, n, k, c0, v) && KeyInv(job, k, c0, s1) && LiveThrough(c0, s1.clock)
    ensures ReadAt(s1.stores, n.id, k, s1.clock) in {None, Some(v)}
    ensures Done(s1, k) && n.id in OwnerIds(job.current, job.hash(k)) ==>
              ReadAt(s1.stores, n.id, k, s1.clock) == Some(v)
  {
    if s1.phase.Migrating? {
      SilentSource(job, n, k, c0, v, s1.phase.plan.order, s1.phase.plan.now);
      if n.id in OwnerIds(job.current, job.hash(k)) {
        NewOwnerIsTarget(job, n, k, c0, s1);
      }
    }
    HolderReadsValue(job, k, c0, s1, n.id, v);
  }

  lemma ReplicaReads(job: Job, n: Node, k: Key, c0: Copies, v: Value, s1: State)
    requires SilentCopies(job, n, k, c0, v) && KeyInv(job, k, c0, s1) && LiveThrough(c0, s1.clock)
    requires OldReplica(job, k) in job.members && OldReplica(job, k) in OwnerIds(job.current, job.hash(k))
    ensures ReadAt(s1.stores, OldReplica(job, k), k, s1.clock) == Some(v)
  {
    HolderReadsValue(job, k, c0, s1, OldReplica(job, k), v);
  }

  // In every reachable state the newcomer holds v or nothing, and v at
  // completion if it has become an owner; a replica that stays an owner holds v.
  lemma SilentHolders(job: Job, replicas: nat, n: Node, k: Key, s: State, v: Value, events: seq<Event>)
    requires SilentSetting(job, replicas, n, k, s, v)
    requires Runs(job, iset{k}, s, events)
    requires LiveThrough(MemberCopies(job.members, s.stores, k), Exec(job, iset{k}, s, events).clock)
    ensures OwnersOf(job.previous, job.hash(k)).replica.Some?
    ensures var s1, owners := Exec(job, iset{k}, s, events), OwnerIds(job.current, job.hash(k));
            && ReadAt(s1.stores, n.id, k, s1.clock) in {None, Some(v)}
            && (Done(s1, k) && n.id in owners ==> ReadAt(s1.stores, n.id, k, s1.clock) == Some(v))
            && (OldReplica(job, k) in owners ==> ReadAt(s1.stores, OldReplica(job, k), k, s1.clock) == Some(v))
  {
    var c0, s1 := MemberCopies(job.members, s.stores, k), Exec(job, iset{k}, s, events);
    SwitchedHasInv(job, k, s);
    RunKeepsInv(job, iset{k}, k, c0, s, events);
    SilentStart(job, replicas, n, k, s, v);
    NewcomerReads(job, n, k, c0, v, s1);
    if OldReplica(job, k) in OwnerIds(job.current, job.hash(k)) {
      ReplicaReads(job, n, k, c0, v, s1);
    }
  }

  lemma NewOwnerIsTarget(job: Job, n: Node, k: Key, c0: Copies, s1: State)
    requires KeyInv(job, k, c0, s1) && s1.phase.Migrating? && LiveThrough(c0, s1.clock)
    requires job.previous != map[] && Fresh(job.previous, n.id) && n.id in job.members && n.id !in c0
    requires Source(s1.phase.plan, k, c0).Some? && n.id in OwnerIds(job.current, job.hash(k))
    ensures n.id in PutTargets(s1.phase.plan, k, c0)
  {
    OwnersAreOnTheRing(job.previous, job.hash(k));
    assert n.id !in OwnerIds(job.previous, job.hash(k));
    SourceIsACopy(s1.phase.plan, k, c0);
  }

  // A get that finds the old primary still silent returns v or misses in every
  // state, never the old primary's copy; once the rebalance is done, and at any
  // time if the newcomer took no part of the key, it returns v.
  lemma SilentPrimaryReads(job: Job, replicas: nat, n: Node, k: Key, s: State, v: Value, events: seq<Event>,
                           up: set<NodeId>)
    requires SilentSetting(job, replicas, n, k, s, v)
    requires Runs(job, iset{k}, s, events)
    requires LiveThrough(MemberCopies(job.members, s.stores, k), Exec(job, iset{k}, s, events).clock)
    requires var primary := OwnersOf(job.previous, job.hash(k)).primary.value.id;
             primary !in up && job.members - {primary} <= up
    ensures var s1, r := Exec(job, iset{k}, s, events), Route(job.current, job.hash(k), up);
            var answer := GetVia(r, k, s1.stores, s1.clock,
                                 r.replica.Some? && r.replica.value.id in up, s1.stores, s1.clock);
            && answer in {None, Some(v)}
            && (Done(s1, k) || n.id !in OwnerIds(job.current, job.hash(k)) ==> answer == Some(v))
  {
    SilentHolders(job, replicas, n, k, s, v, events);
    SilentRoute(job, replicas, n, k, up);
  }

  // Who is asked: the old replica if the owners stay, else the newcomer alone.
  lemma SilentRoute(job: Job, replicas: nat, n: Node, k: Key, up: set<NodeId>)
    requires job.previous != map[] && OwnersOf(job.previous, job.hash(k)).replica.Some?
    requires Fresh(job.previous, n.id) && HarmlessCollisions(job.previous, job.hash, replicas, n)
    requires job.current == WithNode(job.previous, job.hash, replicas, n)
    requires OnlyMembers(job.previous, job.members) && n.id in job.members
    requires var primary := OwnersOf(job.previous, job.hash(k)).primary.value.id;
             primary !in up && job.members - {primary} <= up
    ensures var r := Route(job.current, job.hash(k), up);
            && r.servedBy.Some?
            && r.servedBy.value.id == (if n.id in OwnerIds(job.current, job.hash(k)) then n.id else OldReplica(job, k))
            && (r.replica.Some? && r.replica.value.id in up ==> r.replica == r.servedBy)
            && (n.id !in OwnerIds(job.current, job.hash(k)) ==>
                  OldReplica(job, k) in OwnerIds(job.current, job.hash(k)))
  {
    OwnersUnderAdd(job.previous, job.hash, replicas, n, job.hash(k));
    OwnersAreOnTheRing(job.previous, job.hash(k));
    OwnersAreMembers(job.previous, job.members, job.hash(k));
    ServedPastThePrimary(OwnersOf(job.previous, job.hash(k)), OwnersOf(job.current, job.hash(k)), n, job.members, up);
  }

  lemma ServedPastThePrimary(o: Owners, o': Owners, n: Node, members: set<NodeId>, up: set<NodeId>)
    requires JoinOutcome(o, o', n) && o.primary.Some? && o.replica.Some? && n.id in members
    requires o.replica.value.id != o.primary.value.id && Ids(o) <= members
    requires n.id != o.primary.value.id && n.id != o.replica.value.id
    requires o.primary.value.id !in up && members - {o.primary.value.id} <= up
    ensures var served := Served(o', up, up);
            && served.Some? && served.value.id == (if n.id in Ids(o') then n.id else o.replica.value.id)
            && (o'.replica.Some? && o'.replica.value.id in up ==> o'.replica == served)
            && (n.id !in Ids(o') ==> o.replica.value.id in Ids(o'))
  {
    assert o.primary.value.id in Ids(o) && o.replica.value.id in Ids(o);
  }
}
