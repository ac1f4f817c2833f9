// Reads after a node was added, while other nodes' copies of the very key that
// is read change in any way: replica writes queued before the switch run late,
// entries expire or are evicted, deletes arrive.
module LateWrites {
  import opened Types
  import opened Ring
  import opened Routing
  import opened StoreSpec
  import opened Migration
  import opened Rebalance
  import opened Guarantees

  // A run watches no key; only the old primary's copy and the newcomer's are
  // left to the rebalance.
  ghost predicate LeavesPair(job: Job, s: State, events: seq<Event>, k: Key, a: NodeId, b: NodeId)
    requires Runs(job, iset{}, s, events)
    decreases events
  {
    events == [] ||
    (&& (events[0].Other? ==> SameAt(s.stores, events[0].stores, k, a) && SameAt(s.stores, events[0].stores, k, b)
                              && s.stores.Keys <= events[0].stores.Keys)
     && LeavesPair(job, Apply(job, iset{}, s, events[0]), events[1..], k, a, b))
  }

  ghost predicate SameAt(s: Stores, t: Stores, k: Key, n: NodeId) {
    CopyAt(CopiesOf(s, k), n) == CopyAt(CopiesOf(t, k), n)
  }

  // The old primary d keeps its copy e, and the newcomer n has no copy or one
  // migrated from e; no task on k at these two nodes does anything else.
  ghost predicate PairInv(job: Job, k: Key, d: NodeId, n: NodeId, e: Entry, s: State) {
    && job.members <= s.stores.Keys && d in job.members && n in job.members
    && CopyAt(CopiesOf(s.stores, k), d) == Some(e)
    && match s.phase
       case Collecting(snaps) =>
         && snaps.Keys <= job.members && CopyAt(CopiesOf(s.stores, k), n) == None
         && CopyAt(CopiesOf(snaps, k), n) == None && (d in snaps ==> CopyAt(CopiesOf(snaps, k), d) == Some(e))
       case Migrating(plan, snaps, pending) =>
         && plan.now <= s.clock
         && NewcomerHas(CopyAt(CopiesOf(s.stores, k), n), e, plan.now, s.clock)
         && PairTasks(pending, k, d, n, e, plan.now)
  }

  ghost predicate NewcomerHas(copy: Option<Entry>, e: Entry, planned: real, now: real) {
    copy.Some? ==> MigratedFrom(e, planned, copy.value, now)
  }

  ghost predicate PairTasks(pending: set<Task>, k: Key, d: NodeId, n: NodeId, e: Entry, planned: real) {
    forall t | t in pending && t.key == k && (t.node == d || t.node == n) ::
      t == PutTask(n, k, e.value, RemainingTtl(e, planned)) && n != d
  }

  // The part of AddSetting that does not change during a run.
  ghost predicate Joining(job: Job, replicas: nat, n: Node, k: Key) {
    && job.change == NodeAdded && job.previous != map[] && job.members <= job.alive(k)
    && Fresh(job.previous, n.id) && HarmlessCollisions(job.previous, job.hash, replicas, n)
    && job.current == WithNode(job.previous, job.hash, replicas, n)
  }

  ghost function OldPrimary(job: Job, k: Key): NodeId
    requires job.previous != map[]
  {
    Lookup(job.previous, job.hash(k)).value.id
  }

  lemma PlanForPair(job: Job, replicas: nat, n: Node, k: Key, e: Entry, snaps: Stores, order: seq<NodeId>, now: real)
    requires Joining(job, replicas, n, k)
    requires CopyAt(CopiesOf(snaps, k), OldPrimary(job, k)) == Some(e) && snaps.Keys <= job.members
    requires CopyAt(CopiesOf(snaps, k), n.id) == None
    ensures PairTasks(PlannedTasks(PlanningOf(job, order, now), snaps), k, OldPrimary(job, k), n.id, e, now)
  {
    var plan, c0 := PlanningOf(job, order, now), CopiesOf(snaps, k);
    AddPlanUsesOldPrimary(job, k, c0, order, now);
    PrimaryIsSpared(job, replicas, n, plan, k, c0);
    PlannedForKey(plan, snaps, k);
  }

  // A put that is planned for the newcomer migrates e; one whose ttl is used up
  // stores nothing.
  lemma PairTaskRuns(stores: Stores, t: Task, k: Key, d: NodeId, n: NodeId, e: Entry, planned: real, now: real)
    requires t.node in stores && planned <= now && d != n
    requires t.key == k && (t.node == d || t.node == n) ==> t == PutTask(n, k, e.value, RemainingTtl(e, planned))
    requires CopyAt(CopiesOf(stores, k), d) == Some(e)
    requires NewcomerHas(CopyAt(CopiesOf(stores, k), n), e, planned, now)
    ensures CopyAt(CopiesOf(ApplyTask(stores, t, now), k), d) == Some(e)
    ensures NewcomerHas(CopyAt(CopiesOf(ApplyTask(stores, t, now), k), n), e, planned, now)
  {
  }

  lemma PairStep(job: Job, replicas: nat, n: Node, k: Key, e: Entry, s: State, ev: Event)
    requires Joining(job, replicas, n, k)
    requires PairInv(job, k, OldPrimary(job, k), n.id, e, s) && !Expired(e, s.clock)
    requires Enabled(job, iset{}, s, ev)
    requires ev.Other? ==> SameAt(s.stores, ev.stores, k, n.id) && s.stores.Keys <= ev.stores.Keys
                           && SameAt(s.stores, ev.stores, k, OldPrimary(job, k))
    ensures PairInv(job, k, OldPrimary(job, k), n.id, e, Apply(job, iset{}, s, ev))
  {
    LookupInRing(job.previous, job.hash(k));
    match ev {
      case Plan(order) => PlanForPair(job, replicas, n, k, e, s.phase.snaps, order, s.clock);
      case Fire(t) => PairTaskRuns(s.stores, t, k, OldPrimary(job, k), n.id, e, s.phase.plan.now, s.clock);
      case _ =>
    }
  }

  lemma {:induction false} PairRun(job: Job, replicas: nat, n: Node, k: Key, e: Entry, s: State, events: seq<Event>)
    requires Joining(job, replicas, n, k) && PairInv(job, k, OldPrimary(job, k), n.id, e, s)
    requires Runs(job, iset{}, s, events) && LeavesPair(job, s, events, k, OldPrimary(job, k), n.id)
    requires !Expired(e, Exec(job, iset{}, s, events).clock)
    ensures PairInv(job, k, OldPrimary(job, k), n.id, e, Exec(job, iset{}, s, events))
    decreases events
  {
    if events == [] {
    } else {
      ClockOnlyGrows(job, iset{}, s, events);
      PairStep(job, replicas, n, k, e, s, events[0]);
      PairRun(job, replicas, n, k, e, Apply(job, iset{}, s, events[0]), events[1..]);
    }
  }

  lemma {:induction false} LeavesPairParts(job: Job, s: State, a: seq<Event>, b: seq<Event>, k: Key,
                                           d: NodeId, n: NodeId)
    requires Runs(job, iset{}, s, a + b) && LeavesPair(job, s, a + b, k, d, n)
    ensures Runs(job, iset{}, s, a) && LeavesPair(job, s, a, k, d, n)
    decreases a
  {
    if a == [] {
    } else {
      assert (a + b)[1..] == a[1..] + b;
      LeavesPairParts(job, Apply(job, iset{}, s, a[0]), a[1..], b, k, d, n);
    }
  }

  lemma PairReads(job: Job, replicas: nat, n: Node, k: Key, s: State, v: Value, events: seq<Event>)
    requires AddSetting(job, replicas, n, k, s, v)
    requires Runs(job, iset{}, s, events) && LeavesPair(job, s, events, k, OldPrimary(job, k), n.id)
    requires !Expired(s.stores[OldPrimary(job, k)][k], Exec(job, iset{}, s, events).clock)
    ensures var s1 := Exec(job, iset{}, s, events);
            && ReadAt(s1.stores, OldPrimary(job, k), k, s1.clock) == Some(v)
            && ReadAt(s1.stores, n.id, k, s1.clock) in {None, Some(v)}
  {
    var e, s1 := s.stores[OldPrimary(job, k)][k], Exec(job, iset{}, s, events);
    LookupInRing(job.previous, job.hash(k));
    PairRun(job, replicas, n, k, e, s, events);
    assert CopyAt(CopiesOf(s1.stores, k), OldPrimary(job, k)) == Some(e);
  }

  // A key held by its old primary is found by every get, in every state of
  // every run after the ring switch, whatever happens to the other nodes' copies
  // of it meanwhile.
  lemma AddReadsDespiteLateWrites(job: Job, replicas: nat, n: Node, k: Key, s: State, v: Value,
                                  early: seq<Event>, later: seq<Event>, up: set<NodeId>)
    requires AddSetting(job, replicas, n, k, s, v) && job.members <= up
    requires Runs(job, iset{}, s, early + later)
    requires LeavesPair(job, s, early + later, k, OldPrimary(job, k), n.id)
    requires !Expired(s.stores[OldPrimary(job, k)][k], Exec(job, iset{}, s, early + later).clock)
    ensures Runs(job, iset{}, s, early)
    ensures var s1, s2 := Exec(job, iset{}, s, early), Exec(job, iset{}, s, early + later);
            GetVia(Route(job.current, job.hash(k), up), k, s1.stores, s1.clock, true, s2.stores, s2.clock) == Some(v)
  {
    LeavesPairParts(job, s, early, later, k, OldPrimary(job, k), n.id);
    ExecConcat(job, iset{}, s, early, later);
    ClockOnlyGrows(job, iset{}, Exec(job, iset{}, s, early), later);
    PairReads(job, replicas, n, k, s, v, early);
    PairReads(job, replicas, n, k, s, v, early + later);
    LookupInRing(job.previous, job.hash(k));
    OwnersUnderAdd(job.previous, job.hash, replicas, n, job.hash(k));
  }
}
