// The background rebalance as a step system.  The ring has already switched;
// snapshots are collected node by node, a plan is made, and its tasks run in
// any order while time passes and other activity goes on.
module Rebalance {
  import opened Types
  import opened Ring
  import opened StoreSpec
  import opened Migration

  // What stays fixed during one rebalance that no other membership change
  // overlaps.
  datatype Job = Job(change: Change, hash: HashFn, previous: Vnodes, current: Vnodes,
                     members: set<NodeId>, alive: Key -> set<NodeId>)

  datatype Phase =
    | Collecting(snaps: Stores)
    | Migrating(plan: Planning, snaps: Stores, pending: set<Task>)

  datatype State = State(stores: Stores, clock: real, phase: Phase)

  datatype Event =
    | Tick(now: real)
    | Collect(node: NodeId, listed: Contents)
    | Plan(order: seq<NodeId>)
    | Fire(task: Task)
    | Other(stores: Stores)   // anything that leaves the watched keys alone

  ghost predicate SameCopies(s: Stores, t: Stores, k: Key) {
    s.Keys == t.Keys && CopiesOf(s, k) == CopiesOf(t, k)
  }

  ghost predicate Enabled(job: Job, watched: iset<Key>, s: State, e: Event) {
    match e
    case Tick(now) => s.clock <= now
    case Collect(n, listed) =>
      && s.phase.Collecting? && n in job.members && n in s.stores && n !in s.phase.snaps
      && PossibleListing(s.stores[n], listed, s.clock)
    case Plan(order) =>
      && s.phase.Collecting? && s.phase.snaps.Keys == job.members
      && forall n :: n in order <==> n in job.members
    case Fire(t) => s.phase.Migrating? && t in s.phase.pending && t.node in s.stores
    case Other(stores) => forall k | k in watched :: SameCopies(s.stores, stores, k)
  }

  ghost function PlanningOf(job: Job, order: seq<NodeId>, now: real): Planning {
    Planning(job.change, job.hash, job.previous, job.current, job.alive, job.members, order, now)
  }

  ghost function Apply(job: Job, watched: iset<Key>, s: State, e: Event): State
    requires Enabled(job, watched, s, e)
  {
    match e
    case Tick(now) => s.(clock := now)
    case Collect(n, listed) =>
      s.(stores := s.stores[n := listed], phase := Collecting(s.phase.snaps[n := listed]))
    case Plan(order) =>
      var plan := PlanningOf(job, order, s.clock);
      s.(phase := Migrating(plan, s.phase.snaps, PlannedTasks(plan, s.phase.snaps)))
    case Fire(t) =>
      s.(stores := ApplyTask(s.stores, t, s.clock), phase := s.phase.(pending := s.phase.pending - {t}))
    case Other(stores) => s.(stores := stores)
  }

  ghost predicate Runs(job: Job, watched: iset<Key>, s: State, events: seq<Event>)
    decreases events
  {
    events == [] ||
    (Enabled(job, watched, s, events[0]) && Runs(job, watched, Apply(job, watched, s, events[0]), events[1..]))
  }

  ghost function Exec(job: Job, watched: iset<Key>, s: State, events: seq<Event>): State
    requires Runs(job, watched, s, events)
    decreases events
  {
    if events == [] then s else Exec(job, watched, Apply(job, watched, s, events[0]), events[1..])
  }

  // The ring has switched and nothing else has happened.
  ghost predicate Switched(job: Job, s: State) {
    s.phase == Collecting(map[]) && job.members <= s.stores.Keys
  }

  // All copies of k are unexpired at a time.
  predicate LiveThrough(c: Copies, now: real) {
    forall n | n in c :: !Expired(c[n], now)
  }

  // All of the plan's work on k is done.
  ghost predicate Done(s: State, k: Key) {
    s.phase.Migrating? && forall t | t in s.phase.pending :: t.key != k
  }

  function MemberCopies(members: set<NodeId>, stores: Stores, k: Key): Copies {
    map n | n in members && n in stores && k in stores[n] :: stores[n][k]
  }

  // ---------------------------------------------------------------------
  // The invariant of one key.

  // A copy made of src by a task planned at some time and run by now.
  predicate MigratedFrom(src: Entry, planned: real, copy: Entry, now: real) {
    && copy.value == src.value
    && match src.expiresAt
       case None => copy.expiresAt.None?
       case Some(e) => copy.expiresAt.Some? && e <= copy.expiresAt.value <= e + (now - planned)
  }

  // What node n holds of k, given which tasks are still pending.
  ghost predicate CopyStatus(plan: Planning, k: Key, c0: Copies, pending: set<Task>, n: NodeId, copy: Option<Entry>,
                             now: real) {
    if n in PutTargets(plan, k, c0) then
      var src := Source(plan, k, c0).value;
      if PutTask(n, k, src.value, RemainingTtl(src, plan.now)) in pending then copy.None?
      else copy.Some? && MigratedFrom(src, plan.now, copy.value, now)
    else if n in DeleteTargets(plan, k, c0) then
      copy == if DeleteTask(n, k) in pending then CopyAt(c0, n) else None
    else
      copy == CopyAt(c0, n)
  }

  ghost predicate KeyInv(job: Job, k: Key, c0: Copies, s: State) {
    && job.members <= s.stores.Keys && c0.Keys <= job.members
    && match s.phase
       case Collecting(snaps) =>
         && snaps.Keys <= job.members
         && (forall n | n in job.members :: CopyAt(CopiesOf(s.stores, k), n) == CopyAt(c0, n))
         && (forall n | n in snaps :: CopyAt(CopiesOf(snaps, k), n) == CopyAt(c0, n))
       case Migrating(plan, snaps, pending) =>
         && plan == PlanningOf(job, plan.order, plan.now) && plan.now <= s.clock
         && (forall n :: n in plan.order <==> n in job.members)
         && (forall t | t in pending && t.key == k :: t in KeyTasks(plan, k, c0))
         && (forall n | n in job.members ::
              CopyStatus(plan, k, c0, pending, n, CopyAt(CopiesOf(s.stores, k), n), s.clock))
  }

  lemma CollectKeepsInv(job: Job, watched: iset<Key>, k: Key, c0: Copies, s: State, e: Event)
    requires KeyInv(job, k, c0, s) && Enabled(job, watched, s, e) && e.Collect?
    requires LiveThrough(c0, s.clock)
    ensures KeyInv(job, k, c0, Apply(job, watched, s, e))
  {
    var s' := Apply(job, watched, s, e);
    assert CopyAt(CopiesOf(s.stores, k), e.node) == CopyAt(c0, e.node);
    assert CopyAt(CopiesOf(s'.stores, k), e.node) == CopyAt(c0, e.node);
    forall n | n in job.members ensures CopyAt(CopiesOf(s'.stores, k), n) == CopyAt(c0, n) {
      assert CopyAt(CopiesOf(s.stores, k), n) == CopyAt(c0, n);
    }
    forall n | n in s'.phase.snaps ensures CopyAt(CopiesOf(s'.phase.snaps, k), n) == CopyAt(c0, n) {
      if n != e.node { assert CopyAt(CopiesOf(s.phase.snaps, k), n) == CopyAt(c0, n); }
    }
  }

  // Before any task has run every copy is as its status says.
  lemma FreshPlanStatus(plan: Planning, k: Key, c0: Copies, pending: set<Task>, n: NodeId, now: real)
    requires forall t: Task | t.key == k :: t in pending <==> t in KeyTasks(plan, k, c0)
    ensures CopyStatus(plan, k, c0, pending, n, CopyAt(c0, n), now)
  {
  }

  lemma PlanKeepsInv(job: Job, watched: iset<Key>, k: Key, c0: Copies, s: State, e: Event)
    requires KeyInv(job, k, c0, s) && Enabled(job, watched, s, e) && e.Plan?
    ensures KeyInv(job, k, c0, Apply(job, watched, s, e))
  {
    var plan := PlanningOf(job, e.order, s.clock);
    var snaps := s.phase.snaps;
    assert CopiesOf(snaps, k) == c0 by {
      assert forall n | n in snaps :: CopyAt(CopiesOf(snaps, k), n) == CopyAt(c0, n);
    }
    PlannedForKey(plan, snaps, k);
    forall n | n in job.members
      ensures CopyStatus(plan, k, c0, PlannedTasks(plan, snaps), n, CopyAt(CopiesOf(s.stores, k), n), s.clock)
    {
      FreshPlanStatus(plan, k, c0, PlannedTasks(plan, snaps), n, s.clock);
    }
  }

  // A task changes the copy of its own key at its own node only.
  lemma TaskIsLocal(stores: Stores, t: Task, now: real, k: Key, n: NodeId)
    requires t.node in stores && (t.node != n || t.key != k)
    ensures CopyAt(CopiesOf(ApplyTask(stores, t, now), k), n) == CopyAt(CopiesOf(stores, k), n)
  {
  }

  lemma FireAtNode(plan: Planning, k: Key, c0: Copies, pending: set<Task>, t: Task, stores: Stores, n: NodeId,
                   now: real)
    requires t in pending && t.node in stores && plan.now <= now
    requires t.key == k ==> t in KeyTasks(plan, k, c0)
    requires CopyStatus(plan, k, c0, pending, n, CopyAt(CopiesOf(stores, k), n), now)
    ensures CopyStatus(plan, k, c0, pending - {t}, n, CopyAt(CopiesOf(ApplyTask(stores, t, now), k), n), now)
  {
    if t.node != n || t.key != k {
      TaskIsLocal(stores, t, now, k, n);
    }
  }

  lemma FireKeepsInv(job: Job, watched: iset<Key>, k: Key, c0: Copies, s: State, e: Event)
    requires KeyInv(job, k, c0, s) && Enabled(job, watched, s, e) && e.Fire?
    ensures KeyInv(job, k, c0, Apply(job, watched, s, e))
  {
    forall n | n in job.members
      ensures CopyStatus(s.phase.plan, k, c0, s.phase.pending - {e.task}, n,
                         CopyAt(CopiesOf(ApplyTask(s.stores, e.task, s.clock), k), n), s.clock)
    {
      FireAtNode(s.phase.plan, k, c0, s.phase.pending, e.task, s.stores, n, s.clock);
    }
  }

  lemma QuietKeepsInv(job: Job, watched: iset<Key>, k: Key, c0: Copies, s: State, e: Event)
    requires KeyInv(job, k, c0, s) && Enabled(job, watched, s, e) && (e.Tick? || e.Other?)
    requires k in watched
    ensures KeyInv(job, k, c0, Apply(job, watched, s, e))
  {
    var s' := Apply(job, watched, s, e);
    assert SameCopies(s.stores, s'.stores, k);
    if s.phase.Migrating? {
      forall n | n in job.members
        ensures CopyStatus(s.phase.plan, k, c0, s.phase.pending, n, CopyAt(CopiesOf(s'.stores, k), n), s'.clock)
      {
        assert CopyStatus(s.phase.plan, k, c0, s.phase.pending, n, CopyAt(CopiesOf(s.stores, k), n), s.clock);
      }
    }
  }

  lemma {:induction false} ClockOnlyGrows(job: Job, watched: iset<Key>, s: State, events: seq<Event>)
    requires Runs(job, watched, s, events)
    ensures s.clock <= Exec(job, watched, s, events).clock
    decreases events
  {
    if events == [] {
    } else {
      ClockOnlyGrows(job, watched, Apply(job, watched, s, events[0]), events[1..]);
    }
  }

  lemma StepKeepsInv(job: Job, watched: iset<Key>, k: Key, c0: Copies, s: State, e: Event)
    requires KeyInv(job, k, c0, s) && Enabled(job, watched, s, e) && k in watched
    requires s.phase.Collecting? ==> LiveThrough(c0, s.clock)
    ensures KeyInv(job, k, c0, Apply(job, watched, s, e))
  {
    match e
    case Collect(_, _) => CollectKeepsInv(job, watched, k, c0, s, e);
    case Plan(_) => PlanKeepsInv(job, watched, k, c0, s, e);
    case Fire(_) => FireKeepsInv(job, watched, k, c0, s, e);
    case _ => QuietKeepsInv(job, watched, k, c0, s, e);
  }

  // Every run keeps the invariant, as long as no copy of k expires while
  // snapshots are being taken.
  lemma {:induction false} RunKeepsInv(job: Job, watched: iset<Key>, k: Key, c0: Copies, s: State, events: seq<Event>)
    requires Runs(job, watched, s, events) && k in watched
    requires KeyInv(job, k, c0, s)
    requires s.phase.Collecting? ==> LiveThrough(c0, Exec(job, watched, s, events).clock)
    ensures KeyInv(job, k, c0, Exec(job, watched, s, events))
    decreases events
  {
    if events == [] {
    } else {
      ClockOnlyGrows(job, watched, s, events);
      StepKeepsInv(job, watched, k, c0, s, events[0]);
      RunKeepsInv(job, watched, k, c0, Apply(job, watched, s, events[0]), events[1..]);
    }
  }

  // A rebalance touches the stores of members only: the copy a departed node
  // kept stays as it was.
  lemma {:induction false} OutsiderKeepsCopy(job: Job, watched: iset<Key>, k: Key, c0: Copies, s: State,
                                             events: seq<Event>, n: NodeId)
    requires Runs(job, watched, s, events) && k in watched && n !in job.members
    requires KeyInv(job, k, c0, s)
    requires s.phase.Collecting? ==> LiveThrough(c0, Exec(job, watched, s, events).clock)
    ensures CopyAt(CopiesOf(Exec(job, watched, s, events).stores, k), n) == CopyAt(CopiesOf(s.stores, k), n)
    decreases events
  {
    if events == [] {
    } else {
      var e, s' := events[0], Apply(job, watched, s, events[0]);
      ClockOnlyGrows(job, watched, s, events);
      StepKeepsInv(job, watched, k, c0, s, e);
      OutsiderUntouched(job, watched, k, c0, s, e, n);
      OutsiderKeepsCopy(job, watched, k, c0, s', events[1..], n);
    }
  }

  lemma OutsiderUntouched(job: Job, watched: iset<Key>, k: Key, c0: Copies, s: State, e: Event, n: NodeId)
    requires Enabled(job, watched, s, e) && k in watched && n !in job.members && KeyInv(job, k, c0, s)
    ensures CopyAt(CopiesOf(Apply(job, watched, s, e).stores, k), n) == CopyAt(CopiesOf(s.stores, k), n)
  {
    match e
    case Fire(t) => TaskIsLocal(s.stores, t, s.clock, k, n);
    case Other(stores) => assert SameCopies(s.stores, stores, k);
    case _ =>
  }

  lemma SwitchedHasInv(job: Job, k: Key, s: State)
    requires Switched(job, s)
    ensures KeyInv(job, k, MemberCopies(job.members, s.stores, k), s)
  {
  }

  lemma RunsCons(job: Job, watched: iset<Key>, s: State, e: Event, rest: seq<Event>)
    requires Enabled(job, watched, s, e) && Runs(job, watched, Apply(job, watched, s, e), rest)
    ensures Runs(job, watched, s, [e] + rest)
    ensures Exec(job, watched, s, [e] + rest) == Exec(job, watched, Apply(job, watched, s, e), rest)
  {
    assert ([e] + rest)[1..] == rest;
  }

  lemma {:induction false} ExecConcat(job: Job, watched: iset<Key>, s: State, a: seq<Event>, b: seq<Event>)
    requires Runs(job, watched, s, a + b)
    ensures Runs(job, watched, s, a)
    ensures Runs(job, watched, Exec(job, watched, s, a), b)
    ensures Exec(job, watched, s, a + b) == Exec(job, watched, Exec(job, watched, s, a), b)
    decreases a
  {
    if a == [] {
      assert a + b == b;
    } else {
      assert (a + b)[1..] == a[1..] + b;
      ExecConcat(job, watched, Apply(job, watched, s, a[0]), a[1..], b);
    }
  }

  // ---------------------------------------------------------------------
  // Every rebalance can finish: from any state in which snapshots are being
  // collected, steps of its own lead to one without pending tasks.

  ghost predicate Finished(s: State) {
    s.phase.Migrating? && s.phase.pending == {}
  }

  lemma {:induction false} RebalanceCanFinish(job: Job, watched: iset<Key>, s: State) returns (events: seq<Event>)
    requires s.phase.Collecting? && s.phase.snaps.Keys <= job.members <= s.stores.Keys
    ensures Runs(job, watched, s, events)
    ensures Finished(Exec(job, watched, s, events)) && Exec(job, watched, s, events).clock == s.clock
    decreases job.members - s.phase.snaps.Keys
  {
    if s.phase.snaps.Keys == job.members {
      var order := Enumeration(job.members);
      var s' := Apply(job, watched, s, Plan(order));
      PlannedForMembers(s'.phase.plan, s.phase.snaps);
      var rest := TasksCanFinish(job, watched, s');
      RunsCons(job, watched, s, Plan(order), rest);
      events := [Plan(order)] + rest;
    } else {
      var n :| n in job.members && n !in s.phase.snaps;
      var e := Collect(n, s.stores[n]);
      var s' := Apply(job, watched, s, e);
      assert s'.phase.snaps.Keys == s.phase.snaps.Keys + {n};
      assert n in job.members - s.phase.snaps.Keys && n !in job.members - s'.phase.snaps.Keys;
      var rest := RebalanceCanFinish(job, watched, s');
      RunsCons(job, watched, s, e, rest);
      events := [e] + rest;
    }
  }

  lemma {:induction false} TasksCanFinish(job: Job, watched: iset<Key>, s: State) returns (events: seq<Event>)
    requires s.phase.Migrating? && forall t | t in s.phase.pending :: t.node in s.stores
    ensures Runs(job, watched, s, events)
    ensures Finished(Exec(job, watched, s, events)) && Exec(job, watched, s, events).clock == s.clock
    decreases s.phase.pending
  {
    if s.phase.pending == {} {
      events := [];
    } else {
      var t :| t in s.phase.pending;
      var rest := TasksCanFinish(job, watched, Apply(job, watched, s, Fire(t)));
      RunsCons(job, watched, s, Fire(t), rest);
      events := [Fire(t)] + rest;
    }
  }

  lemma PlannedForMembers(p: Planning, snaps: Stores)
    ensures forall t | t in PlannedTasks(p, snaps) :: t.node in p.members
  {
    forall t | t in PlannedTasks(p, snaps) ensures t.node in p.members {
      PlannedForKey(p, snaps, t.key);
    }
  }

  lemma {:induction false} Enumeration(nodes: set<NodeId>) returns (order: seq<NodeId>)
    ensures forall n :: n in order <==> n in nodes
    decreases nodes
  {
    if nodes == {} {
      order := [];
    } else {
      var n :| n in nodes;
      var rest := Enumeration(nodes - {n});
      order := [n] + rest;
    }
  }
}
