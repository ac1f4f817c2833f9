// Where copies end up: the outcome of a plan is the same for every order of its
// tasks, and membership changes keep every key at exactly its owners.
module Placement {
  import opened Types
  import opened Ring
  import opened StoreSpec
  import opened Migration
  import opened Rebalance
  import opened Guarantees

  // ---------------------------------------------------------------------
  // Outcome of a plan.

  // The plan has just been made from snapshots that still match the stores on k.
  ghost predicate JustPlanned(job: Job, k: Key, s: State) {
    && s.phase.Migrating? && job.members <= s.stores.Keys
    && s.phase.plan == PlanningOf(job, s.phase.plan.order, s.clock)
    && (forall n :: n in s.phase.plan.order <==> n in job.members)
    && s.phase.pending == PlannedTasks(s.phase.plan, s.phase.snaps)
    && CopiesOf(s.phase.snaps, k) == MemberCopies(job.members, s.stores, k)
  }

  lemma JustPlannedHasInv(job: Job, k: Key, s: State)
    requires JustPlanned(job, k, s)
    ensures KeyInv(job, k, MemberCopies(job.members, s.stores, k), s)
  {
    var plan, c0 := s.phase.plan, MemberCopies(job.members, s.stores, k);
    PlannedForKey(plan, s.phase.snaps, k);
    forall n | n in job.members
      ensures CopyStatus(plan, k, c0, s.phase.pending, n, CopyAt(CopiesOf(s.stores, k), n), s.clock)
    {
      FreshPlanStatus(plan, k, c0, s.phase.pending, n, s.clock);
    }
  }

  // What node n holds of k once a plan for copies c0 is carried out.
  ghost predicate Outcome(plan: Planning, k: Key, c0: Copies, n: NodeId, copy: Option<Entry>, now: real) {
    if n in PutTargets(plan, k, c0) then
      copy.Some? && MigratedFrom(Source(plan, k, c0).value, plan.now, copy.value, now)
    else if n in DeleteTargets(plan, k, c0) then copy.None?
    else copy == CopyAt(c0, n)
  }

  lemma DoneHasOutcome(job: Job, k: Key, c0: Copies, s: State, n: NodeId)
    requires KeyInv(job, k, c0, s) && Done(s, k) && n in job.members
    ensures Outcome(s.phase.plan, k, c0, n, CopyAt(CopiesOf(s.stores, k), n), s.clock)
  {
    assert CopyStatus(s.phase.plan, k, c0, s.phase.pending, n, CopyAt(CopiesOf(s.stores, k), n), s.clock);
  }

  lemma {:induction false} PlanIsFixed(job: Job, watched: iset<Key>, s: State, events: seq<Event>)
    requires Runs(job, watched, s, events) && s.phase.Migrating?
    ensures Exec(job, watched, s, events).phase.Migrating?
    ensures Exec(job, watched, s, events).phase.plan == s.phase.plan
    decreases events
  {
    if events == [] {
    } else {
      PlanIsFixed(job, watched, Apply(job, watched, s, events[0]), events[1..]);
    }
  }

  lemma PlanOutcome(job: Job, watched: iset<Key>, k: Key, s: State, events: seq<Event>, n: NodeId)
    requires JustPlanned(job, k, s) && n in job.members && k in watched
    requires Runs(job, watched, s, events) && Done(Exec(job, watched, s, events), k)
    ensures var s1 := Exec(job, watched, s, events);
            Outcome(s.phase.plan, k, MemberCopies(job.members, s.stores, k),
                    n, CopyAt(CopiesOf(s1.stores, k), n), s1.clock)
  {
    JustPlannedHasInv(job, k, s);
    RunKeepsInv(job, watched, k, MemberCopies(job.members, s.stores, k), s, events);
    PlanIsFixed(job, watched, s, events);
    DoneHasOutcome(job, k, MemberCopies(job.members, s.stores, k), Exec(job, watched, s, events), n);
  }

  // Two executions of a plan, in whatever orders, leave the same nodes with
  // copies of k and the same values in them; expiries differ by no more than
  // the time the slower execution took.
  lemma Confluence(job: Job, k: Key, s: State, a: seq<Event>, b: seq<Event>, n: NodeId)
    requires JustPlanned(job, k, s) && n in job.members
    requires Runs(job, iset{k}, s, a) && Done(Exec(job, iset{k}, s, a), k)
    requires Runs(job, iset{k}, s, b) && Done(Exec(job, iset{k}, s, b), k)
    ensures var sa, sb := Exec(job, iset{k}, s, a), Exec(job, iset{k}, s, b);
            var x, y := CopyAt(CopiesOf(sa.stores, k), n), CopyAt(CopiesOf(sb.stores, k), n);
            && (x.Some? <==> y.Some?)
            && (x.Some? ==> x.value.value == y.value.value && (x.value.expiresAt.Some? <==> y.value.expiresAt.Some?))
            && (x.Some? && x.value.expiresAt.Some? ==>
                  x.value.expiresAt.value - y.value.expiresAt.value <= sa.clock - s.clock)
  {
    PlanOutcome(job, iset{k}, k, s, a, n);
    PlanOutcome(job, iset{k}, k, s, b, n);
    ClockOnlyGrows(job, iset{k}, s, a);
  }

  // A node that had a copy has its value, a new holder the source's.
  ghost predicate ValueKept(plan: Planning, k: Key, c0: Copies, n: NodeId, v: Value) {
    if n in c0 then v == c0[n].value else Source(plan, k, c0).Some? && v == Source(plan, k, c0).value.value
  }

  // A moved key ends up at exactly its new owners, the new ones with the
  // source's value; a key that is not moved, its owners unchanged or its source
  // expired, is not touched.
  lemma ExactPlacement(job: Job, watched: iset<Key>, k: Key, s: State, events: seq<Event>)
    requires JustPlanned(job, k, s) && OnlyMembers(job.current, job.members) && k in watched
    requires Runs(job, watched, s, events) && Done(Exec(job, watched, s, events), k)
    ensures var c0 := MemberCopies(job.members, s.stores, k);
            var c1 := MemberCopies(job.members, Exec(job, watched, s, events).stores, k);
            var plan := s.phase.plan;
            && (Moves(plan, k, c0) ==> c1.Keys == OwnerIds(job.current, job.hash(k)))
            && (forall n | n in c1 :: ValueKept(plan, k, c0, n, c1[n].value))
            && (!Moves(plan, k, c0) ==> c1 == c0)
  {
    JustPlannedHasInv(job, k, s);
    RunKeepsInv(job, watched, k, MemberCopies(job.members, s.stores, k), s, events);
    PlanIsFixed(job, watched, s, events);
    PlacedWhenDone(job, k, MemberCopies(job.members, s.stores, k), Exec(job, watched, s, events));
  }

  lemma PlacedWhenDone(job: Job, k: Key, c0: Copies, s: State)
    requires KeyInv(job, k, c0, s) && Done(s, k) && OnlyMembers(job.current, job.members)
    ensures var c1, plan := MemberCopies(job.members, s.stores, k), s.phase.plan;
            && (Moves(plan, k, c0) ==> c1.Keys == OwnerIds(job.current, job.hash(k)))
            && (forall n | n in c1 :: ValueKept(plan, k, c0, n, c1[n].value))
            && (!Moves(plan, k, c0) ==> c1 == c0)
  {
    var c1, plan := MemberCopies(job.members, s.stores, k), s.phase.plan;
    OwnersAreMembers(job.current, job.members, job.hash(k));
    forall n | n in job.members
      ensures Moves(plan, k, c0) ==> (n in c1 <==> n in OwnerIds(job.current, job.hash(k)))
      ensures n in c1 ==> ValueKept(plan, k, c0, n, c1[n].value)
      ensures !Moves(plan, k, c0) ==> CopyAt(c1, n) == CopyAt(c0, n)
    {
      DoneHasOutcome(job, k, c0, s, n);
      assert CopyAt(CopiesOf(s.stores, k), n) == CopyAt(c1, n);
    }
    if !Moves(plan, k, c0) {
      SameCopiesAt(job.members, c0, c1);
    }
  }

  lemma SameCopiesAt(nodes: set<NodeId>, c: Copies, d: Copies)
    requires c.Keys <= nodes && d.Keys <= nodes && forall n | n in nodes :: CopyAt(c, n) == CopyAt(d, n)
    ensures c == d
  {
    assert forall n | n in nodes :: (n in c <==> CopyAt(c, n).Some?) && (n in d <==> CopyAt(d, n).Some?);
  }

  // ---------------------------------------------------------------------
  // Expiry over chains of rebalances.

  // One run of a plan's tasks, and a node that gets a copy by it.
  datatype MigrationRun = MigrationRun(job: Job, start: State, events: seq<Event>, node: NodeId, end: State)

  // The run makes `copy` out of the plan's source `src`.
  ghost predicate Carries(m: MigrationRun, k: Key, src: Entry, copy: Entry) {
    && JustPlanned(m.job, k, m.start) && Runs(m.job, iset{k}, m.start, m.events)
    && var c0 := MemberCopies(m.job.members, m.start.stores, k);
       && m.node in PutTargets(m.start.phase.plan, k, c0) && Source(m.start.phase.plan, k, c0) == Some(src)
       && m.end == Exec(m.job, iset{k}, m.start, m.events)
       && CopyAt(CopiesOf(m.end.stores, k), m.node) == Some(copy)
  }

  // What a run carries is one hop: a put planned at the start and stored before
  // the run's last clock reading.
  lemma CarriesIsHop(m: MigrationRun, k: Key, src: Entry, copy: Entry) returns (hop: Hop)
    requires Carries(m, k, src, copy)
    ensures Migrates(src, hop, copy) && hop.stored - hop.planned <= m.end.clock - m.start.clock
  {
    CarriedCopy(m, k, src, copy);
    hop := Hop(m.start.clock, if src.expiresAt.None? then m.start.clock
                              else m.start.clock + (copy.expiresAt.value - src.expiresAt.value));
  }

  lemma CarriedCopy(m: MigrationRun, k: Key, src: Entry, copy: Entry)
    requires Carries(m, k, src, copy)
    ensures m.start.clock <= m.end.clock && !Expired(src, m.start.clock)
    ensures MigratedFrom(src, m.start.clock, copy, m.end.clock)
  {
    var c0 := MemberCopies(m.job.members, m.start.stores, k);
    var s1 := Exec(m.job, iset{k}, m.start, m.events);
    JustPlannedHasInv(m.job, k, m.start);
    RunKeepsInv(m.job, iset{k}, k, c0, m.start, m.events);
    PlanIsFixed(m.job, iset{k}, m.start, m.events);
    ClockOnlyGrows(m.job, iset{k}, m.start, m.events);
    assert CopyStatus(s1.phase.plan, k, c0, s1.phase.pending, m.node, CopyAt(CopiesOf(s1.stores, k), m.node), s1.clock);
  }

  // Same value, expiring later by d.
  predicate Drifted(src: Entry, copy: Entry, d: real) {
    && copy.value == src.value
    && copy.expiresAt == if src.expiresAt.None? then None else Some(src.expiresAt.value + d)
  }

  // So the copy has the source's value and expires later by no more than the run took.
  lemma ExpiryOverOneRun(m: MigrationRun, k: Key, src: Entry, copy: Entry) returns (drift: real)
    requires Carries(m, k, src, copy)
    ensures 0.0 <= drift <= m.end.clock - m.start.clock && Drifted(src, copy, drift)
  {
    var hop := CarriesIsHop(m, k, src, copy);
    drift := hop.stored - hop.planned;
  }

  // A chain of rebalances, each migrating the copy the one before made.
  datatype Chain = Origin(entry: Entry) | Then(before: Chain, run: MigrationRun, entry: Entry)

  function First(c: Chain): Entry {
    if c.Origin? then c.entry else First(c.before)
  }

  ghost predicate CarriedAlong(k: Key, c: Chain) {
    c.Then? ==> Carries(c.run, k, c.before.entry, c.entry) && CarriedAlong(k, c.before)
  }

  // How long the runs took together.
  function TotalElapsed(c: Chain): real {
    if c.Origin? then 0.0 else TotalElapsed(c.before) + (c.run.end.clock - c.run.start.clock)
  }

  // Each link drifts by no more than its run took.
  ghost predicate DriftsWithin(c: Chain) {
    c.Then? ==>
      && DriftsWithin(c.before)
      && exists d: real :: 0.0 <= d <= c.run.end.clock - c.run.start.clock && Drifted(c.before.entry, c.entry, d)
  }

  lemma {:induction false} CarriedLinksDrift(k: Key, c: Chain)
    requires CarriedAlong(k, c)
    ensures DriftsWithin(c)
  {
    if c.Origin? {
    } else {
      CarriedLinksDrift(k, c.before);
      var d := ExpiryOverOneRun(c.run, k, c.before.entry, c.entry);
    }
  }

  lemma {:induction false} TotalDrift(c: Chain) returns (drift: real)
    requires DriftsWithin(c)
    ensures 0.0 <= drift <= TotalElapsed(c) && Drifted(First(c), c.entry, drift)
  {
    drift := 0.0;
    if c.Origin? {
    } else {
      var earlier := TotalDrift(c.before);
      var d: real :| 0.0 <= d <= c.run.end.clock - c.run.start.clock && Drifted(c.before.entry, c.entry, d);
      drift := earlier + d;
    }
  }

  // Over any chain of rebalances the value stays and the expiry drifts later by
  // at most the time the runs took, and never earlier.
  lemma {:induction false} ExpiryOverRuns(k: Key, c: Chain) returns (drift: real)
    requires CarriedAlong(k, c)
    ensures 0.0 <= drift <= TotalElapsed(c) && Drifted(First(c), c.entry, drift)
  {
    CarriedLinksDrift(k, c);
    drift := TotalDrift(c);
  }

  // ---------------------------------------------------------------------
  // Placement as an invariant of whole histories.

  predicate Agree(c: Copies) {
    forall a, b | a in c && b in c :: c[a].value == c[b].value
  }

  // Nowhere, or at exactly the owners with equal values.
  ghost predicate PlacedAt(owners: set<NodeId>, c: Copies) {
    c == map[] || (c.Keys == owners && Agree(c))
  }

  // Every stored key is held by exactly its owners, with equal values.
  ghost predicate WellPlaced(hash: HashFn, v: Vnodes, members: set<NodeId>, stores: Stores) {
    forall k :: PlacedAt(OwnerIds(v, hash(k)), MemberCopies(members, stores, k))
  }

  ghost const ALL_KEYS: iset<Key> := iset k: Key | true

  // A rebalance run from start to finish, with nothing else going on.
  ghost predicate Completed(job: Job, s: State, events: seq<Event>) {
    && Switched(job, s) && Runs(job, ALL_KEYS, s, events)
    && Exec(job, ALL_KEYS, s, events).phase.Migrating? && Exec(job, ALL_KEYS, s, events).phase.pending == {}
    && forall k: Key :: LiveThrough(MemberCopies(job.members, s.stores, k), Exec(job, ALL_KEYS, s, events).clock)
  }

  ghost function Final(job: Job, s: State, events: seq<Event>): Stores
    requires Completed(job, s, events)
  {
    Exec(job, ALL_KEYS, s, events).stores
  }

  // The copies a key starts with let a rebalance place it: if its owners change,
  // those that have copies already agree, also with the source if another owner
  // gets one; otherwise the key is in place from the start.
  ghost predicate LetsPlace(p: Planning, k: Key, c: Copies) {
    var owners := OwnerIds(p.current, p.hash(k));
    if OwnersChange(p, k) && c != map[] then
      && (forall a, b | a in owners && b in owners && a in c && b in c :: c[a].value == c[b].value)
      && (owners <= c.Keys || forall a | a in owners && a in c :: Some(c[a].value) == ValueOf(Source(p, k, c)))
    else PlacedAt(owners, c)
  }

  function ValueOf(e: Option<Entry>): Option<Value> {
    if e.None? then None else Some(e.value.value)
  }

  // A completed rebalance puts a key in place exactly when they do, whatever
  // the order of its tasks.
  lemma RebalancePlacesKeyIff(job: Job, s: State, events: seq<Event>, k: Key)
    requires Completed(job, s, events) && OnlyMembers(job.current, job.members)
    ensures PlacedAt(OwnerIds(job.current, job.hash(k)), MemberCopies(job.members, Final(job, s, events), k))
       <==> LetsPlace(Exec(job, ALL_KEYS, s, events).phase.plan, k, MemberCopies(job.members, s.stores, k))
  {
    var c0, s1 := MemberCopies(job.members, s.stores, k), Exec(job, ALL_KEYS, s, events);
    SwitchedHasInv(job, k, s);
    RunKeepsInv(job, ALL_KEYS, k, c0, s, events);
    PlacedWhenDone(job, k, c0, s1);
    UnexpiredMoves(job, k, c0, s1);
    MovedIsPlacedIff(s1.phase.plan, k, c0, MemberCopies(job.members, s1.stores, k));
  }

  // A copied key whose owners change is moved.
  lemma UnexpiredMoves(job: Job, k: Key, c0: Copies, s: State)
    requires KeyInv(job, k, c0, s) && s.phase.Migrating? && LiveThrough(c0, s.clock)
    ensures Moves(s.phase.plan, k, c0) <==> OwnersChange(s.phase.plan, k) && c0 != map[]
  {
    SourceIsACopy(s.phase.plan, k, c0);
    if c0 != map[] {
      SourceExists(s.phase.plan, k, c0);
    }
  }

  lemma MovedIsPlacedIff(p: Planning, k: Key, c0: Copies, c1: Copies)
    requires Moves(p, k, c0) <==> OwnersChange(p, k) && c0 != map[]
    requires Moves(p, k, c0) ==> c1.Keys == OwnerIds(p.current, p.hash(k))
    requires forall n | n in c1 :: ValueKept(p, k, c0, n, c1[n].value)
    requires !Moves(p, k, c0) ==> c1 == c0
    ensures PlacedAt(OwnerIds(p.current, p.hash(k)), c1) <==> LetsPlace(p, k, c0)
  {
    var owners := OwnerIds(p.current, p.hash(k));
    if Moves(p, k, c0) {
      assert owners != {} by { OwnersAreOnTheRing(p.current, p.hash(k)); }
      if LetsPlace(p, k, c0) {
        forall a, b | a in c1 && b in c1 ensures c1[a].value == c1[b].value {
          assert ValueKept(p, k, c0, a, c1[a].value) && ValueKept(p, k, c0, b, c1[b].value);
        }
      }
      if Agree(c1) {
        assert forall a | a in owners && a in c0 :: ValueKept(p, k, c0, a, c1[a].value);
        if b :| b in owners && b !in c0 {
          assert ValueKept(p, k, c0, b, c1[b].value);
        }
      }
    }
  }

  // Copies at exactly the surviving old owners do.
  lemma RebalancePlacesKey(job: Job, s: State, events: seq<Event>, k: Key)
    requires Completed(job, s, events) && OnlyMembers(job.current, job.members)
    requires var c := MemberCopies(job.members, s.stores, k);
             c != map[] ==> c.Keys == OwnerIds(job.previous, job.hash(k)) * job.members
                              && Agree(c) && job.current != map[]
    ensures PlacedAt(OwnerIds(job.current, job.hash(k)), MemberCopies(job.members, Final(job, s, events), k))
  {
    RebalancePlacesKeyIff(job, s, events, k);
    SwitchedHasInv(job, k, s);
    RunKeepsInv(job, ALL_KEYS, k, MemberCopies(job.members, s.stores, k), s, events);
    OldOwnersLetPlace(Exec(job, ALL_KEYS, s, events).phase.plan, k, MemberCopies(job.members, s.stores, k));
  }

  lemma OldOwnersLetPlace(p: Planning, k: Key, c: Copies)
    requires OnlyMembers(p.current, p.members) && forall n | n in c :: n in p.order
    requires c != map[] ==> c.Keys == OwnerIds(p.previous, p.hash(k)) * p.members && Agree(c) && p.current != map[]
    ensures LetsPlace(p, k, c)
  {
    OwnersAreMembers(p.current, p.members, p.hash(k));
    SourceIsACopy(p, k, c);
    if c != map[] {
      SourceExists(p, k, c);
    }
  }

  // On a well-placed cluster a rebalance for its own ring has nothing to do.
  lemma NothingLeftToMove(p: Planning, stores: Stores)
    requires WellPlaced(p.hash, p.current, p.members, stores) && OnlyMembers(p.current, p.members)
    ensures PlannedTasks(p, map n | n in p.members && n in stores :: stores[n]) == {}
  {
    var snaps: Stores := map n | n in p.members && n in stores :: stores[n];
    forall k ensures KeyTasks(p, k, CopiesOf(snaps, k)) == {} {
      var c := MemberCopies(p.members, stores, k);
      assert CopiesOf(snaps, k) == c;
      SourceIsACopy(p, k, c);
    }
  }

  // The whole cluster between operations.
  datatype World = World(ring: Vnodes, members: set<NodeId>, stores: Stores)

  datatype Happening =
    | ClientPut(key: Key, entry: Entry)                       // with its replica write drained
    | ClientDelete(key: Key)
    | Joined(node: Node, filled: Contents, alive: Key -> set<NodeId>, now: real, events: seq<Event>)
    | Left(id: NodeId, alive: Key -> set<NodeId>, now: real, events: seq<Event>)

  function JoinJob(w: World, hash: HashFn, replicas: nat, n: Node, alive: Key -> set<NodeId>): Job {
    Job(NodeAdded, hash, w.ring, WithNode(w.ring, hash, replicas, n), w.members + {n.id}, alive)
  }

  // The newcomer may bring a filled store.
  function JoinStart(w: World, n: Node, filled: Contents, now: real): State {
    State(w.stores[n.id := filled], now, Collecting(map[]))
  }

  function LeaveJob(w: World, hash: HashFn, id: NodeId, alive: Key -> set<NodeId>): Job {
    Job(NodeRemoved, hash, w.ring, Without(w.ring, id), w.members - {id}, alive)
  }

  ghost predicate Follows(hash: HashFn, replicas: nat, w: World, h: Happening, w': World) {
    match h
    case ClientPut(k, e) =>
      var owners := OwnerIds(w.ring, hash(k));
      w' == w.(stores := map n | n in w.stores :: if n in owners then w.stores[n][k := e] else w.stores[n])
    case ClientDelete(k) =>
      var owners := OwnerIds(w.ring, hash(k));
      w' == w.(stores := map n | n in w.stores :: if n in owners then w.stores[n] - {k} else w.stores[n])
    case Joined(n, filled, alive, now, events) =>
      var job, start := JoinJob(w, hash, replicas, n, alive), JoinStart(w, n, filled, now);
      n.id !in w.members && Completed(job, start, events)
      && w' == World(job.current, job.members, Final(job, start, events))
    case Left(id, alive, now, events) =>
      var job := LeaveJob(w, hash, id, alive);
      var start := State(w.stores, now, Collecting(map[]));
      id in w.members && Completed(job, start, events)
      && w' == World(job.current, job.members, Final(job, start, events))
  }

  ghost predicate Sound(hash: HashFn, w: World) {
    && OnlyMembers(w.ring, w.members) && w.members <= w.stores.Keys
    && WellPlaced(hash, w.ring, w.members, w.stores)
  }

  // What a newcomer may bring for a key: nothing, or a copy of a key it joins
  // the owners of, or leads to new owners, without contradicting another copy.
  ghost predicate JoinFits(w: World, hash: HashFn, replicas: nat, n: Node, filled: Contents, k: Key) {
    k in filled ==>
      var before, after := OwnerIds(w.ring, hash(k)), OwnerIds(WithNode(w.ring, hash, replicas, n), hash(k));
      var c := MemberCopies(w.members, w.stores, k);
      && before != after
      && (n.id !in after || after == {n.id} || forall m | m in c :: c[m].value == filled[k].value)
  }

  // A join with its completed rebalance leaves a key in place exactly if so.
  lemma JoinPlacesKeyIff(hash: HashFn, replicas: nat, w: World, n: Node, filled: Contents,
                         alive: Key -> set<NodeId>, now: real, events: seq<Event>, k: Key)
    requires Sound(hash, w) && n.id !in w.members
    requires Completed(JoinJob(w, hash, replicas, n, alive), JoinStart(w, n, filled, now), events)
    ensures var job, s := JoinJob(w, hash, replicas, n, alive), JoinStart(w, n, filled, now);
            PlacedAt(OwnerIds(job.current, hash(k)), MemberCopies(job.members, Final(job, s, events), k))
            <==> JoinFits(w, hash, replicas, n, filled, k)
  {
    var job, s := JoinJob(w, hash, replicas, n, alive), JoinStart(w, n, filled, now);
    JoinedMembersOnly(w, hash, replicas, n);
    RebalancePlacesKeyIff(job, s, events, k);
    PlanOfRun(job, s, events, k);
    JoinStartCopies(w, n, filled, now, k);
    JoinLetsPlaceIff(hash, replicas, w, n, filled, Exec(job, ALL_KEYS, s, events).phase.plan, k);
  }

  lemma JoinedMembersOnly(w: World, hash: HashFn, replicas: nat, n: Node)
    requires OnlyMembers(w.ring, w.members)
    ensures OnlyMembers(WithNode(w.ring, hash, replicas, n), w.members + {n.id})
  {
  }

  lemma PlanOfRun(job: Job, s: State, events: seq<Event>, k: Key)
    requires Completed(job, s, events)
    ensures var plan := Exec(job, ALL_KEYS, s, events).phase.plan;
            plan == PlanningOf(job, plan.order, plan.now) && forall n :: n in plan.order <==> n in job.members
  {
    SwitchedHasInv(job, k, s);
    RunKeepsInv(job, ALL_KEYS, k, MemberCopies(job.members, s.stores, k), s, events);
  }

  // What the start of a join looks like for one key.
  function WithFilled(c: Copies, n: NodeId, filled: Contents, k: Key): Copies {
    if k in filled then c[n := filled[k]] else c
  }

  lemma JoinLetsPlaceIff(hash: HashFn, replicas: nat, w: World, n: Node, filled: Contents, p: Planning, k: Key)
    requires Sound(hash, w) && n.id !in w.members
    requires p == PlanningOf(JoinJob(w, hash, replicas, n, p.alive), p.order, p.now)
    requires forall m :: m in p.order <==> m in p.members
    ensures LetsPlace(p, k, WithFilled(MemberCopies(w.members, w.stores, k), n.id, filled, k))
       <==> JoinFits(w, hash, replicas, n, filled, k)
  {
    var c := MemberCopies(w.members, w.stores, k);
    JoinedMembersOnly(w, hash, replicas, n);
    OwnersAreMembers(w.ring, w.members, hash(k));
    assert PlacedAt(OwnerIds(w.ring, hash(k)), c);
    if k in filled {
      FirstJoinOwners(w, hash, replicas, n, hash(k));
      FilledJoinFitsIff(p, k, c, n.id, filled[k]);
    } else {
      OldOwnersLetPlace(p, k, c);
    }
  }

  // The first node to join is the only owner, if it has vnodes.
  lemma FirstJoinOwners(w: World, hash: HashFn, replicas: nat, n: Node, from: Position)
    ensures var current := WithNode(w.ring, hash, replicas, n);
            && (w.ring == map[] ==> OwnerIds(current, from) <= {n.id})
            && (current == map[] ==> w.ring == map[])
  {
    var current := WithNode(w.ring, hash, replicas, n);
    if w.ring == map[] {
      OwnersAreMembers(current, {n.id}, from);
    } else {
      var p :| p in w.ring;
      assert p in current;
    }
  }

  // So a join keeps every key in place exactly when all the newcomer brings fits.
  lemma JoinRestoresPlacement(hash: HashFn, replicas: nat, w: World, n: Node, filled: Contents,
                              alive: Key -> set<NodeId>, now: real, events: seq<Event>)
    requires Sound(hash, w) && n.id !in w.members
    requires Completed(JoinJob(w, hash, replicas, n, alive), JoinStart(w, n, filled, now), events)
    ensures var job, s := JoinJob(w, hash, replicas, n, alive), JoinStart(w, n, filled, now);
            Sound(hash, World(job.current, job.members, Final(job, s, events)))
            <==> forall k :: JoinFits(w, hash, replicas, n, filled, k)
  {
    var job, s := JoinJob(w, hash, replicas, n, alive), JoinStart(w, n, filled, now);
    ExecKeepsNodes(job, ALL_KEYS, "", s, events);
    JoinedMembersOnly(w, hash, replicas, n);
    var after := Final(job, s, events);
    forall k
      ensures PlacedAt(OwnerIds(job.current, hash(k)), MemberCopies(job.members, after, k))
         <==> JoinFits(w, hash, replicas, n, filled, k)
    {
      JoinPlacesKeyIff(hash, replicas, w, n, filled, alive, now, events, k);
    }
    assert WellPlaced(hash, job.current, job.members, after) <==> forall k :: JoinFits(w, hash, replicas, n, filled, k);
  }

  lemma JoinStartCopies(w: World, n: Node, filled: Contents, now: real, k: Key)
    requires n.id !in w.members
    ensures var c := MemberCopies(w.members, w.stores, k);
            MemberCopies(w.members + {n.id}, JoinStart(w, n, filled, now).stores, k) == WithFilled(c, n.id, filled, k)
  {
  }

  // The plan made when one more node, with a copy, joins the holders c.
  ghost predicate FilledJoin(p: Planning, k: Key, c: Copies, n: NodeId) {
    && p.change == NodeAdded && n !in c && (forall m | m in c :: m in p.order) && n in p.order
    && n !in OwnerIds(p.previous, p.hash(k)) && PlacedAt(OwnerIds(p.previous, p.hash(k)), c)
    && (p.previous == map[] ==> c == map[] && OwnerIds(p.current, p.hash(k)) <= {n})
    && (p.current == map[] ==> p.previous == map[])
  }

  lemma FilledJoinFitsIff(p: Planning, k: Key, c: Copies, n: NodeId, e: Entry)
    requires FilledJoin(p, k, c, n)
    ensures var before, after := OwnerIds(p.previous, p.hash(k)), OwnerIds(p.current, p.hash(k));
            LetsPlace(p, k, c[n := e]) <==>
              before != after && (n !in after || after == {n} || forall m | m in c :: c[m].value == e.value)
  {
    if !OwnersChange(p, k) {
      UnmovedFilled(p, k, c, n, e);
    } else if c != map[] {
      HeldFilled(p, k, c, n, e);
    } else {
      SourceIsACopy(p, k, c[n := e]);
      SourceExists(p, k, c[n := e]);
    }
  }

  // A key held before is migrated from an old owner's copy, not the newcomer's.
  lemma HeldKeySource(p: Planning, k: Key, c: Copies, n: NodeId, e: Entry)
    requires FilledJoin(p, k, c, n) && c != map[]
    ensures Source(p, k, c[n := e]).Some?
    ensures forall m | m in c :: Some(c[m].value) == ValueOf(Source(p, k, c[n := e]))
  {
    OwnersAreOnTheRing(p.previous, p.hash(k));
    var o := OwnersOf(p.previous, p.hash(k));
    var m := SourceNode(o, p.alive(k)).value.id;
    assert m in Ids(o) && m in c;
  }

  lemma HeldFilled(p: Planning, k: Key, c: Copies, n: NodeId, e: Entry)
    requires FilledJoin(p, k, c, n) && OwnersChange(p, k) && c != map[]
    ensures var after := OwnerIds(p.current, p.hash(k));
            LetsPlace(p, k, c[n := e]) <==> n !in after || after == {n} || forall m | m in c :: c[m].value == e.value
  {
    HeldKeySource(p, k, c, n, e);
    var m :| m in c;
    AgreeWithOneMore(c, n, e, OwnerIds(p.current, p.hash(k)), c[m].value);
  }

  // Copies with value v and one more: those at some nodes agree, also with v if
  // not all the nodes have one, unless the new one is there with another value.
  lemma AgreeWithOneMore(c: Copies, n: NodeId, e: Entry, nodes: set<NodeId>, v: Value)
    requires n !in c && forall m | m in c :: c[m].value == v
    ensures var c0 := c[n := e];
            && (forall a, b | a in nodes && b in nodes && a in c0 && b in c0 :: c0[a].value == c0[b].value)
            && (nodes <= c0.Keys || forall a | a in nodes && a in c0 :: c0[a].value == v)
            <==> n !in nodes || nodes == {n} || e.value == v
  {
    var c0 := c[n := e];
    if n in nodes && nodes != {n} && nodes <= c0.Keys {
      var a :| a in nodes && a != n;
      assert a in c;
    }
  }

  lemma UnmovedFilled(p: Planning, k: Key, c: Copies, n: NodeId, e: Entry)
    requires FilledJoin(p, k, c, n) && !OwnersChange(p, k)
    ensures var before, after := OwnerIds(p.previous, p.hash(k)), OwnerIds(p.current, p.hash(k));
            PlacedAt(after, c[n := e]) <==> before != after
  {
    assert n in c[n := e];
    if p.previous == map[] {
      assert c[n := e].Keys == {n};
    }
  }

  lemma LeaveRestoresPlacement(hash: HashFn, w: World, id: NodeId, alive: Key -> set<NodeId>, now: real,
                               events: seq<Event>)
    requires Sound(hash, w)
    requires Completed(LeaveJob(w, hash, id, alive), State(w.stores, now, Collecting(map[])), events)
    ensures var job := LeaveJob(w, hash, id, alive);
            Sound(hash, World(job.current, job.members, Final(job, State(w.stores, now, Collecting(map[])), events)))
  {
    var job, s := LeaveJob(w, hash, id, alive), State(w.stores, now, Collecting(map[]));
    ExecKeepsNodes(job, ALL_KEYS, "", s, events);
    forall k ensures PlacedAt(OwnerIds(job.current, hash(k)), MemberCopies(job.members, Final(job, s, events), k)) {
      LeaveStart(w, hash, id, alive, k);
      RebalancePlacesKey(job, s, events, k);
    }
  }

  lemma LeaveStart(w: World, hash: HashFn, id: NodeId, alive: Key -> set<NodeId>, k: Key)
    requires Sound(hash, w)
    ensures var job, c := LeaveJob(w, hash, id, alive), MemberCopies(w.members - {id}, w.stores, k);
            c != map[] ==> c.Keys == OwnerIds(w.ring, hash(k)) * job.members && Agree(c) && job.current != map[]
  {
    var before, c := MemberCopies(w.members, w.stores, k), MemberCopies(w.members - {id}, w.stores, k);
    assert forall n :: n in c <==> n in before && n != id;
    OwnersAreOnTheRing(w.ring, hash(k));
    if n :| n in c {
      assert n in before && n in OwnerIds(w.ring, hash(k));
      assert !Fresh(w.ring, n);
      var p :| p in w.ring && w.ring[p].id == n;
      assert p in Without(w.ring, id);
    }
  }

  lemma {:induction false} ExecKeepsNodes(job: Job, watched: iset<Key>, k: Key, s: State, events: seq<Event>)
    requires Runs(job, watched, s, events)
    requires k in watched
    ensures Exec(job, watched, s, events).stores.Keys == s.stores.Keys
    decreases events
  {
    if events == [] {
    } else {
      var s' := Apply(job, watched, s, events[0]);
      assert events[0].Other? ==> SameCopies(s.stores, s'.stores, k);
      ExecKeepsNodes(job, watched, k, s', events[1..]);
    }
  }

  lemma ClientWriteKeepsPlacement(hash: HashFn, replicas: nat, w: World, h: Happening, w': World)
    requires Sound(hash, w) && Follows(hash, replicas, w, h, w') && (h.ClientPut? || h.ClientDelete?)
    ensures Sound(hash, w')
  {
    forall k ensures PlacedAt(OwnerIds(w.ring, hash(k)), MemberCopies(w.members, w'.stores, k)) {
      if k != h.key {
        OtherKeyIsUntouched(hash, replicas, w, h, w', k);
      } else {
        WrittenKeyIsPlaced(hash, replicas, w, h, w');
      }
    }
  }

  lemma OtherKeyIsUntouched(hash: HashFn, replicas: nat, w: World, h: Happening, w': World, k: Key)
    requires Follows(hash, replicas, w, h, w') && (h.ClientPut? || h.ClientDelete?) && k != h.key
    ensures MemberCopies(w.members, w'.stores, k) == MemberCopies(w.members, w.stores, k)
  {
  }

  lemma WrittenKeyIsPlaced(hash: HashFn, replicas: nat, w: World, h: Happening, w': World)
    requires Sound(hash, w) && Follows(hash, replicas, w, h, w') && (h.ClientPut? || h.ClientDelete?)
    ensures PlacedAt(OwnerIds(w.ring, hash(h.key)), MemberCopies(w.members, w'.stores, h.key))
  {
    var owners := OwnerIds(w.ring, hash(h.key));
    var c, c' := MemberCopies(w.members, w.stores, h.key), MemberCopies(w.members, w'.stores, h.key);
    OwnersAreMembers(w.ring, w.members, hash(h.key));
    assert c == map[] || c.Keys == owners;
    if h.ClientPut? {
      assert forall n | n in owners :: n in c' && c'[n] == h.entry;
      assert forall n | n in c' && n !in owners :: n in c;
      assert c'.Keys == owners;
    } else {
      assert forall n | n in c' :: n in c && n !in owners;
    }
  }

  // Every store a node brought fitted.
  ghost predicate JoinsFit(hash: HashFn, replicas: nat, worlds: seq<World>, history: seq<Happening>)
    requires |worlds| == |history| + 1
  {
    forall i, k | 0 <= i < |history| && history[i].Joined? ::
      JoinFits(worlds[i], hash, replicas, history[i].node, history[i].filled, k)
  }

  // Starting from an empty cluster, any history of client writes, joins and
  // departures, each join or departure with its rebalance completed, keeps
  // every key at exactly its owners with one value.
  lemma {:induction false} PlacementOverHistory(hash: HashFn, replicas: nat, worlds: seq<World>,
                                                history: seq<Happening>)
    requires |worlds| == |history| + 1 && worlds[0] == World(map[], {}, map[])
    requires forall i | 0 <= i < |history| :: Follows(hash, replicas, worlds[i], history[i], worlds[i + 1])
    requires JoinsFit(hash, replicas, worlds, history)
    ensures Sound(hash, worlds[|history|])
  {
    if history == [] {
    } else {
      var i := |history| - 1;
      PlacementOverHistory(hash, replicas, worlds[..i + 1], history[..i]);
      assert worlds[..i + 1][i] == worlds[i];
      HappeningKeepsSound(hash, replicas, worlds[i], history[i], worlds[i + 1]);
    }
  }

  lemma HappeningKeepsSound(hash: HashFn, replicas: nat, w: World, h: Happening, w': World)
    requires Sound(hash, w) && Follows(hash, replicas, w, h, w')
    requires h.Joined? ==> forall k :: JoinFits(w, hash, replicas, h.node, h.filled, k)
    ensures Sound(hash, w')
  {
    match h {
      case Joined(n, filled, alive, now, events) =>
        JoinRestoresPlacement(hash, replicas, w, n, filled, alive, now, events);
      case Left(id, alive, now, events) => LeaveRestoresPlacement(hash, w, id, alive, now, events);
      case _ => ClientWriteKeepsPlacement(hash, replicas, w, h, w');
    }
  }
}
