// What each operation of the cluster front end does, on values: the stores'
// states, the heartbeats and the queued replica writes.
module Operations {
  import opened Types
  import opened Ring
  import opened StoreSpec
  import opened Routing
  import opened Migration
  import opened Guarantees
  import opened Planner
  import opened Replication
  import opened Transport

  datatype Response = Response(ok: bool, status: nat, value: Option<Value>, servedBy: Option<NodeId>)

  const NO_LIVE_NODES := Response(false, 503, None, None)
  const CONFLICT := Response(false, 409, None, None)
  const NOT_FOUND := Response(false, 404, None, None)

  // Every queued write goes to a node with a store.
  ghost predicate Deliverable(queue: seq<QueuedWrite>, nodes: set<NodeId>) {
    forall w | w in queue :: w.node in nodes
  }

  lemma DeliverableParts(queue: seq<QueuedWrite>, nodes: set<NodeId>, w: QueuedWrite)
    requires Deliverable(queue, nodes)
    ensures w.node in nodes ==> Deliverable(queue + [w], nodes)
    ensures queue != [] ==> Deliverable(queue[1..], nodes) && queue[0].node in nodes
  {
    assert queue != [] ==> queue[0] in queue && forall x | x in queue[1..] :: x in queue;
  }

  lemma OwnersAreServed(v: Vnodes, from: Position, members: set<NodeId>, first: set<NodeId>, second: set<NodeId>)
    requires forall p | p in v :: v[p].id in members
    ensures var r := RouteBetween(v, from, first, second);
            && (r.servedBy.Some? ==> r.servedBy.value.id in members)
            && (r.replica.Some? ==> r.replica.value.id in members)
  {
    OwnersAreOnTheRing(v, from);
  }

  // What a get's answer makes of a value found at a node.
  function Answer(found: Option<Value>, n: NodeId): Response {
    if found.Some? then Response(true, 200, found, Some(n)) else NOT_FOUND
  }

  // A get as two store gets, the second at the replica if the first missed.
  ghost predicate Answers(d: RoutingDecision, key: Key, replica: Option<NodeId>, now: real, later: real,
                          before: StoreStates, r: Response, after: StoreStates)
  {
    && d.servedBy.Some? && d.servedBy.value.id in before
    && var n := d.servedBy.value.id;
       var found, touched := GetSpec(before[n], key, now).1, AfterRead(before, n, key, now);
       if found.Some? then r == Answer(found, n) && after == touched
       else AnswersFromReplica(key, replica, later, touched, r, after)
  }

  ghost predicate AnswersFromReplica(key: Key, replica: Option<NodeId>, now: real,
                                     before: StoreStates, r: Response, after: StoreStates)
  {
    if replica.None? then r == NOT_FOUND && after == before
    else
      && replica.value in before
      && r == Answer(GetSpec(before[replica.value], key, now).1, replica.value)
      && after == AfterRead(before, replica.value, key, now)
  }

  // Its value is what both copies, as they were before the get, call for.
  lemma AnswersAsGetVia(d: RoutingDecision, key: Key, alive: set<NodeId>, now: real, later: real,
                        before: StoreStates, r: Response, after: StoreStates)
    requires Answers(d, key, ReplicaOf(d, alive), now, later, before, r, after)
    ensures r.value == GetVia(d, key, EntriesOf(before), now,
                              d.replica.Some? && d.replica.value.id in alive, EntriesOf(before), later)
  {
  }

  // A delete at the serving node n and then at the replica.
  ghost predicate Deletes(key: Key, n: NodeId, replica: Option<NodeId>,
                          before: StoreStates, r: Response, after: StoreStates)
  {
    && n in before
    && var first := before[n := DeleteSpec(before[n], key)];
       if key !in before[n].entries then r == NOT_FOUND && after == first
       else r == Response(true, 200, None, Some(n)) && DeletesAtReplica(key, replica, first, after)
  }

  ghost predicate DeletesAtReplica(key: Key, replica: Option<NodeId>, before: StoreStates, after: StoreStates) {
    if replica.None? then after == before
    else replica.value in before && after == before[replica.value := DeleteSpec(before[replica.value], key)]
  }

  // A put of the key would evict nothing.
  ghost predicate HasRoom(states: StoreStates, sizes: map<NodeId, nat>, n: NodeId, k: Key) {
    n in states && n in sizes && (k in states[n].entries || |states[n].order| < sizes[n])
  }

  // All stores after a task; without a store it fails.
  ghost function AfterTask(states: StoreStates, sizes: map<NodeId, nat>, t: Task, now: real): StoreStates
    requires states.Keys <= sizes.Keys
  {
    if t.node !in states then states
    else
      states[t.node := match t
                       case PutTask(n, k, v, ttl) => PutSpec(states[n], sizes[n], k, v, ttl, now)
                       case DeleteTask(n, k) => DeleteSpec(states[n], k)]
  }

  // The oldest queued write reaches its node.
  ghost predicate Drains(v: Vnodes, hash: HashFn, s: ReplState, s': ReplState) {
    && OnlyMembers(v, s.stores.Keys) && (forall w | w in s.queue :: w.node in s.stores)
    && s' == Replication.Step(v, hash, s, Drain)
  }

  // What a put queues for its replica.
  function QueuedFor(replica: Option<NodeId>, key: Key, value: Value, ttl: Option<real>): seq<QueuedWrite> {
    if replica.Some? then [QueuedWrite(replica.value, key, value, ttl)] else []
  }

  // The heartbeat of the node that served does not decide about the replica.
  lemma OthersStayAlive(d: RoutingDecision, beats: Heartbeats, timeout: real, beat: real, now: real)
    requires d.servedBy.Some?
    ensures ReplicaOf(d, AliveAt(beats[d.servedBy.value.id := beat], timeout, now)) ==
         ReplicaOf(d, AliveAt(beats, timeout, now))
  {
  }

  // What a read does to the store it looks at: a hit touches the key, an
  // expired entry is dropped.
  function AfterRead(states: StoreStates, n: NodeId, key: Key, now: real): StoreStates
    requires n in states
  {
    states[n := GetSpec(states[n], key, now).0]
  }

  type SnapshotStep = (NodeId, StoreState) -> StoreState

  // What taking a node's snapshot does to its store: items listed, then entries.
  function ListTwice(items: NodeId -> nat -> real, entries: NodeId -> nat -> real): SnapshotStep {
    (n: NodeId, s: StoreState) => ListingSpec(ListingSpec(s, items(n)), entries(n))
  }

  // All stores when the snapshots of some nodes have been taken.
  function Snapshotted(before: StoreStates, nodes: set<NodeId>, step: SnapshotStep): StoreStates {
    map n | n in before :: if n in nodes then step(n, before[n]) else before[n]
  }

  function SnapshotsOf(stores: StoreStates, nodes: set<NodeId>): Stores {
    map n | n in nodes && n in stores :: stores[n].entries
  }

  // The first i nodes are done.
  ghost predicate Collected(before: StoreStates, step: SnapshotStep, all: seq<Node>, i: nat,
                            order: seq<NodeId>, snaps: Stores, stores: StoreStates) {
    && i == |order| <= |all| && (forall j | 0 <= j < i :: order[j] == all[j].id)
    && Lists(order, snaps)
    && stores == Snapshotted(before, snaps.Keys, step)
    && snaps == SnapshotsOf(stores, snaps.Keys)
  }

  lemma NothingCollected(before: StoreStates, step: SnapshotStep, all: seq<Node>)
    ensures Collected(before, step, all, 0, [], map[], before)
  {
    assert Snapshotted(before, {}, step) == before;
  }

  // Nodes with stores, each once.
  ghost predicate Enumerates(all: seq<Node>, states: StoreStates) {
    && (forall i | 0 <= i < |all| :: all[i].id in states)
    && forall i, j | 0 <= i < j < |all| :: all[i].id != all[j].id
  }

  lemma OneMoreCollected(before: StoreStates, step: SnapshotStep, all: seq<Node>, i: nat,
                         order: seq<NodeId>, snaps: Stores, stores: StoreStates)
    requires Collected(before, step, all, i, order, snaps, stores) && i < |all| && Enumerates(all, before)
    ensures all[i].id in stores
    ensures var n := all[i].id;
            var after := step(n, stores[n]);
            Collected(before, step, all, i + 1, order + [n], snaps[n := after.entries], stores[n := after])
  {
    var n := all[i].id;
    assert n !in order;
    assert forall x :: x in order + [n] <==> x in order || x == n;
    var next := stores[n := step(n, stores[n])];
    var snaps' := snaps[n := step(n, stores[n]).entries];
    assert snaps'.Keys == snaps.Keys + {n};
    assert next == Snapshotted(before, snaps'.Keys, step);
    assert snaps' == SnapshotsOf(next, snaps'.Keys);
  }

  ghost predicate CoversMembers(all: seq<Node>, members: map<NodeId, Node>) {
    && (forall i | 0 <= i < |all| :: all[i].id in members)
    && forall id | id in members :: members[id].id == id && members[id] in all
  }

  lemma AllCollected(before: StoreStates, step: SnapshotStep, all: seq<Node>, members: map<NodeId, Node>,
                     order: seq<NodeId>, snaps: Stores, stores: StoreStates)
    requires Collected(before, step, all, |all|, order, snaps, stores) && CoversMembers(all, members)
    ensures Lists(order, snaps) && snaps.Keys == members.Keys
    ensures stores == Snapshotted(before, members.Keys, step) && snaps == SnapshotsOf(stores, members.Keys)
  {
    forall id | id in members ensures id in snaps {
      var j :| 0 <= j < |all| && all[j] == members[id];
      assert order[j] == id && id in order;
    }
    forall id | id in snaps ensures id in members {
      assert id in order;
      var j :| 0 <= j < |order| && order[j] == id;
      assert all[j].id == id;
    }
  }

  // A snapshot of n that ends by a time is a collect step of a rebalance then.
  ghost predicate Collects(before: Stores, n: NodeId, listed: Contents,
                           items: NodeId -> nat -> real, entries: NodeId -> nat -> real, after: Stores)
    requires n in before
  {
    && after == before[n := listed]
    && forall now | EndsBy(n, items, entries, now) :: PossibleListing(before[n], listed, now)
  }

  ghost predicate EndsBy(n: NodeId, items: NodeId -> nat -> real, entries: NodeId -> nat -> real, now: real) {
    forall i: nat :: items(n)(i) <= now && entries(n)(i) <= now
  }

  lemma SnapshotCollects(states: StoreStates, sizes: map<NodeId, nat>, n: NodeId,
                         items: NodeId -> nat -> real, entries: NodeId -> nat -> real)
    requires AllValid(states, sizes) && n in states
    ensures var after := ListTwice(items, entries)(n, states[n]);
            Collects(EntriesOf(states), n, after.entries, items, entries, EntriesOf(states[n := after]))
  {
    var after := ListTwice(items, entries)(n, states[n]);
    EntriesAfterUpdate(states, n, after);
    forall now | EndsBy(n, items, entries, now) ensures PossibleListing(states[n].entries, after.entries, now) {
      SnapshotIsCollect(n, states[n], sizes[n], items, entries, now);
    }
  }

  // What a put may change.
  datatype Visible = Visible(states: StoreStates, beats: Heartbeats, queue: seq<QueuedWrite>)

  // The part of it the replication theorems are about.
  function ReplicasOf(seen: Visible, now: real): ReplState {
    ReplState(EntriesOf(seen.states), seen.queue, now)
  }

  // A put with this routing decision: 503 and no change, or the primary's store
  // written, its heartbeat recorded, and the replica's write queued if alive.
  ghost predicate Puts(d: RoutingDecision, alive: set<NodeId>, key: Key, value: Value, ttl: Option<real>,
                       clock: nat -> real, sizes: map<NodeId, nat>, before: Visible, r: Response, after: Visible)
  {
    if d.servedBy.None? then r == NO_LIVE_NODES && after == before
    else
      var n := d.servedBy.value.id;
      && r == Response(true, 200, None, Some(n))
      && n in before.states && n in sizes
      && after.states == before.states[n := PutSpec(before.states[n], sizes[n], key, value, ttl, clock(3))]
      && after.beats == before.beats[n := clock(4)]
      && after.queue == before.queue + QueuedFor(ReplicaOf(d, alive), key, value, ttl)
  }

  // Everyone is alive at a put's looks and the primary has room.
  ghost predicate PutReady(v: Vnodes, hash: HashFn, timeout: real, clock: nat -> real, sizes: map<NodeId, nat>,
                           key: Key, before: Visible)
  {
    var beats, states := before.beats, before.states;
    && v != map[] && OnlyMembers(v, beats.Keys) && beats.Keys <= states.Keys && AllValid(states, sizes)
    && Deliverable(before.queue, states.Keys) && HasRoom(states, sizes, Lookup(v, hash(key)).value.id, key)
    && forall i | i in {0, 1, 5} :: beats.Keys <= AliveAt(beats, timeout, clock(i))
  }

  // A put as the replication theorems see it.
  ghost predicate Writes(v: Vnodes, hash: HashFn, s: ReplState, key: Key, value: Value, ttl: Option<real>,
                         s': ReplState)
  {
    && OnlyMembers(v, s.stores.Keys) && (forall w | w in s.queue :: w.node in s.stores)
    && s' == Replication.Step(v, hash, s, ClientPut(key, value, ttl))
  }

  // While the size limit is not hit, running a task on the stores is ApplyTask
  // on their entries: the step the rebalance theorems speak of.
  lemma RunTaskIsApplyTask(states: StoreStates, sizes: map<NodeId, nat>, t: Task, now: real)
    requires states.Keys <= sizes.Keys && AllValid(states, sizes) && t.node in states
    requires t.DeleteTask? || HasRoom(states, sizes, t.node, t.key)
    ensures EntriesOf(AfterTask(states, sizes, t, now)) == ApplyTask(EntriesOf(states), t, now)
  {
    if t.PutTask? {
      ApplyPutIsStorePut(states[t.node], sizes[t.node], t.key, t.value, t.ttl, now);
    }
  }

  // With every member alive and room in the primary's store, Put is a step of
  // the replication theorems.
  lemma PutIsReplicationStep(v: Vnodes, hash: HashFn, alive: set<NodeId>, states: StoreStates, sizes: map<NodeId, nat>,
                             queue: seq<QueuedWrite>, key: Key, value: Value, ttl: Option<real>, now: real)
    requires v != map[] && OnlyMembers(v, alive) && alive <= states.Keys && AllValid(states, sizes)
    requires Deliverable(queue, states.Keys) && HasRoom(states, sizes, Lookup(v, hash(key)).value.id, key)
    ensures var d := Route(v, hash(key), alive);
            && d.servedBy.Some? && d.servedBy.value.id in states
            && var n := d.servedBy.value.id;
               ReplState(EntriesOf(states[n := PutSpec(states[n], sizes[n], key, value, ttl, now)]),
                         queue + QueuedFor(ReplicaOf(d, alive), key, value, ttl), now)
               == Replication.Step(v, hash, ReplState(EntriesOf(states), queue, now), ClientPut(key, value, ttl))
  {
    OwnersAreOnTheRing(v, hash(key));
    OwnersAreMembers(v, alive, hash(key));
    var o := OwnersOf(v, hash(key));
    assert o.primary.value.id in Ids(o) && (o.replica.Some? ==> o.replica.value.id in Ids(o));
    var n := o.primary.value.id;
    ApplyPutIsStorePut(states[n], sizes[n], key, value, ttl, now);
    EntriesAfterUpdate(states, n, PutSpec(states[n], sizes[n], key, value, ttl, now));
  }

  // So is what Put does, with liveness read from heartbeats.
  lemma PutWrites(v: Vnodes, hash: HashFn, timeout: real, clock: nat -> real, sizes: map<NodeId, nat>,
                  key: Key, value: Value, ttl: Option<real>, before: Visible, r: Response, after: Visible)
    requires PutReady(v, hash, timeout, clock, sizes, key, before)
    requires var beats := before.beats;
             Puts(RouteBetween(v, hash(key), AliveAt(beats, timeout, clock(0)), AliveAt(beats, timeout, clock(1))),
                  AliveAt(beats, timeout, clock(5)), key, value, ttl, clock, sizes, before, r, after)
    ensures Writes(v, hash, ReplicasOf(before, clock(3)), key, value, ttl, ReplicasOf(after, clock(3)))
  {
    var beats := before.beats;
    assert forall i | i in {0, 1, 5} :: AliveAt(beats, timeout, clock(i)) == beats.Keys;
    PutIsReplicationStep(v, hash, beats.Keys, before.states, sizes, before.queue, key, value, ttl, clock(3));
  }

  // And running the oldest queued write is another.
  lemma ReplicateIsReplicationStep(v: Vnodes, hash: HashFn, states: StoreStates, sizes: map<NodeId, nat>,
                                   queue: seq<QueuedWrite>, now: real)
    requires OnlyMembers(v, states.Keys) && AllValid(states, sizes) && Deliverable(queue, states.Keys)
    requires queue != [] && HasRoom(states, sizes, queue[0].node, queue[0].key)
    ensures var w := queue[0];
            Drains(v, hash, ReplState(EntriesOf(states), queue, now),
                   ReplState(EntriesOf(states[w.node :=
                     PutSpec(states[w.node], sizes[w.node], w.key, w.value, w.ttl, now)]), queue[1..], now))
  {
    var w := queue[0];
    ApplyPutIsStorePut(states[w.node], sizes[w.node], w.key, w.value, w.ttl, now);
    EntriesAfterUpdate(states, w.node, PutSpec(states[w.node], sizes[w.node], w.key, w.value, w.ttl, now));
  }

  lemma EntriesAfterUpdate(stores: StoreStates, n: NodeId, s: StoreState)
    ensures EntriesOf(stores[n := s]) == EntriesOf(stores)[n := s.entries]
  {
  }

  // A node snapshot that ends by a time is a collect step of the rebalance.
  lemma SnapshotIsCollect(n: NodeId, s: StoreState, max: nat, items: NodeId -> nat -> real,
                          entries: NodeId -> nat -> real, now: real)
    requires ValidStore(s, max)
    requires forall i: nat :: items(n)(i) <= now && entries(n)(i) <= now
    ensures PossibleListing(s.entries, ListTwice(items, entries)(n, s).entries, now)
  {
    ListingKeepsValid(s, max, items(n));
    ListingIsPossible(s, max, items(n), now);
    ListingIsPossible(ListingSpec(s, items(n)), max, entries(n), now);
  }
}
