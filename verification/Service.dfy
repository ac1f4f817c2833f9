// The cluster front end: client operations, membership changes, and the pieces
// of background work, each a method that runs without interruption.
module Service {
  import opened Types
  import opened Ring
  import opened StoreSpec
  import opened HashRing
  import opened Routing
  import opened Manager
  import opened Migration
  import opened Guarantees
  import opened Planner
  import opened Replication
  import opened Transport
  import opened Operations
  import opened Cache
  import Steps = Rebalance

  class DistributedCacheCluster {
    const manager: ClusterManager
    const transport: InProcessTransport
    var pendingWrites: seq<QueuedWrite>

    // Every member has a store, and so has every target of a queued write.
    ghost predicate Core()
      reads this, manager, manager.ring, transport
    {
      && manager.Valid()
      && manager.nodes.Keys <= transport.states.Keys
      && Deliverable(pendingWrites, transport.states.Keys)
    }

    ghost predicate Valid()
      reads this, manager, manager.ring, transport, transport.runtimes.Values
    {
      Core() && transport.Valid()
    }

    ghost function AliveNow(now: real): set<NodeId>
      reads manager
    {
      AliveAt(manager.lastHeartbeat, manager.timeout, now)
    }

    ghost function Seen(): Visible
      reads this, transport, manager
    {
      Visible(transport.states, manager.lastHeartbeat, pendingWrites)
    }

    // The routing decision an operation takes at its first two clock readings.
    ghost function Decision(key: Key, clock: nat -> real): RoutingDecision
      reads manager, manager.ring
    {
      RouteBetween(manager.ring.vnodes, manager.ring.hash(key), AliveNow(clock(0)), AliveNow(clock(1)))
    }

    // Who is asked first, in terms of the ring, the heartbeats and the timeout.
    lemma DecisionMeans(key: Key, clock: nat -> real)
      ensures var d, v, beats := Decision(key, clock), manager.ring.vnodes, manager.lastHeartbeat;
              && d.primary == Lookup(v, manager.ring.hash(key))
              && d.replica == (if d.primary.None? then None
                               else Lookup(Without(v, d.primary.value.id), manager.ring.hash(key)))
              && d.servedBy ==
                   if d.primary.Some? && d.primary.value.id in beats
                      && clock(0) <= beats[d.primary.value.id] + manager.timeout then
                     if clock(1) <= beats[d.primary.value.id] + manager.timeout then d.primary else None
                   else if d.replica.Some? && d.replica.value.id in beats
                           && clock(1) <= beats[d.replica.value.id] + manager.timeout then d.replica
                   else None
      ensures forall id, now :: id in AliveNow(now) <==>
                                  id in manager.lastHeartbeat && now <= manager.lastHeartbeat[id] + manager.timeout
    {
    }

    constructor (manager: ClusterManager, transport: InProcessTransport)
      requires manager.Valid() && transport.Valid() && manager.nodes.Keys <= transport.states.Keys
      ensures Valid() && this.manager == manager && this.transport == transport && pendingWrites == []
    {
      this.manager, this.transport, pendingWrites := manager, transport, [];
    }

    ghost predicate AmongMembers(d: RoutingDecision)
      reads manager
    {
      && (d.servedBy.Some? ==> d.servedBy.value.id in manager.nodes)
      && (d.replica.Some? ==> d.replica.value.id in manager.nodes)
    }

    method RouteTo(key: Key, clock: nat -> real) returns (d: RoutingDecision)
      requires Core() && Nondecreasing(clock)
      ensures d == Decision(key, clock)
      ensures AmongMembers(d)
    {
      d := manager.RouteForKey(key, clock);
      OwnersAreServed(manager.ring.vnodes, manager.ring.hash(key), manager.nodes.Keys,
                      AliveNow(clock(0)), AliveNow(clock(1)));
    }

    // The transport calls, seen from the cluster.
    method PutAt(n: NodeId, key: Key, value: Value, ttl: Option<real>, now: real)
      requires Valid() && n in transport.states
      modifies transport`states, transport.runtimes.Values
      ensures Valid()
      ensures transport.states == old(transport.states)[n :=
                PutSpec(old(transport.states)[n], transport.sizes[n], key, value, ttl, now)]
    {
      ghost var nodes := transport.states.Keys;
      transport.Put(n, key, value, ttl, now);
      assert transport.states.Keys == nodes && manager.Valid();
    }

    method GetAt(n: NodeId, key: Key, now: real) returns (value: Option<Value>)
      requires Valid() && n in transport.states
      modifies transport`states, transport.runtimes.Values
      ensures Valid()
      ensures value == GetSpec(old(transport.states)[n], key, now).1
      ensures transport.states == AfterRead(old(transport.states), n, key, now)
    {
      ghost var nodes := transport.states.Keys;
      value := transport.Get(n, key, now);
      assert transport.states.Keys == nodes && manager.Valid();
    }

    method DeleteAt(n: NodeId, key: Key) returns (deleted: bool)
      requires Valid() && n in transport.states
      modifies transport`states, transport.runtimes.Values
      ensures Valid()
      ensures deleted <==> key in old(transport.states)[n].entries
      ensures transport.states == old(transport.states)[n := DeleteSpec(old(transport.states)[n], key)]
    {
      ghost var nodes := transport.states.Keys;
      deleted := transport.Delete(n, key);
      assert transport.states.Keys == nodes && manager.Valid();
    }

    method SnapshotAt(n: NodeId, items: NodeId -> nat -> real, entries: NodeId -> nat -> real)
      returns (listed: Contents)
      requires Valid() && n in transport.states
      modifies transport`states, transport.runtimes.Values
      ensures Valid()
      ensures transport.states == old(transport.states)[n := ListTwice(items, entries)(n, old(transport.states)[n])]
      ensures listed == transport.states[n].entries
      ensures Collects(EntriesOf(old(transport.states)), n, listed, items, entries, EntriesOf(transport.states))
    {
      ghost var nodes := transport.states.Keys;
      SnapshotCollects(transport.states, transport.sizes, n, items, entries);
      listed := transport.Snapshot(n, items(n), entries(n));
      assert transport.states.Keys == nodes && manager.Valid();
    }

    method Beat(n: NodeId, now: real)
      requires Core() && n in manager.nodes
      modifies manager`lastHeartbeat
      ensures Core()
      ensures manager.lastHeartbeat == old(manager.lastHeartbeat)[n := now]
    {
      manager.RecordHeartbeat(n, now);
    }

    // The primary write happens now, the replica write is queued.  With everyone
    // alive and room in the primary's store, that is the put step of the
    // replication theorems.
    method Put(key: Key, value: Value, ttl: Option<real>, clock: nat -> real) returns (r: Response)
      requires Valid() && Nondecreasing(clock)
      modifies `pendingWrites, transport`states, transport.runtimes.Values, manager`lastHeartbeat
      ensures Valid()
      ensures Puts(old(Decision(key, clock)), old(AliveNow(clock(5))), key, value, ttl, clock, transport.sizes,
                   old(Seen()), r, Seen())
      ensures PutReady(manager.ring.vnodes, manager.ring.hash, manager.timeout, clock, transport.sizes,
                       key, old(Seen())) ==>
                Writes(manager.ring.vnodes, manager.ring.hash, ReplicasOf(old(Seen()), clock(3)), key, value, ttl,
                       ReplicasOf(Seen(), clock(3)))
    {
      ghost var before := Seen();
      r := RouteAndPut(key, value, ttl, clock);
      ghost var v, hash, timeout, sizes := manager.ring.vnodes, manager.ring.hash, manager.timeout, transport.sizes;
      if PutReady(v, hash, timeout, clock, sizes, key, before) {
        PutWrites(v, hash, timeout, clock, sizes, key, value, ttl, before, r, Seen());
      }
    }

    // With a node on the ring, everyone heard from and room at the primary, a
    // put is such a step.
    lemma ReadyToPut(key: Key, clock: nat -> real)
      requires Valid() && manager.ring.vnodes != map[]
      requires forall i | i in {0, 1, 5} :: manager.nodes.Keys <= AliveNow(clock(i))
      requires HasRoom(transport.states, transport.sizes,
                       Lookup(manager.ring.vnodes, manager.ring.hash(key)).value.id, key)
      ensures PutReady(manager.ring.vnodes, manager.ring.hash, manager.timeout, clock, transport.sizes, key, Seen())
    {
    }

    method RouteAndPut(key: Key, value: Value, ttl: Option<real>, clock: nat -> real) returns (r: Response)
      requires Valid() && Nondecreasing(clock)
      modifies `pendingWrites, transport`states, transport.runtimes.Values, manager`lastHeartbeat
      ensures Valid()
      ensures Puts(old(Decision(key, clock)), old(AliveNow(clock(5))), key, value, ttl, clock, transport.sizes,
                   old(Seen()), r, Seen())
    {
      var d := RouteTo(key, clock);
      if d.servedBy.None? {
        return NO_LIVE_NODES;
      }
      r := PutRouted(d, key, value, ttl, clock);
    }

    method PutRouted(d: RoutingDecision, key: Key, value: Value, ttl: Option<real>, clock: nat -> real)
      returns (r: Response)
      requires Valid() && AmongMembers(d) && d.servedBy.Some?
      modifies `pendingWrites, transport`states, transport.runtimes.Values, manager`lastHeartbeat
      ensures Valid()
      ensures Puts(d, old(AliveNow(clock(5))), key, value, ttl, clock, transport.sizes, old(Seen()), r, Seen())
    {
      var n := d.servedBy.value.id;
      OthersStayAlive(d, manager.lastHeartbeat, manager.timeout, clock(4), clock(5));
      WritePrimary(n, key, value, ttl, clock(3), clock(4));
      QueueReplicaWrite(d, key, value, ttl, clock(5));
      return Response(true, 200, None, Some(n));
    }

    method WritePrimary(n: NodeId, key: Key, value: Value, ttl: Option<real>, now: real, later: real)
      requires Valid() && n in manager.nodes
      modifies transport`states, transport.runtimes.Values, manager`lastHeartbeat
      ensures Valid()
      ensures transport.states == old(transport.states)[n :=
                PutSpec(old(transport.states)[n], transport.sizes[n], key, value, ttl, now)]
      ensures manager.lastHeartbeat == old(manager.lastHeartbeat)[n := later]
    {
      PutAt(n, key, value, ttl, now);
      Beat(n, later);
    }

    // The replica half of a put: a background write, if the replica looks alive.
    method QueueReplicaWrite(d: RoutingDecision, key: Key, value: Value, ttl: Option<real>, now: real)
      requires Core() && AmongMembers(d) && d.servedBy.Some?
      modifies `pendingWrites
      ensures Core()
      ensures pendingWrites == old(pendingWrites) + QueuedFor(ReplicaOf(d, AliveNow(now)), key, value, ttl)
    {
      if d.replica.Some? && d.replica.value.id != d.servedBy.value.id && manager.IsAlive(d.replica.value.id, now) {
        DeliverableParts(pendingWrites, transport.states.Keys, QueuedWrite(d.replica.value.id, key, value, ttl));
        pendingWrites := pendingWrites + [QueuedWrite(d.replica.value.id, key, value, ttl)];
      }
    }

    // The background loop runs the oldest queued write.  With room in the store
    // that is the drain step of the replication theorems.
    method ReplicateNext(now: real)
      requires Valid() && pendingWrites != []
      modifies `pendingWrites, transport`states, transport.runtimes.Values
      ensures Valid()
      ensures var w := old(pendingWrites)[0];
              && w.node in old(transport.states)
              && pendingWrites == old(pendingWrites)[1..]
              && transport.states == old(transport.states)[w.node :=
                   PutSpec(old(transport.states)[w.node], transport.sizes[w.node], w.key, w.value, w.ttl, now)]
      ensures var w, states := old(pendingWrites)[0], old(transport.states);
              HasRoom(states, transport.sizes, w.node, w.key) ==>
                Drains(manager.ring.vnodes, manager.ring.hash, ReplState(EntriesOf(states), old(pendingWrites), now),
                       ReplState(EntriesOf(transport.states), pendingWrites, now))
    {
      var w := pendingWrites[0];
      ghost var states, queue := transport.states, pendingWrites;
      TakeOldest();
      PutAt(w.node, w.key, w.value, w.ttl, now);
      if HasRoom(states, transport.sizes, w.node, w.key) {
        ReplicateIsReplicationStep(manager.ring.vnodes, manager.ring.hash, states, transport.sizes, queue, now);
      }
    }

    method TakeOldest()
      requires Core() && pendingWrites != []
      modifies `pendingWrites
      ensures Core()
      ensures pendingWrites == old(pendingWrites)[1..] && old(pendingWrites)[0].node in transport.states
    {
      DeliverableParts(pendingWrites, transport.states.Keys, pendingWrites[0]);
      pendingWrites := pendingWrites[1..];
    }

    // The answer is what GetVia says of the stores the get started from.  A hit
    // at the serving node is a heartbeat; each store read is touched.
    method Get(key: Key, clock: nat -> real) returns (r: Response)
      requires Valid() && Nondecreasing(clock)
      modifies transport`states, transport.runtimes.Values, manager`lastHeartbeat
      ensures Valid()
      ensures var d := old(Decision(key, clock));
              if d.servedBy.None? then
                && r == Response(false, 503, None, None)
                && transport.states == old(transport.states) && manager.lastHeartbeat == old(manager.lastHeartbeat)
              else
                && Answers(d, key, ReplicaOf(d, old(AliveNow(clock(4)))), clock(3), clock(5),
                           old(transport.states), r, transport.states)
                && manager.lastHeartbeat == if r.servedBy == Some(d.servedBy.value.id)
                                            then old(manager.lastHeartbeat)[d.servedBy.value.id := clock(4)]
                                            else old(manager.lastHeartbeat)
      ensures var d := old(Decision(key, clock));
              r.value == GetVia(d, key, EntriesOf(old(transport.states)), clock(3),
                                d.replica.Some? && d.replica.value.id in old(AliveNow(clock(4))),
                                EntriesOf(old(transport.states)), clock(5))
    {
      var d := RouteTo(key, clock);
      if d.servedBy.None? {
        return NO_LIVE_NODES;
      }
      ghost var states, alive := transport.states, AliveNow(clock(4));
      r := GetRouted(d, key, clock);
      AnswersAsGetVia(d, key, alive, clock(3), clock(5), states, r, transport.states);
    }

    method GetRouted(d: RoutingDecision, key: Key, clock: nat -> real) returns (r: Response)
      requires Valid() && AmongMembers(d) && d.servedBy.Some?
      modifies transport`states, transport.runtimes.Values, manager`lastHeartbeat
      ensures Valid()
      ensures Answers(d, key, ReplicaOf(d, old(AliveNow(clock(4)))), clock(3), clock(5),
                      old(transport.states), r, transport.states)
      ensures manager.lastHeartbeat == if r.servedBy == Some(d.servedBy.value.id)
                                       then old(manager.lastHeartbeat)[d.servedBy.value.id := clock(4)]
                                       else old(manager.lastHeartbeat)
    {
      var n := d.servedBy.value.id;
      var found := GetAt(n, key, clock(3));
      if found.Some? {
        Beat(n, clock(4));
        return Response(true, 200, found, Some(n));
      }
      r := GetAtReplica(d, key, clock(4), clock(5));
    }

    // The second half of a get that missed at the serving node.
    method GetAtReplica(d: RoutingDecision, key: Key, now: real, later: real) returns (r: Response)
      requires Valid() && AmongMembers(d) && d.servedBy.Some?
      modifies transport`states, transport.runtimes.Values
      ensures Valid()
      ensures AnswersFromReplica(key, ReplicaOf(d, old(AliveNow(now))), later,
                                 old(transport.states), r, transport.states)
      ensures r.servedBy != Some(d.servedBy.value.id)
    {
      if d.replica.Some? && d.replica.value.id != d.servedBy.value.id && manager.IsAlive(d.replica.value.id, now) {
        var found := GetAt(d.replica.value.id, key, later);
        return Answer(found, d.replica.value.id);
      }
      return NOT_FOUND;
    }

    // If the serving node has no copy, the replica's copy stays.
    method Delete(key: Key, clock: nat -> real) returns (r: Response)
      requires Valid() && Nondecreasing(clock)
      modifies transport`states, transport.runtimes.Values
      ensures Valid()
      ensures var d, states := old(Decision(key, clock)), old(transport.states);
              if d.servedBy.None? then r == Response(false, 503, None, None) && transport.states == states
              else Deletes(key, d.servedBy.value.id, ReplicaOf(d, old(AliveNow(clock(3)))), states, r, transport.states)
    {
      var d := RouteTo(key, clock);
      if d.servedBy.None? {
        return NO_LIVE_NODES;
      }
      r := DeleteRouted(d, key, clock(3));
    }

    method DeleteRouted(d: RoutingDecision, key: Key, now: real) returns (r: Response)
      requires Valid() && AmongMembers(d) && d.servedBy.Some?
      modifies transport`states, transport.runtimes.Values
      ensures Valid()
      ensures Deletes(key, d.servedBy.value.id, ReplicaOf(d, AliveNow(now)), old(transport.states), r, transport.states)
    {
      var n := d.servedBy.value.id;
      var deleted := DeleteAt(n, key);
      if !deleted {
        return NOT_FOUND;
      }
      DeleteAtReplica(d, key, now);
      return Response(true, 200, None, Some(n));
    }

    method DeleteAtReplica(d: RoutingDecision, key: Key, now: real)
      requires Valid() && AmongMembers(d) && d.servedBy.Some?
      modifies transport`states, transport.runtimes.Values
      ensures Valid()
      ensures DeletesAtReplica(key, ReplicaOf(d, AliveNow(now)), old(transport.states), transport.states)
    {
      if d.replica.Some? && d.replica.value.id != d.servedBy.value.id && manager.IsAlive(d.replica.value.id, now) {
        var _ := DeleteAt(d.replica.value.id, key);
      }
    }

    // ---------------------------------------------------------------------
    // Membership.  The ring switches at once; what is returned besides the
    // response is the ring the background rebalance starts from.

    method AddNode(node: Node, runtime: CacheStore?, now: real)
      returns (r: Response, previous: ConsistentHashRing?)
      requires Valid() && (node.id !in manager.nodes ==> transport.MayRegister(node.id, runtime))
      modifies transport, manager, manager.ring
      ensures Valid()
      ensures node.id in old(manager.nodes) ==>
                && r == Response(false, 409, None, None) && previous == null
                && transport.states == old(transport.states) && transport.sizes == old(transport.sizes)
                && manager.nodes == old(manager.nodes) && manager.lastHeartbeat == old(manager.lastHeartbeat)
                && manager.ring.vnodes == old(manager.ring.vnodes)
      ensures node.id !in old(manager.nodes) ==>
                && r == Response(true, 202, None, Some(node.id))
                && previous != null && fresh(previous) && previous.Valid() && previous.hash == manager.ring.hash
                && previous.vnodes == old(manager.ring.vnodes)
                && manager.nodes == old(manager.nodes)[node.id := node]
                && manager.lastHeartbeat == old(manager.lastHeartbeat)[node.id := now]
                && manager.ring.vnodes == WithNode(previous.vnodes, manager.ring.hash, manager.ring.replicas, node)
                && OnlyMembers(previous.vnodes, old(manager.nodes.Keys))
                && transport.states == old(transport.states)[node.id := old(StateOf(runtime))]
                && transport.sizes == old(transport.sizes)[node.id := SizeOf(runtime)]
    {
      if node.id in manager.nodes {
        return CONFLICT, null;
      }
      previous := RingSoFar();
      Enroll(node, runtime, StateOf(runtime), now);
      return Response(true, 202, None, Some(node.id)), previous;
    }

    method RingSoFar() returns (previous: ConsistentHashRing)
      requires Core()
      ensures fresh(previous) && previous.Valid() && previous.hash == manager.ring.hash
      ensures previous.vnodes == manager.ring.vnodes && OnlyMembers(previous.vnodes, manager.nodes.Keys)
    {
      previous := manager.CopyRing();
    }

    method Enroll(node: Node, runtime: CacheStore?, ghost start: StoreState, now: real)
      requires Valid() && start == StateOf(runtime) && node.id !in manager.nodes
               && transport.MayRegister(node.id, runtime)
      modifies transport, manager, manager.ring
      ensures Valid()
      ensures manager.nodes == old(manager.nodes)[node.id := node]
      ensures manager.lastHeartbeat == old(manager.lastHeartbeat)[node.id := now]
      ensures manager.ring.vnodes == WithNode(old(manager.ring.vnodes), manager.ring.hash, manager.ring.replicas, node)
      ensures transport.states == old(transport.states)[node.id := start]
      ensures transport.sizes == old(transport.sizes)[node.id := SizeOf(runtime)]
    {
      Register(node.id, runtime, start);
      ghost var states, sizes := transport.states, transport.sizes;
      Join(node, now);
      assert transport.states == states && transport.sizes == sizes;
    }

    method Register(id: NodeId, runtime: CacheStore?, ghost start: StoreState)
      requires Valid() && start == StateOf(runtime) && transport.MayRegister(id, runtime)
      modifies transport
      ensures Valid() && id in transport.states
      ensures transport.states == old(transport.states)[id := start]
      ensures transport.sizes == old(transport.sizes)[id := SizeOf(runtime)]
    {
      ghost var nodes := transport.states.Keys;
      transport.RegisterNode(id, runtime);
      assert nodes <= transport.states.Keys && manager.Valid();
    }

    method Join(node: Node, now: real)
      requires Valid() && node.id in transport.states && node.id !in manager.nodes
      modifies manager, manager.ring
      ensures Valid()
      ensures manager.nodes == old(manager.nodes)[node.id := node]
      ensures manager.lastHeartbeat == old(manager.lastHeartbeat)[node.id := now]
      ensures manager.ring.vnodes == WithNode(old(manager.ring.vnodes), manager.ring.hash, manager.ring.replicas, node)
    {
      manager.AddNode(node, now);
    }

    // The departed node's store stays with the transport, out of reach.
    method RemoveNode(id: NodeId) returns (r: Response, previous: ConsistentHashRing?)
      requires Valid()
      modifies manager, manager.ring
      ensures Valid()
      ensures id !in old(manager.nodes) ==>
                && r == Response(false, 404, None, None) && previous == null
                && manager.nodes == old(manager.nodes) && manager.lastHeartbeat == old(manager.lastHeartbeat)
                && manager.ring.vnodes == old(manager.ring.vnodes)
      ensures id in old(manager.nodes) ==>
                && r == Response(true, 202, None, None)
                && previous != null && fresh(previous) && previous.Valid() && previous.hash == manager.ring.hash
                && previous.vnodes == old(manager.ring.vnodes)
                && manager.nodes == old(manager.nodes) - {id}
                && manager.lastHeartbeat == old(manager.lastHeartbeat) - {id}
                && manager.ring.vnodes == Without(previous.vnodes, id)
    {
      if id !in manager.nodes {
        return NOT_FOUND, null;
      }
      previous := manager.CopyRing();
      Leave(id);
      return Response(true, 202, None, None), previous;
    }

    method Leave(id: NodeId)
      requires Valid()
      modifies manager, manager.ring
      ensures Valid()
      ensures manager.nodes == old(manager.nodes) - {id}
      ensures manager.lastHeartbeat == old(manager.lastHeartbeat) - {id}
      ensures manager.ring.vnodes == Without(old(manager.ring.vnodes), id)
    {
      manager.RemoveNode(id);
    }

    // ---------------------------------------------------------------------
    // Background rebalance.

    // The rebalance that starts now, as the step system sees it.
    ghost function JobFrom(change: Change, previous: Vnodes, alive: Key -> set<NodeId>): Steps.Job
      reads manager, manager.ring
    {
      Steps.Job(change, manager.ring.hash, previous, manager.ring.vnodes, manager.nodes.Keys, alive)
    }

    ghost function StartOf(now: real): Steps.State
      reads transport
    {
      Steps.State(EntriesOf(transport.states), now, Steps.Collecting(map[]))
    }

    // What AddNode leaves is where the theorems on adding a node start.
    lemma AddNodeStartsAddSetting(previous: Vnodes, before: set<NodeId>, node: Node, k: Key, v: Value,
                                  alive: Key -> set<NodeId>, now: real)
      requires Core() && node.id !in before && manager.nodes.Keys == before + {node.id}
      requires manager.ring.vnodes == WithNode(previous, manager.ring.hash, manager.ring.replicas, node)
      requires previous != map[] && OnlyMembers(previous, before)
      requires HarmlessCollisions(previous, manager.ring.hash, manager.ring.replicas, node)
      requires manager.nodes.Keys <= alive(k) && k !in transport.states[node.id].entries
      requires HoldsAt(Lookup(previous, manager.ring.hash(k)).value.id, k, v)
      ensures AddSetting(JobFrom(NodeAdded, previous, alive), manager.ring.replicas, node, k, StartOf(now), v)
    {
      LookupInRing(previous, manager.ring.hash(k));
    }

    // What RemoveNode leaves is where those on removing one do.
    lemma RemoveNodeStartsRemoveSetting(previous: Vnodes, id: NodeId, k: Key, v: Value, alive: Key -> set<NodeId>,
                                        now: real)
      requires Core() && id !in manager.nodes
      requires manager.ring.vnodes == Without(previous, id) && manager.ring.vnodes != map[]
      requires forall o | o in OwnerIds(previous, manager.ring.hash(k)) && o != id :: HoldsAt(o, k, v)
      ensures RemoveSetting(JobFrom(NodeRemoved, previous, alive), id, k, StartOf(now), v)
    {
    }

    ghost predicate HoldsAt(n: NodeId, k: Key, v: Value)
      reads transport
    {
      n in transport.states && k in transport.states[n].entries && transport.states[n].entries[k].value == v
    }

    method CollectSnapshots(items: NodeId -> nat -> real, entries: NodeId -> nat -> real)
      returns (order: seq<NodeId>, snaps: Stores)
      requires Valid()
      modifies transport`states, transport.runtimes.Values
      ensures Valid() && Lists(order, snaps) && snaps.Keys == manager.nodes.Keys
      ensures transport.states == Snapshotted(old(transport.states), manager.nodes.Keys, ListTwice(items, entries))
      ensures snaps == SnapshotsOf(transport.states, manager.nodes.Keys)
    {
      var step := ListTwice(items, entries);
      ghost var before := transport.states;
      order, snaps := [], map[];
      var all := Members();
      NothingCollected(before, step, all);
      for i := 0 to |all|
        invariant Valid() && Enumerates(all, before)
        invariant Collected(before, step, all, i, order, snaps, transport.states)
      {
        order, snaps := CollectOne(items, entries, before, all, i, order, snaps);
      }
      AllCollected(before, step, all, manager.nodes, order, snaps, transport.states);
    }

    method Members() returns (all: seq<Node>)
      requires Core()
      ensures Enumerates(all, transport.states) && CoversMembers(all, manager.nodes)
    {
      all := manager.GetAllNodes();
    }

    // One step of the collecting loop.
    method CollectOne(items: NodeId -> nat -> real, entries: NodeId -> nat -> real, ghost before: StoreStates,
                      all: seq<Node>, i: nat, order: seq<NodeId>, snaps: Stores)
      returns (order': seq<NodeId>, snaps': Stores)
      requires Valid() && Enumerates(all, before)
      requires Collected(before, ListTwice(items, entries), all, i, order, snaps, transport.states) && i < |all|
      modifies transport`states, transport.runtimes.Values
      ensures Valid()
      ensures Collected(before, ListTwice(items, entries), all, i + 1, order', snaps', transport.states)
    {
      OneMoreCollected(before, ListTwice(items, entries), all, i, order, snaps, transport.states);
      var n := all[i].id;
      var listed := SnapshotAt(n, items, entries);
      return order + [n], snaps[n := listed];
    }

    // A rebalance up to the point where its tasks are scheduled: each planned
    // task once, planned for the current ring and members.
    method Rebalance(change: Change, previous: ConsistentHashRing,
                     items: NodeId -> nat -> real, entries: NodeId -> nat -> real, now: real, look: Key -> real)
      returns (puts: seq<Task>, deletes: seq<Task>, ghost order: seq<NodeId>)
      requires Valid() && previous.Valid() && previous.hash == manager.ring.hash
      modifies transport`states, transport.runtimes.Values
      ensures Valid()
      ensures transport.states == Snapshotted(old(transport.states), manager.nodes.Keys, ListTwice(items, entries))
      ensures forall n :: n in order <==> n in manager.nodes
      ensures Schedules(puts, deletes,
                PlannedTasks(Planning(change, manager.ring.hash, previous.vnodes, manager.ring.vnodes,
                                      AliveLooks(manager.lastHeartbeat, manager.timeout, look),
                                      manager.nodes.Keys, order, now),
                             SnapshotsOf(transport.states, manager.nodes.Keys)))
    {
      var current := manager.CopyRing();
      puts, deletes, order :=
        CollectAndSchedule(Rebalancing(change, manager, previous, current), items, entries, now, look);
    }

    method CollectAndSchedule(r: Rebalancing, items: NodeId -> nat -> real, entries: NodeId -> nat -> real,
                              now: real, look: Key -> real)
      returns (puts: seq<Task>, deletes: seq<Task>, ghost order: seq<NodeId>)
      requires Valid() && r.Valid() && r.manager == manager
      modifies transport`states, transport.runtimes.Values
      ensures Valid()
      ensures transport.states == Snapshotted(old(transport.states), manager.nodes.Keys, ListTwice(items, entries))
      ensures forall n :: n in order <==> n in manager.nodes
      ensures Schedules(puts, deletes, PlannedTasks(r.Situation(manager.nodes.Keys, order, now, look),
                                                    SnapshotsOf(transport.states, manager.nodes.Keys)))
    {
      var listed, snaps := CollectSnapshots(items, entries);
      order := listed;
      puts, deletes := r.PlanAll(snaps, listed, manager.nodes.Keys, now, look);
    }

    // One scheduled task; a node without a store makes it fail without effect.
    // With room in the store it is the task step of the rebalance theorems.
    method RunTask(t: Task, now: real)
      requires Valid()
      modifies transport`states, transport.runtimes.Values
      ensures Valid()
      ensures transport.states == AfterTask(old(transport.states), transport.sizes, t, now)
      ensures t.node in old(transport.states)
              && (t.DeleteTask? || HasRoom(old(transport.states), transport.sizes, t.node, t.key)) ==>
                EntriesOf(transport.states) == ApplyTask(EntriesOf(old(transport.states)), t, now)
    {
      if t.node !in transport.runtimes {
        return;
      }
      ghost var states := transport.states;
      if t.DeleteTask? || HasRoom(states, transport.sizes, t.node, t.key) {
        RunTaskIsApplyTask(states, transport.sizes, t, now);
      }
      match t {
        case PutTask(n, k, v, ttl) => PutAt(n, k, v, ttl, now);
        case DeleteTask(n, k) => var _ := DeleteAt(n, k);
      }
    }
  }
}
