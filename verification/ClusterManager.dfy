// Membership, heartbeats and failover routing.
module Routing {
  import opened Types
  import opened Ring

  datatype RoutingDecision = RoutingDecision(primary: Option<Node>, replica: Option<Node>, servedBy: Option<Node>)

  type Heartbeats = map<NodeId, real>

  predicate Alive(beats: Heartbeats, timeout: real, id: NodeId, now: real) {
    id in beats && now - beats[id] <= timeout
  }

  function AliveAt(beats: Heartbeats, timeout: real, now: real): set<NodeId> {
    set id | id in beats && Alive(beats, timeout, id, now)
  }

  // Who serves, when the nodes alive at the first and at the second look may
  // differ: a primary that dies in between is not replaced by its replica.
  function Served(o: Owners, first: set<NodeId>, second: set<NodeId>): Option<Node> {
    if o.primary.Some? && o.primary.value.id in first then
      if o.primary.value.id in second then o.primary else None
    else
      if o.replica.Some? && o.replica.value.id in second then o.replica else None
  }

  ghost function RouteBetween(v: Vnodes, from: Position, first: set<NodeId>, second: set<NodeId>): RoutingDecision {
    var o := OwnersOf(v, from);
    RoutingDecision(o.primary, o.replica, Served(o, first, second))
  }

  // Routing when liveness does not change while the decision is made.
  ghost function Route(v: Vnodes, from: Position, alive: set<NodeId>): RoutingDecision {
    RouteBetween(v, from, alive, alive)
  }

  // The replica gets an operation's second half if it is another node than the
  // one that served, and looks alive.
  function ReplicaOf(r: RoutingDecision, alive: set<NodeId>): Option<NodeId> {
    if r.servedBy.Some? && r.replica.Some? && r.replica.value.id != r.servedBy.value.id && r.replica.value.id in alive
    then Some(r.replica.value.id) else None
  }

  // Each of the added nodes last beat when it was first added.
  ghost predicate BeatsFromFirstAdd(beats: Heartbeats, members: seq<Node>, clock: nat -> real) {
    && (forall n | n in members :: n.id in beats)
    && forall id | id in beats ::
         exists i | 0 <= i < |members| ::
           members[i].id == id && beats[id] == clock(i) && forall j | 0 <= j < i :: members[j].id != id
  }

  lemma OneMoreBeat(beats: Heartbeats, members: seq<Node>, i: nat, clock: nat -> real)
    requires i < |members| && BeatsFromFirstAdd(beats, members[..i], clock)
    ensures var id := members[i].id;
            BeatsFromFirstAdd(beats[id := if id in beats then beats[id] else clock(i)], members[..i + 1], clock)
  {
    var id := members[i].id;
    var after := beats[id := if id in beats then beats[id] else clock(i)];
    var front, more := members[..i], members[..i + 1];
    assert more[i] == members[i] && more == front + [members[i]];
    forall x | x in after
      ensures exists j | 0 <= j < |more| ::
                more[j].id == x && after[x] == clock(j) && forall l | 0 <= l < j :: more[l].id != x
    {
      if x in beats {
        var j :| 0 <= j < |front| && front[j].id == x && beats[x] == clock(j)
                         && forall l | 0 <= l < j :: front[l].id != x;
        assert more[j].id == x;
      } else {
        assert forall l | 0 <= l < i :: front[l] in front && more[l] == front[l];
        assert more[i].id == x;
      }
    }
  }

  // A heartbeat at t keeps a node alive until t + timeout, that instant
  // included, and no longer; without one a node is never alive.
  lemma AliveUntilTheTimeout(beats: Heartbeats, timeout: real, id: NodeId, now: real)
    ensures id in AliveAt(beats, timeout, now) <==> id in beats && now <= beats[id] + timeout
  {
  }

  // With no heartbeat arriving, a dead node stays dead.
  lemma DeadStaysDead(beats: Heartbeats, timeout: real, now: real, later: real)
    requires now <= later
    ensures AliveAt(beats, timeout, later) <= AliveAt(beats, timeout, now)
  {
  }

  // Nobody serves a key exactly when neither owner is alive.
  lemma ServedIffAnOwnerIsAlive(v: Vnodes, from: Position, alive: set<NodeId>)
    ensures Route(v, from, alive).servedBy.None? <==> OwnerIds(v, from) !! alive
    ensures Route(v, from, alive).servedBy.Some? ==>
              Route(v, from, alive).servedBy.value.id in OwnerIds(v, from) * alive
  {
    OwnersAreOnTheRing(v, from);
    var o := OwnersOf(v, from);
    if o.primary.Some? { assert o.primary.value.id in Ids(o); }
    if o.replica.Some? { assert o.replica.value.id in Ids(o); }
  }
}

module Manager {
  import opened Types
  import opened Ring
  import opened RingHistory
  import opened HashRing
  import opened Routing

  class ClusterManager {
    const timeout: real
    const ring: ConsistentHashRing
    var nodes: map<NodeId, Node>
    var lastHeartbeat: Heartbeats

    // Members, heartbeats and the ring's members are the same, and every
    // vnode belongs to a current member.
    ghost predicate Valid()
      reads this, ring
    {
      && ring.Valid() && 0 < ring.replicas
      && nodes == ring.nodes
      && lastHeartbeat.Keys == nodes.Keys
      && (forall id | id in nodes :: nodes[id].id == id)
      && forall p | p in ring.vnodes :: ring.vnodes[p].id in nodes && nodes[ring.vnodes[p].id] == ring.vnodes[p]
    }

    constructor (members: seq<Node>, timeout: real, replicas: nat, hash: HashFn, clock: nat -> real)
      requires 0.0 < timeout && 0 < replicas
      ensures Valid() && fresh(ring)
      ensures this.timeout == timeout && ring.hash == hash && ring.replicas == replicas
      ensures nodes == MembersAfter(Adds(members))
      ensures ring.vnodes == RingAfter(hash, replicas, Adds(members))
      ensures BeatsFromFirstAdd(lastHeartbeat, members, clock)
    {
      this.timeout := timeout;
      nodes, lastHeartbeat := map[], map[];
      ring := new ConsistentHashRing(hash, replicas);
      new;
      assert members[..0] == [];
      for i := 0 to |members|
        invariant Valid() && fresh(ring)
        invariant nodes == MembersAfter(Adds(members[..i]))
        invariant ring.vnodes == RingAfter(hash, replicas, Adds(members[..i]))
        invariant BeatsFromFirstAdd(lastHeartbeat, members[..i], clock)
      {
        OneMoreBeat(lastHeartbeat, members, i, clock);
        AddNode(members[i], clock(i));
        AddsOneMore(members, i);
        OneMoreRingOp(hash, replicas, Adds(members[..i]), Add(members[i]));
      }
      assert members[..|members|] == members;
    }

    method CopyRing() returns (copy: ConsistentHashRing)
      requires Valid()
      ensures fresh(copy) && copy.Valid()
      ensures copy.vnodes == ring.vnodes && copy.nodes == ring.nodes
      ensures copy.hash == ring.hash && copy.replicas == ring.replicas
    {
      copy := ring.Clone();
    }

    // A known node keeps its heartbeat (dict.setdefault).
    method AddNode(node: Node, now: real)
      requires Valid()
      modifies this, ring
      ensures Valid()
      ensures nodes == old(nodes)[node.id := node]
      ensures lastHeartbeat == old(lastHeartbeat)[node.id :=
                if node.id in old(nodes) then old(lastHeartbeat)[node.id] else now]
      ensures ring.vnodes == WithNode(old(ring.vnodes), ring.hash, ring.replicas, node)
    {
      nodes := nodes[node.id := node];
      ring.AddNode(node);
      if node.id !in lastHeartbeat {
        lastHeartbeat := lastHeartbeat[node.id := now];
      }
    }

    method RemoveNode(id: NodeId)
      requires Valid()
      modifies this, ring
      ensures Valid()
      ensures nodes == old(nodes) - {id}
      ensures lastHeartbeat == old(lastHeartbeat) - {id}
      ensures ring.vnodes == Without(old(ring.vnodes), id)
    {
      nodes := nodes - {id};
      lastHeartbeat := lastHeartbeat - {id};
      ring.RemoveNode(id);
    }

    method RecordHeartbeat(id: NodeId, now: real)
      requires Valid()
      modifies `lastHeartbeat
      ensures Valid()
      ensures lastHeartbeat == if id in nodes then old(lastHeartbeat)[id := now] else old(lastHeartbeat)
      ensures id in nodes ==> forall later :: IsAlive(id, later) <==> later <= now + timeout
      ensures id !in nodes ==> forall later :: !IsAlive(id, later)
    {
      if id in nodes {
        lastHeartbeat := lastHeartbeat[id := now];
      }
    }

    predicate IsAlive(id: NodeId, now: real): (r: bool)
      reads this
      ensures r <==> id in lastHeartbeat && now <= lastHeartbeat[id] + timeout
    {
      Alive(lastHeartbeat, timeout, id, now)
    }

    // The clock is read up to three times.  The third reading never matters:
    // a primary found dead is still dead later.  A primary heard from within the
    // timeout at the first look serves if it still is at the second; otherwise a
    // replica that is at the second does.
    method RouteForKey(key: Key, clock: nat -> real) returns (r: RoutingDecision)
      requires Valid() && Nondecreasing(clock)
      ensures r == RouteBetween(ring.vnodes, ring.hash(key),
                                AliveAt(lastHeartbeat, timeout, clock(0)), AliveAt(lastHeartbeat, timeout, clock(1)))
      ensures r.primary == Lookup(ring.vnodes, ring.hash(key))
      ensures r.replica == if r.primary.None? then None
                           else Lookup(Without(ring.vnodes, r.primary.value.id), ring.hash(key))
      ensures var a, b := r.primary, r.replica;
              if a.Some? && a.value.id in lastHeartbeat && clock(0) <= lastHeartbeat[a.value.id] + timeout then
                r.servedBy == if clock(1) <= lastHeartbeat[a.value.id] + timeout then a else None
              else
                r.servedBy ==
                  if b.Some? && b.value.id in lastHeartbeat && clock(1) <= lastHeartbeat[b.value.id] + timeout
                  then b else None
    {
      var primary := ring.GetNode(key);
      if primary.None? {
        return RoutingDecision(None, None, None);
      }
      var replica := ring.GetSuccessorForKey(key, Some(primary.value.id));
      assert clock(0) <= clock(1) <= clock(2);
      var servedBy := if IsAlive(primary.value.id, clock(0)) then primary else replica;
      if servedBy.Some? && !IsAlive(servedBy.value.id, clock(1)) {
        servedBy := if IsAlive(primary.value.id, clock(2)) then primary else None;
      }
      return RoutingDecision(primary, replica, servedBy);
    }

    // Some enumeration of the members; the dictionary's own order is one.
    method GetAllNodes() returns (all: seq<Node>)
      requires Valid()
      ensures forall i | 0 <= i < |all| :: all[i].id in nodes && nodes[all[i].id] == all[i]
      ensures forall i, j | 0 <= i < j < |all| :: all[i].id != all[j].id
      ensures forall id | id in nodes :: nodes[id] in all
      ensures |all| == |nodes|
    {
      all := [];
      var todo := nodes.Keys;
      while todo != {}
        invariant todo <= nodes.Keys
        invariant forall i | 0 <= i < |all| :: all[i].id in nodes && nodes[all[i].id] == all[i] && all[i].id !in todo
        invariant forall i, j | 0 <= i < j < |all| :: all[i].id != all[j].id
        invariant forall id | id in nodes && id !in todo :: nodes[id] in all
        invariant |all| + |todo| == |nodes.Keys|
        decreases |todo|
      {
        var id :| id in todo;
        all := all + [nodes[id]];
        todo := todo - {id};
      }
    }
  }

  function Adds(members: seq<Node>): seq<RingOp> {
    seq(|members|, i requires 0 <= i < |members| => Add(members[i]))
  }

  lemma AddsOneMore(members: seq<Node>, i: nat)
    requires i < |members|
    ensures Adds(members[..i + 1]) == Adds(members[..i]) + [Add(members[i])]
  {
  }

  datatype ManagerOp = AddOp(node: Node, now: real) | RemoveOp(id: NodeId) | HeartbeatOp(id: NodeId, now: real)

  function TopologyOps(ops: seq<ManagerOp>): seq<RingOp> {
    if ops == [] then []
    else
      TopologyOps(ops[..|ops| - 1]) +
      match ops[|ops| - 1]
      case AddOp(n, _) => [Add(n)]
      case RemoveOp(id) => [Remove(id)]
      case HeartbeatOp(_, _) => []
  }

  lemma OneMoreTopologyOp(history: seq<RingOp>, ops: seq<ManagerOp>, i: nat)
    requires i < |ops|
    ensures ops[i].HeartbeatOp? ==> TopologyOps(ops[..i + 1]) == TopologyOps(ops[..i])
    ensures ops[i].AddOp? ==>
              history + TopologyOps(ops[..i + 1]) == history + TopologyOps(ops[..i]) + [Add(ops[i].node)]
    ensures ops[i].RemoveOp? ==>
              history + TopologyOps(ops[..i + 1]) == history + TopologyOps(ops[..i]) + [Remove(ops[i].id)]
  {
    assert ops[..i + 1][..i] == ops[..i];
  }

  // Any sequence of manager calls keeps the membership agreement, leaves a ring
  // copied beforehand untouched, and brings the live ring where replaying the
  // topology changes would.
  method MutateWithCopy(m: ClusterManager, ops: seq<ManagerOp>, ghost history: seq<RingOp>)
    returns (copy: ConsistentHashRing)
    requires m.Valid()
    requires m.nodes == MembersAfter(history) && m.ring.vnodes == RingAfter(m.ring.hash, m.ring.replicas, history)
    modifies m, m.ring
    ensures m.Valid() && fresh(copy) && copy.Valid()
    ensures copy.vnodes == old(m.ring.vnodes) && copy.nodes == old(m.nodes)
    ensures m.nodes == MembersAfter(history + TopologyOps(ops))
    ensures m.ring.vnodes == RingAfter(m.ring.hash, m.ring.replicas, history + TopologyOps(ops))
  {
    copy := m.CopyRing();
    assert ops[..0] == [] && history + [] == history;
    for i := 0 to |ops|
      invariant m.Valid() && fresh(copy) && copy.Valid()
      invariant copy.vnodes == old(m.ring.vnodes) && copy.nodes == old(m.nodes)
      invariant m.nodes == MembersAfter(history + TopologyOps(ops[..i]))
      invariant m.ring.vnodes == RingAfter(m.ring.hash, m.ring.replicas, history + TopologyOps(ops[..i]))
    {
      OneMoreTopologyOp(history, ops, i);
      match ops[i] {
        case AddOp(n, now) =>
          m.AddNode(n, now);
          OneMoreRingOp(m.ring.hash, m.ring.replicas, history + TopologyOps(ops[..i]), Add(n));
        case RemoveOp(id) =>
          m.RemoveNode(id);
          OneMoreRingOp(m.ring.hash, m.ring.replicas, history + TopologyOps(ops[..i]), Remove(id));
        case HeartbeatOp(id, now) =>
          m.RecordHeartbeat(id, now);
      }
    }
    assert ops[..|ops|] == ops;
  }

  // Construction as callers see it: nonpositive settings are errors.
  method NewManager(members: seq<Node>, timeout: real, replicas: int, hash: HashFn, clock: nat -> real)
    returns (r: Option<ClusterManager>)
    ensures r.None? <==> timeout <= 0.0 || replicas <= 0
    ensures r.Some? ==> fresh(r.value) && r.value.Valid() && r.value.nodes == MembersAfter(Adds(members))
  {
    if timeout <= 0.0 || replicas <= 0 {
      return None;
    }
    var m := new ClusterManager(members, timeout, replicas, hash, clock);
    return Some(m);
  }
}
