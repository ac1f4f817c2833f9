// The whole cluster with everything that can go wrong: failover, lagging,
// reordered and lost replica writes, deletes, expiry, eviction, and rebalances
// that overlap with each other and with clients.  No value comes from nowhere.
module Provenance {
  import opened Types
  import opened Ring
  import opened Routing
  import opened StoreSpec
  import opened Migration
  import opened Guarantees

  datatype Job =
    | Waiting(change: Change, previous: Vnodes)
    | Collecting(change: Change, previous: Vnodes, current: Vnodes, todo: set<NodeId>, snaps: Stores)
    | Running(pending: set<Task>)

  // `written` remembers every (key, value) a client ever put or a joining node
  // brought in its store.
  datatype Cluster = Cluster(ring: Vnodes, members: set<NodeId>, stores: Stores, queue: multiset<QueuedWrite>,
                             jobs: seq<Job>, written: set<(Key, Value)>)

  // Which nodes look alive at the successive looks one operation takes.
  datatype Looks = Looks(first: set<NodeId>, second: set<NodeId>, third: set<NodeId>)

  datatype Event =
    | Put(key: Key, value: Value, ttl: Option<real>, looks: Looks, now: real)
    | Delete(key: Key, looks: Looks)
    | Forget(node: NodeId, key: Key)          // expiry, eviction or cleanup
    | Replicate(write: QueuedWrite, now: real)
    | LoseWrite(write: QueuedWrite)
    | Join(joining: Node, runtime: Contents)
    | Leave(leaving: NodeId)
    | StartJob(job: nat)
    | CollectFrom(job: nat, from: NodeId, listed: Contents, now: real)
    | PlanJob(job: nat, order: seq<NodeId>, alive: Key -> set<NodeId>, now: real)
    | FireTask(job: nat, task: Task, now: real)
    | FailTask(job: nat, task: Task)

  function Forgotten(stores: Stores, n: NodeId, k: Key): Stores {
    if n in stores then stores[n := stores[n] - {k}] else stores
  }

  ghost predicate Enabled(c: Cluster, hash: HashFn, e: Event) {
    match e
    case Put(k, _, _, looks, _) =>
      var served := RouteBetween(c.ring, hash(k), looks.first, looks.second).servedBy;
      served.Some? ==> served.value.id in c.stores
    case Delete(_, _) => true
    case Forget(_, _) => true
    case Replicate(w, _) => w in c.queue && w.node in c.stores
    case LoseWrite(w) => w in c.queue
    case Join(n, _) => n.id !in c.members
    case Leave(id) => id in c.members
    case StartJob(i) => i < |c.jobs| && c.jobs[i].Waiting?
    case CollectFrom(i, n, listed, now) =>
      && i < |c.jobs| && c.jobs[i].Collecting? && n in c.jobs[i].todo && n in c.stores
      && PossibleListing(c.stores[n], listed, now)
    case PlanJob(i, _, _, _) => i < |c.jobs| && c.jobs[i].Collecting? && c.jobs[i].todo == {}
    case FireTask(i, t, _) => i < |c.jobs| && c.jobs[i].Running? && t in c.jobs[i].pending && t.node in c.stores
    case FailTask(i, t) => i < |c.jobs| && c.jobs[i].Running? && t in c.jobs[i].pending
  }

  ghost function Apply(c: Cluster, hash: HashFn, replicas: nat, e: Event): Cluster
    requires Enabled(c, hash, e)
  {
    match e
    case Put(k, v, ttl, looks, now) =>
      var r := RouteBetween(c.ring, hash(k), looks.first, looks.second);
      if r.servedBy.None? then c
      else
        var n, replica := r.servedBy.value.id, ReplicaOf(r, looks.third);
        c.(stores := c.stores[n := ApplyPut(c.stores[n], k, v, ttl, now)],
           queue := if replica.Some? then c.queue + multiset{QueuedWrite(replica.value, k, v, ttl)} else c.queue,
           written := c.written + {(k, v)})
    case Delete(k, looks) =>
      var r := RouteBetween(c.ring, hash(k), looks.first, looks.second);
      if r.servedBy.None? || r.servedBy.value.id !in c.stores || k !in c.stores[r.servedBy.value.id] then c
      else
        var replica, stores := ReplicaOf(r, looks.third), Forgotten(c.stores, r.servedBy.value.id, k);
        c.(stores := if replica.Some? then Forgotten(stores, replica.value, k) else stores)
    case Forget(n, k) => c.(stores := Forgotten(c.stores, n, k))
    case Replicate(w, now) =>
      c.(stores := c.stores[w.node := ApplyPut(c.stores[w.node], w.key, w.value, w.ttl, now)],
         queue := c.queue - multiset{w})
    case LoseWrite(w) => c.(queue := c.queue - multiset{w})
    case Join(n, runtime) =>
      c.(ring := WithNode(c.ring, hash, replicas, n), members := c.members + {n.id},
         stores := c.stores[n.id := runtime], jobs := c.jobs + [Waiting(NodeAdded, c.ring)],
         written := c.written + set k | k in runtime :: (k, runtime[k].value))
    case Leave(id) =>
      c.(ring := Without(c.ring, id), members := c.members - {id}, jobs := c.jobs + [Waiting(NodeRemoved, c.ring)])
    case StartJob(i) =>
      c.(jobs := c.jobs[i := Collecting(c.jobs[i].change, c.jobs[i].previous, c.ring, c.members, map[])])
    case CollectFrom(i, n, listed, _) =>
      c.(stores := c.stores[n := listed],
         jobs := c.jobs[i := c.jobs[i].(todo := c.jobs[i].todo - {n}, snaps := c.jobs[i].snaps[n := listed])])
    case PlanJob(i, order, alive, now) =>
      var j := c.jobs[i];
      var plan := Planning(j.change, hash, j.previous, j.current, alive, c.members, order, now);
      c.(jobs := c.jobs[i := Running(PlannedTasks(plan, j.snaps))])
    case FireTask(i, t, now) =>
      c.(stores := ApplyTask(c.stores, t, now), jobs := c.jobs[i := Running(c.jobs[i].pending - {t})])
    case FailTask(i, t) =>
      c.(jobs := c.jobs[i := Running(c.jobs[i].pending - {t})])
  }

  // ---------------------------------------------------------------------

  ghost predicate StoresFrom(stores: Stores, written: set<(Key, Value)>) {
    forall n, k | n in stores && k in stores[n] :: (k, stores[n][k].value) in written
  }

  ghost predicate TasksFrom(tasks: set<Task>, written: set<(Key, Value)>) {
    forall t | t in tasks && t.PutTask? :: (t.key, t.value) in written
  }

  ghost predicate JobFrom(j: Job, written: set<(Key, Value)>) {
    match j
    case Waiting(_, _) => true
    case Collecting(_, _, _, _, snaps) => StoresFrom(snaps, written)
    case Running(pending) => TasksFrom(pending, written)
  }

  // Every stored copy, queued write, snapshot entry and migration task carries
  // a value that was put or brought under that key.
  ghost predicate AllFromWrites(c: Cluster) {
    && StoresFrom(c.stores, c.written)
    && (forall w | w in c.queue :: (w.key, w.value) in c.written)
    && forall i | 0 <= i < |c.jobs| :: JobFrom(c.jobs[i], c.written)
  }

  lemma PutFrom(stores: Stores, n: NodeId, k: Key, v: Value, ttl: Option<real>, now: real, written: set<(Key, Value)>)
    requires StoresFrom(stores, written) && n in stores && (k, v) in written
    ensures StoresFrom(stores[n := ApplyPut(stores[n], k, v, ttl, now)], written)
  {
  }

  lemma PlanFrom(p: Planning, snaps: Stores, written: set<(Key, Value)>)
    requires StoresFrom(snaps, written)
    ensures TasksFrom(PlannedTasks(p, snaps), written)
  {
    forall t | t in PlannedTasks(p, snaps) && t.PutTask? ensures (t.key, t.value) in written {
      PlannedForKey(p, snaps, t.key);
      SourceIsACopy(p, t.key, CopiesOf(snaps, t.key));
    }
  }

  // Replacing one job by another that is fine.
  lemma JobsFrom(c: Cluster, i: nat, j: Job)
    requires AllFromWrites(c) && i < |c.jobs| && JobFrom(j, c.written)
    ensures AllFromWrites(c.(jobs := c.jobs[i := j]))
  {
  }

  lemma ClientStepKeepsOrigin(c: Cluster, hash: HashFn, replicas: nat, e: Event)
    requires AllFromWrites(c) && Enabled(c, hash, e)
    requires e.Put? || e.Delete? || e.Forget? || e.Replicate? || e.LoseWrite?
    ensures AllFromWrites(Apply(c, hash, replicas, e))
  {
    var c' := Apply(c, hash, replicas, e);
    assert forall i | 0 <= i < |c.jobs| :: JobFrom(c.jobs[i], c'.written);
    if e.Put? {
      var served := RouteBetween(c.ring, hash(e.key), e.looks.first, e.looks.second).servedBy;
      if served.Some? {
        PutFrom(c.stores, served.value.id, e.key, e.value, e.ttl, e.now, c.written + {(e.key, e.value)});
      }
    }
    if e.Replicate? {
      PutFrom(c.stores, e.write.node, e.write.key, e.write.value, e.write.ttl, e.now, c.written);
    }
  }

  lemma JobStepKeepsOrigin(c: Cluster, hash: HashFn, replicas: nat, e: Event)
    requires AllFromWrites(c) && Enabled(c, hash, e)
    requires e.StartJob? || e.CollectFrom? || e.PlanJob? || e.FireTask? || e.FailTask?
    ensures AllFromWrites(Apply(c, hash, replicas, e))
  {
    var c' := Apply(c, hash, replicas, e);
    assert JobFrom(c.jobs[e.job], c.written);
    match e {
      case PlanJob(i, order, alive, now) =>
        var j := c.jobs[i];
        PlanFrom(Planning(j.change, hash, j.previous, j.current, alive, c.members, order, now), j.snaps, c.written);
      case FireTask(i, t, now) =>
        if t.PutTask? { PutFrom(c.stores, t.node, t.key, t.value, t.ttl, now, c.written); }
      case _ =>
    }
    assert JobFrom(c'.jobs[e.job], c.written);
    JobsFrom(c, e.job, c'.jobs[e.job]);
  }

  lemma TopologyStepKeepsOrigin(c: Cluster, hash: HashFn, replicas: nat, e: Event)
    requires AllFromWrites(c) && Enabled(c, hash, e)
    requires e.Join? || e.Leave?
    ensures AllFromWrites(Apply(c, hash, replicas, e))
  {
    var c' := Apply(c, hash, replicas, e);
    assert forall i | 0 <= i < |c.jobs| :: JobFrom(c.jobs[i], c.written) && JobFrom(c.jobs[i], c'.written);
  }

  ghost predicate Runs(c: Cluster, hash: HashFn, replicas: nat, events: seq<Event>)
    decreases events
  {
    events == [] ||
    (Enabled(c, hash, events[0]) && Runs(Apply(c, hash, replicas, events[0]), hash, replicas, events[1..]))
  }

  ghost function Exec(c: Cluster, hash: HashFn, replicas: nat, events: seq<Event>): Cluster
    requires Runs(c, hash, replicas, events)
    decreases events
  {
    if events == [] then c else Exec(Apply(c, hash, replicas, events[0]), hash, replicas, events[1..])
  }

  ghost predicate Initial(c: Cluster) {
    && (forall n | n in c.stores :: c.stores[n] == map[])
    && c.queue == multiset{} && c.jobs == [] && c.written == {}
  }

  lemma {:induction false} RunKeepsOrigin(c: Cluster, hash: HashFn, replicas: nat, events: seq<Event>)
    requires AllFromWrites(c) && Runs(c, hash, replicas, events)
    ensures AllFromWrites(Exec(c, hash, replicas, events))
    ensures c.written <= Exec(c, hash, replicas, events).written
    decreases events
  {
    if events == [] {
    } else {
      var e := events[0];
      match e {
        case Join(_, _) => TopologyStepKeepsOrigin(c, hash, replicas, e);
        case Leave(_) => TopologyStepKeepsOrigin(c, hash, replicas, e);
        case StartJob(_) => JobStepKeepsOrigin(c, hash, replicas, e);
        case CollectFrom(_, _, _, _) => JobStepKeepsOrigin(c, hash, replicas, e);
        case PlanJob(_, _, _, _) => JobStepKeepsOrigin(c, hash, replicas, e);
        case FireTask(_, _, _) => JobStepKeepsOrigin(c, hash, replicas, e);
        case FailTask(_, _) => JobStepKeepsOrigin(c, hash, replicas, e);
        case _ => ClientStepKeepsOrigin(c, hash, replicas, e);
      }
      RunKeepsOrigin(Apply(c, hash, replicas, e), hash, replicas, events[1..]);
    }
  }

  // An event that brings a value for k into the cluster.
  predicate Supplies(e: Event, k: Key, v: Value) {
    || (e.Put? && e.key == k && e.value == v)
    || (e.Join? && k in e.runtime && e.runtime[k].value == v)
  }

  // A pair enters `written` by a client put or a filled store only.
  lemma {:induction false} WrittenIsSupplied(c: Cluster, hash: HashFn, replicas: nat, events: seq<Event>, k: Key,
                                             v: Value)
    requires Runs(c, hash, replicas, events) && (k, v) !in c.written
             && (k, v) in Exec(c, hash, replicas, events).written
    ensures exists i :: 0 <= i < |events| && Supplies(events[i], k, v)
    decreases events
  {
    var c' := Apply(c, hash, replicas, events[0]);
    if (k, v) in c'.written {
      assert Supplies(events[0], k, v);
    } else {
      WrittenIsSupplied(c', hash, replicas, events[1..], k, v);
      var i :| 0 <= i < |events[1..]| && Supplies(events[1..][i], k, v);
      assert events[i + 1] == events[1..][i];
    }
  }

  // In every reachable state every copy of k anywhere carries a value that an
  // earlier client put, or the store of a node that joined, supplied for k.
  lemma NoValueFromNowhere(c: Cluster, hash: HashFn, replicas: nat, events: seq<Event>, n: NodeId, k: Key)
    requires Initial(c) && Runs(c, hash, replicas, events)
    ensures AllFromWrites(Exec(c, hash, replicas, events))
    ensures var stores := Exec(c, hash, replicas, events).stores;
            n in stores && k in stores[n] ==>
              exists i :: 0 <= i < |events| && Supplies(events[i], k, stores[n][k].value)
  {
    RunKeepsOrigin(c, hash, replicas, events);
    var stores: Stores := Exec(c, hash, replicas, events).stores;
    if n in stores && k in stores[n] {
      WrittenIsSupplied(c, hash, replicas, events, k, stores[n][k].value);
    }
  }

  lemma RunsCons(c: Cluster, hash: HashFn, replicas: nat, e: Event, rest: seq<Event>)
    requires Enabled(c, hash, e) && Runs(Apply(c, hash, replicas, e), hash, replicas, rest)
    ensures Runs(c, hash, replicas, [e] + rest)
    ensures Exec(c, hash, replicas, [e] + rest) == Exec(Apply(c, hash, replicas, e), hash, replicas, rest)
  {
    assert ([e] + rest)[1..] == rest;
  }

  lemma {:induction false} RunsConcat(c: Cluster, hash: HashFn, replicas: nat, a: seq<Event>, b: seq<Event>)
    requires Runs(c, hash, replicas, a) && Runs(Exec(c, hash, replicas, a), hash, replicas, b)
    ensures Runs(c, hash, replicas, a + b)
    ensures Exec(c, hash, replicas, a + b) == Exec(Exec(c, hash, replicas, a), hash, replicas, b)
    decreases a
  {
    if a == [] {
      assert a + b == b;
    } else {
      assert (a + b)[1..] == a[1..] + b;
      RunsConcat(Apply(c, hash, replicas, a[0]), hash, replicas, a[1..], b);
    }
  }

  lemma {:induction false} ExecConcat(c: Cluster, hash: HashFn, replicas: nat, a: seq<Event>, b: seq<Event>)
    requires Runs(c, hash, replicas, a + b)
    ensures Runs(c, hash, replicas, a) && Runs(Exec(c, hash, replicas, a), hash, replicas, b)
    ensures Exec(c, hash, replicas, a + b) == Exec(Exec(c, hash, replicas, a), hash, replicas, b)
    decreases a
  {
    if a == [] {
      assert a + b == b;
    } else {
      assert (a + b)[1..] == a[1..] + b;
      ExecConcat(Apply(c, hash, replicas, a[0]), hash, replicas, a[1..], b);
    }
  }

  // So whatever a get returns, even one whose two reads see different states,
  // was supplied for that key before the get ended.
  lemma GetReturnsSomethingSupplied(c: Cluster, hash: HashFn, replicas: nat, early: seq<Event>, later: seq<Event>,
                                   r: RoutingDecision, k: Key, t1: real, replicaAlive: bool, t2: real)
    requires Initial(c) && Runs(c, hash, replicas, early + later)
    ensures Runs(c, hash, replicas, early)
    ensures var c1, c2 := Exec(c, hash, replicas, early), Exec(c, hash, replicas, early + later);
            var got := GetVia(r, k, c1.stores, t1, replicaAlive, c2.stores, t2);
            got.Some? ==> exists i :: 0 <= i < |early + later| && Supplies((early + later)[i], k, got.value)
  {
    ExecConcat(c, hash, replicas, early, later);
    var c1, c2 := Exec(c, hash, replicas, early), Exec(c, hash, replicas, early + later);
    RunKeepsOrigin(c, hash, replicas, early);
    RunKeepsOrigin(c1, hash, replicas, later);
    var got := GetVia(r, k, c1.stores, t1, replicaAlive, c2.stores, t2);
    if got.Some? {
      assert (k, got.value) in c2.written;
      WrittenIsSupplied(c, hash, replicas, early + later, k, got.value);
    }
  }
}
