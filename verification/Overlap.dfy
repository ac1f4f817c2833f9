// Reads while any number of rebalances overlap, replica writes are late,
// repeated or lost, and entries of other nodes expire or are evicted.
module Overlap {
  import opened Types
  import opened Ring
  import opened Routing
  import opened StoreSpec
  import opened Migration
  import opened Guarantees
  import opened Provenance

  // A key, a node that holds it without ttl, and its value.
  datatype Watch = Watch(key: Key, holder: NodeId, value: Value)

  ghost predicate Holds(w: Watch, stores: Stores) {
    CopyAt(CopiesOf(stores, w.key), w.holder) == Some(Entry(w.value, None))
  }

  // Whatever copy of the key there is has that value.
  ghost predicate OneValue(w: Watch, stores: Stores) {
    forall n | n in stores && w.key in stores[n] :: stores[n][w.key].value == w.value
  }

  // A job that will not touch the holder's copy, nor bring in another value.
  ghost predicate Spares(w: Watch, hash: HashFn, j: Job) {
    match j
    case Waiting(_, _) => true
    case Collecting(_, _, current, todo, snaps) =>
      && w.holder in OwnerIds(current, hash(w.key)) && OneValue(w, snaps)
      && (w.holder in todo || Holds(w, snaps))
    case Running(pending) =>
      forall t | t in pending && t.key == w.key :: t.node != w.holder && (t.PutTask? ==> t.value == w.value)
  }

  ghost predicate Safe(w: Watch, write: QueuedWrite) {
    write.key == w.key ==> write.value == w.value && (write.node == w.holder ==> write.ttl.None?)
  }

  ghost predicate Kept(w: Watch, hash: HashFn, c: Cluster) {
    && w.holder in c.members && Holds(w, c.stores) && OneValue(w, c.stores)
    && (forall write | write in c.queue :: Safe(w, write))
    && forall i | 0 <= i < |c.jobs| :: Spares(w, hash, c.jobs[i])
  }

  // What may happen: no client write of the key, no eviction of the holder's
  // copy, and no rebalance started while the holder is not one of the owners.
  ghost predicate Harmless(w: Watch, hash: HashFn, c: Cluster, e: Event) {
    match e
    case Put(k, _, _, _, _) => k != w.key
    case Delete(k, _) => k != w.key
    case Forget(n, k) => n != w.holder || k != w.key
    case Join(_, runtime) => w.key in runtime ==> runtime[w.key].value == w.value
    case Leave(id) => id != w.holder
    case StartJob(_) => w.holder in OwnerIds(c.ring, hash(w.key))
    case _ => true
  }

  ghost predicate AllHarmless(w: Watch, c: Cluster, hash: HashFn, replicas: nat, events: seq<Event>)
    requires Runs(c, hash, replicas, events)
    decreases events
  {
    events == [] ||
    (Harmless(w, hash, c, events[0]) &&
     AllHarmless(w, Apply(c, hash, replicas, events[0]), hash, replicas, events[1..]))
  }

  // Storing a value for a key at a node.
  lemma StoredIsKept(w: Watch, stores: Stores, n: NodeId, k: Key, v: Value, ttl: Option<real>, now: real)
    requires n in stores && Holds(w, stores) && OneValue(w, stores)
    requires k == w.key ==> v == w.value && (n == w.holder ==> ttl.None?)
    ensures var stores' := stores[n := ApplyPut(stores[n], k, v, ttl, now)];
            Holds(w, stores') && OneValue(w, stores')
  {
  }

  lemma ForgottenIsKept(w: Watch, stores: Stores, n: NodeId, k: Key)
    requires Holds(w, stores) && OneValue(w, stores) && (n != w.holder || k != w.key)
    ensures Holds(w, Forgotten(stores, n, k)) && OneValue(w, Forgotten(stores, n, k))
  {
  }

  // A plan from such snapshots spares the holder: it is an owner with a copy.
  lemma PlanSpares(w: Watch, p: Planning, snaps: Stores)
    requires Holds(w, snaps) && OneValue(w, snaps) && w.holder in OwnerIds(p.current, p.hash(w.key))
    ensures forall t | t in PlannedTasks(p, snaps) && t.key == w.key ::
              t.node != w.holder && (t.PutTask? ==> t.value == w.value)
  {
    PlannedForKey(p, snaps, w.key);
    SourceIsACopy(p, w.key, CopiesOf(snaps, w.key));
  }

  lemma OneJobSpares(w: Watch, hash: HashFn, c: Cluster, i: nat, j: Job)
    requires Kept(w, hash, c) && i < |c.jobs| && Spares(w, hash, j)
    ensures Kept(w, hash, c.(jobs := c.jobs[i := j]))
  {
  }

  lemma ClientStepKeeps(w: Watch, hash: HashFn, replicas: nat, c: Cluster, e: Event)
    requires Kept(w, hash, c) && Enabled(c, hash, e) && Harmless(w, hash, c, e)
    requires e.Put? || e.Delete? || e.Forget? || e.Replicate? || e.LoseWrite?
    ensures Kept(w, hash, Apply(c, hash, replicas, e))
  {
    match e {
      case Put(k, v, ttl, looks, now) =>
        var served := RouteBetween(c.ring, hash(k), looks.first, looks.second).servedBy;
        if served.Some? {
          StoredIsKept(w, c.stores, served.value.id, k, v, ttl, now);
        }
      case Delete(k, looks) =>
        var r := RouteBetween(c.ring, hash(k), looks.first, looks.second);
        if r.servedBy.Some? {
          ForgottenIsKept(w, c.stores, r.servedBy.value.id, k);
          var replica := ReplicaOf(r, looks.third);
          if replica.Some? {
            ForgottenIsKept(w, Forgotten(c.stores, r.servedBy.value.id, k), replica.value, k);
          }
        }
      case Forget(n, k) => ForgottenIsKept(w, c.stores, n, k);
      case Replicate(write, now) =>
        StoredIsKept(w, c.stores, write.node, write.key, write.value, write.ttl, now);
      case LoseWrite(_) =>
    }
  }

  lemma JobStepKeeps(w: Watch, hash: HashFn, replicas: nat, c: Cluster, e: Event)
    requires Kept(w, hash, c) && Enabled(c, hash, e) && Harmless(w, hash, c, e)
    requires e.StartJob? || e.PlanJob? || e.FailTask?
    ensures Kept(w, hash, Apply(c, hash, replicas, e))
  {
    var j := c.jobs[e.job];
    assert Spares(w, hash, j);
    if e.PlanJob? {
      PlanSpares(w, Planning(j.change, hash, j.previous, j.current, e.alive, c.members, e.order, e.now), j.snaps);
    }
    OneJobSpares(w, hash, c, e.job, Apply(c, hash, replicas, e).jobs[e.job]);
  }

  lemma TaskStepKeeps(w: Watch, hash: HashFn, replicas: nat, c: Cluster, e: Event)
    requires Kept(w, hash, c) && Enabled(c, hash, e) && e.FireTask?
    ensures Kept(w, hash, Apply(c, hash, replicas, e))
  {
    var t := e.task;
    assert Spares(w, hash, c.jobs[e.job]);
    if t.PutTask? {
      StoredIsKept(w, c.stores, t.node, t.key, t.value, t.ttl, e.now);
    } else {
      ForgottenIsKept(w, c.stores, t.node, t.key);
    }
    OneJobSpares(w, hash, c.(stores := ApplyTask(c.stores, t, e.now)), e.job, Running(c.jobs[e.job].pending - {t}));
  }

  lemma SnapshotStepKeeps(w: Watch, hash: HashFn, replicas: nat, c: Cluster, e: Event)
    requires Kept(w, hash, c) && Enabled(c, hash, e) && e.CollectFrom?
    ensures Kept(w, hash, Apply(c, hash, replicas, e))
  {
    var c', j := Apply(c, hash, replicas, e), c.jobs[e.job];
    assert Spares(w, hash, j);
    ListedIsKept(w, c.stores, e.from, e.listed, e.now);
    assert OneValue(w, j.snaps[e.from := e.listed]);
    OneJobSpares(w, hash, c.(stores := c'.stores), e.job, c'.jobs[e.job]);
  }

  lemma ListedIsKept(w: Watch, stores: Stores, n: NodeId, listed: Contents, now: real)
    requires Holds(w, stores) && OneValue(w, stores) && n in stores && PossibleListing(stores[n], listed, now)
    ensures Holds(w, stores[n := listed]) && OneValue(w, stores[n := listed])
    ensures w.key in listed ==> listed[w.key].value == w.value
  {
  }

  lemma TopologyStepKeeps(w: Watch, hash: HashFn, replicas: nat, c: Cluster, e: Event)
    requires Kept(w, hash, c) && Enabled(c, hash, e) && Harmless(w, hash, c, e)
    requires e.Join? || e.Leave?
    ensures Kept(w, hash, Apply(c, hash, replicas, e))
  {
    var c' := Apply(c, hash, replicas, e);
    assert forall i | 0 <= i < |c.jobs| :: c'.jobs[i] == c.jobs[i];
  }

  lemma StepKeeps(w: Watch, hash: HashFn, replicas: nat, c: Cluster, e: Event)
    requires Kept(w, hash, c) && Enabled(c, hash, e) && Harmless(w, hash, c, e)
    ensures Kept(w, hash, Apply(c, hash, replicas, e))
  {
    match e {
      case Join(_, _) => TopologyStepKeeps(w, hash, replicas, c, e);
      case Leave(_) => TopologyStepKeeps(w, hash, replicas, c, e);
      case StartJob(_) => JobStepKeeps(w, hash, replicas, c, e);
      case CollectFrom(_, _, _, _) => SnapshotStepKeeps(w, hash, replicas, c, e);
      case PlanJob(_, _, _, _) => JobStepKeeps(w, hash, replicas, c, e);
      case FireTask(_, _, _) => TaskStepKeeps(w, hash, replicas, c, e);
      case FailTask(_, _) => JobStepKeeps(w, hash, replicas, c, e);
      case _ => ClientStepKeeps(w, hash, replicas, c, e);
    }
  }

  // The holder keeps the key in every state of every such run.
  lemma {:induction false} RunKeeps(w: Watch, c: Cluster, hash: HashFn, replicas: nat, events: seq<Event>)
    requires Kept(w, hash, c) && Runs(c, hash, replicas, events) && AllHarmless(w, c, hash, replicas, events)
    ensures Kept(w, hash, Exec(c, hash, replicas, events))
    decreases events
  {
    if events == [] {
    } else {
      StepKeeps(w, hash, replicas, c, events[0]);
      RunKeeps(w, Apply(c, hash, replicas, events[0]), hash, replicas, events[1..]);
    }
  }

  lemma {:induction false} HarmlessParts(w: Watch, c: Cluster, hash: HashFn, replicas: nat, a: seq<Event>,
                                         b: seq<Event>)
    requires Runs(c, hash, replicas, a + b) && AllHarmless(w, c, hash, replicas, a + b)
    ensures Runs(c, hash, replicas, a) && AllHarmless(w, c, hash, replicas, a)
    decreases a
  {
    if a == [] {
    } else {
      assert (a + b)[1..] == a[1..] + b;
      HarmlessParts(w, Apply(c, hash, replicas, a[0]), hash, replicas, a[1..], b);
    }
  }

  // If the holder is one of the current owners when a get is routed, and alive,
  // the get finds the value, however many rebalances are under way and even if
  // its two reads see different states.
  lemma ReadsFindTheHolder(w: Watch, c: Cluster, hash: HashFn, replicas: nat, early: seq<Event>, later: seq<Event>,
                           up: set<NodeId>, t1: real, t2: real)
    requires Kept(w, hash, c) && Runs(c, hash, replicas, early + later)
    requires AllHarmless(w, c, hash, replicas, early + later) && w.holder in up
    ensures Runs(c, hash, replicas, early)
    ensures var c1, c2 := Exec(c, hash, replicas, early), Exec(c, hash, replicas, early + later);
            var r := Route(c1.ring, hash(w.key), up);
            w.holder in OwnerIds(c1.ring, hash(w.key)) ==>
              GetVia(r, w.key, c1.stores, t1, r.replica.Some? && r.replica.value.id in up, c2.stores, t2)
              == Some(w.value)
  {
    HarmlessParts(w, c, hash, replicas, early, later);
    RunKeeps(w, c, hash, replicas, early);
    RunKeeps(w, c, hash, replicas, early + later);
    var c1 := Exec(c, hash, replicas, early);
    OwnersAreOnTheRing(c1.ring, hash(w.key));
  }
}
