// What the cluster operations mean for those who use them: which entries and
// answers change, for how long, and which stay.
module OperationEffects {
  import opened Types
  import opened Ring
  import opened StoreSpec
  import opened StoreEffects
  import opened Routing
  import opened Migration
  import opened Guarantees
  import opened Replication
  import opened Transport
  import opened Operations
  import Provenance

  // What a node's store holds of a key.
  ghost predicate SameEntry(s: StoreState, t: StoreState, k: Key) {
    (k in s.entries <==> k in t.entries) && (k in s.entries ==> s.entries[k] == t.entries[k])
  }

  // What it would answer.
  ghost predicate SameAnswers(s: StoreState, t: StoreState, from: real) {
    forall k, later | from <= later :: GetSpec(s, k, later).1 == GetSpec(t, k, later).1
  }

  // ---------------------------------------------------------------------
  // Deletes.

  // A delete of a key the serving node n does not hold answers 404 and changes
  // nothing.  Otherwise it answers 200 and the key is gone from n and, if the
  // replica is another node that looks alive, from the replica.
  lemma DeleteMeans(d: RoutingDecision, key: Key, alive: set<NodeId>, sizes: map<NodeId, nat>,
                    before: StoreStates, r: Response, after: StoreStates)
    requires d.servedBy.Some? && AllValid(before, sizes)
    requires Deletes(key, d.servedBy.value.id, ReplicaOf(d, alive), before, r, after)
    ensures var n := d.servedBy.value.id;
            if key !in before[n].entries then
              r == Response(false, 404, None, None) && after == before
            else
              && r == Response(true, 200, None, Some(n)) && after.Keys == before.Keys
              && key !in after[n].entries
              && (d.replica.Some? && d.replica.value.id in alive ==> key !in after[d.replica.value.id].entries)
  {
    var n := d.servedBy.value.id;
    if key !in before[n].entries {
      var i := DeleteEffect(before[n], sizes[n], key);
    }
  }

  // Every other entry of every node stays: other keys everywhere, and the key
  // itself at every node but these two, also at a replica that looks dead.
  lemma DeleteSpares(d: RoutingDecision, key: Key, alive: set<NodeId>, before: StoreStates, r: Response,
                     after: StoreStates, m: NodeId, x: Key)
    requires d.servedBy.Some? && Deletes(key, d.servedBy.value.id, ReplicaOf(d, alive), before, r, after) && m in before
    requires x != key || (m != d.servedBy.value.id && (d.replica.None? || m != d.replica.value.id || m !in alive))
    ensures m in after && SameEntry(before[m], after[m], x)
  {
  }

  // After a successful delete with the replica alive, a get on the same route
  // finds nothing.
  lemma DeleteThenGet(d: RoutingDecision, key: Key, alive: set<NodeId>, sizes: map<NodeId, nat>,
                      before: StoreStates, r: Response, after: StoreStates, t1: real, t2: real)
    requires d.servedBy.Some? && AllValid(before, sizes) && r.ok
    requires Deletes(key, d.servedBy.value.id, ReplicaOf(d, alive), before, r, after)
    ensures GetVia(d, key, EntriesOf(after), t1, d.replica.Some? && d.replica.value.id in alive, EntriesOf(after), t2)
         == None
  {
    DeleteMeans(d, key, alive, sizes, before, r, after);
  }

  // It is the delete of the whole-cluster runs.
  lemma DeleteIsClusterDelete(c: Provenance.Cluster, hash: HashFn, replicas: nat, key: Key, looks: Provenance.Looks,
                              sizes: map<NodeId, nat>, before: StoreStates, r: Response, after: StoreStates)
    requires c.stores == EntriesOf(before) && AllValid(before, sizes)
    requires var d := RouteBetween(c.ring, hash(key), looks.first, looks.second);
             d.servedBy.Some? && Deletes(key, d.servedBy.value.id, ReplicaOf(d, looks.third), before, r, after)
    ensures Provenance.Apply(c, hash, replicas, Provenance.Event.Delete(key, looks)).stores == EntriesOf(after)
  {
    var d := RouteBetween(c.ring, hash(key), looks.first, looks.second);
    var n, replica := d.servedBy.value.id, ReplicaOf(d, looks.third);
    if key in before[n].entries {
      OneDeleted(before, n, key);
      if replica.Some? {
        OneDeleted(before[n := DeleteSpec(before[n], key)], replica.value, key);
      }
    } else {
      DeleteMeans(d, key, looks.third, sizes, before, r, after);
    }
  }

  lemma OneDeleted(states: StoreStates, n: NodeId, key: Key)
    requires n in states
    ensures EntriesOf(states[n := DeleteSpec(states[n], key)]) == Provenance.Forgotten(EntriesOf(states), n, key)
  {
  }

  // ---------------------------------------------------------------------
  // Puts.

  // Without a live owner a put answers 503 and changes nothing.  Otherwise it
  // answers 200, only the serving node's store and heartbeat change, and the
  // write queued for the replica, if that is another node and looks alive,
  // carries the put's key, value and ttl.
  lemma PutMeans(d: RoutingDecision, alive: set<NodeId>, key: Key, value: Value, ttl: Option<real>,
                 clock: nat -> real, sizes: map<NodeId, nat>, before: Visible, r: Response, after: Visible)
    requires Puts(d, alive, key, value, ttl, clock, sizes, before, r, after)
    ensures d.servedBy.None? ==> r == Response(false, 503, None, None) && after == before
    ensures d.servedBy.Some? ==>
              var n := d.servedBy.value.id;
              && r == Response(true, 200, None, Some(n))
              && n in before.states && after.states.Keys == before.states.Keys
              && (forall m | m in before.states && m != n :: after.states[m] == before.states[m])
              && after.beats == before.beats[n := clock(4)]
              && after.queue == before.queue +
                   if d.replica.Some? && d.replica.value.id != n && d.replica.value.id in alive
                   then [QueuedWrite(d.replica.value.id, key, value, ttl)] else []
  {
  }

  // The serving node then counts as alive for the timeout.
  lemma PutIsAHeartbeat(d: RoutingDecision, alive: set<NodeId>, key: Key, value: Value, ttl: Option<real>,
                        clock: nat -> real, sizes: map<NodeId, nat>, before: Visible, r: Response, after: Visible,
                        timeout: real, now: real)
    requires Puts(d, alive, key, value, ttl, clock, sizes, before, r, after) && d.servedBy.Some?
    ensures d.servedBy.value.id in AliveAt(after.beats, timeout, now) <==> now <= clock(4) + timeout
  {
    AliveUntilTheTimeout(after.beats, timeout, d.servedBy.value.id, now);
  }

  // How long a write made at a time is answered.
  predicate Answered(ttl: Option<real>, made: real, now: real) {
    ttl.None? || (ttl.value > 0.0 && now < made + ttl.value)
  }

  // The serving node answers the put's value until its ttl has run out since the
  // put, and the replica, once its queued write w has been made at time d, until
  // it has run out since then.
  lemma PutThenDrain(d: RoutingDecision, alive: set<NodeId>, key: Key, value: Value, ttl: Option<real>,
                     clock: nat -> real, sizes: map<NodeId, nat>, before: Visible, r: Response, after: Visible,
                     w: QueuedWrite, replica: StoreState, made: real, now: real)
    requires Puts(d, alive, key, value, ttl, clock, sizes, before, r, after) && d.servedBy.Some?
    requires AllValid(before.states, sizes)
    requires |after.queue| > |before.queue| && w == after.queue[|before.queue|]
    requires w.node in sizes && sizes[w.node] > 0 && ValidStore(replica, sizes[w.node])
    ensures d.replica.Some? && w.node == d.replica.value.id
    ensures d.servedBy.value.id in after.states
    ensures GetSpec(after.states[d.servedBy.value.id], key, now).1
         == if Answered(ttl, clock(3), now) then Some(value) else None
    ensures GetSpec(PutSpec(replica, sizes[w.node], w.key, w.value, w.ttl, made), key, now).1
         == if Answered(ttl, made, now) then Some(value) else None
  {
    var n := d.servedBy.value.id;
    PutMeans(d, alive, key, value, ttl, clock, sizes, before, r, after);
    PutThenGet(before.states[n], sizes[n], key, value, ttl, clock(3), now);
    PutThenGet(replica, sizes[w.node], key, value, ttl, made, now);
  }

  // With room it is the put of the whole-cluster runs.
  lemma PutIsClusterPut(c: Provenance.Cluster, hash: HashFn, replicas: nat, looks: Provenance.Looks,
                        key: Key, value: Value, ttl: Option<real>, clock: nat -> real, sizes: map<NodeId, nat>,
                        before: Visible, r: Response, after: Visible)
    requires c.stores == EntriesOf(before.states) && c.queue == multiset(before.queue) && AllValid(before.states, sizes)
    requires var d := RouteBetween(c.ring, hash(key), looks.first, looks.second);
             && Puts(d, looks.third, key, value, ttl, clock, sizes, before, r, after)
             && (d.servedBy.Some? ==> HasRoom(before.states, sizes, d.servedBy.value.id, key))
    ensures var put := Provenance.Event.Put(key, value, ttl, looks, clock(3));
            && Provenance.Enabled(c, hash, put)
            && Provenance.Apply(c, hash, replicas, put).stores == EntriesOf(after.states)
            && Provenance.Apply(c, hash, replicas, put).queue == multiset(after.queue)
  {
    var d := RouteBetween(c.ring, hash(key), looks.first, looks.second);
    if d.servedBy.Some? {
      var n := d.servedBy.value.id;
      ApplyPutIsStorePut(before.states[n], sizes[n], key, value, ttl, clock(3));
      EntriesAfterUpdate(before.states, n, PutSpec(before.states[n], sizes[n], key, value, ttl, clock(3)));
    }
  }

  // ---------------------------------------------------------------------
  // Gets.

  // A get's response: the value with 200 and the node it came from, the serving
  // node if that has one and otherwise the replica, or 404.
  lemma AnswerMeans(d: RoutingDecision, key: Key, alive: set<NodeId>, now: real, later: real,
                    before: StoreStates, r: Response, after: StoreStates)
    requires Answers(d, key, ReplicaOf(d, alive), now, later, before, r, after)
    ensures var n := d.servedBy.value.id;
            var first := ReadAt(EntriesOf(before), n, key, now);
            && (r.value.Some? ==> r.ok && r.status == 200)
            && (r.value.None? ==> r == Response(false, 404, None, None))
            && (first.Some? ==> r.value == first && r.servedBy == Some(n))
            && (first.None? && r.value.Some? ==>
                  && d.replica.Some? && r.servedBy == Some(d.replica.value.id) && d.replica.value.id in alive
                  && r.value == ReadAt(EntriesOf(before), d.replica.value.id, key, later))
  {
  }

  // A get changes no node's answers, and no store but those of the two owners.
  lemma GetLeavesAnswers(d: RoutingDecision, key: Key, alive: set<NodeId>, now: real, later: real,
                         before: StoreStates, r: Response, after: StoreStates, m: NodeId, from: real)
    requires Answers(d, key, ReplicaOf(d, alive), now, later, before, r, after) && m in before
    requires now <= from && later <= from
    ensures after.Keys == before.Keys && SameAnswers(before[m], after[m], from)
    ensures m != d.servedBy.value.id && (d.replica.None? || m != d.replica.value.id) ==> after[m] == before[m]
  {
    var n := d.servedBy.value.id;
    forall k, t | from <= t ensures GetSpec(before[m], k, t).1 == GetSpec(after[m], k, t).1 {
      GetIsInvisible(before[m], key, now, k, t);
      GetIsInvisible(before[m], key, later, k, t);
    }
  }

  // ---------------------------------------------------------------------
  // Tasks and full stores.

  // A task changes its own node only.  A delete removes the key; a put makes it
  // the newest, and in a full store without it the oldest key goes.
  lemma TaskMeans(states: StoreStates, sizes: map<NodeId, nat>, t: Task, now: real)
    requires states.Keys <= sizes.Keys && AllValid(states, sizes)
    ensures var after := AfterTask(states, sizes, t, now);
            && after.Keys == states.Keys
            && (forall m | m in states && m != t.node :: after[m] == states[m])
            && (t.node in states && t.DeleteTask? ==> after[t.node].entries == states[t.node].entries - {t.key})
            && (t.node in states && t.PutTask? && (t.ttl.Some? ==> t.ttl.value > 0.0) ==>
                  EntriesAfterPut(states[t.node], sizes[t.node], t.key, t.value, t.ttl, now, after[t.node].entries))
  {
    if t.node in states && t.PutTask? && (t.ttl.Some? ==> t.ttl.value > 0.0) {
      PutEntries(states[t.node], sizes[t.node], t.key, t.value, t.ttl, now);
    }
  }

  predicate EntriesAfterPut(s: StoreState, max: nat, k: Key, v: Value, ttl: Option<real>, now: real, after: Contents)
    requires k in s.entries || |s.order| < max || s.order != []
  {
    var e := Entry(v, if ttl.None? then None else Some(now + ttl.value));
    after == if k in s.entries || |s.order| < max then s.entries[k := e] else (s.entries - {s.order[0]})[k := e]
  }

  lemma PutEntries(s: StoreState, max: nat, k: Key, v: Value, ttl: Option<real>, now: real)
    requires ValidStore(s, max) && max > 0 && (ttl.Some? ==> ttl.value > 0.0)
    ensures EntriesAfterPut(s, max, k, v, ttl, now, PutSpec(s, max, k, v, ttl, now).entries)
  {
    var i := PutEffect(s, max, k, v, ttl, now);
  }

  // So does a client's put at the serving node.
  lemma PutAtServingNode(d: RoutingDecision, alive: set<NodeId>, key: Key, value: Value, ttl: Option<real>,
                         clock: nat -> real, sizes: map<NodeId, nat>, before: Visible, r: Response, after: Visible)
    requires Puts(d, alive, key, value, ttl, clock, sizes, before, r, after) && d.servedBy.Some?
    requires AllValid(before.states, sizes) && (ttl.Some? ==> ttl.value > 0.0)
    ensures var n := d.servedBy.value.id;
            && n in after.states
            && EntriesAfterPut(before.states[n], sizes[n], key, value, ttl, clock(3), after.states[n].entries)
  {
    var n := d.servedBy.value.id;
    PutEntries(before.states[n], sizes[n], key, value, ttl, clock(3));
  }

  // ---------------------------------------------------------------------
  // Snapshots.

  // Taking snapshots changes the listed nodes' stores only, in which an entry
  // stays as it was or has expired by the end; none that stays had expired
  // before the node's second listing began.
  lemma SnapshotsMean(before: StoreStates, sizes: map<NodeId, nat>, nodes: set<NodeId>,
                      items: NodeId -> nat -> real, entries: NodeId -> nat -> real, n: NodeId, end: real)
    requires AllValid(before, sizes) && n in before && EndsBy(n, items, entries, end)
    requires Nondecreasing(entries(n))
    ensures var after := Snapshotted(before, nodes, ListTwice(items, entries));
            && after.Keys == before.Keys
            && (n !in nodes ==> after[n] == before[n])
            && (n in nodes ==>
                  && SnapshotsOf(after, nodes)[n] == after[n].entries
                  && (forall k | k in after[n].entries ::
                        k in before[n].entries && after[n].entries[k] == before[n].entries[k])
                  && (forall k | k in before[n].entries && k !in after[n].entries :: !Live(before[n].entries[k], end))
                  && (forall k | k in after[n].entries :: Live(after[n].entries[k], entries(n)(0))))
  {
    var s, max := before[n], sizes[n];
    SnapshotIsCollect(n, s, max, items, entries, end);
    ListingKeepsValid(s, max, items(n));
    ListingBounds(ListingSpec(s, items(n)), max, entries(n));
    var after := ListTwice(items, entries)(n, s).entries;
    forall k | k in after ensures Live(after[k], entries(n)(0)) {
      assert k in LiveAt(ListingSpec(s, items(n)).entries, entries(n)(0));
      ListingIsPossible(ListingSpec(s, items(n)), max, entries(n), end);
    }
  }
}
