// Asynchronous replica writes with a fixed, fully alive membership: how far a
// replica lags, and what survives the loss of one node.
module Replication {
  import opened Types
  import opened Ring
  import opened Routing
  import opened StoreSpec
  import opened Migration
  import opened Guarantees

  // Background writes run in the order they were submitted.
  datatype ReplState = ReplState(stores: Stores, queue: seq<QueuedWrite>, clock: real)

  datatype ReplEvent =
    | ClientPut(key: Key, value: Value, ttl: Option<real>)
    | ClientGet(key: Key)
    | Drain
    | Expire(node: NodeId, key: Key)   // an expired entry is dropped, by a get or a cleanup
    | Tick(elapsed: real)

  function Store(stores: Stores, n: NodeId, k: Key, v: Value, ttl: Option<real>, now: real): Stores
    requires n in stores
  {
    stores[n := ApplyPut(stores[n], k, v, ttl, now)]
  }

  ghost function Step(v: Vnodes, hash: HashFn, s: ReplState, e: ReplEvent): ReplState
    requires OnlyMembers(v, s.stores.Keys) && forall w | w in s.queue :: w.node in s.stores
  {
    match e
    case ClientGet(_) => s
    case ClientPut(k, x, ttl) =>
      var o := OwnersOf(v, hash(k));
      OwnersAreMembers(v, s.stores.Keys, hash(k));
      if o.primary.None? then s
      else
        assert o.primary.value.id in Ids(o);
        s.(stores := Store(s.stores, o.primary.value.id, k, x, ttl, s.clock),
           queue := s.queue + if o.replica.Some? then [QueuedWrite(o.replica.value.id, k, x, ttl)] else [])
    case Drain =>
      if s.queue == [] then s
      else
        var w := s.queue[0];
        s.(stores := Store(s.stores, w.node, w.key, w.value, w.ttl, s.clock), queue := s.queue[1..])
    case Expire(n, k) =>
      if n in s.stores && k in s.stores[n] && Expired(s.stores[n][k], s.clock)
      then s.(stores := s.stores[n := s.stores[n] - {k}]) else s
    case Tick(elapsed) => if elapsed > 0.0 then s.(clock := s.clock + elapsed) else s
  }

  function CopyOf(stores: Stores, n: NodeId, k: Key): Option<Entry> {
    CopyAt(CopiesOf(stores, k), n)
  }

  // What a write leaves of its key.
  function PutResult(v: Value, ttl: Option<real>, now: real): Option<Entry> {
    if ttl.Some? && ttl.value <= 0.0 then None else Some(NewEntry(v, ttl, now))
  }

  // The last write queued for a key at a node.
  function LastQueued(queue: seq<QueuedWrite>, n: NodeId, k: Key): Option<QueuedWrite> {
    if queue == [] then None
    else
      var w := queue[|queue| - 1];
      if w.node == n && w.key == k then Some(w) else LastQueued(queue[..|queue| - 1], n, k)
  }

  // A copy as it would be if the queue were written now.
  function Overlay(queue: seq<QueuedWrite>, n: NodeId, k: Key, base: Option<Entry>, now: real): Option<Entry> {
    var w := LastQueued(queue, n, k);
    if w.Some? then PutResult(w.value.value, w.value.ttl, now) else base
  }

  // The replica's copy r answers whenever the primary's copy p does, with its
  // value, and not for a shorter time; without expiry the two are equal.
  predicate Shadows(p: Option<Entry>, r: Option<Entry>, now: real) {
    && (p.Some? && !Expired(p.value, now) ==>
          && r.Some? && r.value.value == p.value.value
          && (p.value.expiresAt.None? <==> r.value.expiresAt.None?)
          && (p.value.expiresAt.Some? ==> p.value.expiresAt.value <= r.value.expiresAt.value))
    && (r.Some? && r.value.expiresAt.None? ==> p == r)
  }

  // The writes still queued, laid over the replica's copy, shadow the primary's.
  ghost predicate LagIsQueue(v: Vnodes, hash: HashFn, s: ReplState, k: Key) {
    var o := OwnersOf(v, hash(k));
    o.replica.Some? ==>
      Shadows(CopyOf(s.stores, o.primary.value.id, k),
              Overlay(s.queue, o.replica.value.id, k, CopyOf(s.stores, o.replica.value.id, k), s.clock), s.clock)
  }

  // Every queued write goes to the replica of its key.
  ghost predicate QueuedForReplicas(v: Vnodes, hash: HashFn, s: ReplState) {
    forall w | w in s.queue ::
      && w.node in s.stores
      && OwnersOf(v, hash(w.key)).replica.Some? && OwnersOf(v, hash(w.key)).replica.value.id == w.node
  }

  ghost predicate ReplInv(v: Vnodes, hash: HashFn, s: ReplState) {
    && OnlyMembers(v, s.stores.Keys) && QueuedForReplicas(v, hash, s)
    && forall k :: LagIsQueue(v, hash, s, k)
  }

  lemma LastQueuedAppend(queue: seq<QueuedWrite>, w: QueuedWrite, n: NodeId, k: Key)
    ensures LastQueued(queue + [w], n, k) == if w.node == n && w.key == k then Some(w) else LastQueued(queue, n, k)
  {
    assert (queue + [w])[..|queue|] == queue;
  }

  // Taking the oldest write matters only if it is the last for its key.
  lemma {:induction false} LastQueuedTake(queue: seq<QueuedWrite>, n: NodeId, k: Key)
    requires queue != []
    ensures LastQueued(queue, n, k)
         == if LastQueued(queue[1..], n, k).Some? then LastQueued(queue[1..], n, k)
            else if queue[0].node == n && queue[0].key == k then Some(queue[0]) else None
  {
    if |queue| == 1 {
      assert queue[..0] == [];
    } else {
      assert queue[1..][..|queue| - 2] == queue[..|queue| - 1][1..];
      LastQueuedTake(queue[..|queue| - 1], n, k);
    }
  }

  lemma {:induction false} NoneQueued(queue: seq<QueuedWrite>, n: NodeId, k: Key)
    requires forall w | w in queue :: w.node != n || w.key != k
    ensures LastQueued(queue, n, k) == None
  {
    if queue == [] {
    } else {
      assert queue[|queue| - 1] in queue && forall w | w in queue[..|queue| - 1] :: w in queue;
      NoneQueued(queue[..|queue| - 1], n, k);
    }
  }

  lemma {:induction false} LastQueuedIsQueued(queue: seq<QueuedWrite>, n: NodeId, k: Key)
    ensures LastQueued(queue, n, k).Some? ==>
              var w := LastQueued(queue, n, k).value; w in queue && w.node == n && w.key == k
  {
    if queue == [] {
    } else {
      LastQueuedIsQueued(queue[..|queue| - 1], n, k);
    }
  }

  lemma StoreChangesOneCopy(stores: Stores, n: NodeId, k: Key, x: Value, ttl: Option<real>, now: real,
                             m: NodeId, k': Key)
    requires n in stores
    ensures CopyOf(Store(stores, n, k, x, ttl, now), m, k')
         == if m == n && k' == k then PutResult(x, ttl, now) else CopyOf(stores, m, k')
  {
  }

  lemma PutKeepsLag(v: Vnodes, hash: HashFn, s: ReplState, e: ReplEvent, k: Key)
    requires OnlyMembers(v, s.stores.Keys) && QueuedForReplicas(v, hash, s)
    requires LagIsQueue(v, hash, s, k) && e.ClientPut?
    ensures LagIsQueue(v, hash, Step(v, hash, s, e), k)
  {
    var o, ok := OwnersOf(v, hash(e.key)), OwnersOf(v, hash(k));
    if ok.replica.Some? {
      var p, r := ok.primary.value.id, ok.replica.value.id;
      OwnersAreOnTheRing(v, hash(k));
      OwnersAreMembers(v, s.stores.Keys, hash(e.key));
      assert v != map[] && o.primary.value.id in Ids(o);
      StoreChangesOneCopy(s.stores, o.primary.value.id, e.key, e.value, e.ttl, s.clock, p, k);
      StoreChangesOneCopy(s.stores, o.primary.value.id, e.key, e.value, e.ttl, s.clock, r, k);
      if o.replica.Some? {
        LastQueuedAppend(s.queue, QueuedWrite(o.replica.value.id, e.key, e.value, e.ttl), r, k);
      } else {
        assert s.queue + [] == s.queue;
      }
    }
  }

  lemma DrainKeepsLag(v: Vnodes, hash: HashFn, s: ReplState, k: Key)
    requires OnlyMembers(v, s.stores.Keys) && LagIsQueue(v, hash, s, k) && QueuedForReplicas(v, hash, s)
    ensures LagIsQueue(v, hash, Step(v, hash, s, Drain), k)
  {
    var ok := OwnersOf(v, hash(k));
    if s.queue != [] && ok.replica.Some? {
      var w := s.queue[0];
      assert w in s.queue;
      OwnersAreOnTheRing(v, hash(k));
      LastQueuedTake(s.queue, ok.replica.value.id, k);
      StoreChangesOneCopy(s.stores, w.node, w.key, w.value, w.ttl, s.clock, ok.primary.value.id, k);
      StoreChangesOneCopy(s.stores, w.node, w.key, w.value, w.ttl, s.clock, ok.replica.value.id, k);
    }
  }

  // Time passing and expired entries going.
  lemma TimeKeepsLag(v: Vnodes, hash: HashFn, s: ReplState, e: ReplEvent, k: Key)
    requires OnlyMembers(v, s.stores.Keys) && LagIsQueue(v, hash, s, k) && QueuedForReplicas(v, hash, s)
    requires e.Expire? || e.Tick?
    ensures LagIsQueue(v, hash, Step(v, hash, s, e), k)
  {
    var o := OwnersOf(v, hash(k));
    if o.replica.Some? {
      OwnersAreOnTheRing(v, hash(k));
      var p, r, s' := o.primary.value.id, o.replica.value.id, Step(v, hash, s, e);
      if e.Expire? {
        ExpireDropsExpired(s, e, v, hash, p, k);
        ExpireDropsExpired(s, e, v, hash, r, k);
      } else {
        ShadowsLater(CopyOf(s.stores, p, k), s.queue, r, k, CopyOf(s.stores, r, k), s.clock, s'.clock);
      }
    }
  }

  lemma ExpireDropsExpired(s: ReplState, e: ReplEvent, v: Vnodes, hash: HashFn, n: NodeId, k: Key)
    requires OnlyMembers(v, s.stores.Keys) && QueuedForReplicas(v, hash, s) && e.Expire?
    ensures var s' := Step(v, hash, s, e);
            || CopyOf(s'.stores, n, k) == CopyOf(s.stores, n, k)
            || (CopyOf(s'.stores, n, k).None? && CopyOf(s.stores, n, k).Some?
                && Expired(CopyOf(s.stores, n, k).value, s.clock))
  {
  }

  lemma ShadowsLater(p: Option<Entry>, queue: seq<QueuedWrite>, n: NodeId, k: Key, base: Option<Entry>,
                     now: real, later: real)
    requires now <= later && Shadows(p, Overlay(queue, n, k, base, now), now)
    ensures Shadows(p, Overlay(queue, n, k, base, later), later)
  {
  }

  lemma StepKeepsInv(v: Vnodes, hash: HashFn, s: ReplState, e: ReplEvent)
    requires ReplInv(v, hash, s)
    ensures ReplInv(v, hash, Step(v, hash, s, e))
    ensures Step(v, hash, s, e).stores.Keys == s.stores.Keys && s.clock <= Step(v, hash, s, e).clock
  {
    var s' := Step(v, hash, s, e);
    assert forall w | w in s.queue :: w.node in s.stores;
    match e {
      case ClientPut(k, x, ttl) =>
        OwnersAreMembers(v, s.stores.Keys, hash(k));
        forall k' ensures LagIsQueue(v, hash, s', k') { PutKeepsLag(v, hash, s, e, k'); }
      case Drain =>
        forall k' ensures LagIsQueue(v, hash, s', k') { DrainKeepsLag(v, hash, s, k'); }
      case ClientGet(_) =>
      case _ =>
        forall k' ensures LagIsQueue(v, hash, s', k') { TimeKeepsLag(v, hash, s, e, k'); }
    }
  }

  ghost function Reach(v: Vnodes, hash: HashFn, s: ReplState, events: seq<ReplEvent>): (r: ReplState)
    requires ReplInv(v, hash, s)
    ensures ReplInv(v, hash, r) && r.stores.Keys == s.stores.Keys && s.clock <= r.clock
  {
    if events == [] then s
    else
      var before := Reach(v, hash, s, events[..|events| - 1]);
      StepKeepsInv(v, hash, before, events[|events| - 1]);
      Step(v, hash, before, events[|events| - 1])
  }

  // With replicas shadowing their primaries and nothing queued, the invariant holds.
  lemma AgreementIsAStart(v: Vnodes, hash: HashFn, s: ReplState)
    requires OnlyMembers(v, s.stores.Keys) && s.queue == []
    requires forall k :: var o := OwnersOf(v, hash(k));
                         o.replica.Some? ==>
                           Shadows(CopyOf(s.stores, o.primary.value.id, k),
                                   CopyOf(s.stores, o.replica.value.id, k), s.clock)
    ensures ReplInv(v, hash, s)
  {
    forall k ensures LagIsQueue(v, hash, s, k) {
      var o := OwnersOf(v, hash(k));
      assert o.replica.Some? ==>
          Shadows(CopyOf(s.stores, o.primary.value.id, k),
                                   CopyOf(s.stores, o.replica.value.id, k), s.clock);
    }
  }

  // In every state of every run from such a start, the replica lags by exactly
  // the queued writes; without one for k the replica's copy answers whenever the
  // primary's does, with its value, and if neither expires they are equal.
  lemma ReplicaLagsByTheQueue(v: Vnodes, hash: HashFn, s: ReplState, events: seq<ReplEvent>, k: Key)
    requires OnlyMembers(v, s.stores.Keys) && s.queue == []
    requires forall x :: var o := OwnersOf(v, hash(x));
                         o.replica.Some? ==>
                           Shadows(CopyOf(s.stores, o.primary.value.id, x),
                                   CopyOf(s.stores, o.replica.value.id, x), s.clock)
    ensures ReplInv(v, hash, s)
    ensures var s1, o := Reach(v, hash, s, events), OwnersOf(v, hash(k));
            o.replica.Some? ==>
              var p, r := CopyOf(s1.stores, o.primary.value.id, k), CopyOf(s1.stores, o.replica.value.id, k);
              && Shadows(p, Overlay(s1.queue, o.replica.value.id, k, r, s1.clock), s1.clock)
              && ((forall w | w in s1.queue :: w.key != k) ==>
                    && (forall t | s1.clock <= t :: p.Some? && !Expired(p.value, t) ==>
                                                      r.Some? && !Expired(r.value, t) && r.value.value == p.value.value)
                    && ((p.Some? ==> p.value.expiresAt.None?) && (r.Some? ==> r.value.expiresAt.None?) ==> p == r))
  {
    AgreementIsAStart(v, hash, s);
    var s1, o := Reach(v, hash, s, events), OwnersOf(v, hash(k));
    assert LagIsQueue(v, hash, s1, k);
    if o.replica.Some? && forall w | w in s1.queue :: w.key != k {
      NoneQueued(s1.queue, o.replica.value.id, k);
      ShadowAnswers(CopyOf(s1.stores, o.primary.value.id, k), CopyOf(s1.stores, o.replica.value.id, k), s1.clock);
    }
  }

  lemma ShadowAnswers(p: Option<Entry>, r: Option<Entry>, now: real)
    requires Shadows(p, r, now)
    ensures forall t | now <= t :: p.Some? && !Expired(p.value, t) ==>
                                     r.Some? && !Expired(r.value, t) && r.value.value == p.value.value
    ensures (p.Some? ==> p.value.expiresAt.None?) && (r.Some? ==> r.value.expiresAt.None?) ==> p == r
  {
  }

  // ---------------------------------------------------------------------
  // The last put of a key.

  // A put, and when it was made.
  datatype Written = Written(value: Value, ttl: Option<real>, at: real)

  ghost function LastPut(v: Vnodes, hash: HashFn, s: ReplState, events: seq<ReplEvent>, k: Key): Option<Written>
    requires ReplInv(v, hash, s)
  {
    if events == [] then None
    else
      var before, e := events[..|events| - 1], events[|events| - 1];
      if e.ClientPut? && e.key == k then Some(Written(e.value, e.ttl, Reach(v, hash, s, before).clock))
      else LastPut(v, hash, s, before, k)
  }

  // A copy made of that put at time d, or gone since it expired.
  predicate MadeAt(copy: Option<Entry>, w: Written, d: real, now: real) {
    || copy == PutResult(w.value, w.ttl, d)
    || (copy.None? && PutResult(w.value, w.ttl, d).Some? && Expired(PutResult(w.value, w.ttl, d).value, now))
  }

  // Such a copy answers with the value until d + ttl, and not from then on.
  lemma MadeAtAnswers(stores: Stores, n: NodeId, k: Key, w: Written, d: real, now: real, t: real)
    requires MadeAt(CopyOf(stores, n, k), w, d, now) && now <= t
    ensures ReadAt(stores, n, k, t)
         == if w.ttl.Some? && (w.ttl.value <= 0.0 || d + w.ttl.value <= t) then None else Some(w.value)
  {
  }

  lemma {:induction false} PrimaryHoldsLastPut(v: Vnodes, hash: HashFn, s: ReplState, events: seq<ReplEvent>, k: Key)
    requires ReplInv(v, hash, s) && v != map[] && LastPut(v, hash, s, events, k).Some?
    ensures var s1, w := Reach(v, hash, s, events), LastPut(v, hash, s, events, k).value;
            w.at <= s1.clock && MadeAt(CopyOf(s1.stores, OwnersOf(v, hash(k)).primary.value.id, k), w, w.at, s1.clock)
  {
    var before, e := events[..|events| - 1], events[|events| - 1];
    var s0 := Reach(v, hash, s, before);
    PrimaryChangesByPutsOnly(v, hash, s0, e, k);
    if e.ClientPut? && e.key == k {
    } else {
      PrimaryHoldsLastPut(v, hash, s, before, k);
    }
  }

  lemma PrimaryChangesByPutsOnly(v: Vnodes, hash: HashFn, s: ReplState, e: ReplEvent, k: Key)
    requires ReplInv(v, hash, s) && v != map[]
    ensures var p, s' := OwnersOf(v, hash(k)).primary.value.id, Step(v, hash, s, e);
            && s.clock <= s'.clock
            && if e.ClientPut? && e.key == k then
                 CopyOf(s'.stores, p, k) == PutResult(e.value, e.ttl, s.clock) && s'.clock == s.clock
               else
                 || CopyOf(s'.stores, p, k) == CopyOf(s.stores, p, k)
                 || (CopyOf(s'.stores, p, k).None? && CopyOf(s.stores, p, k).Some?
                     && Expired(CopyOf(s.stores, p, k).value, s.clock))
  {
    var p := OwnersOf(v, hash(k)).primary.value.id;
    OwnersAreOnTheRing(v, hash(k));
    match e {
      case ClientPut(k', x, ttl) =>
        OwnersAreMembers(v, s.stores.Keys, hash(k'));
        assert OwnersOf(v, hash(k')).primary.value.id in OwnerIds(v, hash(k'));
        StoreChangesOneCopy(s.stores, OwnersOf(v, hash(k')).primary.value.id, k', x, ttl, s.clock, p, k);
      case Drain =>
        if s.queue != [] {
          var w := s.queue[0];
          assert w in s.queue;
          StoreChangesOneCopy(s.stores, w.node, w.key, w.value, w.ttl, s.clock, p, k);
        }
      case Expire(_, _) => ExpireDropsExpired(s, e, v, hash, p, k);
      case _ =>
    }
  }

  // The replica's write of the last put is still queued, or was made at some
  // time since.
  ghost predicate QueuedOrMade(s: ReplState, n: NodeId, k: Key, w: Written) {
    var last := LastQueued(s.queue, n, k);
    if last.Some? then last.value.value == w.value && last.value.ttl == w.ttl
    else MadeSince(CopyOf(s.stores, n, k), w, s.clock)
  }

  ghost predicate MadeSince(copy: Option<Entry>, w: Written, now: real) {
    exists d: real :: w.at <= d <= now && MadeAt(copy, w, d, now)
  }

  lemma MadeStays(copy: Option<Entry>, w: Written, now: real, copy': Option<Entry>, later: real)
    requires MadeSince(copy, w, now) && now <= later
    requires copy' == copy || (copy'.None? && copy.Some? && Expired(copy.value, now))
    ensures MadeSince(copy', w, later)
  {
    var d: real :| w.at <= d <= now && MadeAt(copy, w, d, now);
    assert MadeAt(copy', w, d, later);
  }

  lemma {:induction false} ReplicaGetsLastPut(v: Vnodes, hash: HashFn, s: ReplState, events: seq<ReplEvent>, k: Key)
    requires ReplInv(v, hash, s) && OwnersOf(v, hash(k)).replica.Some? && LastPut(v, hash, s, events, k).Some?
    ensures LastPut(v, hash, s, events, k).value.at <= Reach(v, hash, s, events).clock
    ensures QueuedOrMade(Reach(v, hash, s, events), OwnersOf(v, hash(k)).replica.value.id, k,
                         LastPut(v, hash, s, events, k).value)
  {
    var before, e := events[..|events| - 1], events[|events| - 1];
    var s0, n := Reach(v, hash, s, before), OwnersOf(v, hash(k)).replica.value.id;
    if e.ClientPut? && e.key == k {
      PutQueuesTheWrite(v, hash, s0, e, n);
    } else {
      ReplicaGetsLastPut(v, hash, s, before, k);
      StepKeepsQueuedOrMade(v, hash, s0, e, n, k, LastPut(v, hash, s, before, k).value);
    }
  }

  lemma PutQueuesTheWrite(v: Vnodes, hash: HashFn, s: ReplState, e: ReplEvent, n: NodeId)
    requires ReplInv(v, hash, s) && e.ClientPut?
    requires OwnersOf(v, hash(e.key)).replica.Some? && OwnersOf(v, hash(e.key)).replica.value.id == n
    ensures QueuedOrMade(Step(v, hash, s, e), n, e.key, Written(e.value, e.ttl, s.clock))
  {
    OwnersAreOnTheRing(v, hash(e.key));
    LastQueuedAppend(s.queue, QueuedWrite(n, e.key, e.value, e.ttl), n, e.key);
  }

  lemma StepKeepsQueuedOrMade(v: Vnodes, hash: HashFn, s: ReplState, e: ReplEvent, n: NodeId, k: Key, w: Written)
    requires ReplInv(v, hash, s) && OwnersOf(v, hash(k)).replica.Some? && OwnersOf(v, hash(k)).replica.value.id == n
    requires QueuedOrMade(s, n, k, w) && w.at <= s.clock && (e.ClientPut? ==> e.key != k)
    ensures QueuedOrMade(Step(v, hash, s, e), n, k, w) && s.clock <= Step(v, hash, s, e).clock
  {
    match e {
      case ClientPut(_, _, _) => OtherPutKeepsCopy(v, hash, s, e, n, k);
      case Drain => DrainMakes(v, hash, s, n, k, w);
      case ClientGet(_) =>
      case _ => TimeKeepsQueuedOrMade(v, hash, s, e, n, k, w);
    }
  }

  lemma TimeKeepsQueuedOrMade(v: Vnodes, hash: HashFn, s: ReplState, e: ReplEvent, n: NodeId, k: Key, w: Written)
    requires ReplInv(v, hash, s) && QueuedOrMade(s, n, k, w) && (e.Expire? || e.Tick?)
    ensures QueuedOrMade(Step(v, hash, s, e), n, k, w) && s.clock <= Step(v, hash, s, e).clock
  {
    var s' := Step(v, hash, s, e);
    if e.Expire? {
      ExpireDropsExpired(s, e, v, hash, n, k);
    }
    if LastQueued(s.queue, n, k).None? {
      MadeStays(CopyOf(s.stores, n, k), w, s.clock, CopyOf(s'.stores, n, k), s'.clock);
    }
  }

  lemma OtherPutKeepsCopy(v: Vnodes, hash: HashFn, s: ReplState, e: ReplEvent, n: NodeId, k: Key)
    requires ReplInv(v, hash, s) && e.ClientPut? && e.key != k
    ensures var s' := Step(v, hash, s, e);
            && s'.clock == s.clock && CopyOf(s'.stores, n, k) == CopyOf(s.stores, n, k)
            && LastQueued(s'.queue, n, k) == LastQueued(s.queue, n, k)
  {
    var o := OwnersOf(v, hash(e.key));
    OwnersAreMembers(v, s.stores.Keys, hash(e.key));
    if o.primary.Some? {
      assert o.primary.value.id in Ids(o);
      StoreChangesOneCopy(s.stores, o.primary.value.id, e.key, e.value, e.ttl, s.clock, n, k);
      if o.replica.Some? {
        LastQueuedAppend(s.queue, QueuedWrite(o.replica.value.id, e.key, e.value, e.ttl), n, k);
      } else {
        assert s.queue + [] == s.queue;
      }
    }
  }

  lemma DrainMakes(v: Vnodes, hash: HashFn, s: ReplState, n: NodeId, k: Key, w: Written)
    requires ReplInv(v, hash, s) && QueuedOrMade(s, n, k, w) && w.at <= s.clock
    ensures QueuedOrMade(Step(v, hash, s, Drain), n, k, w)
  {
    if s.queue != [] {
      var first := s.queue[0];
      assert first in s.queue;
      LastQueuedTake(s.queue, n, k);
      StoreChangesOneCopy(s.stores, first.node, first.key, first.value, first.ttl, s.clock, n, k);
      var copy := CopyOf(Step(v, hash, s, Drain).stores, n, k);
      if first.node == n && first.key == k && LastQueued(s.queue[1..], n, k).None? {
        assert MadeAt(copy, w, s.clock, s.clock);
      }
    }
  }

  // Once it has drained, the replica has the last put as made at some time d
  // between the put and now.
  lemma ReplicaHoldsLastPut(v: Vnodes, hash: HashFn, s: ReplState, events: seq<ReplEvent>, k: Key) returns (d: real)
    requires ReplInv(v, hash, s) && OwnersOf(v, hash(k)).replica.Some? && LastPut(v, hash, s, events, k).Some?
    requires forall w | w in Reach(v, hash, s, events).queue :: w.key != k
    ensures var s1, w := Reach(v, hash, s, events), LastPut(v, hash, s, events, k).value;
            && w.at <= d <= s1.clock
            && MadeAt(CopyOf(s1.stores, OwnersOf(v, hash(k)).replica.value.id, k), w, d, s1.clock)
  {
    var s1, n := Reach(v, hash, s, events), OwnersOf(v, hash(k)).replica.value.id;
    var w := LastPut(v, hash, s, events, k).value;
    ReplicaGetsLastPut(v, hash, s, events, k);
    NoneQueued(s1.queue, n, k);
    d :| w.at <= d <= s1.clock && MadeAt(CopyOf(s1.stores, n, k), w, d, s1.clock);
  }

  // So both owners answer with the put's value until its ttl has run out since
  // the put, the primary no longer, and the replica until it has run out since
  // its own write.
  lemma TtlAtBothOwners(v: Vnodes, hash: HashFn, s: ReplState, events: seq<ReplEvent>, k: Key, t: real)
    returns (d: real)
    requires ReplInv(v, hash, s) && OwnersOf(v, hash(k)).replica.Some? && LastPut(v, hash, s, events, k).Some?
    requires forall w | w in Reach(v, hash, s, events).queue :: w.key != k
    requires Reach(v, hash, s, events).clock <= t
    ensures var s1, w, o := Reach(v, hash, s, events), LastPut(v, hash, s, events, k).value, OwnersOf(v, hash(k));
            && w.at <= d <= s1.clock
            && ReadAt(s1.stores, o.primary.value.id, k, t)
               == (if w.ttl.Some? && (w.ttl.value <= 0.0 || w.at + w.ttl.value <= t) then None else Some(w.value))
            && ReadAt(s1.stores, o.replica.value.id, k, t)
               == if w.ttl.Some? && (w.ttl.value <= 0.0 || d + w.ttl.value <= t) then None else Some(w.value)
  {
    var s1, w, o := Reach(v, hash, s, events), LastPut(v, hash, s, events, k).value, OwnersOf(v, hash(k));
    assert v != map[] by { OwnersAreOnTheRing(v, hash(k)); }
    PrimaryHoldsLastPut(v, hash, s, events, k);
    d := ReplicaHoldsLastPut(v, hash, s, events, k);
    MadeAtAnswers(s1.stores, o.primary.value.id, k, w, w.at, s1.clock, t);
    MadeAtAnswers(s1.stores, o.replica.value.id, k, w, d, s1.clock, t);
  }

  // ---------------------------------------------------------------------
  // Losing one node.

  lemma TwoNodesGiveAReplica(v: Vnodes, from: Position, p: Position, q: Position)
    requires p in v && q in v && v[p].id != v[q].id
    ensures OwnersOf(v, from).primary.Some? && OwnersOf(v, from).replica.Some?
  {
    var id := Lookup(v, from).value.id;
    assert p in Without(v, id) || q in Without(v, id);
  }

  // With the replica alive, a get finds what both owners answer, unless the
  // primary is taken for alive at the first look and for dead at the second.
  lemma GetWhileReplicaAlive(v: Vnodes, from: Position, first: set<NodeId>, second: set<NodeId>, stores: Stores,
                             k: Key, x: Value, now: real, replicaAlive: bool, later: real)
    requires var o := OwnersOf(v, from);
             && o.primary.Some? && o.replica.Some?
             && (o.primary.value.id in second || o.replica.value.id in second)
             && (o.primary.value.id in second ==> o.primary.value.id in first)
             && ReadAt(stores, o.primary.value.id, k, now) == Some(x)
             && ReadAt(stores, o.replica.value.id, k, now) == Some(x)
    ensures var primary := OwnersOf(v, from).primary.value.id;
            GetVia(RouteBetween(v, from, first, second), k, stores, now, replicaAlive, stores, later) == Some(x)
            <==> (primary in first ==> primary in second)
  {
  }

  // A key's primary stops being alive between a get's first two looks.
  ghost predicate PrimaryTimesOut(v: Vnodes, from: Position, beats: Heartbeats, timeout: real, clock: nat -> real) {
    var primary := OwnersOf(v, from).primary;
    && primary.Some? && primary.value.id in AliveAt(beats, timeout, clock(0))
    && primary.value.id !in AliveAt(beats, timeout, clock(1))
  }

  // Every node but one is heard from recently enough.
  ghost predicate AliveExcept(nodes: set<NodeId>, down: NodeId, beats: Heartbeats, timeout: real, now: real) {
    forall n | n in nodes && n != down :: Alive(beats, timeout, n, now)
  }

  // With two nodes on the ring, once the replica write of the last put to k has
  // drained and until that put's ttl has run out, a get returns its value
  // whichever single node has gone silent, unless it is the primary and its
  // timeout falls between the get's two looks.
  lemma {:induction false} SurvivesAnySingleFailure(v: Vnodes, hash: HashFn, s: ReplState, events: seq<ReplEvent>,
                                                    k: Key, p: Position, q: Position, down: NodeId,
                                                    beats: Heartbeats, timeout: real, clock: nat -> real)
    requires ReplInv(v, hash, s) && p in v && q in v && v[p].id != v[q].id
    requires LastPut(v, hash, s, events, k).Some? && forall w | w in Reach(v, hash, s, events).queue :: w.key != k
    requires Nondecreasing(clock) && AliveExcept(s.stores.Keys, down, beats, timeout, clock(1))
    requires Reach(v, hash, s, events).clock <= clock(0)
    requires var w := LastPut(v, hash, s, events, k).value; w.ttl.Some? ==> clock(3) < w.at + w.ttl.value
    ensures var stores := Reach(v, hash, s, events).stores;
            var r := RouteBetween(v, hash(k), AliveAt(beats, timeout, clock(0)), AliveAt(beats, timeout, clock(1)));
            GetVia(r, k, stores, clock(3), r.replica.Some? && r.replica.value.id in AliveAt(beats, timeout, clock(4)),
                   stores, clock(5)) == Some(LastPut(v, hash, s, events, k).value.value)
            <==> !PrimaryTimesOut(v, hash(k), beats, timeout, clock)
  {
    var s1, o := Reach(v, hash, s, events), OwnersOf(v, hash(k));
    assert clock(0) <= clock(1) && clock(0) <= clock(3);
    TwoNodesGiveAReplica(v, hash(k), p, q);
    PrimaryHoldsLastPut(v, hash, s, events, k);
    var d := TtlAtBothOwners(v, hash, s, events, k, clock(3));
    OneOwnerSurvives(v, hash(k), s.stores.Keys, down);
    DeadStaysDead(beats, timeout, clock(0), clock(1));
    OwnersAreMembers(v, s.stores.Keys, hash(k));
    GetWhileReplicaAlive(v, hash(k), AliveAt(beats, timeout, clock(0)), AliveAt(beats, timeout, clock(1)), s1.stores, k,
                         LastPut(v, hash, s, events, k).value.value, clock(3),
                         o.replica.value.id in AliveAt(beats, timeout, clock(4)), clock(5));
  }

  lemma OneOwnerSurvives(v: Vnodes, from: Position, members: set<NodeId>, down: NodeId)
    requires OnlyMembers(v, members) && OwnersOf(v, from).replica.Some?
    ensures var o := OwnersOf(v, from);
            o.primary.value.id in members - {down} || o.replica.value.id in members - {down}
  {
    OwnersAreOnTheRing(v, from);
  }
}
