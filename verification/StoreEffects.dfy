// What each store operation does, in terms of positions in the LRU order and of
// single entries, and what follows for the order over any run.
module StoreEffects {
  import opened Types
  import opened StoreSpec

  // An entry that answers gets at a time.
  predicate Live(e: Entry, now: real) {
    e.expiresAt.None? || now < e.expiresAt.value
  }

  lemma {:induction false} DropAt(s: seq<Key>, i: nat)
    requires Unique(s) && i < |s|
    ensures Drop(s, s[i]) == s[..i] + s[i + 1..]
  {
    if i == 0 {
      assert s[0] !in s[1..];
      DropAbsent(s[1..], s[0]);
    } else {
      DropAt(s[1..], i - 1);
      assert s[1..][..i - 1] == s[1..i] && s[1..][i..] == s[i + 1..];
      assert s[..i] == [s[0]] + s[1..i];
    }
  }

  lemma PositionOf(s: StoreState, max: nat, k: Key) returns (i: nat)
    requires ValidStore(s, max) && k in s.entries
    ensures i < |s.order| && s.order[i] == k && Drop(s.order, k) == s.order[..i] + s.order[i + 1..]
  {
    assert k in s.order;
    i :| 0 <= i < |s.order| && s.order[i] == k;
    DropAt(s.order, i);
  }

  // A hit makes the key the newest and changes nothing else; an expired entry is
  // removed; a miss changes nothing.
  lemma GetEffect(s: StoreState, max: nat, k: Key, now: real) returns (i: nat)
    requires ValidStore(s, max)
    ensures k in s.entries ==> i < |s.order| && s.order[i] == k
    ensures var (after, answer) := GetSpec(s, k, now);
            if k !in s.entries then answer == None && after == s
            else if Live(s.entries[k], now) then
              && answer == Some(s.entries[k].value) && after.entries == s.entries && after.heap == s.heap
              && after.order == s.order[..i] + s.order[i + 1..] + [k]
            else
              && answer == None && after.entries == s.entries - {k} && after.heap == s.heap
              && after.order == s.order[..i] + s.order[i + 1..]
  {
    i := 0;
    if k in s.entries {
      i := PositionOf(s, max, k);
    }
  }

  // Gets do not show in the answers of later gets.
  lemma GetIsInvisible(s: StoreState, x: Key, now: real, k: Key, later: real)
    requires now <= later
    ensures GetSpec(GetSpec(s, x, now).0, k, later).1 == GetSpec(s, k, later).1
  {
  }

  lemma DeleteEffect(s: StoreState, max: nat, k: Key) returns (i: nat)
    requires ValidStore(s, max)
    ensures DeleteSpec(s, k).entries == s.entries - {k} && DeleteSpec(s, k).heap == s.heap
    ensures k !in s.entries ==> DeleteSpec(s, k) == s
    ensures k in s.entries ==>
              i < |s.order| && s.order[i] == k && DeleteSpec(s, k).order == s.order[..i] + s.order[i + 1..]
  {
    i := 0;
    if k in s.entries {
      i := PositionOf(s, max, k);
    } else {
      DropAbsent(s.order, k);
      assert s.entries - {k} == s.entries;
    }
  }

  // A put makes the key the newest.  Only if it is new and the store is full
  // does another key go, the oldest one.
  lemma PutEffect(s: StoreState, max: nat, k: Key, v: Value, ttl: Option<real>, now: real) returns (i: nat)
    requires ValidStore(s, max) && max > 0 && (ttl.Some? ==> ttl.value > 0.0)
    ensures k in s.entries ==> i < |s.order| && s.order[i] == k
    ensures var after := PutSpec(s, max, k, v, ttl, now);
            var e := Entry(v, if ttl.None? then None else Some(now + ttl.value));
            && after.heap == (if ttl.None? then s.heap else s.heap + multiset{(now + ttl.value, k)})
            && if k in s.entries then
                 after.entries == s.entries[k := e] && after.order == s.order[..i] + s.order[i + 1..] + [k]
               else if |s.order| < max then
                 after.entries == s.entries[k := e] && after.order == s.order + [k]
               else
                 after.entries == (s.entries - {s.order[0]})[k := e] && after.order == s.order[1..] + [k]
  {
    i := 0;
    var e := NewEntry(v, ttl, now);
    if k in s.entries {
      i := PositionOf(s, max, k);
      InsertInRoom(s, max, k, e);
    } else {
      DropAbsent(s.order, k);
      if |s.order| < max {
        InsertInRoom(s, max, k, e);
      } else {
        InsertWhenFull(s, max, k, e);
      }
    }
  }

  lemma InsertInRoom(s: StoreState, max: nat, k: Key, e: Entry)
    requires ValidStore(s, max) && (k in s.entries || |s.order| < max)
    ensures InsertSpec(s, max, k, e).entries == s.entries[k := e]
    ensures InsertSpec(s, max, k, e).order == Drop(s.order, k) + [k]
  {
    DropMembers(s.order, k);
  }

  lemma InsertWhenFull(s: StoreState, max: nat, k: Key, e: Entry)
    requires ValidStore(s, max) && k !in s.entries && |s.order| == max > 0
    ensures InsertSpec(s, max, k, e).entries == (s.entries - {s.order[0]})[k := e]
    ensures InsertSpec(s, max, k, e).order == s.order[1..] + [k]
  {
    DropAbsent(s.order, k);
    assert LastN(s.order + [k], max) == s.order[1..] + [k];
    RestrictToRest(s.entries, s.order, k, e);
  }

  lemma RestrictToRest(m: Contents, order: seq<Key>, k: Key, e: Entry)
    requires Unique(order) && order != [] && k !in m && forall x :: x in order <==> x in m
    ensures Restrict(m[k := e], order[1..] + [k]) == (m - {order[0]})[k := e]
  {
    forall x ensures x in order[1..] + [k] <==> x == k || (x in m && x != order[0]) {
      assert x in order <==> x == order[0] || x in order[1..];
    }
  }

  // One with a nonpositive ttl is a delete.
  lemma NonpositivePutDeletes(s: StoreState, max: nat, k: Key, v: Value, ttl: real, now: real)
    requires ttl <= 0.0
    ensures PutSpec(s, max, k, v, Some(ttl), now) == DeleteSpec(s, k)
  {
  }

  // ---------------------------------------------------------------------
  // Operations that drop several keys at once.

  ghost predicate Precedes(order: seq<Key>, x: Key, y: Key) {
    exists i, j :: 0 <= i < j < |order| && order[i] == x && order[j] == y
  }

  lemma {:induction false} KeepPrecedes(s: seq<Key>, keys: set<Key>, x: Key, y: Key)
    ensures Precedes(Keep(s, keys), x, y) <==> Precedes(s, x, y) && x in keys && y in keys
  {
    if s == [] {
    } else {
      KeepPrecedes(s[1..], keys, x, y);
      KeepMembers(s[1..], keys);
      PrecedesFromHead(s, x, y);
      if s[0] in keys {
        PrecedesFromHead(Keep(s, keys), x, y);
        assert Keep(s, keys)[1..] == Keep(s[1..], keys);
      } else {
        assert Keep(s, keys) == Keep(s[1..], keys);
      }
    }
  }

  lemma PrecedesFromHead(s: seq<Key>, x: Key, y: Key)
    requires s != []
    ensures Precedes(s, x, y) <==> (s[0] == x && y in s[1..]) || Precedes(s[1..], x, y)
  {
    if Precedes(s, x, y) {
      var i, j :| 0 <= i < j < |s| && s[i] == x && s[j] == y;
      if i == 0 {
        assert s[1..][j - 1] == y;
      } else {
        assert s[1..][i - 1] == x && s[1..][j - 1] == y;
      }
    }
    if s[0] == x && y in s[1..] {
      var j :| 0 <= j < |s[1..]| && s[1..][j] == y;
      assert s[j + 1] == y;
    }
    if Precedes(s[1..], x, y) {
      var i, j :| 0 <= i < j < |s[1..]| && s[1..][i] == x && s[1..][j] == y;
      assert s[i + 1] == x && s[j + 1] == y;
    }
  }

  // What is left of a store after some keys were dropped from it.
  ghost predicate LeavesOnly(s: StoreState, after: StoreState, keys: iset<Key>) {
    && (forall k :: k in after.entries <==> k in s.entries && k in keys)
    && (forall k | k in after.entries :: after.entries[k] == s.entries[k])
    && (forall k :: k in after.order <==> k in after.entries)
    && forall x, y :: Precedes(after.order, x, y) <==> Precedes(s.order, x, y) && x in keys && y in keys
  }

  ghost function LiveKeys(s: StoreState, now: real): iset<Key> {
    iset k | k in s.entries && Live(s.entries[k], now)
  }

  // A cleanup leaves exactly the live entries, in order, and the heap items not
  // yet due.
  lemma CleanupEffect(s: StoreState, max: nat, now: real)
    requires ValidStore(s, max)
    ensures LeavesOnly(s, FullScan(s, now), LiveKeys(s, now))
    ensures forall it :: FullScan(s, now).heap[it] == if it.0 > now then s.heap[it] else 0
  {
    var live := LiveAt(s.entries, now);
    KeepMembers(s.order, live.Keys);
    forall x, y
      ensures Precedes(FullScan(s, now).order, x, y)
         <==> Precedes(s.order, x, y) && x in LiveKeys(s, now) && y in LiveKeys(s, now)
    {
      KeepPrecedes(s.order, live.Keys, x, y);
    }
  }

  // A listing leaves the entries it found live, in order, and the heap alone.
  lemma ListingEffect(s: StoreState, max: nat, clock: nat -> real)
    requires ValidStore(s, max)
    ensures LeavesOnly(s, ListingSpec(s, clock), iset k | k in ListingSpec(s, clock).entries)
    ensures ListingSpec(s, clock).heap == s.heap
  {
    ListingLeaves(s, max, clock);
    forall x, y
      ensures Precedes(ListingSpec(s, clock).order, x, y)
         <==> Precedes(s.order, x, y) && x in ListingSpec(s, clock).entries && y in ListingSpec(s, clock).entries
    {
      ListingPrecedes(s, max, clock, x, y);
    }
  }

  lemma ListingLeaves(s: StoreState, max: nat, clock: nat -> real)
    requires ValidStore(s, max)
    ensures var after := ListingSpec(s, clock);
            && (forall k | k in after.entries :: k in s.entries && after.entries[k] == s.entries[k])
            && (forall k :: k in after.order <==> k in after.entries)
            && (forall k :: k in after.order <==> k in ListedKeys(s, clock, |s.order|))
  {
    KeepMembers(s.order, ListedKeys(s, clock, |s.order|));
  }

  lemma ListingPrecedes(s: StoreState, max: nat, clock: nat -> real, x: Key, y: Key)
    requires ValidStore(s, max)
    ensures Precedes(ListingSpec(s, clock).order, x, y)
       <==> Precedes(s.order, x, y) && x in ListingSpec(s, clock).entries && y in ListingSpec(s, clock).entries
  {
    ListingLeaves(s, max, clock);
    KeepPrecedes(s.order, ListedKeys(s, clock, |s.order|), x, y);
  }

  // ---------------------------------------------------------------------
  // The order over any run of any operations.

  // A put that stores, or a get that hits.
  predicate TouchesKey(s: StoreState, op: StoreOp, k: Key) {
    match op
    case Put(x, _, ttl, _) => x == k && (ttl.None? || ttl.value > 0.0)
    case Get(x, now) => x == k && k in s.entries && Live(s.entries[k], now)
    case _ => false
  }

  // The last operation of a run that touched a key, -1 if there is none.
  ghost function LastTouch(max: nat, ops: seq<StoreOp>, k: Key): (t: int)
    ensures -1 <= t < |ops|
  {
    if ops == [] then -1
    else
      var before := ops[..|ops| - 1];
      if TouchesKey(Run(max, before), ops[|ops| - 1], k) then |ops| - 1 else LastTouch(max, before, k)
  }

  ghost predicate Ascending(order: seq<Key>, rank: Key -> int) {
    forall x, y | Precedes(order, x, y) :: rank(x) < rank(y)
  }

  // Touching k makes it the newest in the order and gives it the highest rank.
  lemma TouchAscends(kept: seq<Key>, k: Key, rank: Key -> int, rank': Key -> int, t: int)
    requires Ascending(kept, rank) && k !in kept
    requires rank'(k) == t && forall x | x != k :: rank'(x) == rank(x) < t
    ensures Ascending(kept + [k], rank')
  {
    forall x, y | Precedes(kept + [k], x, y) ensures rank'(x) < rank'(y) {
      var i, j :| 0 <= i < j < |kept + [k]| && (kept + [k])[i] == x && (kept + [k])[j] == y;
      if j < |kept| {
        assert kept[i] == x && kept[j] == y && x in kept && y in kept;
        assert Precedes(kept, x, y);
      } else {
        assert kept[i] == x && x in kept;
      }
    }
  }

  lemma SubsequenceAscends(order: seq<Key>, kept: seq<Key>, rank: Key -> int)
    requires Ascending(order, rank) && forall x, y | Precedes(kept, x, y) :: Precedes(order, x, y)
    ensures Ascending(kept, rank)
  {
  }

  lemma DropPrecedes(s: seq<Key>, k: Key)
    ensures forall x, y | Precedes(Drop(s, k), x, y) :: Precedes(s, x, y)
  {
    DropIsKeep(s, k);
    forall x, y | Precedes(Drop(s, k), x, y) ensures Precedes(s, x, y) {
      KeepPrecedes(s, (set e | e in s) - {k}, x, y);
    }
  }

  lemma LastNPrecedes(s: seq<Key>, n: nat)
    ensures forall x, y | Precedes(LastN(s, n), x, y) :: Precedes(s, x, y)
  {
    var cut := if |s| <= n then 0 else |s| - n;
    forall x, y | Precedes(LastN(s, n), x, y) ensures Precedes(s, x, y) {
      var i, j :| 0 <= i < j < |LastN(s, n)| && LastN(s, n)[i] == x && LastN(s, n)[j] == y;
      assert s[cut + i] == x && s[cut + j] == y;
    }
  }

  // One operation that touches k.
  lemma TouchStep(s: StoreState, max: nat, op: StoreOp, k: Key, rank: Key -> int, rank': Key -> int, t: int)
    requires ValidStore(s, max) && Ascending(s.order, rank) && TouchesKey(s, op, k)
    requires rank'(k) == t && forall x | x != k :: rank'(x) == rank(x) < t
    ensures Ascending(Step(s, max, op).order, rank')
  {
    var kept := Drop(s.order, k);
    DropPrecedes(s.order, k);
    DropMembers(s.order, k);
    SubsequenceAscends(s.order, kept, rank);
    TouchAscends(kept, k, rank, rank', t);
    LastNPrecedes(kept + [k], max);
    SubsequenceAscends(kept + [k], LastN(kept + [k], max), rank');
  }

  // One that touches no key.
  lemma UntouchingStep(s: StoreState, max: nat, op: StoreOp)
    requires ValidStore(s, max) && forall k :: !TouchesKey(s, op, k)
    ensures forall x, y | Precedes(Step(s, max, op).order, x, y) :: Precedes(s.order, x, y)
  {
    match op {
      case Put(k, _, _, _) =>
        assert !TouchesKey(s, op, k);
        DropPrecedes(s.order, k);
      case Get(k, _) =>
        assert !TouchesKey(s, op, k);
        DropPrecedes(s.order, k);
      case Delete(k) => DropPrecedes(s.order, k);
      case Clear =>
      case List(clock) => ListingEffect(s, max, clock);
      case Cleanup(now) => CleanupEffect(s, max, now);
    }
  }

  // After any run of any operations the residents stand in the order in which
  // they were last put or hit.
  lemma {:induction false} OrderIsRecency(max: nat, ops: seq<StoreOp>)
    ensures Ascending(Run(max, ops).order, (k: Key) => LastTouch(max, ops, k))
  {
    if ops == [] {
    } else {
      var before, op, t := ops[..|ops| - 1], ops[|ops| - 1], |ops| - 1;
      var s := Run(max, before);
      var rank, rank' := (k: Key) => LastTouch(max, before, k), (k: Key) => LastTouch(max, ops, k);
      OrderIsRecency(max, before);
      RunKeepsValid(max, before);
      if k :| TouchesKey(s, op, k) {
        assert forall x | x != k :: !TouchesKey(s, op, x);
        TouchStep(s, max, op, k, rank, rank', t);
      } else {
        UntouchingStep(s, max, op);
        SubsequenceAscends(s.order, Run(max, ops).order, rank);
        assert forall x :: rank'(x) == rank(x);
      }
    }
  }
}
