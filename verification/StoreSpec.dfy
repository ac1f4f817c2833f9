// One node's cache as a value: entries, their LRU order (oldest first) and the
// expiry heap, with each operation as a function on it.
module StoreSpec {
  import opened Types

  type HeapItem = (real, Key)

  datatype StoreState = StoreState(order: seq<Key>, entries: Contents, heap: multiset<HeapItem>)

  const EMPTY_STORE := StoreState([], map[], multiset{})

  ghost predicate Unique(s: seq<Key>) {
    forall i, j | 0 <= i < j < |s| :: s[i] != s[j]
  }

  // Every expiring entry has its exact item in the heap; stale items may be
  // there too.
  ghost predicate Covered(entries: Contents, heap: multiset<HeapItem>) {
    forall k | k in entries && entries[k].expiresAt.Some? :: (entries[k].expiresAt.value, k) in heap
  }

  ghost predicate ValidStore(s: StoreState, max: nat) {
    && Unique(s.order) && |s.order| <= max
    && (forall k :: k in s.order <==> k in s.entries)
    && Covered(s.entries, s.heap)
  }

  // ---------------------------------------------------------------------
  // Sequences of keys.

  function Drop(s: seq<Key>, k: Key): (r: seq<Key>) {
    if s == [] then [] else (if s[0] == k then [] else [s[0]]) + Drop(s[1..], k)
  }

  // The elements that lie in a set, in order.
  function Keep(s: seq<Key>, keys: set<Key>): (r: seq<Key>) {
    if s == [] then [] else (if s[0] in keys then [s[0]] else []) + Keep(s[1..], keys)
  }

  function LastN(s: seq<Key>, n: nat): seq<Key> {
    if |s| <= n then s else s[|s| - n..]
  }

  function Restrict(m: Contents, keys: seq<Key>): Contents {
    map k | k in keys && k in m :: m[k]
  }

  lemma {:induction false} DropIsKeep(s: seq<Key>, k: Key)
    ensures Drop(s, k) == Keep(s, (set x | x in s) - {k})
  {
    if s == [] {
    } else {
      DropIsKeep(s[1..], k);
      KeepDependsOnElements(s[1..], (set x | x in s[1..]) - {k}, (set x | x in s) - {k});
    }
  }

  lemma {:induction false} KeepDependsOnElements(s: seq<Key>, a: set<Key>, b: set<Key>)
    requires forall k | k in s :: k in a <==> k in b
    ensures Keep(s, a) == Keep(s, b)
  {
    if s == [] {
    } else {
      assert s[0] in s;
      assert forall k | k in s[1..] :: k in s;
      KeepDependsOnElements(s[1..], a, b);
    }
  }

  lemma {:induction false} KeepMembers(s: seq<Key>, keys: set<Key>)
    ensures forall k :: k in Keep(s, keys) <==> k in s && k in keys
    ensures |Keep(s, keys)| <= |s|
    ensures Unique(s) ==> Unique(Keep(s, keys))
  {
    if s == [] {
    } else {
      KeepMembers(s[1..], keys);
      assert forall k :: k in s <==> k == s[0] || k in s[1..];
      assert Unique(s) ==> Unique(s[1..]) && s[0] !in s[1..];
    }
  }

  lemma {:induction false} KeepKeep(s: seq<Key>, a: set<Key>, b: set<Key>)
    ensures Keep(Keep(s, a), b) == Keep(s, a * b)
  {
    if s == [] {
    } else {
      KeepKeep(s[1..], a, b);
      if s[0] in a {
        assert Keep(s, a)[0] == s[0] && Keep(s, a)[1..] == Keep(s[1..], a);
      } else {
        assert Keep(s, a) == Keep(s[1..], a);
      }
    }
  }

  lemma {:induction false} KeepAll(s: seq<Key>, keys: set<Key>)
    requires forall k | k in s :: k in keys
    ensures Keep(s, keys) == s
  {
    if s == [] {
    } else {
      assert s[0] in s;
      assert forall k | k in s[1..] :: k in s;
      KeepAll(s[1..], keys);
    }
  }

  lemma {:induction false} DropMembers(s: seq<Key>, k: Key)
    ensures forall x :: x in Drop(s, k) <==> x in s && x != k
    ensures Unique(s) ==> Unique(Drop(s, k))
    ensures Unique(s) ==> |Drop(s, k)| == if k in s then |s| - 1 else |s|
  {
    if s == [] {
    } else {
      DropMembers(s[1..], k);
      assert forall x :: x in s <==> x == s[0] || x in s[1..];
      assert Unique(s) ==> Unique(s[1..]) && s[0] !in s[1..];
    }
  }

  lemma {:induction false} DropAbsent(s: seq<Key>, k: Key)
    requires k !in s
    ensures Drop(s, k) == s
  {
    if s == [] {
    } else {
      assert s[0] in s && forall x | x in s[1..] :: x in s;
      DropAbsent(s[1..], k);
    }
  }

  lemma {:induction false} DropConcat(s: seq<Key>, t: seq<Key>, k: Key)
    ensures Drop(s + t, k) == Drop(s, k) + Drop(t, k)
  {
    if s == [] {
      assert s + t == t;
    } else {
      assert (s + t)[1..] == s[1..] + t;
      DropConcat(s[1..], t, k);
    }
  }

  // ---------------------------------------------------------------------
  // Operations.

  function NewEntry(v: Value, ttl: Option<real>, now: real): Entry {
    Entry(v, if ttl.None? then None else Some(now + ttl.value))
  }

  function PutSpec(s: StoreState, max: nat, k: Key, v: Value, ttl: Option<real>, now: real): StoreState {
    if ttl.Some? && ttl.value <= 0.0 then DeleteSpec(s, k) else InsertSpec(s, max, k, NewEntry(v, ttl, now))
  }

  // The entry becomes the newest; the oldest go if there are too many.
  function InsertSpec(s: StoreState, max: nat, k: Key, e: Entry): StoreState {
    var order := LastN(Drop(s.order, k) + [k], max);
    StoreState(order, Restrict(s.entries[k := e], order),
               if e.expiresAt.None? then s.heap else s.heap + multiset{(e.expiresAt.value, k)})
  }

  function DeleteSpec(s: StoreState, k: Key): StoreState {
    StoreState(Drop(s.order, k), s.entries - {k}, s.heap)
  }

  function GetSpec(s: StoreState, k: Key, now: real): (StoreState, Option<Value>) {
    if k !in s.entries then (s, None)
    else if Expired(s.entries[k], now) then (DeleteSpec(s, k), None)
    else (s.(order := Drop(s.order, k) + [k]), Some(s.entries[k].value))
  }

  // The entries unexpired at a time.
  function LiveAt(m: Contents, now: real): Contents {
    map k | k in m && !Expired(m[k], now) :: m[k]
  }

  // What a listing that ends by a time may return and leave: some of the
  // entries, every missing one expired by then.
  ghost predicate PossibleListing(m: Contents, listed: Contents, now: real) {
    && listed.Keys <= m.Keys
    && forall k | k in m :: if k in listed then listed[k] == m[k] else Expired(m[k], now)
  }

  // The heap without the items due at a time.
  ghost function NotDue(heap: multiset<HeapItem>, now: real): (r: multiset<HeapItem>)
    ensures forall it :: r[it] == if it.0 > now then heap[it] else 0
    decreases |heap|
  {
    if heap == multiset{} then heap
    else
      var it :| it in heap;
      var rest := NotDue(heap[it := 0], now);
      if it.0 > now then rest[it := heap[it]] else rest
  }

  // What a full scan for expired entries would leave at a time.
  ghost function FullScan(s: StoreState, now: real): StoreState {
    var live := LiveAt(s.entries, now);
    StoreState(Keep(s.order, live.Keys), live, NotDue(s.heap, now))
  }

  // items() and snapshot() read the clock once per expiring entry they pass.
  function ReadsBefore(order: seq<Key>, entries: Contents, i: nat): nat
    requires i <= |order|
  {
    if i == 0 then 0
    else ReadsBefore(order, entries, i - 1) +
         if order[i - 1] in entries && entries[order[i - 1]].expiresAt.Some? then 1 else 0
  }

  predicate SurvivesListing(s: StoreState, clock: nat -> real, i: nat)
    requires i < |s.order|
  {
    s.order[i] in s.entries && !Expired(s.entries[s.order[i]], clock(ReadsBefore(s.order, s.entries, i)))
  }

  function ListedKeys(s: StoreState, clock: nat -> real, n: nat): set<Key>
    requires n <= |s.order|
  {
    set i | 0 <= i < n && SurvivesListing(s, clock, i) :: s.order[i]
  }

  function ListingSpec(s: StoreState, clock: nat -> real): StoreState {
    var kept := ListedKeys(s, clock, |s.order|);
    var order := Keep(s.order, kept);
    StoreState(order, Restrict(s.entries, order), s.heap)
  }

  // ---------------------------------------------------------------------
  // Runs.

  datatype StoreOp =
    | Put(key: Key, value: Value, ttl: Option<real>, now: real)
    | Get(key: Key, now: real)
    | Delete(key: Key)
    | Clear
    | List(clock: nat -> real)
    | Cleanup(now: real)

  ghost function Step(s: StoreState, max: nat, op: StoreOp): StoreState {
    match op
    case Put(k, v, ttl, now) => PutSpec(s, max, k, v, ttl, now)
    case Get(k, now) => GetSpec(s, k, now).0
    case Delete(k) => DeleteSpec(s, k)
    case Clear => StoreState([], map[], s.heap)
    case List(clock) => ListingSpec(s, clock)
    case Cleanup(now) => FullScan(s, now)
  }

  ghost function Run(max: nat, ops: seq<StoreOp>): StoreState {
    if ops == [] then EMPTY_STORE else Step(Run(max, ops[..|ops| - 1]), max, ops[|ops| - 1])
  }

  lemma PutKeepsValid(s: StoreState, max: nat, k: Key, v: Value, ttl: Option<real>, now: real)
    requires ValidStore(s, max)
    ensures ValidStore(PutSpec(s, max, k, v, ttl, now), max)
  {
    if ttl.Some? && ttl.value <= 0.0 {
      DeleteKeepsValid(s, max, k);
    } else {
      InsertKeepsValid(s, max, k, NewEntry(v, ttl, now));
    }
  }

  lemma InsertKeepsValid(s: StoreState, max: nat, k: Key, e: Entry)
    requires ValidStore(s, max)
    ensures ValidStore(InsertSpec(s, max, k, e), max)
  {
    DropMembers(s.order, k);
    var touched := Drop(s.order, k) + [k];
    assert Unique(touched) && forall x :: x in touched <==> x in s.order || x == k;
    LastNIsPart(touched, max);
    RestrictIsExact(s.entries[k := e], LastN(touched, max));
    CoveredByPush(s.entries, s.heap, k, e, LastN(touched, max));
  }

  lemma CoveredByPush(entries: Contents, heap: multiset<HeapItem>, k: Key, e: Entry, keys: seq<Key>)
    requires Covered(entries, heap)
    ensures Covered(Restrict(entries[k := e], keys),
                    if e.expiresAt.None? then heap else heap + multiset{(e.expiresAt.value, k)})
  {
  }

  lemma RestrictIsExact(m: Contents, keys: seq<Key>)
    requires forall k | k in keys :: k in m
    ensures forall k :: k in keys <==> k in Restrict(m, keys)
  {
  }

  lemma LastNIsPart(s: seq<Key>, n: nat)
    requires Unique(s)
    ensures Unique(LastN(s, n)) && |LastN(s, n)| <= n && forall x | x in LastN(s, n) :: x in s
  {
  }

  lemma GetKeepsValid(s: StoreState, max: nat, k: Key, now: real)
    requires ValidStore(s, max)
    ensures ValidStore(GetSpec(s, k, now).0, max)
  {
    DropMembers(s.order, k);
  }

  lemma DeleteKeepsValid(s: StoreState, max: nat, k: Key)
    requires ValidStore(s, max)
    ensures ValidStore(DeleteSpec(s, k), max)
  {
    DropMembers(s.order, k);
  }

  lemma ListingKeepsValid(s: StoreState, max: nat, clock: nat -> real)
    requires ValidStore(s, max)
    ensures ValidStore(ListingSpec(s, clock), max)
  {
    KeepMembers(s.order, ListedKeys(s, clock, |s.order|));
  }

  lemma FullScanKeepsValid(s: StoreState, max: nat, now: real)
    requires ValidStore(s, max)
    ensures ValidStore(FullScan(s, now), max)
  {
    KeepMembers(s.order, LiveAt(s.entries, now).Keys);
  }

  // Unique order, coverage by the heap and the size bound hold after any run.
  lemma {:induction false} RunKeepsValid(max: nat, ops: seq<StoreOp>)
    ensures ValidStore(Run(max, ops), max)
  {
    if ops == [] {
    } else {
      var s := Run(max, ops[..|ops| - 1]);
      RunKeepsValid(max, ops[..|ops| - 1]);
      match ops[|ops| - 1]
      case Put(k, v, ttl, now) => PutKeepsValid(s, max, k, v, ttl, now);
      case Get(k, now) => GetKeepsValid(s, max, k, now);
      case Delete(k) => DeleteKeepsValid(s, max, k);
      case Clear =>
      case List(clock) => ListingKeepsValid(s, max, clock);
      case Cleanup(now) => FullScanKeepsValid(s, max, now);
    }
  }

  // ---------------------------------------------------------------------
  // LRU.

  // The distinct keys of a log, ordered by their last occurrence.
  function ByLastTouch(log: seq<Key>): seq<Key> {
    if log == [] then []
    else if log[0] in log[1..] then ByLastTouch(log[1..])
    else [log[0]] + ByLastTouch(log[1..])
  }

  // A put that stores something, or a get.
  predicate PlainOp(op: StoreOp) {
    op.Get? || (op.Put? && (op.ttl.None? || op.ttl.value > 0.0))
  }

  // Puts and gets of which no get meets an expired entry.
  ghost predicate Unexpiring(max: nat, ops: seq<StoreOp>) {
    forall i | 0 <= i < |ops| ::
      && PlainOp(ops[i])
      && (ops[i].Get? && ops[i].key in Run(max, ops[..i]).entries ==>
            !Expired(Run(max, ops[..i]).entries[ops[i].key], ops[i].now))
  }

  // The keys put or hit, in the order of the calls.
  ghost function Touches(max: nat, ops: seq<StoreOp>): seq<Key>
    requires forall i | 0 <= i < |ops| :: PlainOp(ops[i])
  {
    if ops == [] then []
    else
      var op := ops[|ops| - 1];
      var before := ops[..|ops| - 1];
      assert PlainOp(op);
      Touches(max, before) + if op.Put? || op.key in Run(max, before).entries then [op.key] else []
  }

  lemma {:induction false} OneMoreTouch(log: seq<Key>, k: Key)
    ensures ByLastTouch(log + [k]) == Drop(ByLastTouch(log), k) + [k]
  {
    if log == [] {
      assert log + [k] == [k];
    } else {
      assert (log + [k])[1..] == log[1..] + [k];
      OneMoreTouch(log[1..], k);
      if log[0] !in log[1..] {
        assert ByLastTouch(log)[1..] == ByLastTouch(log[1..]);
      }
    }
  }

  lemma {:induction false} ByLastTouchUnique(log: seq<Key>)
    ensures Unique(ByLastTouch(log))
    ensures forall k :: k in ByLastTouch(log) <==> k in log
  {
    if log == [] {
    } else {
      ByLastTouchUnique(log[1..]);
      assert forall k :: k in log <==> k == log[0] || k in log[1..];
    }
  }

  // Evicting down to n commutes with touching a key.
  lemma TouchAfterEviction(all: seq<Key>, n: nat, k: Key)
    requires Unique(all) && n > 0
    ensures LastN(Drop(LastN(all, n), k) + [k], n) == LastN(Drop(all, k) + [k], n)
  {
    var cut := if |all| <= n then 0 else |all| - n;
    var kept := LastN(all, n);
    assert all == all[..cut] + kept;
    if cut > 0 {
      DropConcat(all[..cut], kept, k);
      DropMembers(kept, k);
      var tail := Drop(kept, k) + [k];
      assert Drop(all, k) + [k] == Drop(all[..cut], k) + tail;
      LastNOfSuffix(Drop(all[..cut], k), tail, n);
    }
  }

  lemma LastNOfSuffix(s: seq<Key>, tail: seq<Key>, n: nat)
    requires |tail| >= n
    ensures LastN(s + tail, n) == LastN(tail, n)
  {
  }

  // Over any run of puts, with or without ttl, and gets that meets no expired
  // entry, the residents in LRU order are the last max distinct keys touched.
  lemma {:induction false} ResidentsAreLastTouched(max: nat, ops: seq<StoreOp>)
    requires max > 0 && Unexpiring(max, ops)
    ensures forall i | 0 <= i < |ops| :: PlainOp(ops[i])
    ensures Run(max, ops).order == LastN(ByLastTouch(Touches(max, ops)), max)
  {
    if ops == [] {
    } else {
      var before, op := ops[..|ops| - 1], ops[|ops| - 1];
      UnexpiringPrefix(max, ops);
      ResidentsAreLastTouched(max, before);
      var s, log := Run(max, before), Touches(max, before);
      RunKeepsValid(max, before);
      TouchKeepsOrder(s, log, max, op);
      assert Touches(max, ops) == if op.Get? && op.key !in s.entries then log else log + [op.key];
    }
  }

  lemma UnexpiringPrefix(max: nat, ops: seq<StoreOp>)
    requires Unexpiring(max, ops) && ops != []
    ensures var before, op := ops[..|ops| - 1], ops[|ops| - 1];
            && Unexpiring(max, before) && PlainOp(op)
            && (op.Get? && op.key in Run(max, before).entries ==> !Expired(Run(max, before).entries[op.key], op.now))
  {
    assert forall i | 0 <= i < |ops| - 1 :: ops[..|ops| - 1][..i] == ops[..i];
  }

  // One put or get keeps the order that of the last touches.
  lemma TouchKeepsOrder(s: StoreState, log: seq<Key>, max: nat, op: StoreOp)
    requires max > 0 && PlainOp(op) && ValidStore(s, max)
    requires s.order == LastN(ByLastTouch(log), max)
    requires op.Get? && op.key in s.entries ==> !Expired(s.entries[op.key], op.now)
    ensures Step(s, max, op).order
         == LastN(ByLastTouch(if op.Get? && op.key !in s.entries then log else log + [op.key]), max)
  {
    ByLastTouchUnique(log);
    OneMoreTouch(log, op.key);
    TouchAfterEviction(ByLastTouch(log), max, op.key);
    if op.Get? && op.key in s.entries {
      HitMovesToEnd(s, max, op.key, op.now);
    } else if op.Put? {
      assert Step(s, max, op).order == LastN(Drop(s.order, op.key) + [op.key], max);
    }
  }

  lemma HitMovesToEnd(s: StoreState, max: nat, k: Key, now: real)
    requires ValidStore(s, max) && k in s.entries && !Expired(s.entries[k], now)
    ensures Step(s, max, Get(k, now)) == s.(order := Drop(s.order, k) + [k])
    ensures LastN(Drop(s.order, k) + [k], max) == Drop(s.order, k) + [k]
  {
    DropMembers(s.order, k);
  }

  // ---------------------------------------------------------------------
  // What callers can rely on.

  // Below capacity a put changes its own key and nothing else.
  lemma PutBelowCapacity(s: StoreState, max: nat, k: Key, v: Value, ttl: Option<real>, now: real)
    requires ValidStore(s, max)
    requires k in s.entries || |s.order| < max
    requires ttl.None? || ttl.value > 0.0
    ensures PutSpec(s, max, k, v, ttl, now).entries == s.entries[k := NewEntry(v, ttl, now)]
  {
    DropMembers(s.order, k);
  }

  // A put is read back exactly until its ttl runs out, which for a nonpositive
  // one is at once.
  lemma PutThenGet(s: StoreState, max: nat, k: Key, v: Value, ttl: Option<real>, now: real, later: real)
    requires ValidStore(s, max) && max > 0
    ensures GetSpec(PutSpec(s, max, k, v, ttl, now), k, later).1
         == if ttl.Some? && (ttl.value <= 0.0 || later >= now + ttl.value) then None else Some(v)
  {
    var order := LastN(Drop(s.order, k) + [k], max);
    assert order[|order| - 1] == k;
  }

  // A cleanup is invisible to any later get.
  lemma CleanupIsInvisible(s: StoreState, cleaned: real, k: Key, now: real)
    requires cleaned <= now
    ensures GetSpec(FullScan(s, cleaned), k, now).1 == GetSpec(s, k, now).1
  {
  }

  // A listing keeps everything still live at its last clock reading and
  // nothing already expired at its first.
  lemma ListingBounds(s: StoreState, max: nat, clock: nat -> real)
    requires ValidStore(s, max) && Nondecreasing(clock)
    ensures LiveAt(s.entries, clock(ReadsBefore(s.order, s.entries, |s.order|))).Keys
         <= ListingSpec(s, clock).entries.Keys
         <= LiveAt(s.entries, clock(0)).Keys
  {
    var kept := ListedKeys(s, clock, |s.order|);
    KeepMembers(s.order, kept);
    forall k | k in LiveAt(s.entries, clock(ReadsBefore(s.order, s.entries, |s.order|))) ensures k in kept {
      var i :| 0 <= i < |s.order| && s.order[i] == k;
      ReadsGrow(s.order, s.entries, i, |s.order|);
      assert SurvivesListing(s, clock, i);
    }
    assert forall i: nat :: clock(0) <= clock(i);
  }

  // At one instant a listing is exactly the live entries.
  lemma ListingAtOneInstant(s: StoreState, max: nat, clock: nat -> real, now: real)
    requires ValidStore(s, max) && forall i: nat :: clock(i) == now
    ensures ListingSpec(s, clock).entries == LiveAt(s.entries, now)
  {
    ListingBounds(s, max, clock);
  }

  lemma {:induction false} ReadsGrow(order: seq<Key>, entries: Contents, i: nat, j: nat)
    requires i <= j <= |order|
    ensures ReadsBefore(order, entries, i) <= ReadsBefore(order, entries, j)
  {
    if i == j {
    } else {
      ReadsGrow(order, entries, i, j - 1);
    }
  }

  // So any listing that ends by a time is a possible one, and so is a listing
  // of what another left.
  lemma ListingIsPossible(s: StoreState, max: nat, clock: nat -> real, now: real)
    requires ValidStore(s, max) && forall i: nat :: clock(i) <= now
    ensures PossibleListing(s.entries, ListingSpec(s, clock).entries, now)
  {
    KeepMembers(s.order, ListedKeys(s, clock, |s.order|));
    forall k | k in s.entries && k !in ListingSpec(s, clock).entries ensures Expired(s.entries[k], now) {
      var i :| 0 <= i < |s.order| && s.order[i] == k;
      assert !SurvivesListing(s, clock, i);
    }
  }
}
