// One node's cache as the program keeps it, updated in place.
module Cache {
  import opened Types
  import opened StoreSpec

  lemma {:induction false} EarliestExists(heap: multiset<HeapItem>)
    requires heap != multiset{}
    ensures exists it :: it in heap && forall o | o in heap :: it.0 <= o.0
    decreases |heap|
  {
    var it :| it in heap;
    var rest := heap - multiset{it};
    assert forall o | o in heap :: o == it || o in rest;
    if rest == multiset{} {
      assert forall o | o in heap :: it.0 <= o.0;
    } else {
      EarliestExists(rest);
      var r :| r in rest && forall o | o in rest :: r.0 <= o.0;
      assert r in heap;
      assert forall o | o in heap :: (if it.0 <= r.0 then it else r).0 <= o.0;
    }
  }

  // heapq: the head is an item with the earliest expiry.
  method HeapHead(heap: multiset<HeapItem>) returns (head: HeapItem)
    requires heap != multiset{}
    ensures head in heap && forall o | o in heap :: head.0 <= o.0
  {
    EarliestExists(heap);
    head :| head in heap && forall o | o in heap :: head.0 <= o.0;
  }

  lemma DropKeepsRest(order: seq<Key>, keys: set<Key>, k: Key)
    ensures Drop(Keep(order, keys), k) == Keep(order, keys - {k})
  {
    var kept := Keep(order, keys);
    KeepMembers(order, keys);
    DropIsKeep(kept, k);
    KeepKeep(order, keys, (set x | x in kept) - {k});
    KeepDependsOnElements(order, keys * ((set x | x in kept) - {k}), keys - {k});
  }

  class CacheStore {
    const maxItems: nat
    var order: seq<Key>
    var entries: Contents
    var heap: multiset<HeapItem>

    ghost function State(): StoreState
      reads this
    {
      StoreState(order, entries, heap)
    }

    ghost predicate Valid()
      reads this
    {
      0 < maxItems && ValidStore(State(), maxItems)
    }

    constructor (maxItems: nat)
      requires 0 < maxItems
      ensures Valid() && this.maxItems == maxItems && State() == EMPTY_STORE
    {
      this.maxItems := maxItems;
      order, entries, heap := [], map[], multiset{};
    }

    method Put(key: Key, value: Value, ttl: Option<real>, now: real)
      requires Valid()
      modifies this
      ensures Valid()
      ensures State() == PutSpec(old(State()), maxItems, key, value, ttl, now)
    {
      var expiresAt: Option<real> := None;
      if ttl.Some? {
        if ttl.value <= 0.0 {
          var _ := Delete(key);
          return;
        }
        expiresAt := Some(now + ttl.value);
      }
      Insert(key, Entry(value, expiresAt));
    }

    // The locked part of Put.
    method Insert(key: Key, entry: Entry)
      requires Valid()
      modifies this
      ensures Valid()
      ensures State() == InsertSpec(old(State()), maxItems, key, entry)
    {
      InsertKeepsValid(State(), maxItems, key, entry);
      Append(key, entry);
      if entry.expiresAt.Some? {
        heap := heap + multiset{(entry.expiresAt.value, key)};
      }
      EvictLru();
    }

    // Make the entry the newest, replacing an older one for the key.
    method Append(key: Key, entry: Entry)
      requires Unique(order) && forall k :: k in order <==> k in entries
      modifies `order, `entries
      ensures order == Drop(old(order), key) + [key]
      ensures entries == old(entries)[key := entry]
      ensures Unique(order) && forall k :: k in order <==> k in entries
    {
      DropMembers(order, key);
      if key in entries {
        order, entries := Drop(order, key), entries - {key};
      } else {
        DropAbsent(order, key);
      }
      order, entries := order + [key], entries[key := entry];
    }

    // Pop from the old end until the size fits.
    method EvictLru()
      requires Unique(order) && forall k :: k in order <==> k in entries
      modifies `order, `entries
      ensures order == LastN(old(order), maxItems)
      ensures entries == Restrict(old(entries), order)
    {
      ghost var i := 0;
      while |order| > maxItems
        invariant i <= |old(order)| && order == old(order)[i..]
        invariant i > 0 ==> |order| >= maxItems
        invariant entries == Restrict(old(entries), order)
        decreases |order|
      {
        PopOldest(old(entries), order);
        entries, order := entries - {order[0]}, order[1..];
        i := i + 1;
      }
    }

    method Get(key: Key, now: real) returns (value: Option<Value>)
      requires Valid()
      modifies this
      ensures Valid()
      ensures (State(), value) == GetSpec(old(State()), key, now)
    {
      GetKeepsValid(State(), maxItems, key, now);
      if key !in entries {
        return None;
      }
      var entry := entries[key];
      if Expired(entry, now) {
        order, entries := Drop(order, key), entries - {key};
        return None;
      }
      order := Drop(order, key) + [key];
      return Some(entry.value);
    }

    method Delete(key: Key) returns (deleted: bool)
      requires Valid()
      modifies this
      ensures Valid()
      ensures State() == DeleteSpec(old(State()), key)
      ensures deleted <==> key in old(entries)
    {
      DeleteKeepsValid(State(), maxItems, key);
      deleted := key in entries;
      if deleted {
        order, entries := Drop(order, key), entries - {key};
      } else {
        DropAbsent(order, key);
        assert entries - {key} == entries;
      }
    }

    method Clear()
      requires Valid()
      modifies this
      ensures Valid()
      ensures State() == StoreState([], map[], old(heap))
    {
      order, entries := [], map[];
    }

    // The loop of items() and snapshot(): list the live entries, dropping the
    // expired ones on the way.
    method Snapshot(clock: nat -> real) returns (result: Contents)
      requires Valid()
      modifies this
      ensures Valid()
      ensures State() == ListingSpec(old(State()), clock)
      ensures result == entries
    {
      ghost var s := State();
      ListingKeepsValid(s, maxItems, clock);
      result := ListAll(s, clock);
    }

    method ListAll(ghost s: StoreState, clock: nat -> real) returns (result: Contents)
      requires s == State() && Unique(s.order) && forall k :: k in s.order <==> k in s.entries
      modifies `order, `entries
      ensures State() == ListingSpec(s, clock) && result == entries
    {
      ListingStarts(s, clock);
      result := map[];
      var listed := order;
      var ticks := 0;
      for i := 0 to |listed|
        invariant Listing(s, clock, State(), result, ticks, i)
      {
        assert s.order[i] in s.order;
        result, ticks := ListOne(s, clock, listed[i], result, ticks, i);
      }
      ListingEnds(s, clock, State(), result, ticks);
    }

    // The body of that loop.
    method ListOne(ghost s: StoreState, clock: nat -> real, key: Key, listed: Contents, read: nat, ghost i: nat)
      returns (result: Contents, ticks: nat)
      requires Unique(s.order) && i < |s.order| && key == s.order[i] && key in s.entries
      requires Listing(s, clock, State(), listed, read, i)
      modifies `order, `entries
      ensures Listing(s, clock, State(), result, ticks, i + 1)
    {
      result, ticks := listed, read;
      ListedIsPresent(s, clock, State(), listed, read, i);
      var entry := entries[key];
      if entry.expiresAt.Some? {
        ticks := ticks + 1;
        if clock(read) >= entry.expiresAt.value {
          ListingDrops(s, clock, State(), listed, read, i);
          order, entries := Drop(order, key), entries - {key};
          return;
        }
      }
      ListingKeeps(s, clock, State(), listed, read, i);
      result := result[key := entry];
    }

    // One pass of the background cleanup: pop due heap items until the head is
    // not due.  The result is the number of clock readings taken.
    method CleanupPass(clock: nat -> real) returns (ticks: nat)
      requires Valid() && Nondecreasing(clock)
      modifies this
      ensures Valid()
      ensures ticks == 0 ==> State() == old(State()) && heap == multiset{}
      ensures ticks > 0 ==> State() == FullScan(old(State()), clock(ticks - 1))
    {
      ghost var s := State();
      KeepAll(order, entries.Keys);
      ticks := PopDue(s, clock);
      if ticks > 0 {
        PartialIsFull(s, State(), maxItems, clock(ticks - 1));
      }
    }

    // The loop of that pass.
    method PopDue(ghost s: StoreState, clock: nat -> real) returns (ticks: nat)
      requires Nondecreasing(clock) && State() == s && Partial(s, s, clock(0))
      modifies this
      ensures ticks == 0 ==> State() == s && heap == multiset{}
      ensures ticks > 0 ==> Partial(s, State(), clock(ticks - 1))
      ensures ticks > 0 ==> forall it | it in heap :: it.0 > clock(ticks - 1)
    {
      ticks := 0;
      while heap != multiset{}
        invariant ticks == 0 ==> State() == s
        invariant Partial(s, State(), clock(LastRead(ticks)))
        decreases |heap|
      {
        var head := HeapHead(heap);
        PartialLater(s, State(), clock(LastRead(ticks)), clock(ticks));
        ticks := ticks + 1;
        if clock(ticks - 1) < head.0 {
          break;
        }
        ticks := PopHead(s, head, clock, ticks);
      }
    }

    // The rest of the loop's body, once the head is known to be due.
    method PopHead(ghost s: StoreState, head: HeapItem, clock: nat -> real, read: nat) returns (ticks: nat)
      requires 0 < read && Nondecreasing(clock) && Partial(s, State(), clock(LastRead(read)))
      requires head in heap && head.0 <= clock(read - 1)
      modifies this
      ensures 0 < ticks && Partial(s, State(), clock(LastRead(ticks)))
      ensures |heap| < |old(heap)|
    {
      ghost var before := State();
      ticks := read;
      heap := heap - multiset{head};
      if head.1 in entries {
        var entry := entries[head.1];
        if entry.expiresAt.Some? {
          ticks := ticks + 1;
          if clock(ticks - 1) >= entry.expiresAt.value {
            order, entries := Drop(order, head.1), entries - {head.1};
          }
        }
      }
      PartialLater(s, before, clock(read - 1), clock(ticks - 1));
      PopStep(s, before, clock(ticks - 1), head);
    }
  }

  function LastRead(ticks: nat): nat {
    if ticks == 0 then 0 else ticks - 1
  }

  // Construction as callers see it: a nonpositive size is an error.
  method NewStore(maxItems: int) returns (r: Option<CacheStore>)
    ensures r.None? <==> maxItems <= 0
    ensures r.Some? ==>
              && fresh(r.value) && r.value.Valid()
              && r.value.maxItems == maxItems && r.value.State() == EMPTY_STORE
  {
    if maxItems <= 0 {
      return None;
    }
    var store := new CacheStore(maxItems);
    return Some(store);
  }

  // ---------------------------------------------------------------------
  // Steps of the loops above, on values.

  lemma PopOldest(m: Contents, order: seq<Key>)
    requires Unique(order) && |order| > 0
    ensures Restrict(m, order[1..]) == Restrict(m, order) - {order[0]}
  {
    assert forall k :: k in order <==> k == order[0] || k in order[1..];
  }

  function Pick(m: Contents, keys: set<Key>): Contents {
    map k | k in m && k in keys :: m[k]
  }

  // The keys still in the cache when a listing has passed i of them.
  function Remaining(s: StoreState, clock: nat -> real, i: nat): set<Key>
    requires i <= |s.order|
  {
    ListedKeys(s, clock, i) + set k | k in s.order[i..]
  }

  ghost predicate Listing(s: StoreState, clock: nat -> real, cur: StoreState, result: Contents, ticks: nat, i: nat) {
    && i <= |s.order| && ticks == ReadsBefore(s.order, s.entries, i)
    && result == Pick(s.entries, ListedKeys(s, clock, i))
    && cur.entries == Pick(s.entries, Remaining(s, clock, i))
    && cur.order == Keep(s.order, Remaining(s, clock, i)) && cur.heap == s.heap
  }

  lemma ListedIsPresent(s: StoreState, clock: nat -> real, cur: StoreState, result: Contents, ticks: nat, i: nat)
    requires i < |s.order| && s.order[i] in s.entries
    requires Listing(s, clock, cur, result, ticks, i)
    ensures s.order[i] in cur.entries && cur.entries[s.order[i]] == s.entries[s.order[i]]
  {
    assert s.order[i] in s.order[i..];
  }

  lemma OneMoreListed(s: StoreState, clock: nat -> real, i: nat)
    requires Unique(s.order) && i < |s.order|
    ensures SurvivesListing(s, clock, i) ==>
              && ListedKeys(s, clock, i + 1) == ListedKeys(s, clock, i) + {s.order[i]}
              && Remaining(s, clock, i + 1) == Remaining(s, clock, i)
    ensures !SurvivesListing(s, clock, i) ==>
              && ListedKeys(s, clock, i + 1) == ListedKeys(s, clock, i)
              && Remaining(s, clock, i + 1) == Remaining(s, clock, i) - {s.order[i]}
  {
    assert forall x :: x in s.order[i..] <==> x == s.order[i] || x in s.order[i + 1..];
    assert forall j | 0 <= j < i :: s.order[j] != s.order[i];
  }

  // Step i of a listing when the entry has not expired at its clock reading.
  lemma ListingKeeps(s: StoreState, clock: nat -> real, cur: StoreState, result: Contents, ticks: nat, i: nat)
    requires Unique(s.order) && i < |s.order| && s.order[i] in s.entries
    requires Listing(s, clock, cur, result, ticks, i)
    requires !Expired(s.entries[s.order[i]], clock(ticks))
    ensures Listing(s, clock, cur, result[s.order[i] := s.entries[s.order[i]]],
                    if s.entries[s.order[i]].expiresAt.None? then ticks else ticks + 1, i + 1)
  {
    assert SurvivesListing(s, clock, i);
    OneMoreListed(s, clock, i);
    PickOneMore(s.entries, ListedKeys(s, clock, i), s.order[i]);
  }

  // And when it has.
  lemma ListingDrops(s: StoreState, clock: nat -> real, cur: StoreState, result: Contents, ticks: nat, i: nat)
    requires Unique(s.order) && i < |s.order| && s.order[i] in s.entries
    requires Listing(s, clock, cur, result, ticks, i)
    requires Expired(s.entries[s.order[i]], clock(ticks))
    ensures Listing(s, clock, StoreState(Drop(cur.order, s.order[i]), cur.entries - {s.order[i]}, cur.heap),
                    result, ticks + 1, i + 1)
  {
    assert !SurvivesListing(s, clock, i);
    OneMoreListed(s, clock, i);
    DropKeepsRest(s.order, Remaining(s, clock, i), s.order[i]);
  }

  lemma PickOneMore(m: Contents, keys: set<Key>, k: Key)
    requires k in m
    ensures Pick(m, keys + {k}) == Pick(m, keys)[k := m[k]]
  {
  }

  lemma ListingStarts(s: StoreState, clock: nat -> real)
    requires forall k :: k in s.order <==> k in s.entries
    ensures Listing(s, clock, s, map[], 0, 0)
  {
    assert s.order[0..] == s.order;
    KeepAll(s.order, Remaining(s, clock, 0));
  }

  lemma ListingEnds(s: StoreState, clock: nat -> real, cur: StoreState, result: Contents, ticks: nat)
    requires Listing(s, clock, cur, result, ticks, |s.order|)
    ensures cur == ListingSpec(s, clock) && result == cur.entries
  {
    var kept := ListedKeys(s, clock, |s.order|);
    assert Remaining(s, clock, |s.order|) == kept;
    KeepMembers(s.order, kept);
    assert forall k :: k in kept ==> k in s.order;
    assert Pick(s.entries, kept) == Restrict(s.entries, Keep(s.order, kept));
  }

  // How far a cleanup pass that started in s has come: only entries and heap
  // items due by now are gone, and the entries left are still covered.
  ghost predicate Partial(s: StoreState, cur: StoreState, now: real) {
    && (forall it :: cur.heap[it] <= s.heap[it])
    && (forall it: HeapItem | it.0 > now :: cur.heap[it] == s.heap[it])
    && (forall k | k in cur.entries :: k in s.entries && cur.entries[k] == s.entries[k])
    && (forall k | k in s.entries && k !in cur.entries :: Expired(s.entries[k], now))
    && Covered(cur.entries, cur.heap)
    && cur.order == Keep(s.order, cur.entries.Keys)
  }

  lemma PartialLater(s: StoreState, cur: StoreState, now: real, later: real)
    requires Partial(s, cur, now) && now <= later
    ensures Partial(s, cur, later)
  {
  }

  // Popping a due head keeps a pass on track: its key's entry goes exactly if
  // it has expired, otherwise the entry's own item is another one.
  lemma PopStep(s: StoreState, cur: StoreState, now: real, head: HeapItem)
    requires Partial(s, cur, now) && head in cur.heap && head.0 <= now
    ensures var gone := head.1 in cur.entries && Expired(cur.entries[head.1], now);
            Partial(s, StoreState(if gone then Drop(cur.order, head.1) else cur.order,
                                  if gone then cur.entries - {head.1} else cur.entries,
                                  cur.heap - multiset{head}), now)
  {
    DropKeepsRest(s.order, cur.entries.Keys, head.1);
    assert (cur.entries - {head.1}).Keys == cur.entries.Keys - {head.1};
  }

  lemma PartialIsFull(s: StoreState, cur: StoreState, max: nat, now: real)
    requires Partial(s, cur, now) && ValidStore(s, max)
    requires forall it | it in cur.heap :: it.0 > now
    ensures cur == FullScan(s, now) && ValidStore(cur, max)
  {
    FullScanKeepsValid(s, max, now);
    assert cur.heap == NotDue(s.heap, now);
    assert cur.entries == LiveAt(s.entries, now);
  }
}
