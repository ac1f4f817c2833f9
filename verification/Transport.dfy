// The in-process transport: one cache store per node.
module Transport {
  import opened Types
  import opened StoreSpec
  import opened Cache

  // NodeRuntime.create's default size.
  const DEFAULT_MAX_ITEMS: nat := 1024

  // The states of all stores, by node.
  type StoreStates = map<NodeId, StoreState>

  function EntriesOf(s: StoreStates): Stores {
    map n | n in s :: s[n].entries
  }

  ghost predicate AllValid(s: StoreStates, sizes: map<NodeId, nat>) {
    forall n | n in s :: n in sizes && 0 < sizes[n] && ValidStore(s[n], sizes[n])
  }

  // What a node registered with a runtime, or without one, starts from.
  ghost function StateOf(runtime: CacheStore?): StoreState
    reads runtime
  {
    if runtime == null then EMPTY_STORE else runtime.State()
  }

  ghost function SizeOf(runtime: CacheStore?): nat {
    if runtime == null then DEFAULT_MAX_ITEMS else runtime.maxItems
  }

  class InProcessTransport {
    var runtimes: map<NodeId, CacheStore>
    ghost var states: StoreStates              // what the runtimes hold
    ghost var sizes: map<NodeId, nat>
    ghost var owner: map<CacheStore, NodeId>   // no two nodes share a store

    ghost predicate Linked()
      reads this, runtimes.Values
    {
      && runtimes.Keys == states.Keys == sizes.Keys
      && forall n | n in runtimes ::
           && runtimes[n] in owner && owner[runtimes[n]] == n
           && runtimes[n].maxItems == sizes[n] && runtimes[n].State() == states[n]
    }

    ghost predicate Valid()
      reads this, runtimes.Values
    {
      Linked() && AllValid(states, sizes)
    }

    constructor ()
      ensures Valid() && states == map[]
    {
      runtimes, states, sizes, owner := map[], map[], map[], map[];
    }

    // Changing one node's store leaves the others as they were.
    twostate lemma OneStoreChanged(n: NodeId)
      requires old(Linked()) && runtimes == old(runtimes) && n in runtimes
      requires states == old(states)[n := runtimes[n].State()] && sizes == old(sizes) && owner == old(owner)
      requires forall m | m in runtimes && m != n :: unchanged(runtimes[m])
      ensures Linked()
    {
    }

    // The runtime, if given, may be the one the node had before.
    ghost predicate MayRegister(id: NodeId, runtime: CacheStore?)
      reads this, runtime
    {
      runtime != null ==> runtime.Valid() && forall m | m in runtimes && m != id :: runtimes[m] != runtime
    }

    method RegisterNode(id: NodeId, runtime: CacheStore?)
      requires Valid() && MayRegister(id, runtime)
      modifies this
      ensures Valid()
      ensures if runtime != null then runtimes == old(runtimes)[id := runtime]
              else id in runtimes && fresh(runtimes[id]) && runtimes == old(runtimes)[id := runtimes[id]]
      ensures states == old(states)[id := StateOf(runtime)]
      ensures sizes == old(sizes)[id := SizeOf(runtime)]
      ensures runtime == null ==> states[id] == StoreState([], map[], multiset{}) && sizes[id] == 1024
    {
      var rt := runtime;
      if rt == null {
        rt := new CacheStore(DEFAULT_MAX_ITEMS);
      }
      AddStore(id, rt);
    }

    // The dictionary update of RegisterNode.
    method AddStore(id: NodeId, rt: CacheStore)
      requires Valid() && MayRegister(id, rt)
      modifies this
      ensures Valid() && runtimes == old(runtimes)[id := rt]
      ensures states == old(states)[id := rt.State()] && sizes == old(sizes)[id := rt.maxItems]
    {
      runtimes, owner, states, sizes :=
        runtimes[id := rt], owner[rt := id], states[id := rt.State()], sizes[id := rt.maxItems];
      forall n | n in runtimes
        ensures runtimes[n] in owner && owner[runtimes[n]] == n
        ensures runtimes[n].maxItems == sizes[n] && runtimes[n].State() == states[n]
      {
        assert n != id ==> n in old(runtimes) && runtimes[n] == old(runtimes)[n] && runtimes[n] != rt;
      }
    }

    method Put(n: NodeId, key: Key, value: Value, ttl: Option<real>, now: real)
      requires Valid() && n in states
      modifies `states, runtimes.Values
      ensures Valid()
      ensures states == old(states)[n := PutSpec(old(states)[n], sizes[n], key, value, ttl, now)]
    {
      StoreIsValid(n);
      runtimes[n].Put(key, value, ttl, now);
      states := states[n := runtimes[n].State()];
      OneStoreChanged(n);
    }

    method Get(n: NodeId, key: Key, now: real) returns (value: Option<Value>)
      requires Valid() && n in states
      modifies `states, runtimes.Values
      ensures Valid()
      ensures value == GetSpec(old(states)[n], key, now).1
      ensures states == old(states)[n := GetSpec(old(states)[n], key, now).0]
    {
      StoreIsValid(n);
      value := runtimes[n].Get(key, now);
      states := states[n := runtimes[n].State()];
      OneStoreChanged(n);
    }

    method Delete(n: NodeId, key: Key) returns (deleted: bool)
      requires Valid() && n in states
      modifies `states, runtimes.Values
      ensures Valid()
      ensures deleted <==> key in old(states)[n].entries
      ensures states == old(states)[n := DeleteSpec(old(states)[n], key)]
    {
      StoreIsValid(n);
      deleted := runtimes[n].Delete(key);
      states := states[n := runtimes[n].State()];
      OneStoreChanged(n);
    }

    // A node's snapshot lists its items first and its entries second; the clock
    // moves on in between.
    method Snapshot(n: NodeId, itemsClock: nat -> real, entriesClock: nat -> real) returns (entries: Contents)
      requires Valid() && n in states
      modifies `states, runtimes.Values
      ensures Valid()
      ensures states == old(states)[n := ListingSpec(ListingSpec(old(states)[n], itemsClock), entriesClock)]
      ensures entries == states[n].entries
    {
      StoreIsValid(n);
      var _ := runtimes[n].Snapshot(itemsClock);
      entries := runtimes[n].Snapshot(entriesClock);
      states := states[n := runtimes[n].State()];
      OneStoreChanged(n);
    }

    lemma StoreIsValid(n: NodeId)
      requires Valid() && n in runtimes
      ensures runtimes[n].Valid()
    {
    }
  }
}
