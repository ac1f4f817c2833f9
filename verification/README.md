# Verified model of the distributed cache

A Dafny model of the replicated, sharded in-memory cache under
`distributed_cache/`: the consistent-hash ring, the per-node store with TTL and
LRU eviction, the cluster manager, and the cluster service with its
asynchronous replica writes and background rebalances.

`dafny verify dfyconfig.toml` checks everything.

## How it is laid out

| file | contents |
|---|---|
| `Types.dfy` | keys, nodes, entries, options |
| `Ring.dfy` | the ring as a value: routing defined as "nearest vnode clockwise", and how a key's two owners change when nodes come and go |
| `RingHistory.dfy` | rings reached by add/remove histories |
| `ConsistentHashRing.dfy` | the ring class: dictionary, sorted keys, `bisect_right`, the circular scan |
| `StoreSpec.dfy` | one store as a value: operations, runs, LRU |
| `StoreEffects.dfy` | what each store operation changes, by position and by entry, and the order over any run |
| `CacheStore.dfy` | the store class with its loops, the expiry heap and the cleanup pass |
| `ClusterManager.dfy` | liveness and failover routing, and the manager class |
| `Migration.dfy` | what a rebalance plans for each key |
| `Rebalance.dfy` | the rebalance as a step system, its per-key invariant, and that it can always finish |
| `Guarantees.dfy` | reads during a rebalance |
| `LateWrites.dfy`, `SilentPrimary.dfy` | the same with late replica writes of the key itself, and with a silent old primary |
| `Placement.dfy` | outcome of a plan, confluence, expiry over chains of rebalances, placement over whole histories |
| `Replication.dfy` | replica lag, ttl at both owners, loss of one node |
| `Provenance.dfy` | the whole cluster with failures and overlapping rebalances |
| `Overlap.dfy` | reads during overlapping rebalances |
| `Witnesses.dfy` | concrete histories in which a guarantee fails |
| `Transport.dfy` | the in-process transport over the store objects |
| `Planner.dfy` | the planning loops |
| `Operations.dfy`, `OperationEffects.dfy` | what each cluster operation does, on values, and what that means for its callers |
| `Service.dfy` | the cluster front end over manager and transport |

Classes and methods follow the program's own loops and in-place updates; their
contracts tie each new state to a function on values, and the theorems are
lemmas about those functions.

## Modelling choices

- The hash is a function parameter from strings to positions below 2^256. Where
  a result depends on vnode positions not colliding, only the positions of the
  nodes that occur matter, and the exact condition is stated and proved.
- Time is explicit. Operations that read the clock once take the reading;
  operations that read it several times take `clock: nat -> real` and use
  successive readings. Nothing assumes readings are equal unless it says so.
- A rebalance is a transition system: any node may be snapshotted next, any
  planned task may run next, time may pass at any point, and `Other` stands for
  any activity that leaves the watched keys alone (client traffic on other keys,
  their expiry or eviction). The read theorems watch one key only.
- The service holds the manager and the transport, and the transport the store
  objects; the transport's ghost map of store states is tied to those objects
  by its invariant, and the theorems' states are that map's entries.
- Dictionary order matters in one place, the choice of the first snapshot that
  holds a key; the plan takes an arbitrary order, so results hold for all.
- The expiry heap is a multiset whose head is any item of least expiry.
- Where the code does less than one might expect, the model follows the code.
  Found that way: after removing a node, a new owner that kept a stray copy with
  another value keeps it (`RemoveCompletesIff`; a history from an empty cluster
  is `StrayCopySurvivesRemove`); a node that joins with a filled store can leave
  a key in the wrong place or with two values (`JoinPlacesKeyIff`, same history);
  with colliding vnodes the ring remembers the order of additions
  (`HistoryIndependenceIff`, `CollisionRemembersOrder`); a newcomer whose vnode
  lands on another node's can push the old primary out of the owners
  (`OwnersUnderAddIff`, `CollisionCanDropTheOldPrimary`); two joins in quick
  succession can make both owners of a key newcomers without it
  (`ReadsFindTheHolder`, `TwoJoinsHideAKey`); a primary whose timeout falls
  between the two liveness looks of one get makes that get fail though the
  replica is alive (`SurvivesAnySingleFailure`, `TimeoutLosesAGet`); the last line
  of failover routing, which tries the primary once more, never changes the
  result as long as no heartbeat arrives between the looks (`RouteForKey`).

## Model

| member | source | states |
|---|---|---|
| Ring.Clockwise | distributed_cache/cluster/consistent_hash.py:59-66 | clockwise distance of a vnode is (p - hash - 1) mod 2^256, so a vnode exactly at the key is a full turn away |
| Ring.Lookup | distributed_cache/cluster/consistent_hash.py:59-66 | routing defined by the nearest vnode, missing exactly on the empty ring |
| Ring.LookupIs | distributed_cache/cluster/consistent_hash.py:59-66 | the nearest vnode is unique and decides routing |
| Ring.NearestIsFirstAfter | distributed_cache/cluster/consistent_hash.py:62-66 | the nearest vnode is the first strictly after the key, or the first of all if there is none |
| Ring.KeyOnAVnodeGoesToTheNext | distributed_cache/cluster/consistent_hash.py:63-66 | a key hashed exactly onto a vnode is routed as if that vnode were absent, unless it is the only one |
| Ring.AddThenRemoveRestoresIff | distributed_cache/cluster/consistent_hash.py:35-47 | adding a fresh node and removing it restores the ring if and only if its vnodes hit no occupied position |
| Ring.OwnersAreOnTheRing | distributed_cache/cluster/consistent_hash.py:59-93 | primary and replica are different nodes, both with vnodes |
| Ring.LookupWithoutOther | distributed_cache/cluster/consistent_hash.py:42-66 | removing a node other than the one found keeps what is found |
| Ring.OwnersUnderRemove | distributed_cache/cluster/consistent_hash.py:42-47 | removing the primary promotes its replica, removing anyone else keeps the primary, removing a bystander keeps both owners |
| Ring.OwnersUnderAdd | distributed_cache/cluster/consistent_hash.py:35-40 | adding n turns owners (d1, d2) into (d1, d2), (n, d1) or (d1, n) |
| Ring.OwnersUnderAddIff | distributed_cache/cluster/consistent_hash.py:35-40 | that holds for all ring positions if and only if every overwritten vnode is followed by a surviving vnode of the same node |
| Ring.NoCollisionIsHarmless | distributed_cache/cluster/consistent_hash.py:37-39 | disjoint vnode positions meet that condition |
| Ring.CollisionCanDropTheOldPrimary | distributed_cache/cluster/consistent_hash.py:39 | a concrete collision that violates it |
| RingHistory.VnodeLabelsAreInjective | distributed_cache/cluster/consistent_hash.py:38 | "id:index" labels of different nodes or indices differ |
| RingHistory.NoLeadingZero | distributed_cache/cluster/consistent_hash.py:38 | the index in a label is written in decimal without leading zeros |
| RingHistory.DigestsFillTheRing | distributed_cache/cluster/consistent_hash.py:10-11 | positions are exactly the numbers of 32 big-endian bytes |
| RingHistory.CollisionsComeFromTheHash | distributed_cache/cluster/consistent_hash.py:37-39 | if the hash tells the vnode labels of some nodes apart, no two of them share a vnode position |
| RingHistory.CollisionFreeIsPossible | distributed_cache/cluster/consistent_hash.py:37-39 | for any two nodes and any replica count there is a hash under which they share no position |
| RingHistory.RingRepresentsMembers | distributed_cache/cluster/consistent_hash.py:35-47 | after any history of nodes that share no positions, each member has exactly its own positions and nobody else has any |
| RingHistory.HistoryIndependenceIff | distributed_cache/cluster/consistent_hash.py:35-47 | among any set of nodes, equal memberships give equal rings whatever the histories if and only if no two of these nodes share a position |
| RingHistory.CollisionRemembersOrder | distributed_cache/cluster/consistent_hash.py:39 | two nodes that share a position: adding them in the two orders gives equal memberships and different rings |
| RingHistory.OwnersDependOnMembersOnly | distributed_cache/cluster/consistent_hash.py:59-93 | for nodes that share no positions, both owners of every key depend on the membership alone |
| HashRing.BisectRight | distributed_cache/cluster/consistent_hash.py:63 | splits a sorted list into the elements at most x and those above |
| HashRing.Sorted | distributed_cache/cluster/consistent_hash.py:40 | strictly increasing list with exactly the dictionary's keys |
| HashRing.ScanOrder | distributed_cache/cluster/consistent_hash.py:88-89 | the circular scan visits vnodes in increasing clockwise distance |
| HashRing.PositionsAreLabels | distributed_cache/cluster/consistent_hash.py:37-39 | a node sits at the hashes of "id:0" to "id:(replicas - 1)" and nowhere else |
| HashRing.ConsistentHashRing.AddNode | distributed_cache/cluster/consistent_hash.py:35-40 | places the node at every one of its labels, overwriting, leaves every other position alone, re-sorts, and keeps every vnode owned by a current member |
| HashRing.ConsistentHashRing.RemoveNode | distributed_cache/cluster/consistent_hash.py:42-47 | exactly the vnodes of the other nodes stay, as they were |
| HashRing.ConsistentHashRing.Clone | distributed_cache/cluster/consistent_hash.py:49-54 | a separate object with the same ring |
| HashRing.ConsistentHashRing.GetNode | distributed_cache/cluster/consistent_hash.py:59-66 | the sorted lookup agrees with the nearest-vnode definition |
| HashRing.ConsistentHashRing.GetSuccessorForKey | distributed_cache/cluster/consistent_hash.py:79-93 | the scan equals plain routing on the ring without the excluded node, also when nothing is left |
| HashRing.NewRing | distributed_cache/cluster/consistent_hash.py:27-33 | a nonpositive replica count is an error |
| StoreSpec.RunKeepsValid | distributed_cache/cache/store.py:36-105 | after any run of puts, gets, deletes, clears, listings and cleanups keys are unique in the order, the size is at most the limit, and every expiring entry has its exact heap item |
| StoreSpec.ResidentsAreLastTouched | distributed_cache/cache/store.py:36-70 | over any run of puts, with or without ttl, and gets that meets no expired entry, the residents in LRU order are the last max_items distinct keys put or hit |
| StoreSpec.OneMoreTouch | distributed_cache/cache/store.py:45-50 | touching a key moves it to the end of the order of last touches |
| StoreSpec.TouchAfterEviction | distributed_cache/cache/store.py:143-146 | evicting the oldest commutes with touching a key |
| StoreSpec.PutThenGet | distributed_cache/cache/store.py:36-70 | a put is read back exactly until its ttl runs out, at once for a nonpositive ttl |
| StoreSpec.PutBelowCapacity | distributed_cache/cache/store.py:44-57 | with room left, a put changes its own key only |
| StoreSpec.CleanupIsInvisible | distributed_cache/cache/store.py:110-130 | a cleanup changes the answer of no later get |
| StoreSpec.ListingBounds | distributed_cache/cache/store.py:96-105 | a listing keeps everything live at its last clock reading and nothing expired at its first |
| StoreSpec.ListingAtOneInstant | distributed_cache/cache/store.py:96-105 | at a single instant a listing is exactly the live entries |
| StoreSpec.ListingIsPossible | distributed_cache/cache/store.py:96-105 | over any number of clock readings a listing returns and leaves entries unchanged and drops only expired ones |
| StoreEffects.GetEffect | distributed_cache/cache/store.py:59-70 | a hit, with or without ttl, makes the key the newest and changes no entry, no other key's place and no heap item; an expired entry is removed; a miss changes nothing |
| StoreEffects.GetIsInvisible | distributed_cache/cache/store.py:59-70 | a get of any key changes the answer of no later get |
| StoreEffects.PutEffect | distributed_cache/cache/store.py:44-57 | a put makes the key the newest; only a new key in a full store pushes another out, the oldest one; every other entry and place stays |
| StoreEffects.DeleteEffect | distributed_cache/cache/store.py:72-74 | only the key's entry goes, the others keep their places |
| StoreEffects.CleanupEffect | distributed_cache/cache/store.py:114-130 | a cleanup leaves exactly the unexpired entries, in their order, and exactly the heap items not yet due |
| StoreEffects.ListingEffect | distributed_cache/cache/store.py:96-105 | a listing keeps what it keeps unchanged and in order, and the heap |
| StoreEffects.OrderIsRecency | distributed_cache/cache/store.py:36-130 | after any run of any operations the residents stand in the order in which they were last put or hit |
| Cache.CacheStore.Put | distributed_cache/cache/store.py:36-57 | the new state for a put, including the nonpositive ttl that deletes and the eviction loop |
| Cache.CacheStore.EvictLru | distributed_cache/cache/store.py:143-146 | the loop leaves exactly the newest max_items keys, in order |
| Cache.CacheStore.Get | distributed_cache/cache/store.py:59-70 | value and new state for hit, miss and expired entry |
| Cache.CacheStore.Delete | distributed_cache/cache/store.py:72-74 | removes the key and reports whether it was stored, expired or not |
| Cache.CacheStore.Clear | distributed_cache/cache/store.py:76-78 | empties the entries and leaves the heap |
| Cache.CacheStore.Snapshot | distributed_cache/cache/store.py:96-105 | result and remaining entries agree; an entry survives exactly if unexpired at its own clock reading |
| Cache.CacheStore.CleanupPass | distributed_cache/cache/store.py:114-130 | popping due heap items until the head is not due leaves exactly what a full scan at the last clock reading would, despite stale items; terminates |
| Cache.PopStep | distributed_cache/cache/store.py:117-130 | popping one due item keeps the remaining entries covered by the heap |
| Cache.NewStore | distributed_cache/cache/store.py:20-24 | a nonpositive size is an error |
| Routing.DeadStaysDead | distributed_cache/cluster/manager.py:48-52 | without a heartbeat the alive set only shrinks |
| Routing.AliveUntilTheTimeout | distributed_cache/cluster/manager.py:48-52 | a node is alive exactly until its last heartbeat plus the timeout, that instant included |
| Routing.ServedIffAnOwnerIsAlive | distributed_cache/cluster/manager.py:60-70 | a key is unserved if and only if neither owner is alive; the server is an alive owner |
| Manager.ClusterManager.constructor | distributed_cache/cluster/manager.py:21-29 | members and ring are those of adding the nodes in turn; each heartbeat is the clock reading of the node's first addition |
| Manager.ClusterManager.AddNode | distributed_cache/cluster/manager.py:34-37 | members, ring and heartbeats after an add; a known node keeps its heartbeat; the three domains stay equal |
| Manager.ClusterManager.RemoveNode | distributed_cache/cluster/manager.py:39-42 | the node leaves all three |
| Manager.ClusterManager.RecordHeartbeat | distributed_cache/cluster/manager.py:44-46 | only members' heartbeats are recorded; a member is then alive exactly until the timeout has passed, anyone else never |
| Manager.ClusterManager.RouteForKey | distributed_cache/cluster/manager.py:60-70 | primary and replica from the ring, and the serving node in terms of their last heartbeats and the timeout at the first two clock readings, while no heartbeat arrives between the looks |
| Manager.ClusterManager.GetAllNodes | distributed_cache/cluster/manager.py:57-58 | every member exactly once, in an order the contract leaves open |
| Manager.MutateWithCopy | distributed_cache/cluster/manager.py:31-46 | any sequence of manager calls keeps membership, heartbeats and ring in agreement and follows the replayed topology; a ring copied before stays as it was, its dictionaries being immutable values here |
| Manager.NewManager | distributed_cache/cluster/manager.py:21-29 | a nonpositive timeout or replica count is an error, anything else a manager of the given nodes |
| Migration.FirstIsACopy | distributed_cache/cluster/service.py:271-280 | the first snapshot entry is some node's copy, and exists if any listed node has one |
| Migration.SourceIsACopy | distributed_cache/cluster/service.py:208-213 | the chosen source is a snapshotted copy of the key, for either way of choosing |
| Migration.SourcePrefersTheLiving | distributed_cache/cluster/service.py:247-259 | the preferred source is an owner, alive if any owner is, the primary if that one is |
| Migration.SourceExists | distributed_cache/cluster/service.py:208-213 | a snapshotted key always has a source |
| Migration.FirstCopyIsFirst | distributed_cache/cluster/service.py:271-280 | the fallback source is the copy of the first node in snapshot order that has one |
| Migration.AddPutsCarry | distributed_cache/cluster/service.py:208-229 | after an add every planned put carries the old primary's entry if that node is alive or alone, the old replica's if it is silent, and the first one only if the node chosen has none |
| Migration.RemovePutsCarry | distributed_cache/cluster/service.py:319-336 | after a removal every planned put carries the new primary's entry, or else the old replica's, or else the first one |
| Migration.PlannedIff | distributed_cache/cluster/service.py:191-237 | exactly which puts and deletes are planned for a key, with which value and ttl |
| Migration.TargetsAreUnique | distributed_cache/cluster/service.py:223-237 | a (node, key) pair is the target of at most one planned put or delete |
| Migration.PlannedForKey | distributed_cache/cluster/service.py:191-237 | a plan's tasks for a key are those that key's copies alone call for |
| Migration.PlannedPutsAreNotDeletes | distributed_cache/cluster/service.py:215-229 | a planned put never has a nonpositive ttl |
| Migration.MigratedExpiry | distributed_cache/cluster/service.py:215-229 | a migrated copy expires at the source's expiry plus the time from planning to storing |
| Migration.ChainDrift | distributed_cache/cluster/service.py:185-229 | over any chain of migration hops the expiry drifts by exactly the sum of the delays, never early |
| Migration.ApplyPutIsStorePut | distributed_cache/cache/store.py:36-57 | below capacity the protocol's put is the store's put |
| Rebalance.CollectKeepsInv | distributed_cache/cluster/service.py:176-178 | taking a node's snapshot, over any number of clock readings, keeps the per-key invariant while no copy of the key expires |
| Rebalance.PlanKeepsInv | distributed_cache/cluster/service.py:191-237 | planning establishes the status of every node's copy |
| Rebalance.FireKeepsInv | distributed_cache/cluster/service.py:240-241 | running any pending task next keeps it |
| Rebalance.StepKeepsInv | distributed_cache/cluster/service.py:172-245 | each step of a rebalance, and any activity beside it, keeps the per-key invariant |
| Rebalance.RunKeepsInv | distributed_cache/cluster/service.py:172-245 | the invariant holds in every state of every run |
| Rebalance.OutsiderKeepsCopy | distributed_cache/cluster/service.py:187-237 | a rebalance never touches the copy a departed node still has |
| Rebalance.RebalanceCanFinish | distributed_cache/cluster/service.py:172-245 | while snapshots are collected, steps of the rebalance alone can always bring it to an end without pending tasks |
| Guarantees.AddReadsNeverMiss | distributed_cache/cluster/service.py:79-95 | after add_node, a key held by its old primary is found with its value in every state of every interleaving, even if a get's two reads straddle steps |
| Guarantees.AddReadsOnOldRoute | distributed_cache/cluster/service.py:79-95 | so is it by a get routed before the switch that reads after it |
| Guarantees.RemoveReadsNeverMiss | distributed_cache/cluster/service.py:79-95 | after remove_node, a key on which the surviving old owners agree is found in every state |
| Guarantees.RemoveReadsOnOldRoute | distributed_cache/cluster/service.py:79-95 | so is it by a get routed before the removal that reads after it, even at the departed node's store |
| Guarantees.RemoveCompletesIff | distributed_cache/cluster/service.py:319-336 | at completion every new owner holds the value if and only if no new owner started with a copy of another value |
| Guarantees.HolderReadsValue | distributed_cache/cluster/service.py:172-245 | what a node answers in any reachable state, from its first copy and the plan |
| LateWrites.AddReadsDespiteLateWrites | distributed_cache/cluster/service.py:79-95 | after add_node, a key held by its old primary is found in every state of every interleaving even if late replica writes, evictions, expiry and deletes change the other nodes' copies of that very key |
| LateWrites.PairStep | distributed_cache/cluster/service.py:172-245 | each step keeps the old primary's copy, and the newcomer without a copy or with one migrated from it |
| SilentPrimary.SilentHolders | distributed_cache/cluster/service.py:247-257 | after add_node with the old primary silent and v at the old replica, a newcomer holds v or nothing in every reachable state and v at completion if it is an owner; a replica that stays an owner holds v |
| SilentPrimary.SilentPrimaryReads | distributed_cache/cluster/service.py:79-95 | a get never returns the silent primary's copy: it returns v or misses, and v once the rebalance is done or if the owners did not change |
| Placement.Confluence | distributed_cache/cluster/service.py:240-241 | any two execution orders leave the same holders and values, and expiries within the elapsed time |
| Placement.ExactPlacement | distributed_cache/cluster/service.py:191-241 | a moved key ends at exactly its new owners, new ones with the source's value; a key not moved, its owners unchanged or its source expired, is untouched |
| Placement.CarriesIsHop | distributed_cache/cluster/service.py:215-241 | a copy that a run of planned tasks makes at a target is a migration hop whose delay lies within the run |
| Placement.ExpiryOverRuns | distributed_cache/cluster/service.py:185-241 | over any chain of rebalances, each migrating the copy the one before made, the value stays and the expiry drifts later by at most the time the runs took, never earlier |
| Placement.RebalancePlacesKeyIff | distributed_cache/cluster/service.py:191-241 | a completed rebalance leaves a key at exactly its new owners with one value if and only if the starting copies let it: owners with copies agree, also with the source if another owner needs one, or nothing moves and the key is in place |
| Placement.RebalancePlacesKey | distributed_cache/cluster/service.py:282-352 | from the surviving old owners to exactly the new owners with one value |
| Placement.NothingLeftToMove | distributed_cache/cluster/service.py:205-206 | on a well-placed cluster rerunning the rebalance schedules no work |
| Placement.JoinPlacesKeyIff | distributed_cache/cluster/service.py:41-56 | a node joins with any filled store: a key ends up in place if and only if it brings none of it, or the owners change and its copy contradicts no other |
| Placement.JoinRestoresPlacement | distributed_cache/cluster/service.py:41-56 | so a join with its completed rebalance restores placement if and only if everything the newcomer brings fits |
| Placement.LeaveRestoresPlacement | distributed_cache/cluster/service.py:120-131 | a departure with its completed rebalance restores placement |
| Placement.PlacementOverHistory | distributed_cache/cluster/service.py:41-131 | from an empty cluster, any history of drained writes, deletes, fitting joins and departures keeps every key at exactly its owners with one value |
| StrayCopies.StrayCopySurvivesRemove | distributed_cache/cluster/service.py:322-323 | a history from an empty cluster, every rebalance completed: a node brings a copy that does not fit, placement is lost, and the copy survives the next node's removal at a new owner with the wrong value |
| Replication.ReplicaLagsByTheQueue | distributed_cache/cluster/service.py:58-77 | in every reachable state the queued writes laid over the replica's copy shadow the primary's: it answers whenever the primary does, with its value; without a queued write so does the replica itself, and copies that never expire are equal |
| Replication.StepKeepsInv | distributed_cache/cluster/service.py:58-77 | puts with or without ttl, gets, background writes, time passing and expiry keep the lag invariant for all keys |
| Replication.PrimaryHoldsLastPut | distributed_cache/cluster/service.py:65-66 | the primary's copy is the last put's, expiring its ttl after the put, or is gone because it expired |
| Replication.TtlAtBothOwners | distributed_cache/cluster/service.py:65-77 | once the replica write has drained, the primary answers the last put's value until its ttl has run out since the put, the replica until it has run out since its own write, and neither from then on |
| Replication.TwoNodesGiveAReplica | distributed_cache/cluster/manager.py:60-65 | with two nodes on the ring every key has a replica |
| Replication.SurvivesAnySingleFailure | distributed_cache/cluster/manager.py:60-70 | once the replica write has drained, all nodes but one are within the heartbeat timeout and the ttl has not run out, a get returns the last put if and only if the primary's timeout does not fall between the get's two looks |
| Timeouts.TimeoutLosesAGet | distributed_cache/cluster/manager.py:60-70 | two nodes hold the last put, one is heard from all along, and a get whose looks fall around the primary's timeout finds nobody to serve it |
| Provenance.RunKeepsOrigin | distributed_cache/cluster/service.py:58-245 | under failover, lost and reordered writes, deletes, eviction, filled stores of joining nodes and overlapping rebalances, every copy, queued write, snapshot and task carries a value put or brought for its key |
| Provenance.NoValueFromNowhere | distributed_cache/cluster/service.py:58-245 | every stored copy of k carries a value that an earlier put of k, or a joining node's store, supplied in the run |
| Provenance.WrittenIsSupplied | distributed_cache/cluster/service.py:41-66 | only client puts and joining nodes' stores introduce values |
| Provenance.GetReturnsSomethingSupplied | distributed_cache/cluster/service.py:79-95 | in every run from the start, a get returns only values supplied for the key before the get ended, even if its reads see different states |
| Overlap.ReadsFindTheHolder | distributed_cache/cluster/service.py:79-95 | with any number of overlapping rebalances, failed tasks, late or lost writes and failures elsewhere, a get finds a key kept by a holder that is alive and one of the current owners |
| Overlap.StepKeeps | distributed_cache/cluster/service.py:41-245 | every step of the whole cluster that is not aimed at the key's holder keeps that holder's copy and brings no other value for the key |
| Overlap.PlanSpares | distributed_cache/cluster/service.py:223-237 | a plan neither writes nor deletes the key at an owner that has it, whatever membership it was made for |
| HiddenKeys.TwoJoinsHideAKey | distributed_cache/cluster/service.py:41-56 | a history from an empty cluster: two nodes join before the first rebalance, both owners of a key are newcomers without it, and every get misses though a member holds it |
| Transport.InProcessTransport.RegisterNode | distributed_cache/cluster/transport.py:28-32 | a node's store is the given one, possibly its own earlier one, or a new empty one; no other node's store changes |
| Transport.InProcessTransport.Put | distributed_cache/cluster/transport.py:34-35 | changes that node's store as a store put does, and no other |
| Transport.InProcessTransport.Get | distributed_cache/cluster/transport.py:37-38 | answers and changes as a store get |
| Transport.InProcessTransport.Delete | distributed_cache/cluster/transport.py:40-41 | answers and changes as a store delete |
| Transport.InProcessTransport.Snapshot | distributed_cache/cluster/transport.py:46-47 | lists the store twice, as the node runtime does, and returns the second listing |
| Planner.Rebalancing.SourceNodeForKey | distributed_cache/cluster/service.py:247-259 | the old primary if alive or alone, else its replica |
| Planner.Rebalancing.FirstEntry | distributed_cache/cluster/service.py:271-280 | the first copy in dictionary order |
| Planner.Rebalancing.SourceEntry | distributed_cache/cluster/service.py:208-213 | the source the plan speaks of, for adds and removes |
| Planner.Rebalancing.PlanKey | distributed_cache/cluster/service.py:192-237 | one key's puts and deletes, each once, and no others |
| Planner.Rebalancing.PlanPuts | distributed_cache/cluster/service.py:223-229 | a put for each new owner that is a member without a copy |
| Planner.Rebalancing.PlanDeletes | distributed_cache/cluster/service.py:232-237 | a delete for each member with a copy that is no owner |
| Planner.Rebalancing.PlanAll | distributed_cache/cluster/service.py:188-237 | the loops schedule exactly the planned tasks, each once, with liveness read anew for each key |
| Planner.SchedulesMean | distributed_cache/cluster/service.py:188-241 | each planned task is in the two task lists exactly once, and nothing else is |
| Planner.AliveLooksMean | distributed_cache/cluster/service.py:253 | the liveness used for a key is that of its own clock reading against heartbeats and timeout |
| Service.DistributedCacheCluster.Put | distributed_cache/cluster/service.py:58-77 | response, the primary's store, the recorded heartbeat and the queued replica write, or 503 and no change; with everyone alive and room at the primary, stores and queue make the put step of the replica-lag theorems |
| Operations.PutWrites | distributed_cache/cluster/service.py:58-77 | what a put does to stores and queue, with liveness read from heartbeats, is that step |
| Service.DistributedCacheCluster.DecisionMeans | distributed_cache/cluster/manager.py:60-70 | the routing of every operation in terms of ring, heartbeats and timeout |
| OperationEffects.PutMeans | distributed_cache/cluster/service.py:58-77 | 503 without change, or 200 with only the serving node's store and heartbeat changed and one write queued, with the put's key, value and ttl, exactly if the replica is another node that looks alive |
| OperationEffects.PutIsAHeartbeat | distributed_cache/cluster/service.py:70 | the serving node then counts as alive for exactly the timeout |
| OperationEffects.PutThenDrain | distributed_cache/cluster/service.py:65-75 | the serving node answers the value until its ttl has run out since the put, and the replica until it has run out since the queued write was made |
| OperationEffects.PutAtServingNode | distributed_cache/cluster/service.py:65-66 | what the serving node stores afterwards, also when its store is full: the written key is there and only the oldest other key may go |
| OperationEffects.PutIsClusterPut | distributed_cache/cluster/service.py:58-77 | with room it is the put event of the whole-cluster runs |
| Service.DistributedCacheCluster.ReplicateNext | distributed_cache/cluster/service.py:154-170 | the oldest queued write, and no other, reaches its node's store object; with room there, stores and queue make the drain step of the replica-lag theorems |
| Service.DistributedCacheCluster.Get | distributed_cache/cluster/service.py:79-95 | returns what the two-read definition used by the theorems returns, with the node that served, each store read touched as by a store get, and a heartbeat recorded exactly for a hit at the routed node |
| Operations.AnswersAsGetVia | distributed_cache/cluster/service.py:79-95 | two store gets in turn answer what the starting copies call for, although the first may drop or touch an entry |
| OperationEffects.AnswerMeans | distributed_cache/cluster/service.py:79-95 | 200 with the serving node's value if it has one, else with the live replica's, else 404, and the node the value came from |
| OperationEffects.GetLeavesAnswers | distributed_cache/cluster/service.py:79-95 | a get changes no later answer of any node and no store but the owners' |
| Service.DistributedCacheCluster.Delete | distributed_cache/cluster/service.py:97-110 | the routed delete and its response, with 503 and no change if nobody serves |
| OperationEffects.DeleteMeans | distributed_cache/cluster/service.py:97-110 | 404 and no change if the serving node lacks the key; else 200 and the key is gone there and at the replica if that looks alive |
| OperationEffects.DeleteSpares | distributed_cache/cluster/service.py:97-110 | every other entry of every node stays, also the key at a replica that looks dead |
| OperationEffects.DeleteThenGet | distributed_cache/cluster/service.py:79-110 | after a successful delete with the replica alive, a get on the same route finds nothing |
| OperationEffects.DeleteIsClusterDelete | distributed_cache/cluster/service.py:97-110 | it is the delete event of the whole-cluster runs |
| Service.DistributedCacheCluster.AddNode | distributed_cache/cluster/service.py:41-56 | 409 without effect for a known node, else the ring switches at once, the heartbeat starts, the store is registered, and the old ring is handed to the rebalance |
| Service.DistributedCacheCluster.AddNodeStartsAddSetting | distributed_cache/cluster/service.py:41-56 | what AddNode leaves is the situation the theorems on adding a node start from |
| Service.DistributedCacheCluster.RemoveNode | distributed_cache/cluster/service.py:120-131 | 404 without effect for an unknown node, else members, heartbeats and ring lose the node at once and the old ring is handed to the rebalance |
| Service.DistributedCacheCluster.RemoveNodeStartsRemoveSetting | distributed_cache/cluster/service.py:120-131 | what RemoveNode leaves is the situation the theorems on removing a node start from |
| Service.DistributedCacheCluster.SnapshotAt | distributed_cache/cluster/runtime.py:41-48 | one node's snapshot, whatever runs before and after it, changes the stores as a collect step of the rebalance does |
| Service.DistributedCacheCluster.CollectSnapshots | distributed_cache/cluster/service.py:174-178 | every member's store object is listed once, and the snapshots agree with the stores afterwards |
| OperationEffects.SnapshotsMean | distributed_cache/cluster/service.py:174-178 | only the listed nodes' stores change; an entry stays unchanged or has expired by the end, and none that stays had expired before the node's second listing began |
| Service.DistributedCacheCluster.Rebalance | distributed_cache/cluster/service.py:172-237 | schedules exactly the tasks planned from the snapshots just taken |
| Service.DistributedCacheCluster.RunTask | distributed_cache/cluster/service.py:354-382 | with room for a put, the stored entries change exactly by the task step of the rebalance theorems; the invariant of all stores is kept; a missing store makes the task fail without effect |
| OperationEffects.TaskMeans | distributed_cache/cluster/service.py:354-382 | a task changes its own node only: a delete removes the key, a put stores it, pushing out the oldest key if it is new to a full store |
| Operations.PutIsReplicationStep | distributed_cache/cluster/service.py:58-77 | with everyone alive and room in the primary's store, the service's put is the step the replica-lag theorems are about |
| Operations.ReplicateIsReplicationStep | distributed_cache/cluster/service.py:154-170 | so is running the oldest queued write |
| Operations.SnapshotIsCollect | distributed_cache/cluster/runtime.py:41-48 | a node snapshot that ends by a time, over any readings, is the rebalance's collect step |
| Operations.RunTaskIsApplyTask | distributed_cache/cluster/service.py:354-382 | below capacity that is the step the rebalance theorems are about |

## Left out

- HTTP transport, the API layer, node processes and everything under `scripts/` and `artifacts/`: input/output, plotting and demos.
- Threads, event loops, the semaphore and printed errors: each locked store operation and each background task is one atomic step, and any pending task may run next.
- `get_successor`, `get_nodes`, `groups`, `virtual_nodes`, `size`, `alive_nodes`, `health_report`, `heartbeat` and `shutdown`: accessors that would add only easy members.
- `items()` has the loop of `snapshot()` and is not written out a second time; the transport's snapshot runs that loop twice, as the node runtime does.
- The order of equal expiries in the expiry heap, and heapq itself: any item of least expiry may come first.
- The order in which tasks are created: keys and owner sets are visited in any order, which covers the sorted one.
- Stored None values, which read back as missing: values are the non-None ones.
- Floating-point rounding of times: times are reals.
- Manager.ClusterManager.GetAllNodes: does not promise the dictionary's insertion order; the theorems hold for every order.
- Planner.Rebalancing.PlanAll: does not promise the order in which tasks are created, since they run in any order.
- Transport.InProcessTransport.RegisterNode: excludes one store object registered under two different node ids, where a write to one node would show at the other.
- Guarantees.AddReadsNeverMiss: with AddReadsDespiteLateWrites, assumes that every member looks alive, that the old primary's copy does not expire during the run, that no other membership change overlaps (for that see ReadsFindTheHolder), and that no client writes the watched key meanwhile, since a migration may overwrite such a write with the snapshot's value.
- Guarantees.RemoveReadsNeverMiss: likewise, and assumes that no copy of the watched key changes but by the rebalance.
- SilentPrimary.SilentPrimaryReads: assumes that no copy of the watched key changes but by the rebalance, and that the old primary stays silent; when it comes back its stale copy is read again, as in the program.
- Overlap.ReadsFindTheHolder: is about a key held without ttl whose copies and queued writes all carry one value, while no client writes it and its holder neither leaves nor evicts it.
- Placement.JoinRestoresPlacement: assumes that the rebalance finishes before the next change and that nothing expires or is evicted during it; likewise LeaveRestoresPlacement.
- Placement.PlacementOverHistory: takes a client write together with its drained replica write as one step, between rebalances.
- Replication.ReplicaLagsByTheQueue: has every member alive, room in every store and background writes in submission order, and no deletes, which do not win against a queued write in the program either.
- Service.DistributedCacheCluster.Rebalance: runs to the end without other activity in between; interleaved runs are made of SnapshotAt, PlanAll and RunTask, whose contracts hold in any state, and are what the step system of module Rebalance covers.
- Linearizability, and reading one's writes after a failed primary returns: the program does not provide them.
