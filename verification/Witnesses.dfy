// Concrete histories in which a guarantee fails: each shows that the condition
// it violates is needed.
module Trios {
  import opened Types
  import opened Ring

  // Three nodes whose single vnodes follow one another clockwise from a key.
  datatype Trio = Trio(hash: HashFn, a: Node, b: Node, c: Node)

  ghost predicate InARow(t: Trio, k: Key) {
    && t.a.id != t.b.id && t.a.id != t.c.id && t.b.id != t.c.id && t.hash(k) == 0
    && VnodePositions(t.hash, 1, t.a.id) == {1}
    && VnodePositions(t.hash, 1, t.b.id) == {2}
    && VnodePositions(t.hash, 1, t.c.id) == {3}
  }

  // There are such nodes and hashes, for any key but their labels.
  function ABC(): Trio {
    Trio(s => if s == "a:0" then 1 else if s == "b:0" then 2 else if s == "c:0" then 3 else 0,
         Node("a", "", 0), Node("b", "", 0), Node("c", "", 0))
  }

  lemma ABCInARow(k: Key)
    requires k !in {"a:0", "b:0", "c:0"}
    ensures InARow(ABC(), k)
  {
    assert VnodeLabel("a", 0) == "a:0" && VnodeLabel("b", 0) == "b:0" && VnodeLabel("c", 0) == "c:0";
    assert forall id :: VnodePositions(ABC().hash, 1, id) == {ABC().hash(VnodeLabel(id, 0))};
  }

  lemma RingsInARow(t: Trio, k: Key)
    requires InARow(t, k)
    ensures WithNode(map[], t.hash, 1, t.a) == map[1 := t.a]
    ensures WithNode(map[1 := t.a], t.hash, 1, t.b) == map[1 := t.a, 2 := t.b]
    ensures WithNode(map[1 := t.a, 2 := t.b], t.hash, 1, t.c) == map[1 := t.a, 2 := t.b, 3 := t.c]
    ensures Without(map[1 := t.a, 2 := t.b, 3 := t.c], t.a.id) == map[2 := t.b, 3 := t.c]
  {
  }

  lemma OwnersInARow(t: Trio, k: Key)
    requires InARow(t, k)
    ensures OwnerIds(map[1 := t.a, 2 := t.b], t.hash(k)) == {t.a.id, t.b.id}
    ensures OwnerIds(map[1 := t.a, 2 := t.b, 3 := t.c], t.hash(k)) == {t.a.id, t.b.id}
    ensures OwnerIds(map[2 := t.b, 3 := t.c], t.hash(k)) == {t.b.id, t.c.id}
  {
    FirstTwo(map[1 := t.a, 2 := t.b], 1, 2);
    FirstTwo(map[1 := t.a, 2 := t.b, 3 := t.c], 1, 2);
    FirstTwo(map[2 := t.b, 3 := t.c], 2, 3);
  }

  // The owners of position 0 are the first two nodes.
  lemma FirstTwo(v: Vnodes, p: Position, q: Position)
    requires 0 < p < q && p in v && q in v && v[p].id != v[q].id
    requires forall x | x in v :: x == p || (q <= x && v[x].id != v[p].id)
    ensures OwnersOf(v, 0) == Owners(Some(v[p]), Some(v[q])) && OwnerIds(v, 0) == {v[p].id, v[q].id}
  {
    LookupIs(v, 0, p);
    LookupIs(Without(v, v[p].id), 0, q);
  }
}

// A copy brought by a joining node that no rebalance puts right.
module StrayCopies {
  import opened Types
  import opened Ring
  import opened Migration
  import opened Rebalance
  import opened Guarantees
  import opened Placement
  import opened Trios

  // ---------------------------------------------------------------------
  // Worlds that store one key, without ttl.

  ghost predicate Stores1(w: World, k: Key, c: Copies) {
    && OnlyMembers(w.ring, w.members) && w.members <= w.stores.Keys
    && (forall n | n in c :: c[n].expiresAt.None?)
    && forall x :: MemberCopies(w.members, w.stores, x) == if x == k then c else map[]
  }

  // A rebalance of such a world can be completed, whatever the job.
  lemma CanComplete(job: Job, s: State, k: Key, c: Copies) returns (events: seq<Event>)
    requires Switched(job, s) && forall n | n in c :: c[n].expiresAt.None?
    requires forall x :: MemberCopies(job.members, s.stores, x) == if x == k then c else map[]
    ensures Completed(job, s, events)
  {
    events := RebalanceCanFinish(job, ALL_KEYS, s);
  }

  // And leaves a copy alone if its node stays an owner or no owner changes.
  lemma KeepsCopies(job: Job, s: State, events: seq<Event>, k: Key, n: NodeId)
    requires Completed(job, s, events) && n in job.members
    requires var c := MemberCopies(job.members, s.stores, k);
             || c == map[] || OwnerIds(job.previous, job.hash(k)) == OwnerIds(job.current, job.hash(k))
             || (n in c && n in OwnerIds(job.current, job.hash(k)))
    ensures CopyAt(CopiesOf(Final(job, s, events), k), n) == CopyAt(MemberCopies(job.members, s.stores, k), n)
  {
    var c0, s1 := MemberCopies(job.members, s.stores, k), Exec(job, ALL_KEYS, s, events);
    SwitchedHasInv(job, k, s);
    RunKeepsInv(job, ALL_KEYS, k, c0, s, events);
    DoneHasOutcome(job, k, c0, s1, n);
    SourceIsACopy(s1.phase.plan, k, c0);
  }

  // Joining with or without the key while its owners stay.
  lemma JoinKeepingCopies(hash: HashFn, w: World, n: Node, filled: Contents, k: Key, c: Copies)
    returns (h: Happening, w': World)
    requires Stores1(w, k, c) && n.id !in w.members
    requires filled.Keys <= {k} && (k in filled ==> filled[k].expiresAt.None?)
    requires WithFilled(c, n.id, filled, k) == map[]
             || OwnerIds(w.ring, hash(k)) == OwnerIds(WithNode(w.ring, hash, 1, n), hash(k))
    ensures Follows(hash, 1, w, h, w') && h.Joined? && h.node == n && h.filled == filled
    ensures w'.ring == WithNode(w.ring, hash, 1, n) && w'.members == w.members + {n.id}
    ensures Stores1(w', k, WithFilled(c, n.id, filled, k))
  {
    var alive: Key -> set<NodeId> := x => w.members + {n.id};
    var job, s := JoinJob(w, hash, 1, n, alive), JoinStart(w, n, filled, 0.0);
    var c' := WithFilled(c, n.id, filled, k);
    forall x ensures MemberCopies(job.members, s.stores, x) == if x == k then c' else map[] {
      JoinStartCopies(w, n, filled, 0.0, x);
    }
    var events := CanComplete(job, s, k, c');
    h, w' := Joined(n, filled, alive, 0.0, events), World(job.current, job.members, Final(job, s, events));
    JoinedMembersOnly(w, hash, 1, n);
    ExecKeepsNodes(job, ALL_KEYS, "", s, events);
    forall x ensures MemberCopies(w'.members, w'.stores, x) == if x == k then c' else map[] {
      forall m | m in job.members
        ensures CopyAt(MemberCopies(w'.members, w'.stores, x), m) == CopyAt(MemberCopies(job.members, s.stores, x), m)
      {
        KeepsCopies(job, s, events, x, m);
      }
      SameCopiesAt(job.members, MemberCopies(w'.members, w'.stores, x), MemberCopies(job.members, s.stores, x));
    }
  }

  // Leaving while the new owners have copies.
  lemma LeaveKeepingCopies(hash: HashFn, w: World, id: NodeId, k: Key, c: Copies)
    returns (h: Happening, w': World)
    requires Stores1(w, k, c) && id in w.members
    requires OwnerIds(Without(w.ring, id), hash(k)) <= c.Keys - {id}
    ensures Follows(hash, 1, w, h, w') && h.Left? && h.id == id
    ensures w'.ring == Without(w.ring, id) && w'.members == w.members - {id}
    ensures forall n | n in OwnerIds(w'.ring, hash(k)) ::
              n in w'.stores && k in w'.stores[n] && w'.stores[n][k] == c[n]
  {
    var alive: Key -> set<NodeId> := x => w.members;
    var job, s := LeaveJob(w, hash, id, alive), State(w.stores, 0.0, Collecting(map[]));
    forall x ensures MemberCopies(job.members, s.stores, x) == if x == k then c - {id} else map[] {
      assert MemberCopies(w.members, w.stores, x) == if x == k then c else map[];
      assert MemberCopies(job.members, s.stores, x) == MemberCopies(w.members, w.stores, x) - {id};
    }
    var events := CanComplete(job, s, k, c - {id});
    h, w' := Left(id, alive, 0.0, events), World(job.current, job.members, Final(job, s, events));
    forall n | n in OwnerIds(w'.ring, hash(k))
      ensures n in w'.stores && k in w'.stores[n] && w'.stores[n][k] == c[n]
    {
      assert n in MemberCopies(job.members, s.stores, k);
      KeepsCopies(job, s, events, k, n);
    }
  }

  // ---------------------------------------------------------------------
  // A stray copy.

  // A history from the empty cluster.
  ghost predicate Unfolds(hash: HashFn, worlds: seq<World>, history: seq<Happening>) {
    && |worlds| == |history| + 1 && worlds[0] == World(map[], {}, map[])
    && forall i | 0 <= i < |history| :: Follows(hash, 1, worlds[i], history[i], worlds[i + 1])
  }

  lemma OneMoreHappening(hash: HashFn, worlds: seq<World>, history: seq<Happening>, h: Happening, w: World)
    requires Unfolds(hash, worlds, history) && Follows(hash, 1, worlds[|history|], h, w)
    ensures Unfolds(hash, worlds + [w], history + [h])
  {
    var worlds', history' := worlds + [w], history + [h];
    forall i | 0 <= i < |history'| ensures Follows(hash, 1, worlds'[i], history'[i], worlds'[i + 1]) {
      assert i < |history| ==> worlds'[i] == worlds[i] && history'[i] == history[i] && worlds'[i + 1] == worlds[i + 1];
    }
  }

  // Which of the nodes are members, and what they hold of k.
  ghost predicate TwoNodes(t: Trio, k: Key, w: World, c: Copies) {
    w.ring == map[1 := t.a, 2 := t.b] && w.members == {t.a.id, t.b.id} && Stores1(w, k, c)
  }

  ghost predicate ThreeNodes(t: Trio, k: Key, w: World, c: Copies) {
    && w.ring == map[1 := t.a, 2 := t.b, 3 := t.c] && w.members == {t.a.id, t.b.id, t.c.id}
    && Stores1(w, k, c)
  }

  function OnTwo(t: Trio, e: Entry): Copies {
    map[t.a.id := e, t.b.id := e]
  }

  function WithStray(t: Trio, e: Entry, stray: Entry): Copies {
    OnTwo(t, e)[t.c.id := stray]
  }

  // The nodes a and b join, with empty stores.
  lemma TwoNodesJoin(t: Trio, k: Key) returns (worlds: seq<World>, history: seq<Happening>)
    requires InARow(t, k)
    ensures Unfolds(t.hash, worlds, history) && |history| == 2 && TwoNodes(t, k, worlds[2], map[])
  {
    RingsInARow(t, k);
    worlds, history := [World(map[], {}, map[])], [];
    var h0, w1 := JoinKeepingCopies(t.hash, worlds[0], t.a, map[], k, map[]);
    OneMoreHappening(t.hash, worlds, history, h0, w1);
    worlds, history := worlds + [w1], history + [h0];
    var h1, w2 := JoinKeepingCopies(t.hash, w1, t.b, map[], k, map[]);
    OneMoreHappening(t.hash, worlds, history, h1, w2);
    worlds, history := worlds + [w2], history + [h1];
  }

  // A client writes k.
  lemma BothHoldThePut(t: Trio, w: World, k: Key, e: Entry) returns (w': World)
    requires InARow(t, k) && TwoNodes(t, k, w, map[]) && e.expiresAt.None?
    ensures Follows(t.hash, 1, w, ClientPut(k, e), w') && TwoNodes(t, k, w', OnTwo(t, e))
  {
    OwnersOfTwo(t, w, k, e);
    w' := w.(stores := PutAt(w.stores, w.members, k, e));
    PutFollows(t.hash, w, k, e);
    PutOnTwo(w, k, e, OnTwo(t, e));
  }

  lemma OwnersOfTwo(t: Trio, w: World, k: Key, e: Entry)
    requires InARow(t, k) && w.ring == map[1 := t.a, 2 := t.b] && w.members == {t.a.id, t.b.id}
    ensures OwnerIds(w.ring, t.hash(k)) == w.members
    ensures OnTwo(t, e).Keys == w.members && forall n | n in OnTwo(t, e) :: OnTwo(t, e)[n] == e
  {
    OwnersInARow(t, k);
  }

  lemma PutFollows(hash: HashFn, w: World, k: Key, e: Entry)
    requires OwnerIds(w.ring, hash(k)) == w.members
    ensures Follows(hash, 1, w, ClientPut(k, e), w.(stores := PutAt(w.stores, w.members, k, e)))
  {
  }

  lemma PutOnTwo(w: World, k: Key, e: Entry, c: Copies)
    requires Stores1(w, k, map[]) && c.Keys == w.members && e.expiresAt.None? && forall n | n in c :: c[n] == e
    ensures Stores1(w.(stores := PutAt(w.stores, w.members, k, e)), k, c)
  {
    forall x ensures MemberCopies(w.members, PutAt(w.stores, w.members, k, e), x) == if x == k then c else map[] {
      CopiesAfterPut(w.members, w.stores, k, e, x);
    }
  }

  function PutAt(stores: Stores, nodes: set<NodeId>, k: Key, e: Entry): Stores {
    map n | n in stores :: if n in nodes then stores[n][k := e] else stores[n]
  }

  lemma CopiesAfterPut(nodes: set<NodeId>, stores: Stores, k: Key, e: Entry, x: Key)
    requires nodes <= stores.Keys
    ensures MemberCopies(nodes, PutAt(stores, nodes, k, e), x)
         == if x == k then map n | n in nodes :: e else MemberCopies(nodes, stores, x)
  {
  }

  // The node c joins with a copy of its own, which no rebalance moves.
  ghost predicate StrayJoined(t: Trio, k: Key, w: World, h: Happening) {
    h.Joined? && h.node == t.c && !JoinFits(w, t.hash, 1, h.node, h.filled, k)
  }

  lemma StrayJoins(t: Trio, w: World, k: Key, e: Entry, stray: Entry) returns (h: Happening, w': World)
    requires InARow(t, k) && TwoNodes(t, k, w, OnTwo(t, e)) && stray.expiresAt.None?
    ensures Follows(t.hash, 1, w, h, w') && StrayJoined(t, k, w, h)
    ensures ThreeNodes(t, k, w', WithStray(t, e, stray))
  {
    OwnersStay(t, w, k);
    h, w' := JoinKeepingCopies(t.hash, w, t.c, map[k := stray], k, OnTwo(t, e));
  }

  lemma OwnersStay(t: Trio, w: World, k: Key)
    requires InARow(t, k) && w.ring == map[1 := t.a, 2 := t.b]
    ensures var after := WithNode(w.ring, t.hash, 1, t.c);
            && after == map[1 := t.a, 2 := t.b, 3 := t.c]
            && OwnerIds(w.ring, t.hash(k)) == OwnerIds(after, t.hash(k))
  {
    RingsInARow(t, k);
    OwnersInARow(t, k);
  }

  lemma StrayIsMisplaced(t: Trio, w: World, k: Key, e: Entry, stray: Entry)
    requires InARow(t, k) && ThreeNodes(t, k, w, WithStray(t, e, stray))
    ensures !Sound(t.hash, w)
  {
    LastIsNoOwner(t, w.ring, k);
    assert MemberCopies(w.members, w.stores, k) == WithStray(t, e, stray);
    Misplaced(t.hash, w, k, t.c.id);
  }

  lemma LastIsNoOwner(t: Trio, v: Vnodes, k: Key)
    requires InARow(t, k) && v == map[1 := t.a, 2 := t.b, 3 := t.c]
    ensures t.c.id !in OwnerIds(v, t.hash(k))
  {
    OwnersInARow(t, k);
  }

  lemma Misplaced(hash: HashFn, w: World, k: Key, n: NodeId)
    requires n in MemberCopies(w.members, w.stores, k) && n !in OwnerIds(w.ring, hash(k))
    ensures !Sound(hash, w)
  {
    assert !PlacedAt(OwnerIds(w.ring, hash(k)), MemberCopies(w.members, w.stores, k));
  }

  // When a leaves, b and c become the owners, and both keep what they hold.
  ghost predicate StrayKept(t: Trio, k: Key, w: World, h: Happening, w': World, v: Value, x: Value) {
    && h.Left? && h.id == t.a.id
    && RemoveSetting(LeaveJob(w, t.hash, h.id, h.alive), h.id, k, State(w.stores, h.now, Collecting(map[])), v)
    && OwnerIds(w'.ring, t.hash(k)) == {t.b.id, t.c.id}
    && CopyAt(CopiesOf(w'.stores, k), t.b.id) == Some(Entry(v, None))
    && CopyAt(CopiesOf(w'.stores, k), t.c.id) == Some(Entry(x, None))
  }

  lemma StrayStays(t: Trio, w: World, k: Key, v: Value, x: Value) returns (h: Happening, w': World)
    requires InARow(t, k) && ThreeNodes(t, k, w, WithStray(t, Entry(v, None), Entry(x, None)))
    ensures Follows(t.hash, 1, w, h, w') && StrayKept(t, k, w, h, w', v, x)
  {
    var c := WithStray(t, Entry(v, None), Entry(x, None));
    NewOwners(t, w, k);
    h, w' := LeaveKeepingCopies(t.hash, w, t.a.id, k, c);
    StrayRemoveSetting(t, w, k, Entry(v, None), Entry(x, None), h.alive, h.now);
    assert CopiesOf(w'.stores, k)[t.b.id] == c[t.b.id] && CopiesOf(w'.stores, k)[t.c.id] == c[t.c.id];
  }

  lemma NewOwners(t: Trio, w: World, k: Key)
    requires InARow(t, k) && w.ring == map[1 := t.a, 2 := t.b, 3 := t.c]
    ensures Without(w.ring, t.a.id) == map[2 := t.b, 3 := t.c]
    ensures OwnerIds(Without(w.ring, t.a.id), t.hash(k)) == {t.b.id, t.c.id}
  {
    RingsInARow(t, k);
    OwnersInARow(t, k);
  }

  lemma StrayRemoveSetting(t: Trio, w: World, k: Key, e: Entry, stray: Entry, alive: Key -> set<NodeId>, now: real)
    requires InARow(t, k) && ThreeNodes(t, k, w, WithStray(t, e, stray))
    ensures RemoveSetting(LeaveJob(w, t.hash, t.a.id, alive), t.a.id, k,
                          State(w.stores, now, Collecting(map[])), e.value)
  {
    assert 2 in Without(w.ring, t.a.id);
    OldOwnersHoldIt(t, w, k, e, stray);
  }

  lemma OldOwnersHoldIt(t: Trio, w: World, k: Key, e: Entry, stray: Entry)
    requires InARow(t, k) && ThreeNodes(t, k, w, WithStray(t, e, stray))
    ensures forall o | o in OwnerIds(w.ring, t.hash(k)) && o != t.a.id ::
              o in w.stores && k in w.stores[o] && w.stores[o][k].value == e.value
  {
    OwnersInARow(t, k);
    forall o | o in OwnerIds(w.ring, t.hash(k)) && o != t.a.id
      ensures o in w.stores && k in w.stores[o] && w.stores[o][k].value == e.value
    {
      assert MemberCopies(w.members, w.stores, k)[o] == e;
    }
  }

  // From an empty cluster: a and b join, k is written with value v, c joins with
  // a store that holds k with value x, and a leaves, every rebalance completed.
  // The copy c brought does not fit.  It survives both rebalances, though c
  // becomes an owner of k and the other owner holds v.
  lemma StrayCopySurvivesRemove(k: Key, v: Value, x: Value)
    returns (t: Trio, worlds: seq<World>, history: seq<Happening>)
    requires v != x && k !in {"a:0", "b:0", "c:0"}
    ensures Unfolds(t.hash, worlds, history) && |history| == 5
    ensures StrayJoined(t, k, worlds[3], history[3]) && !Sound(t.hash, worlds[4])
    ensures StrayKept(t, k, worlds[4], history[4], worlds[5], v, x)
  {
    t := ABC();
    ABCInARow(k);
    worlds, history := StrayHistory(t, k, v, x);
  }

  lemma StrayHistory(t: Trio, k: Key, v: Value, x: Value) returns (worlds: seq<World>, history: seq<Happening>)
    requires InARow(t, k)
    ensures Unfolds(t.hash, worlds, history) && |history| == 5
    ensures StrayJoined(t, k, worlds[3], history[3]) && !Sound(t.hash, worlds[4])
    ensures StrayKept(t, k, worlds[4], history[4], worlds[5], v, x)
  {
    worlds, history := UpToTheStray(t, k, Entry(v, None), Entry(x, None));
    StrayIsMisplaced(t, worlds[4], k, Entry(v, None), Entry(x, None));
    var h, w := StrayStays(t, worlds[4], k, v, x);
    OneMoreHappening(t.hash, worlds, history, h, w);
    worlds, history := worlds + [w], history + [h];
  }

  lemma UpToTheStray(t: Trio, k: Key, e: Entry, stray: Entry)
    returns (worlds: seq<World>, history: seq<Happening>)
    requires InARow(t, k) && e.expiresAt.None? && stray.expiresAt.None?
    ensures Unfolds(t.hash, worlds, history) && |history| == 4
    ensures StrayJoined(t, k, worlds[3], history[3]) && ThreeNodes(t, k, worlds[4], WithStray(t, e, stray))
  {
    worlds, history := TwoNodesJoin(t, k);
    var w3 := BothHoldThePut(t, worlds[2], k, e);
    OneMoreHappening(t.hash, worlds, history, ClientPut(k, e), w3);
    worlds, history := worlds + [w3], history + [ClientPut(k, e)];
    var h3, w4 := StrayJoins(t, w3, k, e, stray);
    OneMoreHappening(t.hash, worlds, history, h3, w4);
    worlds, history := worlds + [w4], history + [h3];
  }
}

// A key that two joins in quick succession put out of reach.
module HiddenKeys {
  import opened Types
  import opened Ring
  import opened Routing
  import opened StoreSpec
  import opened Migration
  import opened Guarantees
  import opened Provenance
  import opened Trios

  // A cluster of some of the nodes in which c alone holds anything, namely k.
  ghost predicate OnlyCHolds(t: Trio, k: Key, v: Value, ring: Vnodes, c: Cluster) {
    && c.ring == ring && t.c.id in c.members && t.c.id in c.stores
    && c.stores[t.c.id] == map[k := Entry(v, None)]
    && forall n | n in c.stores && n != t.c.id :: c.stores[n] == map[]
  }

  // The node n joins with an empty store.
  lemma OneJoins(t: Trio, k: Key, v: Value, c: Cluster, n: Node, ring: Vnodes)
    requires OnlyCHolds(t, k, v, c.ring, c) && n.id !in c.members && ring == WithNode(c.ring, t.hash, 1, n)
    ensures OnlyCHolds(t, k, v, ring, Apply(c, t.hash, 1, Join(n, map[])))
  {
  }

  lemma CHoldsThePut(t: Trio, k: Key, v: Value) returns (c0: Cluster, c2: Cluster, events: seq<Event>)
    requires InARow(t, k)
    ensures Initial(c0) && Runs(c0, t.hash, 1, events) && c2 == Exec(c0, t.hash, 1, events)
    ensures OnlyCHolds(t, k, v, map[3 := t.c], c2) && c2.members == {t.c.id}
  {
    c0 := Cluster(map[], {}, map[], multiset{}, [], {});
    var join := Join(t.c, map[]);
    var c1 := Apply(c0, t.hash, 1, join);
    assert c1.ring == map[3 := t.c];
    var up := {t.c.id};
    var put := Event.Put(k, v, None, Looks(up, up, up), 0.0);
    LookupIs(c1.ring, 0, 3);
    assert Without(c1.ring, t.c.id) == map[];
    c2 := Apply(c1, t.hash, 1, put);
    RunsCons(c1, t.hash, 1, put, []);
    RunsCons(c0, t.hash, 1, join, [put] + []);
    events := [join] + ([put] + []);
  }

  // After c alone holds k, b and a join, and no rebalance has started.
  lemma TwoJoins(t: Trio, k: Key, v: Value, c2: Cluster) returns (c4: Cluster, events: seq<Event>)
    requires InARow(t, k) && OnlyCHolds(t, k, v, map[3 := t.c], c2) && c2.members == {t.c.id}
    ensures Runs(c2, t.hash, 1, events) && c4 == Exec(c2, t.hash, 1, events)
    ensures OnlyCHolds(t, k, v, map[1 := t.a, 2 := t.b, 3 := t.c], c4)
  {
    OneJoins(t, k, v, c2, t.b, map[2 := t.b, 3 := t.c]);
    var c3 := Apply(c2, t.hash, 1, Join(t.b, map[]));
    OneJoins(t, k, v, c3, t.a, map[1 := t.a, 2 := t.b, 3 := t.c]);
    c4 := Apply(c3, t.hash, 1, Join(t.a, map[]));
    RunsCons(c3, t.hash, 1, Join(t.a, map[]), []);
    RunsCons(c2, t.hash, 1, Join(t.b, map[]), [Join(t.a, map[])] + []);
    events := [Join(t.b, map[])] + ([Join(t.a, map[])] + []);
  }

  lemma EveryGetMisses(t: Trio, k: Key, v: Value, c: Cluster, up: set<NodeId>, t1: real, alive: bool, t2: real)
    requires InARow(t, k) && OnlyCHolds(t, k, v, map[1 := t.a, 2 := t.b, 3 := t.c], c)
    ensures GetVia(Route(c.ring, t.hash(k), up), k, c.stores, t1, alive, c.stores, t2) == None
  {
    FirstTwo(c.ring, 1, 2);
  }

  ghost predicate Hidden(t: Trio, k: Key, v: Value, c: Cluster) {
    && t.c.id in c.members && t.c.id !in OwnerIds(c.ring, t.hash(k))
    && CopyAt(CopiesOf(c.stores, k), t.c.id) == Some(Entry(v, None))
    && forall up, t1, alive, t2 ::
         GetVia(Route(c.ring, t.hash(k), up), k, c.stores, t1, alive, c.stores, t2) == None
  }

  lemma KeyIsHidden(t: Trio, k: Key, v: Value, c: Cluster)
    requires InARow(t, k) && OnlyCHolds(t, k, v, map[1 := t.a, 2 := t.b, 3 := t.c], c)
    ensures Hidden(t, k, v, c)
  {
    OwnersInARow(t, k);
    forall up, t1, alive, t2
      ensures GetVia(Route(c.ring, t.hash(k), up), k, c.stores, t1, alive, c.stores, t2) == None
    {
      EveryGetMisses(t, k, v, c, up, t1, alive, t2);
    }
  }

  // From an empty cluster: c joins, k is written, b and a join.  Both owners of
  // k are newcomers without a copy, and every get misses although c holds k.
  lemma TwoJoinsHideAKey(k: Key, v: Value) returns (t: Trio, start: Cluster, events: seq<Event>)
    requires k !in {"a:0", "b:0", "c:0"}
    ensures Initial(start) && Runs(start, t.hash, 1, events) && Hidden(t, k, v, Exec(start, t.hash, 1, events))
  {
    t := ABC();
    ABCInARow(k);
    start, events := HiddenKeyHistory(t, k, v);
  }

  lemma HiddenKeyHistory(t: Trio, k: Key, v: Value) returns (start: Cluster, events: seq<Event>)
    requires InARow(t, k)
    ensures Initial(start) && Runs(start, t.hash, 1, events) && Hidden(t, k, v, Exec(start, t.hash, 1, events))
  {
    var c0, c2, first := CHoldsThePut(t, k, v);
    var c4, second := TwoJoins(t, k, v, c2);
    start, events := c0, first + second;
    RunsConcat(c0, t.hash, 1, first, second);
    KeyIsHidden(t, k, v, c4);
  }
}

// A primary whose timeout falls between the two looks of a get.
module Timeouts {
  import opened Types
  import opened Ring
  import opened Routing
  import opened Migration
  import opened Guarantees
  import opened Replication
  import opened Trios

  // The primary a was last heard from at 0.0, its replica b at 1.0; the get
  // looks at the primary at 1.0 and again at 2.0.
  function BeatsOf(t: Trio): Heartbeats {
    map[t.a.id := 0.0, t.b.id := 1.0]
  }

  const LOOKS: nat -> real := i => if i == 0 then 1.0 else 2.0

  lemma TimesOutBetweenTheLooks(t: Trio, k: Key)
    requires InARow(t, k)
    ensures Nondecreasing(LOOKS) && AliveExcept({t.a.id, t.b.id}, t.a.id, BeatsOf(t), 1.0, LOOKS(1))
    ensures PrimaryTimesOut(map[1 := t.a, 2 := t.b], t.hash(k), BeatsOf(t), 1.0, LOOKS)
  {
    FirstTwo(map[1 := t.a, 2 := t.b], 1, 2);
  }

  // A cluster that stores nothing, then a put of k with its replica write drained.
  lemma EmptyStart(v: Vnodes, hash: HashFn, s: ReplState)
    requires OnlyMembers(v, s.stores.Keys) && s.queue == [] && forall n | n in s.stores :: s.stores[n] == map[]
    ensures ReplInv(v, hash, s)
  {
    assert forall n, x :: CopyOf(s.stores, n, x) == None;
    AgreementIsAStart(v, hash, s);
  }

  lemma PutAndDrain(v: Vnodes, hash: HashFn, k: Key, x: Value, s: ReplState)
    requires ReplInv(v, hash, s) && s.queue == []
    ensures var events := [ClientPut(k, x, None), Drain];
            && LastPut(v, hash, s, events, k) == Some(Written(x, None, s.clock))
            && Reach(v, hash, s, events).queue == [] && Reach(v, hash, s, events).clock == s.clock
  {
    var put := [ClientPut(k, x, None)];
    assert [ClientPut(k, x, None), Drain][..1] == put && put[..0] == [];
    assert Reach(v, hash, s, put) == Step(v, hash, s, ClientPut(k, x, None));
    assert |Reach(v, hash, s, put).queue| <= 1;
  }

  // Two nodes hold the last put of k, one of them is alive all along, and the
  // get still fails.
  lemma TimeoutLosesAGet(k: Key, x: Value) returns (t: Trio, s: ReplState, events: seq<ReplEvent>)
    requires k !in {"a:0", "b:0", "c:0"}
    ensures var v := map[1 := t.a, 2 := t.b];
            && v == WithNode(WithNode(map[], t.hash, 1, t.a), t.hash, 1, t.b)
            && ReplInv(v, t.hash, s) && LastPut(v, t.hash, s, events, k) == Some(Written(x, None, 0.0))
            && Reach(v, t.hash, s, events).queue == [] && Reach(v, t.hash, s, events).clock <= LOOKS(0)
            && Nondecreasing(LOOKS) && AliveExcept(s.stores.Keys, t.a.id, BeatsOf(t), 1.0, LOOKS(1))
            && GetFails(v, t.hash, k, Reach(v, t.hash, s, events).stores,
                        AliveAt(BeatsOf(t), 1.0, LOOKS(0)), AliveAt(BeatsOf(t), 1.0, LOOKS(1)))
  {
    t := ABC();
    ABCInARow(k);
    RingsInARow(t, k);
    s, events := ReplState(map[t.a.id := map[], t.b.id := map[]], [], 0.0), [ClientPut(k, x, None), Drain];
    assert s.stores.Keys == {t.a.id, t.b.id};
    EmptyStart(map[1 := t.a, 2 := t.b], t.hash, s);
    PutAndDrain(map[1 := t.a, 2 := t.b], t.hash, k, x, s);
    TimesOutBetweenTheLooks(t, k);
    NobodyServes(map[1 := t.a, 2 := t.b], t.hash, k, Reach(map[1 := t.a, 2 := t.b], t.hash, s, events).stores,
                 BeatsOf(t), 1.0, LOOKS);
  }

  // A get of k with these looks finds nothing.
  ghost predicate GetFails(v: Vnodes, hash: HashFn, k: Key, stores: Stores, first: set<NodeId>, second: set<NodeId>) {
    forall t1, alive, t2 :: GetVia(RouteBetween(v, hash(k), first, second), k, stores, t1, alive, stores, t2) == None
  }

  lemma NobodyServes(v: Vnodes, hash: HashFn, k: Key, stores: Stores, beats: Heartbeats, timeout: real,
                     clock: nat -> real)
    requires PrimaryTimesOut(v, hash(k), beats, timeout, clock)
    ensures GetFails(v, hash, k, stores, AliveAt(beats, timeout, clock(0)), AliveAt(beats, timeout, clock(1)))
  {
  }
}
