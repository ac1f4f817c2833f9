// The hash ring as a value: a map from vnode positions to nodes.
module Ring {
  import opened Types

  // SHA-256 digests read as big-endian integers lie below 2^256.
  const RING_SIZE: nat := 0x1_0000000000000000_0000000000000000_0000000000000000_0000000000000000

  type Position = p: nat | p < RING_SIZE
  type HashFn = string -> Position
  type Vnodes = map<Position, Node>

  // ---------------------------------------------------------------------
  // Lookup: the node whose vnode comes first clockwise, strictly after the key.

  // How far clockwise p lies behind the successor of from; a vnode exactly at
  // from is a whole turn away.
  function Clockwise(from: Position, p: Position): (d: nat)
    ensures d == (p - from - 1) % RING_SIZE
  {
    if p > from then p - from - 1 else p - from - 1 + RING_SIZE
  }

  ghost predicate Nearest(v: Vnodes, from: Position, p: Position) {
    p in v && forall q: Position | q in v :: Clockwise(from, p) <= Clockwise(from, q)
  }

  lemma {:induction false} NearestExists(v: Vnodes, from: Position)
    requires v != map[]
    ensures exists p :: Nearest(v, from, p)
    decreases |v|
  {
    var p :| p in v;
    var rest := v - {p};
    if rest == map[] {
      assert forall q | q in v && q != p :: q in rest;
      assert Nearest(v, from, p);
    } else {
      assert rest.Keys == v.Keys - {p};
      NearestExists(rest, from);
      var q :| Nearest(rest, from, q);
      assert forall x | x in v :: x == p || x in rest;
      assert Nearest(v, from, if Clockwise(from, p) <= Clockwise(from, q) then p else q);
    }
  }

  ghost function NearestVnode(v: Vnodes, from: Position): (p: Position)
    requires v != map[]
    ensures Nearest(v, from, p)
  {
    NearestExists(v, from);
    var p :| Nearest(v, from, p);
    p
  }

  // The nearest vnode is the first one strictly after the key, or the first of
  // all if there is none after it.
  lemma NearestIsFirstAfter(v: Vnodes, from: Position, p: Position)
    ensures Nearest(v, from, p) <==>
              && p in v
              && if exists q: Position :: q in v && from < q
                 then from < p && forall q: Position | q in v && from < q :: p <= q
                 else forall q: Position | q in v :: p <= q
  {
  }

  // The independent definition of routing.
  ghost function Lookup(v: Vnodes, from: Position): (r: Option<Node>)
    ensures r.None? <==> v == map[]
  {
    if v == map[] then None else Some(v[NearestVnode(v, from)])
  }

  lemma LookupIs(v: Vnodes, from: Position, p: Position)
    requires Nearest(v, from, p)
    ensures Lookup(v, from) == Some(v[p])
  {
    var q := NearestVnode(v, from);
    assert Clockwise(from, p) <= Clockwise(from, q) && Clockwise(from, q) <= Clockwise(from, p);
  }

  // A key exactly at a vnode's position goes to the next vnode instead, unless
  // there is no other.
  lemma KeyOnAVnodeGoesToTheNext(v: Vnodes, from: Position)
    requires from in v && |v| > 1
    ensures Lookup(v, from) == Lookup(v - {from}, from)
  {
    var rest := v - {from};
    assert rest.Keys == v.Keys - {from};
    assert |rest.Keys| > 0;
    var p := NearestVnode(rest, from);
    assert Nearest(v, from, p);
    LookupIs(v, from, p);
  }

  // ---------------------------------------------------------------------
  // Membership changes.

  // The ring without the vnodes of one node.
  function Without(v: Vnodes, id: NodeId): Vnodes {
    map p | p in v && v[p].id != id :: v[p]
  }

  function Decimal(n: nat): string {
    if n < 10 then ["0123456789"[n]] else Decimal(n / 10) + ["0123456789"[n % 10]]
  }

  function VnodeLabel(id: NodeId, index: nat): string {
    id + ":" + Decimal(index)
  }

  function VnodePositions(hash: HashFn, replicas: nat, id: NodeId): set<Position> {
    set i | 0 <= i < replicas :: hash(VnodeLabel(id, i))
  }

  // The ring after a node is added: its vnodes overwrite whatever was there.
  function WithNode(v: Vnodes, hash: HashFn, replicas: nat, n: Node): Vnodes {
    v + map p | p in VnodePositions(hash, replicas, n.id) :: n
  }

  ghost predicate Fresh(v: Vnodes, id: NodeId) {
    forall p | p in v :: v[p].id != id
  }

  // Adding a node and removing it again restores the ring exactly when the new
  // vnodes hit no occupied position.
  lemma AddThenRemoveRestoresIff(v: Vnodes, hash: HashFn, replicas: nat, n: Node)
    requires Fresh(v, n.id)
    ensures Without(WithNode(v, hash, replicas, n), n.id) == v
            <==> VnodePositions(hash, replicas, n.id) !! v.Keys
  {
    var back := Without(WithNode(v, hash, replicas, n), n.id);
    if p :| p in VnodePositions(hash, replicas, n.id) && p in v.Keys {
      assert p in v && p !in back;
    } else {
      assert back == v;
    }
  }

  // ---------------------------------------------------------------------
  // The owners of a key: primary, and replica on the ring without the primary.

  datatype Owners = Owners(primary: Option<Node>, replica: Option<Node>)

  ghost function OwnersOf(v: Vnodes, from: Position): Owners {
    var primary := Lookup(v, from);
    Owners(primary, if primary.None? then None else Lookup(Without(v, primary.value.id), from))
  }

  function Ids(o: Owners): set<NodeId> {
    (if o.primary.Some? then {o.primary.value.id} else {}) +
    (if o.replica.Some? then {o.replica.value.id} else {})
  }

  ghost function OwnerIds(v: Vnodes, from: Position): set<NodeId> {
    Ids(OwnersOf(v, from))
  }

  lemma LookupInRing(v: Vnodes, from: Position)
    ensures Lookup(v, from).Some? ==> exists p :: p in v && v[p] == Lookup(v, from).value
  {
    if v != map[] {
      var p := NearestVnode(v, from);
    }
  }

  // The two owners are different nodes, both on the ring.
  lemma OwnersAreOnTheRing(v: Vnodes, from: Position)
    ensures var o := OwnersOf(v, from);
            && (o.primary.Some? ==> !Fresh(v, o.primary.value.id))
            && (o.replica.Some? ==> o.primary.Some? && o.replica.value.id != o.primary.value.id
                                    && !Fresh(v, o.replica.value.id))
  {
    LookupInRing(v, from);
    var primary := Lookup(v, from);
    if primary.Some? {
      LookupInRing(Without(v, primary.value.id), from);
    }
  }

  // Removing a node other than the one found does not change what is found.
  lemma LookupWithoutOther(v: Vnodes, from: Position, id: NodeId)
    requires Lookup(v, from).Some? && Lookup(v, from).value.id != id
    ensures Lookup(Without(v, id), from) == Lookup(v, from)
  {
    var p := NearestVnode(v, from);
    assert Nearest(Without(v, id), from, p);
    LookupIs(Without(v, id), from, p);
  }

  lemma WithoutCommutes(v: Vnodes, a: NodeId, b: NodeId)
    ensures Without(Without(v, a), b) == Without(Without(v, b), a)
  {
  }

  // Removing the primary promotes its replica; removing the replica or a
  // bystander keeps the primary, and a bystander's removal keeps both.
  lemma OwnersUnderRemove(v: Vnodes, from: Position, id: NodeId)
    requires v != map[]
    ensures var o, o' := OwnersOf(v, from), OwnersOf(Without(v, id), from);
            && (id == o.primary.value.id ==> o'.primary == o.replica)
            && (id != o.primary.value.id ==> o'.primary == o.primary)
            && (id !in Ids(o) ==> o' == o)
  {
    var o := OwnersOf(v, from);
    var p := o.primary.value.id;
    if id != p {
      LookupWithoutOther(v, from, id);
      WithoutCommutes(v, p, id);
      if o.replica.Some? && o.replica.value.id != id {
        LookupWithoutOther(Without(v, p), from, id);
      } else if o.replica.None? {
        assert Without(v, p) == map[];
        assert Without(Without(v, id), p) == map[];
      }
    }
  }

  // What may happen to a key's owners when node n joins: nothing, or n becomes
  // primary with the old primary as replica, or n becomes the old primary's
  // replica.
  predicate JoinOutcome(o: Owners, o': Owners, n: Node) {
    || o' == o
    || o' == Owners(Some(n), o.primary)
    || o' == Owners(o.primary, Some(n))
  }

  // Every vnode the newcomer overwrites is followed, among the vnodes that
  // survive, by another vnode of the same node.
  ghost predicate HarmlessCollisions(v: Vnodes, hash: HashFn, replicas: nat, n: Node) {
    var kept := Without(WithNode(v, hash, replicas, n), n.id);
    forall p | p in v && p in VnodePositions(hash, replicas, n.id) :: Lookup(kept, p) == Some(v[p])
  }

  // Without collisions the condition is empty.
  lemma NoCollisionIsHarmless(v: Vnodes, hash: HashFn, replicas: nat, n: Node)
    requires VnodePositions(hash, replicas, n.id) !! v.Keys
    ensures HarmlessCollisions(v, hash, replicas, n)
  {
    assert forall p | p in v :: p in v.Keys;
  }

  function Predecessor(p: Position): (q: Position)
    ensures Clockwise(q, p) == 0
  {
    if p == 0 then RING_SIZE - 1 else p - 1
  }

  // Moving the starting point forward over free positions finds the same node.
  lemma LookupFromAnotherStart(v: Vnodes, from: Position, p: Position)
    requires forall q | q in v :: Clockwise(from, p) < Clockwise(from, q)
    ensures Lookup(v, p) == Lookup(v, from)
  {
    if v != map[] {
      var q := NearestVnode(v, from);
      assert Nearest(v, p, q);
      LookupIs(v, p, q);
    }
  }

  // Owners change as JoinOutcome says for every key exactly when the
  // newcomer's collisions are harmless.
  lemma OwnersUnderAddIff(v: Vnodes, hash: HashFn, replicas: nat, n: Node)
    requires Fresh(v, n.id)
    ensures (forall from: Position | v != map[] ::
               JoinOutcome(OwnersOf(v, from), OwnersOf(WithNode(v, hash, replicas, n), from), n))
            <==> HarmlessCollisions(v, hash, replicas, n)
  {
    var v' := WithNode(v, hash, replicas, n);
    if HarmlessCollisions(v, hash, replicas, n) {
      forall from: Position | v != map[] ensures JoinOutcome(OwnersOf(v, from), OwnersOf(v', from), n) {
        OwnersUnderAdd(v, hash, replicas, n, from);
      }
    }
    if forall from: Position | v != map[] :: JoinOutcome(OwnersOf(v, from), OwnersOf(v', from), n) {
      forall p | p in v && p in VnodePositions(hash, replicas, n.id)
        ensures Lookup(Without(v', n.id), p) == Some(v[p])
      {
        assert JoinOutcome(OwnersOf(v, Predecessor(p)), OwnersOf(v', Predecessor(p)), n);
        JoinOutcomeForcesHarmless(v, hash, replicas, n, p);
      }
    }
  }

  lemma JoinOutcomeForcesHarmless(v: Vnodes, hash: HashFn, replicas: nat, n: Node, p: Position)
    requires Fresh(v, n.id) && p in v && p in VnodePositions(hash, replicas, n.id)
    requires JoinOutcome(OwnersOf(v, Predecessor(p)), OwnersOf(WithNode(v, hash, replicas, n), Predecessor(p)), n)
    ensures Lookup(Without(WithNode(v, hash, replicas, n), n.id), p) == Some(v[p])
  {
    var v' := WithNode(v, hash, replicas, n);
    var kept := Without(v', n.id);
    LookupIs(v, Predecessor(p), p);
    LookupIs(v', Predecessor(p), p);
    assert v'[p] == n;
    assert Lookup(kept, Predecessor(p)) == Some(v[p]);
    assert forall q | q in kept :: q != p;
    LookupFromAnotherStart(kept, Predecessor(p), p);
  }

  // A newcomer is found, or the node found before is found.
  lemma LookupUnderAdd(v: Vnodes, hash: HashFn, replicas: nat, n: Node, from: Position)
    requires Fresh(v, n.id)
    ensures Lookup(WithNode(v, hash, replicas, n), from) == Some(n)
            || Lookup(WithNode(v, hash, replicas, n), from) == Lookup(v, from)
  {
    var v' := WithNode(v, hash, replicas, n);
    if v' != map[] {
      var p := NearestVnode(v', from);
      if v'[p] != n {
        assert Nearest(v, from, p);
        LookupIs(v, from, p);
      }
    } else {
      assert v == map[];
    }
  }

  lemma OwnersUnderAdd(v: Vnodes, hash: HashFn, replicas: nat, n: Node, from: Position)
    requires v != map[] && Fresh(v, n.id)
    requires HarmlessCollisions(v, hash, replicas, n)
    ensures JoinOutcome(OwnersOf(v, from), OwnersOf(WithNode(v, hash, replicas, n), from), n)
  {
    LookupUnderAdd(v, hash, replicas, n, from);
    if Lookup(WithNode(v, hash, replicas, n), from) == Some(n) {
      OldPrimaryBehindNewcomer(v, hash, replicas, n, from);
    } else {
      var a := Lookup(v, from).value;
      var w := Without(v, a.id);
      LookupInRing(v, from);
      assert Without(WithNode(v, hash, replicas, n), a.id) == WithNode(w, hash, replicas, n);
      LookupUnderAdd(w, hash, replicas, n, from);
    }
  }

  // Behind a newcomer that became primary comes the old primary.
  lemma OldPrimaryBehindNewcomer(v: Vnodes, hash: HashFn, replicas: nat, n: Node, from: Position)
    requires v != map[] && Fresh(v, n.id)
    requires HarmlessCollisions(v, hash, replicas, n)
    ensures Lookup(Without(WithNode(v, hash, replicas, n), n.id), from) == Lookup(v, from)
  {
    var kept := Without(WithNode(v, hash, replicas, n), n.id);
    var p := NearestVnode(v, from);
    if p in kept {
      assert Nearest(kept, from, p);
      LookupIs(kept, from, p);
    } else {
      assert p in VnodePositions(hash, replicas, n.id);
      assert forall q | q in kept :: q in v && q != p;
      LookupFromAnotherStart(kept, from, p);
    }
  }

  // A newcomer landing on the only vnode of a drops a from the owners.
  lemma CollisionCanDropTheOldPrimary(from: Position) returns (v: Vnodes, hash: HashFn, n: Node)
    ensures Fresh(v, n.id) && !HarmlessCollisions(v, hash, 1, n)
    ensures OwnersOf(v, from).primary.Some?
    ensures OwnersOf(v, from).primary.value.id !in OwnerIds(WithNode(v, hash, 1, n), from)
  {
    var a, b := Node("a", "", 0), Node("b", "", 0);
    hash, v, n := s => 7, map[7 := a], b;
    assert hash(VnodeLabel("b", 0)) in VnodePositions(hash, 1, "b");
    var v' := WithNode(v, hash, 1, b);
    assert v' == map[7 := b] && Without(v', "b") == map[];
    LookupIs(v, from, 7);
    LookupIs(v', from, 7);
  }
}
