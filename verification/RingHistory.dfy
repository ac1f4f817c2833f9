// The ring depends on who is a member, not on how the membership came about.
module RingHistory {
  import opened Types
  import opened Ring

  datatype RingOp = Add(node: Node) | Remove(id: NodeId)

  function MembersAfter(ops: seq<RingOp>): map<NodeId, Node> {
    if ops == [] then map[]
    else
      var before := MembersAfter(ops[..|ops| - 1]);
      match ops[|ops| - 1]
      case Add(n) => before[n.id := n]
      case Remove(id) => before - {id}
  }

  function RingAfter(hash: HashFn, replicas: nat, ops: seq<RingOp>): Vnodes {
    if ops == [] then map[]
    else
      var before := RingAfter(hash, replicas, ops[..|ops| - 1]);
      match ops[|ops| - 1]
      case Add(n) => WithNode(before, hash, replicas, n)
      case Remove(id) => Without(before, id)
  }

  lemma OneMoreRingOp(hash: HashFn, replicas: nat, ops: seq<RingOp>, op: RingOp)
    ensures MembersAfter(ops + [op]) ==
         if op.Add? then MembersAfter(ops)[op.node.id := op.node] else MembersAfter(ops) - {op.id}
    ensures RingAfter(hash, replicas, ops + [op])
         == if op.Add? then WithNode(RingAfter(hash, replicas, ops), hash, replicas, op.node)
            else Without(RingAfter(hash, replicas, ops), op.id)
  {
    assert (ops + [op])[..|ops|] == ops;
  }

  // ---------------------------------------------------------------------
  // Positions are the 32-byte digests, read with the first byte most significant.

  type Byte = b: nat | b < 256

  function BigEndian(bytes: seq<Byte>): nat {
    if bytes == [] then 0 else 256 * BigEndian(bytes[..|bytes| - 1]) + bytes[|bytes| - 1]
  }

  function Power(n: nat): (p: nat)
    ensures p > 0
  {
    if n == 0 then 1 else 256 * Power(n - 1)
  }

  // Every number below 256^n is that of exactly n bytes, and the ring has room
  // for exactly the 32-byte numbers.
  lemma {:induction false} DigestsFillTheRing(n: nat, p: nat)
    ensures forall bytes: seq<Byte> :: |bytes| == n ==> BigEndian(bytes) < Power(n)
    ensures p < Power(n) ==> exists bytes: seq<Byte> :: |bytes| == n && BigEndian(bytes) == p
    ensures Power(32) == RING_SIZE
  {
    if n == 0 {
      var none: seq<Byte> := [];
      assert BigEndian(none) == 0;
    } else {
      DigestsFillTheRing(n - 1, p / 256);
      forall bytes: seq<Byte> | (|bytes| == n) ensures BigEndian(bytes) < Power(n) {
        assert BigEndian(bytes[..n - 1]) < Power(n - 1);
      }
      if p < Power(n) {
        var front: seq<Byte> :| |front| == n - 1 && BigEndian(front) == p / 256;
        var bytes: seq<Byte> := front + [p % 256];
        assert bytes[..n - 1] == front && BigEndian(bytes) == p;
      }
    }
    PowerOfTheRing();
  }

  lemma PowerOfTheRing()
    ensures Power(32) == RING_SIZE
  {
    PowerStep(0);
    PowerStep(4);
    PowerStep(8);
    PowerStep(12);
    PowerStep(16);
    PowerStep(20);
    PowerStep(24);
    PowerStep(28);
  }

  lemma PowerStep(n: nat)
    ensures Power(n + 4) == 0x1_0000_0000 * Power(n)
  {
    assert Power(n + 4) == 256 * Power(n + 3);
    assert Power(n + 3) == 256 * Power(n + 2);
    assert Power(n + 2) == 256 * Power(n + 1);
  }

  // ---------------------------------------------------------------------
  // Vnode labels of different nodes differ, so only the hash can collide.

  predicate Digits(s: string) {
    forall i | 0 <= i < |s| :: '0' <= s[i] <= '9'
  }

  function DecimalValue(s: string): nat
    requires Digits(s)
  {
    if s == "" then 0 else 10 * DecimalValue(s[..|s| - 1]) + (s[|s| - 1] - '0') as nat
  }

  lemma {:induction false} DecimalRoundTrip(n: nat)
    ensures Digits(Decimal(n))
    ensures DecimalValue(Decimal(n)) == n
  {
    var d := "0123456789"[n % 10];
    assert '0' <= d <= '9' && (d - '0') as nat == n % 10;
    if n < 10 {
      assert Decimal(n)[..0] == "";
    } else {
      DecimalRoundTrip(n / 10);
      assert Decimal(n)[..|Decimal(n)| - 1] == Decimal(n / 10);
    }
  }

  // An index is written without leading zeros.
  lemma {:induction false} NoLeadingZero(n: nat)
    ensures Decimal(n)[0] == '0' ==> Decimal(n) == "0"
  {
    if n < 10 {
      assert n > 0 ==> "0123456789"[n] != '0';
    } else {
      NoLeadingZero(n / 10);
      DecimalRoundTrip(n / 10);
      assert "0"[..0] == "" && DecimalValue("0") == 0;
      assert Decimal(n)[0] == Decimal(n / 10)[0];
    }
  }

  lemma ColonBeforeIndex(id: NodeId, i: nat)
    ensures var s := VnodeLabel(id, i);
            |id| < |s| && s[|id|] == ':' && forall j | |id| < j < |s| :: s[j] != ':'
  {
    DecimalRoundTrip(i);
    assert forall j | 0 <= j < |Decimal(i)| :: VnodeLabel(id, i)[|id| + 1 + j] == Decimal(i)[j];
  }

  lemma VnodeLabelsAreInjective(a: NodeId, i: nat, b: NodeId, j: nat)
    requires VnodeLabel(a, i) == VnodeLabel(b, j)
    ensures a == b && i == j
  {
    ColonBeforeIndex(a, i);
    ColonBeforeIndex(b, j);
    var s := VnodeLabel(a, i);
    assert s[..|a|] == a && s[..|b|] == b;
    assert s[|a| + 1..] == Decimal(i) && s[|b| + 1..] == Decimal(j);
    DecimalRoundTrip(i);
    DecimalRoundTrip(j);
  }

  // No two of some nodes share a vnode position.
  ghost predicate CollisionFreeAmong(hash: HashFn, replicas: nat, ids: iset<NodeId>) {
    forall a: NodeId, b: NodeId | a in ids && b in ids && a != b ::
      VnodePositions(hash, replicas, a) !! VnodePositions(hash, replicas, b)
  }

  // Two vnodes can only collide through a collision of the hash on their labels.
  lemma CollisionsComeFromTheHash(hash: HashFn, replicas: nat, ids: iset<NodeId>)
    requires forall a: NodeId, b: NodeId, i: nat, j: nat |
               a in ids && b in ids && i < replicas && j < replicas &&
                 hash(VnodeLabel(a, i)) == hash(VnodeLabel(b, j)) ::
               VnodeLabel(a, i) == VnodeLabel(b, j)
    ensures CollisionFreeAmong(hash, replicas, ids)
  {
    forall a: NodeId, b: NodeId | a in ids && b in ids && a != b
      ensures VnodePositions(hash, replicas, a) !! VnodePositions(hash, replicas, b)
    {
      if p :| p in VnodePositions(hash, replicas, a) && p in VnodePositions(hash, replicas, b) {
        var i: nat :| i < replicas && hash(VnodeLabel(a, i)) == p;
        var j: nat :| j < replicas && hash(VnodeLabel(b, j)) == p;
        VnodeLabelsAreInjective(a, i, b, j);
      }
    }
  }

  // Such hashes exist for any two nodes: one that tells their labels apart.
  lemma CollisionFreeIsPossible(replicas: nat, a: NodeId, b: NodeId)
    requires a != b
    ensures exists hash: HashFn :: CollisionFreeAmong(hash, replicas, iset{a, b})
  {
    var hash: HashFn := s => if exists i: nat :: s == VnodeLabel(a, i) then 1 else 2;
    forall j: nat | j < replicas ensures hash(VnodeLabel(b, j)) == 2 {
      if i: nat :| VnodeLabel(b, j) == VnodeLabel(a, i) {
        VnodeLabelsAreInjective(b, j, a, i);
      }
    }
    assert CollisionFreeAmong(hash, replicas, iset{a, b});
  }

  // ---------------------------------------------------------------------

  // A history that only ever adds some nodes.
  predicate AddsAmong(ops: seq<RingOp>, ids: iset<NodeId>) {
    forall i | 0 <= i < |ops| && ops[i].Add? :: ops[i].node.id in ids
  }

  // The ring a membership should have: each member at exactly its own positions.
  ghost predicate Represents(hash: HashFn, replicas: nat, members: map<NodeId, Node>, v: Vnodes) {
    && (forall p | p in v :: v[p].id in members && p in VnodePositions(hash, replicas, v[p].id))
    && (forall id, p | id in members && p in VnodePositions(hash, replicas, id) :: p in v && v[p] == members[id])
  }

  lemma {:induction false} RingRepresentsMembers(hash: HashFn, replicas: nat, ids: iset<NodeId>, ops: seq<RingOp>)
    requires CollisionFreeAmong(hash, replicas, ids) && AddsAmong(ops, ids)
    ensures Represents(hash, replicas, MembersAfter(ops), RingAfter(hash, replicas, ops))
    ensures forall id | id in MembersAfter(ops) :: id in ids
    decreases ops
  {
    if ops == [] {
    } else {
      var before := ops[..|ops| - 1];
      RingRepresentsMembers(hash, replicas, ids, before);
      match ops[|ops| - 1]
      case Add(n) =>
        assert n.id in ids;
        AddRepresents(hash, replicas, ids, MembersAfter(before), RingAfter(hash, replicas, before), n);
      case Remove(id) =>
        RemoveRepresents(hash, replicas, ids, MembersAfter(before), RingAfter(hash, replicas, before), id);
    }
  }

  lemma RemoveRepresents(hash: HashFn, replicas: nat, ids: iset<NodeId>, members: map<NodeId, Node>, v: Vnodes,
                         id: NodeId)
    requires CollisionFreeAmong(hash, replicas, ids) && Represents(hash, replicas, members, v)
    requires forall x | x in members :: x in ids
    ensures Represents(hash, replicas, members - {id}, Without(v, id))
  {
  }

  lemma AddRepresents(hash: HashFn, replicas: nat, ids: iset<NodeId>, members: map<NodeId, Node>, v: Vnodes, n: Node)
    requires CollisionFreeAmong(hash, replicas, ids) && Represents(hash, replicas, members, v)
    requires n.id in ids && forall id | id in members :: id in ids
    ensures Represents(hash, replicas, members[n.id := n], WithNode(v, hash, replicas, n))
  {
  }

  // Among some nodes, equal memberships give equal rings, whatever the
  // histories, exactly when no two of these nodes share a vnode position.
  lemma HistoryIndependenceIff(hash: HashFn, replicas: nat, ids: iset<NodeId>)
    ensures CollisionFreeAmong(hash, replicas, ids)
            <==> forall s, t | AddsAmong(s, ids) && AddsAmong(t, ids) && MembersAfter(s) == MembersAfter(t) ::
                   RingAfter(hash, replicas, s) == RingAfter(hash, replicas, t)
  {
    if CollisionFreeAmong(hash, replicas, ids) {
      forall s, t | AddsAmong(s, ids) && AddsAmong(t, ids) && MembersAfter(s) == MembersAfter(t)
        ensures RingAfter(hash, replicas, s) == RingAfter(hash, replicas, t)
      {
        SameMembersSameRing(hash, replicas, ids, s, t);
      }
    } else {
      var a: NodeId, b: NodeId :| a in ids && b in ids && a != b
                                  && !(VnodePositions(hash, replicas, a) !! VnodePositions(hash, replicas, b));
      var s, t := CollisionRemembersOrder(hash, replicas, ids, a, b);
    }
  }

  lemma SameMembersSameRing(hash: HashFn, replicas: nat, ids: iset<NodeId>, s: seq<RingOp>, t: seq<RingOp>)
    requires CollisionFreeAmong(hash, replicas, ids) && AddsAmong(s, ids) && AddsAmong(t, ids)
    requires MembersAfter(s) == MembersAfter(t)
    ensures RingAfter(hash, replicas, s) == RingAfter(hash, replicas, t)
  {
    RingRepresentsMembers(hash, replicas, ids, s);
    RingRepresentsMembers(hash, replicas, ids, t);
    var v, w, members := RingAfter(hash, replicas, s), RingAfter(hash, replicas, t), MembersAfter(s);
    forall p | p in v ensures p in w && w[p] == v[p] { SameVnode(hash, replicas, members, v, w, p); }
    forall p | p in w ensures p in v { SameVnode(hash, replicas, members, w, v, p); }
  }

  lemma SameVnode(hash: HashFn, replicas: nat, members: map<NodeId, Node>, v: Vnodes, w: Vnodes, p: Position)
    requires Represents(hash, replicas, members, v) && Represents(hash, replicas, members, w) && p in v
    ensures p in w && w[p] == v[p]
  {
    assert v[p].id in members && p in VnodePositions(hash, replicas, v[p].id);
  }

  // On a shared position the node added last wins.
  lemma CollisionRemembersOrder(hash: HashFn, replicas: nat, ids: iset<NodeId>, a: NodeId, b: NodeId)
    returns (s: seq<RingOp>, t: seq<RingOp>)
    requires a in ids && b in ids && a != b
    requires !(VnodePositions(hash, replicas, a) !! VnodePositions(hash, replicas, b))
    ensures AddsAmong(s, ids) && AddsAmong(t, ids) && MembersAfter(s) == MembersAfter(t)
    ensures RingAfter(hash, replicas, s) != RingAfter(hash, replicas, t)
  {
    var na, nb := Node(a, "", 0), Node(b, "", 0);
    s := TwoAdds(hash, replicas, ids, na, nb);
    t := TwoAdds(hash, replicas, ids, nb, na);
    LastAddWins(hash, replicas, na, nb);
  }

  lemma LastAddWins(hash: HashFn, replicas: nat, a: Node, b: Node)
    requires a.id != b.id && !(VnodePositions(hash, replicas, a.id) !! VnodePositions(hash, replicas, b.id))
    ensures WithNode(WithNode(map[], hash, replicas, a), hash, replicas, b)
         != WithNode(WithNode(map[], hash, replicas, b), hash, replicas, a)
    ensures map[a.id := a, b.id := b] == map[b.id := b, a.id := a]
  {
    var p :| p in VnodePositions(hash, replicas, a.id) && p in VnodePositions(hash, replicas, b.id);
    assert WithNode(WithNode(map[], hash, replicas, a), hash, replicas, b)[p] == b;
    assert WithNode(WithNode(map[], hash, replicas, b), hash, replicas, a)[p] == a;
  }

  lemma TwoAdds(hash: HashFn, replicas: nat, ids: iset<NodeId>, a: Node, b: Node) returns (ops: seq<RingOp>)
    requires a.id in ids && b.id in ids
    ensures AddsAmong(ops, ids) && MembersAfter(ops) == map[a.id := a, b.id := b]
    ensures RingAfter(hash, replicas, ops) == WithNode(WithNode(map[], hash, replicas, a), hash, replicas, b)
  {
    OneMoreRingOp(hash, replicas, [], Add(a));
    OneMoreRingOp(hash, replicas, [] + [Add(a)], Add(b));
    ops := [] + [Add(a)] + [Add(b)];
  }

  // The owners of every key are then a function of the membership alone.
  lemma OwnersDependOnMembersOnly(hash: HashFn, replicas: nat, ids: iset<NodeId>, s: seq<RingOp>, t: seq<RingOp>,
                                  key: Key)
    requires CollisionFreeAmong(hash, replicas, ids) && AddsAmong(s, ids) && AddsAmong(t, ids)
    requires MembersAfter(s) == MembersAfter(t)
    ensures OwnersOf(RingAfter(hash, replicas, s), hash(key)) == OwnersOf(RingAfter(hash, replicas, t), hash(key))
  {
    SameMembersSameRing(hash, replicas, ids, s, t);
  }
}
