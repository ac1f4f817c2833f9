// The ring as the program keeps it: a dictionary of vnodes, its keys sorted,
// and the member nodes, all updated in place.
module HashRing {
  import opened Types
  import opened Ring

  ghost predicate StrictlyIncreasing(s: seq<Position>) {
    forall i, j | 0 <= i < j < |s| :: s[i] < s[j]
  }

  // How many elements of s are at most x (bisect.bisect_right).
  method BisectRight(s: seq<Position>, x: Position) returns (i: nat)
    requires StrictlyIncreasing(s)
    ensures i <= |s|
    ensures forall j | 0 <= j < i :: s[j] <= x
    ensures forall j | i <= j < |s| :: x < s[j]
  {
    var lo, hi := 0, |s|;
    while lo < hi
      invariant 0 <= lo <= hi <= |s|
      invariant forall j | 0 <= j < lo :: s[j] <= x
      invariant forall j | hi <= j < |s| :: x < s[j]
    {
      var mid := (lo + hi) / 2;
      if x < s[mid] {
        hi := mid;
      } else {
        lo := mid + 1;
      }
    }
    return lo;
  }

  method Sorted(keys: set<Position>) returns (s: seq<Position>)
    ensures StrictlyIncreasing(s)
    ensures forall p: Position :: p in s <==> p in keys
    ensures |s| == |keys|
  {
    s := [];
    var todo := keys;
    while todo != {}
      invariant todo <= keys
      invariant StrictlyIncreasing(s)
      invariant forall p: Position :: p in s <==> p in keys - todo
      invariant |s| + |todo| == |keys|
      decreases |todo|
    {
      var p :| p in todo;
      var i := BisectRight(s, p);
      assert p !in s;
      InsertKeepsOrder(s, i, p);
      InsertMembers(s, i, p);
      s := s[..i] + [p] + s[i..];
      todo := todo - {p};
    }
  }

  lemma InsertKeepsOrder(s: seq<Position>, i: nat, p: Position)
    requires StrictlyIncreasing(s) && i <= |s| && p !in s
    requires forall j | 0 <= j < i :: s[j] <= p
    requires forall j | i <= j < |s| :: p < s[j]
    ensures StrictlyIncreasing(s[..i] + [p] + s[i..])
  {
    var t := s[..i] + [p] + s[i..];
    forall a, b | 0 <= a < b < |t| ensures t[a] < t[b] {
      if a == i {
        assert t[b] == s[b - 1];
      } else if b == i {
        assert t[a] == s[a] && s[a] in s;
      } else {
        assert t[a] == s[if a < i then a else a - 1] && t[b] == s[if b < i then b else b - 1];
      }
    }
  }

  lemma InsertMembers(s: seq<Position>, i: nat, p: Position)
    requires i <= |s|
    ensures forall q: Position :: q in s[..i] + [p] + s[i..] <==> q == p || q in s
  {
    assert forall q: Position :: q in s[..i] + s[i..] <==> q in s[..i] || q in s[i..];
    assert s == s[..i] + s[i..];
  }

  // The index get_successor_for_key starts from.
  ghost predicate FirstAfter(s: seq<Position>, from: Position, first: nat) {
    && first < |s|
    && (|| ((forall j | 0 <= j < first :: s[j] <= from) && from < s[first])
        || (first == 0 && forall j | 0 <= j < |s| :: s[j] <= from))
  }

  function Scan(s: seq<Position>, first: nat, offset: nat): Position
    requires |s| > 0
  {
    s[(first + offset) % |s|]
  }

  // Stepping through the sorted keys with wrap-around visits them in
  // increasing clockwise distance.
  lemma ScanOrder(s: seq<Position>, from: Position, first: nat, a: nat, b: nat)
    requires StrictlyIncreasing(s) && FirstAfter(s, from, first) && a < b < |s|
    ensures Clockwise(from, Scan(s, first, a)) < Clockwise(from, Scan(s, first, b))
  {
    WrapOnce(first + a, |s|);
    WrapOnce(first + b, |s|);
  }

  lemma WrapOnce(i: nat, n: nat)
    requires 0 < n && i < 2 * n
    ensures i % n == if i < n then i else i - n
  {
    if i >= n { assert i == (i - n) + n * 1; }
  }

  // Every key is reached by some offset.
  lemma ScanReaches(s: seq<Position>, first: nat, p: Position) returns (offset: nat)
    requires first < |s| && p in s
    ensures offset < |s| && Scan(s, first, offset) == p
  {
    var i :| 0 <= i < |s| && s[i] == p;
    offset := if i >= first then i - first else i + |s| - first;
    WrapOnce(first + offset, |s|);
  }

  // The first scanned key that lies in a sub-ring is its nearest vnode.
  lemma FirstScannedIsNearest(s: seq<Position>, v: Vnodes, from: Position, first: nat, offset: nat)
    requires StrictlyIncreasing(s) && FirstAfter(s, from, first) && offset < |s|
    requires forall p: Position | p in v :: p in s
    requires Scan(s, first, offset) in v
    requires forall a: nat | a < offset :: Scan(s, first, a) !in v
    ensures Nearest(v, from, Scan(s, first, offset))
  {
    forall q: Position | q in v ensures Clockwise(from, Scan(s, first, offset)) <= Clockwise(from, q) {
      var b := ScanReaches(s, first, q);
      if b != offset { ScanOrder(s, from, first, offset, b); }
    }
  }

  lemma NearestIsFirst(s: seq<Position>, v: Vnodes, from: Position, first: nat)
    requires StrictlyIncreasing(s) && FirstAfter(s, from, first)
    requires s[first] in v && forall p: Position | p in v :: p in s
    ensures Nearest(v, from, s[first])
  {
    WrapOnce(first, |s|);
    FirstScannedIsNearest(s, v, from, first, 0);
  }

  lemma NothingScanned(s: seq<Position>, v: Vnodes, first: nat)
    requires first < |s|
    requires forall p: Position | p in v :: p in s
    requires forall a: nat | a < |s| :: Scan(s, first, a) !in v
    ensures v == map[]
  {
    if p: Position :| p in v {
      var b := ScanReaches(s, first, p);
    }
  }

  // Every vnode belongs to a member and sits at one of that member's positions.
  ghost predicate OwnedByMembers(hash: HashFn, replicas: nat, v: Vnodes, nodes: map<NodeId, Node>) {
    forall p | p in v ::
      && v[p].id in nodes && v[p] == nodes[v[p].id]
      && p in VnodePositions(hash, replicas, v[p].id)
  }

  lemma OneMoreVnode(v: Vnodes, hash: HashFn, count: nat, n: Node)
    ensures WithNode(v, hash, count + 1, n) == WithNode(v, hash, count, n)[hash(VnodeLabel(n.id, count)) := n]
  {
    OneMorePosition(hash, count, n.id);
    OverwriteOneMore(v, VnodePositions(hash, count, n.id), hash(VnodeLabel(n.id, count)), n);
  }

  lemma OneMorePosition(hash: HashFn, count: nat, id: NodeId)
    ensures VnodePositions(hash, count + 1, id) == VnodePositions(hash, count, id) + {hash(VnodeLabel(id, count))}
  {
    var p := hash(VnodeLabel(id, count));
    forall q ensures q in VnodePositions(hash, count + 1, id) <==> q in VnodePositions(hash, count, id) || q == p {
      if q in VnodePositions(hash, count + 1, id) {
        var i: nat :| i < count + 1 && hash(VnodeLabel(id, i)) == q;
        assert i == count || i < count;
      }
    }
  }

  lemma OverwriteOneMore(v: Vnodes, placed: set<Position>, p: Position, n: Node)
    ensures v + (map q | q in placed + {p} :: n) == (v + map q | q in placed :: n)[p := n]
  {
  }

  // The vnode of a node with this index, labelled "id:index".
  ghost predicate PlacedAtLabel(v: Vnodes, hash: HashFn, n: Node, index: nat) {
    var p := hash(n.id + ":" + Decimal(index));
    p in v && v[p] == n
  }

  lemma WithNodeAtLabels(v: Vnodes, hash: HashFn, replicas: nat, n: Node)
    ensures forall i: nat | i < replicas :: PlacedAtLabel(WithNode(v, hash, replicas, n), hash, n, i)
  {
    forall i: nat | i < replicas ensures PlacedAtLabel(WithNode(v, hash, replicas, n), hash, n, i) {
      PositionsAreLabels(hash, replicas, n.id, hash(n.id + ":" + Decimal(i)));
    }
  }

  // A node sits at the positions of its labels 0 to replicas - 1 and at no other.
  lemma PositionsAreLabels(hash: HashFn, replicas: nat, id: NodeId, p: Position)
    ensures p in VnodePositions(hash, replicas, id)
       <==> exists i: nat :: i < replicas && hash(id + ":" + Decimal(i)) == p
  {
    if i: nat :| i < replicas && hash(id + ":" + Decimal(i)) == p {
      assert hash(VnodeLabel(id, i)) == p;
    }
    if p in VnodePositions(hash, replicas, id) {
      var i :| 0 <= i < replicas && hash(VnodeLabel(id, i)) == p;
      assert hash(id + ":" + Decimal(i)) == p;
    }
  }

  lemma WithNodeOwned(hash: HashFn, replicas: nat, v: Vnodes, nodes: map<NodeId, Node>, n: Node)
    requires OwnedByMembers(hash, replicas, v, nodes)
    ensures OwnedByMembers(hash, replicas, WithNode(v, hash, replicas, n), nodes[n.id := n])
  {
  }

  lemma WithoutOwned(hash: HashFn, replicas: nat, v: Vnodes, nodes: map<NodeId, Node>, id: NodeId)
    requires OwnedByMembers(hash, replicas, v, nodes)
    ensures OwnedByMembers(hash, replicas, Without(v, id), nodes - {id})
  {
  }

  class ConsistentHashRing {
    const hash: HashFn
    const replicas: nat
    var vnodes: Vnodes
    var sortedKeys: seq<Position>
    var nodes: map<NodeId, Node>

    // The sorted list is the dictionary's keys, and every vnode is a member's.
    ghost predicate Valid()
      reads this
    {
      && StrictlyIncreasing(sortedKeys)
      && (forall p: Position :: p in sortedKeys <==> p in vnodes)
      && OwnedByMembers(hash, replicas, vnodes, nodes)
    }

    constructor (hash: HashFn, replicas: nat)
      requires 0 < replicas
      ensures Valid() && this.hash == hash && this.replicas == replicas
      ensures vnodes == map[] && nodes == map[]
    {
      this.hash, this.replicas := hash, replicas;
      vnodes, sortedKeys, nodes := map[], [], map[];
    }

    method AddNode(node: Node)
      requires Valid()
      modifies this
      ensures Valid()
      ensures vnodes == WithNode(old(vnodes), hash, replicas, node)
      ensures nodes == old(nodes)[node.id := node]
      ensures forall i: nat | i < replicas :: PlacedAtLabel(vnodes, hash, node, i)
      ensures forall p: Position | p !in VnodePositions(hash, replicas, node.id) ::
                (p in vnodes <==> p in old(vnodes)) && (p in vnodes ==> vnodes[p] == old(vnodes)[p])
    {
      nodes := nodes[node.id := node];
      PlaceVnodes(node);
      WithNodeOwned(hash, replicas, old(vnodes), old(nodes), node);
      WithNodeAtLabels(old(vnodes), hash, replicas, node);
      sortedKeys := Sorted(vnodes.Keys);
    }

    // The loop of AddNode.
    method PlaceVnodes(node: Node)
      modifies `vnodes
      ensures vnodes == WithNode(old(vnodes), hash, replicas, node)
    {
      for index := 0 to replicas
        invariant vnodes == WithNode(old(vnodes), hash, index, node)
      {
        vnodes := vnodes[hash(VnodeLabel(node.id, index)) := node];
        OneMoreVnode(old(vnodes), hash, index, node);
      }
    }

    method RemoveNode(id: NodeId)
      requires Valid()
      modifies this
      ensures Valid()
      ensures vnodes == Without(old(vnodes), id)
      ensures nodes == old(nodes) - {id}
      ensures forall p: Position :: p in vnodes <==> p in old(vnodes) && old(vnodes)[p].id != id
      ensures forall p: Position | p in vnodes :: vnodes[p] == old(vnodes)[p]
    {
      nodes := nodes - {id};
      DropVnodes(id);
      WithoutOwned(hash, replicas, old(vnodes), old(nodes), id);
      sortedKeys := Sorted(vnodes.Keys);
    }

    // The comprehension and the loop of RemoveNode.
    method DropVnodes(id: NodeId)
      modifies `vnodes
      ensures vnodes == Without(old(vnodes), id)
    {
      var keysToRemove := set p | p in vnodes && vnodes[p].id == id;
      while keysToRemove != {}
        invariant forall p: Position | p in vnodes :: p in old(vnodes) && vnodes[p] == old(vnodes)[p]
        invariant forall p: Position | p in old(vnodes) && old(vnodes)[p].id != id :: p in vnodes
        invariant forall p: Position | p in vnodes && vnodes[p].id == id :: p in keysToRemove
        invariant forall p: Position | p in keysToRemove :: p in vnodes && vnodes[p].id == id
        decreases |keysToRemove|
      {
        var p :| p in keysToRemove;
        vnodes := vnodes - {p};
        keysToRemove := keysToRemove - {p};
      }
    }

    method Clone() returns (ring: ConsistentHashRing)
      requires Valid() && 0 < replicas
      ensures fresh(ring) && ring.Valid()
      ensures ring.hash == hash && ring.replicas == replicas
      ensures ring.vnodes == vnodes && ring.nodes == nodes && ring.sortedKeys == sortedKeys
    {
      ring := new ConsistentHashRing(hash, replicas);
      ring.vnodes, ring.sortedKeys, ring.nodes := vnodes, sortedKeys, nodes;
    }

    method GetNode(key: Key) returns (r: Option<Node>)
      requires Valid()
      ensures r == Lookup(vnodes, hash(key))
    {
      if vnodes == map[] {
        return None;
      }
      var index := FirstIndex(hash(key));
      assert sortedKeys[index] in sortedKeys;
      NearestIsFirst(sortedKeys, vnodes, hash(key), index);
      LookupIs(vnodes, hash(key), sortedKeys[index]);
      return Some(vnodes[sortedKeys[index]]);
    }

    // bisect_right with wrap-around, at the head of both lookups
    method FirstIndex(position: Position) returns (index: nat)
      requires Valid() && vnodes != map[]
      ensures FirstAfter(sortedKeys, position, index)
    {
      index := BisectRight(sortedKeys, position);
      assert |sortedKeys| > 0 by {
        var p :| p in vnodes;
        assert p in sortedKeys;
      }
      if index == |sortedKeys| {
        index := 0;
      }
    }

    // The scan past the excluded node finds what plain routing finds on the
    // ring without that node.
    method GetSuccessorForKey(key: Key, exclude: Option<NodeId>) returns (r: Option<Node>)
      requires Valid()
      ensures r == Lookup(if exclude.None? then vnodes else Without(vnodes, exclude.value), hash(key))
    {
      if vnodes == map[] {
        return None;
      }
      ghost var target := if exclude.None? then vnodes else Without(vnodes, exclude.value);
      var position := hash(key);
      var index := FirstIndex(position);
      for offset := 0 to |sortedKeys|
        invariant forall a: nat | a < offset :: Scan(sortedKeys, index, a) !in target
      {
        var p := Scan(sortedKeys, index, offset);
        assert p in sortedKeys;
        var candidate := vnodes[p];
        if exclude.None? || candidate.id != exclude.value {
          FirstScannedIsNearest(sortedKeys, target, position, index, offset);
          LookupIs(target, position, p);
          return Some(candidate);
        }
      }
      NothingScanned(sortedKeys, target, index);
      return None;
    }
  }

  // Construction as callers see it: a nonpositive replica count is an error.
  method NewRing(hash: HashFn, replicas: int) returns (r: Option<ConsistentHashRing>)
    ensures r.None? <==> replicas <= 0
    ensures r.Some? ==> fresh(r.value) && r.value.Valid() && r.value.replicas == replicas
                        && r.value.hash == hash && r.value.vnodes == map[]
  {
    if replicas <= 0 {
      return None;
    }
    var ring := new ConsistentHashRing(hash, replicas);
    return Some(ring);
  }
}
