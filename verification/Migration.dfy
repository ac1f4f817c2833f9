// What a rebalance decides: for every key found in the snapshots, which nodes
// get a copy, which lose theirs, and from which copy the new ones are made.
module Migration {
  import opened Types
  import opened Ring
  import opened StoreSpec

  datatype Change = NodeAdded | NodeRemoved

  datatype Task =
    | PutTask(node: NodeId, key: Key, value: Value, ttl: Option<real>)
    | DeleteTask(node: NodeId, key: Key)

  // Everything but the snapshots that the planning loop looks at.  The order
  // is that of the snapshots dictionary; members are the nodes known when the
  // plan is made; liveness is looked up anew for each key.
  datatype Planning = Planning(change: Change, hash: HashFn, previous: Vnodes, current: Vnodes,
                               alive: Key -> set<NodeId>, members: set<NodeId>, order: seq<NodeId>, now: real)

  // The copies of one key, by node.
  type Copies = map<NodeId, Entry>

  function CopiesOf(stores: Stores, k: Key): Copies {
    map n | n in stores && k in stores[n] :: stores[n][k]
  }

  function CopyAt(c: Copies, id: NodeId): Option<Entry> {
    if id in c then Some(c[id]) else None
  }

  function CopyAtNode(c: Copies, n: Option<Node>): Option<Entry> {
    if n.Some? then CopyAt(c, n.value.id) else None
  }

  // _get_first_entry_snapshot
  function FirstCopy(c: Copies, order: seq<NodeId>): Option<Entry> {
    if order == [] then None
    else if order[0] in c then Some(c[order[0]])
    else FirstCopy(c, order[1..])
  }

  // _source_node_id_for_key: the old primary if alive, else its replica if it
  // has one, alive or not.
  function SourceNode(o: Owners, alive: set<NodeId>): Option<Node> {
    if o.primary.None? || o.primary.value.id in alive || o.replica.None? then o.primary else o.replica
  }

  function OrElse(a: Option<Entry>, b: Option<Entry>): Option<Entry> {
    if a.Some? then a else b
  }

  ghost function Source(p: Planning, k: Key, c: Copies): Option<Entry> {
    var prev, cur := OwnersOf(p.previous, p.hash(k)), OwnersOf(p.current, p.hash(k));
    match p.change
    case NodeAdded => OrElse(CopyAtNode(c, SourceNode(prev, p.alive(k))), FirstCopy(c, p.order))
    case NodeRemoved => OrElse(OrElse(CopyAtNode(c, cur.primary), CopyAtNode(c, prev.replica)), FirstCopy(c, p.order))
  }

  ghost predicate OwnersChange(p: Planning, k: Key) {
    && p.previous != map[] && p.current != map[]
    && OwnerIds(p.previous, p.hash(k)) != OwnerIds(p.current, p.hash(k))
  }

  // The key's copies are moved: its owners changed and an unexpired source exists.
  ghost predicate Moves(p: Planning, k: Key, c: Copies) {
    && OwnersChange(p, k)
    && Source(p, k, c).Some? && !Expired(Source(p, k, c).value, p.now)
  }

  ghost function PutTargets(p: Planning, k: Key, c: Copies): set<NodeId> {
    if Moves(p, k, c) then OwnerIds(p.current, p.hash(k)) * p.members - c.Keys else {}
  }

  ghost function DeleteTargets(p: Planning, k: Key, c: Copies): set<NodeId> {
    if Moves(p, k, c) then c.Keys * p.members - OwnerIds(p.current, p.hash(k)) else {}
  }

  // What is left of an expiry at planning time.
  function RemainingTtl(e: Entry, now: real): Option<real> {
    if e.expiresAt.None? then None else Some(e.expiresAt.value - now)
  }

  function PutsTo(nodes: set<NodeId>, k: Key, v: Value, ttl: Option<real>): set<Task> {
    set n | n in nodes :: PutTask(n, k, v, ttl)
  }

  function DeletesFrom(nodes: set<NodeId>, k: Key): set<Task> {
    set n | n in nodes :: DeleteTask(n, k)
  }

  ghost function KeyTasks(p: Planning, k: Key, c: Copies): set<Task> {
    if !Moves(p, k, c) then {}
    else
      var src := Source(p, k, c).value;
      PutsTo(PutTargets(p, k, c), k, src.value, RemainingTtl(src, p.now)) + DeletesFrom(DeleteTargets(p, k, c), k)
  }

  function AllKeys(snaps: Stores): set<Key> {
    set n, k | n in snaps && k in snaps[n] :: k
  }

  ghost function PlannedFor(p: Planning, snaps: Stores, keys: set<Key>): set<Task> {
    set k, t | k in keys && t in KeyTasks(p, k, CopiesOf(snaps, k)) :: t
  }

  ghost function PlannedTasks(p: Planning, snaps: Stores): set<Task> {
    PlannedFor(p, snaps, AllKeys(snaps))
  }

  // ---------------------------------------------------------------------
  // Running one task, on stores below capacity.

  function ApplyPut(c: Contents, k: Key, v: Value, ttl: Option<real>, now: real): Contents {
    if ttl.Some? && ttl.value <= 0.0 then c - {k} else c[k := NewEntry(v, ttl, now)]
  }

  function ApplyTask(stores: Stores, t: Task, now: real): Stores
    requires t.node in stores
  {
    stores[t.node := match t
                     case PutTask(_, k, v, ttl) => ApplyPut(stores[t.node], k, v, ttl, now)
                     case DeleteTask(_, k) => stores[t.node] - {k}]
  }

  // On a bounded store a put does just that while the size limit is not hit.
  lemma ApplyPutIsStorePut(s: StoreState, max: nat, k: Key, v: Value, ttl: Option<real>, now: real)
    requires ValidStore(s, max)
    requires k in s.entries || |s.order| < max || (ttl.Some? && ttl.value <= 0.0)
    ensures PutSpec(s, max, k, v, ttl, now).entries == ApplyPut(s.entries, k, v, ttl, now)
  {
    if ttl.None? || ttl.value > 0.0 {
      PutBelowCapacity(s, max, k, v, ttl, now);
    }
  }

  // ---------------------------------------------------------------------
  // Facts about plans.

  // A (node, key) pair is the target of at most one task of a plan.
  lemma TargetsAreUnique(p: Planning, snaps: Stores, t: Task, u: Task)
    requires t in PlannedTasks(p, snaps) && u in PlannedTasks(p, snaps)
    requires t.node == u.node && t.key == u.key
    ensures t == u
  {
    assert t in KeyTasks(p, t.key, CopiesOf(snaps, t.key)) && u in KeyTasks(p, u.key, CopiesOf(snaps, u.key));
  }

  // Tasks of one key.
  lemma PlannedForKey(p: Planning, snaps: Stores, k: Key)
    ensures forall t: Task | t.key == k :: t in PlannedTasks(p, snaps) <==> t in KeyTasks(p, k, CopiesOf(snaps, k))
  {
    forall t: Task | t.key == k && t in KeyTasks(p, k, CopiesOf(snaps, k)) ensures k in AllKeys(snaps) {
      SourceIsACopy(p, k, CopiesOf(snaps, k));
    }
  }

  lemma SourceIsACopy(p: Planning, k: Key, c: Copies)
    ensures Source(p, k, c).Some? ==> exists n :: n in c && c[n] == Source(p, k, c).value
  {
    FirstIsACopy(c, p.order);
  }

  lemma {:induction false} FirstIsACopy(c: Copies, order: seq<NodeId>)
    ensures FirstCopy(c, order).Some? ==> exists n :: n in c && c[n] == FirstCopy(c, order).value
    ensures FirstCopy(c, order).None? ==> forall n | n in order :: n !in c
  {
    if order == [] {
    } else {
      FirstIsACopy(c, order[1..]);
      assert forall n | n in order :: n == order[0] || n in order[1..];
    }
  }

  // The first copy is that of the first node in the order that has one.
  lemma {:induction false} FirstCopyIsFirst(c: Copies, order: seq<NodeId>) returns (i: nat)
    requires exists n :: n in order && n in c
    ensures i < |order| && order[i] in c && FirstCopy(c, order) == Some(c[order[i]])
    ensures forall j | 0 <= j < i :: order[j] !in c
  {
    if order[0] in c {
      i := 0;
    } else {
      assert forall n | n in order :: n == order[0] || n in order[1..];
      var j := FirstCopyIsFirst(c, order[1..]);
      i := j + 1;
      assert forall l | 0 <= l < i :: l == 0 || order[l] == order[1..][l - 1];
    }
  }

  // A put that migrates an entry as it was when the plan was made.
  predicate CarriesEntry(t: Task, e: Entry, now: real) {
    && t.PutTask? && t.value == e.value
    && t.ttl == if e.expiresAt.None? then None else Some(e.expiresAt.value - now)
  }

  // After an add a put carries the copy of the old primary if that node is
  // alive, or alone, and that of the old replica if the old primary is silent;
  // only if the node chosen has none does it carry the first copy there is.
  lemma AddPutsCarry(p: Planning, k: Key, c: Copies, t: Task)
    requires p.change == NodeAdded && t in KeyTasks(p, k, c) && t.PutTask?
    requires forall n | n in c :: n in p.order
    ensures OwnersOf(p.previous, p.hash(k)).primary.Some?
    ensures var a, b := OwnersOf(p.previous, p.hash(k)).primary.value.id, OwnersOf(p.previous, p.hash(k)).replica;
            && ((a in p.alive(k) || b.None?) && a in c ==> CarriesEntry(t, c[a], p.now))
            && (a !in p.alive(k) && b.Some? && b.value.id in c ==> CarriesEntry(t, c[b.value.id], p.now))
            && ((if a in p.alive(k) || b.None? then a !in c else b.value.id !in c) ==>
                  exists i | 0 <= i < |p.order| ::
                    p.order[i] in c && CarriesEntry(t, c[p.order[i]], p.now)
                    && forall j | 0 <= j < i :: p.order[j] !in c)
  {
    var a, b := OwnersOf(p.previous, p.hash(k)).primary.value.id, OwnersOf(p.previous, p.hash(k)).replica;
    if if a in p.alive(k) || b.None? then a !in c else b.value.id !in c {
      SourceIsACopy(p, k, c);
      var i := FirstCopyIsFirst(c, p.order);
    }
  }

  // After a removal it carries the new primary's copy, or else the old
  // replica's, or else the first one.
  lemma RemovePutsCarry(p: Planning, k: Key, c: Copies, t: Task)
    requires p.change == NodeRemoved && t in KeyTasks(p, k, c) && t.PutTask?
    requires forall n | n in c :: n in p.order
    ensures OwnersOf(p.current, p.hash(k)).primary.Some?
    ensures var a, b := OwnersOf(p.current, p.hash(k)).primary.value.id, OwnersOf(p.previous, p.hash(k)).replica;
            && (a in c ==> CarriesEntry(t, c[a], p.now))
            && (a !in c && b.Some? && b.value.id in c ==> CarriesEntry(t, c[b.value.id], p.now))
            && (a !in c && (b.None? || b.value.id !in c) ==>
                  exists i | 0 <= i < |p.order| ::
                    p.order[i] in c && CarriesEntry(t, c[p.order[i]], p.now)
                    && forall j | 0 <= j < i :: p.order[j] !in c)
  {
    var a, b := OwnersOf(p.current, p.hash(k)).primary.value.id, OwnersOf(p.previous, p.hash(k)).replica;
    if a !in c && (b.None? || b.value.id !in c) {
      SourceIsACopy(p, k, c);
      var i := FirstCopyIsFirst(c, p.order);
    }
  }

  // Exactly which tasks are planned for a key, given the entry they migrate.
  lemma PlannedIff(p: Planning, k: Key, c: Copies, e: Entry, t: Task)
    requires Source(p, k, c) == Some(e)
    ensures t in KeyTasks(p, k, c) <==>
              var before, after := OwnersOf(p.previous, p.hash(k)), OwnersOf(p.current, p.hash(k));
              && before.primary.Some? && after.primary.Some? && Ids(before) != Ids(after)
              && (e.expiresAt.Some? ==> p.now < e.expiresAt.value)
              && t.key == k && t.node in p.members
              && if t.PutTask? then t.node in Ids(after) && t.node !in c && CarriesEntry(t, e, p.now)
                 else t.node in c && t.node !in Ids(after)
  {
  }

  // The preferred source is an owner, alive if any owner is, and the primary
  // if that one is.
  lemma SourcePrefersTheLiving(o: Owners, alive: set<NodeId>)
    requires o.primary.Some?
    ensures var n := SourceNode(o, alive);
            && n.Some? && n.value.id in Ids(o)
            && (Ids(o) * alive != {} ==> n.value.id in alive)
            && (o.primary.value.id in alive ==> n == o.primary)
  {
    var n := SourceNode(o, alive);
    if Ids(o) * alive != {} {
      var id :| id in Ids(o) * alive;
      assert id == o.primary.value.id || (o.replica.Some? && id == o.replica.value.id);
    }
  }

  // Some copy is always found when the order lists all nodes that have one.
  lemma SourceExists(p: Planning, k: Key, c: Copies)
    requires c != map[] && forall n | n in c :: n in p.order
    ensures Source(p, k, c).Some?
  {
    FirstIsACopy(c, p.order);
    var n :| n in c;
  }

  // A planned put carries a positive ttl, so storing it never deletes.
  lemma PlannedPutsAreNotDeletes(p: Planning, snaps: Stores, t: Task)
    requires t in PlannedTasks(p, snaps) && t.PutTask? && t.ttl.Some?
    ensures t.ttl.value > 0.0
  {
    assert t in KeyTasks(p, t.key, CopiesOf(snaps, t.key));
  }

  // The copy a planned put makes expires later than its source by exactly the
  // time between planning and storing, never earlier.
  lemma MigratedExpiry(p: Planning, snaps: Stores, t: Task, contents: Contents, now: real)
    requires t in PlannedTasks(p, snaps) && t.PutTask?
    ensures var src := Source(p, t.key, CopiesOf(snaps, t.key)).value;
            var copy := ApplyPut(contents, t.key, t.value, t.ttl, now);
            && t.key in copy && copy[t.key].value == src.value
            && (src.expiresAt.None? ==> copy[t.key].expiresAt.None?)
            && (src.expiresAt.Some? ==>
                  copy[t.key].expiresAt == Some(src.expiresAt.value + (now - p.now)))
  {
    PlannedForKey(p, snaps, t.key);
  }

  // ---------------------------------------------------------------------
  // Chains of migrations.

  // One migration of an entry: planned, then stored by a put.
  datatype Hop = Hop(planned: real, stored: real)

  predicate Migrates(src: Entry, hop: Hop, copy: Entry) {
    && hop.planned <= hop.stored && !Expired(src, hop.planned)
    && copy == NewEntry(src.value, RemainingTtl(src, hop.planned), hop.stored)
  }

  function TotalDelay(hops: seq<Hop>): real {
    if hops == [] then 0.0 else TotalDelay(hops[..|hops| - 1]) + (hops[|hops| - 1].stored - hops[|hops| - 1].planned)
  }

  // Over any chain of migrations the expiry drifts by exactly the sum of the
  // delays between planning and storing, so an entry never expires early.
  lemma {:induction false} ChainDrift(entries: seq<Entry>, hops: seq<Hop>)
    requires |entries| == |hops| + 1
    requires forall i | 0 <= i < |hops| :: Migrates(entries[i], hops[i], entries[i + 1])
    ensures entries[|hops|].value == entries[0].value && TotalDelay(hops) >= 0.0
    ensures entries[|hops|].expiresAt == if entries[0].expiresAt.None? then None
                                         else Some(entries[0].expiresAt.value + TotalDelay(hops))
  {
    if hops == [] {
    } else {
      var i := |hops| - 1;
      ChainDrift(entries[..i + 1], hops[..i]);
      assert Migrates(entries[i], hops[i], entries[i + 1]);
    }
  }
}
