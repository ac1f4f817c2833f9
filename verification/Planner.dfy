// The planning loops of a rebalance, as the program runs them.
module Planner {
  import opened Types
  import opened Ring
  import opened HashRing
  import opened Routing
  import opened Manager
  import opened Migration

  ghost predicate Distinct(s: seq<Task>) {
    forall i, j | 0 <= i < j < |s| :: s[i] != s[j]
  }

  ghost function Elements(s: seq<Task>): set<Task> {
    set t | t in s
  }

  lemma AppendTask(s: seq<Task>, t: Task)
    requires Distinct(s) && t !in Elements(s)
    ensures Distinct(s + [t]) && Elements(s + [t]) == Elements(s) + {t}
  {
    assert forall i | 0 <= i < |s| :: s[i] in Elements(s);
  }

  lemma AppendTasks(s: seq<Task>, t: seq<Task>)
    requires Distinct(s) && Distinct(t) && Elements(s) !! Elements(t)
    ensures Distinct(s + t) && Elements(s + t) == Elements(s) + Elements(t)
  {
    assert forall i | 0 <= i < |s| :: s[i] in Elements(s);
    assert forall i | 0 <= i < |t| :: t[i] in Elements(t);
  }

  // Two task lists hold each of a set of tasks exactly once.
  ghost predicate Schedules(puts: seq<Task>, deletes: seq<Task>, tasks: set<Task>) {
    && Distinct(puts) && Distinct(deletes) && Elements(puts) !! Elements(deletes)
    && Elements(puts) + Elements(deletes) == tasks
  }

  lemma MergeSchedules(puts: seq<Task>, deletes: seq<Task>, tasks: set<Task>,
                       morePuts: seq<Task>, moreDeletes: seq<Task>, more: set<Task>)
    requires Schedules(puts, deletes, tasks) && Schedules(morePuts, moreDeletes, more) && tasks !! more
    ensures Schedules(puts + morePuts, deletes + moreDeletes, tasks + more)
  {
    AppendTasks(puts, morePuts);
    AppendTasks(deletes, moreDeletes);
  }

  // Put and delete tasks are in their own lists, each planned task exactly once
  // and nothing else.
  lemma SchedulesMean(puts: seq<Task>, deletes: seq<Task>, tasks: set<Task>, t: Task)
    requires Schedules(puts, deletes, tasks)
    ensures multiset(puts + deletes)[t] == if t in tasks then 1 else 0
  {
    OnceAtMost(puts, t);
    OnceAtMost(deletes, t);
    assert multiset(puts + deletes)[t] == multiset(puts)[t] + multiset(deletes)[t];
    assert t in puts <==> t in Elements(puts);
    assert t in deletes <==> t in Elements(deletes);
  }

  lemma {:induction false} OnceAtMost(s: seq<Task>, t: Task)
    requires Distinct(s)
    ensures multiset(s)[t] == if t in s then 1 else 0
  {
    if s == [] {
    } else {
      assert s == [s[0]] + s[1..];
      OnceAtMost(s[1..], t);
    }
  }

  // The dictionary order of the snapshots: each node once.
  ghost predicate Lists(order: seq<NodeId>, snaps: Stores) {
    && (forall n :: n in order <==> n in snaps)
    && forall i, j | 0 <= i < j < |order| :: order[i] != order[j]
  }

  lemma TasksOfAMove(p: Planning, k: Key, c: Copies)
    ensures !OwnersChange(p, k) || Source(p, k, c).None? ==> KeyTasks(p, k, c) == {}
    ensures OwnersChange(p, k) && Source(p, k, c).Some? ==>
              var src, owners := Source(p, k, c).value, OwnerIds(p.current, p.hash(k));
              KeyTasks(p, k, c) == if Expired(src, p.now) then {} else
                PutsTo(owners * p.members - c.Keys, k, src.value, RemainingTtl(src, p.now))
                + DeletesFrom(c.Keys * p.members - owners, k)
  {
  }

  // One more node looked at for a put.
  lemma PutsToOneMore(owners: set<NodeId>, todo: set<NodeId>, n: NodeId, members: set<NodeId>, holders: set<NodeId>)
    requires n in todo && todo <= owners
    ensures (owners - (todo - {n})) * members - holders
         == (owners - todo) * members - holders + if n in members && n !in holders then {n} else {}
  {
  }

  lemma PutsToGrows(nodes: set<NodeId>, n: NodeId, k: Key, v: Value, ttl: Option<real>)
    requires n !in nodes
    ensures PutsTo(nodes + {n}, k, v, ttl) == PutsTo(nodes, k, v, ttl) + {PutTask(n, k, v, ttl)}
    ensures PutTask(n, k, v, ttl) !in PutsTo(nodes, k, v, ttl)
    ensures PutsTo(nodes + {}, k, v, ttl) == PutsTo(nodes, k, v, ttl)
  {
    assert nodes + {} == nodes;
  }

  // The owners of a key on one of the rings.
  method OwnersOn(ring: ConsistentHashRing, key: Key) returns (o: Owners)
    requires ring.Valid()
    ensures o == OwnersOf(ring.vnodes, ring.hash(key))
  {
    var primary := ring.GetNode(key);
    if primary.None? {
      return Owners(None, None);
    }
    var replica := ring.GetSuccessorForKey(key, Some(primary.value.id));
    return Owners(primary, replica);
  }

  // Who looks alive when each key is planned.
  function AliveLooks(beats: Heartbeats, timeout: real, look: Key -> real): Key -> set<NodeId> {
    (k: Key) => AliveAt(beats, timeout, look(k))
  }

  // A node looks alive for a key if it was heard from within the timeout when
  // that key was planned.
  lemma AliveLooksMean(beats: Heartbeats, timeout: real, look: Key -> real, k: Key, id: NodeId)
    ensures id in AliveLooks(beats, timeout, look)(k) <==> id in beats && look(k) <= beats[id] + timeout
  {
    assert AliveLooks(beats, timeout, look)(k) == AliveAt(beats, timeout, look(k));
    AliveUntilTheTimeout(beats, timeout, id, look(k));
  }

  // What the loops of one rebalance read.
  datatype Rebalancing = Rebalancing(change: Change, manager: ClusterManager,
                                     previous: ConsistentHashRing, current: ConsistentHashRing)
  {
    ghost predicate Valid()
      reads manager, manager.ring, previous, current
    {
      manager.Valid() && previous.Valid() && current.Valid() && previous.hash == current.hash
    }

    // The planning situation these objects describe.
    ghost function Situation(members: set<NodeId>, order: seq<NodeId>, now: real, look: Key -> real): Planning
      reads manager, previous, current
    {
      Planning(change, current.hash, previous.vnodes, current.vnodes,
               AliveLooks(manager.lastHeartbeat, manager.timeout, look), members, order, now)
    }

    // _source_node_id_for_key on the previous ring
    method SourceNodeForKey(key: Key, now: real) returns (r: Option<Node>)
      requires Valid()
      ensures r == SourceNode(OwnersOf(previous.vnodes, previous.hash(key)),
                              AliveAt(manager.lastHeartbeat, manager.timeout, now))
    {
      var primary := previous.GetNode(key);
      if primary.None? {
        return None;
      }
      var replica := previous.GetSuccessorForKey(key, Some(primary.value.id));
      if manager.IsAlive(primary.value.id, now) {
        return primary;
      }
      if replica.Some? {
        return replica;
      }
      return primary;
    }

    // _get_first_entry_snapshot
    method FirstEntry(snaps: Stores, order: seq<NodeId>, key: Key) returns (r: Option<Entry>)
      requires Lists(order, snaps)
      ensures r == FirstCopy(CopiesOf(snaps, key), order)
    {
      for i := 0 to |order|
        invariant FirstCopy(CopiesOf(snaps, key), order) == FirstCopy(CopiesOf(snaps, key), order[i..])
      {
        assert order[i] in order && order[i..][1..] == order[i + 1..];
        if key in snaps[order[i]] {
          return Some(snaps[order[i]][key]);
        }
      }
      return None;
    }

    // The two ways of choosing the copy to migrate from.
    method SourceEntry(snaps: Stores, order: seq<NodeId>, key: Key, look: Key -> real, ghost p: Planning,
                       oldReplica: Option<Node>, newPrimary: Node)
      returns (r: Option<Entry>)
      requires Valid() && Lists(order, snaps)
      requires p == Situation(p.members, order, p.now, look)
      requires OwnersOf(p.previous, p.hash(key)).replica == oldReplica
      requires OwnersOf(p.current, p.hash(key)).primary == Some(newPrimary)
      ensures r == Source(p, key, CopiesOf(snaps, key))
    {
      match change {
        case NodeAdded =>
          var source := SourceNodeForKey(key, look(key));
          r := EntryAt(snaps, key, source);
        case NodeRemoved =>
          r := EntryAt(snaps, key, Some(newPrimary));
          if r.None? && oldReplica.Some? {
            r := EntryAt(snaps, key, oldReplica);
          }
      }
      if r.None? {
        r := FirstEntry(snaps, order, key);
      }
    }

    // _get_entry_snapshot
    function EntryAt(snaps: Stores, key: Key, n: Option<Node>): (r: Option<Entry>)
      ensures r == CopyAtNode(CopiesOf(snaps, key), n)
    {
      if n.Some? && n.value.id in snaps && key in snaps[n.value.id] then Some(snaps[n.value.id][key]) else None
    }

    // The puts and deletes for one key.
    method PlanKey(snaps: Stores, order: seq<NodeId>, members: set<NodeId>, key: Key, now: real, look: Key -> real)
      returns (puts: seq<Task>, deletes: seq<Task>)
      requires Valid() && Lists(order, snaps)
      ensures Schedules(puts, deletes, KeyTasks(Situation(members, order, now, look), key, CopiesOf(snaps, key)))
    {
      puts, deletes := [], [];
      ghost var p, c := Situation(members, order, now, look), CopiesOf(snaps, key);
      TasksOfAMove(p, key, c);
      var before := OwnersOn(previous, key);
      if before.primary.None? {
        return;
      }
      var after := OwnersOn(current, key);
      if after.primary.None? {
        return;
      }
      if Ids(before) == Ids(after) {
        return;
      }
      var source := SourceEntry(snaps, order, key, look, p, before.replica, after.primary.value);
      if source.None? {
        return;
      }
      puts, deletes := PlanMoves(snaps, order, members, Ids(after), key, source.value, now);
    }

    // The tasks for a key whose owners changed and whose source is known.
    method PlanMoves(snaps: Stores, order: seq<NodeId>, members: set<NodeId>, owners: set<NodeId>, key: Key,
                     source: Entry, now: real)
      returns (puts: seq<Task>, deletes: seq<Task>)
      requires Lists(order, snaps)
      ensures Distinct(puts) && Distinct(deletes) && Elements(puts) !! Elements(deletes)
      ensures Elements(puts) == if Expired(source, now) then {} else
                PutsTo(owners * members - CopiesOf(snaps, key).Keys, key, source.value, RemainingTtl(source, now))
      ensures Elements(deletes) == if Expired(source, now) then {} else
                DeletesFrom(CopiesOf(snaps, key).Keys * members - owners, key)
    {
      puts, deletes := [], [];
      var ttl: Option<real> := None;
      if source.expiresAt.Some? {
        var left := if source.expiresAt.value - now > 0.0 then source.expiresAt.value - now else 0.0;
        if left <= 0.0 {
          return;
        }
        ttl := Some(left);
      }
      puts := PlanPuts(snaps, members, owners, key, source.value, ttl);
      deletes := PlanDeletes(snaps, order, members, owners, key);
    }

    method PlanPuts(snaps: Stores, members: set<NodeId>, owners: set<NodeId>, key: Key, value: Value, ttl: Option<real>)
      returns (puts: seq<Task>)
      ensures Distinct(puts)
      ensures Elements(puts) == PutsTo(owners * members - CopiesOf(snaps, key).Keys, key, value, ttl)
    {
      puts := [];
      var todo := owners;
      while todo != {}
        invariant todo <= owners && Distinct(puts)
        invariant Elements(puts) == PutsTo((owners - todo) * members - CopiesOf(snaps, key).Keys, key, value, ttl)
        decreases |todo|
      {
        var n :| n in todo;
        PutsToOneMore(owners, todo, n, members, CopiesOf(snaps, key).Keys);
        PutsToGrows((owners - todo) * members - CopiesOf(snaps, key).Keys, n, key, value, ttl);
        todo := todo - {n};
        if n in members && !(n in snaps && key in snaps[n]) {
          AppendTask(puts, PutTask(n, key, value, ttl));
          puts := puts + [PutTask(n, key, value, ttl)];
        }
      }
      assert (owners - todo) * members == owners * members;
    }

    method PlanDeletes(snaps: Stores, order: seq<NodeId>, members: set<NodeId>, owners: set<NodeId>, key: Key)
      returns (deletes: seq<Task>)
      requires Lists(order, snaps)
      ensures Distinct(deletes)
      ensures Elements(deletes) == DeletesFrom(CopiesOf(snaps, key).Keys * members - owners, key)
    {
      deletes := [];
      ghost var passed: set<NodeId> := {};
      for i := 0 to |order|
        invariant passed == set n | n in order[..i]
        invariant Distinct(deletes)
        invariant Elements(deletes) == DeletesFrom(CopiesOf(snaps, key).Keys * passed * members - owners, key)
      {
        var n := order[i];
        assert n in order && n !in passed;
        ghost var before := CopiesOf(snaps, key).Keys * passed * members - owners;
        passed := passed + {n};
        ghost var after := CopiesOf(snaps, key).Keys * passed * members - owners;
        if n !in owners && key in snaps[n] && n in members {
          assert after == before + {n};
          AppendTask(deletes, DeleteTask(n, key));
          deletes := deletes + [DeleteTask(n, key)];
        } else {
          assert after == before;
        }
      }
      assert CopiesOf(snaps, key).Keys * passed == CopiesOf(snaps, key).Keys by {
        assert forall n | n in snaps :: n in order[..|order|];
      }
    }

    // The whole planning loop.
    method PlanAll(snaps: Stores, order: seq<NodeId>, members: set<NodeId>, now: real, look: Key -> real)
      returns (puts: seq<Task>, deletes: seq<Task>)
      requires Valid() && Lists(order, snaps)
      ensures Schedules(puts, deletes, PlannedTasks(Situation(members, order, now, look), snaps))
    {
      puts, deletes := [], [];
      ghost var p := Situation(members, order, now, look);
      var keys := AllKeys(snaps);
      var todo := keys;
      while todo != {}
        invariant todo <= keys
        invariant Schedules(puts, deletes, PlannedFor(p, snaps, keys - todo))
        decreases |todo|
      {
        var key :| key in todo;
        var morePuts, moreDeletes := PlanKey(snaps, order, members, key, now, look);
        PlannedForOneMore(p, snaps, keys - todo, key);
        MergeSchedules(puts, deletes, PlannedFor(p, snaps, keys - todo),
                       morePuts, moreDeletes, KeyTasks(p, key, CopiesOf(snaps, key)));
        assert keys - (todo - {key}) == keys - todo + {key};
        todo := todo - {key};
        puts, deletes := puts + morePuts, deletes + moreDeletes;
      }
      assert keys - todo == keys;
    }
  }

  lemma PlannedForOneMore(p: Planning, snaps: Stores, keys: set<Key>, k: Key)
    requires k !in keys
    ensures PlannedFor(p, snaps, keys + {k}) == PlannedFor(p, snaps, keys) + KeyTasks(p, k, CopiesOf(snaps, k))
    ensures PlannedFor(p, snaps, keys) !! KeyTasks(p, k, CopiesOf(snaps, k))
  {
    KeyTasksHaveTheKey(p, k, CopiesOf(snaps, k));
    PlannedForTheKeys(p, snaps, keys);
    forall t ensures t in PlannedFor(p, snaps, keys + {k})
                <==> t in PlannedFor(p, snaps, keys) || t in KeyTasks(p, k, CopiesOf(snaps, k))
    {
    }
  }

  lemma KeyTasksHaveTheKey(p: Planning, k: Key, c: Copies)
    ensures forall t | t in KeyTasks(p, k, c) :: t.key == k
  {
  }

  lemma PlannedForTheKeys(p: Planning, snaps: Stores, keys: set<Key>)
    ensures forall t | t in PlannedFor(p, snaps, keys) :: t.key in keys
  {
    forall t | t in PlannedFor(p, snaps, keys) ensures t.key in keys {
      var k :| k in keys && t in KeyTasks(p, k, CopiesOf(snaps, k));
      KeyTasksHaveTheKey(p, k, CopiesOf(snaps, k));
    }
  }
}
