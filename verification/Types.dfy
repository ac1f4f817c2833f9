// Vocabulary shared by every layer: node records, cache entries and options.
module Types {
  type Key = string
  type NodeId = string

  // A cached value.  Nothing in the cache looks inside one.  A stored Python
  // None reads back as "missing", so values here are the non-None ones.
  type Value(==, !new, 00)

  datatype Option<+T> = None | Some(value: T)

  datatype Node = Node(id: NodeId, host: string, port: int)

  datatype Entry = Entry(value: Value, expiresAt: Option<real>)

  // What one node stores, and what all nodes store.
  type Contents = map<Key, Entry>
  type Stores = map<NodeId, Contents>

  // A replica write waiting on the background loop.
  datatype QueuedWrite = QueuedWrite(node: NodeId, key: Key, value: Value, ttl: Option<real>)

  predicate Expired(e: Entry, now: real) {
    e.expiresAt.Some? && now >= e.expiresAt.value
  }

  // Successive readings of time.monotonic().
  ghost predicate Nondecreasing(clock: nat -> real) {
    forall i: nat, j: nat :: i <= j ==> clock(i) <= clock(j)
  }
}
