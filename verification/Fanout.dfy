/** What Broadcast in backend/internal/streaming/hub.go does to the listeners' queues, and
how it cuts the listener snapshot into shards. */
module Fanout {

  // The largest batch that one goroutine of a broadcast gets.
  const SHARD_SIZE := 100

  // A non-blocking send to a buffered channel of the given capacity.
  function Offer<T>(queue: seq<T>, x: T, capacity: nat): seq<T> {
    if |queue| < capacity then queue + [x] else queue
  }

  predicate Distinct<T(==)>(s: seq<T>) {
    forall i, j :: 0 <= i < j < |s| ==> s[i] != s[j]
  }

  function ShardCount(n: nat): nat {
    (n + SHARD_SIZE - 1) / SHARD_SIZE
  }

  function ShardEnd(n: nat, j: nat): nat {
    if j * SHARD_SIZE + SHARD_SIZE <= n then j * SHARD_SIZE + SHARD_SIZE else n
  }

  function Batch<T>(entries: seq<T>, j: nat): seq<T>
    requires j < ShardCount(|entries|)
  {
    entries[j * SHARD_SIZE..ShardEnd(|entries|, j)]
  }

  function Batches<T>(entries: seq<T>): seq<seq<T>> {
    seq(ShardCount(|entries|), j requires 0 <= j < ShardCount(|entries|) => Batch(entries, j))
  }

  function Concat<T>(parts: seq<seq<T>>): seq<T> {
    if parts == [] then [] else Concat(parts[..|parts|-1]) + parts[|parts|-1]
  }

  lemma {:induction false} ConcatOfBatches<T>(entries: seq<T>, j: nat)
    requires j <= ShardCount(|entries|)
    ensures Concat(Batches(entries)[..j])
         == entries[..if j * SHARD_SIZE <= |entries| then j * SHARD_SIZE else |entries|]
  {
    if j == 0 {
    } else {
      ConcatOfBatches(entries, j - 1);
      var parts := Batches(entries)[..j];
      assert parts[..|parts|-1] == Batches(entries)[..j-1];
      assert parts[|parts|-1] == Batch(entries, j - 1);
    }
  }

  /** The shards are non-empty, hold 100 entries each, the last at most, and put together
      they are the snapshot: no gap, no overlap, nothing out of range. */
  lemma ShardsPartition<T>(entries: seq<T>)
    ensures forall j :: 0 <= j < |Batches(entries)| ==> 0 < |Batches(entries)[j]| <= 100
    ensures forall j :: 0 <= j < |Batches(entries)| - 1 ==> |Batches(entries)[j]| == 100
    ensures Concat(Batches(entries)) == entries
  {
    ConcatOfBatches(entries, ShardCount(|entries|));
    assert Batches(entries)[..ShardCount(|entries|)] == Batches(entries);
  }

  // Two positions in the shards that hold the same entry are one position.
  ghost predicate NoOverlap<T(!new)>(shards: seq<seq<T>>) {
    forall j1, k1, j2, k2 ::
      (&& 0 <= j1 < |shards| && 0 <= k1 < |shards[j1]|
       && 0 <= j2 < |shards| && 0 <= k2 < |shards[j2]|
       && shards[j1][k1] == shards[j2][k2]) ==> j1 == j2 && k1 == k2
  }

  ghost predicate InShards<T(!new)>(shards: seq<seq<T>>, x: T) {
    exists j :: 0 <= j < |shards| && x in shards[j]
  }

  lemma BatchPosition<T>(entries: seq<T>, j: nat, k: nat)
    requires j < ShardCount(|entries|) && k < |Batch(entries, j)|
    ensures j * SHARD_SIZE + k < |entries| && Batch(entries, j)[k] == entries[j * SHARD_SIZE + k]
  {
  }

  lemma BatchesDoNotOverlap<T(!new)>(entries: seq<T>)
    requires Distinct(entries)
    ensures NoOverlap(Batches(entries))
  {
    var shards := Batches(entries);
    forall j1, k1, j2, k2 | 0 <= j1 < |shards| && 0 <= k1 < |shards[j1]| && 0 <= j2 < |shards| && 0 <= k2 < |shards[j2]|
        && shards[j1][k1] == shards[j2][k2]
      ensures j1 == j2 && k1 == k2
    {
      BatchPosition(entries, j1, k1);
      BatchPosition(entries, j2, k2);
      assert j1 * SHARD_SIZE + k1 == j2 * SHARD_SIZE + k2;
    }
  }

  lemma InBatches<T(!new)>(entries: seq<T>, x: T)
    ensures InShards(Batches(entries), x) <==> x in entries
  {
    var shards := Batches(entries);
    if x in entries {
      var i :| 0 <= i < |entries| && entries[i] == x;
      var j, k := i / SHARD_SIZE, i % SHARD_SIZE;
      BatchPosition(entries, j, k);
      assert shards[j][k] == x;
    }
  }

  // ---------------------------------------------------------------------
  // What a broadcast does to the queues
  // ---------------------------------------------------------------------

  // The queues after a chunk has been offered to the listeners in ids.
  function Delivered<K, T>(q: map<K, seq<T>>, ids: set<K>, x: T, capacity: nat): map<K, seq<T>> {
    map id | id in q :: if id in ids then Offer(q[id], x, capacity) else q[id]
  }

  // The listeners in ids whose queue is full.
  function Full<K, T>(q: map<K, seq<T>>, ids: set<K>, capacity: nat): set<K> {
    set id | id in ids && id in q && |q[id]| >= capacity
  }

  // When shards see the broadcaster's context cancelled: shard j gives up after
  // quits[j] entries; a shard that is not mentioned never sees it.
  type Quits = map<nat, nat>

  // The entry at position m of the snapshot is handled by its shard.
  predicate Reaches(quits: Quits, m: nat) {
    m / SHARD_SIZE in quits ==> m % SHARD_SIZE < quits[m / SHARD_SIZE]
  }

  // The listeners handled at the first n positions of the snapshot.
  function Handled<K(==)>(order: seq<K>, quits: Quits, n: nat): set<K>
    requires n <= |order|
  {
    set m: nat | m < n && Reaches(quits, m) :: order[m]
  }

  function Bounded<K>(order: seq<K>, n: nat): nat {
    if n <= |order| then n else |order|
  }

  lemma NextShard(from: nat)
    requires from % SHARD_SIZE == 0
    ensures (from + SHARD_SIZE) % SHARD_SIZE == 0
  {
  }

  lemma SameShard(from: nat, k: nat)
    requires from % SHARD_SIZE == 0 && k < SHARD_SIZE
    ensures (from + k) / SHARD_SIZE == from / SHARD_SIZE && (from + k) % SHARD_SIZE == k
  {
  }

  lemma HandledOneMore<K>(order: seq<K>, quits: Quits, n: nat)
    requires n < |order| && Distinct(order) && Reaches(quits, n)
    ensures order[n] !in Handled(order, quits, n)
    ensures Handled(order, quits, n + 1) == Handled(order, quits, n) + {order[n]}
  {
  }

  lemma GivesUp<K>(order: seq<K>, quits: Quits, from: nat, k: nat)
    requires from % SHARD_SIZE == 0 && k < SHARD_SIZE && from + k <= |order| && !Reaches(quits, from + k)
    ensures Handled(order, quits, Bounded(order, from + SHARD_SIZE)) == Handled(order, quits, from + k)
  {
    SameShard(from, k);
    forall m: nat | from + k <= m < from + SHARD_SIZE ensures !Reaches(quits, m) {
      SameShard(from, m - from);
    }
  }

  lemma DeliverOneMore<K, T>(before: map<K, seq<T>>, reached: set<K>, id: K, x: T, capacity: nat)
    requires id !in reached && id in before
    ensures var now := Delivered(before, reached, x, capacity);
            && id in now && now[id] == before[id]
            && Delivered(before, reached + {id}, x, capacity)
               == (if |before[id]| < capacity then now[id := before[id] + [x]] else now)
            && |Full(before, reached + {id}, capacity)|
               == |Full(before, reached, capacity)| + (if |before[id]| < capacity then 0 else 1)
  {
    var full := Full(before, reached, capacity);
    assert Full(before, reached + {id}, capacity) == if |before[id]| < capacity then full else full + {id};
  }

  // The position of a shard's entry in the snapshot tells the shard and the place in it.
  lemma ShardPosition<K>(order: seq<K>, j: nat, k: nat)
    requires j < |Batches(order)| && k < |Batches(order)[j]|
    ensures var m := j * SHARD_SIZE + k;
            m < |order| && Batches(order)[j][k] == order[m] && m / SHARD_SIZE == j && m % SHARD_SIZE == k
  {
    BatchPosition(order, j, k);
    SameShard(j * SHARD_SIZE, k);
  }

  // Every position of the snapshot is in a shard.
  lemma PositionShard<K>(order: seq<K>, m: nat)
    requires m < |order|
    ensures m / SHARD_SIZE < |Batches(order)| && m % SHARD_SIZE < |Batches(order)[m / SHARD_SIZE]|
    ensures Batches(order)[m / SHARD_SIZE][m % SHARD_SIZE] == order[m]
  {
    BatchPosition(order, m / SHARD_SIZE, m % SHARD_SIZE);
  }

  // No shard gives up: every listener of the snapshot is handled.
  lemma AllReached<K>(order: seq<K>, ids: set<K>)
    requires forall id :: id in order <==> id in ids
    ensures Handled(order, map[], |order|) == ids
  {
    forall id | id in ids ensures id in Handled(order, map[], |order|) {
      var m :| 0 <= m < |order| && order[m] == id;
      assert Reaches(map[], m);
    }
  }
}
