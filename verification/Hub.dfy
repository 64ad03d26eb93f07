/** The Hub of backend/internal/streaming/hub.go as a class, with the nested shard
loops of Broadcast run one shard after the other. */
module Hub {
  import opened Fanout

  type Chunk = seq<bv8>

  // The listeners map: each registered id with what its buffered channel holds.
  type Queues = map<string, seq<Chunk>>

  class Hub {
    const bufferSize: nat
    var listeners: Queues
    var done: bool
    // The ChunkDropped counter.
    var dropped: nat
    // The listeners whose channel has been closed, in order.
    var closed: seq<string>

    ghost predicate Valid()
      reads this
    {
      forall id :: id in listeners ==> |listeners[id]| <= bufferSize
    }

    constructor (bufferSize: nat)
      ensures Valid() && this.bufferSize == bufferSize && listeners == map[] && !done && dropped == 0 && closed == []
    {
      this.bufferSize, listeners, done, dropped, closed := bufferSize, map[], false, 0, [];
    }

    // Cancels the hub's context; no channel is closed here.
    method Close()
      modifies this`done
      ensures done
    {
      done := true;
    }

    method Subscribe(id: string)
      requires Valid()
      modifies this`listeners
      ensures Valid() && listeners == old(listeners)[id := []]
    {
      listeners := listeners[id := []];
    }

    // Closes the channel of a registered listener; another id has none to close.
    method Unsubscribe(id: string)
      requires Valid()
      modifies this`listeners, this`closed
      ensures Valid() && listeners == old(listeners) - {id}
      ensures closed == old(closed) + if id in old(listeners) then [id] else []
    {
      if id in listeners {
        closed := closed + [id];
        listeners := listeners - {id};
      }
    }

    // The entries of the listeners map, in the arbitrary order of a map range.
    method Snapshot() returns (order: seq<string>)
      ensures Distinct(order) && forall id :: id in order <==> id in listeners
    {
      order := [];
      var rest := listeners.Keys;
      while rest != {}
        invariant Distinct(order) && rest <= listeners.Keys
        invariant forall id :: id in order <==> id in listeners && id !in rest
        decreases rest
      {
        var id :| id in rest;
        order, rest := order + [id], rest - {id};
      }
    }

    /** Fans out a chunk.  `order` is the snapshot of the listener entries.  Exactly the
        entries their shard reaches before it sees the context cancelled are offered the
        chunk, once each; every full queue met is counted as a drop and keeps what it
        holds.  With an uncancelled context that is every listener. */
    method Broadcast(quits: Quits, chunk: Chunk) returns (ghost order: seq<string>)
      requires Valid()
      modifies this`listeners, this`dropped
      ensures Valid()
      ensures Distinct(order) && forall id :: id in order <==> id in old(listeners)
      ensures listeners == Delivered(old(listeners), Handled(order, quits, |order|), chunk, bufferSize)
      ensures dropped == old(dropped) + |Full(old(listeners), Handled(order, quits, |order|), bufferSize)|
      ensures quits == map[] ==> Handled(order, quits, |order|) == old(listeners).Keys
    {
      var entries := Snapshot();
      order := entries;
      var i := 0;
      while i < |entries|
        invariant 0 <= i && i % SHARD_SIZE == 0
        invariant Reached(old(listeners), old(dropped), Handled(order, quits, Bounded(order, i)), chunk)
      {
        var batch := entries[i..if i + SHARD_SIZE <= |entries| then i + SHARD_SIZE else |entries|];
        HandleShard(quits, chunk, i, batch, entries, old(listeners), old(dropped));
        NextShard(i);
        i := i + SHARD_SIZE;
      }
      AllReached(order, old(listeners).Keys);
    }

    // The state reached, from the given queues and drop counter, when exactly the
    // listeners in `ids` have been handled.
    ghost predicate Reached(before: Queues, drops: nat, ids: set<string>, chunk: Chunk)
      reads this
    {
      && listeners == Delivered(before, ids, chunk, bufferSize)
      && dropped == drops + |Full(before, ids, bufferSize)|
    }

    // One goroutine: the entries of the batch that starts at position `from`, in order.
    method HandleShard(quits: Quits, chunk: Chunk, from: nat, batch: seq<string>,
                       ghost order: seq<string>, ghost before: Queues, ghost drops: nat)
      requires Distinct(order) && forall id :: id in order ==> id in before
      requires from % SHARD_SIZE == 0 && from < |order| && batch == order[from..Bounded(order, from + SHARD_SIZE)]
      requires Reached(before, drops, Handled(order, quits, from), chunk)
      modifies this`listeners, this`dropped
      ensures Reached(before, drops, Handled(order, quits, Bounded(order, from + SHARD_SIZE)), chunk)
    {
      var k := 0;
      ghost var ids := Handled(order, quits, from);
      while k < |batch| && Reaches(quits, from + k)
        invariant 0 <= k <= |batch|
        invariant ids == Handled(order, quits, from + k) && Reached(before, drops, ids, chunk)
      {
        HandledOneMore(order, quits, from + k);
        HandleEntry(batch[k], chunk, before, drops, ids);
        ids, k := ids + {batch[k]}, k + 1;
      }
      if k < |batch| { GivesUp(order, quits, from, k); }
    }

    // The select statement for one entry when the context is not seen cancelled.
    method HandleEntry(id: string, chunk: Chunk, ghost before: Queues, ghost drops: nat, ghost ids: set<string>)
      requires id in before && id !in ids && Reached(before, drops, ids, chunk)
      modifies this`listeners, this`dropped
      ensures Reached(before, drops, ids + {id}, chunk)
    {
      DeliverOneMore(before, ids, id, chunk, bufferSize);
      if |listeners[id]| < bufferSize {
        listeners := listeners[id := listeners[id] + [chunk]];
      } else {
        dropped := dropped + 1;
      }
    }
  }
}
