/** The streams table and the stream service, one call at a time
(backend/internal/streaming/repository.go and service.go). */
module Streams {
  import opened Counting
  import opened Outcomes
  import H = Hub

  // A row; ids are row numbers, so no id is used twice.
  datatype Stream = Stream(broadcaster: string, title: string, live: bool)

  datatype Error = NotFound | AlreadyLive | DatabaseError

  predicate HasLive(rows: seq<Stream>, broadcaster: string) {
    exists i :: 0 <= i < |rows| && rows[i].live && rows[i].broadcaster == broadcaster
  }

  // The partial unique index on broadcaster_id where status = 'live'.
  ghost predicate OneLive(rows: seq<Stream>) {
    forall i, j :: 0 <= i < j < |rows| && rows[i].live && rows[j].live ==> rows[i].broadcaster != rows[j].broadcaster
  }

  // The update's WHERE clause; an empty broadcaster matches any owner.
  predicate Matches(rows: seq<Stream>, id: nat, broadcaster: string) {
    id < |rows| && rows[id].live && (broadcaster == "" || rows[id].broadcaster == broadcaster)
  }

  function Alive(s: Stream): int { if s.live then 1 else 0 }

  function Ended(rows: seq<Stream>, id: nat): seq<Stream>
    requires id < |rows|
  {
    rows[id := rows[id].(live := false)]
  }

  class Repository {
    var rows: seq<Stream>

    constructor (rows: seq<Stream>)
      ensures this.rows == rows
    {
      this.rows := rows;
    }

    // `fault` is a database error other than a unique violation.
    method Create(broadcaster: string, title: string, fault: bool) returns (r: Result<nat, Error>)
      modifies this
      ensures r == if fault then Err(DatabaseError)
                   else if exists i :: && 0 <= i < |old(rows)|
                                       && old(rows)[i].live && old(rows)[i].broadcaster == broadcaster
                   then Err(AlreadyLive)
                   else Ok(|old(rows)|)
      ensures rows == if r.Ok? then old(rows) + [Stream(broadcaster, title, true)] else old(rows)
      ensures OneLive(old(rows)) ==> OneLive(rows)
    {
      if fault {
        return Err(DatabaseError);
      }
      if HasLive(rows, broadcaster) {
        return Err(AlreadyLive);
      }
      r := Ok(|rows|);
      rows := rows + [Stream(broadcaster, title, true)];
    }

    method End(id: nat, broadcaster: string, fault: bool) returns (r: Result<Stream, Error>)
      modifies this
      ensures r.Ok? <==> && !fault && id < |old(rows)| && old(rows)[id].live
                         && (broadcaster == "" || old(rows)[id].broadcaster == broadcaster)
      ensures r.Err? ==> rows == old(rows) && r.error == (if fault then DatabaseError else NotFound)
      ensures r.Ok? ==> rows == old(rows)[id := old(rows)[id].(live := false)] && r.value == rows[id]
      ensures OneLive(old(rows)) ==> OneLive(rows)
    {
      if fault {
        return Err(DatabaseError);
      }
      if !Matches(rows, id, broadcaster) {
        return Err(NotFound);
      }
      rows := rows[id := rows[id].(live := false)];
      return Ok(rows[id]);
    }

    // The live rows, newest first.
    method ListLive() returns (ids: seq<nat>)
      ensures forall id: nat :: id in ids <==> id < |rows| && rows[id].live
      ensures forall i, j :: 0 <= i < j < |ids| ==> ids[i] > ids[j]
    {
      ids := [];
      var n := |rows|;
      while n > 0
        invariant n <= |rows|
        invariant forall id: nat :: id in ids <==> n <= id < |rows| && rows[id].live
        invariant forall i, j :: 0 <= i < j < |ids| ==> ids[i] > ids[j]
      {
        n := n - 1;
        if rows[n].live {
          assert forall i :: 0 <= i < |ids| ==> ids[i] in ids;
          ids := ids + [n];
        }
      }
    }
  }

  // ---------------------------------------------------------------------
  // What the two calls do
  // ---------------------------------------------------------------------

  // The table, the ids in the hub pool and the live-stream gauge.
  datatype Snapshot = Snapshot(rows: seq<Stream>, pool: set<nat>, gauge: int)

  // The faults say which of the two queries fails.
  function StartOutcome(s: Snapshot, broadcaster: string, title: string, checkFault: bool, insertFault: bool)
    : (Snapshot, Result<nat, Error>)
  {
    var id := |s.rows|;
    if checkFault then (s, Err(DatabaseError))
    else if HasLive(s.rows, broadcaster) then (s, Err(AlreadyLive))
    else if insertFault then (s, Err(DatabaseError))
    else (Snapshot(s.rows + [Stream(broadcaster, title, true)], s.pool + {id}, s.gauge + 1), Ok(id))
  }

  function EndOutcome(s: Snapshot, id: nat, broadcaster: string, fault: bool): (Snapshot, Result<Stream, Error>) {
    if fault then (s, Err(DatabaseError))
    else if !Matches(s.rows, id, broadcaster) then (s, Err(NotFound))
    else (Snapshot(Ended(s.rows, id), s.pool - {id}, s.gauge - 1), Ok(Ended(s.rows, id)[id]))
  }

  // The pooled ids are the live rows added to the initial table, and the gauge is the
  // change in the number of live rows.
  ghost predicate InStep(initial: seq<Stream>, s: Snapshot) {
    && |initial| <= |s.rows|
    && OneLive(s.rows)
    && (forall id :: id in s.pool <==> |initial| <= id < |s.rows| && s.rows[id].live)
    && s.gauge == Sum(Alive, s.rows) - Sum(Alive, initial)
  }

  /** A start goes through exactly if both queries do and the broadcaster has no live stream,
      whatever streams it has ended; it is refused as already live exactly if it has one. */
  lemma StartSucceedsIffNoneLive(s: Snapshot, b: string, title: string, checkFault: bool, insertFault: bool)
    ensures var (after, r) := StartOutcome(s, b, title, checkFault, insertFault);
            && (r.Ok? <==> && !checkFault && !insertFault
                           && forall i :: 0 <= i < |s.rows| && s.rows[i].live ==> s.rows[i].broadcaster != b)
            && (r == Err(AlreadyLive) <==>
                  !checkFault && exists i :: 0 <= i < |s.rows| && s.rows[i].live && s.rows[i].broadcaster == b)
            && (r.Ok? ==> && r.value == |s.rows| && after.rows[..|s.rows|] == s.rows
                          && after.rows[|s.rows|..] == [Stream(b, title, true)]
                          && after.pool == s.pool + {|s.rows|} && after.gauge == s.gauge + 1)
            && (r.Err? ==> after == s)
  {
  }

  /** An end goes through exactly if the query does, the stream is live and the caller its
      owner, or nobody in particular. */
  lemma EndSucceedsIffOwnAndLive(s: Snapshot, id: nat, requester: string, fault: bool)
    ensures var (after, r) := EndOutcome(s, id, requester, fault);
            && (r.Ok? <==> && !fault && id < |s.rows| && s.rows[id].live
                           && (requester == "" || s.rows[id].broadcaster == requester))
            && (r.Ok? ==> && after.rows == s.rows[id := s.rows[id].(live := false)]
                          && after.pool == s.pool - {id} && after.gauge == s.gauge - 1)
            && (r.Err? ==> after == s && r.error == if fault then DatabaseError else NotFound)
  {
  }

  /** A broadcaster whose stream has been ended can start the next one. */
  lemma RestartSucceeds(s: Snapshot, id: nat, requester: string, title: string)
    requires OneLive(s.rows) && id < |s.rows| && s.rows[id].live
    requires requester == "" || requester == s.rows[id].broadcaster
    ensures var ended := EndOutcome(s, id, requester, false);
            && ended.1.Ok?
            && StartOutcome(ended.0, s.rows[id].broadcaster, title, false, false).1 == Ok(|s.rows|)
  {
    var b := s.rows[id].broadcaster;
    var rows := EndOutcome(s, id, requester, false).0.rows;
    forall i | 0 <= i < |rows| && rows[i].live ensures rows[i].broadcaster != b {
      assert i != id && rows[i] == s.rows[i];
    }
  }

  /** Neither call, whatever fails, lets pool, table and gauge get out of step. */
  lemma StartKeepsStep(initial: seq<Stream>, s: Snapshot, broadcaster: string, title: string, checkFault: bool,
                       insertFault: bool)
    requires InStep(initial, s)
    ensures InStep(initial, StartOutcome(s, broadcaster, title, checkFault, insertFault).0)
  {
    SumAppend(Alive, s.rows, Stream(broadcaster, title, true));
  }

  lemma EndKeepsStep(initial: seq<Stream>, s: Snapshot, id: nat, broadcaster: string, fault: bool)
    requires InStep(initial, s)
    ensures InStep(initial, EndOutcome(s, id, broadcaster, fault).0)
  {
    if Matches(s.rows, id, broadcaster) { SumUpdate(Alive, s.rows, id, Ended(s.rows, id)[id]); }
  }

  class Service {
    const repo: Repository
    const bufSize: nat
    var hubs: map<nat, H.Hub>
    // The live-stream gauge.
    var gauge: int
    // The table when the service started.
    ghost const initial: seq<Stream>

    ghost predicate Valid()
      reads this, repo, hubs.Values
    {
      InStep(initial, Seen()) && PoolOpen()
    }

    ghost predicate PoolOpen()
      reads this`hubs, hubs.Values
    {
      && (forall id :: id in hubs ==> !hubs[id].done)
      && (forall a, b :: a in hubs && b in hubs && a != b ==> hubs[a] != hubs[b])
    }

    constructor (repo: Repository, bufSize: nat)
      requires OneLive(repo.rows)
      ensures Valid() && this.repo == repo && this.bufSize == bufSize && initial == repo.rows && hubs == map[]
    {
      this.repo, this.bufSize, hubs, gauge := repo, bufSize, map[], 0;
      this.initial := repo.rows;
    }

    ghost function Seen(): Snapshot
      reads this, repo
    {
      Snapshot(repo.rows, hubs.Keys, gauge)
    }

    method StartStream(broadcaster: string, title: string, checkFault: bool, insertFault: bool)
      returns (r: Result<nat, Error>)
      requires Valid()
      modifies this`hubs, this`gauge, repo
      ensures Valid()
      ensures (Seen(), r) == StartOutcome(old(Seen()), broadcaster, title, checkFault, insertFault)
      ensures r.Ok? ==> r.value in hubs && fresh(hubs[r.value]) && hubs == old(hubs)[r.value := hubs[r.value]]
      ensures r.Err? ==> hubs == old(hubs)
    {
      StartKeepsStep(initial, Seen(), broadcaster, title, checkFault, insertFault);
      if checkFault {
        return Err(DatabaseError);
      }
      if HasLive(repo.rows, broadcaster) {
        return Err(AlreadyLive);
      }
      r := repo.Create(broadcaster, title, insertFault);
      if r.Err? {
        return r;
      }
      Pool(r.value);
      assert hubs.Keys == old(hubs).Keys + {r.value};
      gauge := gauge + 1;
    }

    // The critical section of StartStream.
    method Pool(id: nat)
      requires PoolOpen()
      modifies this`hubs
      ensures PoolOpen() && id in hubs && fresh(hubs[id]) && hubs == old(hubs)[id := hubs[id]]
    {
      var hub := new H.Hub(bufSize);
      hubs := hubs[id := hub];
    }

    method EndStream(id: nat, broadcaster: string, fault: bool) returns (r: Result<Stream, Error>)
      requires Valid()
      modifies this`hubs, this`gauge, repo, if id in hubs then {hubs[id]} else {}
      ensures Valid()
      ensures (Seen(), r) == EndOutcome(old(Seen()), id, broadcaster, fault)
      ensures hubs == if r.Ok? then old(hubs) - {id} else old(hubs)
      ensures id in old(hubs) ==> old(hubs[id]).done == r.Ok?
    {
      EndKeepsStep(initial, Seen(), id, broadcaster, fault);
      r := repo.End(id, broadcaster, fault);
      if r.Err? {
        return r;
      }
      Unpool(id);
      gauge := gauge - 1;
    }

    // The critical section of EndStream.
    method Unpool(id: nat)
      requires PoolOpen()
      modifies this`hubs, if id in hubs then {hubs[id]} else {}
      ensures PoolOpen() && hubs == old(hubs) - {id}
      ensures id in old(hubs) ==> old(hubs[id]).done
    {
      if id in hubs {
        hubs[id].Close();
        hubs := hubs - {id};
      }
    }

    method HubOf(id: nat) returns (hub: H.Hub?)
      requires Valid()
      ensures hub != null <==> |initial| <= id < |repo.rows| && repo.rows[id].live
      ensures hub != null ==> !hub.done && id in hubs && hubs[id] == hub
    {
      hub := if id in hubs then hubs[id] else null;
    }
  }
}
