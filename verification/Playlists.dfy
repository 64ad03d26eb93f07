/** Playlists as ordered, duplicate-free track lists over arbitrary edit histories
(backend/internal/playlist/repository.go). */
module Playlists {
  import opened Outcomes

  datatype Error = NotFound

  datatype Playlist = Playlist(owner: string, title: string, description: string, isPublic: bool, tracks: seq<string>)

  // A track that is already listed is not listed again.
  function Appended(tracks: seq<string>, t: string): seq<string> {
    if t in tracks then tracks else tracks + [t]
  }

  // Every occurrence goes.
  function Removed(tracks: seq<string>, t: string): seq<string> {
    if tracks == [] then []
    else Removed(tracks[..|tracks|-1], t) + (if tracks[|tracks|-1] == t then [] else [tracks[|tracks|-1]])
  }

  // An empty requester matches any owner.
  predicate Owns(p: Playlist, requester: string) {
    requester == "" || p.owner == requester
  }

  function Coalesce<T>(given: Option<T>, stored: T): T {
    if given.Some? then given.value else stored
  }

  class Repository {
    var rows: map<nat, Playlist>
    var nextId: nat

    ghost predicate Valid()
      reads this
    {
      forall id :: id in rows ==> id < nextId
    }

    constructor ()
      ensures Valid() && Store(nextId, rows) == EMPTY_STORE
    {
      rows, nextId := map[], 0;
    }

    method Create(owner: string, title: string, description: string, isPublic: bool) returns (id: nat)
      requires Valid()
      modifies this
      ensures Valid() && id == old(nextId)
      ensures Store(nextId, rows)
           == Applied(Store(old(nextId), old(rows)), Request.Create(owner, title, description, isPublic))
      ensures rows == old(rows)[id := Playlist(owner, title, description, isPublic, [])]
    {
      id := nextId;
      rows := rows[id := Playlist(owner, title, description, isPublic, [])];
      nextId := nextId + 1;
    }

    method Update(id: nat, requester: string, title: Option<string>, description: Option<string>,
                  isPublic: Option<bool>)
      returns (r: Result<Playlist, Error>)
      requires Valid()
      modifies this`rows
      ensures Valid()
      ensures r.Ok? <==> id in old(rows) && (requester == "" || old(rows)[id].owner == requester)
      ensures r.Ok? ==> id in rows && r.value == rows[id] && r.value.tracks == old(rows)[id].tracks
      ensures Store(nextId, rows)
           == Applied(Store(nextId, old(rows)), Request.Update(id, requester, title, description, isPublic))
      ensures r.Err? ==> rows == old(rows)
      ensures r.Ok? ==>
                var p := old(rows)[id];
                rows == old(rows)[id := Playlist(
                  p.owner,
                  if title.Some? then title.value else p.title,
                  if description.Some? then description.value else p.description,
                  if isPublic.Some? then isPublic.value else p.isPublic,
                  p.tracks)]
    {
      if id !in rows || !Owns(rows[id], requester) {
        return Err(NotFound);
      }
      var p := rows[id];
      rows := rows[id := p.(title := Coalesce(title, p.title), description := Coalesce(description, p.description),
                            isPublic := Coalesce(isPublic, p.isPublic))];
      return Ok(rows[id]);
    }

    method Delete(id: nat, requester: string) returns (r: Result<(), Error>)
      requires Valid()
      modifies this`rows
      ensures Valid()
      ensures r.Ok? <==> id in old(rows) && (requester == "" || old(rows)[id].owner == requester)
      ensures Store(nextId, rows) == Applied(Store(nextId, old(rows)), Request.Delete(id, requester))
      ensures rows == if r.Ok? then old(rows) - {id} else old(rows)
    {
      if id !in rows || !Owns(rows[id], requester) {
        return Err(NotFound);
      }
      rows := rows - {id};
      return Ok(());
    }

    method AddTrack(id: nat, requester: string, t: string) returns (r: Result<Playlist, Error>)
      requires Valid()
      modifies this`rows
      ensures Valid()
      ensures r.Ok? <==> id in old(rows) && (requester == "" || old(rows)[id].owner == requester)
      ensures r.Ok? ==> id in rows && r.value == rows[id] && t in r.value.tracks
      ensures Store(nextId, rows) == Applied(Store(nextId, old(rows)), Edit(id, requester, Add(t)))
      ensures r.Err? ==> rows == old(rows)
      ensures r.Ok? ==> rows == old(rows)[id := old(rows)[id].(tracks := r.value.tracks)]
      ensures r.Ok? ==> forall u :: u != t ==> (u in r.value.tracks <==> u in old(rows)[id].tracks)
    {
      if id !in rows || !Owns(rows[id], requester) {
        return Err(NotFound);
      }
      var tracks := rows[id].tracks;
      rows := rows[id := rows[id].(tracks := if t in tracks then tracks else tracks + [t])];
      return Ok(rows[id]);
    }

    method RemoveTrack(id: nat, requester: string, t: string) returns (r: Result<Playlist, Error>)
      requires Valid()
      modifies this`rows
      ensures Valid()
      ensures r.Ok? <==> id in old(rows) && (requester == "" || old(rows)[id].owner == requester)
      ensures r.Ok? ==> id in rows && r.value == rows[id] && t !in r.value.tracks
      ensures Store(nextId, rows) == Applied(Store(nextId, old(rows)), Edit(id, requester, Remove(t)))
      ensures r.Err? ==> rows == old(rows)
      ensures r.Ok? ==> rows == old(rows)[id := old(rows)[id].(tracks := r.value.tracks)]
      ensures r.Ok? ==> forall u :: u != t ==> (u in r.value.tracks <==> u in old(rows)[id].tracks)
    {
      if id !in rows || !Owns(rows[id], requester) {
        return Err(NotFound);
      }
      RemovedMembers(rows[id].tracks, t);
      rows := rows[id := rows[id].(tracks := Removed(rows[id].tracks, t))];
      return Ok(rows[id]);
    }
  }

  lemma {:induction false} RemovedMembers(tracks: seq<string>, t: string)
    ensures forall u :: u in Removed(tracks, t) <==> u in tracks && u != t
  {
    if tracks == [] {
    } else {
      RemovedMembers(tracks[..|tracks|-1], t);
      assert tracks == tracks[..|tracks|-1] + [tracks[|tracks|-1]];
    }
  }

  // ---------------------------------------------------------------------
  // Edit histories of one list
  // ---------------------------------------------------------------------

  datatype Op = Add(track: string) | Remove(track: string)

  function Edited(tracks: seq<string>, op: Op): seq<string> {
    if op.Add? then Appended(tracks, op.track) else Removed(tracks, op.track)
  }

  function ListAfter(ops: seq<Op>): seq<string> {
    if ops == [] then [] else Edited(ListAfter(ops[..|ops|-1]), ops[|ops|-1])
  }

  // Position j is the first add of t since its last remove.
  ghost predicate FirstAdd(ops: seq<Op>, t: string, j: nat) {
    && j < |ops| && ops[j] == Add(t)
    && (forall i :: j < i < |ops| ==> ops[i] != Remove(t))
    && (forall i :: 0 <= i < j && ops[i] == Add(t) ==> exists r :: i < r < j && ops[r] == Remove(t))
  }

  // The last operation on t is an add.
  ghost predicate LastIsAdd(ops: seq<Op>, t: string) {
    exists j :: 0 <= j < |ops| && ops[j] == Add(t) && forall i :: j < i < |ops| ==> ops[i].track != t
  }

  // The position of the first add since the last remove, or -1.
  function AddedAt(ops: seq<Op>, t: string): int
    ensures -1 <= AddedAt(ops, t) < |ops|
  {
    if ops == [] then -1
    else
      var before := AddedAt(ops[..|ops|-1], t);
      var op := ops[|ops|-1];
      if op.track != t then before
      else if op.Remove? then -1
      else if before >= 0 then before else |ops| - 1
  }

  lemma {:induction false} AddedAtIsFirstAdd(ops: seq<Op>, t: string)
    ensures AddedAt(ops, t) >= 0 ==> FirstAdd(ops, t, AddedAt(ops, t))
    ensures AddedAt(ops, t) < 0 ==> forall i :: 0 <= i < |ops| && ops[i] == Add(t) ==>
              exists r :: i < r < |ops| && ops[r] == Remove(t)
  {
    if ops == [] {
    } else {
      var n := |ops| - 1;
      AddedAtIsFirstAdd(ops[..n], t);
      if AddedAt(ops, t) < 0 {
        forall i | 0 <= i < |ops| && ops[i] == Add(t)
          ensures exists r :: i < r < |ops| && ops[r] == Remove(t)
        {
          if ops[n] == Remove(t) {
            assert i < n;
          } else {
            assert ops[..n][i] == Add(t);
            var r :| i < r < n && ops[..n][r] == Remove(t);
            assert ops[r] == Remove(t);
          }
        }
      } else {
        FirstAddGrows(ops, t);
      }
    }
  }

  lemma FirstAddGrows(ops: seq<Op>, t: string)
    requires ops != [] && AddedAt(ops, t) >= 0
    requires var before := ops[..|ops|-1];
             if AddedAt(before, t) >= 0 then FirstAdd(before, t, AddedAt(before, t))
             else forall i :: 0 <= i < |before| && before[i] == Add(t) ==>
                    exists r :: i < r < |before| && before[r] == Remove(t)
    ensures FirstAdd(ops, t, AddedAt(ops, t))
  {
    var before, j := ops[..|ops|-1], AddedAt(ops, t);
    forall i | 0 <= i < j && ops[i] == Add(t) ensures exists r :: i < r < j && ops[r] == Remove(t) {
      assert before[i] == Add(t);
      var r :| i < r < j && before[r] == Remove(t);
      assert ops[r] == Remove(t);
    }
  }

  lemma FirstAddIsUnique(ops: seq<Op>, t: string, j: nat, k: nat)
    requires FirstAdd(ops, t, j) && FirstAdd(ops, t, k)
    ensures j == k
  {
  }

  lemma LastIsAddGrows(ops: seq<Op>, t: string)
    requires ops != [] && ops[|ops|-1].track != t
    ensures LastIsAdd(ops, t) <==> LastIsAdd(ops[..|ops|-1], t)
  {
    var n := |ops| - 1;
    if LastIsAdd(ops, t) {
      var j :| 0 <= j < |ops| && ops[j] == Add(t) && forall i :: j < i < |ops| ==> ops[i].track != t;
      assert ops[..n][j] == Add(t);
    }
    if LastIsAdd(ops[..n], t) {
      var j :| 0 <= j < n && ops[..n][j] == Add(t) && forall i :: j < i < n ==> ops[..n][i].track != t;
      forall i | j < i < |ops| ensures ops[i].track != t { if i < n { assert ops[..n][i].track != t; } }
    }
  }

  lemma {:induction false} LastAddMeansAdded(ops: seq<Op>, t: string)
    ensures AddedAt(ops, t) >= 0 <==> LastIsAdd(ops, t)
  {
    if ops == [] {
    } else {
      var n := |ops| - 1;
      LastAddMeansAdded(ops[..n], t);
      if ops[n].track == t {
        if ops[n].Add? { assert ops[n] == Add(t); }
      } else {
        LastIsAddGrows(ops, t);
      }
    }
  }

  // The list holds exactly the added tracks, in the order of their positions.
  ghost predicate Mirrors(list: seq<string>, ops: seq<Op>) {
    && (forall t :: t in list <==> AddedAt(ops, t) >= 0)
    && InAddOrder(list, ops)
  }

  // The tracks stand in the strictly increasing order of their positions.
  ghost predicate InAddOrder(tracks: seq<string>, ops: seq<Op>) {
    forall i, k :: 0 <= i < k < |tracks| ==> AddedAt(ops, tracks[i]) < AddedAt(ops, tracks[k])
  }

  lemma {:induction false} RemovedKeepsOrder(tracks: seq<string>, t: string, ops: seq<Op>)
    requires InAddOrder(tracks, ops)
    ensures InAddOrder(Removed(tracks, t), ops)
  {
    if tracks == [] {
    } else {
      var n := |tracks| - 1;
      RemovedKeepsOrder(tracks[..n], t, ops);
      RemovedMembers(tracks[..n], t);
      var left := Removed(tracks[..n], t);
      forall i | 0 <= i < |left| ensures AddedAt(ops, left[i]) < AddedAt(ops, tracks[n]) {
        assert left[i] in tracks[..n];
      }
    }
  }

  lemma {:induction false} ListMirrors(ops: seq<Op>)
    ensures Mirrors(ListAfter(ops), ops)
  {
    if ops == [] {
    } else {
      var n := |ops| - 1;
      var before, op := ops[..n], ops[n];
      ListMirrors(before);
      if op.Add? {
        AddMirrors(ListAfter(before), ops);
      } else {
        RemoveMirrors(ListAfter(before), ops);
      }
    }
  }

  lemma AddMirrors(list: seq<string>, ops: seq<Op>)
    requires ops != [] && ops[|ops|-1].Add? && Mirrors(list, ops[..|ops|-1])
    ensures Mirrors(Appended(list, ops[|ops|-1].track), ops)
  {
    var after, t := Appended(list, ops[|ops|-1].track), ops[|ops|-1].track;
    forall u | u in list ensures AddedAt(ops, u) == AddedAt(ops[..|ops|-1], u) {}
    forall i, k | 0 <= i < k < |after| ensures AddedAt(ops, after[i]) < AddedAt(ops, after[k]) {
      assert after[i] in list;
      if k < |list| { assert after[k] in list; }
    }
  }

  lemma RemoveMirrors(list: seq<string>, ops: seq<Op>)
    requires ops != [] && ops[|ops|-1].Remove? && Mirrors(list, ops[..|ops|-1])
    ensures Mirrors(Removed(list, ops[|ops|-1].track), ops)
  {
    var before, t := ops[..|ops|-1], ops[|ops|-1].track;
    RemovedMembers(list, t);
    RemovedKeepsOrder(list, t, before);
    var left := Removed(list, t);
    forall u ensures AddedAt(ops, u) == if u == t then -1 else AddedAt(before, u) {}
    forall i, k | 0 <= i < k < |left| ensures AddedAt(ops, left[i]) < AddedAt(ops, left[k]) {
      assert left[i] in left && left[k] in left;
    }
  }

  /** After any history of adds and removes, starting empty: a track is in the list
      exactly if its last operation was an add; every listed track has a first add since
      its last remove, and the list is in the strictly increasing order of these
      positions, so it has no duplicates. */
  lemma PlaylistHistory(ops: seq<Op>)
    ensures forall t :: t in ListAfter(ops) <==> LastIsAdd(ops, t)
    ensures forall t :: t in ListAfter(ops) ==> AddedAt(ops, t) >= 0 && FirstAdd(ops, t, AddedAt(ops, t))
    ensures forall i, k, a, b ::
              (&& 0 <= i < k < |ListAfter(ops)|
               && FirstAdd(ops, ListAfter(ops)[i], a) && FirstAdd(ops, ListAfter(ops)[k], b)) ==> a < b
    ensures forall i, k :: 0 <= i < k < |ListAfter(ops)| ==> ListAfter(ops)[i] != ListAfter(ops)[k]
  {
    var list := ListAfter(ops);
    ListMirrors(ops);
    forall t ensures t in list <==> LastIsAdd(ops, t) { LastAddMeansAdded(ops, t); }
    forall t | t in list ensures AddedAt(ops, t) >= 0 && FirstAdd(ops, t, AddedAt(ops, t)) {
      AddedAtIsFirstAdd(ops, t);
    }
    forall i, k, a, b | 0 <= i < k < |list| && FirstAdd(ops, list[i], a) && FirstAdd(ops, list[k], b) ensures a < b {
      assert list[i] in list && list[k] in list;
      FirstAddIsUnique(ops, list[i], a, AddedAt(ops, list[i]));
      FirstAddIsUnique(ops, list[k], b, AddedAt(ops, list[k]));
    }
  }

  // ---------------------------------------------------------------------
  // Runs of the whole repository
  // ---------------------------------------------------------------------

  datatype Store = Store(nextId: nat, rows: map<nat, Playlist>)

  datatype Request =
    | Create(owner: string, title: string, description: string, isPublic: bool)
    | Update(id: nat, requester: string,
             newTitle: Option<string>, newDescription: Option<string>, newPublic: Option<bool>)
    | Delete(id: nat, requester: string)
    | Edit(id: nat, requester: string, op: Op)

  const EMPTY_STORE := Store(0, map[])

  predicate Accepts(store: Store, r: Request) {
    r.Create? || (r.id in store.rows && Owns(store.rows[r.id], r.requester))
  }

  function Applied(store: Store, r: Request): Store {
    if !Accepts(store, r) then store
    else match r
      case Create(owner, title, description, isPublic) =>
        Store(store.nextId + 1, store.rows[store.nextId := Playlist(owner, title, description, isPublic, [])])
      case Update(id, _, title, description, isPublic) =>
        var p := store.rows[id];
        store.(rows := store.rows[id := p.(title := Coalesce(title, p.title),
                                           description := Coalesce(description, p.description),
                                           isPublic := Coalesce(isPublic, p.isPublic))])
      case Delete(id, _) => store.(rows := store.rows - {id})
      case Edit(id, _, op) =>
        store.(rows := store.rows[id := store.rows[id].(tracks := Edited(store.rows[id].tracks, op))])
  }

  function StoreAfter(rs: seq<Request>): Store {
    if rs == [] then EMPTY_STORE else Applied(StoreAfter(rs[..|rs|-1]), rs[|rs|-1])
  }

  // The edits of playlist id that a run accepted.
  function EditsOf(rs: seq<Request>, id: nat): seq<Op> {
    if rs == [] then []
    else
      var r := rs[|rs|-1];
      EditsOf(rs[..|rs|-1], id)
      + if r.Edit? && r.id == id && Accepts(StoreAfter(rs[..|rs|-1]), r) then [r.op] else []
  }

  lemma {:induction false} FreshIdHasNoEdits(rs: seq<Request>, id: nat)
    requires id >= StoreAfter(rs).nextId
    ensures EditsOf(rs, id) == [] && id !in StoreAfter(rs).rows
  {
    if rs == [] {
    } else {
      FreshIdHasNoEdits(rs[..|rs|-1], id);
    }
  }

  /** In any run of the repository, whoever calls and whatever is refused, each playlist
      holds the list of its own accepted edits. */
  lemma {:induction false} RepositoryKeepsHistories(rs: seq<Request>, id: nat)
    requires id in StoreAfter(rs).rows
    ensures StoreAfter(rs).rows[id].tracks == ListAfter(EditsOf(rs, id))
  {
    if rs == [] {
    } else {
      var before, r := rs[..|rs|-1], rs[|rs|-1];
      var store := StoreAfter(before);
      if id in store.rows {
        RepositoryKeepsHistories(before, id);
        var edits := EditsOf(before, id);
        if store.nextId <= id { FreshIdHasNoEdits(before, id); }
        if r.Edit? && r.id == id && Accepts(store, r) {
          assert EditsOf(rs, id) == edits + [r.op];
          assert (edits + [r.op])[..|edits|] == edits;
        } else {
          assert EditsOf(rs, id) == edits;
        }
      } else {
        FreshIdHasNoEdits(before, store.nextId);
        assert id == store.nextId && EditsOf(rs, id) == [];
      }
    }
  }
}
