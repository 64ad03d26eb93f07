/** Erasing tracks and accounts while object deletions fail (backend/internal/track and
backend/internal/user/usecase/delete_user_by_id.go). */
module Erasure {
  import opened Outcomes
  import opened Storage

  datatype Track = Track(id: string, broadcaster: string, audioURL: string)
  datatype Error = NotFound | DatabaseError | DeleteFailed(key: string)

  // One request to the object store.
  datatype Attempt = Attempt(key: string, ok: bool)

  // ---------------------------------------------------------------------
  // What each request does
  // ---------------------------------------------------------------------

  function OwnedBy(rows: seq<Track>, broadcaster: string): seq<Track> {
    if rows == [] then []
    else (if rows[0].broadcaster == broadcaster then [rows[0]] else []) + OwnedBy(rows[1..], broadcaster)
  }

  function NotOwnedBy(rows: seq<Track>, broadcaster: string): seq<Track> {
    if rows == [] then []
    else (if rows[0].broadcaster == broadcaster then [] else [rows[0]]) + NotOwnedBy(rows[1..], broadcaster)
  }

  // The keys of the tracks whose URL the store recognises, in order.
  function KeysOf(cfg: Config, tracks: seq<Track>): seq<string> {
    if tracks == [] then []
    else KeysOf(cfg, tracks[..|tracks|-1]) + KeyOf(cfg, tracks[|tracks|-1])
  }

  function KeyOf(cfg: Config, t: Track): seq<string> {
    match KeyFromURL(cfg, t.audioURL)
    case Some(key) => [key]
    case None => []
  }

  // The object store: what it holds and the deletion requests made so far.
  datatype Objects = Objects(keys: set<string>, attempts: seq<Attempt>)

  // One deletion request.  faults are the numbers of the requests that fail; deleting a
  // missing key is no error, a failed request deletes nothing.
  function Try(s: Objects, key: string, faults: set<nat>): Objects {
    var ok := |s.attempts| !in faults;
    Objects(if ok then s.keys - {key} else s.keys, s.attempts + [Attempt(key, ok)])
  }

  function TryAll(s: Objects, keys: seq<string>, faults: set<nat>): Objects {
    if keys == [] then s else Try(TryAll(s, keys[..|keys|-1], faults), keys[|keys|-1], faults)
  }

  // The key of the first request that fails.
  function FirstFailed(s: Objects, keys: seq<string>, faults: set<nat>): Option<string> {
    if keys == [] then None
    else
      var before := FirstFailed(s, keys[..|keys|-1], faults);
      if before.Some? then before
      else if |TryAll(s, keys[..|keys|-1], faults).attempts| in faults then Some(keys[|keys|-1]) else None
  }

  function Reported(s: Objects, keys: seq<string>, faults: set<nat>): Result<(), Error> {
    match FirstFailed(s, keys, faults)
    case Some(key) => Err(DeleteFailed(key))
    case None => Ok(())
  }

  // The requests made between two states of the store.
  function Since(s: Objects, after: Objects): seq<Attempt> {
    if |s.attempts| <= |after.attempts| then after.attempts[|s.attempts|..] else []
  }

  predicate Extends(s: Objects, after: Objects) {
    s.attempts <= after.attempts
  }

  function Names(attempts: seq<Attempt>): seq<string> {
    seq(|attempts|, i requires 0 <= i < |attempts| => attempts[i].key)
  }

  predicate FirstFailureIs(attempts: seq<Attempt>, failure: Option<string>) {
    match failure
    case None => forall a :: a in attempts ==> a.ok
    case Some(key) => exists i :: 0 <= i < |attempts| && attempts[i] == Attempt(key, false)
                                  && forall j :: 0 <= j < i ==> attempts[j].ok
  }

  /** Deleting a list of objects makes exactly one request per key, in order; an object is
      left exactly if no request for it succeeded; and the first failure is reported. */
  lemma TryAllAttemptsEachOnce(s: Objects, keys: seq<string>, faults: set<nat>)
    ensures var after := TryAll(s, keys, faults);
            && Extends(s, after)
            && Names(Since(s, after)) == keys
            && (forall i :: 0 <= i < |keys| ==> Since(s, after)[i].ok == (|s.attempts| + i !in faults))
            && (forall key :: key in after.keys <==> key in s.keys && Attempt(key, true) !in Since(s, after))
            && FirstFailureIs(Since(s, after), FirstFailed(s, keys, faults))
  {
    TryAllRequests(s, keys, faults);
    TryAllOutcome(s, keys, faults);
  }

  lemma {:induction false} TryAllRequests(s: Objects, keys: seq<string>, faults: set<nat>)
    ensures var after := TryAll(s, keys, faults);
            && Extends(s, after)
            && Names(Since(s, after)) == keys
            && (forall i :: 0 <= i < |keys| ==> Since(s, after)[i].ok == (|s.attempts| + i !in faults))
  {
    if keys == [] {
    } else {
      var m := |keys| - 1;
      var before := TryAll(s, keys[..m], faults);
      TryAllRequests(s, keys[..m], faults);
      assert |Names(Since(s, before))| == m;
      var after := TryAll(s, keys, faults);
      OneMoreAttempt(s, keys, faults);
      forall i | 0 <= i < m ensures Names(Since(s, after))[i] == keys[i] {
        assert Names(Since(s, before))[i] == keys[..m][i];
      }
    }
  }

  lemma OneMoreAttempt(s: Objects, keys: seq<string>, faults: set<nat>)
    requires keys != [] && Extends(s, TryAll(s, keys[..|keys|-1], faults))
    ensures var before := TryAll(s, keys[..|keys|-1], faults);
            && Extends(s, TryAll(s, keys, faults))
            && Since(s, TryAll(s, keys, faults))
               == Since(s, before) + [Attempt(keys[|keys|-1], |before.attempts| !in faults)]
  {
  }

  lemma {:induction false} TryAllOutcome(s: Objects, keys: seq<string>, faults: set<nat>)
    ensures var after := TryAll(s, keys, faults);
            && (forall key :: key in after.keys <==> key in s.keys && Attempt(key, true) !in Since(s, after))
            && FirstFailureIs(Since(s, after), FirstFailed(s, keys, faults))
  {
    if keys == [] {
    } else {
      var front := keys[..|keys|-1];
      var before := TryAll(s, front, faults);
      TryAllOutcome(s, front, faults);
      TryAllRequests(s, front, faults);
      OneMoreAttempt(s, keys, faults);
      FirstFailureGrows(Since(s, before), FirstFailed(s, front, faults),
                        Attempt(keys[|keys|-1], |before.attempts| !in faults));
    }
  }

  lemma FirstFailureGrows(attempts: seq<Attempt>, failure: Option<string>, a: Attempt)
    requires FirstFailureIs(attempts, failure)
    ensures FirstFailureIs(attempts + [a], if failure.Some? || a.ok then failure else Some(a.key))
  {
    var all := attempts + [a];
    if failure.Some? {
      var i :| 0 <= i < |attempts| && attempts[i] == Attempt(failure.value, false)
               && forall j :: 0 <= j < i ==> attempts[j].ok;
      assert all[i] == attempts[i] && forall j :: 0 <= j < i ==> all[j] == attempts[j];
    } else if !a.ok {
      assert all[|attempts|] == Attempt(a.key, false);
      assert forall j :: 0 <= j < |attempts| ==> all[j] == attempts[j];
    }
  }

  class Bucket {
    const cfg: Config
    const faults: set<nat>
    var objects: Objects

    constructor (cfg: Config, faults: set<nat>)
      ensures this.cfg == cfg && this.faults == faults && objects == Objects({}, [])
    {
      this.cfg, this.faults, objects := cfg, faults, Objects({}, []);
    }

    method Delete(key: string) returns (ok: bool)
      modifies this
      ensures ok <==> |old(objects).attempts| !in faults
      ensures objects == Try(old(objects), key, faults)
    {
      ok := |objects.attempts| !in faults;
      objects := objects.(attempts := objects.attempts + [Attempt(key, ok)]);
      if ok {
        objects := objects.(keys := objects.keys - {key});
      }
    }
  }

  class TrackRepository {
    var rows: seq<Track>

    constructor ()
      ensures rows == []
    {
      rows := [];
    }

    // Removes the row and returns it.
    method Delete(id: string, requester: string, fault: bool) returns (r: Result<Track, Error>)
      modifies this
      ensures fault ==> r == Err(DatabaseError) && rows == old(rows)
      ensures !fault ==> match Find(old(rows), id, requester)
                         case Some(i) => r == Ok(old(rows)[i]) && rows == Without(old(rows), i)
                         case None => r == Err(NotFound) && rows == old(rows)
    {
      if fault {
        return Err(DatabaseError);
      }
      var i := Find(rows, id, requester);
      if i.None? {
        return Err(NotFound);
      }
      r := Ok(rows[i.value]);
      rows := Without(rows, i.value);
    }

    // Removes every row of the broadcaster and returns them, in one statement.
    method DeleteByBroadcaster(broadcaster: string, fault: bool) returns (r: Result<seq<Track>, Error>)
      modifies this
      ensures fault ==> r == Err(DatabaseError) && rows == old(rows)
      ensures !fault ==> r == Ok(OwnedBy(old(rows), broadcaster)) && rows == NotOwnedBy(old(rows), broadcaster)
    {
      if fault {
        return Err(DatabaseError);
      }
      r := Ok(OwnedBy(rows, broadcaster));
      rows := NotOwnedBy(rows, broadcaster);
    }
  }

  // The row the delete statement matches; an empty requester matches any owner.
  function Find(rows: seq<Track>, id: string, requester: string): (r: Option<nat>)
    ensures r.Some? ==> r.value < |rows| && rows[r.value].id == id
                        && (requester == "" || rows[r.value].broadcaster == requester)
    ensures r.None? ==> forall t :: t in rows && t.id == id ==> requester != "" && t.broadcaster != requester
  {
    if rows == [] then None
    else if rows[0].id == id && (requester == "" || rows[0].broadcaster == requester) then Some(0)
    else match Find(rows[1..], id, requester)
      case Some(i) => Some(i + 1)
      case None => None
  }

  function Without(rows: seq<Track>, i: nat): seq<Track>
    requires i < |rows|
  {
    rows[..i] + rows[i + 1..]
  }

  // The rows a request removes, in the order in which their objects are tried, and the
  // error it ends with when no object has to be deleted.
  datatype Removal = Removal(tracks: seq<Track>, rows: seq<Track>, error: Option<Error>)

  function RemoveOne(rows: seq<Track>, id: string, requester: string, fault: bool): Removal {
    if fault then Removal([], rows, Some(DatabaseError))
    else match Find(rows, id, requester)
      case Some(i) => Removal([rows[i]], Without(rows, i), None)
      case None => Removal([], rows, Some(NotFound))
  }

  function RemoveAll(rows: seq<Track>, broadcaster: string, fault: bool): Removal {
    if fault then Removal([], rows, Some(DatabaseError))
    else Removal(OwnedBy(rows, broadcaster), NotOwnedBy(rows, broadcaster), None)
  }

  class TrackService {
    const repo: TrackRepository
    const storage: Bucket

    constructor (repo: TrackRepository, storage: Bucket)
      ensures this.repo == repo && this.storage == storage
    {
      this.repo, this.storage := repo, storage;
    }

    /** Removes the row, then tries once to delete its object if the URL is recognised. */
    method DeleteTrack(id: string, requester: string, fault: bool) returns (r: Result<(), Error>)
      modifies repo, storage
      ensures var removal := RemoveOne(old(repo.rows), id, requester, fault);
              var keys := KeysOf(storage.cfg, removal.tracks);
              && repo.rows == removal.rows
              && storage.objects == TryAll(old(storage.objects), keys, storage.faults)
              && r == Answer(removal, old(storage.objects), keys, storage.faults)
    {
      var deleted := repo.Delete(id, requester, fault);
      if deleted.Err? {
        return Err(deleted.error);
      }
      OneMoreKey(storage.objects, [], KeyOf(storage.cfg, deleted.value), storage.faults);
      OneTrack(storage.cfg, deleted.value);
      var key := KeyFromURL(storage.cfg, deleted.value.audioURL);
      r := Ok(());
      if key.Some? {
        var ok := storage.Delete(key.value);
        if !ok {
          r := Err(DeleteFailed(key.value));
        }
      }
    }

    /** Removes the broadcaster's rows, then tries to delete every object they point at,
        whatever fails; the first failure is reported once all have been tried. */
    method PurgeByBroadcaster(broadcaster: string, fault: bool) returns (r: Result<(), Error>)
      modifies repo, storage
      ensures var removal := RemoveAll(old(repo.rows), broadcaster, fault);
              var keys := KeysOf(storage.cfg, removal.tracks);
              && repo.rows == removal.rows
              && storage.objects == TryAll(old(storage.objects), keys, storage.faults)
              && r == Answer(removal, old(storage.objects), keys, storage.faults)
    {
      var deleted := repo.DeleteByBroadcaster(broadcaster, fault);
      if deleted.Err? {
        return Err(deleted.error);
      }
      var tracks := deleted.value;
      var firstErr: Option<string> := None;
      ghost var keys: seq<string> := [];
      for i := 0 to |tracks|
        invariant repo.rows == NotOwnedBy(old(repo.rows), broadcaster)
        invariant keys == KeysOf(storage.cfg, tracks[..i])
        invariant storage.objects == TryAll(old(storage.objects), keys, storage.faults)
        invariant firstErr == FirstFailed(old(storage.objects), keys, storage.faults)
      {
        OneMoreTrack(storage.cfg, tracks, i);
        OneMoreKey(old(storage.objects), keys, KeyOf(storage.cfg, tracks[i]), storage.faults);
        keys := keys + KeyOf(storage.cfg, tracks[i]);
        var key := KeyFromURL(storage.cfg, tracks[i].audioURL);
        if key.Some? {
          var ok := storage.Delete(key.value);
          if !ok && firstErr.None? {
            firstErr := key;
          }
        }
      }
      assert tracks[..|tracks|] == tracks;
      return if firstErr.Some? then Err(DeleteFailed(firstErr.value)) else Ok(());
    }
  }

  class UserRepository {
    var users: set<string>
    const tracks: TrackRepository

    constructor (tracks: TrackRepository)
      ensures this.tracks == tracks && users == {}
    {
      this.tracks, users := tracks, {};
    }

    // Deletes the account; the track rows that reference it go with it.
    method Delete(id: string, fault: bool) returns (r: Result<(), Error>)
      modifies this, tracks
      ensures r == AccountAnswer(old(users), id, fault)
      ensures r.Ok? <==> !fault && id in old(users)
      ensures r.Err? ==> r.error == if fault then DatabaseError else NotFound
      ensures users == if r.Ok? then old(users) - {id} else old(users)
      ensures tracks.rows == if r.Ok? then NotOwnedBy(old(tracks.rows), id) else old(tracks.rows)
    {
      if fault {
        return Err(DatabaseError);
      }
      if id !in users {
        return Err(NotFound);
      }
      users := users - {id};
      tracks.rows := NotOwnedBy(tracks.rows, id);
      r := Ok(());
    }
  }

  function AccountAnswer(users: set<string>, id: string, fault: bool): Result<(), Error> {
    if fault then Err(DatabaseError) else if id in users then Ok(()) else Err(NotFound)
  }

  class DeleteUser {
    const repo: UserRepository
    const tracks: TrackService?

    constructor (repo: UserRepository, tracks: TrackService?)
      ensures this.repo == repo && this.tracks == tracks
    {
      this.repo, this.tracks := repo, tracks;
    }

    /** Without storage only the account is deleted; with storage the call is exactly the
        EraseAccount request of the run model, answer and state. */
    method Execute(id: string, purgeFault: bool, userFault: bool) returns (r: Result<(), Error>)
      requires tracks != null ==> tracks.repo == repo.tracks
      modifies repo, repo.tracks, if tracks == null then {} else {tracks.storage}
      ensures tracks == null ==>
                && r == AccountAnswer(old(repo.users), id, userFault)
                && repo.users == (if r.Ok? then old(repo.users) - {id} else old(repo.users))
                && repo.tracks.rows == if r.Ok? then NotOwnedBy(old(repo.tracks.rows), id) else old(repo.tracks.rows)
      ensures tracks != null ==>
                var before := World(old(repo.tracks.rows), old(repo.users), old(tracks.storage.objects));
                var request := EraseAccount(id, purgeFault, userFault);
                && r == Told(tracks.storage.cfg, before, request, tracks.storage.faults)
                && World(repo.tracks.rows, repo.users, tracks.storage.objects)
                   == Next(tracks.storage.cfg, before, request, tracks.storage.faults)
    {
      if tracks != null {
        var purged := tracks.PurgeByBroadcaster(id, purgeFault);
        if purged.Err? {
          return purged;
        }
      }
      r := repo.Delete(id, userFault);
    }
  }

  // ---------------------------------------------------------------------
  // Runs of requests
  // ---------------------------------------------------------------------

  datatype World = World(rows: seq<Track>, users: set<string>, objects: Objects)

  // fault: the statement on the tracks table fails; userFault: the one on the accounts.
  datatype Request =
    | Put(key: string)
    | Register(track: Track)
    | EraseTrack(id: string, requester: string, fault: bool)
    | EraseAccount(user: string, fault: bool, userFault: bool)
    // The two halves of an account erasure that other requests overlap.
    | PurgeTracks(user: string, fault: bool)
    | DropAccount(user: string, userFault: bool)

  function Removes(w: World, q: Request): Removal {
    match q
    case Put(_) => Removal([], w.rows, None)
    case Register(t) => Removal([], w.rows + [t], None)
    case EraseTrack(id, requester, fault) => RemoveOne(w.rows, id, requester, fault)
    case EraseAccount(user, fault, _) => RemoveAll(w.rows, user, fault)
    case PurgeTracks(user, fault) => RemoveAll(w.rows, user, fault)
    case DropAccount(user, userFault) =>
      var answer := AccountAnswer(w.users, user, userFault);
      if answer.Ok? then Removal([], NotOwnedBy(w.rows, user), None) else Removal([], w.rows, Some(answer.error))
  }

  // The rows that go with an account, without a request for their objects.
  function Cascaded(w: World, q: Request): seq<Track> {
    if q.DropAccount? && AccountAnswer(w.users, q.user, q.userFault).Ok? then OwnedBy(w.rows, q.user) else []
  }

  function Stored(w: World, q: Request): Objects {
    if q.Put? then w.objects.(keys := w.objects.keys + {q.key}) else w.objects
  }

  // The answer of the part that removes rows and objects.
  function Purge(cfg: Config, w: World, q: Request, faults: set<nat>): Result<(), Error> {
    Answer(Removes(w, q), Stored(w, q), KeysOf(cfg, Removes(w, q).tracks), faults)
  }

  function Told(cfg: Config, w: World, q: Request, faults: set<nat>): Result<(), Error> {
    var purged := Purge(cfg, w, q, faults);
    if q.EraseAccount? && purged.Ok? then AccountAnswer(w.users, q.user, q.userFault) else purged
  }

  function Next(cfg: Config, w: World, q: Request, faults: set<nat>): World {
    var removal := Removes(w, q);
    var objects := TryAll(Stored(w, q), KeysOf(cfg, removal.tracks), faults);
    if q.EraseAccount? && Told(cfg, w, q, faults).Ok?
    then World(NotOwnedBy(removal.rows, q.user), w.users - {q.user}, objects)
    else if q.DropAccount? && removal.error.None? then World(removal.rows, w.users - {q.user}, objects)
    else World(removal.rows, w.users, objects)
  }

  // What the caller is told: the row error, else the first failed deletion.
  function Answer(removal: Removal, s: Objects, keys: seq<string>, faults: set<nat>): Result<(), Error> {
    if removal.error.Some? then Err(removal.error.value) else Reported(s, keys, faults)
  }

  lemma OneTrack(cfg: Config, t: Track)
    ensures KeysOf(cfg, [t]) == KeyOf(cfg, t)
  {
    assert [t][..0] == [];
  }

  lemma OneMoreTrack(cfg: Config, tracks: seq<Track>, i: nat)
    requires i < |tracks|
    ensures KeysOf(cfg, tracks[..i + 1]) == KeysOf(cfg, tracks[..i]) + KeyOf(cfg, tracks[i])
  {
    assert tracks[..i + 1][..i] == tracks[..i];
  }

  lemma OneMoreKey(s: Objects, keys: seq<string>, more: seq<string>, faults: set<nat>)
    requires |more| <= 1
    ensures var before := TryAll(s, keys, faults);
            && TryAll(s, keys + more, faults) == (if more == [] then before else Try(before, more[0], faults))
            && FirstFailed(s, keys + more, faults)
               == if more == [] || FirstFailed(s, keys, faults).Some? then FirstFailed(s, keys, faults)
                  else if |before.attempts| in faults then Some(more[0]) else None
  {
    if more == [] {
      assert keys + more == keys;
    } else {
      assert (keys + more)[..|keys|] == keys;
    }
  }
}
