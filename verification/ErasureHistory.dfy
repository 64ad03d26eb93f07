/** Erasure over whole runs: every removed row has exactly one deletion request, and an
object whose requests all failed can no longer be erased by anybody. */
module ErasureHistory {
  import opened Outcomes
  import opened Storage
  import opened StorageAddresses
  import opened Erasure

  function After(cfg: Config, w: World, run: seq<Request>, faults: set<nat>): World {
    if run == [] then w else Next(cfg, After(cfg, w, run[..|run|-1], faults), run[|run|-1], faults)
  }

  // The rows removed by requests of the run, in order.
  function Removed(cfg: Config, w: World, run: seq<Request>, faults: set<nat>): seq<Track> {
    if run == [] then []
    else
      Removed(cfg, w, run[..|run|-1], faults)
      + Removes(After(cfg, w, run[..|run|-1], faults), run[|run|-1]).tracks
  }

  // The rows that went with their accounts.
  function Lost(cfg: Config, w: World, run: seq<Request>, faults: set<nat>): seq<Track> {
    if run == [] then []
    else
      Lost(cfg, w, run[..|run|-1], faults)
      + Cascaded(After(cfg, w, run[..|run|-1], faults), run[|run|-1])
  }

  function Registered(run: seq<Request>): seq<Track> {
    if run == [] then []
    else Registered(run[..|run|-1]) + (if run[|run|-1].Register? then [run[|run|-1].track] else [])
  }

  predicate Uploads(run: seq<Request>, key: string) {
    Put(key) in run
  }

  // ---------------------------------------------------------------------
  // Rows
  // ---------------------------------------------------------------------

  lemma {:induction false} OwnersSplit(rows: seq<Track>, user: string)
    ensures multiset(rows) == multiset(OwnedBy(rows, user)) + multiset(NotOwnedBy(rows, user))
  {
    if rows == [] {
    } else {
      OwnersSplit(rows[1..], user);
      assert rows == [rows[0]] + rows[1..];
    }
  }

  lemma {:induction false} NotOwnedByMembers(rows: seq<Track>, user: string)
    ensures forall t :: t in NotOwnedBy(rows, user) <==> t in rows && t.broadcaster != user
  {
    if rows == [] {
    } else {
      NotOwnedByMembers(rows[1..], user);
    }
  }

  lemma {:induction false} NobodyOwned(rows: seq<Track>, user: string)
    requires forall t :: t in rows ==> t.broadcaster != user
    ensures NotOwnedBy(rows, user) == rows
    ensures OwnedBy(rows, user) == []
  {
    if rows == [] {
    } else {
      NobodyOwned(rows[1..], user);
      assert rows == [rows[0]] + rows[1..];
    }
  }

  lemma PurgedTwiceIsPurgedOnce(rows: seq<Track>, user: string)
    ensures NotOwnedBy(NotOwnedBy(rows, user), user) == NotOwnedBy(rows, user)
    ensures OwnedBy(NotOwnedBy(rows, user), user) == []
  {
    NotOwnedByMembers(rows, user);
    NobodyOwned(NotOwnedBy(rows, user), user);
  }

  lemma WithoutSplits(rows: seq<Track>, i: nat)
    requires i < |rows|
    ensures multiset(rows) == multiset([rows[i]]) + multiset(Without(rows, i))
  {
    assert rows == rows[..i] + [rows[i]] + rows[i + 1..];
  }

  lemma KeysOfOneMore(cfg: Config, tracks: seq<Track>, t: Track)
    ensures KeysOf(cfg, tracks + [t]) == KeysOf(cfg, tracks) + KeyOf(cfg, t)
  {
    assert (tracks + [t])[..|tracks|] == tracks;
  }

  lemma {:induction false} KeysOfConcat(cfg: Config, a: seq<Track>, b: seq<Track>)
    ensures KeysOf(cfg, a + b) == KeysOf(cfg, a) + KeysOf(cfg, b)
  {
    if b == [] {
      assert a + b == a;
    } else {
      var front, last := b[..|b|-1], b[|b|-1];
      KeysOfConcat(cfg, a, front);
      KeysOfOneMore(cfg, a + front, last);
      KeysOfOneMore(cfg, front, last);
      LastApart(a, b);
      Regroup(KeysOf(cfg, a), KeysOf(cfg, front), KeyOf(cfg, last));
    }
  }

  lemma LastApart(a: seq<Track>, b: seq<Track>)
    requires b != []
    ensures b == b[..|b|-1] + [b[|b|-1]] && a + b == (a + b[..|b|-1]) + [b[|b|-1]]
  {
  }

  lemma Regroup(a: seq<string>, b: seq<string>, c: seq<string>)
    ensures (a + b) + c == a + (b + c)
  {
  }

  lemma NamesConcat(a: seq<Attempt>, b: seq<Attempt>)
    ensures Names(a + b) == Names(a) + Names(b)
  {
  }

  // ---------------------------------------------------------------------
  // One request
  // ---------------------------------------------------------------------

  /** What one request does: rows are either kept or removed; each removed row with a
      recognised URL gets one deletion request; and an object is lost only to a request
      that succeeded. */
  lemma RequestLedger(cfg: Config, w: World, q: Request, faults: set<nat>)
    ensures var after := Next(cfg, w, q, faults);
            && multiset(w.rows) + (if q.Register? then multiset{q.track} else multiset{})
               == multiset(after.rows) + multiset(Removes(w, q).tracks) + multiset(Cascaded(w, q))
            && Extends(w.objects, after.objects)
            && Names(Since(w.objects, after.objects)) == KeysOf(cfg, Removes(w, q).tracks)
            && (forall key :: key in after.objects.keys <==>
                  (key in w.objects.keys || q == Put(key)) && Attempt(key, true) !in Since(w.objects, after.objects))
  {
    TryAllAttemptsEachOnce(Stored(w, q), KeysOf(cfg, Removes(w, q).tracks), faults);
    RowsAreKeptOrRemoved(cfg, w, q, faults);
  }

  lemma RowsAreKeptOrRemoved(cfg: Config, w: World, q: Request, faults: set<nat>)
    ensures multiset(w.rows) + (if q.Register? then multiset{q.track} else multiset{})
            == multiset(Next(cfg, w, q, faults).rows) + multiset(Removes(w, q).tracks) + multiset(Cascaded(w, q))
  {
    RemovalSplits(w, q);
    CascadeFindsNothing(cfg, w, q, faults);
  }

  lemma RemovalSplits(w: World, q: Request)
    ensures multiset(w.rows) + (if q.Register? then multiset{q.track} else multiset{})
            == multiset(Removes(w, q).rows) + multiset(Removes(w, q).tracks) + multiset(Cascaded(w, q))
  {
    if q.EraseAccount? || q.PurgeTracks? || q.DropAccount? {
      OwnersSplit(w.rows, q.user);
    } else if q.EraseTrack? && !q.fault && Find(w.rows, q.id, q.requester).Some? {
      WithoutSplits(w.rows, Find(w.rows, q.id, q.requester).value);
    }
  }

  // By the time the account goes, its purge has left no row to cascade to.
  lemma CascadeFindsNothing(cfg: Config, w: World, q: Request, faults: set<nat>)
    ensures Next(cfg, w, q, faults).rows == Removes(w, q).rows
  {
    if q.EraseAccount? && !q.fault { PurgedTwiceIsPurgedOnce(w.rows, q.user); }
  }

  /** An account is erased exactly if it exists, neither statement failed and every object
      deletion of its purge succeeded. */
  lemma AccountErasedIffNothingFailed(cfg: Config, w: World, user: string, fault: bool, userFault: bool,
                                      faults: set<nat>)
    ensures var q := EraseAccount(user, fault, userFault);
            var after := Next(cfg, w, q, faults);
            && (Told(cfg, w, q, faults).Ok? <==>
                  user in w.users && !fault && !userFault
                  && forall a :: a in Since(w.objects, after.objects) ==> a.ok)
            && after.users == if Told(cfg, w, q, faults).Ok? then w.users - {user} else w.users
  {
    if !fault { NoFailureIffAllSucceeded(w.objects, KeysOf(cfg, OwnedBy(w.rows, user)), faults); }
  }

  lemma NoFailureIffAllSucceeded(s: Objects, keys: seq<string>, faults: set<nat>)
    ensures FirstFailed(s, keys, faults).None? <==>
            forall a :: a in Since(s, TryAll(s, keys, faults)) ==> a.ok
  {
    TryAllAttemptsEachOnce(s, keys, faults);
    FirstFailureIsUnique(Since(s, TryAll(s, keys, faults)), FirstFailed(s, keys, faults));
  }

  /** A failed deletion is reported, and it is the first one. */
  lemma FirstFailureIsTold(cfg: Config, w: World, user: string, fault: bool, userFault: bool, faults: set<nat>,
                           key: string)
    ensures var q := EraseAccount(user, fault, userFault);
            Told(cfg, w, q, faults) == Err(DeleteFailed(key)) <==>
              !fault && FirstFailureIs(Since(w.objects, Next(cfg, w, q, faults).objects), Some(key))
  {
    if !fault { FirstFailedIsFirst(w.objects, KeysOf(cfg, OwnedBy(w.rows, user)), faults, key); }
  }

  lemma FirstFailedIsFirst(s: Objects, keys: seq<string>, faults: set<nat>, key: string)
    ensures FirstFailed(s, keys, faults) == Some(key) <==> FirstFailureIs(Since(s, TryAll(s, keys, faults)), Some(key))
  {
    TryAllAttemptsEachOnce(s, keys, faults);
    FirstFailureIsUnique(Since(s, TryAll(s, keys, faults)), FirstFailed(s, keys, faults));
  }

  /** Whatever becomes of the objects and the account, an erasure whose first statement
      works removes the user's rows; one whose first statement fails changes nothing. */
  lemma RowsGoFirst(cfg: Config, w: World, user: string, fault: bool, userFault: bool, faults: set<nat>)
    ensures var q := EraseAccount(user, fault, userFault);
            var after := Next(cfg, w, q, faults);
            && (!fault ==> after.rows == NotOwnedBy(w.rows, user))
            && (fault ==> after == w && Told(cfg, w, q, faults) == Err(DatabaseError))
  {
    PurgedTwiceIsPurgedOnce(w.rows, user);
  }

  lemma FirstFailureIsUnique(attempts: seq<Attempt>, failure: Option<string>)
    requires FirstFailureIs(attempts, failure)
    ensures failure.None? <==> forall a :: a in attempts ==> a.ok
    ensures forall key :: FirstFailureIs(attempts, Some(key)) <==> failure == Some(key)
  {
    if failure.Some? {
      var i :| 0 <= i < |attempts| && attempts[i] == Attempt(failure.value, false)
               && forall j :: 0 <= j < i ==> attempts[j].ok;
      assert attempts[i] in attempts;
      forall key | FirstFailureIs(attempts, Some(key)) ensures failure == Some(key) {
        var k :| 0 <= k < |attempts| && attempts[k] == Attempt(key, false)
                 && forall j :: 0 <= j < k ==> attempts[j].ok;
        assert !(i < k) && !(k < i);
      }
    }
  }

  // ---------------------------------------------------------------------
  // Whole runs
  // ---------------------------------------------------------------------

  // From point p of the run on the object is there, and no request for it succeeds: it was
  // there at the start, or uploaded by the request before p.
  ghost predicate HeldSince(cfg: Config, w: World, run: seq<Request>, faults: set<nat>, key: string, p: nat)
    requires p <= |run|
  {
    && (if p == 0 then key in w.objects.keys else run[p-1] == Put(key))
    && Attempt(key, true) !in Since(After(cfg, w, run[..p], faults).objects, After(cfg, w, run, faults).objects)
  }

  ghost predicate Held(cfg: Config, w: World, run: seq<Request>, faults: set<nat>, key: string) {
    exists p :: 0 <= p <= |run| && HeldSince(cfg, w, run, faults, key, p)
  }

  /** Conservation over any run and any pattern of failures: rows present or registered are
      still present, were removed by a request or went with an account; the objects tried
      are, in order, exactly those of the removed rows, one request each; and an object is
      in the store exactly if, since the start or since one of its uploads, no request for
      it succeeded. */
  lemma ErasureLedger(cfg: Config, w: World, run: seq<Request>, faults: set<nat>)
    ensures var after := After(cfg, w, run, faults);
            && multiset(w.rows) + multiset(Registered(run))
               == multiset(after.rows) + multiset(Removed(cfg, w, run, faults)) + multiset(Lost(cfg, w, run, faults))
            && Extends(w.objects, after.objects)
            && Names(Since(w.objects, after.objects)) == KeysOf(cfg, Removed(cfg, w, run, faults))
            && (forall key :: key in after.objects.keys <==> Held(cfg, w, run, faults, key))
  {
    RowLedger(cfg, w, run, faults);
    ObjectLedger(cfg, w, run, faults);
    forall key ensures key in After(cfg, w, run, faults).objects.keys <==> Held(cfg, w, run, faults, key) {
      LeftIffHeld(cfg, w, run, faults, key);
    }
  }

  lemma {:induction false} LeftIffHeld(cfg: Config, w: World, run: seq<Request>, faults: set<nat>, key: string)
    ensures key in After(cfg, w, run, faults).objects.keys <==> Held(cfg, w, run, faults, key)
  {
    if run == [] {
      assert HeldSince(cfg, w, run, faults, key, 0) <==> key in w.objects.keys;
    } else {
      var n := |run| - 1;
      var before, q := After(cfg, w, run[..n], faults), run[n];
      LeftIffHeld(cfg, w, run[..n], faults, key);
      RequestLedger(cfg, before, q, faults);
      forall p | 0 <= p <= n
        ensures HeldSince(cfg, w, run, faults, key, p)
                <==> HeldSince(cfg, w, run[..n], faults, key, p)
                     && Attempt(key, true) !in Since(before.objects, Next(cfg, before, q, faults).objects)
      {
        HeldOneMore(cfg, w, run, faults, key, p);
      }
      assert After(cfg, w, run, faults) == Next(cfg, before, q, faults);
      HeldAtTheEnd(cfg, w, run, faults, key);
      HeldSplits(cfg, w, run, faults, key);
    }
  }

  // Either the object was held before the last request, which did not delete it, or the
  // last request uploads it.
  lemma HeldSplits(cfg: Config, w: World, run: seq<Request>, faults: set<nat>, key: string)
    requires run != []
    requires var n := |run| - 1;
             var before := After(cfg, w, run[..n], faults);
             forall p :: 0 <= p <= n ==>
               (HeldSince(cfg, w, run, faults, key, p)
                <==> HeldSince(cfg, w, run[..n], faults, key, p)
                     && Attempt(key, true) !in Since(before.objects, Next(cfg, before, run[n], faults).objects))
    ensures var n := |run| - 1;
            var before := After(cfg, w, run[..n], faults);
            Held(cfg, w, run, faults, key)
            <==> || (&& Held(cfg, w, run[..n], faults, key)
                     && Attempt(key, true) !in Since(before.objects, Next(cfg, before, run[n], faults).objects))
                 || HeldSince(cfg, w, run, faults, key, |run|)
  {
    var n := |run| - 1;
    var before := After(cfg, w, run[..n], faults);
    var kept := Attempt(key, true) !in Since(before.objects, Next(cfg, before, run[n], faults).objects);
    if Held(cfg, w, run, faults, key) {
      var p :| 0 <= p <= |run| && HeldSince(cfg, w, run, faults, key, p);
      if p <= n { assert HeldSince(cfg, w, run[..n], faults, key, p); }
    }
    if kept && Held(cfg, w, run[..n], faults, key) {
      var p :| 0 <= p <= n && HeldSince(cfg, w, run[..n], faults, key, p);
      assert HeldSince(cfg, w, run, faults, key, p);
    }
  }

  lemma HeldOneMore(cfg: Config, w: World, run: seq<Request>, faults: set<nat>, key: string, p: nat)
    requires run != [] && p < |run|
    ensures var before := After(cfg, w, run[..|run|-1], faults);
            HeldSince(cfg, w, run, faults, key, p)
            <==> HeldSince(cfg, w, run[..|run|-1], faults, key, p)
                 && Attempt(key, true) !in Since(before.objects, After(cfg, w, run, faults).objects)
  {
    var front := run[..|run|-1];
    PrefixOfPrefix(run, p);
    StoreExtends(cfg, w, front, faults, p);
    StoreExtends(cfg, w, run, faults, |run| - 1);
    NotSince(After(cfg, w, front[..p], faults).objects, After(cfg, w, front, faults).objects,
             After(cfg, w, run, faults).objects, Attempt(key, true));
  }

  lemma PrefixOfPrefix(run: seq<Request>, p: nat)
    requires run != [] && p < |run|
    ensures run[..|run|-1][..p] == run[..p]
    ensures p > 0 ==> run[..|run|-1][p - 1] == run[p - 1]
  {
  }

  lemma NotSince(a: Objects, b: Objects, c: Objects, x: Attempt)
    requires Extends(a, b) && Extends(b, c)
    ensures x !in Since(a, c) <==> x !in Since(a, b) && x !in Since(b, c)
  {
    SinceConcat(a, b, c);
    InConcat(Since(a, b), Since(b, c), x);
  }

  lemma InConcat(a: seq<Attempt>, b: seq<Attempt>, x: Attempt)
    ensures x in a + b <==> x in a || x in b
  {
  }

  lemma HeldAtTheEnd(cfg: Config, w: World, run: seq<Request>, faults: set<nat>, key: string)
    requires run != []
    ensures HeldSince(cfg, w, run, faults, key, |run|) <==> run[|run|-1] == Put(key)
    ensures run[|run|-1] == Put(key) ==>
              var before := After(cfg, w, run[..|run|-1], faults);
              Since(before.objects, After(cfg, w, run, faults).objects) == []
  {
    assert run[..|run|] == run;
    assert KeysOf(cfg, []) == [];
  }

  lemma {:induction false} StoreExtends(cfg: Config, w: World, run: seq<Request>, faults: set<nat>, p: nat)
    requires p <= |run|
    ensures Extends(After(cfg, w, run[..p], faults).objects, After(cfg, w, run, faults).objects)
  {
    if p == |run| {
      assert run[..p] == run;
    } else {
      var n := |run| - 1;
      assert run[..n][..p] == run[..p];
      StoreExtends(cfg, w, run[..n], faults, p);
      RequestExtends(cfg, After(cfg, w, run[..n], faults), run[n], faults);
      SinceConcat(After(cfg, w, run[..p], faults).objects, After(cfg, w, run[..n], faults).objects,
                  After(cfg, w, run, faults).objects);
    }
  }

  lemma RequestExtends(cfg: Config, w: World, q: Request, faults: set<nat>)
    ensures Extends(w.objects, Next(cfg, w, q, faults).objects)
  {
    RequestLedger(cfg, w, q, faults);
  }

  lemma {:induction false} RowLedger(cfg: Config, w: World, run: seq<Request>, faults: set<nat>)
    ensures multiset(w.rows) + multiset(Registered(run))
            == multiset(After(cfg, w, run, faults).rows)
               + multiset(Removed(cfg, w, run, faults)) + multiset(Lost(cfg, w, run, faults))
  {
    if run == [] {
    } else {
      var n := |run| - 1;
      RowLedger(cfg, w, run[..n], faults);
      var before, q := After(cfg, w, run[..n], faults), run[n];
      RowsAreKeptOrRemoved(cfg, before, q, faults);
      var removed, lost := Removed(cfg, w, run[..n], faults), Lost(cfg, w, run[..n], faults);
      Chained(multiset(w.rows), multiset(Registered(run[..n])), multiset(before.rows),
              multiset(removed), multiset(lost),
              if q.Register? then multiset{q.track} else multiset{},
               multiset(Next(cfg, before, q, faults).rows), multiset(Removes(before, q).tracks),
              multiset(Cascaded(before, q)));
    }
  }

  lemma Chained(a: multiset<Track>, in1: multiset<Track>, b: multiset<Track>, out1: multiset<Track>,
                lost1: multiset<Track>,
                in2: multiset<Track>, c: multiset<Track>, out2: multiset<Track>, lost2: multiset<Track>)
    requires a + in1 == b + out1 + lost1 && b + in2 == c + out2 + lost2
    ensures a + (in1 + in2) == c + (out1 + out2) + (lost1 + lost2)
  {
    forall t ensures (a + (in1 + in2))[t] == (c + (out1 + out2) + (lost1 + lost2))[t] {
      assert (a + in1)[t] == (b + out1 + lost1)[t] && (b + in2)[t] == (c + out2 + lost2)[t];
    }
  }

  lemma {:induction false} ObjectLedger(cfg: Config, w: World, run: seq<Request>, faults: set<nat>)
    ensures var after := After(cfg, w, run, faults);
            && Extends(w.objects, after.objects)
            && Names(Since(w.objects, after.objects)) == KeysOf(cfg, Removed(cfg, w, run, faults))
            && (forall key :: !Uploads(run, key) ==>
                  (key in after.objects.keys <==>
                     key in w.objects.keys && Attempt(key, true) !in Since(w.objects, after.objects)))
  {
    if run == [] {
    } else {
      var n := |run| - 1;
      var before, q := After(cfg, w, run[..n], faults), run[n];
      var after := Next(cfg, before, q, faults);
      ObjectLedger(cfg, w, run[..n], faults);
      RequestLedger(cfg, before, q, faults);
      SinceConcat(w.objects, before.objects, after.objects);
      NamesConcat(Since(w.objects, before.objects), Since(before.objects, after.objects));
      KeysOfConcat(cfg, Removed(cfg, w, run[..n], faults), Removes(before, q).tracks);
      forall key | !Uploads(run, key)
        ensures !Uploads(run[..n], key) && q != Put(key)
      {
        assert run[n] in run;
      }
    }
  }

  lemma SinceConcat(a: Objects, b: Objects, c: Objects)
    requires Extends(a, b) && Extends(b, c)
    ensures Extends(a, c) && Since(a, c) == Since(a, b) + Since(b, c)
  {
  }

  // No row points at the key, and the run registers none that does.
  ghost predicate Unreferenced(cfg: Config, w: World, run: seq<Request>, key: string) {
    && (forall t :: t in w.rows ==> KeyFromURL(cfg, t.audioURL) != Some(key))
    && (forall t :: Register(t) in run ==> KeyFromURL(cfg, t.audioURL) != Some(key))
  }

  lemma {:induction false} KeysComeFromRows(cfg: Config, tracks: seq<Track>, key: string)
    ensures key in KeysOf(cfg, tracks) <==> exists t :: t in tracks && KeyFromURL(cfg, t.audioURL) == Some(key)
  {
    if tracks == [] {
    } else {
      var m := |tracks| - 1;
      KeysComeFromRows(cfg, tracks[..m], key);
      assert tracks == tracks[..m] + [tracks[m]];
    }
  }

  /** Once no row points at an object, no run of requests that registers no such row,
      however often it repeats the erasure, makes another request for it: the object stays
      exactly as it was. */
  lemma OrphansAreForever(cfg: Config, w: World, run: seq<Request>, key: string, faults: set<nat>)
    requires Unreferenced(cfg, w, run, key) && !Uploads(run, key)
    ensures var after := After(cfg, w, run, faults);
            && (key in after.objects.keys <==> key in w.objects.keys)
            && key !in Names(Since(w.objects, after.objects))
  {
    var after := After(cfg, w, run, faults);
    ObjectLedger(cfg, w, run, faults);
    var removed := Removed(cfg, w, run, faults);
    forall t | t in removed ensures KeyFromURL(cfg, t.audioURL) != Some(key) {
      RemovedWereKnown(cfg, w, run, t, faults);
    }
    KeysComeFromRows(cfg, removed, key);
    if Attempt(key, true) in Since(w.objects, after.objects) {
      NamesContain(Since(w.objects, after.objects), Attempt(key, true));
    }
  }

  lemma RemovedWereKnown(cfg: Config, w: World, run: seq<Request>, t: Track, faults: set<nat>)
    requires t in Removed(cfg, w, run, faults)
    ensures t in w.rows || Register(t) in run
  {
    RowLedger(cfg, w, run, faults);
    assert t in multiset(w.rows) + multiset(Registered(run));
    if t !in w.rows { RegisteredInRun(run, t); }
  }

  lemma NamesContain(attempts: seq<Attempt>, a: Attempt)
    requires a in attempts
    ensures a.key in Names(attempts)
  {
    var i :| 0 <= i < |attempts| && attempts[i] == a;
    assert Names(attempts)[i] == a.key;
  }

  lemma {:induction false} RegisteredInRun(run: seq<Request>, t: Track)
    requires t in Registered(run)
    ensures Register(t) in run
  {
    var n := |run| - 1;
    if t in Registered(run[..n]) { RegisteredInRun(run[..n], t); }
  }

  // ---------------------------------------------------------------------
  // Retrying a failed account erasure
  // ---------------------------------------------------------------------

  // An erasure and one retry of it, the retry meeting no database failure.
  function Retried(user: string, fault: bool, userFault: bool): seq<Request> {
    [EraseAccount(user, fault, userFault), EraseAccount(user, false, false)]
  }

  lemma RetriedSteps(cfg: Config, w: World, user: string, fault: bool, userFault: bool, faults: set<nat>)
    ensures After(cfg, w, Retried(user, fault, userFault), faults)
         == Next(cfg, Next(cfg, w, EraseAccount(user, fault, userFault), faults),
                 EraseAccount(user, false, false), faults)
  {
    var q := EraseAccount(user, fault, userFault);
    assert Retried(user, fault, userFault)[..1] == [q] && [q][..0] == [];
    assert After(cfg, w, [q], faults) == Next(cfg, After(cfg, w, [], faults), q, faults);
  }

  /** Once the rows are gone, whatever failed after that, a retry finds no row, requests no
      deletion, changes no object and erases the account. */
  lemma RetryTriesNothing(cfg: Config, w: World, user: string, userFault: bool, faults: set<nat>)
    ensures var q, retry := EraseAccount(user, false, userFault), EraseAccount(user, false, false);
            var first := Next(cfg, w, q, faults);
            && Next(cfg, first, retry, faults) == World(first.rows, w.users - {user}, first.objects)
            && (user in w.users && Told(cfg, w, q, faults).Err? ==> Told(cfg, first, retry, faults) == Ok(()))
  {
    PurgedTwiceIsPurgedOnce(w.rows, user);
    AccountErasedIffNothingFailed(cfg, w, user, false, userFault, faults);
  }

  // No object that a track of the user pointed at is left.
  ghost predicate ObjectsErased(cfg: Config, before: World, user: string, after: World) {
    forall key :: key in KeysOf(cfg, OwnedBy(before.rows, user)) ==> key !in after.objects.keys
  }

  // The i-th deletion request of the purge succeeds.
  predicate Succeeds(w: World, i: nat, faults: set<nat>) {
    |w.objects.attempts| + i !in faults
  }

  // The objects after an erasure and its retry are those after one purge: the retry's if
  // the first call could not remove the rows, else the first call's.
  lemma RetriedObjects(cfg: Config, w: World, user: string, fault: bool, userFault: bool, faults: set<nat>)
    ensures After(cfg, w, Retried(user, fault, userFault), faults).objects
         == TryAll(w.objects, KeysOf(cfg, OwnedBy(w.rows, user)), faults)
  {
    RetriedSteps(cfg, w, user, fault, userFault, faults);
    if fault {
      RowsGoFirst(cfg, w, user, fault, userFault, faults);
    } else {
      RetryTriesNothing(cfg, w, user, userFault, faults);
    }
  }

  /** Whichever of the first call's statements fail, an erasure with its retry erases
      everything exactly if every object the store holds for the user has a request that
      succeeds in the only purge that sees the rows: no object gets a second chance. */
  lemma RetryIsNoRepair(cfg: Config, w: World, user: string, fault: bool, userFault: bool, faults: set<nat>)
    ensures var keys := KeysOf(cfg, OwnedBy(w.rows, user));
            ObjectsErased(cfg, w, user, After(cfg, w, Retried(user, fault, userFault), faults)) <==>
            forall key :: key in keys && key in w.objects.keys ==> SomeSuccess(w, keys, key, faults)
  {
    var keys := KeysOf(cfg, OwnedBy(w.rows, user));
    RetriedObjects(cfg, w, user, fault, userFault, faults);
    forall key ensures key in TryAll(w.objects, keys, faults).keys <==>
                       key in w.objects.keys && !SomeSuccess(w, keys, key, faults)
    {
      LeftIffNoSuccess(w, keys, key, faults);
    }
  }

  predicate SomeSuccess(w: World, keys: seq<string>, key: string, faults: set<nat>) {
    exists j :: 0 <= j < |keys| && keys[j] == key && Succeeds(w, j, faults)
  }

  lemma LeftIffNoSuccess(w: World, keys: seq<string>, key: string, faults: set<nat>)
    ensures key in TryAll(w.objects, keys, faults).keys <==>
            key in w.objects.keys && !SomeSuccess(w, keys, key, faults)
  {
    TryAllAttemptsEachOnce(w.objects, keys, faults);
    var attempts := Since(w.objects, TryAll(w.objects, keys, faults));
    assert forall j :: 0 <= j < |keys| ==> attempts[j].key == Names(attempts)[j] == keys[j];
    if SomeSuccess(w, keys, key, faults) {
      var j :| 0 <= j < |keys| && keys[j] == key && Succeeds(w, j, faults);
      assert attempts[j] == Attempt(key, true);
    } else if Attempt(key, true) in attempts {
      var j :| 0 <= j < |attempts| && attempts[j] == Attempt(key, true);
      assert |Names(attempts)| == |attempts|;
      assert Succeeds(w, j, faults);
    }
  }

  /** The failure the retry was meant for: one upload, its deletion fails, the retry
      succeeds, and the object is still there with neither row nor account left. */
  lemma RetryLeavesAnOrphan(cfg: Config, t: Track, key: string)
    requires t.audioURL == PublicURL(cfg, key)
    ensures var w := World([t], {t.broadcaster}, Objects({key}, []));
            var q := EraseAccount(t.broadcaster, false, false);
            && Told(cfg, w, q, {0}) == Err(DeleteFailed(key))
            && Told(cfg, Next(cfg, w, q, {0}), q, {0}) == Ok(())
            && After(cfg, w, Retried(t.broadcaster, false, false), {0})
               == World([], {}, Objects({key}, [Attempt(key, false)]))
  {
    var user := t.broadcaster;
    var w := World([t], {user}, Objects({key}, []));
    OneFailingTrack(cfg, t, key, w);
    RetriedSteps(cfg, w, user, false, false, {0});
    RetryTriesNothing(cfg, w, user, false, {0});
  }

  lemma OneFailingTrack(cfg: Config, t: Track, key: string, w: World)
    requires t.audioURL == PublicURL(cfg, key)
    requires w == World([t], {t.broadcaster}, Objects({key}, []))
    ensures var q := EraseAccount(t.broadcaster, false, false);
            && Told(cfg, w, q, {0}) == Err(DeleteFailed(key))
            && Next(cfg, w, q, {0}) == World([], {t.broadcaster}, Objects({key}, [Attempt(key, false)]))
  {
    assert KeysOf(cfg, [t]) == [key] by {
      KeyFromURLInverts(cfg, t.audioURL, key);
      OneTrack(cfg, t);
    }
    OnlyRow(t);
    FirstTryFails(w.objects, key);
  }

  lemma FirstTryFails(s: Objects, key: string)
    requires s.attempts == []
    ensures TryAll(s, [key], {0}) == Objects(s.keys, [Attempt(key, false)])
    ensures FirstFailed(s, [key], {0}) == Some(key)
  {
    assert [key][..0] == [];
    assert TryAll(s, [], {0}) == s;
  }

  lemma OnlyRow(t: Track)
    ensures OwnedBy([t], t.broadcaster) == [t] && NotOwnedBy([t], t.broadcaster) == []
  {
    assert [t][1..] == [];
    assert OwnedBy([t][1..], t.broadcaster) == [] && NotOwnedBy([t][1..], t.broadcaster) == [];
  }

  // ---------------------------------------------------------------------
  // Requests that overlap an account erasure
  // ---------------------------------------------------------------------

  /** With nothing in between, an erasure is its two halves, the second only if the first
      succeeds. */
  lemma ErasureInTwoHalves(cfg: Config, w: World, user: string, fault: bool, userFault: bool, faults: set<nat>)
    ensures var first, second := PurgeTracks(user, fault), DropAccount(user, userFault);
            var purged := Next(cfg, w, first, faults);
            && Next(cfg, w, EraseAccount(user, fault, userFault), faults)
               == (if Told(cfg, w, first, faults).Ok? then Next(cfg, purged, second, faults) else purged)
            && Told(cfg, w, EraseAccount(user, fault, userFault), faults)
               == (if Told(cfg, w, first, faults).Ok? then Told(cfg, purged, second, faults)
                   else Told(cfg, w, first, faults))
  {
    DropAlone(cfg, Next(cfg, w, PurgeTracks(user, fault), faults), user, userFault, faults);
  }

  // Dropping an account touches no object.
  lemma DropAlone(cfg: Config, w: World, user: string, userFault: bool, faults: set<nat>)
    ensures var q := DropAccount(user, userFault);
            var answer := AccountAnswer(w.users, user, userFault);
            && Told(cfg, w, q, faults) == answer
            && Next(cfg, w, q, faults)
               == (if answer.Ok? then World(NotOwnedBy(w.rows, user), w.users - {user}, w.objects) else w)
  {
    assert KeysOf(cfg, []) == [];
    assert TryAll(w.objects, [], faults) == w.objects && FirstFailed(w.objects, [], faults) == None;
  }

  lemma RowsComeFromRegistrations(cfg: Config, w: World, run: seq<Request>, t: Track, faults: set<nat>)
    requires t in After(cfg, w, run, faults).rows
    ensures t in w.rows || Register(t) in run
  {
    RowLedger(cfg, w, run, faults);
    assert t in multiset(w.rows) + multiset(Registered(run));
    if t !in w.rows { RegisteredInRun(run, t); }
  }

  /** Rows that go with the account without a deletion request were all registered between
      the two halves of its erasure; if none was, nothing is lost that way. */
  lemma OnlyOverlappingRowsAreLost(cfg: Config, w: World, user: string, overlapping: seq<Request>, userFault: bool,
                                   faults: set<nat>)
    ensures var purged := Next(cfg, w, PurgeTracks(user, false), faults);
            var lost := Cascaded(After(cfg, purged, overlapping, faults), DropAccount(user, userFault));
            && (forall t :: t in lost ==> t.broadcaster == user && Register(t) in overlapping)
            && ((forall t :: Register(t) in overlapping ==> t.broadcaster != user) ==> lost == [])
  {
    var purged := Next(cfg, w, PurgeTracks(user, false), faults);
    var later := After(cfg, purged, overlapping, faults);
    var lost := Cascaded(later, DropAccount(user, userFault));
    OwnedByMembers(later.rows, user);
    NotOwnedByMembers(w.rows, user);
    forall t | t in lost ensures t.broadcaster == user && Register(t) in overlapping {
      RowsComeFromRegistrations(cfg, purged, overlapping, t, faults);
    }
    if lost != [] { assert lost[0] in lost; }
  }

  /** And such a row's object stays: once the account is dropped, no run of requests that
      does not register it again requests its deletion. */
  lemma LostRowsLeaveOrphans(cfg: Config, w: World, t: Track, key: string, userFault: bool, run: seq<Request>,
                             faults: set<nat>)
    requires t in Cascaded(w, DropAccount(t.broadcaster, userFault))
    requires KeyFromURL(cfg, t.audioURL) == Some(key) && key in w.objects.keys
    requires forall u :: u in w.rows && u.broadcaster != t.broadcaster ==> KeyFromURL(cfg, u.audioURL) != Some(key)
    requires !Uploads(run, key) && forall u :: Register(u) in run ==> KeyFromURL(cfg, u.audioURL) != Some(key)
    ensures var dropped := Next(cfg, w, DropAccount(t.broadcaster, userFault), faults);
            && t.broadcaster !in dropped.users && t !in dropped.rows
            && key in After(cfg, dropped, run, faults).objects.keys
  {
    var dropped := Next(cfg, w, DropAccount(t.broadcaster, userFault), faults);
    NotOwnedByMembers(w.rows, t.broadcaster);
    DropAlone(cfg, w, t.broadcaster, userFault, faults);
    OrphansAreForever(cfg, dropped, run, key, faults);
  }

  // ---------------------------------------------------------------------
  // Stored addresses
  // ---------------------------------------------------------------------

  // The address of an object of the configured bucket: virtual-hosted, or path-style under
  // the base URL without its trailing slashes.
  ghost predicate IsAddress(cfg: Config, url: string, key: string) {
    if cfg.publicBaseURL == "" then
      url == "https://" + (cfg.bucket + ".s3." + cfg.region + ".amazonaws.com") + "/" + key
    else
      exists n :: && 0 <= n <= |cfg.publicBaseURL|
                  && !EndsWithSlash(cfg.publicBaseURL[..n]) && OnlySlashes(cfg.publicBaseURL[n..])
                  && url == cfg.publicBaseURL[..n] + "/" + cfg.bucket + "/" + key
  }

  lemma AddressIsRecognised(cfg: Config, url: string, key: string)
    requires '/' !in cfg.bucket && '/' !in cfg.region && IsAddress(cfg, url, key)
    ensures KeyFromURL(cfg, url) == Some(key)
  {
    if cfg.publicBaseURL == "" {
      VirtualHostedAddress(cfg, cfg.bucket + ".s3." + cfg.region + ".amazonaws.com", key);
    } else {
      var n :| && 0 <= n <= |cfg.publicBaseURL|
               && !EndsWithSlash(cfg.publicBaseURL[..n]) && OnlySlashes(cfg.publicBaseURL[n..])
               && url == cfg.publicBaseURL[..n] + "/" + cfg.bucket + "/" + key;
      assert cfg.publicBaseURL == cfg.publicBaseURL[..n] + cfg.publicBaseURL[n..];
      PathStyleAddress(cfg, cfg.publicBaseURL[..n], cfg.publicBaseURL[n..], cfg.bucket, key);
    }
  }

  /** A purge requests the object at every address it finds in the user's rows, and if the
      user has one row, that object and no other. */
  lemma StoredAddressIsErased(cfg: Config, w: World, t: Track, key: string, userFault: bool, faults: set<nat>)
    requires '/' !in cfg.bucket && '/' !in cfg.region
    requires t in w.rows && IsAddress(cfg, t.audioURL, key)
    ensures var after := Next(cfg, w, EraseAccount(t.broadcaster, false, userFault), faults);
            && key in Names(Since(w.objects, after.objects))
            && (w.rows == [t] ==> Names(Since(w.objects, after.objects)) == [key])
  {
    AddressIsRecognised(cfg, t.audioURL, key);
    StoredKeys(cfg, w.rows, t, key);
    RequestLedger(cfg, w, EraseAccount(t.broadcaster, false, userFault), faults);
  }

  lemma StoredKeys(cfg: Config, rows: seq<Track>, t: Track, key: string)
    requires t in rows && KeyFromURL(cfg, t.audioURL) == Some(key)
    ensures key in KeysOf(cfg, OwnedBy(rows, t.broadcaster))
    ensures rows == [t] ==> KeysOf(cfg, OwnedBy(rows, t.broadcaster)) == [key]
  {
    OwnedByMembers(rows, t.broadcaster);
    KeysComeFromRows(cfg, OwnedBy(rows, t.broadcaster), key);
    if rows == [t] {
      OnlyRow(t);
      OneTrack(cfg, t);
    }
  }

  /** A track registered under its upload's public URL is erased under the upload's own
      key: whatever else the account owns, its purge requests that key. */
  lemma UploadedKeyIsTheOneErased(cfg: Config, w: World, t: Track, user: string, uuid: string, filename: string,
                                  faults: set<nat>)
    requires t in w.rows && t.broadcaster == user
    requires t.audioURL == PublicURL(cfg, UploadKey(user, uuid, filename))
    ensures var after := Next(cfg, w, EraseAccount(user, false, false), faults);
            UploadKey(user, uuid, filename) in Names(Since(w.objects, after.objects))
  {
    var key := UploadKey(user, uuid, filename);
    KeyFromURLInverts(cfg, t.audioURL, key);
    OwnedByMembers(w.rows, user);
    KeysComeFromRows(cfg, OwnedBy(w.rows, user), key);
    RequestLedger(cfg, w, EraseAccount(user, false, false), faults);
  }

  lemma {:induction false} OwnedByMembers(rows: seq<Track>, user: string)
    ensures forall t :: t in OwnedBy(rows, user) <==> t in rows && t.broadcaster == user
  {
    if rows == [] {
    } else {
      OwnedByMembers(rows[1..], user);
    }
  }
}
