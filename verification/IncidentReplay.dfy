/** Batches of alerts, seen as a whole and one fingerprint at a time, and the batches that a
replay after a partial failure turns into something else. */
module IncidentReplay {
  import opened Outcomes
  import opened Incidents
  import opened IncidentHistory

  // ---------------------------------------------------------------------
  // Batches
  // ---------------------------------------------------------------------

  lemma {:induction false} PlayConcat(f: Feed, a: seq<Report>, b: seq<Report>)
    ensures Play(f, a + b) == Play(Play(f, a), b)
  {
    if b == [] {
      assert a + b == a;
    } else {
      PlayConcat(f, a, b[..|b|-1]);
      assert (a + b)[..|a + b|-1] == a + b[..|b|-1];
    }
  }

  lemma {:induction false} LandedConcat(a: seq<Report>, b: seq<Report>, fa: seq<Option<string>>,
                                        fb: seq<Option<string>>)
    requires |a| == |fa| && |b| == |fb|
    ensures Landed(a + b, fa + fb) == Landed(a, fa) + Landed(b, fb)
  {
    if b == [] {
      assert a + b == a && fa + fb == fa;
    } else {
      var n := |b| - 1;
      LandedConcat(a, b[..n], fa, fb[..n]);
      assert (a + b)[..|a| + n] == a + b[..n] && (fa + fb)[..|a| + n] == fa + fb[..n];
    }
  }

  lemma {:induction false} FirstErrorConcat(a: seq<Report>, b: seq<Report>, fa: seq<Option<string>>,
                                            fb: seq<Option<string>>)
    requires |a| == |fa| && |b| == |fb|
    ensures FirstError(a + b, fa + fb)
            == if FirstError(a, fa).Some? then FirstError(a, fa) else FirstError(b, fb)
  {
    if b == [] {
      assert a + b == a && fa + fb == fa;
    } else {
      var n := |b| - 1;
      FirstErrorConcat(a, b[..n], fa, fb[..n]);
      assert (a + b)[..|a| + n] == a + b[..n] && (fa + fb)[..|a| + n] == fa + fb[..n];
    }
  }

  /** Delivering a batch in two parts leaves the same table and notifications, and the first
      error over both parts is the batch's. */
  lemma SplittingChangesNothing(f: Feed, a: seq<Report>, b: seq<Report>, fa: seq<Option<string>>,
                                fb: seq<Option<string>>)
    requires |a| == |fa| && |b| == |fb|
    ensures Play(f, Landed(a + b, fa + fb)) == Play(Play(f, Landed(a, fa)), Landed(b, fb))
    ensures FirstError(a + b, fa + fb) == if FirstError(a, fa).Some? then FirstError(a, fa) else FirstError(b, fb)
  {
    LandedConcat(a, b, fa, fb);
    FirstErrorConcat(a, b, fa, fb);
    PlayConcat(f, Landed(a, fa), Landed(b, fb));
  }

  predicate Fails(reports: seq<Report>, faults: seq<Option<string>>, i: nat)
    requires i < |reports| == |faults|
  {
    Failure(reports[i], faults[i]).Some?
  }

  /** The error returned is the first one met, if any alert failed at all. */
  lemma {:induction false} FirstErrorIsFirst(reports: seq<Report>, faults: seq<Option<string>>)
    requires |reports| == |faults|
    ensures FirstError(reports, faults).None? <==> forall i :: 0 <= i < |reports| ==> !Fails(reports, faults, i)
    ensures FirstError(reports, faults).Some? ==>
              exists i :: 0 <= i < |reports| && Fails(reports, faults, i)
                          && FirstError(reports, faults) == Failure(reports[i], faults[i])
                          && forall j :: 0 <= j < i ==> !Fails(reports, faults, j)
  {
    if reports == [] {
    } else {
      var n := |reports| - 1;
      FirstErrorIsFirst(reports[..n], faults[..n]);
      assert forall i :: 0 <= i < n ==> Fails(reports[..n], faults[..n], i) == Fails(reports, faults, i);
      if FirstError(reports[..n], faults[..n]).Some? {
        var i :| 0 <= i < n && Fails(reports[..n], faults[..n], i)
                 && FirstError(reports[..n], faults[..n]) == Failure(reports[..n][i], faults[..n][i])
                 && forall j :: 0 <= j < i ==> !Fails(reports[..n], faults[..n], j);
        assert Fails(reports, faults, i);
      } else {
        assert Fails(reports, faults, n) <==> FirstError(reports, faults).Some?;
      }
    }
  }

  // ---------------------------------------------------------------------
  // One fingerprint at a time
  // ---------------------------------------------------------------------

  predicate About(r: Report, fp: string) {
    !r.Nameless? && r.fingerprint == fp
  }

  function Select(reports: seq<Report>, fp: string): seq<Report> {
    if reports == [] then []
    else
      var last := reports[|reports|-1];
      Select(reports[..|reports|-1], fp) + (if About(last, fp) then [last] else [])
  }

  function View(f: Feed, fp: string): Feed {
    Feed(On(f.rows, fp), On(f.notices, fp))
  }

  lemma {:induction false} OnMembers(rows: seq<Incident>, fp: string)
    ensures forall i :: i in On(rows, fp) <==> i in rows && i.fingerprint == fp
  {
    if rows == [] {
    } else {
      OnMembers(rows[..|rows|-1], fp);
    }
  }

  lemma HasOpenIsLocal(rows: seq<Incident>, fp: string)
    ensures HasOpen(On(rows, fp), fp) <==> HasOpen(rows, fp)
  {
    OnMembers(rows, fp);
    if HasOpen(rows, fp) {
      var i :| 0 <= i < |rows| && rows[i].fingerprint == fp && Unresolved(rows[i]);
      assert rows[i] in On(rows, fp);
    }
    if HasOpen(On(rows, fp), fp) {
      var i :| 0 <= i < |On(rows, fp)| && On(rows, fp)[i].fingerprint == fp && Unresolved(On(rows, fp)[i]);
      assert On(rows, fp)[i] in rows;
    }
  }

  lemma {:induction false} RefreshedIsLocal(rows: seq<Incident>, about: string, shown: Shown, fp: string)
    ensures On(Refreshed(rows, about, shown), fp)
            == if about == fp then Refreshed(On(rows, fp), about, shown) else On(rows, fp)
  {
    if rows == [] {
    } else {
      var front, last := rows[..|rows|-1], rows[|rows|-1];
      RefreshedIsLocal(front, about, shown, fp);
      assert Refreshed(rows, about, shown)[..|rows|-1] == Refreshed(front, about, shown);
      var on := On(front, fp);
      if last.fingerprint == fp { assert (on + [last])[..|on|] == on; }
    }
  }

  lemma {:induction false} ClosedIsLocal(rows: seq<Incident>, about: string, at: int, fp: string)
    ensures On(Closed(rows, about, at), fp)
            == if about == fp then Closed(On(rows, fp), about, at) else On(rows, fp)
  {
    if rows == [] {
    } else {
      var front, last := rows[..|rows|-1], rows[|rows|-1];
      ClosedIsLocal(front, about, at, fp);
      assert Closed(rows, about, at)[..|rows|-1] == Closed(front, about, at);
      var on := On(front, fp);
      if last.fingerprint == fp { assert (on + [last])[..|on|] == on; }
    }
  }

  lemma ApplyIsLocal(f: Feed, r: Report, fp: string)
    ensures View(Apply(f, r), fp) == if About(r, fp) then Apply(View(f, fp), r) else View(f, fp)
  {
    if r.Closes? {
      ClosedIsLocal(f.rows, r.fingerprint, r.at, fp);
    } else if r.Opens? {
      HasOpenIsLocal(f.rows, r.fingerprint);
      if HasOpen(f.rows, r.fingerprint) {
        RefreshedIsLocal(f.rows, r.fingerprint, r.shown, fp);
      } else {
        var row := New(r.fingerprint, r.origin, r.shown);
        assert (f.rows + [row])[..|f.rows|] == f.rows && (f.notices + [row])[..|f.notices|] == f.notices;
      }
    }
  }

  /** What a batch does to one fingerprint's incidents and notifications depends on that
      fingerprint's alerts and history alone. */
  lemma {:induction false} PlayIsLocal(f: Feed, reports: seq<Report>, fp: string)
    ensures View(Play(f, reports), fp) == Play(View(f, fp), Select(reports, fp))
  {
    if reports == [] {
    } else {
      var front, last := reports[..|reports|-1], reports[|reports|-1];
      PlayIsLocal(f, front, fp);
      ApplyIsLocal(Play(f, front), last, fp);
      var some := Select(front, fp);
      if About(last, fp) {
        assert (some + [last])[..|some|] == some && (some + [last])[|some|] == last;
      } else {
        assert Select(reports, fp) == some;
      }
    }
  }

  lemma {:induction false} SelectMembers(reports: seq<Report>, fp: string)
    ensures forall r :: r in Select(reports, fp) <==> r in reports && About(r, fp)
  {
    if reports == [] {
    } else {
      SelectMembers(reports[..|reports|-1], fp);
    }
  }

  lemma {:induction false} LandedMembers(reports: seq<Report>, faults: seq<Option<string>>)
    requires |reports| == |faults|
    ensures forall r :: r in Landed(reports, faults) ==> r in reports && !r.Nameless?
  {
    if reports == [] {
    } else {
      LandedMembers(reports[..|reports|-1], faults[..|reports|-1]);
    }
  }

  // ---------------------------------------------------------------------
  // Replays
  // ---------------------------------------------------------------------

  function Clean(f: Feed, batch: seq<Report>): Feed {
    Play(f, batch)
  }

  // A pass in which some statements fail, then the whole batch again without failures.
  function Replayed(f: Feed, batch: seq<Report>, faults: seq<Option<string>>): Feed
    requires |faults| == |batch|
  {
    Play(Play(f, Landed(batch, faults)), batch)
  }

  // The same incidents per fingerprint, in the same order, and as many notifications.
  ghost predicate Same(a: Feed, b: Feed) {
    forall fp :: SameFor(a, b, fp)
  }

  predicate SameFor(a: Feed, b: Feed, fp: string) {
    On(a.rows, fp) == On(b.rows, fp) && |On(a.notices, fp)| == |On(b.notices, fp)|
  }

  // Two alerts of one fingerprint that may share a batch: both open with the same origin
  // or both close at the same time.
  predicate Agree(r: Report, s: Report) {
    if r.Opens? then s.Opens? && s.origin == r.origin
    else r.Closes? ==> s.Closes? && s.at == r.at
  }

  predicate Harmless(batch: seq<Report>) {
    forall r, s :: r in batch && s in batch && !r.Nameless? && About(s, r.fingerprint) ==> Agree(r, s)
  }

  lemma {:induction false} RefreshTwice(rows: seq<Incident>, fp: string, a: Shown, b: Shown)
    ensures Refreshed(Refreshed(rows, fp, a), fp, b) == Refreshed(rows, fp, b)
  {
  }

  /** Alerts that all open with one origin amount to the last of them. */
  lemma {:induction false} OpensCollapse(f: Feed, reports: seq<Report>, fp: string, origin: Origin)
    requires reports != []
    requires forall r :: r in reports ==> r.Opens? && r.fingerprint == fp && r.origin == origin
    ensures Play(f, reports).rows == Upserted(f.rows, fp, origin, reports[|reports|-1].shown)
    ensures |Play(f, reports).notices| == |f.notices| + (if HasOpen(f.rows, fp) then 0 else 1)
    ensures HasOpen(Play(f, reports).rows, fp)
  {
    var front, last := reports[..|reports|-1], reports[|reports|-1];
    assert last in reports;
    if front == [] {
      assert Play(f, front) == f;
      UpsertLeavesOpen(f.rows, fp, origin, last.shown);
    } else {
      OpensCollapse(f, front, fp, origin);
      UpsertTwice(f.rows, fp, origin, front[|front|-1].shown, last.shown);
      UpsertLeavesOpen(f.rows, fp, origin, last.shown);
    }
  }

  lemma UpsertLeavesOpen(rows: seq<Incident>, fp: string, origin: Origin, shown: Shown)
    ensures HasOpen(Upserted(rows, fp, origin, shown), fp)
  {
    var after := Upserted(rows, fp, origin, shown);
    if i :| 0 <= i < |rows| && rows[i].fingerprint == fp && Unresolved(rows[i]) {
      assert after[i].fingerprint == fp && Unresolved(after[i]);
    } else {
      assert after[|rows|].fingerprint == fp && Unresolved(after[|rows|]);
    }
  }

  lemma UpsertTwice(rows: seq<Incident>, fp: string, origin: Origin, a: Shown, b: Shown)
    ensures Upserted(Upserted(rows, fp, origin, a), fp, origin, b) == Upserted(rows, fp, origin, b)
  {
    UpsertLeavesOpen(rows, fp, origin, a);
    if HasOpen(rows, fp) {
      RefreshTwice(rows, fp, a, b);
    } else {
      forall i | 0 <= i < |rows| ensures RefreshedRow(rows[i], fp, b) == rows[i] {
        assert !(rows[i].fingerprint == fp && Unresolved(rows[i]));
      }
      assert Refreshed(rows + [New(fp, origin, a)], fp, b) == rows + [New(fp, origin, b)];
    }
  }

  /** Alerts that all close at one time amount to one of them. */
  lemma {:induction false} ClosesCollapse(f: Feed, reports: seq<Report>, fp: string, at: int)
    requires reports != []
    requires forall r :: r in reports ==> r == Closes(fp, at)
    ensures Play(f, reports) == f.(rows := Closed(f.rows, fp, at))
  {
    var front, last := reports[..|reports|-1], reports[|reports|-1];
    assert last in reports;
    if front == [] {
      assert Play(f, front) == f;
    } else {
      assert forall r :: r in front ==> r in reports;
      ClosesCollapse(f, front, fp, at);
      assert Closed(Closed(f.rows, fp, at), fp, at) == Closed(f.rows, fp, at);
    }
  }

  /** Replaying alerts about one fingerprint that agree changes nothing. */
  lemma AgreeingReplay(f: Feed, some: seq<Report>, all: seq<Report>, fp: string)
    requires forall r :: r in some ==> r in all
    requires forall r :: r in all ==> About(r, fp)
    requires forall r, s :: r in all && s in all ==> Agree(r, s)
    ensures Play(f, some + all).rows == Play(f, all).rows
    ensures |Play(f, some + all).notices| == |Play(f, all).notices|
  {
    assert forall s :: s in some + all ==> s in all;
    if some + all != [] {
      var r := (some + all)[0];
      assert r in all;
      assert (some + all)[|some + all|-1] == all[|all|-1];
      if r.Opens? {
        assert forall s :: s in all ==> Agree(r, s);
        OpensCollapse(f, all, fp, r.origin);
        OpensCollapse(f, some + all, fp, r.origin);
      } else {
        assert forall s :: s in all ==> Agree(r, s);
        ClosesCollapse(f, all, fp, r.at);
        ClosesCollapse(f, some + all, fp, r.at);
      }
    }
  }

  lemma {:induction false} SelectConcat(a: seq<Report>, b: seq<Report>, fp: string)
    ensures Select(a + b, fp) == Select(a, fp) + Select(b, fp)
  {
    if b == [] {
      assert a + b == a;
    } else {
      SelectConcat(a, b[..|b|-1], fp);
      assert (a + b)[..|a + b|-1] == a + b[..|b|-1];
    }
  }

  /** A replay, seen from one fingerprint. */
  lemma ReplayIsLocal(f: Feed, batch: seq<Report>, faults: seq<Option<string>>, fp: string)
    requires |faults| == |batch|
    ensures var landed := Landed(batch, faults);
            && View(Replayed(f, batch, faults), fp) == Play(View(f, fp), Select(landed, fp) + Select(batch, fp))
            && View(Clean(f, batch), fp) == Play(View(f, fp), Select(batch, fp))
  {
    var landed := Landed(batch, faults);
    PlayConcat(f, landed, batch);
    PlayIsLocal(f, landed + batch, fp);
    PlayIsLocal(f, batch, fp);
    SelectConcat(landed, batch, fp);
  }

  // ---------------------------------------------------------------------
  // Batches that cannot be replayed
  // ---------------------------------------------------------------------

  lemma {:induction false} PlayAdvances(f: Feed, reports: seq<Report>)
    requires FeedInv(f.rows)
    ensures FeedInv(Play(f, reports).rows) && RowsAdvance(f.rows, Play(f, reports).rows)
  {
    if reports == [] {
    } else {
      var mid, last := Play(f, reports[..|reports|-1]), reports[|reports|-1];
      PlayAdvances(f, reports[..|reports|-1]);
      ShapeKept(mid, Handle(last, None));
      RowsAdvanceByOne(mid, Handle(last, None));
      RowsAdvanceFurther(f.rows, mid.rows, Apply(mid, last).rows);
    }
  }

  lemma ClosedLeavesNoneOpen(rows: seq<Incident>, fp: string, at: int)
    ensures !HasOpen(Closed(rows, fp, at), fp)
  {
  }

  lemma OpenAfter(f: Feed, r: Report, fp: string)
    requires About(r, fp)
    ensures HasOpen(Apply(f, r).rows, fp) <==> r.Opens?
    ensures |Apply(f, r).notices| == |f.notices| + (if r.Opens? && !HasOpen(f.rows, fp) then 1 else 0)
  {
    if r.Opens? {
      UpsertLeavesOpen(f.rows, fp, r.origin, r.shown);
    } else {
      ClosedLeavesNoneOpen(f.rows, fp, r.at);
    }
  }

  // From a table without an open row the batch notifies once more, if it starts by opening.
  lemma {:induction false} Growth(busy: Feed, idle: Feed, reports: seq<Report>, fp: string)
    requires HasOpen(busy.rows, fp) && !HasOpen(idle.rows, fp)
    requires reports != [] && forall r :: r in reports ==> About(r, fp)
    ensures |Play(idle, reports).notices| - |idle.notices|
            == |Play(busy, reports).notices| - |busy.notices| + (if reports[0].Opens? then 1 else 0)
    ensures HasOpen(Play(idle, reports).rows, fp) == HasOpen(Play(busy, reports).rows, fp)
  {
    var front, last := reports[..|reports|-1], reports[|reports|-1];
    assert last in reports;
    OpenAfter(Play(idle, front), last, fp);
    OpenAfter(Play(busy, front), last, fp);
    if front == [] {
    } else {
      assert forall r :: r in front ==> r in reports;
      Growth(busy, idle, front, fp);
    }
  }

  function BlankRow(fp: string): Incident {
    New(fp, Origin("", Technical, 0), Shown("", "", Info, ""))
  }

  // A table on which landing x alone, then the batch that starts with first, shows.
  function Witness(first: Report, x: Report, fp: string): Feed {
    if first.Opens? == x.Opens? then Feed(if x.Opens? then [] else [BlankRow(fp)], [])
    else Feed(if first.Opens? then [BlankRow(fp)] else [], [])
  }

  lemma WitnessView(first: Report, x: Report, fp: string)
    ensures View(Witness(first, x, fp), fp) == Witness(first, x, fp)
    ensures FeedInv(Witness(first, x, fp).rows)
    ensures HasOpen(Witness(first, x, fp).rows, fp) <==> Witness(first, x, fp).rows != []
  {
    var rows := Witness(first, x, fp).rows;
    if rows != [] { assert rows[..0] == [] && rows[0] == BlankRow(fp) && Unresolved(rows[0]); }
  }

  // After the first of the alerts, the oldest row keeps what that alert gave it.
  lemma FirstAlertSticks(f: Feed, reports: seq<Report>, fp: string)
    requires FeedInv(f.rows) && reports != []
    ensures FeedInv(Apply(f, reports[0]).rows)
    ensures RowsAdvance(Apply(f, reports[0]).rows, Play(f, reports).rows)
  {
    ShapeKept(f, Handle(reports[0], None));
    if reports[0].Nameless? { assert Apply(f, reports[0]) == f; }
    PlayConcat(f, [reports[0]], reports[1..]);
    assert [reports[0]] + reports[1..] == reports && [reports[0]][..0] == [];
    assert Play(f, [reports[0]]) == Apply(f, reports[0]);
    PlayAdvances(Apply(f, reports[0]), reports[1..]);
  }

  lemma WitnessShows(all: seq<Report>, x: Report, fp: string)
    requires all != [] && x in all && !Agree(all[0], x)
    requires forall r :: r in all ==> About(r, fp)
    ensures var f := Witness(all[0], x, fp);
            Play(Apply(f, x), all).rows != Play(f, all).rows
            || |Play(Apply(f, x), all).notices| != |Play(f, all).notices|
  {
    if all[0].Opens? != x.Opens? { CountsDiffer(all, x, fp); } else { OldestRowsDiffer(all, x, fp); }
  }

  lemma CountsDiffer(all: seq<Report>, x: Report, fp: string)
    requires all != [] && About(x, fp) && all[0].Opens? != x.Opens?
    requires forall r :: r in all ==> About(r, fp)
    ensures var f := Witness(all[0], x, fp);
            |Play(Apply(f, x), all).notices| != |Play(f, all).notices|
  {
    var f := Witness(all[0], x, fp);
    WitnessView(all[0], x, fp);
    OpenAfter(f, x, fp);
    if all[0].Opens? { Growth(f, Apply(f, x), all, fp); } else { Growth(Apply(f, x), f, all, fp); }
  }

  lemma OldestRowsDiffer(all: seq<Report>, x: Report, fp: string)
    requires all != [] && About(all[0], fp) && About(x, fp)
    requires all[0].Opens? == x.Opens? && !Agree(all[0], x)
    ensures var f := Witness(all[0], x, fp);
            Play(Apply(f, x), all).rows != Play(f, all).rows
  {
    var first := all[0];
    var f := Witness(first, x, fp);
    WitnessView(first, x, fp);
    FirstAlertSticks(f, all, fp);
    ShapeKept(f, Handle(x, None));
    PlayAdvances(Apply(f, x), all);
    assert Advances(Apply(f, first).rows[0], Play(f, all).rows[0]);
    assert Advances(Apply(f, x).rows[0], Play(Apply(f, x), all).rows[0]);
  }

  // Every statement fails but the one at p.
  function AllBut(n: nat, p: nat): seq<Option<string>> {
    seq(n, i => if i == p then None else Some(""))
  }

  lemma {:induction false} OnlyOneLands(batch: seq<Report>, p: nat)
    requires p < |batch| ==> !batch[p].Nameless?
    ensures Landed(batch, AllBut(|batch|, p)) == if p < |batch| then [batch[p]] else []
  {
    if batch == [] {
    } else {
      var n := |batch| - 1;
      assert AllBut(|batch|, p)[..n] == AllBut(n, p);
      OnlyOneLands(batch[..n], p);
    }
  }

  lemma ReplayOfOne(f: Feed, batch: seq<Report>, p: nat, fp: string)
    requires p < |batch| && About(batch[p], fp)
    ensures View(Replayed(f, batch, AllBut(|batch|, p)), fp)
            == Play(Apply(View(f, fp), batch[p]), Select(batch, fp))
    ensures View(Clean(f, batch), fp) == Play(View(f, fp), Select(batch, fp))
  {
    var x := batch[p];
    OnlyOneLands(batch, p);
    ReplayIsLocal(f, batch, AllBut(|batch|, p), fp);
    assert [x][..0] == [] && Select([x], fp) == [x];
    PlayConcat(View(f, fp), [x], Select(batch, fp));
    assert Play(View(f, fp), [x]) == Apply(View(f, fp), x);
  }

  lemma HarmfulReplay(batch: seq<Report>) returns (f: Feed, faults: seq<Option<string>>, fp: string)
    requires !Harmless(batch)
    ensures FeedInv(f.rows) && |faults| == |batch| && FirstError(batch, faults).Some?
    ensures !SameFor(Replayed(f, batch, faults), Clean(f, batch), fp)
  {
    var r, s :| r in batch && s in batch && !r.Nameless? && About(s, r.fingerprint) && !Agree(r, s);
    fp := r.fingerprint;
    var all := Select(batch, fp);
    SelectMembers(batch, fp);
    assert r in all && s in all;
    var first := all[0];
    assert first in all;
    var x := if Agree(first, r) then s else r;
    assert !Agree(first, x);
    var p :| 0 <= p < |batch| && batch[p] == x;
    var q :| 0 <= q < |batch| && batch[q] == first;
    f, faults := Witness(first, x, fp), AllBut(|batch|, p);
    assert Fails(batch, faults, q);
    FirstErrorIsFirst(batch, faults);
    ReplayOfOne(f, batch, p, fp);
    WitnessView(first, x, fp);
    WitnessShows(all, x, fp);
  }

  /** An alert that opens and one that closes in the same batch: the first statement fails
      while an incident is open, and the retry reopens the incident and notifies again,
      where a clean pass would only have closed it. */
  lemma ReopenedByRetry(fp: string, origin: Origin, shown: Shown, at: int, message: string)
    ensures var row := New(fp, origin, shown);
            var f := Feed([row], []);
            var batch := [Opens(fp, origin, shown), Closes(fp, at)];
            var resolved := row.(status := Resolved, resolvedAt := Some(at));
            && FirstError(batch, [Some(message), None]) == Some(Database(message))
            && Clean(f, batch) == Feed([resolved], [])
            && Replayed(f, batch, [Some(message), None]) == Feed([resolved, resolved], [row])
  {
    var resolved := New(fp, origin, shown).(status := Resolved, resolvedAt := Some(at));
    SecondAlertLands(Opens(fp, origin, shown), Closes(fp, at), message);
    ClosedOnce(fp, origin, shown, at, resolved);
    PlayAgain(fp, origin, shown, at, resolved);
  }

  lemma ClosedOnce(fp: string, origin: Origin, shown: Shown, at: int, resolved: Incident)
    requires resolved == New(fp, origin, shown).(status := Resolved, resolvedAt := Some(at))
    ensures var f := Feed([New(fp, origin, shown)], []);
            && Play(f, [Opens(fp, origin, shown), Closes(fp, at)]) == Feed([resolved], [])
            && Play(f, [Closes(fp, at)]) == Feed([resolved], [])
  {
    var f := Feed([New(fp, origin, shown)], []);
    var opens, closes := Opens(fp, origin, shown), Closes(fp, at);
    assert HasOpen(f.rows, fp) by { assert Unresolved(f.rows[0]); }
    assert Apply(f, opens) == f;
    assert Apply(f, closes) == Feed([resolved], []);
    PlayTwo(f, opens, closes);
    assert Play(f, [closes]) == Apply(f, closes) by { assert [closes][..0] == []; }
  }

  lemma SecondAlertLands(r: Report, s: Report, message: string)
    requires !r.Nameless? && !s.Nameless?
    ensures Landed([r, s], [Some(message), None]) == [s]
    ensures FirstError([r, s], [Some(message), None]) == Some(Database(message))
  {
    assert [r, s][..1] == [r] && [Some(message), None][..1] == [Some(message)];
    assert [r][..0] == [] && [Some(message)][..0] == [];
    assert Landed([r], [Some(message)]) == [] && FirstError([r], [Some(message)]) == Some(Database(message));
  }

  lemma PlayAgain(fp: string, origin: Origin, shown: Shown, at: int, resolved: Incident)
    requires resolved == New(fp, origin, shown).(status := Resolved, resolvedAt := Some(at))
    ensures Play(Feed([resolved], []), [Opens(fp, origin, shown), Closes(fp, at)])
            == Feed([resolved, resolved], [New(fp, origin, shown)])
  {
    var row := New(fp, origin, shown);
    PlayTwo(Feed([resolved], []), Opens(fp, origin, shown), Closes(fp, at));
    assert !HasOpen([resolved], fp);
    assert Closed([resolved, row], fp, at) == [resolved, resolved];
  }

  lemma PlayTwo(f: Feed, r: Report, s: Report)
    ensures Play(f, [r, s]) == Apply(Apply(f, r), s)
  {
    assert [r, s][..1] == [r] && [r][..0] == [];
    assert Play(f, [r]) == Apply(f, r);
  }
}
