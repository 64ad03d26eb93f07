/** The life of incidents over any run of alerts, acknowledgements and manual resolutions,
whatever statements fail. */
module IncidentHistory {
  import opened Outcomes
  import opened Incidents

  datatype Request = Handle(report: Report, fault: Option<string>) | ByHand(action: Action, fault: Option<string>)

  function Next(f: Feed, q: Request): Feed {
    match q
    case Handle(report, fault) => if Failure(report, fault).None? then Apply(f, report) else f
    case ByHand(action, fault) => f.(rows := Edited(f.rows, action, fault))
  }

  function After(f: Feed, run: seq<Request>): Feed {
    if run == [] then f else Next(After(f, run[..|run|-1]), run[|run|-1])
  }

  // The rows of one fingerprint, in order of insertion.
  function On(rows: seq<Incident>, fp: string): seq<Incident> {
    if rows == [] then []
    else
      var last := rows[|rows|-1];
      On(rows[..|rows|-1], fp) + (if last.fingerprint == fp then [last] else [])
  }

  // ---------------------------------------------------------------------
  // The shape of the table
  // ---------------------------------------------------------------------

  predicate WellFormed(i: Incident) {
    && (i.status == Resolved <==> i.resolvedAt.Some?)
    && (i.status == Firing ==> i.acknowledged.None?)
    && (i.status == Acknowledged ==> i.acknowledged.Some?)
  }

  // Only the newest row of a fingerprint can be unresolved.
  predicate OnlyNewestOpen(rows: seq<Incident>) {
    forall i, j :: 0 <= i < j < |rows| && rows[i].fingerprint == rows[j].fingerprint ==> rows[i].status == Resolved
  }

  predicate FeedInv(rows: seq<Incident>) {
    OnlyNewestOpen(rows) && forall i :: i in rows ==> WellFormed(i)
  }

  // ---------------------------------------------------------------------
  // How one row may change
  // ---------------------------------------------------------------------

  function Rank(s: Status): nat {
    match s case Firing => 0 case Acknowledged => 1 case Resolved => 2
  }

  predicate Advances(i: Incident, j: Incident) {
    && i.fingerprint == j.fingerprint && i.origin == j.origin
    && Rank(i.status) <= Rank(j.status)
    && (i.status == Resolved ==> j == i)
    && (i.acknowledged.Some? ==> j.acknowledged == i.acknowledged)
  }

  predicate RowsAdvance(before: seq<Incident>, after: seq<Incident>) {
    |before| <= |after| && forall k :: 0 <= k < |before| ==> Advances(before[k], after[k])
  }

  // Each row added comes with one notification, which shows it as it was inserted.
  predicate NotifiedOnce(f: Feed, after: Feed) {
    && f.notices <= after.notices
    && |after.notices| - |f.notices| == |after.rows| - |f.rows|
    && forall k :: |f.notices| <= k < |after.notices| ==>
         after.notices[k] == New(after.notices[k].fingerprint, after.notices[k].origin, after.notices[k].shown)
         && Advances(after.notices[k], after.rows[k - |f.notices| + |f.rows|])
  }

  // ---------------------------------------------------------------------
  // One request
  // ---------------------------------------------------------------------

  lemma ShapeKept(f: Feed, q: Request)
    requires FeedInv(f.rows)
    ensures FeedInv(Next(f, q).rows)
  {
    var after := Next(f, q).rows;
    if |after| == |f.rows| {
      forall k | 0 <= k < |after|
        ensures WellFormed(after[k]) && after[k].fingerprint == f.rows[k].fingerprint
        ensures f.rows[k].status == Resolved ==> after[k] == f.rows[k]
      {
        assert WellFormed(f.rows[k]);
      }
    } else {
      var n := |f.rows|;
      assert after[..n] == f.rows && WellFormed(after[n]);
    }
  }

  lemma RowsAdvanceByOne(f: Feed, q: Request)
    requires FeedInv(f.rows)
    ensures RowsAdvance(f.rows, Next(f, q).rows)
  {
    forall k | 0 <= k < |f.rows| ensures Advances(f.rows[k], Next(f, q).rows[k]) {
      assert WellFormed(f.rows[k]);
    }
  }

  lemma RowsAdvanceFurther(a: seq<Incident>, b: seq<Incident>, c: seq<Incident>)
    requires RowsAdvance(a, b) && RowsAdvance(b, c)
    ensures RowsAdvance(a, c)
  {
    forall k | 0 <= k < |a| ensures Advances(a[k], c[k]) {
      assert Advances(a[k], b[k]) && Advances(b[k], c[k]);
    }
  }

  lemma NotifiedOnceMore(f: Feed, mid: Feed, q: Request)
    requires NotifiedOnce(f, mid) && RowsAdvance(f.rows, mid.rows) && RowsAdvance(mid.rows, Next(mid, q).rows)
    ensures NotifiedOnce(f, Next(mid, q))
  {
    var after := Next(mid, q);
    forall k | |f.notices| <= k < |mid.notices|
      ensures after.notices[k] == mid.notices[k]
      ensures Advances(after.notices[k], after.rows[k - |f.notices| + |f.rows|])
    {
      var row := k - |f.notices| + |f.rows|;
      assert Advances(mid.notices[k], mid.rows[row]) && Advances(mid.rows[row], after.rows[row]);
    }
  }

  // ---------------------------------------------------------------------
  // Whole runs
  // ---------------------------------------------------------------------

  /** Over every run: a fingerprint never has two unresolved rows, resolved_at is set exactly
      on resolved rows, no row ever moves back or loses its origin or acknowledgement, a
      resolved row never changes, and each inserted row is notified exactly once. */
  lemma {:induction false} Lifecycle(f: Feed, run: seq<Request>)
    requires FeedInv(f.rows)
    ensures FeedInv(After(f, run).rows)
    ensures RowsAdvance(f.rows, After(f, run).rows)
    ensures NotifiedOnce(f, After(f, run))
  {
    if run == [] {
    } else {
      var before := run[..|run|-1];
      Lifecycle(f, before);
      var mid, q := After(f, before), run[|run|-1];
      ShapeKept(mid, q);
      RowsAdvanceByOne(mid, q);
      RowsAdvanceFurther(f.rows, mid.rows, Next(mid, q).rows);
      NotifiedOnceMore(f, mid, q);
    }
  }

  lemma {:induction false} AtMostOneUnresolved(f: Feed, run: seq<Request>, i: nat, j: nat)
    requires FeedInv(f.rows) && i < |After(f, run).rows| && j < |After(f, run).rows|
    requires Unresolved(After(f, run).rows[i]) && Unresolved(After(f, run).rows[j])
    ensures After(f, run).rows[i].fingerprint == After(f, run).rows[j].fingerprint <==> i == j
  {
    Lifecycle(f, run);
  }

  // The firing alerts of a fingerprint that were handled while it had no unresolved row.
  function Openings(f: Feed, run: seq<Request>, fp: string): nat {
    if run == [] then 0
    else
      var before, q := run[..|run|-1], run[|run|-1];
      Openings(f, before, fp)
      + if q.Handle? && q.report.Opens? && q.report.fingerprint == fp && q.fault.None?
           && !HasOpen(After(f, before).rows, fp) then 1 else 0
  }

  /** Notifications of a fingerprint = rows inserted for it = firing alerts handled while
      it had no unresolved row. */
  lemma {:induction false} NotificationsAreOpenings(f: Feed, run: seq<Request>, fp: string)
    ensures |On(After(f, run).notices, fp)| == |On(f.notices, fp)| + Openings(f, run, fp)
    ensures |On(After(f, run).rows, fp)| == |On(f.rows, fp)| + Openings(f, run, fp)
  {
    if run == [] {
    } else {
      var mid, q := After(f, run[..|run|-1]), run[|run|-1];
      NotificationsAreOpenings(f, run[..|run|-1], fp);
      OpeningsOfOne(mid, q, fp);
    }
  }

  lemma OpeningsOfOne(f: Feed, q: Request, fp: string)
    ensures var n := if q.Handle? && q.report.Opens? && q.report.fingerprint == fp && q.fault.None?
                        && !HasOpen(f.rows, fp) then 1 else 0;
            && |On(Next(f, q).notices, fp)| == |On(f.notices, fp)| + n
            && |On(Next(f, q).rows, fp)| == |On(f.rows, fp)| + n
  {
    var after := Next(f, q);
    if |after.rows| == |f.rows| {
      SameFingerprints(f.rows, after.rows, fp);
    } else {
      assert after.rows[..|f.rows|] == f.rows;
      assert after.notices[..|f.notices|] == f.notices;
    }
  }

  lemma {:induction false} SameFingerprints(a: seq<Incident>, b: seq<Incident>, fp: string)
    requires |a| == |b| && forall k :: 0 <= k < |a| ==> a[k].fingerprint == b[k].fingerprint
    ensures |On(a, fp)| == |On(b, fp)|
  {
    if a == [] {
    } else {
      SameFingerprints(a[..|a|-1], b[..|b|-1], fp);
    }
  }

  /** In a well-formed table, a resolved alert leaves its fingerprint without an unresolved
      row, and a firing one with exactly one, which shows the alert. */
  lemma AlertSettlesItsFingerprint(a: Alert, now: int, before: Feed, after: Feed)
    requires FeedInv(before.rows) && Obeyed(a, now, before, after)
    ensures a.resolved ==> !HasOpen(after.rows, a.fingerprint)
    ensures !a.resolved ==>
              exists i :: && 0 <= i < |after.rows| && Concerned(after.rows[i], a) && after.rows[i].shown == a.shown
                          && forall j :: 0 <= j < |after.rows| && Concerned(after.rows[j], a) ==> j == i
  {
    if !a.resolved {
      if i :| 0 <= i < |before.rows| && Concerned(before.rows[i], a) {
        assert Concerned(after.rows[i], a) && after.rows[i].shown == a.shown;
        forall j | 0 <= j < |after.rows| && Concerned(after.rows[j], a) ensures j == i {
          assert Concerned(before.rows[j], a);
        }
      } else {
        var n := |before.rows|;
        assert after.rows[..n] == before.rows && Concerned(after.rows[n], a);
        forall j | 0 <= j < n ensures !Concerned(after.rows[j], a) { assert after.rows[j] == before.rows[j]; }
      }
    }
  }
}
