/** What can happen to the feed between two deliveries of a batch: other alerts, and admins
who acknowledge and resolve incidents. */
module IncidentBetween {
  import opened Outcomes
  import opened Incidents
  import opened IncidentHistory
  import opened IncidentReplay

  // An admin's action names its incident as the n-th of its fingerprint, which does not
  // depend on what other fingerprints do to the table.
  datatype Act = Sent(report: Report) | Hand(fingerprint: string, n: nat, action: Action)

  function EditedIfPermitted(i: Incident, a: Action): Incident {
    if Permits(i, a) then Edit(i, a) else i
  }

  function ByName(rows: seq<Incident>, fp: string, n: nat, a: Action): seq<Incident> {
    if rows == [] then []
    else
      var front, last := rows[..|rows|-1], rows[|rows|-1];
      ByName(front, fp, n, a)
      + [if last.fingerprint == fp && |On(front, fp)| == n then EditedIfPermitted(last, a) else last]
  }

  function Perform(f: Feed, act: Act): Feed {
    match act
    case Sent(report) => Apply(f, report)
    case Hand(fp, n, action) => f.(rows := ByName(f.rows, fp, n, action))
  }

  function PerformAll(f: Feed, acts: seq<Act>): Feed {
    if acts == [] then f else Perform(PerformAll(f, acts[..|acts|-1]), acts[|acts|-1])
  }

  predicate Concerns(act: Act, fp: string) {
    match act
    case Sent(report) => About(report, fp)
    case Hand(fingerprint, _, _) => fingerprint == fp
  }

  function Concerning(acts: seq<Act>, fp: string): seq<Act> {
    if acts == [] then []
    else
      var last := acts[|acts|-1];
      Concerning(acts[..|acts|-1], fp) + (if Concerns(last, fp) then [last] else [])
  }

  // ---------------------------------------------------------------------
  // Names and ids
  // ---------------------------------------------------------------------

  lemma {:induction false} ByNameBeyond(rows: seq<Incident>, fp: string, n: nat, a: Action)
    requires n >= |On(rows, fp)|
    ensures ByName(rows, fp, n, a) == rows
  {
    if rows == [] {
    } else {
      ByNameBeyond(rows[..|rows|-1], fp, n, a);
    }
  }

  lemma {:induction false} OnGrows(rows: seq<Incident>, fp: string, id: nat)
    requires id < |rows| && rows[id].fingerprint == fp
    ensures |On(rows[..id], fp)| < |On(rows, fp)|
  {
    var front := rows[..|rows|-1];
    if id == |rows| - 1 {
    } else {
      assert front[..id] == rows[..id];
      OnGrows(front, fp, id);
    }
  }

  lemma ByNameOneMore(front: seq<Incident>, last: Incident, fp: string, n: nat, a: Action)
    ensures ByName(front + [last], fp, n, a)
         == ByName(front, fp, n, a)
            + [if last.fingerprint == fp && |On(front, fp)| == n then EditedIfPermitted(last, a) else last]
  {
    assert (front + [last])[..|front|] == front;
  }

  lemma OnOneMore(front: seq<Incident>, last: Incident, fp: string)
    ensures On(front + [last], fp) == if last.fingerprint == fp then On(front, fp) + [last] else On(front, fp)
  {
    assert (front + [last])[..|front|] == front;
  }

  lemma EditedOneMore(front: seq<Incident>, last: Incident, a: Action)
    ensures Edited(front + [last], a, None)
         == if a.id == |front| then front + [EditedIfPermitted(last, a)] else Edited(front, a, None) + [last]
  {
  }

  /** An action on a row by its id is the action on that incident by its name. */
  lemma {:induction false} ActionByName(rows: seq<Incident>, a: Action)
    requires a.id < |rows|
    ensures Edited(rows, a, None)
         == ByName(rows, rows[a.id].fingerprint, |On(rows[..a.id], rows[a.id].fingerprint)|, a)
  {
    var front, last, fp := rows[..|rows|-1], rows[|rows|-1], rows[a.id].fingerprint;
    var n := |On(rows[..a.id], fp)|;
    assert rows == front + [last];
    ByNameOneMore(front, last, fp, n, a);
    EditedOneMore(front, last, a);
    if a.id == |front| {
      ByNameBeyond(front, fp, n, a);
    } else {
      assert front[..a.id] == rows[..a.id];
      ActionByName(front, a);
      OnGrows(front, fp, a.id);
    }
  }

  // ---------------------------------------------------------------------
  // One fingerprint at a time
  // ---------------------------------------------------------------------

  lemma {:induction false} OnTwice(rows: seq<Incident>, fp: string)
    ensures On(On(rows, fp), fp) == On(rows, fp)
  {
    if rows == [] {
    } else {
      OnTwice(rows[..|rows|-1], fp);
      OnOneMore(On(rows[..|rows|-1], fp), rows[|rows|-1], fp);
    }
  }

  lemma {:induction false} ByNameIsLocal(rows: seq<Incident>, about: string, n: nat, a: Action, fp: string)
    ensures On(ByName(rows, about, n, a), fp)
         == if about == fp then ByName(On(rows, fp), about, n, a) else On(rows, fp)
  {
    if rows == [] {
    } else {
      var front, last := rows[..|rows|-1], rows[|rows|-1];
      ByNameIsLocal(front, about, n, a, fp);
      assert rows == front + [last];
      if about == fp {
        OwnNameStep(front, last, n, a, fp);
      } else {
        OtherNameStep(front, last, about, n, a, fp);
      }
    }
  }

  lemma OwnNameStep(front: seq<Incident>, last: Incident, n: nat, a: Action, fp: string)
    requires On(ByName(front, fp, n, a), fp) == ByName(On(front, fp), fp, n, a)
    ensures On(ByName(front + [last], fp, n, a), fp) == ByName(On(front + [last], fp), fp, n, a)
  {
    var edited := if last.fingerprint == fp && |On(front, fp)| == n then EditedIfPermitted(last, a) else last;
    ByNameOneMore(front, last, fp, n, a);
    OnOneMore(ByName(front, fp, n, a), edited, fp);
    OnOneMore(front, last, fp);
    OnTwice(front, fp);
    if last.fingerprint == fp { ByNameOneMore(On(front, fp), last, fp, n, a); }
  }

  lemma OtherNameStep(front: seq<Incident>, last: Incident, about: string, n: nat, a: Action, fp: string)
    requires about != fp && On(ByName(front, about, n, a), fp) == On(front, fp)
    ensures On(ByName(front + [last], about, n, a), fp) == On(front + [last], fp)
  {
    var edited := if last.fingerprint == about && |On(front, about)| == n then EditedIfPermitted(last, a) else last;
    ByNameOneMore(front, last, about, n, a);
    OnOneMore(ByName(front, about, n, a), edited, fp);
    OnOneMore(front, last, fp);
  }

  lemma PerformIsLocal(f: Feed, act: Act, fp: string)
    ensures View(Perform(f, act), fp) == if Concerns(act, fp) then Perform(View(f, fp), act) else View(f, fp)
  {
    match act
    case Sent(report) => ApplyIsLocal(f, report, fp);
    case Hand(about, n, action) => ByNameIsLocal(f.rows, about, n, action, fp);
  }

  /** What others do to one fingerprint depends on it alone, too. */
  lemma {:induction false} PerformAllIsLocal(f: Feed, acts: seq<Act>, fp: string)
    ensures View(PerformAll(f, acts), fp) == PerformAll(View(f, fp), Concerning(acts, fp))
  {
    if acts == [] {
    } else {
      var front, last := acts[..|acts|-1], acts[|acts|-1];
      PerformAllIsLocal(f, front, fp);
      PerformIsLocal(PerformAll(f, front), last, fp);
      var some := Concerning(front, fp);
      if Concerns(last, fp) {
        assert (some + [last])[..|some|] == some && (some + [last])[|some|] == last;
      } else {
        assert Concerning(acts, fp) == some;
      }
    }
  }

  lemma {:induction false} PerformAllConcat(f: Feed, a: seq<Act>, b: seq<Act>)
    ensures PerformAll(f, a + b) == PerformAll(PerformAll(f, a), b)
  {
    if b == [] {
      assert a + b == a;
    } else {
      PerformAllConcat(f, a, b[..|b|-1]);
      assert (a + b)[..|a + b|-1] == a + b[..|b|-1];
    }
  }

  lemma {:induction false} ConcerningConcat(a: seq<Act>, b: seq<Act>, fp: string)
    ensures Concerning(a + b, fp) == Concerning(a, fp) + Concerning(b, fp)
  {
    if b == [] {
      assert a + b == a;
    } else {
      ConcerningConcat(a, b[..|b|-1], fp);
      assert (a + b)[..|a + b|-1] == a + b[..|b|-1];
    }
  }

  lemma {:induction false} NobodyConcerned(acts: seq<Act>, fp: string)
    requires forall act :: act in acts ==> !Concerns(act, fp)
    ensures Concerning(acts, fp) == []
  {
    if acts == [] {
    } else {
      NobodyConcerned(acts[..|acts|-1], fp);
    }
  }
}
