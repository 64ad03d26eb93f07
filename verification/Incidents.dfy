/** The incident feed (backend/internal/incident): alerts open, refresh and close
incidents, and only a new incident notifies. */
module Incidents {
  import opened Outcomes

  datatype Status = Firing | Acknowledged | Resolved
  datatype Severity = Critical | Warning | Info
  datatype Family = Technical | Experience

  // What an incident keeps from the alert that opened it, and what every later alert of
  // the same fingerprint overwrites.
  datatype Origin = Origin(rule: string, family: Family, startedAt: int)
  datatype Shown = Shown(title: string, summary: string, severity: Severity, dashboardURL: string)
  datatype Acknowledgement = Acknowledgement(admin: string, at: int)

  // A row; its id is its position in the table.
  datatype Incident = Incident(
    fingerprint: string, origin: Origin, shown: Shown,
    status: Status, acknowledged: Option<Acknowledgement>, resolvedAt: Option<int>)

  datatype Alert = Alert(
    fingerprint: string, resolved: bool, startsAt: Option<int>, endsAt: Option<int>,
    rule: string, family: Family, shown: Shown)

  // What an alert asks for once its times are settled.
  datatype Report =
    | Nameless(title: string)
    | Opens(fingerprint: string, origin: Origin, shown: Shown)
    | Closes(fingerprint: string, at: int)

  datatype Error = NoFingerprint(title: string) | Database(message: string) | NotFound

  // A missing time is replaced by the time at which the alert is handled.
  function Settled(time: Option<int>, now: int): int {
    if time.Some? then time.value else now
  }

  function Read(a: Alert, now: int): Report {
    if a.fingerprint == "" then Nameless(a.shown.title)
    else if a.resolved then Closes(a.fingerprint, Settled(a.endsAt, now))
    else Opens(a.fingerprint, Origin(a.rule, a.family, Settled(a.startsAt, now)), a.shown)
  }

  function ReadAll(alerts: seq<Alert>, clock: seq<int>): (r: seq<Report>)
    requires |clock| == |alerts|
  {
    seq(|alerts|, i requires 0 <= i < |alerts| => Read(alerts[i], clock[i]))
  }

  predicate Timed(a: Alert) {
    if a.resolved then a.endsAt.Some? else a.startsAt.Some?
  }

  /** Alerts that carry their times are read the same whenever they are handled. */
  lemma TimedAlertsReadAlike(alerts: seq<Alert>, clock: seq<int>, later: seq<int>)
    requires |clock| == |alerts| == |later| && forall a :: a in alerts ==> Timed(a)
    ensures ReadAll(alerts, clock) == ReadAll(alerts, later)
  {
    assert forall i :: 0 <= i < |alerts| ==> alerts[i] in alerts;
  }

  // ---------------------------------------------------------------------
  // The statements
  // ---------------------------------------------------------------------

  predicate Unresolved(i: Incident) {
    i.status != Resolved
  }

  predicate HasOpen(rows: seq<Incident>, fingerprint: string) {
    exists i :: 0 <= i < |rows| && rows[i].fingerprint == fingerprint && Unresolved(rows[i])
  }

  function RefreshedRow(i: Incident, fingerprint: string, shown: Shown): Incident {
    if i.fingerprint == fingerprint && Unresolved(i) then i.(shown := shown) else i
  }

  function ClosedRow(i: Incident, fingerprint: string, at: int): Incident {
    if i.fingerprint == fingerprint && Unresolved(i) then i.(status := Resolved, resolvedAt := Some(at)) else i
  }

  function Refreshed(rows: seq<Incident>, fingerprint: string, shown: Shown): (r: seq<Incident>)
    ensures |r| == |rows| && forall i :: 0 <= i < |rows| ==> r[i] == RefreshedRow(rows[i], fingerprint, shown)
  {
    if rows == [] then []
    else Refreshed(rows[..|rows|-1], fingerprint, shown) + [RefreshedRow(rows[|rows|-1], fingerprint, shown)]
  }

  function Closed(rows: seq<Incident>, fingerprint: string, at: int): (r: seq<Incident>)
    ensures |r| == |rows| && forall i :: 0 <= i < |rows| ==> r[i] == ClosedRow(rows[i], fingerprint, at)
  {
    if rows == [] then []
    else Closed(rows[..|rows|-1], fingerprint, at) + [ClosedRow(rows[|rows|-1], fingerprint, at)]
  }

  function New(fingerprint: string, origin: Origin, shown: Shown): Incident {
    Incident(fingerprint, origin, shown, Firing, None, None)
  }

  // The upsert: the partial unique index makes an open row the conflicting one.
  function Upserted(rows: seq<Incident>, fingerprint: string, origin: Origin, shown: Shown): seq<Incident> {
    if HasOpen(rows, fingerprint) then Refreshed(rows, fingerprint, shown)
    else rows + [New(fingerprint, origin, shown)]
  }

  // ---------------------------------------------------------------------
  // What a batch means
  // ---------------------------------------------------------------------

  // The table and the notifications started so far.
  datatype Feed = Feed(rows: seq<Incident>, notices: seq<Incident>)

  function Apply(f: Feed, r: Report): Feed {
    match r
    case Nameless(_) => f
    case Closes(fp, at) => f.(rows := Closed(f.rows, fp, at))
    case Opens(fp, origin, shown) =>
      Feed(Upserted(f.rows, fp, origin, shown),
           if HasOpen(f.rows, fp) then f.notices else f.notices + [New(fp, origin, shown)])
  }

  function Play(f: Feed, reports: seq<Report>): Feed {
    if reports == [] then f else Apply(Play(f, reports[..|reports|-1]), reports[|reports|-1])
  }

  // How handling a report ends, given how its statement ends.
  function Failure(r: Report, fault: Option<string>): Option<Error> {
    if r.Nameless? then Some(NoFingerprint(r.title))
    else if fault.Some? then Some(Database(fault.value))
    else None
  }

  // The reports of a batch that take effect.
  function Landed(reports: seq<Report>, faults: seq<Option<string>>): seq<Report>
    requires |faults| == |reports|
  {
    if reports == [] then []
    else
      var n := |reports| - 1;
      Landed(reports[..n], faults[..n]) + (if Failure(reports[n], faults[n]).None? then [reports[n]] else [])
  }

  function FirstError(reports: seq<Report>, faults: seq<Option<string>>): Option<Error>
    requires |faults| == |reports|
  {
    if reports == [] then None
    else
      var n := |reports| - 1;
      var before := FirstError(reports[..n], faults[..n]);
      if before.Some? then before else Failure(reports[n], faults[n])
  }

  // ---------------------------------------------------------------------
  // The table and the service
  // ---------------------------------------------------------------------

  class Repository {
    var rows: seq<Incident>

    constructor ()
      ensures rows == []
    {
      rows := [];
    }

    // The open row of the fingerprint, refreshed or new, and whether it is new.
    method Open(fingerprint: string, origin: Origin, shown: Shown, fault: Option<string>)
      returns (r: Result<(Incident, bool), Error>)
      modifies this
      ensures fault.Some? ==> r == Err(Database(fault.value)) && rows == old(rows)
      ensures fault.None? ==>
                && r.Ok? && r.value.1 == !HasOpen(old(rows), fingerprint)
                && rows == Upserted(old(rows), fingerprint, origin, shown)
                && r.value.0 in rows && r.value.0.fingerprint == fingerprint && Unresolved(r.value.0)
                && r.value.0.shown == shown
                && (r.value.1 ==> r.value.0 == New(fingerprint, origin, shown))
    {
      if fault.Some? {
        return Err(Database(fault.value));
      }
      if HasOpen(rows, fingerprint) {
        var i :| 0 <= i < |rows| && rows[i].fingerprint == fingerprint && Unresolved(rows[i]);
        rows := Refreshed(rows, fingerprint, shown);
        r := Ok((rows[i], false));
      } else {
        rows := rows + [New(fingerprint, origin, shown)];
        r := Ok((rows[|rows|-1], true));
      }
    }

    // Closing a fingerprint without an open row is no error.
    method ResolveByFingerprint(fingerprint: string, at: int, fault: Option<string>) returns (r: Result<(), Error>)
      modifies this
      ensures r == if fault.Some? then Err(Database(fault.value)) else Ok(())
      ensures rows == if fault.Some? then old(rows) else Closed(old(rows), fingerprint, at)
    {
      if fault.Some? {
        return Err(Database(fault.value));
      }
      rows := Closed(rows, fingerprint, at);
      r := Ok(());
    }

    method Acknowledge(id: nat, admin: string, at: int, fault: Option<string>) returns (r: Result<Incident, Error>)
      modifies this
      ensures rows == Edited(old(rows), Action.Acknowledge(id, admin, at), fault)
      ensures r == Returned(old(rows), Action.Acknowledge(id, admin, at), fault)
      ensures r.Ok? <==> fault.None? && id < |old(rows)| && old(rows)[id].status == Firing
      ensures r.Ok? ==> var i := old(rows)[id];
                        rows == old(rows)[id := Incident(i.fingerprint, i.origin, i.shown, Acknowledged,
                                                         Some(Acknowledgement(admin, at)), i.resolvedAt)]
    {
      if fault.Some? {
        return Err(Database(fault.value));
      }
      if |rows| <= id || rows[id].status != Firing {
        return Err(NotFound);
      }
      rows := rows[id := rows[id].(status := Acknowledged, acknowledged := Some(Acknowledgement(admin, at)))];
      r := Ok(rows[id]);
    }

    method Resolve(id: nat, at: int, fault: Option<string>) returns (r: Result<Incident, Error>)
      modifies this
      ensures rows == Edited(old(rows), Action.Resolve(id, at), fault)
      ensures r == Returned(old(rows), Action.Resolve(id, at), fault)
      ensures r.Ok? <==> fault.None? && id < |old(rows)| && old(rows)[id].status in {Firing, Acknowledged}
      ensures r.Ok? ==> var i := old(rows)[id];
                        rows == old(rows)[id := Incident(i.fingerprint, i.origin, i.shown, Resolved,
                                                         i.acknowledged, Some(at))]
    {
      if fault.Some? {
        return Err(Database(fault.value));
      }
      if |rows| <= id || rows[id].status == Resolved {
        return Err(NotFound);
      }
      rows := rows[id := rows[id].(status := Resolved, resolvedAt := Some(at))];
      r := Ok(rows[id]);
    }
  }

  // What an admin does by hand.
  datatype Action = Acknowledge(id: nat, admin: string, at: int) | Resolve(id: nat, at: int)

  predicate Permits(i: Incident, a: Action) {
    match a
    case Acknowledge(_, _, _) => i.status == Firing
    case Resolve(_, _) => Unresolved(i)
  }

  predicate Allows(rows: seq<Incident>, a: Action) {
    a.id < |rows| && Permits(rows[a.id], a)
  }

  function Edit(i: Incident, a: Action): Incident {
    match a
    case Acknowledge(_, admin, at) => i.(status := Acknowledged, acknowledged := Some(Acknowledgement(admin, at)))
    case Resolve(_, at) => i.(status := Resolved, resolvedAt := Some(at))
  }

  function Edited(rows: seq<Incident>, a: Action, fault: Option<string>): seq<Incident> {
    if fault.None? && Allows(rows, a) then rows[a.id := Edit(rows[a.id], a)] else rows
  }

  function Returned(rows: seq<Incident>, a: Action, fault: Option<string>): Result<Incident, Error> {
    if fault.Some? then Err(Database(fault.value))
    else if Allows(rows, a) then Ok(Edit(rows[a.id], a))
    else Err(NotFound)
  }

  // ---------------------------------------------------------------------
  // What an alert does to the table
  // ---------------------------------------------------------------------

  // A row that a resolved alert closes, or a firing one refreshes.
  predicate Concerned(i: Incident, a: Alert) {
    i.fingerprint == a.fingerprint && i.status != Resolved
  }

  // A resolved alert resolves the unresolved rows of its fingerprint, at its end time or
  // else now.
  ghost predicate ClosedBy(a: Alert, now: int, before: Feed, after: Feed) {
    && after.notices == before.notices && |after.rows| == |before.rows|
    && forall i :: 0 <= i < |before.rows| ==>
         after.rows[i] == if Concerned(before.rows[i], a)
                          then before.rows[i].(status := Resolved,
                                               resolvedAt := Some(match a.endsAt case Some(t) => t case None => now))
                          else before.rows[i]
  }

  // A firing alert shows itself on the unresolved rows of its fingerprint, or adds a row
  // with its own rule, family and start, and notifies with it.
  ghost predicate OpenedBy(a: Alert, now: int, before: Feed, after: Feed) {
    if exists i :: 0 <= i < |before.rows| && Concerned(before.rows[i], a) then
      && after.notices == before.notices && |after.rows| == |before.rows|
      && forall i :: 0 <= i < |before.rows| ==>
           after.rows[i] == if Concerned(before.rows[i], a) then before.rows[i].(shown := a.shown) else before.rows[i]
    else
      var started := match a.startsAt case Some(t) => t case None => now;
      var row := Incident(a.fingerprint, Origin(a.rule, a.family, started), a.shown, Firing, None, None);
      after == Feed(before.rows + [row], before.notices + [row])
  }

  ghost predicate Obeyed(a: Alert, now: int, before: Feed, after: Feed) {
    if a.resolved then ClosedBy(a, now, before, after) else OpenedBy(a, now, before, after)
  }

  lemma ReadIsObeyed(f: Feed, a: Alert, now: int)
    requires a.fingerprint != ""
    ensures Obeyed(a, now, f, Apply(f, Read(a, now)))
  {
    assert a.resolved || HasOpen(f.rows, a.fingerprint)
           <==> a.resolved || exists i :: 0 <= i < |f.rows| && Concerned(f.rows[i], a);
  }

  class Service {
    const repo: Repository
    var notices: seq<Incident>

    constructor (repo: Repository)
      ensures this.repo == repo && notices == []
    {
      this.repo, notices := repo, [];
    }

    /** Applies one batch: clock holds the time at which each alert is handled and faults
        how each statement ends.  A failure does not stop the batch; the first is returned. */
    method Ingest(alerts: seq<Alert>, clock: seq<int>, faults: seq<Option<string>>) returns (firstErr: Option<Error>)
      requires |clock| == |alerts| == |faults|
      modifies this, repo
      ensures firstErr == FirstError(ReadAll(alerts, clock), faults)
      ensures Feed(repo.rows, notices)
              == Play(Feed(old(repo.rows), old(notices)), Landed(ReadAll(alerts, clock), faults))
      ensures |alerts| == 1 && alerts[0].fingerprint != "" && faults[0].None? ==>
                && firstErr == None
                && Obeyed(alerts[0], clock[0], Feed(old(repo.rows), old(notices)), Feed(repo.rows, notices))
    {
      ghost var reports, was := ReadAll(alerts, clock), Feed(repo.rows, notices);
      firstErr := None;
      for i := 0 to |alerts|
        invariant firstErr == FirstError(reports[..i], faults[..i])
        invariant Feed(repo.rows, notices) == Play(was, Landed(reports[..i], faults[..i]))
      {
        OneMoreReport(was, reports, faults, i);
        var err := IngestOne(alerts[i], clock[i], faults[i]);
        if err.Some? && firstErr.None? {
          firstErr := err;
        }
      }
      assert reports[..|alerts|] == reports && faults[..|alerts|] == faults;
      if |alerts| == 1 && alerts[0].fingerprint != "" && faults[0].None? {
        BatchOfOne(was, reports[0]);
        ReadIsObeyed(was, alerts[0], clock[0]);
      }
    }

    method IngestOne(alert: Alert, now: int, fault: Option<string>) returns (err: Option<Error>)
      modifies this, repo
      ensures err == Failure(Read(alert, now), fault)
      ensures Feed(repo.rows, notices)
              == if err.Some? then Feed(old(repo.rows), old(notices))
                 else Apply(Feed(old(repo.rows), old(notices)), Read(alert, now))
      ensures alert.fingerprint == "" ==> err == Some(NoFingerprint(alert.shown.title))
      ensures alert.fingerprint != "" ==> err == if fault.Some? then Some(Database(fault.value)) else None
      ensures err.Some? ==> repo.rows == old(repo.rows) && notices == old(notices)
      ensures err.None? ==> Obeyed(alert, now, Feed(old(repo.rows), old(notices)), Feed(repo.rows, notices))
    {
      if alert.fingerprint != "" { ReadIsObeyed(Feed(repo.rows, notices), alert, now); }
      if alert.fingerprint == "" {
        return Some(NoFingerprint(alert.shown.title));
      }
      if alert.resolved {
        var closed := repo.ResolveByFingerprint(alert.fingerprint, Settled(alert.endsAt, now), fault);
        return if closed.Err? then Some(closed.error) else None;
      }
      var origin := Origin(alert.rule, alert.family, Settled(alert.startsAt, now));
      var outcome := repo.Open(alert.fingerprint, origin, alert.shown, fault);
      if outcome.Err? {
        return Some(outcome.error);
      }
      if outcome.value.1 {
        notices := notices + [outcome.value.0];
      }
      err := None;
    }
  }

  lemma BatchOfOne(f: Feed, r: Report)
    requires !r.Nameless?
    ensures Play(f, Landed([r], [None])) == Apply(f, r) && FirstError([r], [None]) == None
  {
    assert [r][..0] == [] && [Option<string>.None][..0] == [];
    assert Landed([r], [None]) == [r];
    assert Play(f, []) == f;
  }

  // How one alert of a batch moves the feed.
  ghost predicate Moved(a: Alert, now: int, fault: Option<string>, before: Feed, after: Feed) {
    if a.fingerprint == "" || fault.Some? then after == before else Obeyed(a, now, before, after)
  }

  /** A batch is its alerts one by one, in order: those without a fingerprint or with a
      failing statement do nothing, the others what their own fields say. */
  lemma {:induction false} BatchGoesAlertByAlert(f: Feed, alerts: seq<Alert>, clock: seq<int>,
                                                 faults: seq<Option<string>>)
    returns (feeds: seq<Feed>)
    requires |clock| == |alerts| == |faults|
    ensures |feeds| == |alerts| + 1 && feeds[0] == f
    ensures feeds[|alerts|] == Play(f, Landed(ReadAll(alerts, clock), faults))
    ensures forall i :: 0 <= i < |alerts| ==> Moved(alerts[i], clock[i], faults[i], feeds[i], feeds[i + 1])
  {
    if alerts == [] {
      feeds := [f];
    } else {
      var n := |alerts| - 1;
      feeds := BatchGoesAlertByAlert(f, alerts[..n], clock[..n], faults[..n]);
      var reports := ReadAll(alerts, clock);
      assert reports[..n] == ReadAll(alerts[..n], clock[..n]);
      assert reports[..n + 1] == reports && faults[..n + 1] == faults;
      OneMoreReport(f, reports, faults, n);
      if alerts[n].fingerprint != "" { ReadIsObeyed(feeds[n], alerts[n], clock[n]); }
      feeds := feeds + [Play(f, Landed(reports, faults))];
    }
  }

  lemma OneMoreReport(f: Feed, reports: seq<Report>, faults: seq<Option<string>>, i: nat)
    requires i < |reports| == |faults|
    ensures var landed := Landed(reports[..i], faults[..i]);
            && Play(f, Landed(reports[..i + 1], faults[..i + 1]))
               == (if Failure(reports[i], faults[i]).None? then Apply(Play(f, landed), reports[i]) else Play(f, landed))
            && FirstError(reports[..i + 1], faults[..i + 1])
               == (if FirstError(reports[..i], faults[..i]).Some? then FirstError(reports[..i], faults[..i])
                   else Failure(reports[i], faults[i]))
  {
    assert reports[..i + 1][..i] == reports[..i] && faults[..i + 1][..i] == faults[..i];
    var landed := Landed(reports[..i], faults[..i]);
    assert (landed + [reports[i]])[..|landed|] == landed;
    assert landed + [] == landed;
  }
}
