/** Any number of failing deliveries of a batch, with other requests in between, and a last
clean one: when does it all amount to one clean pass? */
module IncidentRetry {
  import opened Outcomes
  import opened Incidents
  import opened IncidentHistory
  import opened IncidentReplay
  import opened IncidentBetween

  // One delivery, how its statements end, and what others do before the next.
  datatype Round = Round(faults: seq<Option<string>>, between: seq<Act>)

  predicate Fits(batch: seq<Report>, rounds: seq<Round>) {
    forall i :: 0 <= i < |rounds| ==> |rounds[i].faults| == |batch|
  }

  function Passed(f: Feed, batch: seq<Report>, rounds: seq<Round>): Feed
    requires Fits(batch, rounds)
  {
    if rounds == [] then f
    else
      var last := rounds[|rounds|-1];
      PerformAll(Play(Passed(f, batch, rounds[..|rounds|-1]), Landed(batch, last.faults)), last.between)
  }

  function Retried(f: Feed, batch: seq<Report>, rounds: seq<Round>): Feed
    requires Fits(batch, rounds)
  {
    Play(Passed(f, batch, rounds), batch)
  }

  function Between(rounds: seq<Round>): seq<Act> {
    if rounds == [] then [] else Between(rounds[..|rounds|-1]) + rounds[|rounds|-1].between
  }

  // The batch goes through at once, and the others follow.
  function Ideal(f: Feed, batch: seq<Report>, rounds: seq<Round>): Feed {
    PerformAll(Clean(f, batch), Between(rounds))
  }

  predicate AllReported(batch: seq<Report>, rounds: seq<Round>)
    requires Fits(batch, rounds)
  {
    forall i :: 0 <= i < |rounds| ==> FirstError(batch, rounds[i].faults).Some?
  }

  // What others do concerns the given fingerprints only.
  ghost predicate Within(acts: seq<Act>, touched: set<string>) {
    forall act, fp :: act in acts && Concerns(act, fp) ==> fp in touched
  }

  predicate Disjoint(batch: seq<Report>, touched: set<string>) {
    forall r :: r in batch && !r.Nameless? ==> r.fingerprint !in touched
  }

  // However often the batch fails and is retried, on any table, with others doing anything
  // to the fingerprints in touched: all is as if it had gone through at once.
  ghost predicate RetrySafe(batch: seq<Report>, touched: set<string>) {
    forall f: Feed, rounds: seq<Round> |
      FeedInv(f.rows) && Fits(batch, rounds) && AllReported(batch, rounds) && Within(Between(rounds), touched)
      :: Same(Retried(f, batch, rounds), Ideal(f, batch, rounds))
  }

  // ---------------------------------------------------------------------
  // Retries that work
  // ---------------------------------------------------------------------

  // The alerts that took effect in some round.
  function LandedAll(batch: seq<Report>, rounds: seq<Round>): seq<Report>
    requires Fits(batch, rounds)
  {
    if rounds == [] then []
    else LandedAll(batch, rounds[..|rounds|-1]) + Landed(batch, rounds[|rounds|-1].faults)
  }

  lemma {:induction false} LandedAllMembers(batch: seq<Report>, rounds: seq<Round>)
    requires Fits(batch, rounds)
    ensures forall r :: r in LandedAll(batch, rounds) ==> r in batch && !r.Nameless?
  {
    if rounds == [] {
    } else {
      LandedAllMembers(batch, rounds[..|rounds|-1]);
      LandedMembers(batch, rounds[|rounds|-1].faults);
    }
  }

  // A fingerprint the others leave alone sees the landed alerts only.
  lemma {:induction false} RoundsOnBatch(f: Feed, batch: seq<Report>, rounds: seq<Round>, fp: string)
    requires Fits(batch, rounds) && Concerning(Between(rounds), fp) == []
    ensures View(Passed(f, batch, rounds), fp) == Play(View(f, fp), Select(LandedAll(batch, rounds), fp))
  {
    if rounds == [] {
    } else {
      var front, last := rounds[..|rounds|-1], rounds[|rounds|-1];
      var landed := Landed(batch, last.faults);
      ConcerningConcat(Between(front), last.between, fp);
      RoundsOnBatch(f, batch, front, fp);
      PlayIsLocal(Passed(f, batch, front), landed, fp);
      PerformAllIsLocal(Play(Passed(f, batch, front), landed), last.between, fp);
      SelectConcat(LandedAll(batch, front), landed, fp);
      PlayConcat(View(f, fp), Select(LandedAll(batch, front), fp), Select(landed, fp));
    }
  }

  // A fingerprint the batch leaves alone sees the others only.
  lemma {:induction false} RoundsOnOthers(f: Feed, batch: seq<Report>, rounds: seq<Round>, fp: string)
    requires Fits(batch, rounds) && forall r :: r in batch ==> !About(r, fp)
    ensures View(Passed(f, batch, rounds), fp) == PerformAll(View(f, fp), Concerning(Between(rounds), fp))
  {
    if rounds == [] {
    } else {
      var front, last := rounds[..|rounds|-1], rounds[|rounds|-1];
      RoundsOnOthers(f, batch, front, fp);
      LandedMembers(batch, last.faults);
      NotAbout(Passed(f, batch, front), Landed(batch, last.faults), fp);
      PerformAllIsLocal(Play(Passed(f, batch, front), Landed(batch, last.faults)), last.between, fp);
      ConcerningConcat(Between(front), last.between, fp);
      PerformAllConcat(View(f, fp), Concerning(Between(front), fp), Concerning(last.between, fp));
    }
  }

  lemma NotAbout(f: Feed, reports: seq<Report>, fp: string)
    requires forall r :: r in reports ==> !About(r, fp)
    ensures View(Play(f, reports), fp) == View(f, fp)
  {
    PlayIsLocal(f, reports, fp);
    NoneSelected(reports, fp);
  }

  lemma {:induction false} NoneSelected(reports: seq<Report>, fp: string)
    requires forall r :: r in reports ==> !About(r, fp)
    ensures Select(reports, fp) == []
  {
    if reports == [] {
    } else {
      NoneSelected(reports[..|reports|-1], fp);
    }
  }

  lemma RetryOfBatch(f: Feed, batch: seq<Report>, rounds: seq<Round>, fp: string)
    requires Fits(batch, rounds) && Harmless(batch) && Concerning(Between(rounds), fp) == []
    ensures SameFor(Retried(f, batch, rounds), Ideal(f, batch, rounds), fp)
  {
    var landed := LandedAll(batch, rounds);
    RoundsOnBatch(f, batch, rounds, fp);
    PlayIsLocal(Passed(f, batch, rounds), batch, fp);
    PlayConcat(View(f, fp), Select(landed, fp), Select(batch, fp));
    PlayIsLocal(f, batch, fp);
    PerformAllIsLocal(Clean(f, batch), Between(rounds), fp);
    LandedAllMembers(batch, rounds);
    SelectMembers(landed, fp);
    SelectMembers(batch, fp);
    AgreeingReplay(View(f, fp), Select(landed, fp), Select(batch, fp), fp);
  }

  lemma RetryOfOthers(f: Feed, batch: seq<Report>, rounds: seq<Round>, fp: string)
    requires Fits(batch, rounds) && forall r :: r in batch ==> !About(r, fp)
    ensures SameFor(Retried(f, batch, rounds), Ideal(f, batch, rounds), fp)
  {
    RoundsOnOthers(f, batch, rounds, fp);
    NotAbout(Passed(f, batch, rounds), batch, fp);
    NotAbout(f, batch, fp);
    PerformAllIsLocal(Clean(f, batch), Between(rounds), fp);
  }

  lemma HarmlessRetry(f: Feed, batch: seq<Report>, rounds: seq<Round>, touched: set<string>)
    requires Fits(batch, rounds) && Harmless(batch) && Disjoint(batch, touched) && Within(Between(rounds), touched)
    ensures Same(Retried(f, batch, rounds), Ideal(f, batch, rounds))
  {
    forall fp ensures SameFor(Retried(f, batch, rounds), Ideal(f, batch, rounds), fp) {
      if forall r :: r in batch ==> !About(r, fp) {
        RetryOfOthers(f, batch, rounds, fp);
      } else {
        NobodyConcerned(Between(rounds), fp);
        RetryOfBatch(f, batch, rounds, fp);
      }
    }
  }

  // ---------------------------------------------------------------------
  // Retries that do not
  // ---------------------------------------------------------------------

  lemma OneRound(f: Feed, batch: seq<Report>, round: Round)
    requires |round.faults| == |batch|
    ensures Fits(batch, [round])
    ensures Passed(f, batch, [round]) == PerformAll(Play(f, Landed(batch, round.faults)), round.between)
    ensures Between([round]) == round.between
  {
    assert [round][..0] == [];
    assert Passed(f, batch, [round][..0]) == f;
    assert Between([round][..0]) == [];
  }

  // What an intruder can do to a fingerprint of the batch: resolve the incident the batch
  // would refresh, or open the one it would close.
  function Intrusion(r: Report): Act
    requires !r.Nameless?
  {
    if r.Opens? then Hand(r.fingerprint, 0, Resolve(0, 0))
    else Sent(Opens(r.fingerprint, Origin("", Technical, 0), Shown("", "", Info, "")))
  }

  function Target(r: Report): Feed
    requires !r.Nameless?
  {
    Feed(if r.Opens? then [BlankRow(r.fingerprint)] else [], [])
  }

  lemma TargetView(r: Report)
    requires !r.Nameless?
    ensures View(Target(r), r.fingerprint) == Target(r) && FeedInv(Target(r).rows)
    ensures HasOpen(Target(r).rows, r.fingerprint) <==> r.Opens?
    ensures HasOpen(Perform(Target(r), Intrusion(r)).rows, r.fingerprint) <==> r.Closes?
    ensures r.Opens? ==> Perform(Target(r), Intrusion(r)).notices == []
  {
    var rows, fp := Target(r).rows, r.fingerprint;
    if r.Opens? {
      assert rows[..0] == [] && rows[0] == BlankRow(fp) && Unresolved(rows[0]);
      assert ByName([], fp, 0, Resolve(0, 0)) == [] && On([], fp) == [];
      assert Perform(Target(r), Intrusion(r)).rows == [EditedIfPermitted(BlankRow(fp), Resolve(0, 0))];
    } else {
      UpsertLeavesOpen(rows, fp, Origin("", Technical, 0), Shown("", "", Info, ""));
    }
  }

  // On one fingerprint: intruding before alerts that agree differs from intruding after.
  lemma IntrusionShows(all: seq<Report>, r: Report)
    requires r in all && !r.Nameless?
    requires forall x :: x in all ==> About(x, r.fingerprint) && Agree(r, x)
    ensures var early, late := Play(Perform(Target(r), Intrusion(r)), all), Perform(Play(Target(r), all), Intrusion(r));
            early.rows != late.rows || |early.notices| != |late.notices|
  {
    var fp := r.fingerprint;
    var f := Target(r);
    TargetView(r);
    if r.Opens? {
      OpensCollapse(f, all, fp, r.origin);
      OpensCollapse(Perform(f, Intrusion(r)), all, fp, r.origin);
    } else {
      ClosesCollapse(f, all, fp, r.at);
      ClosesCollapse(Perform(f, Intrusion(r)), all, fp, r.at);
      ClosedLeavesNoneOpen(Perform(f, Intrusion(r)).rows, fp, r.at);
      UpsertLeavesOpen(Play(f, all).rows, fp, Origin("", Technical, 0), Shown("", "", Info, ""));
    }
  }

  lemma NothingLands(batch: seq<Report>, i: nat)
    requires i < |batch|
    ensures |AllBut(|batch|, |batch|)| == |batch|
    ensures Landed(batch, AllBut(|batch|, |batch|)) == []
    ensures FirstError(batch, AllBut(|batch|, |batch|)).Some?
  {
    OnlyOneLands(batch, |batch|);
    assert Fails(batch, AllBut(|batch|, |batch|), i);
    FirstErrorIsFirst(batch, AllBut(|batch|, |batch|));
  }

  lemma TouchedRetry(batch: seq<Report>, i: nat) returns (f: Feed, round: Round)
    requires Harmless(batch) && i < |batch| && !batch[i].Nameless?
    ensures FeedInv(f.rows) && |round.faults| == |batch| && Fits(batch, [round])
    ensures AllReported(batch, [round]) && Within(Between([round]), {batch[i].fingerprint})
    ensures !SameFor(Retried(f, batch, [round]), Ideal(f, batch, [round]), batch[i].fingerprint)
  {
    var r := batch[i];
    f, round := Target(r), Round(AllBut(|batch|, |batch|), [Intrusion(r)]);
    NothingLands(batch, i);
    OneRound(f, batch, round);
    PerformOne(f, Intrusion(r));
    PerformOne(Clean(f, batch), Intrusion(r));
    TouchedView(batch, r);
    SelectMembers(batch, r.fingerprint);
    assert r in Select(batch, r.fingerprint);
    TargetView(r);
    IntrusionShows(Select(batch, r.fingerprint), r);
  }

  lemma PerformOne(f: Feed, act: Act)
    ensures PerformAll(f, [act]) == Perform(f, act)
  {
    assert [act][..0] == [];
    assert PerformAll(f, []) == f;
  }

  lemma TouchedView(batch: seq<Report>, r: Report)
    requires !r.Nameless?
    ensures var f, all := Target(r), Select(batch, r.fingerprint);
            && View(Play(Perform(f, Intrusion(r)), batch), r.fingerprint) == Play(Perform(f, Intrusion(r)), all)
            && View(Perform(Play(f, batch), Intrusion(r)), r.fingerprint) == Perform(Play(f, all), Intrusion(r))
  {
    var f, fp := Target(r), r.fingerprint;
    TargetView(r);
    PerformIsLocal(f, Intrusion(r), fp);
    PlayIsLocal(Perform(f, Intrusion(r)), batch, fp);
    PerformIsLocal(Play(f, batch), Intrusion(r), fp);
    PlayIsLocal(f, batch, fp);
  }

  /** However often a batch fails and is delivered again, on whatever table, with whatever
      others do in between to given fingerprints: everything is as if the batch had gone
      through at once, exactly if its alerts of one fingerprint all open with the same
      origin or all close at the same time, and none is about a given fingerprint. */
  lemma RetrySafeIffHarmless(batch: seq<Report>, touched: set<string>)
    ensures RetrySafe(batch, touched) <==> Harmless(batch) && Disjoint(batch, touched)
  {
    if !Harmless(batch) {
      var f, faults, fp := HarmfulReplay(batch);
      var round := Round(faults, []);
      OneRound(f, batch, round);
      assert !SameFor(Retried(f, batch, [round]), Ideal(f, batch, [round]), fp);
      assert !Same(Retried(f, batch, [round]), Ideal(f, batch, [round]));
    } else if !Disjoint(batch, touched) {
      var r :| r in batch && !r.Nameless? && r.fingerprint in touched;
      var i :| 0 <= i < |batch| && batch[i] == r;
      var f, round := TouchedRetry(batch, i);
      assert !Same(Retried(f, batch, [round]), Ideal(f, batch, [round]));
    } else {
      forall f: Feed, rounds: seq<Round> |
        FeedInv(f.rows) && Fits(batch, rounds) && AllReported(batch, rounds) && Within(Between(rounds), touched)
        ensures Same(Retried(f, batch, rounds), Ideal(f, batch, rounds))
      {
        HarmlessRetry(f, batch, rounds, touched);
      }
    }
  }

  predicate DistinctFingerprints(batch: seq<Report>) {
    forall i, j :: 0 <= i < j < |batch| && !batch[i].Nameless? ==> !About(batch[j], batch[i].fingerprint)
  }

  /** With one alert per fingerprint any number of retries amounts to a clean pass, whether
      the failures were reported or not, as long as nobody else touches the batch's
      fingerprints in between. */
  lemma DistinctBatchesRetry(f: Feed, batch: seq<Report>, rounds: seq<Round>, touched: set<string>)
    requires Fits(batch, rounds) && DistinctFingerprints(batch)
    requires Disjoint(batch, touched) && Within(Between(rounds), touched)
    ensures Same(Retried(f, batch, rounds), Ideal(f, batch, rounds))
  {
    forall r, s | r in batch && s in batch && !r.Nameless? && About(s, r.fingerprint)
      ensures Agree(r, s)
    {
      var i :| 0 <= i < |batch| && batch[i] == r;
      var j :| 0 <= j < |batch| && batch[j] == s;
      assert !(i < j) && !(j < i);
    }
    HarmlessRetry(f, batch, rounds, touched);
  }

  /** Two alerts of different fingerprints, the second fails, an admin resolves the first's
      incident by hand, and the retry reopens it and notifies again, where after a clean pass
      it would have stayed resolved. */
  lemma ReopenedAfterHandResolve(a: string, b: string, origin: Origin, shown: Shown, at: int, message: string)
    requires a != b
    ensures var row := New(a, origin, shown);
            var resolved := row.(status := Resolved, resolvedAt := Some(at));
            var batch := [Opens(a, origin, shown), Opens(b, origin, shown)];
            var rounds := [Round([None, Some(message)], [Hand(a, 0, Resolve(0, at))])];
            && Harmless(batch) && Fits(batch, rounds)
            && FirstError(batch, rounds[0].faults) == Some(Database(message))
            && View(Ideal(Feed([], []), batch, rounds), a) == Feed([resolved], [row])
            && View(Retried(Feed([], []), batch, rounds), a) == Feed([resolved, row], [row, row])
  {
    var first, second := Opens(a, origin, shown), Opens(b, origin, shown);
    var act := Hand(a, 0, Resolve(0, at));
    FirstAlertLands(first, second, message);
    OneRound(Feed([], []), [first, second], Round([None, Some(message)], [act]));
    FirstOpens(Feed([], []), a, origin, shown);
    ResolvedByHand(a, origin, shown, at);
    PerformOne(Play(Feed([], []), [first]), act);
    SelectFirst(first, second, a);
    OpensAgain(a, origin, shown, at);
    PlayIsLocal(Perform(Play(Feed([], []), [first]), act), [first, second], a);
    HandResolveAfter(first, second, a, act);
  }

  lemma HandResolveAfter(first: Report, second: Report, fp: string, act: Act)
    requires About(first, fp) && !About(second, fp) && Concerns(act, fp)
    ensures View(PerformAll(Clean(Feed([], []), [first, second]), [act]), fp)
         == Perform(Play(Feed([], []), [first]), act)
  {
    var f := Feed([], []);
    PerformOne(Clean(f, [first, second]), act);
    PlayIsLocal(f, [first, second], fp);
    SelectFirst(first, second, fp);
    PerformIsLocal(Clean(f, [first, second]), act, fp);
  }

  lemma FirstAlertLands(r: Report, s: Report, message: string)
    requires !r.Nameless? && !s.Nameless?
    ensures Landed([r, s], [None, Some(message)]) == [r]
    ensures FirstError([r, s], [None, Some(message)]) == Some(Database(message))
  {
    assert [r, s][..1] == [r] && [None, Some(message)][..1] == [None];
    assert [r][..0] == [] && [Option<string>.None][..0] == [];
    assert Landed([r], [None]) == [r] && FirstError([r], [None]) == None;
  }

  lemma SelectFirst(r: Report, s: Report, fp: string)
    requires About(r, fp) && !About(s, fp)
    ensures Select([r, s], fp) == [r]
  {
    assert [r, s][..1] == [r] && [r][..0] == [];
    assert Select([r], fp) == [r];
  }

  lemma FirstOpens(f: Feed, fp: string, origin: Origin, shown: Shown)
    requires f == Feed([], [])
    ensures Play(f, [Opens(fp, origin, shown)]) == Feed([New(fp, origin, shown)], [New(fp, origin, shown)])
  {
    assert [Opens(fp, origin, shown)][..0] == [];
    assert Play(f, []) == f;
  }

  lemma ResolvedByHand(fp: string, origin: Origin, shown: Shown, at: int)
    ensures var row := New(fp, origin, shown);
            Perform(Feed([row], [row]), Hand(fp, 0, Resolve(0, at)))
            == Feed([row.(status := Resolved, resolvedAt := Some(at))], [row])
  {
    var row := New(fp, origin, shown);
    assert [row][..0] == [];
    assert ByName([], fp, 0, Resolve(0, at)) == [] && On([], fp) == [];
  }

  lemma OpensAgain(fp: string, origin: Origin, shown: Shown, at: int)
    ensures var row := New(fp, origin, shown);
            var resolved := row.(status := Resolved, resolvedAt := Some(at));
            && View(Feed([resolved], [row]), fp) == Feed([resolved], [row])
            && Play(Feed([resolved], [row]), [Opens(fp, origin, shown)]) == Feed([resolved, row], [row, row])
  {
    var row := New(fp, origin, shown);
    var resolved := row.(status := Resolved, resolvedAt := Some(at));
    assert [resolved][..0] == [] && [row][..0] == [] && [Opens(fp, origin, shown)][..0] == [];
    assert On([], fp) == [];
    assert Play(Feed([resolved], [row]), []) == Feed([resolved], [row]);
    assert !HasOpen([resolved], fp);
  }
}
