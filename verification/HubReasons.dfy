/** Why a session is counted as disconnected, and why a context is done: in terms of the
steps a run has taken. */
module HubReasons {
  import opened HubMachine
  import opened HubGuarantees

  // ---------------------------------------------------------------------
  // Runs and their last step
  // ---------------------------------------------------------------------

  lemma {:induction false} LastStep(st: State, steps: seq<Step>)
    requires steps != [] && Runs(st, steps)
    ensures var front, last := steps[..|steps|-1], steps[|steps|-1];
            && Runs(st, front) && Enabled(After(st, front), last)
            && After(st, steps) == Next(After(st, front), last)
    decreases |steps|
  {
    if |steps| == 1 {
      assert steps[1..] == [];
    } else {
      var front := steps[..|steps|-1];
      LastStep(Next(st, steps[0]), steps[1..]);
      assert front[1..] == steps[1..][..|steps[1..]|-1];
    }
  }

  // ---------------------------------------------------------------------
  // Causes
  // ---------------------------------------------------------------------

  // The client left, or the watcher acted on a closed hub, at step i of the run.
  predicate CauseAt(steps: seq<Step>, s: nat, i: nat)
    requires i < |steps|
  {
    steps[i] == ClientLeaves(s) || (steps[i] == WatcherCancels(s) && Close in steps[..i])
  }

  ghost predicate Caused(steps: seq<Step>, s: nat) {
    exists i :: 0 <= i < |steps| && CauseAt(steps, s, i)
  }

  lemma CausedSooner(steps: seq<Step>, s: nat)
    requires steps != [] && Caused(steps[..|steps|-1], s)
    ensures Caused(steps, s)
  {
    var front := steps[..|steps|-1];
    var i :| 0 <= i < |front| && CauseAt(front, s, i);
    assert front[..i] == steps[..i];
    assert CauseAt(steps, s, i);
  }

  lemma {:induction false} ClosedByClose(capacity: nat, steps: seq<Step>)
    requires capacity >= 1 && Runs(Start(capacity), steps)
    ensures After(Start(capacity), steps).closed <==> Close in steps
  {
    if steps == [] {
    } else {
      var front := steps[..|steps|-1];
      LastStep(Start(capacity), steps);
      ClosedByClose(capacity, front);
      assert steps == front + [steps[|steps|-1]];
    }
  }

  lemma ConnKeepsSession(st: State, step: Step, s: nat)
    requires ConnEnabled(st, step) && s < |st.sessions|
    ensures var sess, after := st.sessions[s], ConnNext(st, step).sessions;
            && |after| == |st.sessions|
            && after[s].pc == sess.pc && after[s].reasons == sess.reasons && after[s].cancelled == sess.cancelled
  {
  }

  lemma StepCancels(st: State, step: Step, s: nat)
    requires Enabled(st, step) && s < |Next(st, step).sessions|
    requires Next(st, step).sessions[s].cancelled && !HasDisconnected(Next(st, step).sessions[s].pc)
    ensures || (s < |st.sessions| && st.sessions[s].cancelled && !HasDisconnected(st.sessions[s].pc))
            || step == ClientLeaves(s) || (step == WatcherCancels(s) && st.closed)
  {
    if !SessionEnabled(st, step) && ConnEnabled(st, step) && s < |st.sessions| { ConnKeepsSession(st, step, s); }
  }

  /** The context of a session that has not ended is only done if its client has left, or if
      its watcher has acted on a hub closed before. */
  lemma {:induction false} CancelHasACause(capacity: nat, steps: seq<Step>, s: nat)
    requires capacity >= 1 && Runs(Start(capacity), steps) && s < |After(Start(capacity), steps).sessions|
    requires var sess := After(Start(capacity), steps).sessions[s]; sess.cancelled && !HasDisconnected(sess.pc)
    ensures Caused(steps, s)
  {
    if steps == [] {
    } else {
      var front, last := steps[..|steps|-1], steps[|steps|-1];
      LastStep(Start(capacity), steps);
      var before := After(Start(capacity), front);
      StepCancels(before, last, s);
      ClosedByClose(capacity, front);
      if s < |before.sessions| && before.sessions[s].cancelled && !HasDisconnected(before.sessions[s].pc) {
        CancelHasACause(capacity, front, s);
        CausedSooner(steps, s);
      } else {
        assert CauseAt(steps, s, |steps| - 1);
      }
    }
  }

  // The broadcaster left or could not be read from, or the watcher acted on a closed hub.
  predicate IngestCauseAt(steps: seq<Step>, c: nat, i: nat)
    requires i < |steps|
  {
    || steps[i] == BroadcasterLeaves(c) || steps[i] == ReadFails(c)
    || (steps[i] == IngestWatcherCancels(c) && Close in steps[..i])
  }

  lemma StepCancelsConn(st: State, step: Step, c: nat)
    requires Enabled(st, step) && c < |Next(st, step).conns| && Next(st, step).conns[c].cancelled
    ensures || (c < |st.conns| && st.conns[c].cancelled)
            || step == BroadcasterLeaves(c) || step == ReadFails(c) || (step == IngestWatcherCancels(c) && st.closed)
  {
  }

  /** And the context of an ingest connection, without which no listener is given up. */
  lemma {:induction false} IngestCancelHasACause(capacity: nat, steps: seq<Step>, c: nat)
    requires capacity >= 1 && Runs(Start(capacity), steps)
    requires c < |After(Start(capacity), steps).conns| && After(Start(capacity), steps).conns[c].cancelled
    ensures exists i :: 0 <= i < |steps| && IngestCauseAt(steps, c, i)
  {
    if steps == [] {
    } else {
      var front, last := steps[..|steps|-1], steps[|steps|-1];
      LastStep(Start(capacity), steps);
      var before := After(Start(capacity), front);
      StepCancelsConn(before, last, c);
      ClosedByClose(capacity, front);
      if c < |before.conns| && before.conns[c].cancelled {
        IngestCancelHasACause(capacity, front, c);
        var i :| 0 <= i < |front| && IngestCauseAt(front, c, i);
        assert front[..i] == steps[..i] && IngestCauseAt(steps, c, i);
      } else {
        assert IngestCauseAt(steps, c, |steps| - 1);
      }
    }
  }

  lemma GoneStep(st: State, step: Step, c: nat)
    requires Enabled(st, step) && c < |Next(st, step).conns|
    ensures Next(st, step).conns[c].pc.Gone? <==>
            (c < |st.conns| && st.conns[c].pc.Gone?) || step == ReadFails(c)
    ensures c >= |st.conns| ==> step != ReadFails(c)
  {
  }

  lemma {:induction false} NoConnYet(capacity: nat, steps: seq<Step>, c: nat)
    requires capacity >= 1 && Runs(Start(capacity), steps) && c >= |After(Start(capacity), steps).conns|
    ensures ReadFails(c) !in steps
  {
    if steps == [] {
    } else {
      var front, last := steps[..|steps|-1], steps[|steps|-1];
      LastStep(Start(capacity), steps);
      ConnsStay(After(Start(capacity), front), last);
      NoConnYet(capacity, front, c);
      assert steps == front + [last];
    }
  }

  lemma ConnsStay(st: State, step: Step)
    requires Enabled(st, step)
    ensures |st.conns| <= |Next(st, step).conns|
    ensures step.ReadFails? ==> step.c < |st.conns|
  {
  }

  /** An ingest connection goes on from chunk to chunk until a read fails, and only then is
      it gone. */
  lemma {:induction false} GoneOnlyByReadFailure(capacity: nat, steps: seq<Step>, c: nat)
    requires capacity >= 1 && Runs(Start(capacity), steps) && c < |After(Start(capacity), steps).conns|
    ensures After(Start(capacity), steps).conns[c].pc.Gone? <==> ReadFails(c) in steps
  {
    if steps == [] {
    } else {
      var front, last := steps[..|steps|-1], steps[|steps|-1];
      LastStep(Start(capacity), steps);
      var before := After(Start(capacity), front);
      GoneStep(before, last, c);
      assert steps == front + [last];
      if c < |before.conns| {
        GoneOnlyByReadFailure(capacity, front, c);
      } else {
        NoConnYet(capacity, front, c);
      }
    }
  }

  // ---------------------------------------------------------------------
  // Reasons
  // ---------------------------------------------------------------------

  // The session has not left its loop, and nothing is counted yet.
  predicate StillIn(sess: Session) {
    !sess.pc.Leaving? && !HasDisconnected(sess.pc) && sess.reasons == []
  }

  // It has left its loop for the given reason, counted or about to be.
  predicate LeftFor(sess: Session, reason: Reason) {
    (sess.pc == Leaving(reason) && sess.reasons == []) || (HasDisconnected(sess.pc) && sess.reasons == [reason])
  }

  // The session saw its context done, after a cause.
  ghost predicate SawCancel(steps: seq<Step>, s: nat) {
    exists j :: 0 <= j < |steps| && steps[j] == SeesCancel(s) && Caused(steps[..j], s)
  }

  // What is counted, or about to be, against the steps taken.
  ghost predicate Accounted(sess: Session, steps: seq<Step>, s: nat) {
    || (StillIn(sess) && WriteFails(s) !in steps && SeesCancel(s) !in steps)
    || (LeftFor(sess, WriteFailed) && WriteFails(s) in steps && SeesCancel(s) !in steps)
    || (LeftFor(sess, Client) && WriteFails(s) !in steps && SeesCancel(s) in steps && SawCancel(steps, s))
  }

  lemma SawCancelSooner(steps: seq<Step>, s: nat)
    requires steps != [] && SawCancel(steps[..|steps|-1], s)
    ensures SawCancel(steps, s)
  {
    var front := steps[..|steps|-1];
    var j :| 0 <= j < |front| && front[j] == SeesCancel(s) && Caused(front[..j], s);
    assert front[..j] == steps[..j] && steps[j] == SeesCancel(s);
  }

  // A step that is no exit of the session leaves where it is.
  lemma OtherStepKeeps(st: State, step: Step, s: nat)
    requires Enabled(st, step) && s < |st.sessions|
    requires step != WriteFails(s) && step != SeesCancel(s) && step != SeesClosedChannel(s)
    ensures s < |Next(st, step).sessions|
    ensures StillIn(st.sessions[s]) ==> StillIn(Next(st, step).sessions[s])
    ensures forall reason :: LeftFor(st.sessions[s], reason) ==> LeftFor(Next(st, step).sessions[s], reason)
  {
    if !SessionEnabled(st, step) && ConnEnabled(st, step) { ConnKeepsSession(st, step, s); }
  }

  lemma ExitLeaves(st: State, step: Step, s: nat)
    requires Enabled(st, step) && s < |st.sessions| && (step == WriteFails(s) || step == SeesCancel(s))
    requires StillIn(st.sessions[s]) || exists reason :: LeftFor(st.sessions[s], reason)
    ensures StillIn(st.sessions[s]) && s < |Next(st, step).sessions|
    ensures step == WriteFails(s) ==> LeftFor(Next(st, step).sessions[s], WriteFailed)
    ensures step == SeesCancel(s) ==> LeftFor(Next(st, step).sessions[s], Client)
    ensures step == SeesCancel(s) ==> st.sessions[s].cancelled && !HasDisconnected(st.sessions[s].pc)
  {
  }

  lemma {:induction false} NotYetHere(capacity: nat, steps: seq<Step>, s: nat)
    requires capacity >= 1 && Runs(Start(capacity), steps) && s >= |After(Start(capacity), steps).sessions|
    ensures WriteFails(s) !in steps && SeesCancel(s) !in steps
  {
    if steps == [] {
    } else {
      var front, last := steps[..|steps|-1], steps[|steps|-1];
      LastStep(Start(capacity), steps);
      var before := After(Start(capacity), front);
      SessionsStay(before, last);
      NobodysStep(before, last, s);
      NotYetHere(capacity, front, s);
      assert steps == front + [last];
    }
  }

  lemma SessionsStay(st: State, step: Step)
    requires Enabled(st, step)
    ensures |st.sessions| <= |Next(st, step).sessions| <= |st.sessions| + 1
    ensures |Next(st, step).sessions| == |st.sessions| + 1 ==> Next(st, step).sessions[|st.sessions|] == NEW_SESSION
  {
  }

  lemma AccountedByExit(st: State, last: Step, front: seq<Step>, s: nat)
    requires Enabled(st, last) && s < |st.sessions| && Accounted(st.sessions[s], front, s)
    requires last == WriteFails(s) || (last == SeesCancel(s) && Caused(front, s))
    ensures s < |Next(st, last).sessions| && Accounted(Next(st, last).sessions[s], front + [last], s)
  {
    var steps := front + [last];
    ExitLeaves(st, last, s);
    assert steps[..|front|] == front && steps[|front|] == last;
  }

  lemma AccountedByOther(st: State, last: Step, front: seq<Step>, s: nat)
    requires Enabled(st, last) && s < |st.sessions| && Accounted(st.sessions[s], front, s)
    requires last != WriteFails(s) && last != SeesCancel(s) && last != SeesClosedChannel(s)
    ensures s < |Next(st, last).sessions| && Accounted(Next(st, last).sessions[s], front + [last], s)
  {
    var steps := front + [last];
    OtherStepKeeps(st, last, s);
    assert steps[..|steps|-1] == front;
    if SawCancel(front, s) { SawCancelSooner(steps, s); }
  }

  lemma {:induction false} EverySessionIsAccounted(capacity: nat, steps: seq<Step>, s: nat)
    requires capacity >= 1 && Runs(Start(capacity), steps) && s < |After(Start(capacity), steps).sessions|
    ensures Accounted(After(Start(capacity), steps).sessions[s], steps, s)
  {
    if steps == [] {
    } else {
      var front, last := steps[..|steps|-1], steps[|steps|-1];
      LastStep(Start(capacity), steps);
      var before := After(Start(capacity), front);
      assert steps == front + [last];
      if s >= |before.sessions| {
        NewSessionIsAccounted(capacity, front, last, s);
      } else {
        EverySessionIsAccounted(capacity, front, s);
        AccountedByStep(capacity, front, last, s);
      }
    }
  }

  lemma NewSessionIsAccounted(capacity: nat, front: seq<Step>, last: Step, s: nat)
    requires capacity >= 1 && Runs(Start(capacity), front) && Enabled(After(Start(capacity), front), last)
    requires |After(Start(capacity), front).sessions| <= s < |Next(After(Start(capacity), front), last).sessions|
    ensures Accounted(Next(After(Start(capacity), front), last).sessions[s], front + [last], s)
  {
    SessionsStay(After(Start(capacity), front), last);
    NotYetHere(capacity, front, s);
    NobodysStep(After(Start(capacity), front), last, s);
    assert StillIn(NEW_SESSION);
  }

  lemma NobodysStep(st: State, step: Step, s: nat)
    requires Enabled(st, step) && s >= |st.sessions|
    ensures step != WriteFails(s) && step != SeesCancel(s)
  {
  }

  lemma AccountedByStep(capacity: nat, front: seq<Step>, last: Step, s: nat)
    requires capacity >= 1 && Runs(Start(capacity), front) && Enabled(After(Start(capacity), front), last)
    requires s < |After(Start(capacity), front).sessions|
    requires Accounted(After(Start(capacity), front).sessions[s], front, s)
    ensures var after := Next(After(Start(capacity), front), last);
            s < |after.sessions| && Accounted(after.sessions[s], front + [last], s)
  {
    NeverSeesClosedChannel(capacity, front, last);
    if last == SeesCancel(s) { CancelStepIsCaused(capacity, front, s); }
    if last == WriteFails(s) || last == SeesCancel(s) {
      AccountedByExit(After(Start(capacity), front), last, front, s);
    } else {
      AccountedByOther(After(Start(capacity), front), last, front, s);
    }
  }

  lemma NeverSeesClosedChannel(capacity: nat, steps: seq<Step>, step: Step)
    requires capacity >= 1 && Runs(Start(capacity), steps) && Enabled(After(Start(capacity), steps), step)
    ensures !step.SeesClosedChannel?
  {
    Reachable(capacity, steps);
    LockSafety(After(Start(capacity), steps), step);
  }

  lemma CancelStepIsCaused(capacity: nat, steps: seq<Step>, s: nat)
    requires capacity >= 1 && Runs(Start(capacity), steps) && Enabled(After(Start(capacity), steps), SeesCancel(s))
    ensures Caused(steps, s)
  {
    CancelHasACause(capacity, steps, s);
  }

  /** In every run, a session whose disconnect is counted is counted once: as write_failed
      exactly if a write to it failed, and as client exactly if it saw its context done,
      after its client had left or its watcher had acted on a closed hub. */
  lemma DisconnectsAreTold(capacity: nat, steps: seq<Step>, s: nat)
    requires capacity >= 1 && Runs(Start(capacity), steps) && s < |After(Start(capacity), steps).sessions|
    requires HasDisconnected(After(Start(capacity), steps).sessions[s].pc)
    ensures var reasons := After(Start(capacity), steps).sessions[s].reasons;
            && (reasons == [WriteFailed] <==> WriteFails(s) in steps)
            && (reasons == [Client] <==> SeesCancel(s) in steps)
            && (reasons == [WriteFailed] || reasons == [Client])
            && (reasons == [Client] ==> SawCancel(steps, s))
  {
    EverySessionIsAccounted(capacity, steps, s);
  }
}
