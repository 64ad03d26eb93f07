/** Runs of the stream service: any number of StartStream calls that race for one
broadcaster, and the sequential calls as runs of their own steps. */
module LifecycleRuns {
  import opened Streams
  import opened Lifecycle

  // ---------------------------------------------------------------------
  // Races
  // ---------------------------------------------------------------------

  // A StartStream call for b that is not past its insert, or any that has failed.
  predicate Losing(c: Call, b: string) {
    c.StartFailed? || ((c.StartChecks? || c.StartInserts?) && c.broadcaster == b)
  }

  // The step ends a row of broadcaster b.
  predicate EndsRowOf(st: State, step: Step, b: string) {
    step.Advance? && step.k < |st.calls| && st.calls[step.k].EndUpdates?
    && Matches(st.rows, st.calls[step.k].id, st.calls[step.k].broadcaster)
    && st.rows[st.calls[step.k].id].broadcaster == b
  }

  ghost predicate NobodyEnds(st: State, steps: seq<Step>, b: string)
    requires Runs(st, steps)
    decreases |steps|
  {
    steps == [] || (!EndsRowOf(st, steps[0], b) && NobodyEnds(Next(st, steps[0]), steps[1..], b))
  }

  // The rows keep their owners, and the calls their places.
  ghost predicate Extends(st: State, end: State) {
    && |st.rows| <= |end.rows| && |st.calls| <= |end.calls|
    && forall id :: 0 <= id < |st.rows| ==> end.rows[id].broadcaster == st.rows[id].broadcaster
  }

  ghost predicate NoNewRowOf(st: State, end: State, b: string) {
    forall id :: |st.rows| <= id < |end.rows| ==> end.rows[id].broadcaster != b
  }

  // The calls that were losing still are, and those that failed since found a live stream,
  // unless their own query failed.
  ghost predicate StillLosing(st: State, end: State, steps: seq<Step>, b: string)
    requires |st.calls| <= |end.calls|
  {
    forall k :: 0 <= k < |st.calls| && Losing(st.calls[k], b) ==>
      && Losing(end.calls[k], b)
      && (end.calls[k].StartFailed? ==>
            end.calls[k] == st.calls[k] || end.calls[k] == StartFailed(AlreadyLive)
            || (end.calls[k] == StartFailed(DatabaseError) && QueryFails(k) in steps))
  }

  lemma StepExtends(st: State, step: Step)
    requires Enabled(st, step)
    ensures Extends(st, Next(st, step))
  {
  }

  lemma StepKeepsLive(st: State, step: Step, b: string)
    requires Enabled(st, step) && HasLive(st.rows, b) && !EndsRowOf(st, step, b)
    ensures HasLive(Next(st, step).rows, b) && NoNewRowOf(st, Next(st, step), b)
  {
    var i :| 0 <= i < |st.rows| && st.rows[i].live && st.rows[i].broadcaster == b;
    assert Next(st, step).rows[i].live && Next(st, step).rows[i].broadcaster == b;
  }

  lemma StepKeepsLosing(st: State, step: Step, b: string)
    requires Enabled(st, step) && HasLive(st.rows, b)
    ensures |st.calls| <= |Next(st, step).calls| && StillLosing(st, Next(st, step), [step], b)
  {
    assert [step][0] == step;
  }

  lemma LosingComposes(st: State, mid: State, end: State, steps: seq<Step>, b: string)
    requires steps != [] && |st.calls| <= |mid.calls| <= |end.calls|
    requires StillLosing(st, mid, [steps[0]], b) && StillLosing(mid, end, steps[1..], b)
    ensures StillLosing(st, end, steps, b)
  {
  }

  /** While a broadcaster has a live stream and nobody ends it, no schedule lets another
      StartStream through: every call for it that is checking, inserting or failed stays
      unfinished or fails, with ErrAlreadyLive unless its own query fails, and no row of
      that broadcaster is created. */
  lemma {:induction false} RacersLose(st: State, steps: seq<Step>, b: string)
    requires Runs(st, steps) && HasLive(st.rows, b) && NobodyEnds(st, steps, b)
    ensures var end := After(st, steps);
            && HasLive(end.rows, b) && Extends(st, end) && NoNewRowOf(st, end, b)
            && StillLosing(st, end, steps, b)
    decreases |steps|
  {
    if steps == [] {
    } else {
      var mid := Next(st, steps[0]);
      StepExtends(st, steps[0]);
      StepKeepsLive(st, steps[0], b);
      StepKeepsLosing(st, steps[0], b);
      RacersLose(mid, steps[1..], b);
      LosingComposes(st, mid, After(st, steps), steps, b);
      NewRowsCompose(st, mid, After(st, steps), b);
    }
  }

  lemma NewRowsCompose(st: State, mid: State, end: State, b: string)
    requires Extends(st, mid) && Extends(mid, end) && NoNewRowOf(st, mid, b) && NoNewRowOf(mid, end, b)
    ensures Extends(st, end) && NoNewRowOf(st, end, b)
  {
    forall id | |st.rows| <= id < |end.rows| ensures end.rows[id].broadcaster != b {
      if id < |mid.rows| { assert end.rows[id].broadcaster == mid.rows[id].broadcaster; }
    }
  }

  /** However many calls race, and wherever they stand, a run in which nobody ends a stream
      of broadcaster b creates at most one row for it. */
  lemma {:induction false} AtMostOneWins(st: State, steps: seq<Step>, b: string, i: nat, j: nat)
    requires Runs(st, steps) && NobodyEnds(st, steps, b)
    requires |st.rows| <= i < |After(st, steps).rows| && |st.rows| <= j < |After(st, steps).rows|
    requires After(st, steps).rows[i].broadcaster == b && After(st, steps).rows[j].broadcaster == b
    ensures i == j
    decreases |steps|
  {
    if steps == [] {
    } else {
      var mid := Next(st, steps[0]);
      var n := |st.rows|;
      if |mid.rows| == n {
        AtMostOneWins(mid, steps[1..], b, i, j);
      } else if mid.rows[n].broadcaster == b {
        assert mid.rows[n].live && HasLive(mid.rows, b);
        RacersLose(mid, steps[1..], b);
      } else {
        RunExtends(mid, steps[1..]);
        AtMostOneWins(mid, steps[1..], b, i, j);
      }
    }
  }

  lemma {:induction false} RunExtends(st: State, steps: seq<Step>)
    requires Runs(st, steps)
    ensures Extends(st, After(st, steps))
    decreases |steps|
  {
    if steps == [] {
    } else {
      StepExtends(st, steps[0]);
      RunExtends(Next(st, steps[0]), steps[1..]);
    }
  }

  // ---------------------------------------------------------------------
  // Starts that win
  // ---------------------------------------------------------------------

  // Call k's own queries do not fail, and no other call inserts a row of broadcaster b.
  ghost predicate Uncontested(st: State, steps: seq<Step>, k: nat, b: string)
    requires Runs(st, steps)
    decreases |steps|
  {
    steps == [] ||
    (&& steps[0] != QueryFails(k)
     && (steps[0].Advance? && steps[0].k != k && st.calls[steps[0].k].StartInserts? ==>
           st.calls[steps[0].k].broadcaster != b)
     && Uncontested(Next(st, steps[0]), steps[1..], k, b))
  }

  // The StartStream call k for b is on its way: it will find no live stream of b, or has
  // created the row, after the first n.
  ghost predicate Winning(st: State, k: nat, b: string, n: nat) {
    && k < |st.calls| && n <= |st.rows|
    && var c := st.calls[k];
       || (&& (c.StartChecks? || c.StartInserts?) && c.broadcaster == b
           && forall i :: 0 <= i < |st.rows| && st.rows[i].live ==> st.rows[i].broadcaster != b)
       || (&& (c.StartRegisters? || c.StartCounts? || c.Started?)
           && n <= c.id < |st.rows| && st.rows[c.id].broadcaster == b)
  }

  lemma WinningStep(st: State, step: Step, k: nat, b: string, n: nat)
    requires Winning(st, k, b, n) && Enabled(st, step) && step != QueryFails(k)
    requires step.Advance? && step.k != k && st.calls[step.k].StartInserts? ==> st.calls[step.k].broadcaster != b
    ensures Winning(Next(st, step), k, b, n)
  {
  }

  /** Whatever other calls do in between, a StartStream for a broadcaster without a live
      stream never fails, unless its own queries do or another call inserts for the same
      broadcaster; once over, it has created a row of its own. */
  lemma {:induction false} UncontestedStartWins(st: State, steps: seq<Step>, k: nat, b: string, n: nat)
    requires Winning(st, k, b, n) && Runs(st, steps) && Uncontested(st, steps, k, b)
    ensures Winning(After(st, steps), k, b, n)
    ensures !After(st, steps).calls[k].StartFailed?
    ensures IsOver(After(st, steps).calls[k]) ==>
              var end := After(st, steps);
              end.calls[k].Started? && n <= end.calls[k].id < |end.rows| && end.rows[end.calls[k].id].broadcaster == b
    decreases |steps|
  {
    if steps == [] {
    } else {
      WinningStep(st, steps[0], k, b, n);
      UncontestedStartWins(Next(st, steps[0]), steps[1..], k, b, n);
    }
  }

  lemma FreshStartIsWinning(st: State, b: string, title: string)
    requires forall i :: 0 <= i < |st.rows| && st.rows[i].live ==> st.rows[i].broadcaster != b
    ensures Winning(Next(st, CallStart(b, title)), |st.calls|, b, |st.rows|)
  {
  }

  // ---------------------------------------------------------------------
  // The sequential calls
  // ---------------------------------------------------------------------

  function Seen(st: State): Snapshot {
    Snapshot(st.rows, st.pool, st.gauge)
  }

  // The steps of one call, with nothing in between.
  ghost predicate OwnSteps(k: nat, steps: seq<Step>) {
    forall i :: 0 <= i < |steps| ==> steps[i] == Advance(k) || steps[i] == QueryFails(k)
  }

  // Call k can go from st, by its own steps, to `end`.
  ghost predicate Leads(st: State, k: nat, end: State) {
    exists steps :: Runs(st, steps) && OwnSteps(k, steps) && After(st, steps) == end
  }

  lemma LeadsNowhere(st: State, k: nat)
    ensures Leads(st, k, st)
  {
    assert Runs(st, []) && OwnSteps(k, []) && After(st, []) == st;
  }

  lemma LeadsFirst(st: State, k: nat, step: Step, end: State)
    requires (step == Advance(k) || step == QueryFails(k)) && Enabled(st, step) && Leads(Next(st, step), k, end)
    ensures Leads(st, k, end)
  {
    var rest :| Runs(Next(st, step), rest) && OwnSteps(k, rest) && After(Next(st, step), rest) == end;
    Chain(st, step, Next(st, step), rest);
    assert OwnSteps(k, [step] + rest);
  }

  lemma RegisteringLeads(st: State, k: nat) returns (end: State)
    requires k < |st.calls| && st.calls[k].StartRegisters?
    ensures Leads(st, k, end) && end.calls == st.calls[k := Started(st.calls[k].id)] && end.closed == st.closed
    ensures Seen(end) == Snapshot(st.rows, st.pool + {st.calls[k].id}, st.gauge + 1)
  {
    var counts := Next(st, Advance(k));
    end := Next(counts, Advance(k));
    LeadsNowhere(end, k);
    LeadsFirst(counts, k, Advance(k), end);
    LeadsFirst(st, k, Advance(k), end);
  }

  lemma InsertingLeads(st: State, k: nat, fault: bool) returns (end: State)
    requires k < |st.calls| && st.calls[k].StartInserts? && !HasLive(st.rows, st.calls[k].broadcaster)
    ensures Leads(st, k, end)
    ensures var out := StartOutcome(Seen(st), st.calls[k].broadcaster, st.calls[k].title, false, fault);
            && Seen(end) == out.0 && end.closed == st.closed
            && end.calls == st.calls[k := if out.1.Ok? then Started(out.1.value) else StartFailed(out.1.error)]
  {
    if fault {
      end := Next(st, QueryFails(k));
      LeadsNowhere(end, k);
      LeadsFirst(st, k, QueryFails(k), end);
    } else {
      end := RegisteringLeads(Next(st, Advance(k)), k);
      LeadsFirst(st, k, Advance(k), end);
    }
  }

  /** The sequential StartStream is a run of its own steps: from any state the call can go
      alone to the outcome that the method promises, and every outcome of the method is
      reached so. */
  lemma StartStreamIsASoloRun(st: State, b: string, title: string, checkFault: bool,
                              insertFault: bool) returns (end: State)
    ensures var begun := Next(st, CallStart(b, title));
            var out := StartOutcome(Seen(st), b, title, checkFault, insertFault);
            && Leads(begun, |st.calls|, end)
            && Seen(end) == out.0 && end.closed == st.closed
            && end.calls == st.calls + [if out.1.Ok? then Started(out.1.value) else StartFailed(out.1.error)]
  {
    var k, begun := |st.calls|, Next(st, CallStart(b, title));
    if checkFault {
      end := Next(begun, QueryFails(k));
      LeadsNowhere(end, k);
      LeadsFirst(begun, k, QueryFails(k), end);
    } else if HasLive(st.rows, b) {
      end := Next(begun, Advance(k));
      LeadsNowhere(end, k);
      LeadsFirst(begun, k, Advance(k), end);
    } else {
      end := InsertingLeads(Next(begun, Advance(k)), k, insertFault);
      LeadsFirst(begun, k, Advance(k), end);
    }
  }

  /** And so is the sequential EndStream; it closes the hub it takes out of the pool. */
  lemma EndStreamIsASoloRun(st: State, id: nat, b: string, fault: bool) returns (end: State)
    ensures var begun := Next(st, CallEnd(id, b));
            var out := EndOutcome(Seen(st), id, b, fault);
            && Leads(begun, |st.calls|, end)
            && Seen(end) == out.0
            && end.closed == st.closed + (if out.1.Ok? && id in st.pool then {id} else {})
            && end.calls == st.calls + [if out.1.Ok? then EndDone(id) else EndFailed(out.1.error)]
  {
    var k, begun := |st.calls|, Next(st, CallEnd(id, b));
    if fault {
      end := Next(begun, QueryFails(k));
      LeadsNowhere(end, k);
      LeadsFirst(begun, k, QueryFails(k), end);
    } else if !Matches(st.rows, id, b) {
      end := Next(begun, Advance(k));
      LeadsNowhere(end, k);
      LeadsFirst(begun, k, Advance(k), end);
    } else {
      end := UnpoolingLeads(Next(begun, Advance(k)), k);
      LeadsFirst(begun, k, Advance(k), end);
    }
  }

  lemma UnpoolingLeads(st: State, k: nat) returns (end: State)
    requires k < |st.calls| && st.calls[k].EndUnpools?
    ensures Leads(st, k, end)
    ensures var id := st.calls[k].id;
            && Seen(end) == Snapshot(st.rows, st.pool - {id}, st.gauge - 1)
            && end.closed == st.closed + (if id in st.pool then {id} else {})
            && end.calls == st.calls[k := EndDone(id)]
  {
    var counts := Next(st, Advance(k));
    end := Next(counts, Advance(k));
    LeadsNowhere(end, k);
    LeadsFirst(counts, k, Advance(k), end);
    LeadsFirst(st, k, Advance(k), end);
  }
}
