/** When a waiting party's estimate can rise: in its own shifts, and after somebody has overtaken it. */
module FallingEstimates {
  import opened QueueTypes
  import opened QueueEntity
  import opened QueueLine
  import opened QueueStore
  import opened Renumbering
  import opened Recalculation
  import opened QueueSteps
  import opened StepEffects
  import opened RowLifecycle
  import opened StoreInvariants
  import opened LineOrder
  import opened ExactLines
  import opened LineSlack
  import opened Shifting
  import opened Departures
  import opened MovingUp

  /** The k-th party's estimate is no shorter than the prediction for the people now ahead of it. */
  ghost predicate CoversAt(env: Env, rows: Rows, restaurantId: Id, line: seq<nat>, k: nat)
    requires InTable(rows, line) && k < |line|
  {
    var stored := rows[line[k]].estimatedWaitMinutes;
    stored.Some? && stored.value >= Eta(env, rows, restaurantId, line, k)
  }

  ghost predicate Covered(env: Env, rows: Rows, restaurantId: Id) {
    var line := LineOf(rows, restaurantId);
    forall k: nat :: k < |line| ==> CoversAt(env, rows, restaurantId, line, k)
  }

  lemma CleanIsCovered(env: Env, rows: Rows, restaurantId: Id)
    requires IsClean(env, rows, restaurantId)
    ensures Covered(env, rows, restaurantId)
  {
    var line := LineOf(rows, restaurantId);
    forall k: nat | k < |line| ensures CoversAt(env, rows, restaurantId, line, k) {
      assert !IsDirty(env, rows, restaurantId, line, k);
    }
  }

  /** A line whose rows look the same stays covered. */
  lemma StillCovered(env: Env, rows: Rows, after: Rows, restaurantId: Id)
    requires Covered(env, rows, restaurantId) && |rows| <= |after|
    requires LineOf(after, restaurantId) == LineOf(rows, restaurantId)
    requires forall i :: 0 <= i < |rows| && WaitingAt(restaurantId)(rows[i]) ==>
               after[i].partySize == rows[i].partySize && after[i].estimatedWaitMinutes == rows[i].estimatedWaitMinutes
    ensures Covered(env, after, restaurantId)
  {
    var line := LineOf(rows, restaurantId);
    forall k | 0 <= k < |line| ensures WaitingAt(restaurantId)(rows[line[k]]) { assert line[k] in line; }
    forall k: nat | k < |line| ensures CoversAt(env, after, restaurantId, line, k) {
      EtaDependsOnSizes(env, rows, after, restaurantId, line, k);
      assert CoversAt(env, rows, restaurantId, line, k);
    }
  }

  /** Who is left behind a departure has no more people ahead, and keeps its estimate. */
  lemma DepartureKeepsCovered(env: Env, rows: Rows, restaurantId: Id, slot: nat, e: EntryProps)
    requires Monotone(env) && ByArrival(rows) && Covered(env, rows, restaurantId)
    requires slot < |rows| && WaitingAt(restaurantId)(rows[slot]) && !e.status.WAITING?
    requires e.partySize == rows[slot].partySize
    ensures Covered(env, rows[slot := e], restaurantId)
  {
    var line := LineOf(rows, restaurantId);
    assert slot in line;
    var c := PlaceOf<nat>(line, slot);
    var after, rest := rows[slot := e], RemoveAt(line, c);
    assert LineOf(after, restaurantId) == rest by { LineWithout(rows, restaurantId, slot, e); }
    forall k: nat | k < |rest| ensures CoversAt(env, after, restaurantId, rest, k) {
      CoversWithout(env, rows, after, restaurantId, line, rest, c, if k < c then k else k + 1, k);
    }
  }

  lemma CoversWithout(env: Env, rows: Rows, after: Rows, restaurantId: Id, line: seq<nat>, rest: seq<nat>, c: nat,
                      j: nat, k: nat)
    requires Monotone(env) && InTable(rows, line) && NoRepeats(line) && c < |line| && InTable(after, rest)
    requires |after| == |rows| && forall x :: 0 <= x < |rows| ==> after[x].partySize == rows[x].partySize
    requires forall x :: 0 <= x < |rows| && x != line[c] ==> after[x] == rows[x]
    requires rest == RemoveAt(line, c) && j < |line| && j != c && k == (if j < c then j else j - 1) && k < |rest|
    requires CoversAt(env, rows, restaurantId, line, j)
    ensures CoversAt(env, after, restaurantId, rest, k)
  {
    var m := AheadAfter(rows, after, line, rest, c, j);
    assert DifferAtPlace(line, j, c);
  }

  /** A newcomer at the end, with the prediction for everybody, covers itself and leaves the others alone. */
  lemma AppendKeepsCovered(env: Env, rows: Rows, restaurantId: Id, e: EntryProps)
    requires Covered(env, rows, restaurantId)
    requires LineOf(rows + [e], restaurantId) == LineOf(rows, restaurantId) + [|rows|]
    requires e.estimatedWaitMinutes
             == Some(env.predict(restaurantId, People(rows, LineOf(rows, restaurantId)), e.partySize))
    ensures Covered(env, rows + [e], restaurantId)
  {
    var line := LineOf(rows, restaurantId);
    var longer := line + [|rows|];
    forall k: nat | k < |longer| ensures CoversAt(env, rows + [e], restaurantId, longer, k) {
      assert k < |line| ==> CoversAt(env, rows, restaurantId, line, k);
      StaysCoveredAt(env, rows, restaurantId, line, e, k);
    }
  }

  lemma StaysCoveredAt(env: Env, rows: Rows, restaurantId: Id, line: seq<nat>, e: EntryProps, k: nat)
    requires InTable(rows, line) && k <= |line|
    requires if k < |line| then CoversAt(env, rows, restaurantId, line, k)
             else e.estimatedWaitMinutes == Some(env.predict(restaurantId, People(rows, line), e.partySize))
    ensures InTable(rows + [e], line + [|rows|])
    ensures CoversAt(env, rows + [e], restaurantId, line + [|rows|], k)
  {
    assert (line + [|rows|])[..k] == line[..k];
    assert k == |line| ==> line[..k] == line;
    PeopleOfPrefix(rows, rows + [e], line[..k]);
  }

  // ---------------------------------------------------------------- every call and every run

  /** Where the slack is at most one, a newcomer goes last. */
  lemma JoinsLast(env: Env, s: Store, step: Step, clock: Time, now: Time)
    requires Ready(s, step, clock, now) && step.Register? && Apply(env, s, step, now).result.Success?
    requires Slack(s.rows, RestaurantOf(step)) <= 1
    ensures LineOf(Apply(env, s, step, now).store.rows, RestaurantOf(step))
            == LineOf(s.rows, RestaurantOf(step)) + [|s.rows|]
  {
    OkRowsArePlaced(s.rows, clock);
    LastPlaceIs(s.rows, RestaurantOf(step));
    OwnLineAfter(env, s, step, clock, now);
  }

  lemma LastPlaceIs(rows: Rows, restaurantId: Id)
    requires ByArrival(rows) && WaitingRowsArePlaced(rows) && Slack(rows, restaurantId) <= 1
    ensures var line := LineOf(rows, restaurantId);
            InsertAt<nat>(line, UpTo(rows, line, |line| + 1), |rows|) == line + [|rows|]
  {
    var line := LineOf(rows, restaurantId);
    ReachOf(rows, restaurantId, UpTo(rows, line, |line| + 1));
  }

  lemma RegistrationKeepsCovered(env: Env, s: Store, step: Step, clock: Time, now: Time)
    requires Ready(s, step, clock, now) && step.Register? && Apply(env, s, step, now).result.Success?
    requires Covered(env, s.rows, RestaurantOf(step)) && Slack(s.rows, RestaurantOf(step)) <= 1
    ensures Covered(env, Apply(env, s, step, now).store.rows, RestaurantOf(step))
  {
    JoinsLast(env, s, step, clock, now);
    RegistrationAppends(env, s, step, now);
    LineTotals(s.rows, RestaurantOf(step));
    AppendKeepsCovered(env, s.rows, RestaurantOf(step), NewEntry(env, s.rows, step.request, step.newId, now));
  }

  lemma CoveredAfterRows(env: Env, rows: Rows, step: Step, slot: nat, now: Time)
    requires Monotone(env) && !step.Register? && ByArrival(rows)
    requires slot < |rows| && WaitingAt(step.restaurantId)(rows[slot]) && Covered(env, rows, step.restaurantId)
    ensures Covered(env, RowsAfter(env, rows, step, slot, now), step.restaurantId)
  {
    var r := step.restaurantId;
    if step.Ring? {
      LineOfRowsAfter(env, rows, step, slot, now);
      StillCovered(env, rows, RowsAfter(env, rows, step, slot, now), r);
    } else if step.AssignTables? {
      DepartureKeepsCovered(env, rows, r, slot, Seated(rows[slot], now));
    } else {
      RefreshedIsClean(env, ChangedRows(rows, step, slot, now), r, now);
      CleanIsCovered(env, RowsAfter(env, rows, step, slot, now), r);
    }
  }

  lemma CoveredElsewhere(env: Env, s: Store, step: Step, clock: Time, now: Time, restaurantId: Id)
    requires Ready(s, step, clock, now) && Covered(env, s.rows, restaurantId)
    requires restaurantId != RestaurantOf(step) || Apply(env, s, step, now).result.Failure?
    ensures Covered(env, Apply(env, s, step, now).store.rows, restaurantId)
  {
    FailedCallsStutter(env, s, step, now);
    if restaurantId != RestaurantOf(step) {
      OtherLinesAfter(env, s, step, clock, now, restaurantId);
      OthersUntouched(env, s, step, now);
      StillCovered(env, s.rows, Apply(env, s, step, now).store.rows, restaurantId);
    }
  }

  lemma CallKeepsCovered(run: History, k: nat, restaurantId: Id)
    requires 0 < k <= |run.events| && Monotone(run.env) && !OvertakesAt(run, k - 1, restaurantId)
    requires Covered(run.env, run.states[k - 1].rows, restaurantId)
    ensures Covered(run.env, run.states[k].rows, restaurantId)
  {
    var s, step, clock, now := run.states[k - 1], run.events[k - 1].step, ClockAt(run, k - 1), run.events[k - 1].at;
    assert Ready(s, step, clock, now) by { RunIsReady(run, k - 1); }
    assert Outcome(run.states[k], run.results[k - 1]) == Apply(run.env, s, step, now) by { CallAt(run, k); }
    if restaurantId != RestaurantOf(step) || run.results[k - 1].Failure? {
      CoveredElsewhere(run.env, s, step, clock, now, restaurantId);
    } else if step.Register? {
      RegistrationKeepsCovered(run.env, s, step, clock, now);
    } else {
      var slot := StepEffect(run.env, s, step, now);
      CoveredAfterRows(run.env, s.rows, step, slot, now);
    }
  }

  lemma {:induction false} RunIsCovered(run: History, k: nat, restaurantId: Id)
    requires k <= |run.events| && Monotone(run.env) && NobodyOvertakes(run, k, restaurantId)
    ensures Covered(run.env, run.states[k].rows, restaurantId)
  {
    if k > 0 {
      assert !OvertakesAt(run, k - 1, restaurantId);
      RunIsCovered(run, k - 1, restaurantId);
      CallKeepsCovered(run, k, restaurantId);
    }
  }

  // ---------------------------------------------------------------- people ahead

  /** Moving one party back leaves no other with more people ahead. */
  lemma AheadAfterMove(rows: Rows, line: seq<nat>, c: nat, k: nat, a: nat) returns (b: nat)
    requires c < |line| && a < |line| && a != c && InTable(rows, line) && InTable(rows, MoveBack(line, c, k))
    ensures b < |line| && MoveBack(line, c, k)[b] == line[a]
    ensures People(rows, MoveBack(line, c, k)[..b]) <= People(rows, line[..a])
  {
    b := if c < a <= ShiftTarget(c, k, |line|) then a - 1 else a;
    MovedFrom(line, c, k, b);
    if a < c {
      assert MoveBack(line, c, k)[..a] == line[..a];
    } else if a <= ShiftTarget(c, k, |line|) {
      assert MoveBack(line, c, k)[..b] == line[..c] + line[c + 1..a];
      PeopleWithout(rows, line, c, a);
    } else {
      AheadBeyondMove(rows, line, c, k, a);
    }
  }

  /** Beyond the place where the moved party lands, the same people are ahead in another order. */
  lemma AheadBeyondMove(rows: Rows, line: seq<nat>, c: nat, k: nat, a: nat)
    requires c < |line| && ShiftTarget(c, k, |line|) < a < |line|
    requires InTable(rows, line) && InTable(rows, MoveBack(line, c, k))
    ensures People(rows, MoveBack(line, c, k)[..a]) == People(rows, line[..a])
  {
    var t := ShiftTarget(c, k, |line|);
    PrefixOfMove(line, c, k, a);
    PeopleReordered(rows, line[..c], line[c], line[c + 1..t + 1], line[t + 1..a]);
  }

  lemma PrefixOfMove(line: seq<nat>, c: nat, k: nat, a: nat)
    requires c < |line| && ShiftTarget(c, k, |line|) < a < |line|
    ensures var t := ShiftTarget(c, k, |line|);
            var x, y, z := line[..c], line[c + 1..t + 1], line[t + 1..a];
            && line[..a] == (x + [line[c]] + y) + z
            && MoveBack(line, c, k)[..a] == (x + y + [line[c]]) + z
  {
    var t := ShiftTarget(c, k, |line|);
    var rest := RemoveAt(line, c);
    assert rest[..t] == line[..c] + line[c + 1..t + 1];
    assert rest[t..] == line[t + 1..];
    assert line[t + 1..][..a - t - 1] == line[t + 1..a];
  }

  lemma PeopleReordered(rows: Rows, x: seq<nat>, i: nat, y: seq<nat>, z: seq<nat>)
    requires InTable(rows, x) && i < |rows| && InTable(rows, y) && InTable(rows, z)
    ensures People(rows, (x + [i] + y) + z) == People(rows, (x + y + [i]) + z)
  {
    PeopleOfBoth(rows, x + [i] + y, z);
    PeopleOfBoth(rows, x + y + [i], z);
    PeopleOfBoth(rows, x + [i], y);
    PeopleOfBoth(rows, x + y, [i]);
    PeopleOfBoth(rows, x, [i]);
    PeopleOfBoth(rows, x, y);
  }

  /** A call that recalculates leaves no other party of the line with more people ahead. */
  lemma FewerAhead(rows: Rows, step: Step, slot: nat, i: nat) returns (p: nat)
    requires Recalculates(step) && slot < |rows| && WaitingAt(step.restaurantId)(rows[slot])
    requires i in LineOf(rows, step.restaurantId) && i != slot
    ensures InTable(rows, LineAfter(rows, step, slot))
    ensures p < |LineAfter(rows, step, slot)| && LineAfter(rows, step, slot)[p] == i
    ensures People(rows, LineAfter(rows, step, slot)[..p])
            <= People(rows, LineOf(rows, step.restaurantId)[..PlaceOf<nat>(LineOf(rows, step.restaurantId), i)])
  {
    var line := LineOf(rows, step.restaurantId);
    assert slot in line;
    var c, a := PlaceOf<nat>(line, slot), PlaceOf<nat>(line, i);
    StillInTable(rows, line, LineAfter(rows, step, slot));
    if IsShift(step) {
      p := AheadAfterMove(rows, line, c, step.skipPositions.value, a);
    } else {
      p := AheadAfter(rows, rows, line, RemoveAt(line, c), c, a);
    }
  }

  /** The later row promises no longer a wait. */
  predicate NoLonger(e: EntryProps, f: EntryProps) {
    && e.estimatedWaitMinutes.Some? && f.estimatedWaitMinutes.Some?
    && f.estimatedWaitMinutes.value <= e.estimatedWaitMinutes.value
  }

  /** What a recalculating call stores for a party at a given place of the line after it. */
  lemma EstimateAfter(env: Env, rows: Rows, step: Step, slot: nat, now: Time, i: nat, p: nat)
    requires Recalculates(step) && WellFormed(step) && ByArrival(rows) && WaitingRowsArePlaced(rows)
    requires slot < |rows| && WaitingAt(step.restaurantId)(rows[slot]) && i < |rows|
    requires InTable(rows, LineAfter(rows, step, slot))
    requires p < |LineAfter(rows, step, slot)| && LineAfter(rows, step, slot)[p] == i
    ensures RowsAfter(env, rows, step, slot, now)[i].estimatedWaitMinutes
            == Some(env.predict(step.restaurantId, People(rows, LineAfter(rows, step, slot)[..p]), rows[i].partySize))
  {
    var r, after := step.restaurantId, RowsAfter(env, rows, step, slot, now);
    assert LineOf(after, r) == LineAfter(rows, step, slot) by { LineOfRowsAfter(env, rows, step, slot, now); }
    assert IsClean(env, after, r) by { RefreshedIsClean(env, ChangedRows(rows, step, slot, now), r, now); }
    SizesAreKept(env, rows, step, slot, now);
    ExactBySizes(env, rows, after, r, LineAfter(rows, step, slot), p);
  }

  /** An exact line by the party sizes of other rows. */
  lemma ExactBySizes(env: Env, rows: Rows, after: Rows, restaurantId: Id, order: seq<nat>, p: nat)
    requires IsClean(env, after, restaurantId) && LineOf(after, restaurantId) == order && p < |order|
    requires |after| == |rows| && forall x :: 0 <= x < |rows| ==> after[x].partySize == rows[x].partySize
    ensures InTable(rows, order)
    ensures after[order[p]].estimatedWaitMinutes
            == Some(env.predict(restaurantId, People(rows, order[..p]), rows[order[p]].partySize))
  {
    PeopleOfPrefix(rows, after, order[..p]);
    ExactAt(env, after, restaurantId, p);
  }

  /** A recalculating call on another party of a covered line. */
  lemma RecalculatedIsNoLonger(env: Env, rows: Rows, step: Step, slot: nat, now: Time, i: nat)
    requires Monotone(env) && Recalculates(step) && WellFormed(step) && ByArrival(rows) && WaitingRowsArePlaced(rows)
    requires slot < |rows| && WaitingAt(step.restaurantId)(rows[slot]) && i < |rows| && i != slot
    requires Covered(env, rows, step.restaurantId) && i in LineOf(rows, step.restaurantId)
    ensures NoLonger(rows[i], RowsAfter(env, rows, step, slot, now)[i])
  {
    var line := LineOf(rows, step.restaurantId);
    assert CoversAt(env, rows, step.restaurantId, line, PlaceOf<nat>(line, i));
    var p := FewerAhead(rows, step, slot, i);
    EstimateAfter(env, rows, step, slot, now, i, p);
  }

  /** Any call on another party of a covered line. */
  lemma RowsAfterRaiseNoEstimate(env: Env, rows: Rows, step: Step, slot: nat, now: Time, i: nat)
    requires Monotone(env) && WellFormed(step) && !step.Register? && ByArrival(rows) && WaitingRowsArePlaced(rows)
    requires slot < |rows| && WaitingAt(step.restaurantId)(rows[slot]) && rows[slot].id == step.queueEntryId
    requires Covered(env, rows, step.restaurantId) && i in LineOf(rows, step.restaurantId)
    requires i in LineOf(RowsAfter(env, rows, step, slot, now), step.restaurantId)
    requires !(IsShift(step) && step.queueEntryId == rows[i].id)
    ensures NoLonger(rows[i], RowsAfter(env, rows, step, slot, now)[i])
  {
    if Recalculates(step) {
      assert i != slot by {
        LineOfRowsAfter(env, rows, step, slot, now);
        GoneOrNotNamed(env, rows, step, slot, now, i);
      }
      RecalculatedIsNoLonger(env, rows, step, slot, now, i);
    }
  }

  /** A call that works on a covered line. */
  lemma LineCallRaisesNoEstimate(run: History, k: nat, i: nat)
    requires StaysAt(run, k, i) && Monotone(run.env) && WorksOnLine(run, k, run.states[k - 1].rows[i].restaurantId)
    requires Covered(run.env, run.states[k - 1].rows, run.states[k - 1].rows[i].restaurantId)
    ensures NoLonger(run.states[k - 1].rows[i], run.states[k].rows[i])
  {
    var rows, step, now := run.states[k - 1].rows, run.events[k - 1].step, run.events[k - 1].at;
    assert RowsOk(rows, ClockAt(run, k - 1)) by { RunRowsOk(run, k - 1); }
    OkRowsArePlaced(rows, ClockAt(run, k - 1));
    CallAt(run, k);
    var slot := StepEffect(run.env, run.states[k - 1], step, now);
    assert i in LineOf(rows, step.restaurantId) && i in LineOf(run.states[k].rows, step.restaurantId);
    RowsAfterRaiseNoEstimate(run.env, rows, step, slot, now, i);
  }

  lemma CallRaisesNoEstimate(run: History, k: nat, i: nat)
    requires StaysAt(run, k, i) && Monotone(run.env)
    requires NobodyOvertakes(run, k - 1, run.states[k - 1].rows[i].restaurantId)
    ensures NoLonger(run.states[k - 1].rows[i], run.states[k].rows[i])
  {
    var r := run.states[k - 1].rows[i].restaurantId;
    if WorksOnLine(run, k, r) {
      RunIsCovered(run, k - 1, r);
      LineCallRaisesNoEstimate(run, k, i);
    } else {
      RowsKeptAt(run, k, i);
      assert RowOk(run.states[k].rows[i], ClockAt(run, k)) by { RunRowsOk(run, k); }
    }
  }

  /**
   * As long as nobody overtakes at its restaurant, a waiting party's estimate rises over a stretch of
   * the run only if the party itself is shifted in it, whatever else is seated, assigned, skipped,
   * shifted or cancelled there.
   */
  lemma {:induction false} EstimateRisesOnlyInOwnShift(run: History, k: nat, m: nat, i: nat)
    requires Monotone(run.env) && k <= m <= |run.events| && i < |run.states[k].rows| && i < |run.states[m].rows|
    requires run.states[k].rows[i].status.WAITING? && run.states[m].rows[i].status.WAITING?
    requires forall j: nat :: k <= j < m ==> !Shifts(run, j, run.states[k].rows[i].id)
    requires NobodyOvertakes(run, m, run.states[k].rows[i].restaurantId)
    ensures NoLonger(run.states[k].rows[i], run.states[m].rows[i])
  {
    if k == m {
      assert RowOk(run.states[k].rows[i], ClockAt(run, k)) by { RunRowsOk(run, k); }
    } else {
      var r := run.states[k].rows[i].restaurantId;
      assert NobodyOvertakes(run, m - 1, r) by { assert forall j: nat :: j < m - 1 ==> !OvertakesAt(run, j, r); }
      StaysToTheEnd(run, k, m, i);
      EstimateRisesOnlyInOwnShift(run, k, m - 1, i);
      CallRaisesNoEstimate(run, m, i);
    }
  }
}
