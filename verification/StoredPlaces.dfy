/** How far a stored position can be from the true place in line, whatever calls a run makes. */
module StoredPlaces {
  import opened QueueTypes
  import opened QueueEntity
  import opened QueueLine
  import opened QueueStore
  import opened Recalculation
  import opened QueueSteps
  import opened StepEffects
  import opened RowLifecycle
  import opened LineOrder
  import opened LineSlack
  import opened ExactLines

  /** The k-th party's stored position is at least its place, and at most b more. */
  predicate WithinAt(rows: Rows, line: seq<nat>, k: nat, b: nat)
    requires InTable(rows, line) && k < |line|
  {
    var position := rows[line[k]].position;
    position.Some? && k + 1 <= position.value <= k + 1 + b
  }

  ghost predicate Within(rows: Rows, restaurantId: Id, b: nat) {
    var line := LineOf(rows, restaurantId);
    forall k: nat :: k < |line| ==> WithinAt(rows, line, k, b)
  }

  /** A line numbered 1..n is right in every place. */
  lemma NumberedIsWithin(rows: Rows, restaurantId: Id)
    requires var line := LineOf(rows, restaurantId);
             forall k :: 0 <= k < |line| ==> rows[line[k]].position == Some(k + 1)
    ensures Within(rows, restaurantId, 0)
  {
    var line := LineOf(rows, restaurantId);
    forall k: nat | k < |line| ensures WithinAt(rows, line, k, 0) {
      assert rows[line[k]].position == Some(k + 1);
    }
  }

  lemma SameWithin(rows: Rows, after: Rows, restaurantId: Id, b: nat)
    requires |rows| <= |after| && LineOf(after, restaurantId) == LineOf(rows, restaurantId)
    requires forall i :: 0 <= i < |rows| && WaitingAt(restaurantId)(rows[i]) ==> after[i].position == rows[i].position
    requires Within(rows, restaurantId, b)
    ensures Within(after, restaurantId, b)
  {
    var line := LineOf(rows, restaurantId);
    forall k: nat | k < |line| ensures WithinAt(after, line, k, b) {
      assert line[k] in line;
      assert WithinAt(rows, line, k, b);
    }
  }

  /** Who is left behind a departure moves up one place, and keeps its stored position. */
  lemma DepartureWidens(rows: Rows, restaurantId: Id, slot: nat, e: EntryProps, b: nat)
    requires ByArrival(rows) && slot < |rows| && WaitingAt(restaurantId)(rows[slot]) && !e.status.WAITING?
    requires Within(rows, restaurantId, b)
    ensures Within(rows[slot := e], restaurantId, b + 1)
  {
    var line := LineOf(rows, restaurantId);
    assert slot in line;
    var c := PlaceOf<nat>(line, slot);
    LineWithout(rows, restaurantId, slot, e);
    RestIsWithin(rows, rows[slot := e], line, RemoveAt(line, c), c, b, b + 1);
  }

  lemma RestIsWithin(rows: Rows, after: Rows, line: seq<nat>, rest: seq<nat>, c: nat, b: nat, wider: nat)
    requires InTable(rows, line) && NoRepeats(line) && c < |line| && InTable(after, rest) && rest == RemoveAt(line, c)
    requires |after| == |rows| && forall i :: 0 <= i < |rows| && i != line[c] ==> after[i] == rows[i]
    requires wider == b + 1 && forall k: nat :: k < |line| ==> WithinAt(rows, line, k, b)
    ensures forall k: nat :: k < |rest| ==> WithinAt(after, rest, k, wider)
  {
    forall k: nat | k < |rest| ensures WithinAt(after, rest, k, wider) {
      var j := if k < c then k else k + 1;
      assert rest[k] == line[j] && DifferAtPlace(line, j, c);
      assert WithinAt(rows, line, j, b);
    }
  }

  /** A newcomer is told its place or worse, and those it overtakes had been told worse anyway. */
  lemma NewcomerKeepsWithin(rows: Rows, restaurantId: Id, e: EntryProps, b: nat)
    requires ByArrival(rows + [e]) && WaitingAt(restaurantId)(e) && Within(rows, restaurantId, b)
    requires e.position == Some(|LineOf(rows, restaurantId)| + 1)
    ensures Within(rows + [e], restaurantId, b)
  {
    var line := LineOf(rows, restaurantId);
    var j := UpTo(rows, line, e.position.value);
    LineWithNewcomer(rows, restaurantId, e);
    LongerIsWithin(rows, line, e, InsertAt<nat>(line, j, |rows|), j, b);
  }

  lemma LongerIsWithin(rows: Rows, line: seq<nat>, e: EntryProps, order: seq<nat>, j: nat, b: nat)
    requires InTable(rows, line) && e.position == Some(|line| + 1)
    requires j == UpTo(rows, line, e.position.value)
    requires order == InsertAt<nat>(line, j, |rows|) && InTable(rows + [e], order)
    requires forall k: nat :: k < |line| ==> WithinAt(rows, line, k, b)
    ensures forall k: nat :: k < |order| ==> WithinAt(rows + [e], order, k, b)
  {
    forall k: nat | k < |order| ensures WithinAt(rows + [e], order, k, b) {
      RowWithNewcomer(rows, line, e, j, k);
      if k == j {
        assert j < |line| ==> WithinAt(rows, line, j, b);
      } else {
        assert WithinAt(rows, line, if k < j then k else k - 1, b);
      }
    }
  }

  // ---------------------------------------------------------------- every call and every run

  lemma WithinElsewhere(env: Env, s: Store, step: Step, clock: Time, now: Time, restaurantId: Id, b: nat)
    requires Ready(s, step, clock, now) && Within(s.rows, restaurantId, b)
    requires restaurantId != RestaurantOf(step) || Apply(env, s, step, now).result.Failure?
    ensures Within(Apply(env, s, step, now).store.rows, restaurantId, b)
  {
    FailedCallsStutter(env, s, step, now);
    if restaurantId != RestaurantOf(step) {
      OtherLinesAfter(env, s, step, clock, now, restaurantId);
      OthersUntouched(env, s, step, now);
      SameWithin(s.rows, Apply(env, s, step, now).store.rows, restaurantId, b);
    }
  }

  lemma WithinOfRowsAfter(env: Env, rows: Rows, step: Step, slot: nat, now: Time, b: nat)
    requires !step.Register? && ByArrival(rows) && Within(rows, step.restaurantId, b)
    requires slot < |rows| && WaitingAt(step.restaurantId)(rows[slot])
    ensures Within(RowsAfter(env, rows, step, slot, now), step.restaurantId,
                   if step.Ring? then b else if step.AssignTables? then b + 1 else 0)
  {
    var r := step.restaurantId;
    var after := RowsAfter(env, rows, step, slot, now);
    if step.Ring? {
      LineOfRowsAfter(env, rows, step, slot, now);
      SameWithin(rows, after, r, b);
    } else if step.AssignTables? {
      DepartureWidens(rows, r, slot, Seated(rows[slot], now), b);
    } else {
      RefreshKeepsLine(env, ChangedRows(rows, step, slot, now), r, now);
      NumberedIsWithin(after, r);
    }
  }

  lemma WithinAfterRegistration(env: Env, s: Store, step: Step, clock: Time, now: Time, b: nat)
    requires Ready(s, step, clock, now) && Within(s.rows, RestaurantOf(step), b)
    requires step.Register? && Apply(env, s, step, now).result.Success?
    ensures Within(Apply(env, s, step, now).store.rows, RestaurantOf(step), b)
  {
    ReadyStep(env, s, step, clock, now);
    RegistrationAppends(env, s, step, now);
    LineTotals(s.rows, RestaurantOf(step));
    NewcomerKeepsWithin(s.rows, RestaurantOf(step), NewEntry(env, s.rows, step.request, step.newId, now), b);
  }

  lemma WithinAfter(env: Env, s: Store, step: Step, clock: Time, now: Time, b: nat)
    requires Ready(s, step, clock, now) && Within(s.rows, RestaurantOf(step), b)
    requires Apply(env, s, step, now).result.Success?
    ensures Within(Apply(env, s, step, now).store.rows, RestaurantOf(step),
                   if step.AssignTables? then b + 1 else if Recalculates(step) then 0 else b)
  {
    if step.Register? {
      WithinAfterRegistration(env, s, step, clock, now, b);
    } else {
      var slot := StepEffect(env, s, step, now);
      WithinOfRowsAfter(env, s.rows, step, slot, now, b);
    }
  }

  lemma CallKeepsWithin(run: History, k: nat, restaurantId: Id, b: nat)
    requires 0 < k <= |run.events| && Within(run.states[k - 1].rows, restaurantId, b)
    ensures Within(run.states[k].rows, restaurantId, AssignedAfter(run, k - 1, restaurantId, b))
  {
    var s, step, clock, now := run.states[k - 1], run.events[k - 1].step, ClockAt(run, k - 1), run.events[k - 1].at;
    assert Ready(s, step, clock, now) by { RunIsReady(run, k - 1); }
    assert Outcome(run.states[k], run.results[k - 1]) == Apply(run.env, s, step, now) by { CallAt(run, k); }
    if RestaurantOf(step) == restaurantId && run.results[k - 1].Success? {
      WithinAfter(run.env, s, step, clock, now, b);
    } else {
      WithinElsewhere(run.env, s, step, clock, now, restaurantId, b);
    }
  }

  lemma {:induction false} RunIsWithin(run: History, k: nat, restaurantId: Id)
    requires k <= |run.events|
    ensures Within(run.states[k].rows, restaurantId, AssignedSince(run, k, restaurantId))
  {
    if k > 0 {
      RunIsWithin(run, k - 1, restaurantId);
      CallKeepsWithin(run, k, restaurantId, AssignedSince(run, k - 1, restaurantId));
    }
  }

  /**
   * In every run, assigned tables and shifts included, nobody is told a place better than the true
   * one, and nobody one worse by more than the parties assigned tables since the last renumbering.
   */
  lemma NobodyIsToldBetter(run: History, k: nat, restaurantId: Id, j: nat)
    requires k <= |run.events| && j < |LineOf(run.states[k].rows, restaurantId)|
    ensures var position := run.states[k].rows[LineOf(run.states[k].rows, restaurantId)[j]].position;
            position.Some? && j + 1 <= position.value <= j + 1 + AssignedSince(run, k, restaurantId)
  {
    RunIsWithin(run, k, restaurantId);
    var rows := run.states[k].rows;
    assert WithinAt(rows, LineOf(rows, restaurantId), j, AssignedSince(run, k, restaurantId));
  }

  // ---------------------------------------------------------------- when assigning widens the slack

  /** Does a party of the line other than the one in the slot hold its largest position? */
  ghost predicate AnotherReachesAsFar(rows: Rows, line: seq<nat>, slot: nat)
    requires InTable(rows, line)
  {
    exists k: nat :: k < |line| && line[k] != slot && rows[line[k]].position == Some(Largest(rows, line))
  }

  /** Taking a party out without renumbering widens the slack iff another one reaches as far. */
  lemma DepartureWidensIff(rows: Rows, restaurantId: Id, slot: nat, e: EntryProps, b: nat)
    requires ByArrival(rows) && slot < |rows| && WaitingAt(restaurantId)(rows[slot]) && !e.status.WAITING?
    requires Within(rows, restaurantId, b)
    ensures var before, after := Slack(rows, restaurantId), Slack(rows[slot := e], restaurantId);
            if AnotherReachesAsFar(rows, LineOf(rows, restaurantId), slot) then after == before + 1
            else after <= before
  {
    var line := LineOf(rows, restaurantId);
    assert slot in line;
    var c := PlaceOf<nat>(line, slot);
    LineWithout(rows, restaurantId, slot, e);
    assert WithinAt(rows, line, |line| - 1, b);
    NoneIsLarger(rows, line, |line| - 1);
    LargestOfRest(rows, rows[slot := e], line, RemoveAt(line, c), c);
  }

  lemma LargestOfRest(rows: Rows, after: Rows, line: seq<nat>, rest: seq<nat>, c: nat)
    requires InTable(rows, line) && NoRepeats(line) && c < |line| && InTable(after, rest) && rest == RemoveAt(line, c)
    requires |after| == |rows| && forall i :: 0 <= i < |rows| && i != line[c] ==> after[i] == rows[i]
    requires Largest(rows, line) > 0
    ensures if AnotherReachesAsFar(rows, line, line[c]) then Largest(after, rest) == Largest(rows, line)
            else Largest(after, rest) < Largest(rows, line)
  {
    RemovedIsGone(line, c);
    LargestGrows(after, rest, rows, line);
    if AnotherReachesAsFar(rows, line, line[c]) {
      var k: nat :| k < |line| && line[k] != line[c] && rows[line[k]].position == Some(Largest(rows, line));
      assert line[k] in line && line[k] in rest;
      var j :| 0 <= j < |rest| && rest[j] == line[k];
      NoneIsLarger(after, rest, j);
    } else if Largest(after, rest) > 0 {
      var j := LargestIsStored(after, rest);
      assert rest[j] in rest && rest[j] in line;
      var k: nat :| k < |line| && line[k] == rest[j];
    }
  }

  /** In every run, assigning tables widens the slack by one or not at all, and it is clear beforehand which. */
  lemma AssigningWidensIff(run: History, k: nat) returns (slot: nat)
    requires k < |run.events| && run.events[k].step.AssignTables? && run.results[k].Success?
    ensures slot < |run.states[k].rows| && run.states[k].rows[slot].id == run.events[k].step.queueEntryId
    ensures var r := run.events[k].step.restaurantId;
            var before, after := Slack(run.states[k].rows, r), Slack(run.states[k + 1].rows, r);
            if AnotherReachesAsFar(run.states[k].rows, LineOf(run.states[k].rows, r), slot) then after == before + 1
            else after <= before
  {
    var s, step, now := run.states[k], run.events[k].step, run.events[k].at;
    assert MovesAt(run, k);
    slot := StepEffect(run.env, s, step, now);
    RunIsWithin(run, k, step.restaurantId);
    RunRowsOk(run, k);
    DepartureWidensIff(s.rows, step.restaurantId, slot, Seated(s.rows[slot], now),
                       AssignedSince(run, k, step.restaurantId));
  }
}
