/**
 * A waiting party only ever moves up, but for its own shifts: its stored position never rises, and
 * neither does its estimate as long as nobody overtakes.
 */
module MovingUp {
  import opened QueueTypes
  import opened QueueLine
  import opened QueueStore
  import opened Renumbering
  import opened Recalculation
  import opened QueueSteps
  import opened StepEffects
  import opened RowLifecycle
  import opened StoreInvariants
  import opened LineOrder
  import opened ExactLines
  import opened Shifting
  import opened StoredPlaces

  /** An element other than the one moved back stays, or moves up by one. */
  lemma PassedMovesUp(s: seq<nat>, c: nat, k: nat, a: nat) returns (b: nat)
    requires c < |s| && a < |s| && a != c
    ensures b <= a && MoveBack(s, c, k)[b] == s[a]
  {
    b := if c < a <= ShiftTarget(c, k, |s|) then a - 1 else a;
    MovedFrom(s, c, k, b);
  }

  lemma LeavingMovesUp(s: seq<nat>, c: nat, a: nat) returns (b: nat)
    requires c < |s| && a < |s| && a != c
    ensures b <= a && b < |s| - 1 && RemoveAt(s, c)[b] == s[a]
  {
    b := if a < c then a else a - 1;
  }

  /** A call on another party keeps a party's place or improves it. */
  lemma OthersKeepTheirPlace(rows: Rows, step: Step, slot: nat, after: seq<nat>, i: nat)
    requires !step.Register? && slot < |rows| && WaitingAt(step.restaurantId)(rows[slot])
    requires i in LineOf(rows, step.restaurantId) && (i != slot || step.Ring?)
    requires after == LineAfter(rows, step, slot) && NoRepeats(after)
    ensures i in after && PlaceOf<nat>(after, i) <= PlaceOf<nat>(LineOf(rows, step.restaurantId), i)
  {
    var line := LineOf(rows, step.restaurantId);
    assert slot in line;
    var a := PlaceOf<nat>(line, i);
    var b := a;
    if IsShift(step) {
      b := PassedMovesUp(line, PlaceOf<nat>(line, slot), step.skipPositions.value, a);
    } else if !step.Ring? {
      b := LeavingMovesUp(line, PlaceOf<nat>(line, slot), a);
    }
    PlaceInLine(after, b);
  }

  /** A party that is still in line was not the one that left, nor the one shifted under another id. */
  lemma GoneOrNotNamed(env: Env, rows: Rows, step: Step, slot: nat, now: Time, i: nat)
    requires !step.Register? && slot < |rows| && WaitingAt(step.restaurantId)(rows[slot])
    requires LineOf(RowsAfter(env, rows, step, slot, now), step.restaurantId) == LineAfter(rows, step, slot)
    requires i in LineOf(rows, step.restaurantId)
    requires i in LineOf(RowsAfter(env, rows, step, slot, now), step.restaurantId)
    requires rows[slot].id == step.queueEntryId && !(IsShift(step) && step.queueEntryId == rows[i].id)
    ensures i != slot || step.Ring?
  {
    var line := LineOf(rows, step.restaurantId);
    assert slot in line;
    if IsDeparture(step) { RemovedIsGone(line, PlaceOf<nat>(line, slot)); }
  }

  /** A call on another party of the line: stored positions are at least the true places, before and after. */
  lemma RowsAfterRaiseNobody(env: Env, rows: Rows, step: Step, slot: nat, now: Time, i: nat, b: nat)
    requires !step.Register? && ByArrival(rows) && Within(rows, step.restaurantId, b)
    requires slot < |rows| && WaitingAt(step.restaurantId)(rows[slot]) && rows[slot].id == step.queueEntryId
    requires i in LineOf(rows, step.restaurantId)
    requires i in LineOf(RowsAfter(env, rows, step, slot, now), step.restaurantId)
    requires !(IsShift(step) && step.queueEntryId == rows[i].id)
    ensures NoLater(rows[i], RowsAfter(env, rows, step, slot, now)[i])
  {
    var r := step.restaurantId;
    var line := LineOf(rows, r);
    var after := LineOf(RowsAfter(env, rows, step, slot, now), r);
    assert after == LineAfter(rows, step, slot) by { LineOfRowsAfter(env, rows, step, slot, now); }
    assert i != slot || step.Ring? by { GoneOrNotNamed(env, rows, step, slot, now, i); }
    assert WithinAt(rows, line, PlaceOf<nat>(line, i), b);
    if Recalculates(step) {
      OthersKeepTheirPlace(rows, step, slot, after, i);
      var p := PlaceOf<nat>(after, i);
      NumberedInLine(env, ChangedRows(rows, step, slot, now), r, now, p, p + 1);
    }
  }

  /** The later row stands at no later position. */
  predicate NoLater(e: EntryProps, f: EntryProps) {
    e.position.Some? && f.position.Some? && f.position.value <= e.position.value
  }

  /** A call that is elsewhere, or fails, or registers a party, leaves the rows of a line as they are. */
  lemma RowsKept(env: Env, s: Store, step: Step, now: Time, i: nat)
    requires WellFormed(step) && i < |s.rows|
    requires s.rows[i].restaurantId != RestaurantOf(step) || Apply(env, s, step, now).result.Failure? || step.Register?
    ensures i < |Apply(env, s, step, now).store.rows| && Apply(env, s, step, now).store.rows[i] == s.rows[i]
  {
    if Apply(env, s, step, now).result.Failure? {
      FailedCallsStutter(env, s, step, now);
    } else if step.Register? {
      RegistrationAppends(env, s, step, now);
    } else {
      OthersUntouched(env, s, step, now);
    }
  }

  /** One call of a run, counted from one, and a party that waits before and after it. */
  ghost predicate StaysAt(run: History, k: nat, i: nat) {
    && 0 < k <= |run.events| && i < |run.states[k - 1].rows| && i < |run.states[k].rows|
    && run.states[k - 1].rows[i].status.WAITING? && run.states[k].rows[i].status.WAITING?
    && run.states[k].rows[i].restaurantId == run.states[k - 1].rows[i].restaurantId
    && !Shifts(run, k - 1, run.states[k - 1].rows[i].id)
  }

  /** Does the call change the line in which the party stands, other than by adding to it? */
  ghost predicate WorksOnLine(run: History, k: nat, restaurantId: Id)
    requires 0 < k <= |run.events|
  {
    var step := run.events[k - 1].step;
    RestaurantOf(step) == restaurantId && run.results[k - 1].Success? && !step.Register?
  }

  lemma RowsKeptAt(run: History, k: nat, i: nat)
    requires StaysAt(run, k, i) && !WorksOnLine(run, k, run.states[k - 1].rows[i].restaurantId)
    ensures run.states[k].rows[i] == run.states[k - 1].rows[i]
  {
    CallAt(run, k);
    RowsKept(run.env, run.states[k - 1], run.events[k - 1].step, run.events[k - 1].at, i);
  }

  lemma CallRaisesNobody(run: History, k: nat, i: nat)
    requires StaysAt(run, k, i)
    ensures NoLater(run.states[k - 1].rows[i], run.states[k].rows[i])
  {
    var rows, step, now := run.states[k - 1].rows, run.events[k - 1].step, run.events[k - 1].at;
    var r := rows[i].restaurantId;
    assert RowsOk(rows, ClockAt(run, k - 1)) by { RunRowsOk(run, k - 1); }
    if WorksOnLine(run, k, r) {
      assert Within(rows, r, AssignedSince(run, k - 1, r)) by { RunIsWithin(run, k - 1, r); }
      CallAt(run, k);
      var slot := StepEffect(run.env, run.states[k - 1], step, now);
      assert i in LineOf(rows, r) && i in LineOf(run.states[k].rows, r);
      RowsAfterRaiseNobody(run.env, rows, step, slot, now, i, AssignedSince(run, k - 1, r));
    } else {
      RowsKeptAt(run, k, i);
    }
  }

  /**
   * In every run, assigned tables included: a waiting party's stored position rises over a stretch of
   * the run only if the party itself is shifted in it.
   */
  lemma {:induction false} PositionRisesOnlyInOwnShift(run: History, k: nat, m: nat, i: nat)
    requires k <= m <= |run.events| && i < |run.states[k].rows| && i < |run.states[m].rows|
    requires run.states[k].rows[i].status.WAITING? && run.states[m].rows[i].status.WAITING?
    requires forall j: nat :: k <= j < m ==> !Shifts(run, j, run.states[k].rows[i].id)
    ensures NoLater(run.states[k].rows[i], run.states[m].rows[i])
  {
    if k == m {
      assert RowOk(run.states[k].rows[i], ClockAt(run, k)) by { RunRowsOk(run, k); }
    } else {
      StaysToTheEnd(run, k, m, i);
      PositionRisesOnlyInOwnShift(run, k, m - 1, i);
      CallRaisesNobody(run, m, i);
    }
  }

  /** The last call of a stretch, for a party that waits at both ends and is not shifted in it. */
  lemma StaysToTheEnd(run: History, k: nat, m: nat, i: nat)
    requires k < m <= |run.events| && i < |run.states[k].rows| && i < |run.states[m].rows|
    requires run.states[m].rows[i].status.WAITING?
    requires forall j: nat :: k <= j < m ==> !Shifts(run, j, run.states[k].rows[i].id)
    ensures StaysAt(run, m, i) && run.states[m - 1].rows[i].id == run.states[k].rows[i].id
    ensures run.states[m - 1].rows[i].restaurantId == run.states[k].rows[i].restaurantId
  {
    TicketsAreKept(run, k, m - 1, i);
    StillWaits(run, m, i);
    assert !Shifts(run, m - 1, run.states[k].rows[i].id);
  }

  /** Who waits after a call waited before it. */
  lemma StillWaits(run: History, k: nat, i: nat)
    requires 0 < k <= |run.events| && i < |run.states[k - 1].rows|
    ensures i < |run.states[k].rows|
    ensures run.states[k].rows[i].status.WAITING? ==> run.states[k - 1].rows[i].status.WAITING?
    ensures run.states[k].rows[i].restaurantId == run.states[k - 1].rows[i].restaurantId
  {
    NextAt(run, k);
    assert Evolves(run.states[k - 1].rows[i], run.states[k].rows[i], run.events[k - 1].at);
  }
}
