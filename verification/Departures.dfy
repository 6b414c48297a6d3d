/**
 * What a predictor has to promise, as the fallback does, for estimates to be in the order of the line
 * and for nobody to wait longer because somebody left.
 */
module Departures {
  import opened QueueTypes
  import opened QueueLine
  import opened Renumbering
  import opened Recalculation
  import opened QueueSteps
  import opened StepEffects
  import opened RowLifecycle
  import opened ExactLines

  const BASE_FALLBACK_MINUTES: nat := 5

  const FALLBACK_MINUTES_PER_PERSON: real := 2.5

  /** JavaScript's Math.round: to the nearest integer, ties upwards. */
  function Round(x: real): int {
    (x + 0.5).Floor
  }

  /** The estimate when the prediction service does not answer. */
  function FallbackMinutes(totalPeopleAhead: nat): nat {
    var minutes := Round(totalPeopleAhead as real * FALLBACK_MINUTES_PER_PERSON);
    if minutes > BASE_FALLBACK_MINUTES then minutes else BASE_FALLBACK_MINUTES
  }

  /** In integers: half of five times the people ahead, rounded up, and at least five minutes. */
  lemma FallbackIs(people: nat)
    ensures FallbackMinutes(people) == if people <= 2 then 5 else (5 * people + 1) / 2
  {
    var q := (5 * people + 1) / 2;
    var x := people as real * FALLBACK_MINUTES_PER_PERSON + 0.5;
    assert 2.0 * x == (5 * people + 1) as real;
    assert q as real <= x < (q + 1) as real;
    assert x.Floor == q;
  }

  lemma FallbackGrows(people: nat, more: nat)
    requires people <= more
    ensures FallbackMinutes(people) <= FallbackMinutes(more)
  {
    FallbackIs(people);
    FallbackIs(more);
  }

  /** For one party, more people ahead never mean a shorter estimate. */
  ghost predicate Monotone(env: Env) {
    forall r: Id, ahead: nat, more: nat, size: nat ::
      ahead <= more ==> env.predict(r, ahead, size) <= env.predict(r, more, size)
  }

  /** Nor for another party, of whatever size, that has strictly more people ahead. */
  ghost predicate PeopleAheadDecide(env: Env) {
    forall r: Id, ahead: nat, more: nat, size: nat, other: nat ::
      ahead < more ==> env.predict(r, ahead, size) <= env.predict(r, more, other)
  }

  ghost predicate UsesFallback(env: Env) {
    forall r: Id, ahead: nat, size: nat :: env.predict(r, ahead, size) == FallbackMinutes(ahead)
  }

  lemma FallbackIsMonotone(env: Env)
    requires UsesFallback(env)
    ensures Monotone(env) && PeopleAheadDecide(env)
  {
    forall r: Id, ahead: nat, more: nat, size: nat, other: nat | ahead <= more
      ensures env.predict(r, ahead, size) <= env.predict(r, more, other)
    {
      FallbackGrows(ahead, more);
    }
  }

  predicate NobodyIsEmpty(rows: Rows, line: seq<nat>)
    requires InTable(rows, line)
  {
    forall k :: 0 <= k < |line| ==> rows[line[k]].partySize >= 1
  }

  lemma PeopleAheadGrow(rows: Rows, line: seq<nat>, a: nat, b: nat)
    requires InTable(rows, line) && a < b <= |line| && rows[line[a]].partySize >= 1
    ensures People(rows, line[..a]) < People(rows, line[..b])
  {
    assert line[..b] == line[..a] + ([line[a]] + line[a + 1..b]);
    PeopleOfBoth(rows, line[..a], [line[a]] + line[a + 1..b]);
    PeopleOfBoth(rows, [line[a]], line[a + 1..b]);
    PeopleOfOne(rows, line[a]);
  }

  /** Along an exact line the estimates never fall. */
  lemma EtasRise(env: Env, rows: Rows, restaurantId: Id, a: nat, b: nat)
    requires PeopleAheadDecide(env) && IsClean(env, rows, restaurantId) && a <= b < |LineOf(rows, restaurantId)|
    requires NobodyIsEmpty(rows, LineOf(rows, restaurantId))
    ensures var line := LineOf(rows, restaurantId);
            var first, second := rows[line[a]].estimatedWaitMinutes, rows[line[b]].estimatedWaitMinutes;
            first.Some? && second.Some? && first.value <= second.value
  {
    var line := LineOf(rows, restaurantId);
    assert !IsDirty(env, rows, restaurantId, line, a) && !IsDirty(env, rows, restaurantId, line, b);
    if a < b { PeopleAheadGrow(rows, line, a, b); }
  }

  /** After every recalculation the estimates are in the order of the line. */
  lemma RecalculationOrdersEtas(env: Env, rows: Rows, restaurantId: Id, now: Time, a: nat, b: nat)
    requires PeopleAheadDecide(env) && a <= b < |LineOf(rows, restaurantId)|
    requires NobodyIsEmpty(rows, LineOf(rows, restaurantId))
    ensures var line := LineOf(rows, restaurantId);
            var after := RefreshRows(env, rows, restaurantId, now);
            && LineOf(after, restaurantId) == line
            && after[line[a]].estimatedWaitMinutes.Some? && after[line[b]].estimatedWaitMinutes.Some?
            && after[line[a]].estimatedWaitMinutes.value <= after[line[b]].estimatedWaitMinutes.value
  {
    var line := LineOf(rows, restaurantId);
    RefreshKeepsLine(env, rows, restaurantId, now);
    RefreshedIsClean(env, rows, restaurantId, now);
    forall k: nat | k < |line| ensures RefreshRows(env, rows, restaurantId, now)[line[k]].partySize >= 1 {
      RefreshedAt(env, rows, restaurantId, now, k);
    }
    EtasRise(env, RefreshRows(env, rows, restaurantId, now), restaurantId, a, b);
  }

  /** So they are in every run, as long as no tables have been assigned since the last renumbering. */
  lemma RunOrdersEtas(run: History, k: nat, restaurantId: Id, a: nat, b: nat)
    requires PeopleAheadDecide(run.env) && k <= |run.events| && AssignedSince(run, k, restaurantId) == 0
    requires a <= b < |LineOf(run.states[k].rows, restaurantId)|
    ensures var rows, line := run.states[k].rows, LineOf(run.states[k].rows, restaurantId);
            var first, second := rows[line[a]].estimatedWaitMinutes, rows[line[b]].estimatedWaitMinutes;
            first.Some? && second.Some? && first.value <= second.value
  {
    RunRowsOk(run, k);
    RunIsClean(run, k, restaurantId);
    EtasRise(run.env, run.states[k].rows, restaurantId, a, b);
  }

  // ---------------------------------------------------------------- departures

  /** Whoever stood ahead of place j but for the party at c is no more people. */
  lemma PeopleWithout(rows: Rows, line: seq<nat>, c: nat, j: nat)
    requires InTable(rows, line) && c < j < |line|
    ensures People(rows, line[..c] + line[c + 1..j]) <= People(rows, line[..j])
  {
    assert line[..j] == (line[..c] + [line[c]]) + line[c + 1..j];
    PeopleOfBoth(rows, line[..c], line[c + 1..j]);
    PeopleOfBoth(rows, line[..c] + [line[c]], line[c + 1..j]);
    PeopleOfBoth(rows, line[..c], [line[c]]);
  }

  /** The place of the party at j once the one at c has left, and the people ahead of it then. */
  lemma AheadAfter(rows: Rows, after: Rows, line: seq<nat>, rest: seq<nat>, c: nat, j: nat) returns (m: nat)
    requires InTable(rows, line) && InTable(after, rest) && c < |line| && j < |line| && j != c
    requires |after| == |rows| && forall x :: 0 <= x < |rows| ==> after[x].partySize == rows[x].partySize
    requires rest == RemoveAt(line, c)
    ensures m == if j < c then j else j - 1
    ensures m < |rest| && rest[m] == line[j]
    ensures People(after, rest[..m]) <= People(rows, line[..j])
  {
    m := if j < c then j else j - 1;
    PeopleOfPrefix(rows, after, rest[..m]);
    if j < c {
      assert rest[..j] == line[..j];
    } else {
      assert rest[..m] == line[..c] + line[c + 1..j];
      PeopleWithout(rows, line, c, j);
    }
  }

  /** What a departure means for one of the parties that stay. */
  ghost predicate Helped(rows: Rows, after: Rows, restaurantId: Id, gone: nat, i: nat)
    requires gone < |rows| && i < |rows| == |after|
    requires WaitingAt(restaurantId)(rows[gone]) && WaitingAt(restaurantId)(rows[i])
  {
    var line := LineOf(rows, restaurantId);
    && rows[i].position.Some? && after[i].position.Some?
    && rows[i].estimatedWaitMinutes.Some? && after[i].estimatedWaitMinutes.Some?
    && after[i].position.value
       == rows[i].position.value - (if PlaceOf<nat>(line, i) > PlaceOf<nat>(line, gone) then 1 else 0)
    && after[i].estimatedWaitMinutes.value <= rows[i].estimatedWaitMinutes.value
  }

  /** What an exact line stores for the party at place j. */
  lemma ExactAt(env: Env, rows: Rows, restaurantId: Id, j: nat)
    requires IsClean(env, rows, restaurantId) && j < |LineOf(rows, restaurantId)|
    ensures var line := LineOf(rows, restaurantId);
            var e := rows[line[j]];
            && e.position.Some? && e.position.value == j + 1
            && e.estimatedWaitMinutes.Some?
            && e.estimatedWaitMinutes.value == env.predict(restaurantId, People(rows, line[..j]), e.partySize)
  {
    assert !IsDirty(env, rows, restaurantId, LineOf(rows, restaurantId), j);
  }

  /** Between two exact lines: the party at place m of the second one had as many people ahead, or more. */
  lemma DepartureInLine(env: Env, rows: Rows, after: Rows, restaurantId: Id, gone: nat, i: nat, m: nat)
    requires Monotone(env) && IsClean(env, rows, restaurantId) && IsClean(env, after, restaurantId)
    requires |after| == |rows| && gone < |rows| && i < |rows| && after[i].partySize == rows[i].partySize
    requires WaitingAt(restaurantId)(rows[gone]) && WaitingAt(restaurantId)(rows[i])
    requires m < |LineOf(after, restaurantId)| && LineOf(after, restaurantId)[m] == i
    requires var line := LineOf(rows, restaurantId);
             var c, j := PlaceOf<nat>(line, gone), PlaceOf<nat>(line, i);
             0 <= j < |line| && line[j] == i
             && m == (if j > c then j - 1 else j)
             && People(after, LineOf(after, restaurantId)[..m]) <= People(rows, line[..j])
    ensures Helped(rows, after, restaurantId, gone, i)
  {
    ExactAt(env, rows, restaurantId, PlaceOf<nat>(LineOf(rows, restaurantId), i));
    ExactAt(env, after, restaurantId, m);
  }

  lemma SizesAreKept(env: Env, rows: Rows, step: Step, slot: nat, now: Time)
    requires WellFormed(step) && WaitingRowsArePlaced(rows)
    requires !step.Register? && slot < |rows| && WaitingAt(step.restaurantId)(rows[slot])
    requires step.Ring? ==> rows[slot].registrationType.ONLINE?
    ensures var after := RowsAfter(env, rows, step, slot, now);
            forall x :: 0 <= x < |rows| ==> after[x].partySize == rows[x].partySize
  {
    var after := RowsAfter(env, rows, step, slot, now);
    RowsAfterIsNext(env, rows, step, slot, now);
    forall x | 0 <= x < |rows| ensures after[x].partySize == rows[x].partySize {
      assert Evolves(rows[x], after[x], now);
    }
  }

  lemma DepartureHelps(env: Env, rows: Rows, step: Step, slot: nat, now: Time, i: nat)
    requires Monotone(env) && ByArrival(rows) && IsDeparture(step) && Recalculates(step) && WellFormed(step)
    requires slot < |rows| && WaitingAt(step.restaurantId)(rows[slot]) && WaitingRowsArePlaced(rows)
    requires i < |rows| && WaitingAt(step.restaurantId)(rows[i]) && i != slot
    requires IsClean(env, rows, step.restaurantId)
    ensures Helped(rows, RowsAfter(env, rows, step, slot, now), step.restaurantId, slot, i)
  {
    var r := step.restaurantId;
    var line := LineOf(rows, r);
    var after := RowsAfter(env, rows, step, slot, now);
    assert slot in line && i in line;
    assert LineOf(after, r) == RemoveAt(line, PlaceOf<nat>(line, slot)) by {
      LineOfRowsAfter(env, rows, step, slot, now);
    }
    assert IsClean(env, after, r) by { RefreshedIsClean(env, ChangedRows(rows, step, slot, now), r, now); }
    SizesAreKept(env, rows, step, slot, now);
    var m := AheadAfter(rows, after, line, LineOf(after, r), PlaceOf<nat>(line, slot), PlaceOf<nat>(line, i));
    DepartureInLine(env, rows, after, r, slot, i, m);
  }

  /**
   * Once a line has been renumbered since tables were last assigned, seating, skipping or cancelling
   * a party never raises the position or the estimate of a party that stays: those behind move up by
   * exactly one place, those ahead keep theirs.
   */
  lemma RunDepartureHelps(run: History, k: nat, i: nat) returns (slot: nat)
    requires Monotone(run.env) && k < |run.events| && run.results[k].Success?
    requires IsDeparture(run.events[k].step) && Recalculates(run.events[k].step)
    requires AssignedSince(run, k, run.events[k].step.restaurantId) == 0
    requires i < |run.states[k].rows| && run.states[k].rows[i].id != run.events[k].step.queueEntryId
    requires WaitingAt(run.events[k].step.restaurantId)(run.states[k].rows[i])
    ensures slot < |run.states[k].rows| == |run.states[k + 1].rows|
    ensures run.states[k].rows[slot].id == run.events[k].step.queueEntryId
    ensures WaitingAt(run.events[k].step.restaurantId)(run.states[k].rows[slot])
    ensures Helped(run.states[k].rows, run.states[k + 1].rows, run.events[k].step.restaurantId, slot, i)
  {
    var rows, step, now := run.states[k].rows, run.events[k].step, run.events[k].at;
    assert RowsOk(rows, ClockAt(run, k)) by { RunRowsOk(run, k); }
    assert WaitingRowsArePlaced(rows) by { OkRowsArePlaced(rows, ClockAt(run, k)); }
    assert IsClean(run.env, rows, step.restaurantId) by { RunIsClean(run, k, step.restaurantId); }
    assert MovesAt(run, k);
    slot := StepEffect(run.env, run.states[k], step, now);
    DepartureHelps(run.env, rows, step, slot, now, i);
  }
}
