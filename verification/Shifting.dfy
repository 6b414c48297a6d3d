/** A shift as a clamped move of one party within its line. */
module Shifting {
  import opened QueueTypes
  import opened QueueLine
  import opened QueueStore
  import opened Renumbering
  import opened Recalculation
  import opened QueueSteps
  import opened QueueRepository
  import opened StepEffects
  import opened RowLifecycle
  import opened StoreInvariants
  import opened ExactLines

  /** The old index of the element at index a, once the one at c has moved back to t. */
  function Origin(c: nat, t: nat, a: nat): nat {
    if a == t then c else if c <= a < t then a + 1 else a
  }

  lemma MovedFrom<T(!new)>(s: seq<T>, c: nat, k: nat, a: nat)
    requires c < |s| && a < |s|
    ensures Origin(c, ShiftTarget(c, k, |s|), a) < |s|
    ensures MoveBack(s, c, k)[a] == s[Origin(c, ShiftTarget(c, k, |s|), a)]
  {
  }

  /**
   * The party lands k places further down, or at the end; those it passes move up one place; the
   * rest stay where they are.
   */
  lemma MoveIsClamped<T(!new)>(s: seq<T>, c: nat, k: nat)
    requires c < |s|
    ensures var moved := MoveBack(s, c, k);
            var t := if c + k <= |s| - 1 then c + k else |s| - 1;
            && moved[t] == s[c]
            && (forall a :: c <= a < t ==> moved[a] == s[a + 1])
            && (forall a :: 0 <= a < c || t < a < |s| ==> moved[a] == s[a])
            && multiset(moved) == multiset(s)
  {
    forall a: nat | a < |s| ensures MoveBack(s, c, k)[a] == s[Origin(c, ShiftTarget(c, k, |s|), a)] {
      MovedFrom(s, c, k, a);
    }
    MoveIsPermutation(s, c, ShiftTarget(c, k, |s|));
  }

  lemma MoveIsPermutation<T>(s: seq<T>, c: nat, t: nat)
    requires c < |s| && t < |s|
    ensures multiset(InsertAt(RemoveAt(s, c), t, s[c])) == multiset(s)
  {
    var rest := RemoveAt(s, c);
    assert s == s[..c] + [s[c]] + s[c + 1..];
    assert rest == rest[..t] + rest[t..];
    assert multiset(s) == multiset(rest) + multiset{s[c]};
    assert multiset(rest) == multiset(rest[..t]) + multiset(rest[t..]);
  }

  /** Moving back by j and then by k is moving back by j + k. */
  lemma MovesAddUp<T(!new)>(s: seq<T>, c: nat, j: nat, k: nat)
    requires c < |s|
    ensures MoveBack(MoveBack(s, c, j), ShiftTarget(c, j, |s|), k) == MoveBack(s, c, j + k)
  {
    var t := ShiftTarget(c, j, |s|);
    var first := MoveBack(s, c, j);
    forall a: nat | a < |s| ensures MoveBack(first, t, k)[a] == MoveBack(s, c, j + k)[a] {
      MovedFrom(first, t, k, a);
      MovedFrom(s, c, j, Origin(t, ShiftTarget(t, k, |s|), a));
      MovedFrom(s, c, j + k, a);
    }
  }

  /** A shift succeeds exactly for a party that waits at the caller's restaurant. */
  lemma ShiftSucceedsIff(env: Env, s: Store, step: Step, now: Time)
    requires WellFormed(step) && IsShift(step)
    ensures Apply(env, s, step, now).result.Success?
            <==> Find(s.rows, step.restaurantId, step.queueEntryId).Some?
                 && s.rows[Find(s.rows, step.restaurantId, step.queueEntryId).value].status.WAITING?
  {
  }

  lemma LineOfShift(env: Env, rows: Rows, step: Step, slot: nat, now: Time)
    requires ByArrival(rows) && IsShift(step) && slot < |rows| && WaitingAt(step.restaurantId)(rows[slot])
    ensures var line := LineOf(rows, step.restaurantId);
            var after := RowsAfter(env, rows, step, slot, now);
            && slot in line
            && LineOf(after, step.restaurantId) == MoveBack(line, PlaceOf(line, slot), step.skipPositions.value)
  {
    var line := LineOf(rows, step.restaurantId);
    assert slot in line;
    LineOfRowsAfter(env, rows, step, slot, now);
  }

  /** The index at which a shift puts its party. */
  ghost function LandingPlace(rows: Rows, step: Step, slot: nat): nat
    requires IsShift(step) && slot < |rows| && WaitingAt(step.restaurantId)(rows[slot])
  {
    var line := LineOf(rows, step.restaurantId);
    assert slot in line;
    ShiftTarget(PlaceOf(line, slot), step.skipPositions.value, |line|)
  }

  ghost function LandingPosition(rows: Rows, step: Step, slot: nat): nat
    requires IsShift(step) && slot < |rows| && WaitingAt(step.restaurantId)(rows[slot])
  {
    var line := LineOf(rows, step.restaurantId);
    assert slot in line;
    ShiftedPosition(PlaceOf(line, slot), step.skipPositions.value, |line|)
  }

  lemma ShiftLands(env: Env, rows: Rows, step: Step, slot: nat, now: Time)
    requires ByArrival(rows) && IsShift(step) && slot < |rows| && WaitingAt(step.restaurantId)(rows[slot])
    ensures var p := LandingPlace(rows, step, slot);
            var after := RowsAfter(env, rows, step, slot, now);
            var moved := LineOf(after, step.restaurantId);
            p < |moved| && moved[p] == slot && after[slot].position == Some(LandingPosition(rows, step, slot))
  {
    var line := LineOf(rows, step.restaurantId);
    var after := RowsAfter(env, rows, step, slot, now);
    var p := LandingPlace(rows, step, slot);
    assert p < |LineOf(after, step.restaurantId)| && LineOf(after, step.restaurantId)[p] == slot by {
      LineOfShift(env, rows, step, slot, now);
      MovedTo(line, PlaceOf(line, slot), step.skipPositions.value);
    }
    NumberedInLine(env, ChangedRows(rows, step, slot, now), step.restaurantId, now, p,
                   LandingPosition(rows, step, slot));
  }

  lemma NumberedInLine(env: Env, rows: Rows, restaurantId: Id, now: Time, p: nat, position: nat)
    requires position == p + 1 && p < |LineOf(RefreshRows(env, rows, restaurantId, now), restaurantId)|
    ensures var after := RefreshRows(env, rows, restaurantId, now);
            after[LineOf(after, restaurantId)[p]].position == Some(position)
  {
    RefreshKeepsLine(env, rows, restaurantId, now);
  }

  lemma ShiftReply(env: Env, s: Store, step: Step, slot: nat, now: Time)
    requires WellFormed(step) && IsShift(step) && slot < |s.rows| && WaitingAt(step.restaurantId)(s.rows[slot])
    requires Find(s.rows, step.restaurantId, step.queueEntryId) == Some(slot)
    ensures Apply(env, s, step, now).result == Success(PartySkipped(Some(LandingPosition(s.rows, step, slot))))
  {
    assert slot in LineOf(s.rows, step.restaurantId);
  }

  /** A successful shift reports the position that is stored for its party: one more than its index. */
  lemma ShiftReportsItsPlace(env: Env, s: Store, step: Step, clock: Time, now: Time)
    returns (slot: nat, place: nat, position: nat)
    requires Ready(s, step, clock, now) && IsShift(step) && Apply(env, s, step, now).result.Success?
    ensures slot < |s.rows| && s.rows[slot].id == step.queueEntryId && WaitingAt(step.restaurantId)(s.rows[slot])
    ensures place == LandingPlace(s.rows, step, slot) && position == place + 1
    ensures Apply(env, s, step, now).result.value == PartySkipped(Some(position))
    ensures var after := Apply(env, s, step, now).store.rows;
            slot < |after| && after[slot].position == Some(position)
    ensures var moved := LineOf(Apply(env, s, step, now).store.rows, step.restaurantId);
            place < |moved| && moved[place] == slot
  {
    slot := StepEffect(env, s, step, now);
    place, position := LandingPlace(s.rows, step, slot), LandingPosition(s.rows, step, slot);
    ShiftLands(env, s.rows, step, slot, now);
    ShiftReply(env, s, step, slot, now);
  }

  lemma MovedTo(s: seq<nat>, c: nat, k: nat)
    requires c < |s|
    ensures MoveBack(s, c, k)[ShiftTarget(c, k, |s|)] == s[c]
  {
  }

  /** Shifting a party by j and then by k leaves the line that shifting it by j + k leaves. */
  lemma ShiftsAddUp(env: Env, s: Store, r: Id, id: Id, staff: string, j: int, k: int, clock: Time, t: Time, u: Time)
    requires j > 0 && k > 0 && Ready(s, SkipParty(r, id, staff, Some(j)), clock, t)
    requires Apply(env, s, SkipParty(r, id, staff, Some(j)), t).result.Success?
    ensures var between := Apply(env, s, SkipParty(r, id, staff, Some(j)), t).store;
            var twice := Apply(env, between, SkipParty(r, id, staff, Some(k)), u);
            var once := Apply(env, s, SkipParty(r, id, staff, Some(j + k)), u);
            && twice.result.Success? && once.result.Success?
            && LineOf(twice.store.rows, r) == LineOf(once.store.rows, r)
  {
    var first, second, both := SkipParty(r, id, staff, Some(j)), SkipParty(r, id, staff, Some(k)),
                               SkipParty(r, id, staff, Some(j + k));
    var slot := StepEffect(env, s, first, t);
    var between := Apply(env, s, first, t).store;
    StaysInPlace(env, s.rows, first, slot, clock, t);
    assert Find(between.rows, r, id) == Some(slot) by { SlotIs(between.rows, slot); }
    SuccessfulShift(env, between, second, slot, u);
    SuccessfulShift(env, s, both, slot, u);
    TwoShifts(env, s.rows, r, slot, first, second, both, t, u);
  }

  lemma SuccessfulShift(env: Env, s: Store, step: Step, slot: nat, now: Time)
    requires WellFormed(step) && IsShift(step) && Find(s.rows, step.restaurantId, step.queueEntryId) == Some(slot)
    requires s.rows[slot].status.WAITING?
    ensures Apply(env, s, step, now).result.Success?
    ensures Apply(env, s, step, now).store.rows == RowsAfter(env, s.rows, step, slot, now)
  {
    ShiftSucceedsIff(env, s, step, now);
    var _ := StepEffect(env, s, step, now);
  }

  /** After a shift the party still waits where it did, under its id. */
  lemma StaysInPlace(env: Env, rows: Rows, step: Step, slot: nat, clock: Time, now: Time)
    requires RowsOk(rows, clock) && UniqueIds(rows) && (rows == [] || clock < now)
    requires WellFormed(step) && IsShift(step) && slot < |rows| && WaitingAt(step.restaurantId)(rows[slot])
    ensures var after := RowsAfter(env, rows, step, slot, now);
            && ByArrival(after) && UniqueIds(after)
            && WaitingAt(step.restaurantId)(after[slot]) && after[slot].id == rows[slot].id
  {
    var after := RowsAfter(env, rows, step, slot, now);
    OkRowsArePlaced(rows, clock);
    RowsAfterIsNext(env, rows, step, slot, now);
    RowsStayOk(rows, after, clock, now);
    StatusesOfRowsAfter(env, rows, step, slot, now);
    SameIds(rows, after);
    assert Evolves(rows[slot], after[slot], now);
  }

  lemma TwoShifts(env: Env, rows: Rows, r: Id, slot: nat, first: Step, second: Step, both: Step, t: Time, u: Time)
    requires IsShift(first) && IsShift(second) && IsShift(both)
    requires first.restaurantId == second.restaurantId == both.restaurantId == r
    requires both.skipPositions.value == first.skipPositions.value + second.skipPositions.value
    requires ByArrival(rows) && slot < |rows| && WaitingAt(r)(rows[slot])
    requires var between := RowsAfter(env, rows, first, slot, t); ByArrival(between) && WaitingAt(r)(between[slot])
    ensures LineOf(RowsAfter(env, RowsAfter(env, rows, first, slot, t), second, slot, u), r)
            == LineOf(RowsAfter(env, rows, both, slot, u), r)
  {
    var line := LineOf(rows, r);
    var between := RowsAfter(env, rows, first, slot, t);
    LineOfShift(env, rows, first, slot, t);
    LineOfShift(env, between, second, slot, u);
    LineOfShift(env, rows, both, slot, u);
    TwoMoves(line, LineOf(between, r), PlaceOf(line, slot), slot, first.skipPositions.value,
             second.skipPositions.value, both.skipPositions.value);
  }

  lemma TwoMoves(line: seq<nat>, between: seq<nat>, c: nat, slot: nat, j: nat, k: nat, m: nat)
    requires c < |line| && line[c] == slot && NoRepeats(between) && between == MoveBack(line, c, j) && m == j + k
    ensures slot in between && MoveBack(between, PlaceOf(between, slot), k) == MoveBack(line, c, m)
  {
    MovedTo(line, c, j);
    PlaceInLine(between, ShiftTarget(c, j, |line|));
    MovesAddUp(line, c, j, k);
  }
}
