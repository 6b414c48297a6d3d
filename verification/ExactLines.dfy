/**
 * The stored lines against plain sequences: what every call does to the order of a line, and when
 * the positions and estimates stored step by step are those of a recalculation from scratch.
 */
module ExactLines {
  import opened QueueTypes
  import opened QueueLine
  import opened QueueStore
  import opened Renumbering
  import opened Recalculation
  import opened QueueSteps
  import opened QueueUseCases
  import opened Reordering
  import opened StepEffects
  import opened RowLifecycle
  import opened StoreInvariants
  import opened LineOrder

  /** What the proofs below need of a reachable store and the next call. */
  ghost predicate Ready(s: Store, step: Step, clock: Time, now: Time) {
    WellFormed(step) && RowsOk(s.rows, clock) && UniqueIds(s.rows) && (s.rows == [] || clock < now)
  }

  lemma RunIsReady(run: History, k: nat)
    requires k < |run.events|
    ensures Ready(run.states[k], run.events[k].step, ClockAt(run, k), run.events[k].at)
  {
    RunRowsOk(run, k);
    RunRecordsOk(run, k);
    assert MovesAt(run, k);
  }

  lemma ReadyStep(env: Env, s: Store, step: Step, clock: Time, now: Time)
    requires Ready(s, step, clock, now)
    ensures Next(s.rows, Apply(env, s, step, now).store.rows, now)
    ensures RowsOk(Apply(env, s, step, now).store.rows, now)
    ensures WaitingRowsArePlaced(s.rows)
  {
    OkRowsArePlaced(s.rows, clock);
    StepIsNext(env, s, step, now);
    RowsStayOk(s.rows, Apply(env, s, step, now).store.rows, clock, now);
  }

  // ---------------------------------------------------------------- the order of a line

  /** The line of a restaurant after a successful call on one of its parties. */
  ghost function LineAfter(rows: Rows, step: Step, slot: nat): seq<nat>
    requires !step.Register? && slot < |rows| && WaitingAt(step.restaurantId)(rows[slot])
  {
    var line := LineOf(rows, step.restaurantId);
    assert slot in line;
    if step.Ring? then line
    else if IsShift(step) then ShiftedLine(rows, step.restaurantId, slot, step.skipPositions.value)
    else RemoveAt(line, PlaceOf(line, slot))
  }

  lemma LineOfRowsAfter(env: Env, rows: Rows, step: Step, slot: nat, now: Time)
    requires ByArrival(rows)
    requires !step.Register? && slot < |rows| && WaitingAt(step.restaurantId)(rows[slot])
    ensures LineOf(RowsAfter(env, rows, step, slot, now), step.restaurantId) == LineAfter(rows, step, slot)
  {
    var r := step.restaurantId;
    var changed := ChangedRows(rows, step, slot, now);
    if step.Ring? {
      SameLine(rows, changed, r);
    } else if IsShift(step) {
      ShiftSetsLine(rows, r, slot, step.skipPositions.value, now);
    } else {
      LineWithout(rows, r, slot, Departed(step, rows[slot], now));
    }
    if Recalculates(step) { RefreshKeepsLine(env, changed, r, now); }
  }

  /**
   * Every successful call changes the order of its own line in one way: a newcomer stands behind
   * the parties whose position is not beyond its own, a ring changes nothing, a shift moves the
   * party back, and any other call takes it out.
   */
  lemma OwnLineAfter(env: Env, s: Store, step: Step, clock: Time, now: Time)
    requires Ready(s, step, clock, now) && Apply(env, s, step, now).result.Success?
    ensures var line := LineOf(s.rows, RestaurantOf(step));
            var after := LineOf(Apply(env, s, step, now).store.rows, RestaurantOf(step));
            if step.Register? then after == InsertAt<nat>(line, UpTo(s.rows, line, |line| + 1), |s.rows|)
            else
              var slot := SlotOfStep(s.rows, step);
              slot.Some? && WaitingAt(step.restaurantId)(s.rows[slot.value])
              && after == LineAfter(s.rows, step, slot.value)
  {
    if step.Register? {
      ReadyStep(env, s, step, clock, now);
      RegistrationAppends(env, s, step, now);
      LineTotals(s.rows, RestaurantOf(step));
      LineWithNewcomer(s.rows, RestaurantOf(step), NewEntry(env, s.rows, step.request, step.newId, now));
    } else {
      var slot := StepEffect(env, s, step, now);
      LineOfRowsAfter(env, s.rows, step, slot, now);
    }
  }

  /** Calls elsewhere, and failed calls, leave a line as it is. */
  lemma OtherLinesAfter(env: Env, s: Store, step: Step, clock: Time, now: Time, restaurantId: Id)
    requires Ready(s, step, clock, now)
    requires restaurantId != RestaurantOf(step) || Apply(env, s, step, now).result.Failure?
    ensures LineOf(Apply(env, s, step, now).store.rows, restaurantId) == LineOf(s.rows, restaurantId)
  {
    FailedCallsStutter(env, s, step, now);
    if restaurantId != RestaurantOf(step) {
      ReadyStep(env, s, step, clock, now);
      OthersUntouched(env, s, step, now);
      var after := Apply(env, s, step, now).store.rows;
      forall i: nat | i < |s.rows|
        ensures WaitingAt(restaurantId)(after[i]) == WaitingAt(restaurantId)(s.rows[i])
        ensures WaitingAt(restaurantId)(s.rows[i]) ==> SameKey(s.rows[i], after[i])
      {
        assert Evolves(s.rows[i], after[i], now);
      }
      SameLine(s.rows, after, restaurantId);
    }
  }

  // ---------------------------------------------------------------- exact positions and estimates

  /** A line whose rows look the same stays exact. */
  lemma StillClean(env: Env, rows: Rows, after: Rows, restaurantId: Id)
    requires IsClean(env, rows, restaurantId) && |rows| <= |after|
    requires LineOf(after, restaurantId) == LineOf(rows, restaurantId)
    requires forall i :: 0 <= i < |rows| && WaitingAt(restaurantId)(rows[i]) ==>
               && after[i].position == rows[i].position && after[i].partySize == rows[i].partySize
               && after[i].estimatedWaitMinutes == rows[i].estimatedWaitMinutes
    ensures IsClean(env, after, restaurantId)
  {
    var line := LineOf(rows, restaurantId);
    forall k | 0 <= k < |line| ensures WaitingAt(restaurantId)(rows[line[k]]) { assert line[k] in line; }
    forall k: nat | k < |line| ensures !IsDirty(env, after, restaurantId, line, k) {
      EtaDependsOnSizes(env, rows, after, restaurantId, line, k);
      assert !IsDirty(env, rows, restaurantId, line, k);
    }
  }

  /** In an exact line a newcomer goes last. */
  lemma NewcomerGoesLast(env: Env, rows: Rows, restaurantId: Id)
    requires IsClean(env, rows, restaurantId)
    ensures var line := LineOf(rows, restaurantId);
            UpTo(rows, line, |line| + 1) == |line|
  {
    var line := LineOf(rows, restaurantId);
    if line != [] { assert !IsDirty(env, rows, restaurantId, line, |line| - 1); }
  }

  /** A newcomer with the next position and the matching estimate keeps the line exact. */
  lemma AppendKeepsClean(env: Env, rows: Rows, restaurantId: Id, e: EntryProps)
    requires ByArrival(rows + [e]) && WaitingAt(restaurantId)(e) && IsClean(env, rows, restaurantId)
    requires e.position == Some(|LineOf(rows, restaurantId)| + 1)
    requires e.estimatedWaitMinutes
             == Some(env.predict(restaurantId, People(rows, LineOf(rows, restaurantId)), e.partySize))
    ensures LineOf(rows + [e], restaurantId) == LineOf(rows, restaurantId) + [|rows|]
    ensures IsClean(env, rows + [e], restaurantId)
  {
    var line := LineOf(rows, restaurantId);
    var longer := line + [|rows|];
    assert LineOf(rows + [e], restaurantId) == longer by {
      NewcomerGoesLast(env, rows, restaurantId);
      LineWithNewcomer(rows, restaurantId, e);
    }
    forall k: nat | k < |longer| ensures !IsDirty(env, rows + [e], restaurantId, longer, k) {
      StaysCleanAt(env, rows, restaurantId, line, e, k);
    }
  }

  lemma StaysCleanAt(env: Env, rows: Rows, restaurantId: Id, line: seq<nat>, e: EntryProps, k: nat)
    requires InTable(rows, line) && k <= |line|
    requires if k < |line| then !IsDirty(env, rows, restaurantId, line, k)
             else e.position == Some(k + 1)
                  && e.estimatedWaitMinutes == Some(env.predict(restaurantId, People(rows, line), e.partySize))
    ensures InTable(rows + [e], line + [|rows|])
    ensures !IsDirty(env, rows + [e], restaurantId, line + [|rows|], k)
  {
    assert (line + [|rows|])[..k] == line[..k];
    assert k == |line| ==> line[..k] == line;
    PeopleOfPrefix(rows, rows + [e], line[..k]);
  }

  lemma RegistrationKeepsClean(env: Env, s: Store, step: Step, clock: Time, now: Time)
    requires Ready(s, step, clock, now) && step.Register? && Apply(env, s, step, now).result.Success?
    requires IsClean(env, s.rows, RestaurantOf(step))
    ensures IsClean(env, Apply(env, s, step, now).store.rows, RestaurantOf(step))
    ensures LineOf(Apply(env, s, step, now).store.rows, RestaurantOf(step))
            == LineOf(s.rows, RestaurantOf(step)) + [|s.rows|]
  {
    ReadyStep(env, s, step, clock, now);
    RegistrationAppends(env, s, step, now);
    LineTotals(s.rows, RestaurantOf(step));
    AppendKeepsClean(env, s.rows, RestaurantOf(step), NewEntry(env, s.rows, step.request, step.newId, now));
  }

  /** A ring leaves an exact line exact, and every call that recalculates makes its line exact. */
  lemma CleanAfterRows(env: Env, rows: Rows, step: Step, slot: nat, now: Time)
    requires !step.Register? && !step.AssignTables? && ByArrival(rows)
    requires slot < |rows| && WaitingAt(step.restaurantId)(rows[slot])
    requires Recalculates(step) || IsClean(env, rows, step.restaurantId)
    ensures IsClean(env, RowsAfter(env, rows, step, slot, now), step.restaurantId)
  {
    if step.Ring? {
      LineOfRowsAfter(env, rows, step, slot, now);
      StillClean(env, rows, RowsAfter(env, rows, step, slot, now), step.restaurantId);
    } else {
      RefreshedIsClean(env, ChangedRows(rows, step, slot, now), step.restaurantId, now);
    }
  }

  /** A successful call other than assigning tables keeps its own line exact, or makes it so. */
  lemma OwnLineStaysClean(env: Env, s: Store, step: Step, clock: Time, now: Time)
    requires Ready(s, step, clock, now) && !step.AssignTables? && Apply(env, s, step, now).result.Success?
    requires Recalculates(step) || IsClean(env, s.rows, RestaurantOf(step))
    ensures IsClean(env, Apply(env, s, step, now).store.rows, RestaurantOf(step))
  {
    if step.Register? {
      RegistrationKeepsClean(env, s, step, clock, now);
    } else {
      var slot := StepEffect(env, s, step, now);
      CleanAfterRows(env, s.rows, step, slot, now);
    }
  }

  lemma OtherLinesStayClean(env: Env, s: Store, step: Step, clock: Time, now: Time, restaurantId: Id)
    requires Ready(s, step, clock, now) && IsClean(env, s.rows, restaurantId)
    requires restaurantId != RestaurantOf(step) || Apply(env, s, step, now).result.Failure?
    ensures IsClean(env, Apply(env, s, step, now).store.rows, restaurantId)
  {
    FailedCallsStutter(env, s, step, now);
    if restaurantId != RestaurantOf(step) {
      OtherLinesAfter(env, s, step, clock, now, restaurantId);
      OthersUntouched(env, s, step, now);
      StillClean(env, s.rows, Apply(env, s, step, now).store.rows, restaurantId);
    }
  }

  // ---------------------------------------------------------------- every run

  /** The parties assigned tables since the last renumbering, after a call, given their number before it. */
  ghost function AssignedAfter(run: History, k: nat, restaurantId: Id, before: nat): nat
    requires k < |run.events|
  {
    var step := run.events[k].step;
    if RestaurantOf(step) != restaurantId || run.results[k].Failure? then before
    else if step.AssignTables? then before + 1
    else if Recalculates(step) then 0
    else before
  }

  /** The parties assigned tables at a restaurant since its line was last renumbered. */
  ghost function AssignedSince(run: History, k: nat, restaurantId: Id): nat
    requires k <= |run.events|
  {
    if k == 0 then 0 else AssignedAfter(run, k - 1, restaurantId, AssignedSince(run, k - 1, restaurantId))
  }

  lemma CallAtKeepsClean(run: History, k: nat, restaurantId: Id)
    requires 0 < k <= |run.events| && AssignedSince(run, k, restaurantId) == 0
    requires AssignedSince(run, k - 1, restaurantId) == 0 ==> IsClean(run.env, run.states[k - 1].rows, restaurantId)
    ensures IsClean(run.env, run.states[k].rows, restaurantId)
  {
    var s, step, clock, now := run.states[k - 1], run.events[k - 1].step, ClockAt(run, k - 1), run.events[k - 1].at;
    assert Ready(s, step, clock, now) by { RunIsReady(run, k - 1); }
    assert Outcome(run.states[k], run.results[k - 1]) == Apply(run.env, s, step, now) by { CallAt(run, k); }
    if restaurantId != RestaurantOf(step) || run.results[k - 1].Failure? {
      OtherLinesStayClean(run.env, s, step, clock, now, restaurantId);
    } else {
      OwnLineStaysClean(run.env, s, step, clock, now);
    }
  }

  /** While no tables have been assigned since the last renumbering of a line, the line is exact. */
  lemma {:induction false} RunIsClean(run: History, k: nat, restaurantId: Id)
    requires k <= |run.events| && AssignedSince(run, k, restaurantId) == 0
    ensures IsClean(run.env, run.states[k].rows, restaurantId)
  {
    if k > 0 {
      if AssignedSince(run, k - 1, restaurantId) == 0 { RunIsClean(run, k - 1, restaurantId); }
      CallAtKeepsClean(run, k, restaurantId);
    }
  }

  /**
   * So what is stored step by step is what a recalculation from scratch would store: it would find
   * nothing to change, in the rows or in the cache.
   */
  lemma RecalculatingFindsNothing(run: History, k: nat, restaurantId: Id, now: Time)
    requires k <= |run.events| && AssignedSince(run, k, restaurantId) == 0
    ensures var s := run.states[k];
            var line := LineOf(s.rows, restaurantId);
            && DirtyIds(run.env, s.rows, restaurantId) == []
            && Recalculated(run.env, s, restaurantId, now) == s
            && forall j :: 0 <= j < |line| ==>
                 && s.rows[line[j]].position == Some(j + 1)
                 && s.rows[line[j]].estimatedWaitMinutes
                    == Some(run.env.predict(restaurantId, People(s.rows, line[..j]), s.rows[line[j]].partySize))
  {
    var s := run.states[k];
    var line := LineOf(s.rows, restaurantId);
    RunIsClean(run, k, restaurantId);
    CleanLineStays(run.env, s.rows, restaurantId, now);
    CleanCacheStays(run.env, s.rows, restaurantId, line, |line|, now, s.live);
    forall j: nat | j < |line|
      ensures s.rows[line[j]].position == Some(j + 1)
      ensures s.rows[line[j]].estimatedWaitMinutes == Some(Eta(run.env, s.rows, restaurantId, line, j))
    {
      assert !IsDirty(run.env, s.rows, restaurantId, line, j);
    }
  }

  /**
   * A quote and a registration answered from the same rows agree: the party stands one behind the
   * quoted depth, with the quoted minutes.
   */
  lemma QuoteMatchesJoining(env: Env, s: Store, step: Step, now: Time)
    requires WellFormed(step) && step.Register? && Apply(env, s, step, now).result.Success?
    ensures var quote := Quote(env, s.rows, step.request.restaurantId, step.request.partySize, step.answers);
            var e := Apply(env, s, step, now).store.rows[|s.rows|];
            && quote.Success?
            && e.estimatedWaitMinutes == Some(quote.value.estimatedWaitMinutes)
            && e.position == Some(quote.value.queueDepth + 1)
            && quote.value.queueDepth == |LineOf(s.rows, step.request.restaurantId)|
  {
    RegistrationAppends(env, s, step, now);
    LineTotals(s.rows, step.request.restaurantId);
  }
}
