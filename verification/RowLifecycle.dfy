/** What any call may do to a row, and what follows for rows over whole histories of calls. */
module RowLifecycle {
  import opened QueueTypes
  import opened QueueEntity
  import opened QueueLine
  import opened QueueStore
  import opened Renumbering
  import opened Recalculation
  import opened Reordering
  import opened QueueSteps
  import opened StepEffects

  /** The fields that are written at registration only. */
  predicate SameTicket(e: EntryProps, f: EntryProps) {
    && f.id == e.id && f.restaurantId == e.restaurantId && f.userId == e.userId && f.phone == e.phone
    && f.queueNumber == e.queueNumber && f.partySize == e.partySize && f.registrationType == e.registrationType
    && f.estimatedWaitMinutesAtJoin == e.estimatedWaitMinutesAtJoin
    && f.joinedAt == e.joinedAt && f.createdAt == e.createdAt
  }

  /** The changes one call at `now` can make to a row. */
  predicate Evolves(e: EntryProps, f: EntryProps, now: Time) {
    f == e
    || (&& e.status.WAITING? && SameTicket(e, f) && f.updatedAt == now
        && (f.status.WAITING? ==> f.position.Some? && f.position.value >= 1 && f.estimatedWaitMinutes.Some?)
        && (!f.status.WAITING? ==> f.position.None? && (e.estimatedWaitMinutes.Some? ==> f.estimatedWaitMinutes.Some?))
        && f.seatedAt == (if f.status.SEATED? then Some(now) else e.seatedAt)
        && f.cancelledAt == (if f.status.CANCELLED? || f.status.NO_SHOW? then Some(now) else e.cancelledAt)
        && ((f.ringCount == e.ringCount && f.lastRingedAt == e.lastRingedAt)
            || (f.registrationType.ONLINE? && f.ringCount == e.ringCount + 1 && f.lastRingedAt == Some(now))))
  }

  predicate JustJoined(e: EntryProps, now: Time) {
    && e.status.WAITING? && e.joinedAt == now && e.createdAt == now && e.updatedAt == now
    && e.position.Some? && e.position.value >= 1
    && e.estimatedWaitMinutes.Some? && e.estimatedWaitMinutesAtJoin == e.estimatedWaitMinutes
    && e.seatedAt.None? && e.cancelledAt.None? && e.ringCount == 0 && e.lastRingedAt.None?
    && 1 <= e.partySize <= 20
  }

  /** One call: rows evolve, and at most one joins at the end of the table. */
  ghost predicate Next(rows: Rows, after: Rows, now: Time) {
    && |rows| <= |after| <= |rows| + 1
    && (forall i :: 0 <= i < |rows| ==> Evolves(rows[i], after[i], now))
    && (|after| > |rows| ==> JustJoined(after[|rows|], now))
  }

  /** Which fields a row may carry in which status. */
  predicate RowOk(e: EntryProps, clock: Time) {
    && (e.position.Some? <==> e.status.WAITING?)
    && (e.position.Some? ==> e.position.value >= 1)
    && (e.seatedAt.Some? <==> e.status.SEATED?)
    && (e.cancelledAt.Some? <==> e.status.CANCELLED? || e.status.NO_SHOW?)
    && (e.seatedAt.Some? ==> e.seatedAt.value == e.updatedAt)
    && (e.cancelledAt.Some? ==> e.cancelledAt.value == e.updatedAt)
    && (e.ringCount > 0 <==> e.lastRingedAt.Some?)
    && (e.ringCount > 0 ==> e.registrationType.ONLINE?)
    && e.estimatedWaitMinutes.Some?
    && e.createdAt == e.joinedAt <= e.updatedAt <= clock
    && 1 <= e.partySize <= 20
  }

  ghost predicate RowsOk(rows: Rows, clock: Time) {
    ByArrival(rows) && forall i :: 0 <= i < |rows| ==> RowOk(rows[i], clock)
  }

  lemma EvolvesTwice(e: EntryProps, f: EntryProps, g: EntryProps, now: Time)
    requires Evolves(e, f, now) && Evolves(f, g, now)
    requires f.ringCount == e.ringCount && f.lastRingedAt == e.lastRingedAt
    ensures Evolves(e, g, now)
  {
  }

  lemma RefreshEvolves(env: Env, rows: Rows, restaurantId: Id, now: Time)
    ensures var after := RefreshRows(env, rows, restaurantId, now);
            forall i :: 0 <= i < |rows| ==>
              && Evolves(rows[i], after[i], now)
              && after[i].status == rows[i].status
              && after[i].ringCount == rows[i].ringCount && after[i].lastRingedAt == rows[i].lastRingedAt
  {
    var after := RefreshRows(env, rows, restaurantId, now);
    forall i: nat | i < |rows|
      ensures Evolves(rows[i], after[i], now) && after[i].status == rows[i].status
      ensures after[i].ringCount == rows[i].ringCount && after[i].lastRingedAt == rows[i].lastRingedAt
    {
      var k := PlaceOrNotWaiting(rows, restaurantId, i);
      if k != -1 {
        RefreshedAt(env, rows, restaurantId, now, k);
      } else {
        NotRefreshed(env, rows, restaurantId, now, i);
      }
    }
  }

  /** A change of one row, then a recalculation. */
  lemma ChangeThenRefresh(env: Env, rows: Rows, changed: Rows, restaurantId: Id, now: Time)
    requires |changed| == |rows|
    requires forall i :: 0 <= i < |rows| ==>
               && Evolves(rows[i], changed[i], now)
               && changed[i].ringCount == rows[i].ringCount && changed[i].lastRingedAt == rows[i].lastRingedAt
    ensures Next(rows, RefreshRows(env, changed, restaurantId, now), now)
  {
    var after := RefreshRows(env, changed, restaurantId, now);
    RefreshEvolves(env, changed, restaurantId, now);
    forall i | 0 <= i < |rows| ensures Evolves(rows[i], after[i], now) {
      EvolvesTwice(rows[i], changed[i], after[i], now);
    }
  }

  /** Waiting rows have a place and an estimate, which a ring or a reordering must not lose. */
  ghost predicate WaitingRowsArePlaced(rows: Rows) {
    forall i :: 0 <= i < |rows| && rows[i].status.WAITING? ==>
      rows[i].estimatedWaitMinutes.Some? && rows[i].position.Some? && rows[i].position.value >= 1
  }

  lemma {:induction false} PlacingEvolves(rows: Rows, order: seq<nat>, n: nat, now: Time)
    requires InTable(rows, order) && n <= |order| && WaitingRowsArePlaced(rows)
    requires forall k :: 0 <= k < |order| ==> rows[order[k]].status.WAITING?
    ensures var after := PlaceFirst(rows, order, n, now);
            forall i :: 0 <= i < |rows| ==>
              && Evolves(rows[i], after[i], now)
              && after[i].status == rows[i].status
              && after[i].ringCount == rows[i].ringCount && after[i].lastRingedAt == rows[i].lastRingedAt
  {
    if n > 0 {
      PlacingEvolves(rows, order, n - 1, now);
      assert rows[order[n - 1]].estimatedWaitMinutes.Some?;
    }
  }

  /** Writing an order of waiting parties back lets every row evolve. */
  lemma ReorderingEvolves(rows: Rows, restaurantId: Id, order: seq<nat>, now: Time)
    requires InTable(rows, order) && WaitingRowsArePlaced(rows)
    requires forall i: nat :: i in order ==> i in LineOf(rows, restaurantId)
    ensures var after := Reordered(rows, order, now);
            forall i :: 0 <= i < |rows| ==>
              && Evolves(rows[i], after[i], now)
              && after[i].status == rows[i].status
              && after[i].ringCount == rows[i].ringCount && after[i].lastRingedAt == rows[i].lastRingedAt
  {
    forall j | 0 <= j < |order| ensures rows[order[j]].status.WAITING? {
      assert order[j] in order;
      assert order[j] in LineOf(rows, restaurantId);
    }
    PlacingEvolves(rows, order, |order|, now);
  }

  /** The change of the one row of a ring or a departure. */
  lemma OwnRowEvolves(e: EntryProps, step: Step, now: Time)
    requires WellFormed(step) && !step.Register? && !IsShift(step) && e.status.WAITING?
    requires e.estimatedWaitMinutes.Some? && e.position.Some? && e.position.value >= 1
    requires step.Ring? ==> e.registrationType.ONLINE?
    ensures var f := if step.Ring? then Rung(e, now) else Departed(step, e, now);
            && Evolves(e, f, now) && f.status == StatusAfter(step)
            && (!step.Ring? ==> f.ringCount == e.ringCount && f.lastRingedAt == e.lastRingedAt)
  {
  }

  /** The change a call makes itself lets every row evolve. */
  lemma ChangeEvolves(rows: Rows, step: Step, slot: nat, now: Time)
    requires WellFormed(step) && WaitingRowsArePlaced(rows)
    requires !step.Register? && slot < |rows| && WaitingAt(step.restaurantId)(rows[slot])
    requires step.Ring? ==> rows[slot].registrationType.ONLINE?
    ensures var changed := ChangedRows(rows, step, slot, now);
            forall i :: 0 <= i < |rows| ==>
              && Evolves(rows[i], changed[i], now)
              && (i != slot ==> changed[i].status == rows[i].status)
              && (!step.Ring? ==>
                    changed[i].ringCount == rows[i].ringCount && changed[i].lastRingedAt == rows[i].lastRingedAt)
    ensures ChangedRows(rows, step, slot, now)[slot].status == StatusAfter(step)
  {
    if IsShift(step) {
      ReorderingEvolves(rows, step.restaurantId,
                        ShiftedLine(rows, step.restaurantId, slot, step.skipPositions.value), now);
    } else {
      OwnRowEvolves(rows[slot], step, now);
    }
  }

  /** Every call, successful or not, moves the rows by `Next`. */
  lemma StepIsNext(env: Env, s: Store, step: Step, now: Time)
    requires WellFormed(step) && WaitingRowsArePlaced(s.rows)
    ensures Next(s.rows, Apply(env, s, step, now).store.rows, now)
  {
    if Apply(env, s, step, now).result.Failure? {
      FailedCallsStutter(env, s, step, now);
    } else if step.Register? {
      RegistrationAppends(env, s, step, now);
    } else {
      var slot := StepEffect(env, s, step, now);
      RowsAfterIsNext(env, s.rows, step, slot, now);
    }
  }

  lemma RowsAfterIsNext(env: Env, rows: Rows, step: Step, slot: nat, now: Time)
    requires WellFormed(step) && WaitingRowsArePlaced(rows)
    requires !step.Register? && slot < |rows| && WaitingAt(step.restaurantId)(rows[slot])
    requires step.Ring? ==> rows[slot].registrationType.ONLINE?
    ensures Next(rows, RowsAfter(env, rows, step, slot, now), now)
  {
    ChangeEvolves(rows, step, slot, now);
    if Recalculates(step) {
      ChangeThenRefresh(env, rows, ChangedRows(rows, step, slot, now), step.restaurantId, now);
    }
  }

  lemma RowStaysOk(e: EntryProps, f: EntryProps, clock: Time, now: Time)
    requires RowOk(e, clock) && clock <= now && Evolves(e, f, now)
    ensures RowOk(f, now)
  {
  }

  lemma RowsStayOk(rows: Rows, after: Rows, clock: Time, now: Time)
    requires RowsOk(rows, clock) && Next(rows, after, now) && (rows == [] || clock < now)
    ensures RowsOk(after, now)
  {
    forall i | 0 <= i < |after| ensures RowOk(after[i], now) {
      if i < |rows| { RowStaysOk(rows[i], after[i], clock, now); }
    }
    forall i: nat, j: nat | i < j < |after| ensures JoinedBefore(after, i, j) {
      assert Evolves(rows[i], after[i], now) && RowOk(rows[i], clock);
      if j < |rows| { assert JoinedBefore(rows, i, j) && Evolves(rows[j], after[j], now); }
    }
  }

  lemma OkRowsArePlaced(rows: Rows, clock: Time)
    requires RowsOk(rows, clock)
    ensures WaitingRowsArePlaced(rows)
  {
    forall i | 0 <= i < |rows| && rows[i].status.WAITING?
      ensures rows[i].estimatedWaitMinutes.Some? && rows[i].position.Some? && rows[i].position.value >= 1
    {
      assert RowOk(rows[i], clock);
    }
  }

  /** The rows of every reachable store are well formed and in order of arrival. */
  lemma {:induction false} RunRowsOk(run: History, k: nat)
    requires k <= |run.events|
    ensures RowsOk(run.states[k].rows, ClockAt(run, k))
    ensures k == 0 ==> run.states[k].rows == []
    ensures 0 < k < |run.events| ==> ClockAt(run, k) < run.events[k].at
  {
    if k > 0 {
      RunRowsOk(run, k - 1);
      CallIsNext(run, k - 1);
      RowsStayOk(run.states[k - 1].rows, run.states[k].rows, ClockAt(run, k - 1), run.events[k - 1].at);
      assert k < |run.events| ==> TicksAt(run, k - 1, k);
    }
  }

  lemma CallIsNext(run: History, k: nat)
    requires k < |run.events|
    requires RowsOk(run.states[k].rows, ClockAt(run, k))
    ensures Next(run.states[k].rows, run.states[k + 1].rows, run.events[k].at)
  {
    assert MovesAt(run, k);
    OkRowsArePlaced(run.states[k].rows, ClockAt(run, k));
    StepIsNext(run.env, run.states[k], run.events[k].step, run.events[k].at);
  }

  /** The k-th call moves the rows by `Next`. */
  lemma RunIsNext(run: History, k: nat)
    requires k < |run.events|
    ensures RowsOk(run.states[k].rows, ClockAt(run, k))
    ensures run.states[k].rows == [] || ClockAt(run, k) < run.events[k].at
    ensures Next(run.states[k].rows, run.states[k + 1].rows, run.events[k].at)
  {
    RunRowsOk(run, k);
    CallIsNext(run, k);
  }

  /** The same for the k-th call counted from one. */
  lemma NextAt(run: History, k: nat)
    requires 0 < k <= |run.events|
    ensures RowsOk(run.states[k - 1].rows, ClockAt(run, k - 1))
    ensures run.states[k - 1].rows == [] || ClockAt(run, k - 1) < run.events[k - 1].at
    ensures Next(run.states[k - 1].rows, run.states[k].rows, run.events[k - 1].at)
  {
    RunIsNext(run, k - 1);
  }

  /**
   * A row's registration fields never change, and once it has left WAITING nothing does: it reads
   * the same in every later state of the run.
   */
  lemma {:induction false} TicketsAreKept(run: History, k: nat, m: nat, i: nat)
    requires k <= m <= |run.events| && i < |run.states[k].rows|
    ensures i < |run.states[m].rows|
    ensures var e, f := run.states[k].rows[i], run.states[m].rows[i];
            SameTicket(e, f) && (!e.status.WAITING? ==> f == e) && f.ringCount >= e.ringCount
  {
    if k < m {
      TicketsAreKept(run, k, m - 1, i);
      NextAt(run, m);
      assert Evolves(run.states[m - 1].rows[i], run.states[m].rows[i], run.events[m - 1].at);
    }
  }

  lemma ElapsedGrows(from: Time, a: Time, b: Time)
    requires a <= b
    ensures (a - from) / MS_PER_MINUTE <= (b - from) / MS_PER_MINUTE
  {
  }

  /** One call never shortens a reported wait. */
  lemma WaitGrows(e: EntryProps, f: EntryProps, clock: Time, now: Time, late: Time)
    requires RowOk(e, clock) && Evolves(e, f, now) && now <= late
    ensures WaitMinutes(e, now) <= WaitMinutes(f, late)
  {
    ElapsedGrows(e.joinedAt, now, late);
  }

  /**
   * The wait reported for a row never decreases over a run, and it freezes when the row leaves
   * WAITING. `early` is a reading after the first k calls and no later than the next one; `late`
   * is one after the first m calls.
   */
  lemma {:induction false} ReportedWaitGrows(run: History, k: nat, m: nat, i: nat, early: Time, late: Time)
    requires k <= m <= |run.events| && i < |run.states[k].rows|
    requires early <= late && (k < m ==> early <= run.events[k].at && run.events[m - 1].at <= late)
    ensures i < |run.states[m].rows|
    ensures WaitMinutes(run.states[k].rows[i], early) <= WaitMinutes(run.states[m].rows[i], late)
    ensures !run.states[k].rows[i].status.WAITING? ==>
              WaitMinutes(run.states[k].rows[i], early) == WaitMinutes(run.states[m].rows[i], late)
  {
    TicketsAreKept(run, k, m, i);
    if k == m {
      ElapsedGrows(run.states[k].rows[i].joinedAt, early, late);
    } else {
      var now := run.events[m - 1].at;
      TicketsAreKept(run, k, m - 1, i);
      assert k < m - 1 ==> TicksAt(run, k, m - 1);
      assert k < m - 1 ==> TicksAt(run, m - 2, m - 1);
      ReportedWaitGrows(run, k, m - 1, i, early, now);
      NextAt(run, m);
      assert Evolves(run.states[m - 1].rows[i], run.states[m].rows[i], now);
      WaitGrows(run.states[m - 1].rows[i], run.states[m].rows[i], ClockAt(run, m - 1), now, late);
    }
  }
}
