/** The retrospective query rebuilds the headcount a party saw when it registered. */
module Retrospective {
  import opened QueueTypes
  import opened QueueLine
  import opened QueueStore
  import opened QueueSteps
  import opened StepEffects
  import opened RowLifecycle

  /** A later change of a row does not change whether it stood in line before t. */
  lemma PresenceIsKept(e: EntryProps, f: EntryProps, clock: Time, now: Time, restaurantId: Id, t: Time)
    requires RowOk(e, clock) && Evolves(e, f, now) && (t < now || f == e)
    ensures AheadAtJoin(restaurantId, t)(f) == AheadAtJoin(restaurantId, t)(e)
  {
  }

  /** A change at the very instant counts as made: who joins then is not ahead, and who leaves then is gone. */
  lemma AheadMeans(e: EntryProps, restaurantId: Id, t: Time)
    ensures AheadAtJoin(restaurantId, t)(e)
            <==> && e.restaurantId == restaurantId && e.joinedAt < t
                 && (e.seatedAt.Some? ==> t < e.seatedAt.value)
                 && (e.status == WAITING || e.status == SEATED || t < e.updatedAt)
  {
  }

  /** One call at or after t keeps the query about t, provided a call at t itself only adds a row. */
  lemma QueryIsKept(rows: Rows, after: Rows, clock: Time, now: Time, restaurantId: Id, t: Time)
    requires RowsOk(rows, clock) && Next(rows, after, now) && t <= now
    requires t == now ==> forall i :: 0 <= i < |rows| ==> after[i] == rows[i]
    ensures PeopleAheadAtJoin(after, restaurantId, t) == PeopleAheadAtJoin(rows, restaurantId, t)
  {
    var p := AheadAtJoin(restaurantId, t);
    forall i | 0 <= i < |rows| ensures p(rows[i]) == p(after[i]) && rows[i].partySize == after[i].partySize {
      assert Evolves(rows[i], after[i], now);
      PresenceIsKept(rows[i], after[i], clock, now, restaurantId, t);
    }
    SumAgrees(rows, p, after[..|rows|], p);
    if |after| > |rows| {
      assert JustJoined(after[|rows|], now);
    } else {
      assert after[..|rows|] == after;
    }
  }

  /** Right after the last recorded instant, the query counts the waiting parties. */
  lemma QueryCountsTheWaiting(rows: Rows, clock: Time, restaurantId: Id, t: Time)
    requires RowsOk(rows, clock) && (rows == [] || clock < t)
    ensures PeopleAheadAtJoin(rows, restaurantId, t) == Sum(rows, WaitingAt(restaurantId))
  {
    forall i | 0 <= i < |rows|
      ensures AheadAtJoin(restaurantId, t)(rows[i]) == WaitingAt(restaurantId)(rows[i])
    {
      assert RowOk(rows[i], clock);
    }
    SumAgrees(rows, AheadAtJoin(restaurantId, t), rows, WaitingAt(restaurantId));
  }

  /** Did the k-th call add the row in slot i? */
  ghost predicate Joins(run: History, k: nat, i: nat)
    requires k < |run.events|
  {
    |run.states[k].rows| == i < |run.states[k + 1].rows|
  }

  lemma JustAfterJoining(run: History, k: nat, i: nat, restaurantId: Id)
    requires k < |run.events| && Joins(run, k, i)
    ensures run.states[k + 1].rows[i].joinedAt == run.events[k].at
    ensures PeopleAheadAtJoin(run.states[k + 1].rows, restaurantId, run.events[k].at)
            == Sum(run.states[k].rows, WaitingAt(restaurantId))
  {
    var t := run.events[k].at;
    RunIsNext(run, k);
    assert JustJoined(run.states[k + 1].rows[i], t);
    assert MovesAt(run, k);
    JoiningKeepsRows(run.env, run.states[k], run.events[k].step, t);
    QueryCountsTheWaiting(run.states[k].rows, ClockAt(run, k), restaurantId, t);
    QueryIsKept(run.states[k].rows, run.states[k + 1].rows, ClockAt(run, k), t, restaurantId, t);
  }

  /** A later call changes neither the joining time nor the answer to the query about it. */
  lemma LaterCallsKeepQuery(run: History, k: nat, m: nat, i: nat, restaurantId: Id)
    requires k < m < |run.events| && i < |run.states[m].rows| && run.states[m].rows[i].joinedAt == run.events[k].at
    ensures i < |run.states[m + 1].rows| && run.states[m + 1].rows[i].joinedAt == run.events[k].at
    ensures PeopleAheadAtJoin(run.states[m + 1].rows, restaurantId, run.events[k].at)
            == PeopleAheadAtJoin(run.states[m].rows, restaurantId, run.events[k].at)
  {
    assert TicksAt(run, k, m);
    RunIsNext(run, m);
    assert Evolves(run.states[m].rows[i], run.states[m + 1].rows[i], run.events[m].at);
    QueryIsKept(run.states[m].rows, run.states[m + 1].rows, ClockAt(run, m), run.events[m].at, restaurantId,
                run.events[k].at);
  }

  /**
   * The headcount waiting at the restaurant when the k-th call registered a party is what the query
   * about that party's joining time returns in every later state of the run, whatever seatings,
   * assignments, shifts and cancellations came in between.
   */
  lemma {:induction false} PastLineIsRebuilt(run: History, k: nat, m: nat, i: nat, restaurantId: Id)
    requires k < m <= |run.events| && Joins(run, k, i)
    ensures i < |run.states[m].rows| && run.states[m].rows[i].joinedAt == run.events[k].at
    ensures PeopleAheadAtJoin(run.states[m].rows, restaurantId, run.states[m].rows[i].joinedAt)
            == Sum(run.states[k].rows, WaitingAt(restaurantId))
  {
    if m == k + 1 {
      JustAfterJoining(run, k, i, restaurantId);
    } else {
      PastLineIsRebuilt(run, k, m - 1, i, restaurantId);
      LaterCallsKeepQuery(run, k, m - 1, i, restaurantId);
    }
  }

  /** Every row was added by exactly one call. */
  lemma {:induction false} EveryRowJoined(run: History, m: nat, i: nat) returns (k: nat)
    requires m <= |run.events| && i < |run.states[m].rows|
    ensures k < m && Joins(run, k, i)
    ensures forall j: nat :: j < m && Joins(run, j, i) ==> j == k
  {
    NextAt(run, m);
    if i < |run.states[m - 1].rows| {
      k := EveryRowJoined(run, m - 1, i);
    } else {
      k := m - 1;
      forall j: nat | j < m - 1 ensures !Joins(run, j, i) { RowsGrow(run, j + 1, m - 1); }
    }
  }

  lemma {:induction false} RowsGrow(run: History, j: nat, m: nat)
    requires j <= m <= |run.events|
    ensures |run.states[j].rows| <= |run.states[m].rows|
  {
    if j < m {
      RowsGrow(run, j, m - 1);
      NextAt(run, m);
    }
  }

  /**
   * For every row of every reachable store: the query about its joining time gives the headcount it
   * saw, so the estimate it was quoted can be recomputed from the final rows.
   */
  lemma EveryRowIsRebuilt(run: History, m: nat, i: nat) returns (k: nat)
    requires m <= |run.events| && i < |run.states[m].rows|
    ensures k < m && Joins(run, k, i)
    ensures var e := run.states[m].rows[i];
            PeopleAheadAtJoin(run.states[m].rows, e.restaurantId, e.joinedAt)
            == Sum(run.states[k].rows, WaitingAt(e.restaurantId))
    ensures var e := run.states[m].rows[i];
            e.estimatedWaitMinutesAtJoin
            == Some(run.env.predict(e.restaurantId, PeopleAheadAtJoin(run.states[m].rows, e.restaurantId, e.joinedAt),
                                e.partySize))
  {
    k := EveryRowJoined(run, m, i);
    assert MovesAt(run, k);
    JoiningKeepsRows(run.env, run.states[k], run.events[k].step, run.events[k].at);
    TicketsAreKept(run, k + 1, m, i);
    PastLineIsRebuilt(run, k, m, i, run.states[m].rows[i].restaurantId);
  }

  /**
   * The headcount that table assignment publishes for the estimate's training is the one the
   * registration fed to the predictor.
   */
  lemma TrainingMatchesRegistration(run: History, m: nat, i: nat) returns (k: nat)
    requires m < |run.events|
    requires run.events[m].step.AssignTables? && run.results[m].Success?
    requires SlotOf(run.states[m].rows, run.events[m].step.queueEntryId) == Some(i)
    ensures k < m && Joins(run, k, i)
    ensures var r := run.events[m].step.restaurantId;
            run.results[m].value == TablesAssigned(Sum(run.states[k].rows, WaitingAt(r)))
  {
    assert MovesAt(run, m);
    k := EveryRowIsRebuilt(run, m, i);
  }
}
