/** Over every run, the stored rows tell which calls were made: who joined, who rang, who left, how and when. */
module Provenance {
  import opened QueueTypes
  import opened QueueEntity
  import opened QueueLine
  import opened QueueStore
  import opened SeatPlans
  import opened DisplayNumbers
  import opened QueueSteps
  import opened StepEffects
  import opened RowLifecycle
  import opened StoreInvariants
  import opened CallOutcomes
  import opened RegistrationOutcomes

  // ---------------------------------------------------------------- rings

  /** Is the k-th call a successful ring of the party? */
  ghost predicate Rings(run: History, k: nat, id: Id)
    requires k < |run.events|
  {
    run.events[k].step.Ring? && run.events[k].step.queueEntryId == id && run.results[k].Success?
  }

  /** The successful rings of a party among the first k calls. */
  ghost function RingsOf(run: History, k: nat, id: Id): nat
    requires k <= |run.events|
  {
    if k == 0 then 0 else RingsOf(run, k - 1, id) + if Rings(run, k - 1, id) then 1 else 0
  }

  /** The time of the last of them. */
  ghost function LastRingOf(run: History, k: nat, id: Id): Option<Time>
    requires k <= |run.events|
  {
    if k == 0 then None
    else if Rings(run, k - 1, id) then Some(run.events[k - 1].at)
    else LastRingOf(run, k - 1, id)
  }

  /** What a call does to the ring fields of a row. */
  predicate RingsTo(e: EntryProps, f: EntryProps, rung: bool, now: Time) {
    && f.id == e.id && f.ringCount == e.ringCount + (if rung then 1 else 0)
    && f.lastRingedAt == if rung then Some(now) else e.lastRingedAt
  }

  lemma RingsOfRowsAfter(env: Env, rows: Rows, step: Step, slot: nat, now: Time, i: nat)
    requires WellFormed(step) && WaitingRowsArePlaced(rows) && !step.Register? && !step.Ring? && i < |rows|
    requires slot < |rows| && WaitingAt(step.restaurantId)(rows[slot])
    ensures RingsTo(rows[i], RowsAfter(env, rows, step, slot, now)[i], false, now)
  {
    ChangeEvolves(rows, step, slot, now);
    if Recalculates(step) { RefreshEvolves(env, ChangedRows(rows, step, slot, now), step.restaurantId, now); }
  }

  /** Only a successful ring of the party itself touches its ring fields. */
  lemma RingsAfterStep(env: Env, s: Store, step: Step, now: Time, i: nat)
    requires WellFormed(step) && WaitingRowsArePlaced(s.rows) && UniqueIds(s.rows) && i < |s.rows|
    ensures var outcome := Apply(env, s, step, now);
            && i < |outcome.store.rows|
            && RingsTo(s.rows[i], outcome.store.rows[i],
                       step.Ring? && step.queueEntryId == s.rows[i].id && outcome.result.Success?, now)
  {
    if Apply(env, s, step, now).result.Failure? {
      FailedCallsStutter(env, s, step, now);
    } else if step.Register? {
      RegistrationStores(env, s, step, now);
      assert Apply(env, s, step, now).store.rows[..|s.rows|][i] == s.rows[i];
    } else {
      var slot := StepEffect(env, s, step, now);
      if step.Ring? {
        RingOutcome(env, s, step, now, slot);
        if s.rows[i].id == step.queueEntryId { SameIdSameSlot(s.rows, i, slot); }
      } else {
        RingsOfRowsAfter(env, s.rows, step, slot, now, i);
      }
    }
  }

  lemma RingsAfterCall(run: History, k: nat, i: nat)
    requires 0 < k <= |run.events| && i < |run.states[k - 1].rows|
    ensures i < |run.states[k].rows|
    ensures RingsTo(run.states[k - 1].rows[i], run.states[k].rows[i],
                    Rings(run, k - 1, run.states[k - 1].rows[i].id), run.events[k - 1].at)
  {
    assert UniqueIds(run.states[k - 1].rows) by { RunRecordsOk(run, k - 1); }
    assert WaitingRowsArePlaced(run.states[k - 1].rows) by {
      RunRowsOk(run, k - 1);
      OkRowsArePlaced(run.states[k - 1].rows, ClockAt(run, k - 1));
    }
    CallAt(run, k);
    RingsAfterStep(run.env, run.states[k - 1], run.events[k - 1].step, run.events[k - 1].at, i);
  }

  lemma {:induction false} NoRingsOfStrangers(run: History, k: nat, id: Id)
    requires k <= |run.events| && SlotOf(run.states[k].rows, id).None?
    ensures RingsOf(run, k, id) == 0 && LastRingOf(run, k, id) == None
  {
    if k > 0 {
      StrangersBefore(run, k, id);
      NoRingsOfStrangers(run, k - 1, id);
      CallAt(run, k);
      if Rings(run, k - 1, id) {
        StrangersAreNotFound(run.env, run.states[k - 1], run.events[k - 1].step, run.events[k - 1].at);
      }
    }
  }

  lemma NewcomerIsNotRung(run: History, k: nat, i: nat)
    requires 0 < k <= |run.events| && i == |run.states[k - 1].rows| < |run.states[k].rows|
    ensures var e := run.states[k].rows[i];
            && e.ringCount == 0 && e.lastRingedAt == None
            && RingsOf(run, k, e.id) == 0 && LastRingOf(run, k, e.id) == None
  {
    var j := k - 1;
    NewcomerIsNew(run, k);
    NoRingsOfStrangers(run, k - 1, run.events[k - 1].step.newId);
    CallAt(run, k);
    RegistrationStores(run.env, run.states[k - 1], run.events[k - 1].step, run.events[k - 1].at);
  }

  /**
   * In every run a row's ring count is the number of successful rings of its party, and its ring time
   * is that of the last of them.
   */
  lemma {:induction false} RingsAreCounted(run: History, k: nat, i: nat)
    requires k <= |run.events| && i < |run.states[k].rows|
    ensures var e := run.states[k].rows[i];
            e.ringCount == RingsOf(run, k, e.id) && e.lastRingedAt == LastRingOf(run, k, e.id)
  {
    assert k > 0 && |run.states[k].rows| <= |run.states[k - 1].rows| + 1 by { NextAt(run, k); }
    if i < |run.states[k - 1].rows| {
      RingsAreCounted(run, k - 1, i);
      RingsAfterCall(run, k, i);
    } else {
      NewcomerIsNotRung(run, k, i);
    }
  }

  /** And the reply to a ring is the number of rings so far and the time of this one. */
  lemma RingReplies(run: History, k: nat) returns (i: nat)
    requires k < |run.events| && run.events[k].step.Ring? && run.results[k].Success?
    ensures i < |run.states[k + 1].rows| && run.states[k + 1].rows[i].id == run.events[k].step.queueEntryId
    ensures run.results[k].value == RingSent(RingsOf(run, k + 1, run.events[k].step.queueEntryId), run.events[k].at)
    ensures var e := run.states[k + 1].rows[i];
            run.results[k].value == RingSent(e.ringCount, run.events[k].at) && e.lastRingedAt == Some(run.events[k].at)
  {
    assert UniqueIds(run.states[k].rows) by { RunRecordsOk(run, k); }
    assert MovesAt(run, k);
    i := StepEffect(run.env, run.states[k], run.events[k].step, run.events[k].at);
    RingOutcome(run.env, run.states[k], run.events[k].step, run.events[k].at, i);
    RingsAreCounted(run, k, i);
    assert Rings(run, k, run.events[k].step.queueEntryId);
  }

  // ---------------------------------------------------------------- joining

  /** The call that made a row, and what the row still has of it. */
  ghost predicate JoinedIn(run: History, j: nat, e: EntryProps, i: nat)
    requires j < |run.events|
  {
    var step := run.events[j].step;
    && step.Register? && run.results[j].Success? && |run.states[j].rows| == i
    && e.id == step.newId && Carries(e, step.request)
    && e.joinedAt == run.events[j].at && e.createdAt == run.events[j].at
  }

  lemma JoinedJustNow(run: History, k: nat, i: nat)
    requires 0 < k <= |run.events| && i == |run.states[k - 1].rows| < |run.states[k].rows|
    ensures JoinedIn(run, k - 1, run.states[k].rows[i], i)
  {
    NewcomerIsNew(run, k);
    CallAt(run, k);
    RegistrationStores(run.env, run.states[k - 1], run.events[k - 1].step, run.events[k - 1].at);
  }

  /** In every run each row comes from one successful registration, and carries its request for ever. */
  lemma {:induction false} RowsCarryRequests(run: History, k: nat, i: nat) returns (j: nat)
    requires k <= |run.events| && i < |run.states[k].rows|
    ensures j < k && JoinedIn(run, j, run.states[k].rows[i], i)
  {
    assert k > 0 && |run.states[k].rows| <= |run.states[k - 1].rows| + 1 by { NextAt(run, k); }
    if i < |run.states[k - 1].rows| {
      j := RowsCarryRequests(run, k - 1, i);
      TicketsAreKept(run, k - 1, k, i);
    } else {
      j := k - 1;
      JoinedJustNow(run, k, i);
    }
  }

  /** Conversely, each successful registration has its row in every later store. */
  lemma RegistrationsHaveRows(run: History, j: nat, k: nat) returns (i: nat)
    requires j < k <= |run.events| && run.events[j].step.Register? && run.results[j].Success?
    ensures i == |run.states[j].rows| < |run.states[k].rows| && JoinedIn(run, j, run.states[k].rows[i], i)
  {
    i := |run.states[j].rows|;
    CallAt(run, j + 1);
    RegistrationStores(run.env, run.states[j], run.events[j].step, run.events[j].at);
    TicketsAreKept(run, j + 1, k, i);
  }

  /**
   * A user that waits is barred: if a successful call registered a user id, and its row still waits,
   * then no registration of that user id succeeds, at any restaurant and under any phone number.
   */
  lemma WaitingUserIsBarred(run: History, j: nat, k: nat, i: nat)
    requires j < k < |run.events| && run.events[j].step.Register? && run.results[j].Success?
    requires i == |run.states[j].rows| < |run.states[k].rows| && run.states[k].rows[i].status == WAITING
    requires run.events[k].step.Register?
    requires NonEmpty(run.events[j].step.request.userId)
    requires run.events[k].step.request.userId == run.events[j].step.request.userId
    ensures run.results[k].Failure?
  {
    var _ := RegistrationsHaveRows(run, j, k);
    assert UserWaits(run.states[k].rows, run.events[k].step.request.userId.value);
    assert MovesAt(run, k);
    RegistrationSucceedsIff(run.env, run.states[k], run.events[k].step, run.events[k].at);
  }

  /** So is a phone number at the restaurant where it waits, with or without blanks around it. */
  lemma WaitingPhoneIsBarred(run: History, j: nat, k: nat, i: nat)
    requires j < k < |run.events| && run.events[j].step.Register? && run.results[j].Success?
    requires i == |run.states[j].rows| < |run.states[k].rows| && run.states[k].rows[i].status == WAITING
    requires run.events[k].step.Register?
    requires run.events[k].step.request.restaurantId == run.events[j].step.request.restaurantId
    requires Trim(run.events[k].step.request.guestPhone) == Trim(run.events[j].step.request.guestPhone)
    ensures run.results[k].Failure?
  {
    var _ := RegistrationsHaveRows(run, j, k);
    assert PhoneWaits(run.states[k].rows, run.events[k].step.request.restaurantId,
                      Trim(run.events[k].step.request.guestPhone));
    assert MovesAt(run, k);
    RegistrationSucceedsIff(run.env, run.states[k], run.events[k].step, run.events[k].at);
  }

  // ---------------------------------------------------------------- leaving

  /** Does a call on a party lead to the status, with the upstream answer it takes? */
  predicate LeadsTo(step: Step, status: QueueStatus) {
    match step
    case SeatParty(_, _, _, _, upstreamOk) => status == SEATED && upstreamOk
    case AssignTables(_, _, _, _, upstreamOk) => status == SEATED && upstreamOk
    case SkipParty(_, _, _, skipPositions) => status == SKIPPED && skipPositions == None
    case CancelEntry(_, _, _, reason, _) => status == if reason == REASON_NO_SHOW then NO_SHOW else CANCELLED
    case _ => false
  }

  /** The status and the times that a departure stores. */
  predicate LeavesAs(step: Step, f: EntryProps, now: Time) {
    && LeadsTo(step, f.status) && f.updatedAt == now
    && f.seatedAt == (if f.status == SEATED then Some(now) else None)
    && f.cancelledAt == (if f.status == CANCELLED || f.status == NO_SHOW then Some(now) else None)
  }

  /** The call that took a party out of the line, and what its row keeps of it. */
  ghost predicate LeftIn(run: History, j: nat, e: EntryProps)
    requires j < |run.events|
  {
    var step, now := run.events[j].step, run.events[j].at;
    && run.results[j].Success? && LeavesAs(step, e, now)
    && step.restaurantId == e.restaurantId && step.queueEntryId == e.id
  }

  /** A successful departure stores the status it leads to, and the time. */
  lemma DepartureLeadsTo(env: Env, s: Store, step: Step, now: Time, i: nat)
    requires WellFormed(step) && UniqueIds(s.rows) && TablesOk(s) && IsDeparture(step)
    requires Apply(env, s, step, now).result.Success? && IsNamed(s.rows, i, step.restaurantId, step.queueEntryId)
    requires s.rows[i].seatedAt == None && s.rows[i].cancelledAt == None
    ensures var after := Apply(env, s, step, now).store.rows;
            i < |after| && LeavesAs(step, after[i], now)
  {
    match step
    case SeatParty(_, _, _, _, _) =>
      SeatSucceedsIff(env, s, step, now, i);
      SeatStores(env, s, step, now, i);
    case AssignTables(_, _, _, _, _) =>
      AssignSucceedsIff(env, s, step, now, i);
      AssignStores(env, s, step, now, i);
    case SkipParty(_, _, _, _) =>
      SkipSucceedsIff(env, s, step, now, i);
      DropStores(env, s, step, now, i);
    case CancelEntry(_, _, _, _, _) =>
      CancelSucceedsIff(env, s, step, now, i);
      assert TablesAt(s, i);
      CancelStores(env, s, step, now, i);
  }

  /** A party whose status a call changed was named by it, in a successful departure. */
  lemma ChangedIsNamed(env: Env, s: Store, step: Step, now: Time, i: nat)
    requires WellFormed(step) && WaitingRowsArePlaced(s.rows) && i < |s.rows| && s.rows[i].status == WAITING
    requires var after := Apply(env, s, step, now).store.rows; i < |after| && after[i].status != WAITING
    ensures Apply(env, s, step, now).result.Success? && IsDeparture(step)
    ensures IsNamed(s.rows, i, step.restaurantId, step.queueEntryId)
  {
    if Apply(env, s, step, now).result.Failure? {
      FailedCallsStutter(env, s, step, now);
    } else if step.Register? {
      RegistrationAppends(env, s, step, now);
    } else {
      StatusesAfter(env, s, step, now);
    }
  }

  /** A call that takes a row out of WAITING. */
  lemma LeftByStep(env: Env, s: Store, step: Step, clock: Time, now: Time, i: nat)
    requires WellFormed(step) && RecordsOk(s) && RowsOk(s.rows, clock)
    requires i < |s.rows| && s.rows[i].status == WAITING
    requires var after := Apply(env, s, step, now).store.rows; i < |after| && after[i].status != WAITING
    ensures Apply(env, s, step, now).result.Success? && IsDeparture(step)
    ensures IsNamed(s.rows, i, step.restaurantId, step.queueEntryId)
    ensures LeavesAs(step, Apply(env, s, step, now).store.rows[i], now)
  {
    OkRowsArePlaced(s.rows, clock);
    ChangedIsNamed(env, s, step, now, i);
    assert RowOk(s.rows[i], clock);
    DepartureLeadsTo(env, s, step, now, i);
  }

  lemma LeftInCall(run: History, k: nat, i: nat)
    requires 0 < k <= |run.events| && i < |run.states[k - 1].rows| && i < |run.states[k].rows|
    requires run.states[k - 1].rows[i].status == WAITING && run.states[k].rows[i].status != WAITING
    ensures run.results[k - 1].Success?
    ensures !run.events[k - 1].step.Register?
    ensures IsNamed(run.states[k - 1].rows, i, run.events[k - 1].step.restaurantId, run.events[k - 1].step.queueEntryId)
    ensures LeavesAs(run.events[k - 1].step, run.states[k].rows[i], run.events[k - 1].at)
  {
    var s, step, now := run.states[k - 1], run.events[k - 1].step, run.events[k - 1].at;
    assert RecordsOk(s) by { RunRecordsOk(run, k - 1); }
    assert RowsOk(s.rows, ClockAt(run, k - 1)) by { RunRowsOk(run, k - 1); }
    assert WellFormed(step) && Outcome(run.states[k], run.results[k - 1]) == Apply(run.env, s, step, now) by {
      CallAt(run, k);
    }
    LeftByStep(run.env, s, step, ClockAt(run, k - 1), now, i);
  }

  lemma LeftJustNow(run: History, k: nat, i: nat)
    requires 0 < k <= |run.events| && i < |run.states[k - 1].rows| && i < |run.states[k].rows|
    requires run.states[k - 1].rows[i].status == WAITING && run.states[k].rows[i].status != WAITING
    ensures LeftIn(run, k - 1, run.states[k].rows[i])
  {
    assert SameTicket(run.states[k - 1].rows[i], run.states[k].rows[i]) by { TicketsAreKept(run, k - 1, k, i); }
    LeftInCall(run, k, i);
  }

  /**
   * In every run, a row that has left WAITING tells by which successful call: a seating or assignment
   * that the restaurant service accepted for SEATED, a skip for SKIPPED, a cancellation with the
   * matching reason for the rest; and it keeps the time of that call.
   */
  lemma {:induction false} DeparturesAreTold(run: History, k: nat, i: nat) returns (j: nat)
    requires k <= |run.events| && i < |run.states[k].rows| && run.states[k].rows[i].status != WAITING
    ensures j < k && LeftIn(run, j, run.states[k].rows[i])
    ensures i < |run.states[j].rows| && run.states[j].rows[i].status == WAITING
  {
    assert k > 0 && |run.states[k].rows| <= |run.states[k - 1].rows| + 1 by { NextAt(run, k); }
    if i == |run.states[k - 1].rows| {
      NewcomerWaits(run, k, i);
    } else if run.states[k - 1].rows[i].status == WAITING {
      j := k - 1;
      LeftJustNow(run, k, i);
    } else {
      j := DeparturesAreTold(run, k - 1, i);
      TicketsAreKept(run, k - 1, k, i);
    }
  }

  lemma NewcomerWaits(run: History, k: nat, i: nat)
    requires 0 < k <= |run.events| && i == |run.states[k - 1].rows| < |run.states[k].rows|
    ensures run.states[k].rows[i].status == WAITING
  {
    NewcomerIsNew(run, k);
    CallAt(run, k);
    RegistrationStores(run.env, run.states[k - 1], run.events[k - 1].step, run.events[k - 1].at);
  }

  lemma DepartsInCall(run: History, k: nat) returns (i: nat)
    requires 0 < k <= |run.events| && IsDeparture(run.events[k - 1].step) && run.results[k - 1].Success?
    ensures IsNamed(run.states[k - 1].rows, i, run.events[k - 1].step.restaurantId,
                    run.events[k - 1].step.queueEntryId)
    ensures i < |run.states[k].rows|
    ensures LeavesAs(run.events[k - 1].step, run.states[k].rows[i], run.events[k - 1].at)
  {
    var s, step, now := run.states[k - 1], run.events[k - 1].step, run.events[k - 1].at;
    assert RecordsOk(s) by { RunRecordsOk(run, k - 1); }
    assert RowsOk(s.rows, ClockAt(run, k - 1)) by { RunRowsOk(run, k - 1); }
    assert WellFormed(step) && Outcome(run.states[k], run.results[k - 1]) == Apply(run.env, s, step, now) by {
      CallAt(run, k);
    }
    i := StepEffect(run.env, s, step, now);
    assert RowOk(s.rows[i], ClockAt(run, k - 1));
    DepartureLeadsTo(run.env, s, step, now, i);
  }

  /** And conversely: after a successful departure its party has the status that the call leads to, for ever. */
  lemma DeparturesAreKept(run: History, j: nat, k: nat) returns (i: nat)
    requires j < k <= |run.events| && IsDeparture(run.events[j].step) && run.results[j].Success?
    ensures i < |run.states[k].rows| && LeftIn(run, j, run.states[k].rows[i])
  {
    i := DepartsInCall(run, j + 1);
    assert SameTicket(run.states[j].rows[i], run.states[j + 1].rows[i]) by { TicketsAreKept(run, j, j + 1, i); }
    TicketsAreKept(run, j + 1, k, i);
  }

  /** No run assigns a party to tables with fewer seats than its people. */
  lemma AssignedSeatsSuffice(run: History, k: nat) returns (i: nat)
    requires k < |run.events| && run.events[k].step.AssignTables? && run.results[k].Success?
    ensures i < |run.states[k].rows| && run.states[k].rows[i].id == run.events[k].step.queueEntryId
    ensures run.states[k].rows[i].partySize <= Total(run.events[k].step.tables)
  {
    assert UniqueIds(run.states[k].rows) by { RunRecordsOk(run, k); }
    assert MovesAt(run, k);
    i := StepEffect(run.env, run.states[k], run.events[k].step, run.events[k].at);
    AssignSucceedsIff(run.env, run.states[k], run.events[k].step, run.events[k].at, i);
  }

  /** The wait reported for a party that has left is that from its joining to its departure, in whole minutes. */
  lemma DepartedWaitIsTold(run: History, k: nat, i: nat, now: Time) returns (j: nat, m: nat)
    requires k <= |run.events| && i < |run.states[k].rows| && run.states[k].rows[i].status != WAITING
    ensures j < m < k && JoinedIn(run, j, run.states[k].rows[i], i) && LeftIn(run, m, run.states[k].rows[i])
    ensures IsMinutes(WaitMinutes(run.states[k].rows[i], now), run.events[j].at, run.events[m].at)
  {
    j := RowsCarryRequests(run, k, i);
    m := DeparturesAreTold(run, k, i);
    assert j < m by { assert |run.states[j].rows| == i < |run.states[m].rows|; RowsOnlyGrow(run, m, j); }
    WaitOfDeparted(run.states[k].rows[i], now);
  }

  lemma {:induction false} RowsOnlyGrow(run: History, k: nat, m: nat)
    requires k <= |run.events| && m <= |run.events|
    ensures k <= m ==> |run.states[k].rows| <= |run.states[m].rows|
  {
    if k < m {
      RowsOnlyGrow(run, k, m - 1);
      NextAt(run, m);
    }
  }

  // ---------------------------------------------------------------- records and assignments

  /** The audit record of a call: who did it, when, and what it led to. */
  predicate IsRecordOf(c: StatusChange, step: Step, now: Time) {
    && c.changedAt == now && !step.Ring?
    && if step.Register? then
         && c.queueEntryId == step.newId && c.previousStatus == None && c.currentStatus == WAITING
         && c.changedBy == (if NonEmpty(step.request.staffUserId) then step.request.staffUserId.value
                            else if NonEmpty(step.request.userId) then step.request.userId.value
                            else "system")
       else
         && c.queueEntryId == step.queueEntryId && c.previousStatus == Some(WAITING)
         && c.changedBy == step.staffUserId
         && if step.SkipParty? && step.skipPositions.Some? then c.currentStatus == WAITING
            else c.currentStatus == (match step
                                     case SeatParty(_, _, _, _, _) => SEATED
                                     case AssignTables(_, _, _, _, _) => SEATED
                                     case CancelEntry(_, _, _, reason, _) =>
                                       if reason == REASON_NO_SHOW then NO_SHOW else CANCELLED
                                     case _ => SKIPPED)
  }

  lemma HistoryAfterStep(env: Env, s: Store, step: Step, now: Time)
    requires WellFormed(step)
    ensures var outcome := Apply(env, s, step, now);
            if outcome.result.Failure? || step.Ring? then outcome.store.history == s.history
            else |outcome.store.history| == |s.history| + 1 && s.history <= outcome.store.history
                 && IsRecordOf(outcome.store.history[|s.history|], step, now)
  {
    if Apply(env, s, step, now).result.Failure? {
      FailedCallsStutter(env, s, step, now);
    } else if step.Register? {
      RegistrationIsRecorded(env, s, step, now);
    } else {
      var slot := StepEffect(env, s, step, now);
    }
  }

  /** In every run each audit record tells a successful call, and the calls are recorded in their order. */
  lemma {:induction false} RecordsAreTold(run: History, k: nat, h: nat) returns (j: nat)
    requires k <= |run.events| && h < |run.states[k].history|
    ensures j < k && run.results[j].Success? && |run.states[j].history| == h
    ensures IsRecordOf(run.states[k].history[h], run.events[j].step, run.events[j].at)
  {
    assert k > 0;
    CallAt(run, k);
    HistoryAfterStep(run.env, run.states[k - 1], run.events[k - 1].step, run.events[k - 1].at);
    if h < |run.states[k - 1].history| {
      j := RecordsAreTold(run, k - 1, h);
      assert run.states[k - 1].history <= run.states[k].history;
    } else {
      j := k - 1;
    }
  }

  /** The tables that a call names. */
  predicate NamesTable(step: Step, tableId: Id) {
    || (step.SeatParty? && tableId in step.tableIds)
    || (step.AssignTables? && exists n :: 0 <= n < |step.tables| && step.tables[n].tableId == tableId)
  }

  /** A table assignment and the call that made it, which the restaurant service accepted. */
  predicate IsAssignmentOf(a: TableAssignment, step: Step, now: Time) {
    && (step.SeatParty? || step.AssignTables?) && step.upstreamOk
    && NamesTable(step, a.tableId)
    && IsAssignment(a, step.queueEntryId, a.tableId, step.staffUserId, now)
  }

  lemma AssignmentsAfterStep(env: Env, s: Store, step: Step, now: Time, n: nat)
    requires WellFormed(step) && RecordsOk(s) && n < |Apply(env, s, step, now).store.assignments|
    ensures var outcome := Apply(env, s, step, now);
            if n < |s.assignments| then outcome.store.assignments[n] == s.assignments[n]
            else outcome.result.Success? && IsAssignmentOf(outcome.store.assignments[n], step, now)
  {
    if Apply(env, s, step, now).result.Failure? {
      FailedCallsStutter(env, s, step, now);
    } else if step.Register? {
      RegistrationAppends(env, s, step, now);
    } else {
      AssignmentsAdded(env, s, step, now);
      if n >= |s.assignments| { TablesAreNamed(env, s, step, now, n - |s.assignments|); }
    }
  }

  lemma TablesAreNamed(env: Env, s: Store, step: Step, now: Time, n: nat)
    requires WellFormed(step) && UniqueIds(s.rows) && !step.Register? && Apply(env, s, step, now).result.Success?
    requires n < |TablesTaken(step)|
    ensures IsAssignmentOf(NewAssignments(step.queueEntryId, TablesTaken(step), step.staffUserId, now)[n], step, now)
  {
    var slot := StepEffect(env, s, step, now);
    if step.SeatParty? {
      SeatSucceedsIff(env, s, step, now, slot);
    } else {
      AssignSucceedsIff(env, s, step, now, slot);
      assert step.tables[n].tableId == TablesTaken(step)[n];
    }
  }

  /** In every run each table assignment tells the successful call that made it, and is never released. */
  lemma {:induction false} AssignmentsAreTold(run: History, k: nat, n: nat) returns (j: nat)
    requires k <= |run.events| && n < |run.states[k].assignments|
    ensures j < k && run.results[j].Success?
    ensures IsAssignmentOf(run.states[k].assignments[n], run.events[j].step, run.events[j].at)
  {
    assert k > 0;
    assert RecordsOk(run.states[k - 1]) by { RunRecordsOk(run, k - 1); }
    CallAt(run, k);
    AssignmentsAfterStep(run.env, run.states[k - 1], run.events[k - 1].step, run.events[k - 1].at, n);
    if n < |run.states[k - 1].assignments| {
      j := AssignmentsAreTold(run, k - 1, n);
    } else {
      j := k - 1;
    }
  }
}
