/** The audit history and the table assignments, over every run of calls. */
module StoreInvariants {
  import opened QueueTypes
  import opened QueueLine
  import opened QueueStore
  import opened SeatPlans
  import opened QueueSteps
  import opened QueueRepository
  import opened StepEffects
  import opened RowLifecycle

  /** The slot a call on an existing party works on. */
  function SlotOfStep(rows: Rows, step: Step): (slot: Option<nat>)
    ensures slot.Some? ==> slot.value < |rows|
  {
    if step.Register? then None else Find(rows, step.restaurantId, step.queueEntryId)
  }

  /** What a successful call on an existing party does to the statuses. */
  ghost predicate ChangesStatusAt(rows: Rows, after: Rows, slot: nat, status: QueueStatus) {
    && slot < |rows| == |after|
    && rows[slot].status.WAITING?
    && after[slot].status == status
    && forall i :: 0 <= i < |rows| ==> after[i].id == rows[i].id && (i == slot || after[i].status == rows[i].status)
  }

  /** A successful call on an existing party changes the status of that party alone, from WAITING. */
  lemma StatusesAfter(env: Env, s: Store, step: Step, now: Time)
    requires WellFormed(step) && !step.Register? && WaitingRowsArePlaced(s.rows)
    requires Apply(env, s, step, now).result.Success?
    ensures SlotOfStep(s.rows, step).Some?
    ensures s.rows[SlotOfStep(s.rows, step).value].id == step.queueEntryId
    ensures ChangesStatusAt(s.rows, Apply(env, s, step, now).store.rows, SlotOfStep(s.rows, step).value,
                            StatusAfter(step))
    ensures Apply(env, s, step, now).store.history == s.history + RecordsOf(step, now)
  {
    var slot := StepEffect(env, s, step, now);
    StatusesOfRowsAfter(env, s.rows, step, slot, now);
  }

  lemma StatusesOfRowsAfter(env: Env, rows: Rows, step: Step, slot: nat, now: Time)
    requires WellFormed(step) && WaitingRowsArePlaced(rows)
    requires !step.Register? && slot < |rows| && WaitingAt(step.restaurantId)(rows[slot])
    requires step.Ring? ==> rows[slot].registrationType.ONLINE?
    ensures ChangesStatusAt(rows, RowsAfter(env, rows, step, slot, now), slot, StatusAfter(step))
  {
    ChangeEvolves(rows, step, slot, now);
    if Recalculates(step) { RefreshEvolves(env, ChangedRows(rows, step, slot, now), step.restaurantId, now); }
  }

  // ---------------------------------------------------------------- audit history

  /** A chain of records from registration to `status`: all WAITING, but for the last. */
  ghost predicate IsChain(h: seq<StatusChange>, status: QueueStatus) {
    && |h| >= 1
    && h[0].previousStatus == None && h[0].currentStatus == WAITING
    && (forall k :: 1 <= k < |h| ==> h[k].previousStatus == Some(h[k - 1].currentStatus))
    && (forall k :: 0 <= k < |h| - 1 ==> h[k].currentStatus.WAITING?)
    && h[|h| - 1].currentStatus == status
  }

  ghost predicate ChainAt(s: Store, i: nat)
    requires i < |s.rows|
  {
    IsChain(HistoryOf(s.history, s.rows[i].id), s.rows[i].status)
  }

  ghost predicate AuditOk(s: Store) {
    && (forall i: nat :: i < |s.rows| ==> ChainAt(s, i))
    && (forall k :: 0 <= k < |s.history| ==> SlotOf(s.rows, s.history[k].queueEntryId).Some?)
  }

  lemma {:induction false} NoHistoryOfStrangers(history: seq<StatusChange>, id: Id)
    requires forall k :: 0 <= k < |history| ==> history[k].queueEntryId != id
    ensures HistoryOf(history, id) == []
  {
    if history != [] { NoHistoryOfStrangers(history[..|history| - 1], id); }
  }

  /** Look-ups survive as long as the ids do. */
  lemma StillFound(rows: Rows, after: Rows, id: Id)
    requires |rows| <= |after| && forall i :: 0 <= i < |rows| ==> after[i].id == rows[i].id
    requires SlotOf(rows, id).Some?
    ensures SlotOf(after, id).Some?
  {
    assert after[SlotOf(rows, id).value].id == id;
  }

  lemma AuditAfterChange(s: Store, after: Store, slot: nat, c: StatusChange)
    requires UniqueIds(s.rows) && AuditOk(s)
    requires ChangesStatusAt(s.rows, after.rows, slot, c.currentStatus)
    requires c.queueEntryId == s.rows[slot].id && c.previousStatus == Some(WAITING)
    requires after.history == s.history + [c]
    ensures AuditOk(after)
  {
    forall i: nat | i < |after.rows| ensures ChainAt(after, i) {
      assert ChainAt(s, i);
      HistoryOfOneMore(s.history, c, s.rows[i].id);
      if s.rows[i].id == s.rows[slot].id { SameIdSameSlot(s.rows, i, slot); }
    }
    forall k | 0 <= k < |after.history| ensures SlotOf(after.rows, after.history[k].queueEntryId).Some? {
      if k < |s.history| {
        StillFound(s.rows, after.rows, s.history[k].queueEntryId);
      } else {
        assert after.rows[slot].id == c.queueEntryId;
      }
    }
  }

  lemma AuditAfterRegistration(s: Store, after: Store, e: EntryProps, c: StatusChange)
    requires AuditOk(s) && SlotOf(s.rows, e.id).None?
    requires after.rows == s.rows + [e] && e.status.WAITING?
    requires after.history == s.history + [c]
    requires c.queueEntryId == e.id && c.previousStatus == None && c.currentStatus == WAITING
    ensures AuditOk(after)
  {
    forall i: nat | i < |after.rows| ensures ChainAt(after, i) {
      HistoryOfOneMore(s.history, c, after.rows[i].id);
      if i < |s.rows| {
        assert ChainAt(s, i);
      } else {
        forall k | 0 <= k < |s.history| ensures s.history[k].queueEntryId != e.id {
          assert SlotOf(s.rows, s.history[k].queueEntryId).Some?;
        }
        NoHistoryOfStrangers(s.history, e.id);
      }
    }
    forall k | 0 <= k < |after.history| ensures SlotOf(after.rows, after.history[k].queueEntryId).Some? {
      if k < |s.history| {
        StillFound(s.rows, after.rows, s.history[k].queueEntryId);
      } else {
        assert after.rows[|s.rows|].id == c.queueEntryId;
      }
    }
  }

  // ---------------------------------------------------------------- table assignments

  ghost predicate TablesAt(s: Store, i: nat)
    requires i < |s.rows|
  {
    ActiveAssignments(s.assignments, s.rows[i].id) != [] <==> s.rows[i].status.SEATED?
  }

  ghost predicate TablesOk(s: Store) {
    && (forall i: nat :: i < |s.rows| ==> TablesAt(s, i))
    && (forall k :: 0 <= k < |s.assignments| ==> SlotOf(s.rows, s.assignments[k].queueEntryId).Some?)
  }

  lemma {:induction false} NoTablesOfStrangers(assignments: seq<TableAssignment>, id: Id)
    requires forall k :: 0 <= k < |assignments| ==> assignments[k].queueEntryId != id
    ensures ActiveAssignments(assignments, id) == []
  {
    if assignments != [] { NoTablesOfStrangers(assignments[..|assignments| - 1], id); }
  }

  /** A party leaves WAITING and takes `tableIds`; it is seated iff it takes any. */
  lemma TablesAfterChange(s: Store, after: Store, slot: nat, status: QueueStatus, tableIds: seq<Id>, staff: string,
                          now: Time)
    requires UniqueIds(s.rows) && TablesOk(s)
    requires ChangesStatusAt(s.rows, after.rows, slot, status)
    requires after.assignments == s.assignments + NewAssignments(s.rows[slot].id, tableIds, staff, now)
    requires tableIds != [] <==> status.SEATED?
    ensures TablesOk(after)
  {
    forall i: nat | i < |after.rows| ensures TablesAt(after, i) {
      assert TablesAt(s, i);
      ActiveAssignmentsOfNew(s.assignments, s.rows[slot].id, tableIds, staff, now, s.rows[i].id);
      if s.rows[i].id == s.rows[slot].id { SameIdSameSlot(s.rows, i, slot); }
    }
    forall k | 0 <= k < |after.assignments| ensures SlotOf(after.rows, after.assignments[k].queueEntryId).Some? {
      if k < |s.assignments| {
        StillFound(s.rows, after.rows, s.assignments[k].queueEntryId);
      } else {
        assert after.rows[slot].id == after.assignments[k].queueEntryId;
      }
    }
  }

  lemma TablesAfterRegistration(s: Store, after: Store, e: EntryProps)
    requires TablesOk(s) && SlotOf(s.rows, e.id).None?
    requires after.rows == s.rows + [e] && e.status.WAITING? && after.assignments == s.assignments
    ensures TablesOk(after)
  {
    forall i: nat | i < |after.rows| ensures TablesAt(after, i) {
      if i < |s.rows| {
        assert TablesAt(s, i);
      } else {
        forall k | 0 <= k < |s.assignments| ensures s.assignments[k].queueEntryId != e.id {
          assert SlotOf(s.rows, s.assignments[k].queueEntryId).Some?;
        }
        NoTablesOfStrangers(s.assignments, e.id);
      }
    }
    forall k | 0 <= k < |after.assignments| ensures SlotOf(after.rows, after.assignments[k].queueEntryId).Some? {
      StillFound(s.rows, after.rows, s.assignments[k].queueEntryId);
    }
  }

  // ---------------------------------------------------------------- every run

  ghost predicate RecordsOk(s: Store) {
    UniqueIds(s.rows) && AuditOk(s) && TablesOk(s)
  }

  lemma StepKeepsRecords(env: Env, s: Store, step: Step, now: Time)
    requires WellFormed(step) && WaitingRowsArePlaced(s.rows) && RecordsOk(s)
    ensures RecordsOk(Apply(env, s, step, now).store)
  {
    var after := Apply(env, s, step, now).store;
    if Apply(env, s, step, now).result.Failure? {
      FailedCallsStutter(env, s, step, now);
    } else if step.Register? {
      RegistrationAppends(env, s, step, now);
      var e := NewEntry(env, s.rows, step.request, step.newId, now);
      AppendKeepsIds(s.rows, e);
      AuditAfterRegistration(s, after, e, RecordsOf(step, now)[0]);
      TablesAfterRegistration(s, after, e);
    } else {
      StatusesAfter(env, s, step, now);
      var slot := SlotOfStep(s.rows, step).value;
      SameIds(s.rows, after.rows);
      AssignmentsAfter(env, s, step, now);
      if step.Ring? {
        assert after.history == s.history;
        RingKeepsRecords(s, after, slot);
      } else {
        AuditAfterChange(s, after, slot, RecordsOf(step, now)[0]);
      }
    }
  }

  lemma RingKeepsRecords(s: Store, after: Store, slot: nat)
    requires RecordsOk(s) && ChangesStatusAt(s.rows, after.rows, slot, WAITING)
    requires after.history == s.history
    ensures AuditOk(after)
  {
    forall i: nat | i < |after.rows| ensures ChainAt(after, i) { assert ChainAt(s, i); }
    forall k | 0 <= k < |after.history| ensures SlotOf(after.rows, after.history[k].queueEntryId).Some? {
      StillFound(s.rows, after.rows, s.history[k].queueEntryId);
    }
  }

  /** A successful call on an existing party adds the tables it takes, and releases none. */
  lemma AssignmentsAdded(env: Env, s: Store, step: Step, now: Time)
    requires WellFormed(step) && TablesOk(s)
    requires !step.Register? && Apply(env, s, step, now).result.Success?
    ensures Apply(env, s, step, now).store.assignments
            == s.assignments + NewAssignments(step.queueEntryId, TablesTaken(step),
                                              if step.Ring? then "" else step.staffUserId, now)
  {
    var slot := SlotOfStep(s.rows, step).value;
    assert TablesAt(s, slot);
  }

  lemma AssignmentsAfter(env: Env, s: Store, step: Step, now: Time)
    requires WellFormed(step) && WaitingRowsArePlaced(s.rows) && UniqueIds(s.rows) && TablesOk(s)
    requires !step.Register? && Apply(env, s, step, now).result.Success?
    ensures TablesOk(Apply(env, s, step, now).store)
  {
    StatusesAfter(env, s, step, now);
    AssignmentsAdded(env, s, step, now);
    TablesAfterChange(s, Apply(env, s, step, now).store, SlotOfStep(s.rows, step).value, StatusAfter(step),
                      TablesTaken(step), if step.Ring? then "" else step.staffUserId, now);
  }

  lemma CallKeepsRecords(run: History, k: nat)
    requires 0 < k <= |run.events| && RecordsOk(run.states[k - 1])
    ensures RecordsOk(run.states[k])
  {
    assert WaitingRowsArePlaced(run.states[k - 1].rows) by {
      RunRowsOk(run, k - 1);
      OkRowsArePlaced(run.states[k - 1].rows, ClockAt(run, k - 1));
    }
    CallAt(run, k);
    StepKeepsRecords(run.env, run.states[k - 1], run.events[k - 1].step, run.events[k - 1].at);
  }

  lemma {:induction false} RunRecordsOk(run: History, k: nat)
    requires k <= |run.events|
    ensures RecordsOk(run.states[k])
  {
    if k > 0 {
      RunRecordsOk(run, k - 1);
      CallKeepsRecords(run, k);
    }
  }

  /**
   * In every reachable store each row's audit history replays its life: it starts with a record
   * from nothing to WAITING, each record continues the one before, the last one gives the row's
   * status, and only the last can be terminal.
   */
  lemma HistoryReplays(run: History, k: nat, i: nat)
    requires k <= |run.events| && i < |run.states[k].rows|
    ensures IsChain(HistoryOf(run.states[k].history, run.states[k].rows[i].id), run.states[k].rows[i].status)
  {
    RunRecordsOk(run, k);
    assert ChainAt(run.states[k], i);
  }

  /** Is the k-th call a successful shift of the party? */
  ghost predicate Shifts(run: History, k: nat, id: Id)
    requires k < |run.events|
  {
    IsShift(run.events[k].step) && run.events[k].step.queueEntryId == id && run.results[k].Success?
  }

  /** The successful shifts of a party among the first k calls. */
  ghost function ShiftsOf(run: History, k: nat, id: Id): nat
    requires k <= |run.events|
  {
    if k == 0 then 0
    else
      ShiftsOf(run, k - 1, id)
      + if Shifts(run, k - 1, id) then 1 else 0
  }

  /** The record a departed row has beside its other ones. */
  function Farewell(e: EntryProps): nat {
    if e.status.WAITING? then 0 else 1
  }

  /** One more record for the party in `slot`: a farewell, or else one that counts. */
  lemma OneRecordMore(history: seq<StatusChange>, c: StatusChange, rows: Rows, after: Rows, slot: nat, i: nat)
    requires UniqueIds(rows) && ChangesStatusAt(rows, after, slot, c.currentStatus) && i < |rows|
    requires c.queueEntryId == rows[slot].id
    ensures |HistoryOf(history + [c], rows[i].id)| - Farewell(after[i])
            == |HistoryOf(history, rows[i].id)| - Farewell(rows[i])
               + if i == slot && c.currentStatus.WAITING? then 1 else 0
  {
    HistoryOfOneMore(history, c, rows[i].id);
    if rows[i].id == rows[slot].id { SameIdSameSlot(rows, i, slot); }
  }

  /** The records of a row that its registration and its departure do not account for. */
  ghost function Surplus(s: Store, i: nat): int
    requires i < |s.rows|
  {
    |HistoryOf(s.history, s.rows[i].id)| - 1 - Farewell(s.rows[i])
  }

  /** A successful call on an existing party adds one record for a shift and one for a departure. */
  lemma RecordsAdded(env: Env, s: Store, step: Step, now: Time, i: nat)
    requires WellFormed(step) && WaitingRowsArePlaced(s.rows) && UniqueIds(s.rows) && i < |s.rows|
    requires !step.Register? && Apply(env, s, step, now).result.Success?
    ensures var after := Apply(env, s, step, now).store;
            && i < |after.rows| && after.rows[i].id == s.rows[i].id
            && Surplus(after, i) == Surplus(s, i) + if IsShift(step) && step.queueEntryId == s.rows[i].id then 1 else 0
  {
    StatusesAfter(env, s, step, now);
    var after := Apply(env, s, step, now).store;
    var slot := SlotOfStep(s.rows, step).value;
    assert s.rows[i].id == step.queueEntryId <==> i == slot by {
      if s.rows[i].id == s.rows[slot].id { SameIdSameSlot(s.rows, i, slot); }
    }
    if step.Ring? {
      assert after.history == s.history;
    } else {
      OneRecordMore(s.history, RecordsOf(step, now)[0], s.rows, after.rows, slot, i);
    }
  }

  lemma SurplusAfterStep(env: Env, s: Store, step: Step, now: Time, i: nat)
    requires WellFormed(step) && WaitingRowsArePlaced(s.rows) && UniqueIds(s.rows) && i < |s.rows|
    ensures var outcome := Apply(env, s, step, now);
            && i < |outcome.store.rows| && outcome.store.rows[i].id == s.rows[i].id
            && Surplus(outcome.store, i)
               == Surplus(s, i)
                  + if IsShift(step) && step.queueEntryId == s.rows[i].id && outcome.result.Success? then 1 else 0
  {
    if Apply(env, s, step, now).result.Failure? {
      FailedCallsStutter(env, s, step, now);
    } else if step.Register? {
      RegistrationAppends(env, s, step, now);
      HistoryOfOneMore(s.history, RecordsOf(step, now)[0], s.rows[i].id);
    } else {
      RecordsAdded(env, s, step, now, i);
    }
  }

  lemma SurplusAfterCall(run: History, k: nat, i: nat)
    requires 0 < k <= |run.events| && i < |run.states[k - 1].rows|
    ensures var s, after := run.states[k - 1], run.states[k];
            && i < |after.rows| && after.rows[i].id == s.rows[i].id
            && Surplus(after, i) == Surplus(s, i) + if Shifts(run, k - 1, s.rows[i].id) then 1 else 0
  {
    assert UniqueIds(run.states[k - 1].rows) by { RunRecordsOk(run, k - 1); }
    assert WaitingRowsArePlaced(run.states[k - 1].rows) by {
      RunRowsOk(run, k - 1);
      OkRowsArePlaced(run.states[k - 1].rows, ClockAt(run, k - 1));
    }
    CallAt(run, k);
    SurplusAfterStep(run.env, run.states[k - 1], run.events[k - 1].step, run.events[k - 1].at, i);
  }

  lemma NewcomerHasNoSurplus(env: Env, s: Store, step: Step, now: Time)
    requires WellFormed(step) && step.Register? && Apply(env, s, step, now).result.Success?
    requires HistoryOf(s.history, step.newId) == []
    ensures var after := Apply(env, s, step, now).store;
            && |after.rows| == |s.rows| + 1 && after.rows[|s.rows|].id == step.newId
            && Surplus(after, |s.rows|) == 0
  {
    RegistrationAppends(env, s, step, now);
    HistoryOfOneMore(s.history, RecordsOf(step, now)[0], step.newId);
  }

  /** The call that adds a row registers its id, which has no past. */
  lemma NewcomerIsNew(run: History, k: nat)
    requires 0 < k <= |run.events| && |run.states[k - 1].rows| < |run.states[k].rows|
    ensures var step := run.events[k - 1].step;
            && WellFormed(step) && step.Register? && run.results[k - 1].Success?
            && SlotOf(run.states[k - 1].rows, step.newId).None?
  {
    CallAt(run, k);
    JoiningKeepsRows(run.env, run.states[k - 1], run.events[k - 1].step, run.events[k - 1].at);
    RegistrationAppends(run.env, run.states[k - 1], run.events[k - 1].step, run.events[k - 1].at);
  }

  lemma NewcomerHasOneRecord(run: History, k: nat, i: nat)
    requires 0 < k <= |run.events| && i == |run.states[k - 1].rows| < |run.states[k].rows|
    ensures Surplus(run.states[k], i) == 0
    ensures ShiftsOf(run, k, run.states[k].rows[i].id) == 0
  {
    NewcomerIsNew(run, k);
    NewcomersHaveNoPast(run, k - 1, run.events[k - 1].step.newId);
    CallAt(run, k);
    NewcomerHasNoSurplus(run.env, run.states[k - 1], run.events[k - 1].step, run.events[k - 1].at);
  }

  lemma {:induction false} SurplusIsShifts(run: History, k: nat, i: nat)
    requires k <= |run.events| && i < |run.states[k].rows|
    ensures Surplus(run.states[k], i) == ShiftsOf(run, k, run.states[k].rows[i].id)
  {
    assert k > 0 && |run.states[k].rows| <= |run.states[k - 1].rows| + 1 by { NextAt(run, k); }
    if i < |run.states[k - 1].rows| {
      SurplusIsShifts(run, k - 1, i);
      SurplusAfterCall(run, k, i);
    } else {
      NewcomerHasOneRecord(run, k, i);
    }
  }

  /**
   * A row's history holds its registration, one record per successful shift, and one more if it has
   * left the line: so a record from WAITING to WAITING comes from a shift and nothing else.
   */
  lemma HistoryCountsShifts(run: History, k: nat, i: nat)
    requires k <= |run.events| && i < |run.states[k].rows|
    ensures var s := run.states[k];
            |HistoryOf(s.history, s.rows[i].id)|
            == 1 + ShiftsOf(run, k, s.rows[i].id) + if s.rows[i].status.WAITING? then 0 else 1
  {
    SurplusIsShifts(run, k, i);
  }

  lemma StrangersAreNotFound(env: Env, s: Store, step: Step, now: Time)
    requires WellFormed(step) && !step.Register? && SlotOf(s.rows, step.queueEntryId).None?
    ensures Apply(env, s, step, now).result == Failure(QueueEntryNotFound(step.queueEntryId))
  {
  }

  lemma StrangersAreNotShifted(run: History, k: nat, id: Id)
    requires k < |run.events| && SlotOf(run.states[k].rows, id).None?
    ensures !Shifts(run, k, id)
  {
    var step := run.events[k].step;
    if IsShift(step) && step.queueEntryId == id {
      assert MovesAt(run, k);
      StrangersAreNotFound(run.env, run.states[k], step, run.events[k].at);
    }
  }

  /** An id without a row has neither records nor shifts. */
  lemma {:induction false} NewcomersHaveNoPast(run: History, k: nat, id: Id)
    requires k <= |run.events| && SlotOf(run.states[k].rows, id).None?
    ensures HistoryOf(run.states[k].history, id) == [] && ShiftsOf(run, k, id) == 0
  {
    RunRecordsOk(run, k);
    forall j | 0 <= j < |run.states[k].history| ensures run.states[k].history[j].queueEntryId != id {
      assert SlotOf(run.states[k].rows, run.states[k].history[j].queueEntryId).Some?;
    }
    NoHistoryOfStrangers(run.states[k].history, id);
    NoShiftsOfStrangers(run, k, id);
  }

  lemma {:induction false} NoShiftsOfStrangers(run: History, k: nat, id: Id)
    requires k <= |run.events| && SlotOf(run.states[k].rows, id).None?
    ensures ShiftsOf(run, k, id) == 0
  {
    if k > 0 {
      StrangersBefore(run, k, id);
      NoShiftsOfStrangers(run, k - 1, id);
      StrangersAreNotShifted(run, k - 1, id);
    }
  }

  /** An id that no row has after a call had no row before it. */
  lemma StrangersBefore(run: History, k: nat, id: Id)
    requires 0 < k <= |run.events| && SlotOf(run.states[k].rows, id).None?
    ensures SlotOf(run.states[k - 1].rows, id).None?
  {
    var before := run.states[k - 1].rows;
    NextAt(run, k);
    forall j | 0 <= j < |before| ensures before[j].id != id {
      assert Evolves(before[j], run.states[k].rows[j], run.events[k - 1].at);
    }
  }

  /** In every reachable store a party holds an unreleased table iff it is seated. */
  lemma TablesTrackSeating(run: History, k: nat, i: nat)
    requires k <= |run.events| && i < |run.states[k].rows|
    ensures var s := run.states[k];
            ActiveAssignments(s.assignments, s.rows[i].id) != [] <==> s.rows[i].status.SEATED?
  {
    RunRecordsOk(run, k);
    assert TablesAt(run.states[k], i);
  }

  /** So no run takes cancelling's release branch: every successful cancellation releases nothing. */
  lemma CancellingReleasesNothing(run: History, k: nat)
    requires k < |run.events| && run.events[k].step.CancelEntry?
    requires run.results[k].Success?
    ensures run.results[k].value == EntryCancelled(StatusAfter(run.events[k].step), [])
    ensures run.states[k + 1].assignments == run.states[k].assignments
  {
    assert MovesAt(run, k);
    TablesTrackSeating(run, k, SlotOfStep(run.states[k].rows, run.events[k].step).value);
  }

  /** Nor does a cancellation ever depend on the restaurant service: it succeeds iff the party waits there. */
  lemma CancellingIgnoresUpstream(run: History, k: nat)
    requires k < |run.events| && run.events[k].step.CancelEntry?
    ensures var rows := run.states[k].rows;
            var slot := Find(rows, run.events[k].step.restaurantId, run.events[k].step.queueEntryId);
            run.results[k].Success? <==> slot.Some? && rows[slot.value].status.WAITING?
  {
    assert MovesAt(run, k);
    var s, step := run.states[k], run.events[k].step;
    var slot := Find(s.rows, step.restaurantId, step.queueEntryId);
    if slot.Some? { TablesTrackSeating(run, k, slot.value); }
  }

  /** A party that is seated holds exactly the tables it was seated at. */
  lemma SeatingTakesTables(run: History, k: nat)
    requires k < |run.events| && run.results[k].Success?
    requires run.events[k].step.SeatParty? || run.events[k].step.AssignTables?
    ensures TablesOf(ActiveAssignments(run.states[k + 1].assignments, run.events[k].step.queueEntryId))
            == TablesTaken(run.events[k].step)
  {
    assert TablesOk(run.states[k]) by { RunRecordsOk(run, k); }
    assert MovesAt(run, k);
    SeatedAtTables(run.env, run.states[k], run.events[k].step, run.events[k].at);
  }

  lemma SeatedAtTables(env: Env, s: Store, step: Step, now: Time)
    requires WellFormed(step) && TablesOk(s) && Apply(env, s, step, now).result.Success?
    requires step.SeatParty? || step.AssignTables?
    ensures TablesOf(ActiveAssignments(Apply(env, s, step, now).store.assignments, step.queueEntryId))
            == TablesTaken(step)
  {
    var slot := StepEffect(env, s, step, now);
    assert TablesAt(s, slot);
    AssignmentsAdded(env, s, step, now);
    NewTablesAreHeld(s.assignments, step.queueEntryId, TablesTaken(step), step.staffUserId, now);
  }

  lemma NewTablesAreHeld(assignments: seq<TableAssignment>, id: Id, tableIds: seq<Id>, staff: string, now: Time)
    requires ActiveAssignments(assignments, id) == []
    ensures TablesOf(ActiveAssignments(assignments + NewAssignments(id, tableIds, staff, now), id)) == tableIds
  {
    ActiveAssignmentsOfNew(assignments, id, tableIds, staff, now, id);
    assert [] + NewAssignments(id, tableIds, staff, now) == NewAssignments(id, tableIds, staff, now);
  }

  lemma CallKeepsHeldTables(run: History, k: nat, i: nat)
    requires 0 < k <= |run.events| && i < |run.states[k - 1].rows| && run.states[k - 1].rows[i].status.SEATED?
    ensures ActiveAssignments(run.states[k].assignments, run.states[k - 1].rows[i].id)
            == ActiveAssignments(run.states[k - 1].assignments, run.states[k - 1].rows[i].id)
  {
    var s, step, now := run.states[k - 1], run.events[k - 1].step, run.events[k - 1].at;
    RunRecordsOk(run, k - 1);
    CallAt(run, k);
    if run.results[k - 1].Failure? {
      FailedCallsStutter(run.env, s, step, now);
    } else if step.Register? {
      RegistrationAppends(run.env, s, step, now);
    } else {
      var slot := StepEffect(run.env, s, step, now);
      AssignmentsAdded(run.env, s, step, now);
      if s.rows[i].id == step.queueEntryId { SameIdSameSlot(s.rows, i, slot); }
      ActiveAssignmentsOfNew(s.assignments, step.queueEntryId, TablesTaken(step),
                             if step.Ring? then "" else step.staffUserId, now, s.rows[i].id);
    }
  }

  /** And it holds them in every later store of the run. */
  lemma {:induction false} HeldTablesAreKept(run: History, k: nat, m: nat, i: nat)
    requires k <= m <= |run.events| && i < |run.states[k].rows| && run.states[k].rows[i].status.SEATED?
    ensures ActiveAssignments(run.states[m].assignments, run.states[k].rows[i].id)
            == ActiveAssignments(run.states[k].assignments, run.states[k].rows[i].id)
  {
    if k < m {
      HeldTablesAreKept(run, k, m - 1, i);
      TicketsAreKept(run, k, m - 1, i);
      CallKeepsHeldTables(run, m, i);
    }
  }
}
