/** What a successful call does to the rows: one change of the party named, then a recalculation. */
module StepEffects {
  import opened QueueTypes
  import opened QueueEntity
  import opened QueueLine
  import opened QueueStore
  import opened Renumbering
  import opened Reordering
  import opened QueueSteps

  /** The status a successful call leaves its party in. */
  function StatusAfter(step: Step): QueueStatus {
    match step
    case SeatParty(_, _, _, _, _) => SEATED
    case AssignTables(_, _, _, _, _) => SEATED
    case SkipParty(_, _, _, _) => if IsShift(step) then WAITING else SKIPPED
    case CancelEntry(_, _, _, reason, _) => if reason.REASON_NO_SHOW? then NO_SHOW else CANCELLED
    case _ => WAITING
  }

  /** The audit records of a successful call. */
  function RecordsOf(step: Step, now: Time): seq<StatusChange> {
    match step
    case Register(request, _, newId) => [StatusChange(newId, None, WAITING, ChangedBy(request), now)]
    case Ring(_, _) => []
    case _ => [StatusChange(step.queueEntryId, Some(WAITING), StatusAfter(step), step.staffUserId, now)]
  }

  /** The tables a successful call takes. */
  function TablesTaken(step: Step): seq<Id> {
    match step
    case SeatParty(_, _, _, tableIds, _) => tableIds
    case AssignTables(_, _, _, tables, _) => TableIdsOf(tables)
    case _ => []
  }

  /** Does the call take its party out of the line? */
  predicate IsDeparture(step: Step) {
    !step.Register? && !step.Ring? && !IsShift(step)
  }

  /** Does the call end in a recalculation? Assigning tables does not. */
  predicate Recalculates(step: Step) {
    step.SeatParty? || step.SkipParty? || step.CancelEntry?
  }

  /** The row of a party that a call takes out of the line. */
  function Departed(step: Step, e: EntryProps, now: Time): EntryProps {
    if step.SeatParty? || step.AssignTables? then Seated(e, now)
    else if step.CancelEntry? then Cancelled(e, StatusAfter(step), now)
    else Skipped(e, now)
  }

  /** The rows after the change a call makes itself, before any recalculation. */
  ghost function ChangedRows(rows: Rows, step: Step, slot: nat, now: Time): (changed: Rows)
    requires !step.Register? && slot < |rows| && WaitingAt(step.restaurantId)(rows[slot])
    ensures |changed| == |rows|
  {
    if step.Ring? then rows[slot := Rung(rows[slot], now)]
    else if IsShift(step)
    then Reordered(rows, ShiftedLine(rows, step.restaurantId, slot, step.skipPositions.value), now)
    else rows[slot := Departed(step, rows[slot], now)]
  }

  /** The rows after a successful call on an existing party. */
  ghost function RowsAfter(env: Env, rows: Rows, step: Step, slot: nat, now: Time): (after: Rows)
    requires !step.Register? && slot < |rows| && WaitingAt(step.restaurantId)(rows[slot])
    ensures |after| == |rows|
  {
    var changed := ChangedRows(rows, step, slot, now);
    if Recalculates(step) then RefreshRows(env, changed, step.restaurantId, now) else changed
  }

  /** The cache after the change a call makes itself. */
  function ChangedLive(live: map<Id, LiveEntry>, step: Step): map<Id, LiveEntry>
    requires !step.Register?
  {
    if IsDeparture(step) then live - {step.queueEntryId} else live
  }

  /** The cache after a successful call on an existing party. */
  ghost function LiveAfter(env: Env, rows: Rows, live: map<Id, LiveEntry>, step: Step, slot: nat, now: Time)
    : map<Id, LiveEntry>
    requires !step.Register? && slot < |rows| && WaitingAt(step.restaurantId)(rows[slot])
  {
    if Recalculates(step)
    then RefreshedLive(env, ChangedRows(rows, step, slot, now), step.restaurantId, now, ChangedLive(live, step))
    else ChangedLive(live, step)
  }

  /** A call that ends in an error changes nothing that is stored. */
  lemma FailedCallsStutter(env: Env, s: Store, step: Step, now: Time)
    requires WellFormed(step)
    ensures Apply(env, s, step, now).result.Failure? ==> Apply(env, s, step, now).store == s
  {
  }

  /** A successful call works on a party that waits at the caller's restaurant. */
  lemma StepEffect(env: Env, s: Store, step: Step, now: Time) returns (slot: nat)
    requires WellFormed(step) && !step.Register? && Apply(env, s, step, now).result.Success?
    ensures slot < |s.rows| && WaitingAt(step.restaurantId)(s.rows[slot]) && s.rows[slot].id == step.queueEntryId
    ensures Find(s.rows, step.restaurantId, step.queueEntryId) == Some(slot)
    ensures step.Ring? ==> s.rows[slot].registrationType.ONLINE?
    ensures Apply(env, s, step, now).store.rows == RowsAfter(env, s.rows, step, slot, now)
    ensures Apply(env, s, step, now).store.history == s.history + RecordsOf(step, now)
  {
    slot := Find(s.rows, step.restaurantId, step.queueEntryId).value;
  }

  lemma LiveOfShift(env: Env, s: Store, step: Step, slot: nat, now: Time)
    requires WellFormed(step) && IsShift(step) && Apply(env, s, step, now).result.Success?
    requires Find(s.rows, step.restaurantId, step.queueEntryId) == Some(slot)
    ensures WaitingAt(step.restaurantId)(s.rows[slot])
    ensures Apply(env, s, step, now).store.live == LiveAfter(env, s.rows, s.live, step, slot, now)
  {
  }

  lemma LiveOfCancelling(env: Env, s: Store, step: Step, slot: nat, now: Time)
    requires WellFormed(step) && step.CancelEntry? && Apply(env, s, step, now).result.Success?
    requires Find(s.rows, step.restaurantId, step.queueEntryId) == Some(slot)
    ensures WaitingAt(step.restaurantId)(s.rows[slot])
    ensures Apply(env, s, step, now).store.live == LiveAfter(env, s.rows, s.live, step, slot, now)
  {
  }

  lemma LiveOfDeparture(env: Env, s: Store, step: Step, slot: nat, now: Time)
    requires WellFormed(step) && IsDeparture(step) && !step.CancelEntry? && Apply(env, s, step, now).result.Success?
    requires Find(s.rows, step.restaurantId, step.queueEntryId) == Some(slot)
    ensures WaitingAt(step.restaurantId)(s.rows[slot])
    ensures Apply(env, s, step, now).store.live == LiveAfter(env, s.rows, s.live, step, slot, now)
  {
  }

  /** What a successful call on an existing party does to the cache. */
  lemma LiveEffect(env: Env, s: Store, step: Step, slot: nat, now: Time)
    requires WellFormed(step) && !step.Register? && Apply(env, s, step, now).result.Success?
    requires Find(s.rows, step.restaurantId, step.queueEntryId) == Some(slot)
    ensures WaitingAt(step.restaurantId)(s.rows[slot])
    ensures Apply(env, s, step, now).store.live == LiveAfter(env, s.rows, s.live, step, slot, now)
  {
    if IsShift(step) {
      LiveOfShift(env, s, step, slot, now);
    } else if step.CancelEntry? {
      LiveOfCancelling(env, s, step, slot, now);
    } else if IsDeparture(step) {
      LiveOfDeparture(env, s, step, slot, now);
    }
  }

  /** A successful registration appends one waiting row under a new id, and one audit record. */
  lemma RegistrationAppends(env: Env, s: Store, step: Step, now: Time)
    requires step.Register? && WellFormed(step) && Apply(env, s, step, now).result.Success?
    ensures SlotOf(s.rows, step.newId).None?
    ensures var e := NewEntry(env, s.rows, step.request, step.newId, now);
            var after := Apply(env, s, step, now).store;
            && after.rows == s.rows + [e]
            && after.history == s.history + RecordsOf(step, now)
            && after.assignments == s.assignments
            && after.live == s.live[e.id := LiveEntry(e.id, e.restaurantId, e.position.value,
                                                      e.estimatedWaitMinutes.value, now)]
  {
  }

  /** A call that adds a row is a successful registration and touches no other row. */
  lemma JoiningKeepsRows(env: Env, s: Store, step: Step, now: Time)
    requires WellFormed(step)
    requires |Apply(env, s, step, now).store.rows| > |s.rows|
    ensures step.Register? && Apply(env, s, step, now).result.Success?
    ensures forall i :: 0 <= i < |s.rows| ==> Apply(env, s, step, now).store.rows[i] == s.rows[i]
  {
  }
}
