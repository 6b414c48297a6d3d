/**
 * What a caller can rely on, call by call: when a call succeeds, which error it ends in otherwise, and
 * every field it stores. Said of requests, rows and records alone.
 */
module CallOutcomes {
  import opened QueueTypes
  import opened QueueLine
  import opened QueueStore
  import opened Renumbering
  import opened Recalculation
  import opened SeatPlans
  import opened QueueSteps
  import opened QueueRepository

  /** The row in slot i is the party a call names. */
  predicate IsNamed(rows: Rows, i: nat, restaurantId: Id, id: Id) {
    i < |rows| && rows[i].id == id && rows[i].restaurantId == restaurantId
  }

  lemma NamedIsFound(rows: Rows, i: nat, restaurantId: Id, id: Id)
    requires UniqueIds(rows) && IsNamed(rows, i, restaurantId, id)
    ensures Find(rows, restaurantId, id) == Some(i)
  {
    SlotIs(rows, i);
  }

  /** A call that names nobody at its restaurant is refused and changes nothing. */
  lemma UnknownPartyIsRefused(env: Env, s: Store, step: Step, now: Time)
    requires WellFormed(step) && !step.Register?
    requires forall i: nat :: !IsNamed(s.rows, i, step.restaurantId, step.queueEntryId)
    ensures Apply(env, s, step, now) == Outcome(s, Failure(QueueEntryNotFound(step.queueEntryId)))
  {
    var slot := Find(s.rows, step.restaurantId, step.queueEntryId);
    if slot.Some? { assert IsNamed(s.rows, slot.value, step.restaurantId, step.queueEntryId); }
  }

  // ---------------------------------------------------------------- ringing

  /** Ringing succeeds iff the party waits and joined online; it counts and stamps, and does nothing else. */
  lemma RingOutcome(env: Env, s: Store, step: Step, now: Time, i: nat)
    requires step.Ring? && UniqueIds(s.rows) && IsNamed(s.rows, i, step.restaurantId, step.queueEntryId)
    ensures var e, outcome := s.rows[i], Apply(env, s, step, now);
            && (outcome.result.Success? <==> e.status == WAITING && e.registrationType == ONLINE)
            && (e.status != WAITING ==> outcome.result == Failure(QueueEntryNotWaiting(e.id, e.status)))
            && (e.status == WAITING && e.registrationType == WALK_IN ==>
                  outcome.result == Failure(CannotRingWalkInCustomer(e.id)))
            && (outcome.result.Failure? ==> outcome.store == s)
            && (outcome.result.Success? ==>
                  && outcome.result.value == RingSent(e.ringCount + 1, now)
                  && outcome.store == s.(rows := s.rows[i := e.(ringCount := e.ringCount + 1, lastRingedAt := Some(now),
                                                                updatedAt := now)]))
  {
    NamedIsFound(s.rows, i, step.restaurantId, step.queueEntryId);
  }

  // ---------------------------------------------------------------- leaving the line

  /** The k-th of the new assignments. */
  predicate IsAssignment(a: TableAssignment, id: Id, tableId: Id, staff: string, now: Time) {
    a.queueEntryId == id && a.tableId == tableId && a.assignedBy == staff && a.assignedAt == now && a.releasedAt == None
  }

  /** The new table assignments of a call: one for each table it names, in that order. */
  predicate TakesTables(s: Store, after: Store, id: Id, tableIds: seq<Id>, staff: string, now: Time) {
    && |after.assignments| == |s.assignments| + |tableIds|
    && after.assignments[..|s.assignments|] == s.assignments
    && forall k :: 0 <= k < |tableIds| ==>
         IsAssignment(after.assignments[|s.assignments| + k], id, tableIds[k], staff, now)
  }

  /** One audit record more: the party went from WAITING to `status`. */
  predicate IsRecorded(s: Store, after: Store, id: Id, status: QueueStatus, staff: string, now: Time) {
    after.history == s.history + [StatusChange(id, Some(WAITING), status, staff, now)]
  }

  /** The reply of a seating: its counts, by table, as equal as can be, none below one. */
  ghost predicate SeatsParty(reply: Reply, partySize: nat, tableIds: seq<Id>) {
    && reply.PartySeated? && |reply.seats| == |tableIds|
    && Total(reply.seats) == (if partySize < |tableIds| then |tableIds| else partySize)
    && (forall k :: 0 <= k < |tableIds| ==> reply.seats[k].tableId == tableIds[k] && reply.seats[k].count >= 1)
    && forall j, k :: 0 <= j < k < |tableIds| ==>
         reply.seats[k].count <= reply.seats[j].count <= reply.seats[k].count + 1
  }

  /** What every departure stores: the row, one record, the tables taken, and no live copy. */
  ghost predicate IsStored(s: Store, after: Store, i: nat, f: EntryProps, tableIds: seq<Id>, staff: string, now: Time) {
    && i < |after.rows| && after.rows[i] == f
    && TakesTables(s, after, f.id, tableIds, staff, now)
    && IsRecorded(s, after, f.id, f.status, staff, now)
    && f.id !in after.live
  }

  lemma DepartStores(s: Store, i: nat, f: EntryProps, staff: string, tableIds: seq<Id>, now: Time)
    requires i < |s.rows| && s.rows[i].status == WAITING
    ensures IsStored(s, Depart(s, i, f, staff, tableIds, now), i, f, tableIds, staff, now)
  {
  }

  /** A recalculation leaves a party alone that has left the line. */
  lemma RecalculationLeavesAlone(env: Env, s: Store, restaurantId: Id, now: Time, i: nat)
    requires UniqueIds(s.rows) && i < |s.rows| && s.rows[i].status != WAITING && s.rows[i].id !in s.live
    ensures var after := Recalculated(env, s, restaurantId, now);
            && |after.rows| == |s.rows| && after.rows[i] == s.rows[i] && s.rows[i].id !in after.live
            && after.history == s.history && after.assignments == s.assignments
  {
    var line := LineOf(s.rows, restaurantId);
    NotRefreshed(env, s.rows, restaurantId, now, i);
    forall j | 0 <= j < |line| ensures s.rows[line[j]].id != s.rows[i].id {
      assert line[j] in line;
      if s.rows[line[j]].id == s.rows[i].id { SameIdSameSlot(s.rows, line[j], i); }
    }
    UntouchedLive(env, s.rows, restaurantId, line, |line|, now, s.live, s.rows[i].id);
  }

  /** A departure, then a recalculation. */
  lemma LeavingStores(env: Env, s: Store, restaurantId: Id, i: nat, f: EntryProps, staff: string, tableIds: seq<Id>,
                      now: Time)
    requires UniqueIds(s.rows) && i < |s.rows| && s.rows[i].status == WAITING
    requires f.id == s.rows[i].id && f.status != WAITING
    ensures IsStored(s, Recalculated(env, Depart(s, i, f, staff, tableIds, now), restaurantId, now), i, f, tableIds,
                     staff, now)
  {
    var gone := Depart(s, i, f, staff, tableIds, now);
    SameIds(s.rows, gone.rows);
    DepartStores(s, i, f, staff, tableIds, now);
    RecalculationLeavesAlone(env, gone, restaurantId, now, i);
  }

  /** Seating succeeds iff the party waits and the restaurant service took the tables. */
  lemma SeatSucceedsIff(env: Env, s: Store, step: Step, now: Time, i: nat)
    requires WellFormed(step) && step.SeatParty? && UniqueIds(s.rows)
    requires IsNamed(s.rows, i, step.restaurantId, step.queueEntryId)
    ensures var e, outcome := s.rows[i], Apply(env, s, step, now);
            && (outcome.result.Success? <==> e.status == WAITING && step.upstreamOk)
            && (e.status != WAITING ==> outcome.result == Failure(QueueEntryNotWaiting(e.id, e.status)))
            && (e.status == WAITING && !step.upstreamOk ==> outcome.result == Failure(UpstreamServiceUnavailable))
            && (outcome.result.Failure? ==> outcome.store == s)
  {
    NamedIsFound(s.rows, i, step.restaurantId, step.queueEntryId);
  }

  lemma SeatIs(env: Env, s: Store, step: Step, now: Time, i: nat)
    requires WellFormed(step) && step.SeatParty? && Find(s.rows, step.restaurantId, step.queueEntryId) == Some(i)
    requires Apply(env, s, step, now).result.Success?
    ensures s.rows[i].status == WAITING
    ensures var f := s.rows[i].(status := SEATED, seatedAt := Some(now), position := None, updatedAt := now);
            Apply(env, s, step, now).store
            == Recalculated(env, Depart(s, i, f, step.staffUserId, step.tableIds, now), step.restaurantId, now)
    ensures Apply(env, s, step, now).result.value == PartySeated(SeatPlan(s.rows[i].partySize, step.tableIds))
  {
  }

  /** What a seating stores. */
  lemma SeatStores(env: Env, s: Store, step: Step, now: Time, i: nat)
    requires WellFormed(step) && step.SeatParty? && UniqueIds(s.rows)
    requires IsNamed(s.rows, i, step.restaurantId, step.queueEntryId) && Apply(env, s, step, now).result.Success?
    ensures var f := s.rows[i].(status := SEATED, seatedAt := Some(now), position := None, updatedAt := now);
            IsStored(s, Apply(env, s, step, now).store, i, f, step.tableIds, step.staffUserId, now)
  {
    NamedIsFound(s.rows, i, step.restaurantId, step.queueEntryId);
    SeatIs(env, s, step, now, i);
    LeavingStores(env, s, step.restaurantId, i,
                  s.rows[i].(status := SEATED, seatedAt := Some(now), position := None, updatedAt := now),
                  step.staffUserId, step.tableIds, now);
  }

  /** What a seating replies. */
  lemma SeatReplies(env: Env, s: Store, step: Step, now: Time, i: nat)
    requires WellFormed(step) && step.SeatParty? && UniqueIds(s.rows)
    requires IsNamed(s.rows, i, step.restaurantId, step.queueEntryId) && Apply(env, s, step, now).result.Success?
    ensures SeatsParty(Apply(env, s, step, now).result.value, s.rows[i].partySize, step.tableIds)
  {
    NamedIsFound(s.rows, i, step.restaurantId, step.queueEntryId);
    SeatIs(env, s, step, now, i);
    SeatPlanIsFair(s.rows[i].partySize, step.tableIds);
  }

  /** Assigning succeeds iff the seats named are enough, the party waits, and the service took the tables. */
  lemma AssignSucceedsIff(env: Env, s: Store, step: Step, now: Time, i: nat)
    requires WellFormed(step) && step.AssignTables? && UniqueIds(s.rows)
    requires IsNamed(s.rows, i, step.restaurantId, step.queueEntryId)
    ensures var e, outcome, seats := s.rows[i], Apply(env, s, step, now), Total(step.tables);
            && (outcome.result.Success? <==> e.partySize <= seats && e.status == WAITING && step.upstreamOk)
            && (seats < e.partySize ==> outcome.result == Failure(InsufficientTableCapacity(e.partySize, seats)))
            && (e.partySize <= seats && e.status != WAITING ==>
                  outcome.result == Failure(QueueEntryNotWaiting(e.id, e.status)))
            && (e.partySize <= seats && e.status == WAITING && !step.upstreamOk ==>
                  outcome.result == Failure(UpstreamServiceUnavailable))
            && (outcome.result.Failure? ==> outcome.store == s)
  {
    NamedIsFound(s.rows, i, step.restaurantId, step.queueEntryId);
  }

  /** What an assignment stores: nothing but the departure, with the tables in the order of the call. */
  lemma AssignStores(env: Env, s: Store, step: Step, now: Time, i: nat)
    requires WellFormed(step) && step.AssignTables? && UniqueIds(s.rows)
    requires IsNamed(s.rows, i, step.restaurantId, step.queueEntryId) && Apply(env, s, step, now).result.Success?
    ensures var e, after := s.rows[i], Apply(env, s, step, now).store;
            var f := e.(status := SEATED, seatedAt := Some(now), position := None, updatedAt := now);
            var tableIds := seq(|step.tables|, k requires 0 <= k < |step.tables| => step.tables[k].tableId);
            && IsStored(s, after, i, f, tableIds, step.staffUserId, now)
            && after.rows == s.rows[i := f] && after.live == s.live - {e.id}
  {
    NamedIsFound(s.rows, i, step.restaurantId, step.queueEntryId);
    var f := s.rows[i].(status := SEATED, seatedAt := Some(now), position := None, updatedAt := now);
    var tableIds := seq(|step.tables|, k requires 0 <= k < |step.tables| => step.tables[k].tableId);
    assert tableIds == TableIdsOf(step.tables);
    AssignIs(env, s, step, now, i);
    DepartStores(s, i, f, step.staffUserId, tableIds, now);
  }

  lemma AssignIs(env: Env, s: Store, step: Step, now: Time, i: nat)
    requires WellFormed(step) && step.AssignTables? && Find(s.rows, step.restaurantId, step.queueEntryId) == Some(i)
    requires Apply(env, s, step, now).result.Success?
    ensures s.rows[i].status == WAITING
    ensures var f := s.rows[i].(status := SEATED, seatedAt := Some(now), position := None, updatedAt := now);
            Apply(env, s, step, now).store == Depart(s, i, f, step.staffUserId, TableIdsOf(step.tables), now)
  {
  }

  /** Skipping succeeds iff the party waits. */
  lemma SkipSucceedsIff(env: Env, s: Store, step: Step, now: Time, i: nat)
    requires WellFormed(step) && step.SkipParty? && UniqueIds(s.rows)
    requires IsNamed(s.rows, i, step.restaurantId, step.queueEntryId)
    ensures var e, outcome := s.rows[i], Apply(env, s, step, now);
            && (outcome.result.Success? <==> e.status == WAITING)
            && (e.status != WAITING ==> outcome.result == Failure(QueueEntryNotWaiting(e.id, e.status)))
            && (outcome.result.Failure? ==> outcome.store == s)
  {
    NamedIsFound(s.rows, i, step.restaurantId, step.queueEntryId);
  }

  /** What skipping a party for good stores. */
  lemma DropStores(env: Env, s: Store, step: Step, now: Time, i: nat)
    requires WellFormed(step) && step.SkipParty? && step.skipPositions == None && UniqueIds(s.rows)
    requires IsNamed(s.rows, i, step.restaurantId, step.queueEntryId) && s.rows[i].status == WAITING
    ensures var f := s.rows[i].(status := SKIPPED, position := None, updatedAt := now);
            IsStored(s, Apply(env, s, step, now).store, i, f, [], step.staffUserId, now)
    ensures Apply(env, s, step, now).result == Success(PartySkipped(None))
  {
    NamedIsFound(s.rows, i, step.restaurantId, step.queueEntryId);
    DropIs(env, s, step, now, i);
    LeavingStores(env, s, step.restaurantId, i, s.rows[i].(status := SKIPPED, position := None, updatedAt := now),
                  step.staffUserId, [], now);
  }

  lemma DropIs(env: Env, s: Store, step: Step, now: Time, i: nat)
    requires WellFormed(step) && step.SkipParty? && step.skipPositions == None
    requires Find(s.rows, step.restaurantId, step.queueEntryId) == Some(i) && s.rows[i].status == WAITING
    ensures var f := s.rows[i].(status := SKIPPED, position := None, updatedAt := now);
            Apply(env, s, step, now)
            == Outcome(Recalculated(env, Depart(s, i, f, step.staffUserId, [], now), step.restaurantId, now),
                       Success(PartySkipped(None)))
  {
  }

  /** A shift writes one record from WAITING to WAITING, and no tables. */
  lemma ShiftStores(env: Env, s: Store, step: Step, now: Time, i: nat)
    requires WellFormed(step) && step.SkipParty? && step.skipPositions.Some? && UniqueIds(s.rows)
    requires IsNamed(s.rows, i, step.restaurantId, step.queueEntryId) && s.rows[i].status == WAITING
    ensures var outcome := Apply(env, s, step, now);
            && IsRecorded(s, outcome.store, s.rows[i].id, WAITING, step.staffUserId, now)
            && outcome.store.assignments == s.assignments
            && outcome.result.Success? && outcome.result.value.PartySkipped? && outcome.result.value.position.Some?
  {
    NamedIsFound(s.rows, i, step.restaurantId, step.queueEntryId);
  }

  /** The k-th assignment after giving back what a party holds. */
  predicate IsGivenBack(a: TableAssignment, b: TableAssignment, id: Id, now: Time) {
    if a.queueEntryId == id && a.releasedAt == None then b == a.(releasedAt := Some(now)) else b == a
  }

  /** The status a cancellation leads to. */
  function CancelledAs(reason: CancelReason): QueueStatus {
    if reason == REASON_NO_SHOW then NO_SHOW else CANCELLED
  }

  /** Cancelling succeeds iff the party waits and, if it holds tables, the service took them back. */
  lemma CancelSucceedsIff(env: Env, s: Store, step: Step, now: Time, i: nat)
    requires WellFormed(step) && step.CancelEntry? && UniqueIds(s.rows)
    requires IsNamed(s.rows, i, step.restaurantId, step.queueEntryId)
    ensures var e, outcome := s.rows[i], Apply(env, s, step, now);
            var holds := ActiveAssignments(s.assignments, e.id) != [];
            && (outcome.result.Success? <==> e.status == WAITING && (holds ==> step.upstreamOk))
            && (e.status != WAITING ==> outcome.result == Failure(QueueEntryNotWaiting(e.id, e.status)))
            && (e.status == WAITING && holds && !step.upstreamOk ==>
                  outcome.result == Failure(UpstreamServiceUnavailable))
            && (outcome.result.Failure? ==> outcome.store == s)
  {
    NamedIsFound(s.rows, i, step.restaurantId, step.queueEntryId);
  }

  /** What a cancellation of a party without tables stores; no reachable waiting party holds any. */
  lemma CancelStores(env: Env, s: Store, step: Step, now: Time, i: nat)
    requires WellFormed(step) && step.CancelEntry? && UniqueIds(s.rows)
    requires IsNamed(s.rows, i, step.restaurantId, step.queueEntryId) && s.rows[i].status == WAITING
    requires ActiveAssignments(s.assignments, s.rows[i].id) == []
    ensures var f := s.rows[i].(status := CancelledAs(step.reason), cancelledAt := Some(now), position := None,
                                updatedAt := now);
            IsStored(s, Apply(env, s, step, now).store, i, f, [], step.staffUserId, now)
    ensures Apply(env, s, step, now).result == Success(EntryCancelled(CancelledAs(step.reason), []))
  {
    NamedIsFound(s.rows, i, step.restaurantId, step.queueEntryId);
    CancelIs(env, s, step, now, i);
    LeavingStores(env, s, step.restaurantId, i,
                  s.rows[i].(status := CancelledAs(step.reason), cancelledAt := Some(now), position := None,
                             updatedAt := now),
                  step.staffUserId, [], now);
  }

  lemma CancelIs(env: Env, s: Store, step: Step, now: Time, i: nat)
    requires WellFormed(step) && step.CancelEntry?
    requires Find(s.rows, step.restaurantId, step.queueEntryId) == Some(i) && s.rows[i].status == WAITING
    requires ActiveAssignments(s.assignments, s.rows[i].id) == []
    ensures var f := s.rows[i].(status := CancelledAs(step.reason), cancelledAt := Some(now), position := None,
                                updatedAt := now);
            Apply(env, s, step, now)
            == Outcome(Recalculated(env, Depart(s, i, f, step.staffUserId, [], now), step.restaurantId, now),
                       Success(EntryCancelled(CancelledAs(step.reason), [])))
  {
  }

  lemma GivesBack(assignments: seq<TableAssignment>, id: Id, now: Time, k: nat)
    requires k < |assignments|
    ensures var after := Released(assignments, id, now);
            |after| == |assignments| && IsGivenBack(assignments[k], after[k], id, now)
  {
  }

  lemma CancelReleases(env: Env, s: Store, step: Step, now: Time, i: nat)
    requires WellFormed(step) && step.CancelEntry? && Find(s.rows, step.restaurantId, step.queueEntryId) == Some(i)
    requires Apply(env, s, step, now).result.Success? && ActiveAssignments(s.assignments, s.rows[i].id) != []
    ensures Apply(env, s, step, now).store.assignments
            == Released(s.assignments, s.rows[i].id, now) + NewAssignments(s.rows[i].id, [], step.staffUserId, now)
  {
  }

  /** A cancellation with tables gives back exactly those its party holds. */
  lemma CancelGivesBack(env: Env, s: Store, step: Step, now: Time, i: nat, k: nat)
    requires WellFormed(step) && step.CancelEntry? && UniqueIds(s.rows)
    requires IsNamed(s.rows, i, step.restaurantId, step.queueEntryId) && Apply(env, s, step, now).result.Success?
    requires ActiveAssignments(s.assignments, s.rows[i].id) != [] && k < |s.assignments|
    ensures var after := Apply(env, s, step, now).store.assignments;
            |after| == |s.assignments| && IsGivenBack(s.assignments[k], after[k], s.rows[i].id, now)
  {
    NamedIsFound(s.rows, i, step.restaurantId, step.queueEntryId);
    CancelReleases(env, s, step, now, i);
    GivesBack(s.assignments, s.rows[i].id, now, k);
  }
}
