/** The use cases over the stored tables and the cache, each refining its step. */
module QueueUseCases {
  import opened QueueTypes
  import opened QueueEntity
  import opened QueueLine
  import opened QueueStore
  import opened Renumbering
  import opened DisplayNumbers
  import opened SeatPlans
  import opened QueueSteps
  import opened QueueRepository
  import opened QueuePositionRecalculator
  import opened Recalculation
  import opened Reordering

  datatype EtaQuote = EtaQuote(estimatedWaitMinutes: nat, queueDepth: nat)

  function Quote(env: Env, rows: Rows, restaurantId: Id, partySize: nat, answers: RestaurantAnswers)
    : Result<EtaQuote>
  {
    var objection := RestaurantObjection(answers);
    if objection.Some? then Failure(objection.value)
    else
      var depth := Count(rows, WaitingAt(restaurantId));
      if answers.tables.value.isTableAvailable && depth == 0 then Success(EtaQuote(0, depth))
      else Success(EtaQuote(env.predict(restaurantId, Sum(rows, WaitingAt(restaurantId)), partySize), depth))
  }

  class UseCases {
    const repository: Repository
    const cache: LiveCache
    const recalculator: Recalculator
    const env: Env

    constructor (repository: Repository, cache: LiveCache, recalculator: Recalculator)
      requires recalculator.repository == repository && recalculator.cache == cache
      requires UniqueIds(repository.rows)
      ensures Valid() && this.repository == repository && this.cache == cache && env == recalculator.env
    {
      this.repository, this.cache, this.recalculator := repository, cache, recalculator;
      this.env := recalculator.env;
    }

    /** The parts share one set of tables, whose ids are a primary key. */
    ghost predicate Valid()
      reads repository
    {
      && recalculator.repository == repository && recalculator.cache == cache && recalculator.env == env
      && UniqueIds(repository.rows)
    }

    ghost function Snapshot(): Store
      reads repository, cache
    {
      Store(repository.rows, repository.history, repository.assignments, cache.live)
    }

    method RegisterQueue(request: Registration, answers: RestaurantAnswers, newId: Id, now: Time)
      returns (result: Result<Reply>)
      requires Valid()
      modifies repository, cache
      ensures Valid()
      ensures Outcome(Snapshot(), result) == RegisterStep(env, old(Snapshot()), request, answers, newId, now)
      ensures result.Failure? ==> Snapshot() == old(Snapshot())
    {
      var objection := CheckRegistration(request, answers, newId, now);
      if objection.Some? {
        return Failure(objection.value);
      }
      var rows := repository.rows;
      var queueDepth := Count(rows, WaitingAt(request.restaurantId));
      var totalPeopleAhead := Sum(rows, WaitingAt(request.restaurantId));
      var countToday := Count(rows, CreatedSince(request.restaurantId, env.startOfDay(now)));
      var position := queueDepth + 1;
      var resolvedType := ResolvedType(request);
      var queueNumber := QueueNumber(resolvedType, countToday + 1);
      var estimatedWaitMinutes := env.predict(request.restaurantId, totalPeopleAhead, request.partySize);

      var queueEntry := new QueueEntry(
        EntryProps(newId, request.restaurantId, request.userId, Trim(request.guestPhone), queueNumber,
                   request.partySize, resolvedType, Some(position), Some(estimatedWaitMinutes),
                   Some(estimatedWaitMinutes), WAITING, 0, None, now, None, None, now, now));
      assert queueEntry.props == NewEntry(env, rows, request, newId, now);
      var error := repository.CreateWithHistory(queueEntry, ChangedBy(request), now);
      if error.Some? {
        return Failure(error.value);
      }
      cache.SaveLiveEntry(newId, request.restaurantId, position, estimatedWaitMinutes, now);
      return Success(Registered(queueEntry.props));
    }

    /** Everything a registration checks before its transaction. */
    method CheckRegistration(request: Registration, answers: RestaurantAnswers, ghost newId: Id, ghost now: Time)
      returns (objection: Option<QueueError>)
      ensures PrepareEntry(env, repository.rows, request, answers, newId, now)
              == if objection.Some? then Failure(objection.value)
                 else Success(NewEntry(env, repository.rows, request, newId, now))
    {
      if answers.status.None? {
        return Some(UpstreamServiceUnavailable);
      }
      if answers.status.value.isBlocked {
        return Some(RestaurantBlocked);
      }
      if !answers.status.value.isSubscriptionActive
         || answers.status.value.subscriptionPlanCode != Some("QUEUE_PRO") {
        return Some(QueueProSubscriptionRequired);
      }
      if answers.tables.None? {
        return Some(UpstreamServiceUnavailable);
      }
      var tableCheck := answers.tables.value;
      if !tableCheck.isOpen || !tableCheck.acceptsQueue {
        return Some(RestaurantNotAcceptingQueue);
      }
      if tableCheck.isTableAvailable {
        return Some(TableAvailable(tableCheck.availableCount));
      }
      var rows := repository.rows;
      if Select(rows, HasPhone(request.restaurantId, request.guestPhone)) != [] {
        return Some(ActiveQueueEntryExists(request.guestPhone));
      }
      if Truthy(request.userId) && ActiveByUser(rows, request.userId.value).Some? {
        return Some(ActiveUserQueueEntryExists);
      }
      return None;
    }

    method RingCustomer(restaurantId: Id, id: Id, now: Time) returns (result: Result<Reply>)
      requires Valid()
      modifies repository
      ensures Valid()
      ensures Outcome(Snapshot(), result) == RingStep(old(Snapshot()), restaurantId, id, now)
      ensures result.Failure? ==> Snapshot() == old(Snapshot())
    {
      var entry := repository.FindById(id);
      if entry == null || entry.props.restaurantId != restaurantId {
        return Failure(QueueEntryNotFound(id));
      }
      var error := entry.Ring(now);
      if error.Some? {
        return Failure(error.value);
      }
      repository.Save(entry);
      var ringedAt := if entry.props.lastRingedAt.Some? then entry.props.lastRingedAt.value else now;
      return Success(RingSent(entry.props.ringCount, ringedAt));
    }

    method SeatParty(restaurantId: Id, id: Id, staff: string, tableIds: seq<Id>, upstreamOk: bool, now: Time)
      returns (result: Result<Reply>)
      requires Valid() && tableIds != []
      modifies repository, cache
      ensures Valid()
      ensures Outcome(Snapshot(), result)
              == SeatStep(env, old(Snapshot()), restaurantId, id, staff, tableIds, upstreamOk, now)
      ensures result.Failure? ==> Snapshot() == old(Snapshot())
    {
      var entry := repository.FindById(id);
      if entry == null || entry.props.restaurantId != restaurantId {
        return Failure(QueueEntryNotFound(id));
      }
      var previousStatus := entry.props.status;
      var error := entry.Seat(now);
      if error.Some? {
        return Failure(error.value);
      }
      var payload := PlanSeats(entry.props.partySize, tableIds);
      if !upstreamOk {
        return Failure(UpstreamServiceUnavailable);
      }
      repository.AssignTablesWithHistory(entry, tableIds, staff, previousStatus, now);
      cache.RemoveLiveEntry(id);
      var _ := recalculator.Recalculate(restaurantId, now);
      return Success(PartySeated(payload));
    }

    method AssignTables(restaurantId: Id, id: Id, staff: string, tables: seq<TableSeats>, upstreamOk: bool, now: Time)
      returns (result: Result<Reply>)
      requires Valid()
      modifies repository, cache
      ensures Valid()
      ensures Outcome(Snapshot(), result)
              == AssignStep(old(Snapshot()), restaurantId, id, staff, tables, upstreamOk, now)
      ensures result.Failure? ==> Snapshot() == old(Snapshot())
    {
      var entry := repository.FindById(id);
      if entry == null || entry.props.restaurantId != restaurantId {
        return Failure(QueueEntryNotFound(id));
      }
      var totalAssignedSeats := Total(tables);
      if totalAssignedSeats < entry.props.partySize {
        return Failure(InsufficientTableCapacity(entry.props.partySize, totalAssignedSeats));
      }
      var totalPeopleAheadAtJoin := PeopleAheadAtJoin(repository.rows, restaurantId, entry.props.joinedAt);
      var previousStatus := entry.props.status;
      var error := entry.Seat(now);
      if error.Some? {
        return Failure(error.value);
      }
      if !upstreamOk {
        return Failure(UpstreamServiceUnavailable);
      }
      repository.AssignTablesWithHistory(entry, TableIdsOf(tables), staff, previousStatus, now);
      cache.RemoveLiveEntry(id);
      return Success(TablesAssigned(totalPeopleAheadAtJoin));
    }

    method SkipParty(restaurantId: Id, id: Id, staff: string, skipPositions: Option<int>, now: Time)
      returns (result: Result<Reply>)
      requires Valid()
      modifies repository, cache
      ensures Valid()
      ensures Outcome(Snapshot(), result)
              == SkipStep(env, old(Snapshot()), restaurantId, id, staff, skipPositions, now)
      ensures result.Failure? ==> Snapshot() == old(Snapshot())
    {
      var entry := repository.FindById(id);
      if entry == null || entry.props.restaurantId != restaurantId {
        return Failure(QueueEntryNotFound(id));
      }
      if !entry.props.status.WAITING? {
        return Failure(QueueEntryNotWaiting(id, entry.props.status));
      }
      if skipPositions.Some? && skipPositions.value > 0 {
        result := ShiftParty(entry, restaurantId, Find(repository.rows, restaurantId, id).value, staff,
                             skipPositions.value, now);
      } else {
        result := DropParty(entry, restaurantId, Find(repository.rows, restaurantId, id).value, staff, now);
      }
    }

    /** The branch of skipping that takes the party out of the line. */
    method DropParty(entry: QueueEntry, restaurantId: Id, ghost slot: nat, staff: string, now: Time)
      returns (result: Result<Reply>)
      requires Valid()
      requires slot < |repository.rows| && entry.props == repository.rows[slot]
      requires WaitingAt(restaurantId)(entry.props)
      modifies repository, cache, entry
      ensures Valid()
      ensures var gone := Depart(old(Snapshot()), slot, Skipped(old(repository.rows)[slot], now), staff, [], now);
              Snapshot() == Recalculated(env, gone, restaurantId, now)
      ensures result == Success(PartySkipped(None))
    {
      var previousStatus := entry.props.status;
      var _ := entry.Skip(now);
      RecordDeparture(entry, restaurantId, slot, previousStatus, staff, now);
      return Success(PartySkipped(None));
    }

    /** The end of a skip and of a cancellation: the status write, the cache, the recalculation. */
    method RecordDeparture(entry: QueueEntry, restaurantId: Id, ghost slot: nat, previousStatus: QueueStatus,
                           staff: string, now: Time)
      requires Valid() && slot < |repository.rows|
      requires entry.props.id == repository.rows[slot].id && previousStatus == repository.rows[slot].status
      modifies repository, cache
      ensures Valid()
      ensures Snapshot()
              == Recalculated(env, Depart(old(Snapshot()), slot, entry.props, staff, [], now), restaurantId, now)
    {
      SlotIs(repository.rows, slot);
      var id := entry.props.id;
      repository.UpdateStatusWithHistory(entry, previousStatus, staff, now);
      cache.RemoveLiveEntry(id);
      assert repository.assignments == old(repository.assignments) + NewAssignments(id, [], staff, now);
      assert recalculator.Snapshot() == Depart(old(Snapshot()), slot, entry.props, staff, [], now);
      var _ := recalculator.Recalculate(restaurantId, now);
    }

    /** The branch of skipping that sends a party some places back. */
    method ShiftParty(entry: QueueEntry, restaurantId: Id, ghost slot: nat, staff: string, skipPositions: nat,
                      now: Time)
      returns (result: Result<Reply>)
      requires Valid() && skipPositions > 0
      requires slot < |repository.rows| && entry.props == repository.rows[slot]
      requires WaitingAt(restaurantId)(entry.props)
      modifies repository, cache, entry
      ensures Valid()
      ensures var line := LineOf(old(repository.rows), restaurantId);
              var c := PlaceOf<nat>(line, slot);
              && Snapshot() == Shifted(env, old(Snapshot()), restaurantId, slot, c, skipPositions, staff, now)
              && result == Success(PartySkipped(Some(ShiftedPosition(c, skipPositions, |line|))))
    {
      var id := entry.props.id;
      var found := repository.FindActiveEntries(restaurantId);
      var activeEntries := seq(|found|, k requires 0 <= k < |found| => found[k].id);
      assert activeEntries == IdsOf(repository.rows, LineOf(repository.rows, restaurantId));
      PartyInLine(repository.rows, restaurantId, slot);
      var currentIndex := PlaceOf(activeEntries, id);
      var targetIndex;
      activeEntries, targetIndex := SpliceBack(activeEntries, currentIndex, skipPositions);
      StoreShift(entry, restaurantId, slot, activeEntries, currentIndex, targetIndex, staff, skipPositions, now);
      var _ := recalculator.Recalculate(restaurantId, now);
      return Success(PartySkipped(Some(targetIndex + 1)));
    }

    /** The entity's new position, the batch write and the audit record. */
    method StoreShift(entry: QueueEntry, ghost restaurantId: Id, ghost slot: nat, activeEntries: seq<Id>,
                      ghost currentIndex: nat, targetIndex: nat, staff: string, ghost skipPositions: nat, now: Time)
      requires Valid() && slot < |repository.rows|
      requires entry.props == repository.rows[slot] && entry.props.status.WAITING?
      requires var line := LineOf(repository.rows, restaurantId);
               && currentIndex < |line| && line[currentIndex] == slot
               && activeEntries == MoveBack(IdsOf(repository.rows, line), currentIndex, skipPositions)
               && targetIndex + 1 == ShiftedPosition(currentIndex, skipPositions, |line|)
      modifies repository, entry
      ensures Valid()
      ensures Snapshot() == Moved(old(Snapshot()), restaurantId, slot, currentIndex, skipPositions, staff, now)
    {
      ghost var rows := repository.rows;
      ghost var line := LineOf(rows, restaurantId);
      entry.UpdatePosition(targetIndex + 1, None, now);
      WriteOrder(activeEntries, line, currentIndex, skipPositions, now);
      ShiftStatusWrite(rows, line, currentIndex, skipPositions, entry.props, now);
      repository.UpdateStatusWithHistory(entry, entry.props.status, staff, now);
    }

    method WriteOrder(activeEntries: seq<Id>, ghost line: seq<nat>, ghost c: nat, ghost k: nat, now: Time)
      requires UniqueIds(repository.rows) && InTable(repository.rows, line) && NoRepeats(line) && c < |line|
      requires activeEntries == MoveBack(IdsOf(repository.rows, line), c, k)
      modifies repository`rows
      ensures InTable(old(repository.rows), MoveBack(line, c, k))
      ensures repository.rows == Reordered(old(repository.rows), MoveBack(line, c, k), now)
    {
      var updates := seq(|activeEntries|, m requires 0 <= m < |activeEntries| =>
        PositionUpdate(activeEntries[m], m + 1, None));
      ShiftWrites(repository.rows, line, c, k, updates, now);
      repository.BatchUpdatePositions(updates, now);
    }

    /** The two splices: take the party out, put it back further down or at the end. */
    method SpliceBack(ids: seq<Id>, currentIndex: nat, skipPositions: nat) returns (moved: seq<Id>, targetIndex: nat)
      requires currentIndex < |ids|
      ensures moved == MoveBack(ids, currentIndex, skipPositions)
      ensures targetIndex + 1 == ShiftedPosition(currentIndex, skipPositions, |ids|)
    {
      targetIndex := if currentIndex + skipPositions < |ids| - 1 then currentIndex + skipPositions else |ids| - 1;
      var skippedEntry := ids[currentIndex];
      moved := ids[..currentIndex] + ids[currentIndex + 1..];
      moved := moved[..targetIndex] + [skippedEntry] + moved[targetIndex..];
    }

    method CancelQueueEntry(restaurantId: Id, id: Id, staff: string, reason: CancelReason, upstreamOk: bool, now: Time)
      returns (result: Result<Reply>)
      requires Valid()
      modifies repository, cache
      ensures Valid()
      ensures Outcome(Snapshot(), result)
              == CancelStep(env, old(Snapshot()), restaurantId, id, staff, reason, upstreamOk, now)
      ensures result.Failure? ==> Snapshot() == old(Snapshot())
    {
      var entry := repository.FindById(id);
      if entry == null || entry.props.restaurantId != restaurantId {
        return Failure(QueueEntryNotFound(id));
      }
      var previousStatus := entry.props.status;
      var targetStatus := if reason.REASON_NO_SHOW? then NO_SHOW else CANCELLED;
      var error := entry.Cancel(targetStatus, now);
      if error.Some? {
        return Failure(error.value);
      }
      var released;
      error, released := ReleaseHeldTables(id, entry.props.partySize, upstreamOk, now);
      if error.Some? {
        return Failure(error.value);
      }
      RecordDeparture(entry, restaurantId, SlotOf(repository.rows, id).value, previousStatus, staff, now);
      return Success(EntryCancelled(targetStatus, released));
    }

    /** Gives back whatever tables the party holds. */
    method ReleaseHeldTables(id: Id, partySize: nat, upstreamOk: bool, now: Time)
      returns (error: Option<QueueError>, released: seq<TableSeats>)
      modifies repository`assignments
      ensures var held := ActiveAssignments(old(repository.assignments), id);
              if held != [] && !upstreamOk
              then error == Some(UpstreamServiceUnavailable) && repository.assignments == old(repository.assignments)
              else
                && error.None?
                && released == (if held == [] then [] else SeatPlan(partySize, TablesOf(held)))
                && repository.assignments == if held == [] then old(repository.assignments)
                                             else Released(old(repository.assignments), id, now)
    {
      var held := ActiveAssignments(repository.assignments, id);
      released := [];
      if |held| > 0 {
        released := PlanRelease(partySize, held);
        if !upstreamOk {
          return Some(UpstreamServiceUnavailable), released;
        }
        repository.ReleaseTableAssignments(id, now);
      }
      error := None;
    }

    method GetQueueEta(restaurantId: Id, partySize: nat, answers: RestaurantAnswers) returns (result: Result<EtaQuote>)
      ensures result == Quote(env, repository.rows, restaurantId, partySize, answers)
      ensures result.Success? ==>
                var line := LineOf(repository.rows, restaurantId);
                && result.value.queueDepth == |line|
                && result.value.estimatedWaitMinutes
                   == if answers.tables.value.isTableAvailable && line == [] then 0
                      else env.predict(restaurantId, People(repository.rows, line), partySize)
    {
      LineTotals(repository.rows, restaurantId);
      var objection := RestaurantObjection(answers);
      if objection.Some? {
        return Failure(objection.value);
      }
      var queueDepth := Count(repository.rows, WaitingAt(restaurantId));
      var totalPeopleAhead := Sum(repository.rows, WaitingAt(restaurantId));
      if answers.tables.value.isTableAvailable && queueDepth == 0 {
        return Success(EtaQuote(0, queueDepth));
      }
      return Success(EtaQuote(env.predict(restaurantId, totalPeopleAhead, partySize), queueDepth));
    }
  }

  /** A party that waits is found in its line, at the place its slot has there. */
  lemma PartyInLine(rows: Rows, restaurantId: Id, slot: nat)
    requires UniqueIds(rows) && slot < |rows| && WaitingAt(restaurantId)(rows[slot])
    ensures var line := LineOf(rows, restaurantId);
            var c := PlaceOf(IdsOf(rows, line), rows[slot].id);
            0 <= c < |line| && line[c] == slot && c == PlaceOf<nat>(line, slot)
  {
    var line := LineOf(rows, restaurantId);
    assert slot in line;
    PlaceOfId(rows, line, PlaceOf<nat>(line, slot));
  }

  /** The batch write of a shift reorders the rows. */
  lemma ShiftWrites(rows: Rows, line: seq<nat>, c: nat, k: nat, updates: seq<PositionUpdate>, now: Time)
    requires UniqueIds(rows) && InTable(rows, line) && NoRepeats(line) && c < |line|
    requires var ids := MoveBack(IdsOf(rows, line), c, k);
             && |updates| == |ids|
             && forall m :: 0 <= m < |ids| ==> updates[m] == PositionUpdate(ids[m], m + 1, None)
    ensures InTable(rows, MoveBack(line, c, k))
    ensures WriteAll(rows, updates, now) == Reordered(rows, MoveBack(line, c, k), now)
  {
    var order := MoveBack(line, c, k);
    MoveBackIsPermutation(line, c, k);
    IdsMoveAlong(rows, line, c, k);
    WritingOrderPlaces(rows, order, |order|, updates, now);
  }

  /** The status write that follows changes nothing more. */
  lemma ShiftStatusWrite(rows: Rows, line: seq<nat>, c: nat, k: nat, e: EntryProps, now: Time)
    requires UniqueIds(rows) && InTable(rows, line) && NoRepeats(line) && c < |line|
    requires e == Placed(rows[line[c]], ShiftedPosition(c, k, |line|), None, now)
    requires InTable(rows, MoveBack(line, c, k))
    ensures var after := Reordered(rows, MoveBack(line, c, k), now);
            && UniqueIds(after)
            && WriteRow(after, e) == after
  {
    var order := MoveBack(line, c, k);
    MoveBackIsPermutation(line, c, k);
    IdsMoveAlong(rows, line, c, k);
    var t := ShiftTarget(c, k, |line|);
    ReorderedEntry(rows, order, t, now);
    WritingTheSame(Reordered(rows, order, now), line[c], e);
  }

  lemma WritingTheSame(rows: Rows, slot: nat, e: EntryProps)
    requires UniqueIds(rows) && slot < |rows| && e == rows[slot]
    ensures WriteRow(rows, e) == rows
  {
    SlotIs(rows, slot);
  }
}
