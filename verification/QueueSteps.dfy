/** The use cases as state transitions of the store, and the runs they make up. */
module QueueSteps {
  import opened QueueTypes
  import opened QueueEntity
  import opened QueueLine
  import opened QueueStore
  import opened Renumbering
  import opened DisplayNumbers
  import opened SeatPlans

  datatype Reply =
    | Registered(entry: EntryProps)
    | RingSent(ringCount: nat, lastRingedAt: Time)
    | PartySeated(seats: seq<TableSeats>)
    | TablesAssigned(totalPeopleAheadAtJoin: nat)
    | PartySkipped(position: Option<int>)
    | EntryCancelled(status: QueueStatus, released: seq<TableSeats>)

  datatype Outcome = Outcome(store: Store, result: Result<Reply>)

  datatype Step =
    | Register(request: Registration, answers: RestaurantAnswers, newId: Id)
    | Ring(restaurantId: Id, queueEntryId: Id)
    | SeatParty(restaurantId: Id, queueEntryId: Id, staffUserId: string, tableIds: seq<Id>, upstreamOk: bool)
    | AssignTables(restaurantId: Id, queueEntryId: Id, staffUserId: string, tables: seq<TableSeats>, upstreamOk: bool)
    | SkipParty(restaurantId: Id, queueEntryId: Id, staffUserId: string, skipPositions: Option<int>)
    | CancelEntry(restaurantId: Id, queueEntryId: Id, staffUserId: string, reason: CancelReason, upstreamOk: bool)

  /** The bounds the request validators enforce. */
  ghost predicate WellFormed(step: Step) {
    match step
    case Register(request, _, _) => 1 <= request.partySize <= 20
    case SeatParty(_, _, _, tableIds, _) => tableIds != [] && NoRepeats(tableIds)
    case AssignTables(_, _, _, tables, _) =>
      && tables != []
      && (forall k :: 0 <= k < |tables| ==> tables[k].count > 0)
      && NoRepeats(TableIdsOf(tables))
    case SkipParty(_, _, _, skipPositions) => skipPositions.Some? ==> skipPositions.value > 0
    case _ => true
  }

  function TableIdsOf(tables: seq<TableSeats>): (ids: seq<Id>)
    ensures |ids| == |tables|
  {
    seq(|tables|, k requires 0 <= k < |tables| => tables[k].tableId)
  }

  /** What the restaurant service's answers say against taking a registration or a quote. */
  function RestaurantObjection(answers: RestaurantAnswers): Option<QueueError> {
    if answers.status.None? then Some(UpstreamServiceUnavailable)
    else if answers.status.value.isBlocked then Some(RestaurantBlocked)
    else if !answers.status.value.isSubscriptionActive || answers.status.value.subscriptionPlanCode != Some("QUEUE_PRO")
    then Some(QueueProSubscriptionRequired)
    else if answers.tables.None? then Some(UpstreamServiceUnavailable)
    else if !answers.tables.value.isOpen || !answers.tables.value.acceptsQueue then Some(RestaurantNotAcceptingQueue)
    else None
  }

  function ResolvedType(request: Registration): RegistrationType {
    if request.registrationType.Some? then request.registrationType.value
    else if Truthy(request.userId) && !Truthy(request.staffUserId) then ONLINE
    else WALK_IN
  }

  function ChangedBy(request: Registration): string {
    if Truthy(request.staffUserId) then request.staffUserId.value
    else if Truthy(request.userId) then request.userId.value
    else "system"
  }

  /** The entity a registration builds from the metrics it read. */
  function NewEntry(env: Env, rows: Rows, request: Registration, newId: Id, now: Time): EntryProps {
    var r := request.restaurantId;
    var eta := env.predict(r, Sum(rows, WaitingAt(r)), request.partySize);
    var countToday := Count(rows, CreatedSince(r, env.startOfDay(now)));
    EntryProps(newId, r, request.userId, Trim(request.guestPhone),
               QueueNumber(ResolvedType(request), countToday + 1),
               request.partySize, ResolvedType(request), Some(Count(rows, WaitingAt(r)) + 1), Some(eta), Some(eta),
               WAITING, 0, None, now, None, None, now, now)
  }

  /** The checks before the transaction, and the entity to be committed. */
  function PrepareEntry(env: Env, rows: Rows, request: Registration, answers: RestaurantAnswers, newId: Id, now: Time)
    : Result<EntryProps>
  {
    var objection := RestaurantObjection(answers);
    if objection.Some? then Failure(objection.value)
    else if answers.tables.value.isTableAvailable then Failure(TableAvailable(answers.tables.value.availableCount))
    else if Select(rows, HasPhone(request.restaurantId, request.guestPhone)) != []
    then Failure(ActiveQueueEntryExists(request.guestPhone))
    else if Truthy(request.userId) && ActiveByUser(rows, request.userId.value).Some?
    then Failure(ActiveUserQueueEntryExists)
    else Success(NewEntry(env, rows, request, newId, now))
  }

  /** The transaction, then the live copy. */
  function CommitEntry(s: Store, e: EntryProps, changedBy: string, now: Time): Outcome
    requires e.position.Some? && e.estimatedWaitMinutes.Some?
  {
    var created := CreateWithHistory(s, e, changedBy, now);
    if created.Failure? then Outcome(s, Failure(created.error))
    else
      var live := LiveEntry(e.id, e.restaurantId, e.position.value, e.estimatedWaitMinutes.value, now);
      Outcome(created.value.(live := s.live[e.id := live]), Success(Registered(e)))
  }

  function RegisterStep(env: Env, s: Store, request: Registration, answers: RestaurantAnswers, newId: Id, now: Time)
    : Outcome
  {
    var prepared := PrepareEntry(env, s.rows, request, answers, newId, now);
    if prepared.Failure? then Outcome(s, Failure(prepared.error))
    else CommitEntry(s, prepared.value, ChangedBy(request), now)
  }

  /** Look-up by id within the caller's restaurant. */
  function Find(rows: Rows, restaurantId: Id, id: Id): (slot: Option<nat>)
    ensures slot.Some? ==> slot.value < |rows| && rows[slot.value].id == id
                           && rows[slot.value].restaurantId == restaurantId
  {
    var slot := SlotOf(rows, id);
    if slot.Some? && rows[slot.value].restaurantId == restaurantId then slot else None
  }

  function RingStep(s: Store, restaurantId: Id, id: Id, now: Time): Outcome {
    var slot := Find(s.rows, restaurantId, id);
    if slot.None? then Outcome(s, Failure(QueueEntryNotFound(id)))
    else
      var e := s.rows[slot.value];
      if !e.status.WAITING? then Outcome(s, Failure(QueueEntryNotWaiting(id, e.status)))
      else if e.registrationType.WALK_IN? then Outcome(s, Failure(CannotRingWalkInCustomer(id)))
      else Outcome(s.(rows := s.rows[slot.value := Rung(e, now)]), Success(RingSent(e.ringCount + 1, now)))
  }

  ghost function SeatStep(env: Env, s: Store, restaurantId: Id, id: Id, staff: string, tableIds: seq<Id>,
                          upstreamOk: bool, now: Time): Outcome
    requires tableIds != []
  {
    var slot := Find(s.rows, restaurantId, id);
    if slot.None? then Outcome(s, Failure(QueueEntryNotFound(id)))
    else
      var e := s.rows[slot.value];
      if !e.status.WAITING? then Outcome(s, Failure(QueueEntryNotWaiting(id, e.status)))
      else if !upstreamOk then Outcome(s, Failure(UpstreamServiceUnavailable))
      else Outcome(Recalculated(env, Depart(s, slot.value, Seated(e, now), staff, tableIds, now), restaurantId, now),
                   Success(PartySeated(SeatPlan(e.partySize, tableIds))))
  }

  /** Seating with the staff's own counts; the rest of the line is not renumbered. */
  function AssignStep(s: Store, restaurantId: Id, id: Id, staff: string, tables: seq<TableSeats>,
                      upstreamOk: bool, now: Time): Outcome {
    var slot := Find(s.rows, restaurantId, id);
    if slot.None? then Outcome(s, Failure(QueueEntryNotFound(id)))
    else
      var e := s.rows[slot.value];
      if Total(tables) < e.partySize
      then Outcome(s, Failure(InsufficientTableCapacity(e.partySize, Total(tables))))
      else if !e.status.WAITING? then Outcome(s, Failure(QueueEntryNotWaiting(id, e.status)))
      else if !upstreamOk then Outcome(s, Failure(UpstreamServiceUnavailable))
      else Outcome(Depart(s, slot.value, Seated(e, now), staff, TableIdsOf(tables), now),
                   Success(TablesAssigned(PeopleAheadAtJoin(s.rows, restaurantId, e.joinedAt))))
  }

  ghost function SkipStep(env: Env, s: Store, restaurantId: Id, id: Id, staff: string, skipPositions: Option<int>,
                          now: Time): Outcome {
    var slot := Find(s.rows, restaurantId, id);
    if slot.None? then Outcome(s, Failure(QueueEntryNotFound(id)))
    else
      var e := s.rows[slot.value];
      if !e.status.WAITING? then Outcome(s, Failure(QueueEntryNotWaiting(id, e.status)))
      else if skipPositions.Some? && skipPositions.value > 0 then
        var line := LineOf(s.rows, restaurantId);
        var c := PlaceOf(line, slot.value);
        Outcome(Shifted(env, s, restaurantId, slot.value, c, skipPositions.value, staff, now),
                Success(PartySkipped(Some(ShiftedPosition(c, skipPositions.value, |line|)))))
      else Outcome(Recalculated(env, Depart(s, slot.value, Skipped(e, now), staff, [], now), restaurantId, now),
                   Success(PartySkipped(None)))
  }

  /** The party at place c goes k places back: the batch write and the audit record. */
  ghost function Moved(s: Store, restaurantId: Id, slot: nat, c: nat, k: nat, staff: string, now: Time): Store
    requires slot < |s.rows| && c < |LineOf(s.rows, restaurantId)|
  {
    var line := LineOf(s.rows, restaurantId);
    var order := MoveBack(line, c, k);
    StillInTable(s.rows, line, order);
    var status := s.rows[slot].status;
    s.(rows := Reordered(s.rows, order, now),
       history := s.history + [StatusChange(s.rows[slot].id, Some(status), status, staff, now)])
  }

  ghost function Shifted(env: Env, s: Store, restaurantId: Id, slot: nat, c: nat, k: nat, staff: string, now: Time)
    : Store
    requires slot < |s.rows| && c < |LineOf(s.rows, restaurantId)|
  {
    Recalculated(env, Moved(s, restaurantId, slot, c, k, staff, now), restaurantId, now)
  }

  ghost function CancelStep(env: Env, s: Store, restaurantId: Id, id: Id, staff: string, reason: CancelReason,
                            upstreamOk: bool, now: Time): Outcome {
    var slot := Find(s.rows, restaurantId, id);
    if slot.None? then Outcome(s, Failure(QueueEntryNotFound(id)))
    else
      var e := s.rows[slot.value];
      var target := if reason.REASON_NO_SHOW? then NO_SHOW else CANCELLED;
      if !e.status.WAITING? then Outcome(s, Failure(QueueEntryNotWaiting(id, e.status)))
      else
        var held := ActiveAssignments(s.assignments, id);
        if held != [] && !upstreamOk then Outcome(s, Failure(UpstreamServiceUnavailable))
        else
          var freed := if held == [] then s else s.(assignments := Released(s.assignments, id, now));
          var gone := Depart(freed, slot.value, Cancelled(e, target, now), staff, [], now);
          Outcome(Recalculated(env, gone, restaurantId, now),
                  Success(EntryCancelled(target, if held == [] then [] else SeatPlan(e.partySize, TablesOf(held)))))
  }

  ghost function Apply(env: Env, s: Store, step: Step, now: Time): Outcome
    requires WellFormed(step)
  {
    match step
    case Register(request, answers, newId) => RegisterStep(env, s, request, answers, newId, now)
    case Ring(r, id) => RingStep(s, r, id, now)
    case SeatParty(r, id, staff, tableIds, ok) => SeatStep(env, s, r, id, staff, tableIds, ok, now)
    case AssignTables(r, id, staff, tables, ok) => AssignStep(s, r, id, staff, tables, ok, now)
    case SkipParty(r, id, staff, k) => SkipStep(env, s, r, id, staff, k, now)
    case CancelEntry(r, id, staff, reason, ok) => CancelStep(env, s, r, id, staff, reason, ok, now)
  }

  datatype Event = Event(step: Step, at: Time)

  /** Calls, what they returned, and the stores before, between and after them. */
  datatype Run = Run(env: Env, events: seq<Event>, results: seq<Result<Reply>>, states: seq<Store>)

  ghost predicate Fits(run: Run) {
    |run.results| == |run.events| && |run.states| == |run.events| + 1
  }

  /** The k-th call is well formed, and leads from the k-th store to the next. */
  ghost predicate MovesAt(run: Run, k: nat)
    requires Fits(run) && k < |run.events|
  {
    && WellFormed(run.events[k].step)
    && Outcome(run.states[k + 1], run.results[k])
       == Apply(run.env, run.states[k], run.events[k].step, run.events[k].at)
  }

  predicate TicksAt(run: Run, j: nat, k: nat)
    requires j < |run.events| && k < |run.events|
  {
    run.events[j].at < run.events[k].at
  }

  /** Runs start from empty tables, and their calls come at strictly increasing times. */
  ghost predicate IsHistory(run: Run) {
    && Fits(run)
    && run.states[0] == EMPTY_STORE
    && (forall j: nat, k: nat :: j < k < |run.events| ==> TicksAt(run, j, k))
    && (forall k: nat :: k < |run.events| ==> MovesAt(run, k))
  }

  /** The runs of the service. */
  type History = run: Run | IsHistory(run)
    ghost witness Run(Env((r, ahead, size) => 0, t => t), [], [], [EMPTY_STORE])

  /** The k-th call, counted from one, leads from the store before it to the k-th store. */
  lemma CallAt(run: History, k: nat)
    requires 0 < k <= |run.events|
    ensures WellFormed(run.events[k - 1].step)
    ensures Outcome(run.states[k], run.results[k - 1])
            == Apply(run.env, run.states[k - 1], run.events[k - 1].step, run.events[k - 1].at)
  {
    assert MovesAt(run, k - 1);
  }

  /** The time of the last of the first k calls; no timestamp stored by then is later. */
  function ClockAt(run: Run, k: nat): Time
    requires k <= |run.events|
  {
    if k == 0 then 0 else run.events[k - 1].at
  }

  /** Well-formed calls at increasing times always make up a run. */
  lemma RunOf(env: Env, events: seq<Event>) returns (run: History)
    requires forall k :: 0 <= k < |events| ==> WellFormed(events[k].step)
    requires forall j, k :: 0 <= j < k < |events| ==> events[j].at < events[k].at
    ensures run.env == env && run.events == events
  {
    if events == [] {
      run := Run(env, [], [], [EMPTY_STORE]);
    } else {
      var n := |events| - 1;
      var init := RunOf(env, events[..n]);
      var last := Apply(env, init.states[n], events[n].step, events[n].at);
      var all := Run(env, events, init.results + [last.result], init.states + [last.store]);
      forall k: nat | k < |events| ensures MovesAt(all, k) {
        if k < n { assert MovesAt(init, k); }
      }
      run := all;
    }
  }

  predicate IsShift(step: Step) {
    step.SkipParty? && step.skipPositions.Some? && step.skipPositions.value > 0
  }

  function RestaurantOf(step: Step): Id {
    if step.Register? then step.request.restaurantId else step.restaurantId
  }
}
