/** The staff's view of the queue: arrival order with a running counter, next to the stored line. */
module StaffView {
  import opened QueueTypes
  import opened QueueEntity
  import opened QueueLine
  import opened QueueStore
  import opened Renumbering
  import opened Recalculation
  import opened QueueSteps
  import opened StepEffects
  import opened QueueRepository
  import opened RowLifecycle
  import opened StoreInvariants
  import opened LineOrder
  import opened ExactLines
  import opened Reordering
  import opened Shifting
  import opened LineSlack
  import opened CacheAgreement

  datatype PartySizeBucket = ALL | SMALL | MEDIUM | LARGE

  predicate InBucket(bucket: PartySizeBucket, partySize: nat) {
    match bucket
    case ALL => true
    case SMALL => 1 <= partySize <= 2
    case MEDIUM => 3 <= partySize <= 4
    case LARGE => 5 <= partySize
  }

  function InView(restaurantId: Id, status: QueueStatus, bucket: PartySizeBucket): EntryProps -> bool {
    (e: EntryProps) => e.restaurantId == restaurantId && e.status == status && InBucket(bucket, e.partySize)
  }

  /** The rows of the view, by arrival. */
  function Snapshot(rows: Rows, restaurantId: Id, status: QueueStatus, bucket: PartySizeBucket): (slots: seq<nat>)
    ensures InTable(rows, slots)
  {
    Sort(JOINED, rows, Select(rows, InView(restaurantId, status, bucket)))
  }

  /** The view has exactly the parties of a restaurant, a status and a size range, each once, by arrival. */
  ghost predicate ViewsExactly(rows: Rows, slots: seq<nat>, restaurantId: Id, status: QueueStatus,
                               bucket: PartySizeBucket)
    requires InTable(rows, slots)
  {
    && NoRepeats(slots) && InOrder(JOINED, rows, slots)
    && forall i: nat :: i in slots <==>
         && i < |rows| && rows[i].restaurantId == restaurantId && rows[i].status == status
         && (bucket == SMALL ==> rows[i].partySize == 1 || rows[i].partySize == 2)
         && (bucket == MEDIUM ==> rows[i].partySize == 3 || rows[i].partySize == 4)
         && (bucket == LARGE ==> rows[i].partySize >= 5)
  }

  lemma SnapshotViewsExactly(rows: Rows, restaurantId: Id, status: QueueStatus, bucket: PartySizeBucket)
    ensures ViewsExactly(rows, Snapshot(rows, restaurantId, status, bucket), restaurantId, status, bucket)
  {
    var selected := Select(rows, InView(restaurantId, status, bucket));
    RisingDiffers(selected);
    SortFacts(JOINED, rows, selected);
  }

  lemma SnapshotHasStatus(rows: Rows, restaurantId: Id, status: QueueStatus, bucket: PartySizeBucket)
    ensures var slots := Snapshot(rows, restaurantId, status, bucket);
            forall k :: 0 <= k < |slots| ==> rows[slots[k]].status == status
  {
    var slots := Snapshot(rows, restaurantId, status, bucket);
    forall k | 0 <= k < |slots| ensures rows[slots[k]].status == status {
      assert slots[k] in slots;
      assert InView(restaurantId, status, bucket)(rows[slots[k]]);
    }
  }

  /** The table a party was last given and still holds. */
  function LatestTable(assignments: seq<TableAssignment>, id: Id): (table: Option<TableAssignment>)
    ensures table.Some? <==> ActiveAssignments(assignments, id) != []
  {
    if assignments == [] then None
    else
      var n := |assignments| - 1;
      var a := assignments[n];
      var before := LatestTable(assignments[..n], id);
      if !(a.queueEntryId == id && a.releasedAt.None?) then before
      else if before.Some? && before.value.assignedAt >= a.assignedAt then before
      else Some(a)
  }

  datatype StaffEntry = StaffEntry(
    queueEntryId: Id,
    queueNumber: string,
    position: Option<nat>,
    guestPhone: string,
    partySize: nat,
    registrationType: RegistrationType,
    status: QueueStatus,
    assignedTableId: Option<Id>,
    joinedAt: Time,
    ringCount: nat,
    lastRingAt: Option<Time>,
    responseDeadline: Option<Time>,
    waitDurationMinutes: nat
  )

  function Shown(e: EntryProps, position: Option<nat>, table: Option<TableAssignment>, now: Time): StaffEntry {
    StaffEntry(e.id, e.queueNumber, position, e.phone, e.partySize, e.registrationType, e.status,
               if table.Some? then Some(table.value.tableId) else None,
               e.joinedAt, e.ringCount, e.lastRingedAt, ResponseDeadline(e), WaitMinutes(e, now))
  }

  /** An entry shows the fields of a row. */
  predicate ShowsRow(f: StaffEntry, e: EntryProps) {
    && f.queueEntryId == e.id && f.queueNumber == e.queueNumber && f.guestPhone == e.phone
    && f.partySize == e.partySize && f.registrationType == e.registrationType && f.status == e.status
    && f.joinedAt == e.joinedAt && f.ringCount == e.ringCount && f.lastRingAt == e.lastRingedAt
  }

  /** And what follows from them: the deadline two minutes after a ring, and the minutes waited. */
  predicate ShowsTimes(f: StaffEntry, e: EntryProps, now: Time) {
    && f.responseDeadline == (if e.lastRingedAt == None then None else Some(e.lastRingedAt.value + 120000))
    && IsMinutes(f.waitDurationMinutes, e.joinedAt,
                 if e.status == WAITING then now
                 else if e.status == SEATED && e.seatedAt.Some? then e.seatedAt.value
                 else e.updatedAt)
  }

  /** The table shown is one that the party was given and holds, and none that it holds was given later. */
  ghost predicate ShowsTable(f: StaffEntry, assignments: seq<TableAssignment>) {
    if f.assignedTableId == None then forall k :: 0 <= k < |assignments| ==> !Holds(assignments[k], f.queueEntryId)
    else exists j: nat :: && IsLatestHeld(assignments, f.queueEntryId, j)
                          && assignments[j].tableId == f.assignedTableId.value
  }

  predicate Holds(a: TableAssignment, id: Id) {
    a.queueEntryId == id && a.releasedAt == None
  }

  predicate IsLatestHeld(assignments: seq<TableAssignment>, id: Id, j: nat) {
    && j < |assignments| && Holds(assignments[j], id)
    && forall k :: 0 <= k < |assignments| && Holds(assignments[k], id) ==>
         assignments[k].assignedAt <= assignments[j].assignedAt
  }

  /** The table is the latest of those that the party holds, if it holds any. */
  ghost predicate IsTableHeld(assignments: seq<TableAssignment>, id: Id, table: Option<TableAssignment>, j: nat) {
    if table == None then forall k :: 0 <= k < |assignments| ==> !Holds(assignments[k], id)
    else IsLatestHeld(assignments, id, j) && assignments[j] == table.value
  }

  /** One more assignment that is not held, or not later, changes nothing. */
  lemma StillHeld(init: seq<TableAssignment>, a: TableAssignment, id: Id, table: Option<TableAssignment>, j: nat)
    requires IsTableHeld(init, id, table, j)
    requires Holds(a, id) ==> table.Some? && a.assignedAt <= table.value.assignedAt
    ensures IsTableHeld(init + [a], id, table, j)
  {
  }

  /** One that is held and later becomes the latest. */
  lemma NowHeld(init: seq<TableAssignment>, a: TableAssignment, id: Id, table: Option<TableAssignment>, j: nat)
    requires IsTableHeld(init, id, table, j)
    requires Holds(a, id) && (table.Some? ==> table.value.assignedAt < a.assignedAt)
    ensures IsTableHeld(init + [a], id, Some(a), |init|)
  {
  }

  lemma {:induction false} LatestIs(assignments: seq<TableAssignment>, id: Id) returns (j: nat)
    ensures IsTableHeld(assignments, id, LatestTable(assignments, id), j)
  {
    j := 0;
    if assignments != [] {
      var init, a := assignments[..|assignments| - 1], assignments[|assignments| - 1];
      assert assignments == init + [a];
      var before := LatestTable(init, id);
      j := LatestIs(init, id);
      if Holds(a, id) && (before.None? || before.value.assignedAt < a.assignedAt) {
        NowHeld(init, a, id, before, j);
        j := |init|;
      } else {
        StillHeld(init, a, id, before, j);
      }
    }
  }

  /** Apart from its number, the k-th entry shows the k-th row and the table its party holds. */
  ghost predicate ShowsAt(rows: Rows, assignments: seq<TableAssignment>, slots: seq<nat>, entries: seq<StaffEntry>,
                          k: nat, now: Time)
    requires InTable(rows, slots) && k < |slots| && k < |entries|
  {
    var e, f := rows[slots[k]], entries[k];
    ShowsRow(f, e) && ShowsTimes(f, e, now) && ShowsTable(f, assignments)
  }

  lemma ShownShows(e: EntryProps, position: Option<nat>, assignments: seq<TableAssignment>, now: Time)
    ensures var f := Shown(e, position, LatestTable(assignments, e.id), now);
            ShowsRow(f, e) && ShowsTimes(f, e, now) && ShowsTable(f, assignments)
  {
    DeadlineIsTwoMinutes(e);
    if e.status == WAITING { WaitOfWaiting(e, now); } else { WaitOfDeparted(e, now); }
    var j := LatestIs(assignments, e.id);
  }

  /** A view of waiting parties numbers the k-th one k + 1; other views have no numbers. */
  predicate NumbersAt(entries: seq<StaffEntry>, shown: QueueStatus, k: nat)
    requires k < |entries|
  {
    if shown.WAITING? then entries[k].position.Some? && entries[k].position.value == k + 1
    else entries[k].position.None?
  }

  class GetStaffQueue {
    const repository: Repository

    constructor (repository: Repository)
      ensures this.repository == repository
    {
      this.repository := repository;
    }

    /** The waiting parties are numbered 1, 2, 3, ... in the order shown; the others have no number. */
    method Execute(restaurantId: Id, status: Option<QueueStatus>, bucket: PartySizeBucket, now: Time)
      returns (totalWaiting: nat, entries: seq<StaffEntry>)
      ensures totalWaiting == |LineOf(repository.rows, restaurantId)|
      ensures var shown := if status.Some? then status.value else WAITING;
              var slots := Snapshot(repository.rows, restaurantId, shown, bucket);
              && ViewsExactly(repository.rows, slots, restaurantId, shown, bucket)
              && |entries| == |slots|
              && forall k :: 0 <= k < |slots| ==>
                   && NumbersAt(entries, shown, k)
                   && ShowsAt(repository.rows, repository.assignments, slots, entries, k, now)
    {
      totalWaiting := Count(repository.rows, WaitingAt(restaurantId));
      LineTotals(repository.rows, restaurantId);
      var shown := if status.Some? then status.value else WAITING;
      var slots := Snapshot(repository.rows, restaurantId, shown, bucket);
      SnapshotHasStatus(repository.rows, restaurantId, shown, bucket);
      entries := MapToLiveQueueEntries(slots, shown, now);
      SnapshotViewsExactly(repository.rows, restaurantId, shown, bucket);
    }

    method MapToLiveQueueEntries(slots: seq<nat>, ghost shown: QueueStatus, now: Time)
      returns (entries: seq<StaffEntry>)
      requires InTable(repository.rows, slots)
      requires forall k :: 0 <= k < |slots| ==> repository.rows[slots[k]].status == shown
      ensures |entries| == |slots|
      ensures forall k :: 0 <= k < |slots| ==>
                && NumbersAt(entries, shown, k)
                && ShowsAt(repository.rows, repository.assignments, slots, entries, k, now)
    {
      var rows, assignments := repository.rows, repository.assignments;
      var waitingLinePosition := 1;
      entries := [];
      for i := 0 to |slots|
        invariant |entries| == i
        invariant shown.WAITING? ==> waitingLinePosition == i + 1
        invariant forall k :: 0 <= k < i ==>
                    NumbersAt(entries, shown, k) && ShowsAt(rows, assignments, slots, entries, k, now)
      {
        var entry := rows[slots[i]];
        var position: Option<nat> := None;
        if entry.status.WAITING? {
          position := Some(waitingLinePosition);
          waitingLinePosition := waitingLinePosition + 1;
        }
        ghost var before := entries;
        entries := entries + [Shown(entry, position, LatestTable(assignments, entry.id), now)];
        ShownShows(entry, position, assignments, now);
        forall k: nat | k < i
          ensures NumbersAt(entries, shown, k) && ShowsAt(rows, assignments, slots, entries, k, now)
        {
          assert NumbersAt(before, shown, k) && ShowsAt(rows, assignments, slots, before, k, now);
          assert entries[k] == before[k];
        }
      }
    }
  }

  // ---------------------------------------------------------------- arrival order

  /** In a table in order of arrival, rising slots are in strict order of joining. */
  lemma RisingIsByJoining(rows: Rows, slots: seq<nat>)
    requires ByArrival(rows) && InTable(rows, slots) && Rising(slots)
    ensures InStrictOrder(JOINED, rows, slots)
  {
    forall a: nat, b: nat | a < b < |slots| ensures Ahead(JOINED, rows, slots, a, b) {
      assert RisesAt(slots, a, b);
      assert JoinedBefore(rows, slots[a], slots[b]);
    }
  }

  /** The view shows its rows in table order. */
  lemma SnapshotIsSelection(rows: Rows, restaurantId: Id, status: QueueStatus, bucket: PartySizeBucket)
    requires ByArrival(rows)
    ensures Snapshot(rows, restaurantId, status, bucket) == Select(rows, InView(restaurantId, status, bucket))
  {
    var selected := Select(rows, InView(restaurantId, status, bucket));
    RisingIsByJoining(rows, selected);
    RisingDiffers(selected);
    SortFacts(JOINED, rows, selected);
    SortIs(JOINED, rows, selected, Sort(JOINED, rows, selected));
  }

  /** The view shows the stored line exactly when that line is in order of arrival. */
  lemma ViewIsLineIffRising(rows: Rows, restaurantId: Id)
    requires ByArrival(rows)
    ensures Snapshot(rows, restaurantId, WAITING, ALL) == LineOf(rows, restaurantId)
            <==> Rising(LineOf(rows, restaurantId))
  {
    SnapshotIsSelection(rows, restaurantId, WAITING, ALL);
    if Rising(LineOf(rows, restaurantId)) { RisingLineIsShown(rows, restaurantId); }
  }

  lemma RisingLineIsShown(rows: Rows, restaurantId: Id)
    requires ByArrival(rows) && Rising(LineOf(rows, restaurantId))
    ensures Snapshot(rows, restaurantId, WAITING, ALL) == LineOf(rows, restaurantId)
  {
    var line := LineOf(rows, restaurantId);
    var selected := Select(rows, InView(restaurantId, WAITING, ALL));
    SnapshotIsSelection(rows, restaurantId, WAITING, ALL);
    RisingIsByJoining(rows, line);
    RisingIsByJoining(rows, selected);
    RisingDiffers(selected);
    SelectedInOrder(rows, selected);
    forall i: nat ensures i in line <==> i in selected {
    }
    SortIs(JOINED, rows, line, selected);
  }

  lemma SelectedInOrder(rows: Rows, slots: seq<nat>)
    requires InStrictOrder(JOINED, rows, slots)
    ensures InOrder(JOINED, rows, slots)
  {
    forall a: nat, b: nat | a < b < |slots| ensures !Ahead(JOINED, rows, slots, b, a) {
      assert Ahead(JOINED, rows, slots, a, b);
    }
  }

  lemma RemovalRises(s: seq<nat>, c: nat)
    requires Rising(s) && c < |s|
    ensures Rising(RemoveAt(s, c))
  {
    var rest := RemoveAt(s, c);
    forall a: nat, b: nat | a < b < |rest| ensures RisesAt(rest, a, b) {
      assert RisesAt(s, if a < c then a else a + 1, if b < c then b else b + 1);
    }
  }

  /** Moving one element back spoils a rising list, unless it was the last. */
  lemma MovedRisesIff(s: seq<nat>, c: nat, k: nat)
    requires Rising(s) && c < |s| && k > 0
    ensures Rising(MoveBack(s, c, k)) <==> c == |s| - 1
  {
    var t := ShiftTarget(c, k, |s|);
    var moved := MoveBack(s, c, k);
    if c == |s| - 1 {
      assert moved == s;
    } else {
      MovedFrom(s, c, k, t - 1);
      MovedFrom(s, c, k, t);
      assert RisesAt(s, c, t);
      assert !RisesAt(moved, t - 1, t);
    }
  }

  /** A newcomer spoils a rising line iff the slack lets it overtake somebody. */
  lemma NewcomerRisesIff(rows: Rows, restaurantId: Id, e: EntryProps)
    requires ByArrival(rows + [e]) && WaitingAt(restaurantId)(e) && WaitingRowsArePlaced(rows)
    requires e.position == Some(|LineOf(rows, restaurantId)| + 1) && Rising(LineOf(rows, restaurantId))
    ensures Rising(LineOf(rows + [e], restaurantId)) <==> Slack(rows, restaurantId) <= 1
  {
    var line := LineOf(rows, restaurantId);
    var after := LineOf(rows + [e], restaurantId);
    var j := UpTo(rows, line, e.position.value);
    assert j == |line| <==> Slack(rows, restaurantId) <= 1 by {
      ArrivalOfFirst(rows, e);
      ReachOf(rows, restaurantId, j);
    }
    assert after == InsertAt<nat>(line, j, |rows|) by { LineWithNewcomer(rows, restaurantId, e); }
    InsertedRisesIff(line, j, |rows|);
  }

  lemma InsertedRisesIff(s: seq<nat>, j: nat, x: nat)
    requires Rising(s) && j <= |s| && forall a :: 0 <= a < |s| ==> s[a] < x
    ensures Rising(InsertAt<nat>(s, j, x)) <==> j == |s|
  {
    if j == |s| {
      assert InsertAt<nat>(s, j, x) == s + [x];
      AppendRises(s, x);
    } else {
      assert !RisesAt(InsertAt<nat>(s, j, x), j, j + 1);
    }
  }

  /** Is it a shift of the last party in line, which moves nobody? */
  ghost predicate ShiftsTheLast(rows: Rows, step: Step) {
    IsShift(step)
    && var line := LineOf(rows, step.restaurantId);
    line != [] && Find(rows, step.restaurantId, step.queueEntryId) == Some(line[|line| - 1])
  }

  /** The calls that take a line out of the order of arrival. */
  ghost predicate Disorders(rows: Rows, step: Step) {
    if step.Register? then Slack(rows, RestaurantOf(step)) > 1
    else IsShift(step) && !ShiftsTheLast(rows, step)
  }

  lemma RisingAfter(env: Env, s: Store, step: Step, clock: Time, now: Time)
    requires Ready(s, step, clock, now) && Apply(env, s, step, now).result.Success?
    requires Rising(LineOf(s.rows, RestaurantOf(step)))
    ensures Rising(LineOf(Apply(env, s, step, now).store.rows, RestaurantOf(step))) <==> !Disorders(s.rows, step)
  {
    if step.Register? {
      ReadyStep(env, s, step, clock, now);
      RegistrationAppends(env, s, step, now);
      LineTotals(s.rows, RestaurantOf(step));
      NewcomerRisesIff(s.rows, RestaurantOf(step), NewEntry(env, s.rows, step.request, step.newId, now));
    } else {
      var slot := StepEffect(env, s, step, now);
      RisingOfRowsAfter(env, s.rows, step, slot, now);
    }
  }

  lemma RisingOfRowsAfter(env: Env, rows: Rows, step: Step, slot: nat, now: Time)
    requires ByArrival(rows) && WellFormed(step)
    requires !step.Register? && slot < |rows| && WaitingAt(step.restaurantId)(rows[slot])
    requires Find(rows, step.restaurantId, step.queueEntryId) == Some(slot)
    requires Rising(LineOf(rows, step.restaurantId))
    ensures Rising(LineOf(RowsAfter(env, rows, step, slot, now), step.restaurantId)) <==> !Disorders(rows, step)
  {
    var line := LineOf(rows, step.restaurantId);
    assert slot in line;
    var c := PlaceOf<nat>(line, slot);
    LineOfRowsAfter(env, rows, step, slot, now);
    if IsShift(step) {
      PlaceInLine(line, |line| - 1);
      MovedRisesIff(line, c, step.skipPositions.value);
    } else if !step.Ring? {
      RemovalRises(line, c);
    }
  }

  /** Did the j-th call take the line of the restaurant out of the order of arrival? */
  ghost predicate DisordersAt(run: History, j: nat, restaurantId: Id)
    requires j < |run.events|
  {
    RestaurantOf(run.events[j].step) == restaurantId && run.results[j].Success?
    && Disorders(run.states[j].rows, run.events[j].step)
  }

  /** None of the first k calls shifted a party other than the last, or let a newcomer overtake. */
  ghost predicate KeepsArrivalOrder(run: History, k: nat, restaurantId: Id)
    requires k <= |run.events|
  {
    forall j: nat :: j < k ==> !DisordersAt(run, j, restaurantId)
  }

  lemma CallAtKeepsRising(run: History, k: nat, restaurantId: Id)
    requires 0 < k <= |run.events| && !DisordersAt(run, k - 1, restaurantId)
    requires Rising(LineOf(run.states[k - 1].rows, restaurantId))
    ensures Rising(LineOf(run.states[k].rows, restaurantId))
  {
    var s, step, clock, now := run.states[k - 1], run.events[k - 1].step, ClockAt(run, k - 1), run.events[k - 1].at;
    assert Ready(s, step, clock, now) by { RunIsReady(run, k - 1); }
    CallAt(run, k);
    if restaurantId != RestaurantOf(step) || run.results[k - 1].Failure? {
      OtherLinesAfter(run.env, s, step, clock, now, restaurantId);
    } else {
      RisingAfter(run.env, s, step, clock, now);
    }
  }

  lemma {:induction false} RunKeepsRising(run: History, k: nat, restaurantId: Id)
    requires k <= |run.events| && KeepsArrivalOrder(run, k, restaurantId)
    ensures Rising(LineOf(run.states[k].rows, restaurantId))
  {
    if k > 0 {
      assert !DisordersAt(run, k - 1, restaurantId);
      RunKeepsRising(run, k - 1, restaurantId);
      CallAtKeepsRising(run, k, restaurantId);
    }
  }

  /** In a run without shifts at the restaurant in which nobody overtakes, the order of arrival is kept. */
  lemma OnlyShiftsAndOvertakingDisorder(run: History, k: nat, restaurantId: Id)
    requires k <= |run.events| && NobodyOvertakes(run, k, restaurantId)
    requires forall j: nat :: j < k ==> !ShiftsAt(run, j, restaurantId)
    ensures KeepsArrivalOrder(run, k, restaurantId)
  {
    forall j: nat | j < k ensures !DisordersAt(run, j, restaurantId) {
      assert !OvertakesAt(run, j, restaurantId) && !ShiftsAt(run, j, restaurantId);
    }
  }

  /**
   * As long as nobody but the last in line is shifted at a restaurant and no newcomer overtakes, the
   * staff see the stored line, which is in order of arrival. If no tables have been assigned since
   * the last renumbering, the numbers they see, 1 to totalWaiting, are the stored positions.
   */
  lemma StaffSeesStoredPositions(run: History, k: nat, restaurantId: Id)
    requires k <= |run.events| && KeepsArrivalOrder(run, k, restaurantId)
    ensures var rows := run.states[k].rows;
            var shown := Snapshot(rows, restaurantId, WAITING, ALL);
            && shown == LineOf(rows, restaurantId)
            && |shown| == Count(rows, WaitingAt(restaurantId))
            && (forall a, b :: 0 <= a < b < |shown| ==> rows[shown[a]].joinedAt < rows[shown[b]].joinedAt)
            && (AssignedSince(run, k, restaurantId) == 0 ==>
                  forall j :: 0 <= j < |shown| ==> rows[shown[j]].position == Some(j + 1))
  {
    var rows := run.states[k].rows;
    var line := LineOf(rows, restaurantId);
    assert ByArrival(rows) by { RunRowsOk(run, k); }
    assert Rising(line) by { RunKeepsRising(run, k, restaurantId); }
    RisingLineIsShown(rows, restaurantId);
    LineTotals(rows, restaurantId);
    forall a: nat, b: nat | a < b < |line| ensures rows[line[a]].joinedAt < rows[line[b]].joinedAt {
      assert RisesAt(line, a, b);
      assert JoinedBefore(rows, line[a], line[b]);
    }
    if AssignedSince(run, k, restaurantId) == 0 { RecalculatingFindsNothing(run, k, restaurantId, ClockAt(run, k)); }
  }

  // ---------------------------------------------------------------- when view and line part

  /**
   * From a state where the staff's view shows the stored line, a successful call parts the two iff
   * it shifts a party other than the last, or registers one where the slack exceeds one.
   */
  lemma ViewPartsIff(env: Env, s: Store, step: Step, clock: Time, now: Time)
    requires Ready(s, step, clock, now) && Apply(env, s, step, now).result.Success?
    requires Snapshot(s.rows, RestaurantOf(step), WAITING, ALL) == LineOf(s.rows, RestaurantOf(step))
    ensures var after := Apply(env, s, step, now).store.rows;
            Snapshot(after, RestaurantOf(step), WAITING, ALL) != LineOf(after, RestaurantOf(step))
            <==> if step.Register? then Slack(s.rows, RestaurantOf(step)) > 1
                 else IsShift(step) && !ShiftsTheLast(s.rows, step)
  {
    ReadyStep(env, s, step, clock, now);
    ViewIsLineIffRising(s.rows, RestaurantOf(step));
    ViewIsLineIffRising(Apply(env, s, step, now).store.rows, RestaurantOf(step));
    RisingAfter(env, s, step, clock, now);
  }

  /** A shift moves its party in the stored line and leaves the staff's view as it was. */
  lemma ShiftKeepsView(env: Env, s: Store, step: Step, clock: Time, now: Time, bucket: PartySizeBucket)
    requires Ready(s, step, clock, now) && IsShift(step)
    ensures Snapshot(Apply(env, s, step, now).store.rows, step.restaurantId, WAITING, bucket)
            == Snapshot(s.rows, step.restaurantId, WAITING, bucket)
    ensures Apply(env, s, step, now).result.Success? ==>
              var slot := SlotOfStep(s.rows, step);
              && slot.Some? && WaitingAt(step.restaurantId)(s.rows[slot.value])
              && LineOf(Apply(env, s, step, now).store.rows, step.restaurantId)
                 == ShiftedLine(s.rows, step.restaurantId, slot.value, step.skipPositions.value)
  {
    if Apply(env, s, step, now).result.Failure? {
      FailedCallsStutter(env, s, step, now);
    } else {
      OwnLineAfter(env, s, step, clock, now);
      ViewAfterShift(env, s, step, clock, now, bucket);
    }
  }

  lemma ViewAfterShift(env: Env, s: Store, step: Step, clock: Time, now: Time, bucket: PartySizeBucket)
    requires Ready(s, step, clock, now) && IsShift(step) && Apply(env, s, step, now).result.Success?
    ensures Snapshot(Apply(env, s, step, now).store.rows, step.restaurantId, WAITING, bucket)
            == Snapshot(s.rows, step.restaurantId, WAITING, bucket)
  {
    ReadyStep(env, s, step, clock, now);
    StatusesAfter(env, s, step, now);
    ViewOfNext(s.rows, Apply(env, s, step, now).store.rows, now, step.restaurantId, bucket);
  }

  /** The view does not depend on positions. */
  lemma ViewOfNext(rows: Rows, after: Rows, now: Time, restaurantId: Id, bucket: PartySizeBucket)
    requires Next(rows, after, now) && |after| == |rows| && ByArrival(rows) && ByArrival(after)
    requires forall i :: 0 <= i < |rows| ==> after[i].status == rows[i].status
    ensures Snapshot(after, restaurantId, WAITING, bucket) == Snapshot(rows, restaurantId, WAITING, bucket)
  {
    var p := InView(restaurantId, WAITING, bucket);
    forall i | 0 <= i < |rows| ensures p(rows[i]) == p(after[i]) {
      assert Evolves(rows[i], after[i], now);
    }
    SelectAgrees(rows, after, p);
    SnapshotIsSelection(rows, restaurantId, WAITING, bucket);
    SnapshotIsSelection(after, restaurantId, WAITING, bucket);
  }

  // ---------------------------------------------------------------- buckets

  function Filter(rows: Rows, slots: seq<nat>, p: EntryProps -> bool): (kept: seq<nat>)
    requires InTable(rows, slots)
  {
    if slots == [] then []
    else
      var n := |slots| - 1;
      Filter(rows, slots[..n], p) + if p(rows[slots[n]]) then [slots[n]] else []
  }

  lemma {:induction false} FilterOfPrefix(rows: Rows, other: Rows, slots: seq<nat>, p: EntryProps -> bool)
    requires InTable(rows, slots) && rows <= other
    ensures InTable(other, slots) && Filter(other, slots, p) == Filter(rows, slots, p)
  {
    if slots != [] { FilterOfPrefix(rows, other, slots[..|slots| - 1], p); }
  }

  /** Selecting with a sharper filter is filtering the selection. */
  lemma {:induction false} SelectThenFilter(rows: Rows, p: EntryProps -> bool, q: EntryProps -> bool,
                                            both: EntryProps -> bool)
    requires forall i :: 0 <= i < |rows| ==> both(rows[i]) == (p(rows[i]) && q(rows[i]))
    ensures Select(rows, both) == Filter(rows, Select(rows, p), q)
  {
    if rows != [] {
      var n := |rows| - 1;
      var init := Select(rows[..n], p);
      SelectThenFilter(rows[..n], p, q, both);
      FilterOfPrefix(rows[..n], rows, init, q);
      if p(rows[n]) { assert Select(rows, p)[..|init|] == init; }
    }
  }

  function OfSize(bucket: PartySizeBucket): EntryProps -> bool {
    (e: EntryProps) => InBucket(bucket, e.partySize)
  }

  /** Small, medium or large, and no two of them. */
  predicate InOneBucket(size: nat) {
    && (InBucket(SMALL, size) || InBucket(MEDIUM, size) || InBucket(LARGE, size))
    && !(InBucket(SMALL, size) && InBucket(MEDIUM, size))
    && !(InBucket(MEDIUM, size) && InBucket(LARGE, size))
    && !(InBucket(SMALL, size) && InBucket(LARGE, size))
  }

  /**
   * In every reachable store, each bucket's view is the unfiltered view with the other buckets'
   * parties left out, and every party of the unfiltered view is in exactly one bucket.
   */
  lemma BucketsPartitionTheView(run: History, k: nat, restaurantId: Id, status: QueueStatus)
    requires k <= |run.events|
    ensures var rows := run.states[k].rows;
            var all := Snapshot(rows, restaurantId, status, ALL);
            && (forall bucket :: Snapshot(rows, restaurantId, status, bucket) == Filter(rows, all, OfSize(bucket)))
            && forall j :: 0 <= j < |all| ==> InOneBucket(rows[all[j]].partySize)
  {
    var rows := run.states[k].rows;
    assert RowsOk(rows, ClockAt(run, k)) by { RunRowsOk(run, k); }
    forall bucket: PartySizeBucket
      ensures Snapshot(rows, restaurantId, status, bucket)
              == Filter(rows, Snapshot(rows, restaurantId, status, ALL), OfSize(bucket))
    {
      BucketIsFiltered(rows, restaurantId, status, bucket);
    }
    var all := Snapshot(rows, restaurantId, status, ALL);
    forall j | 0 <= j < |all| ensures InOneBucket(rows[all[j]].partySize) {
      assert RowOk(rows[all[j]], ClockAt(run, k));
    }
  }

  lemma BucketIsFiltered(rows: Rows, restaurantId: Id, status: QueueStatus, bucket: PartySizeBucket)
    requires ByArrival(rows)
    ensures Snapshot(rows, restaurantId, status, bucket)
            == Filter(rows, Snapshot(rows, restaurantId, status, ALL), OfSize(bucket))
  {
    SnapshotIsSelection(rows, restaurantId, status, ALL);
    SnapshotIsSelection(rows, restaurantId, status, bucket);
    SelectThenFilter(rows, InView(restaurantId, status, ALL), OfSize(bucket), InView(restaurantId, status, bucket));
  }

  /** In every reachable store the staff see a table next to a party iff it is seated. */
  lemma TableShownIffSeated(run: History, k: nat, i: nat)
    requires k <= |run.events| && i < |run.states[k].rows|
    ensures var s := run.states[k];
            LatestTable(s.assignments, s.rows[i].id).Some? <==> s.rows[i].status.SEATED?
  {
    TablesTrackSeating(run, k, i);
  }
}
