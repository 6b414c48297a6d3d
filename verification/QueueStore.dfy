/** The stored state: queue rows, audit history, table assignments and the live cache. */
module QueueStore {
  import opened QueueTypes
  import opened QueueLine

  datatype Store = Store(
    rows: Rows,
    history: seq<StatusChange>,
    assignments: seq<TableAssignment>,
    live: map<Id, LiveEntry>
  )

  const EMPTY_STORE := Store([], [], [], map[])

  /** JavaScript truthiness of an optional string. */
  predicate Truthy(s: Option<string>) {
    s.Some? && s.value != ""
  }

  function HasPhone(restaurantId: Id, phone: string): EntryProps -> bool {
    (e: EntryProps) => e.restaurantId == restaurantId && e.phone == phone && e.status.WAITING?
  }

  function HasUser(userId: Id): EntryProps -> bool {
    (e: EntryProps) => e.userId == Some(userId) && e.status.WAITING?
  }

  function HasUserAt(restaurantId: Id, userId: Id): EntryProps -> bool {
    (e: EntryProps) => e.restaurantId == restaurantId && e.userId == Some(userId) && e.status.WAITING?
  }

  function CreatedSince(restaurantId: Id, start: Time): EntryProps -> bool {
    (e: EntryProps) => e.restaurantId == restaurantId && e.createdAt >= start
  }

  /** The WHERE clause of the retrospective query: was the party in line just before `joinedAt`? */
  function AheadAtJoin(restaurantId: Id, joinedAt: Time): EntryProps -> bool {
    (e: EntryProps) =>
      && e.restaurantId == restaurantId
      && e.joinedAt < joinedAt
      && (e.seatedAt.None? || e.seatedAt.value > joinedAt)
      && !((e.status.CANCELLED? || e.status.NO_SHOW? || e.status.SKIPPED?) && e.updatedAt <= joinedAt)
  }

  function PeopleAheadAtJoin(rows: Rows, restaurantId: Id, joinedAt: Time): nat {
    Sum(rows, AheadAtJoin(restaurantId, joinedAt))
  }

  /** The latest arrival among the rows that meet `p`. */
  function LatestOf(rows: Rows, p: EntryProps -> bool): (slot: Option<nat>)
    ensures slot.Some? ==> slot.value < |rows| && p(rows[slot.value])
    ensures slot.None? ==> forall i :: 0 <= i < |rows| ==> !p(rows[i])
  {
    var sorted := Sort(JOINED, rows, Select(rows, p));
    assert forall i: nat :: i < |rows| && p(rows[i]) ==> i in Select(rows, p) && i in sorted;
    if sorted == [] then None
    else
      assert sorted[|sorted| - 1] in sorted;
      Some(sorted[|sorted| - 1])
  }

  function ActiveByUser(rows: Rows, userId: Id): Option<nat> {
    LatestOf(rows, HasUser(userId))
  }

  function ActiveByUserAndRestaurant(rows: Rows, restaurantId: Id, userId: Id): Option<nat> {
    LatestOf(rows, HasUserAt(restaurantId, userId))
  }

  function HistoryOf(history: seq<StatusChange>, id: Id): seq<StatusChange> {
    if history == [] then []
    else
      var n := |history| - 1;
      HistoryOf(history[..n], id) + if history[n].queueEntryId == id then [history[n]] else []
  }

  /** The tables a party holds: its assignments without a release time. */
  function ActiveAssignments(assignments: seq<TableAssignment>, id: Id): seq<TableAssignment> {
    if assignments == [] then []
    else
      var n := |assignments| - 1;
      var a := assignments[n];
      ActiveAssignments(assignments[..n], id)
      + if a.queueEntryId == id && a.releasedAt.None? then [a] else []
  }

  /** The rows a table assignment adds. */
  function NewAssignments(id: Id, tableIds: seq<Id>, assignedBy: string, now: Time): seq<TableAssignment> {
    seq(|tableIds|, k requires 0 <= k < |tableIds| => TableAssignment(id, tableIds[k], assignedBy, now, None))
  }

  function Released(assignments: seq<TableAssignment>, id: Id, now: Time): seq<TableAssignment> {
    seq(|assignments|, k requires 0 <= k < |assignments| =>
      var a := assignments[k];
      if a.queueEntryId == id && a.releasedAt.None? then a.(releasedAt := Some(now)) else a)
  }

  /** UPDATE by primary key: every column of one row. */
  function WriteRow(rows: Rows, e: EntryProps): Rows {
    var slot := SlotOf(rows, e.id);
    if slot.Some? then rows[slot.value := e] else rows
  }

  /** What the creating transaction finds against a row: the user waits, the phone waits, or the id is taken. */
  function CreationObjection(rows: Rows, e: EntryProps): Option<QueueError> {
    if Truthy(e.userId) && Select(rows, HasUser(e.userId.value)) != [] then Some(ActiveUserQueueEntryExists)
    else if Select(rows, HasPhone(e.restaurantId, e.phone)) != [] then Some(ActiveQueueEntryExists(e.phone))
    else if SlotOf(rows, e.id).Some? then Some(PersistenceFailure)
    else None
  }

  /** A transaction that creates a row: both duplicate checks, the row and its first audit record. */
  function CreateWithHistory(s: Store, e: EntryProps, changedBy: string, now: Time): Result<Store> {
    var objection := CreationObjection(s.rows, e);
    if objection.Some? then Failure(objection.value)
    else Success(s.(rows := s.rows + [e],
                    history := s.history + [StatusChange(e.id, None, e.status, changedBy, now)]))
  }

  /** A party leaves the line: the row, its audit record, its tables and its live copy. */
  function Depart(s: Store, slot: nat, e: EntryProps, changedBy: string, tableIds: seq<Id>, now: Time): Store
    requires slot < |s.rows|
  {
    Store(s.rows[slot := e],
          s.history + [StatusChange(e.id, Some(s.rows[slot].status), e.status, changedBy, now)],
          s.assignments + NewAssignments(e.id, tableIds, changedBy, now),
          s.live - {e.id})
  }

  lemma HistoryOfOneMore(history: seq<StatusChange>, c: StatusChange, id: Id)
    ensures HistoryOf(history + [c], id) ==
            if c.queueEntryId == id then HistoryOf(history, id) + [c] else HistoryOf(history, id)
  {
    assert (history + [c])[..|history|] == history;
  }

  lemma {:induction false} ActiveAssignmentsOfNew(
    assignments: seq<TableAssignment>, other: Id, tableIds: seq<Id>, staff: string, now: Time, id: Id)
    ensures var all := assignments + NewAssignments(other, tableIds, staff, now);
            id != other ==> ActiveAssignments(all, id) == ActiveAssignments(assignments, id)
    ensures var all := assignments + NewAssignments(other, tableIds, staff, now);
            ActiveAssignments(all, other)
            == ActiveAssignments(assignments, other) + NewAssignments(other, tableIds, staff, now)
  {
    var all := assignments + NewAssignments(other, tableIds, staff, now);
    if tableIds == [] {
      assert all == assignments;
    } else {
      var n := |tableIds| - 1;
      assert all[..|all| - 1] == assignments + NewAssignments(other, tableIds[..n], staff, now);
      ActiveAssignmentsOfNew(assignments, other, tableIds[..n], staff, now, id);
    }
  }
}
