/** The tables behind the queue, and the live cache beside them. */
module QueueRepository {
  import opened QueueTypes
  import opened QueueEntity
  import opened QueueLine
  import opened QueueStore

  /** One entry of a batch write; a missing estimate is left alone. */
  datatype PositionUpdate = PositionUpdate(id: Id, position: int, estimatedWaitMinutes: Option<int>)

  /** A batch write, one UPDATE by primary key after the other. */
  function WriteAll(rows: Rows, updates: seq<PositionUpdate>, now: Time): Rows {
    if updates == [] then rows
    else
      var u := updates[|updates| - 1];
      var before := WriteAll(rows, updates[..|updates| - 1], now);
      var slot := SlotOf(before, u.id);
      if slot.None? then before
      else before[slot.value := Placed(before[slot.value], u.position, u.estimatedWaitMinutes, now)]
  }

  class Repository {
    var rows: Rows
    var history: seq<StatusChange>
    var assignments: seq<TableAssignment>

    constructor ()
      ensures rows == [] && history == [] && assignments == []
    {
      rows, history, assignments := [], [], [];
    }

    method FindById(id: Id) returns (entry: QueueEntry?)
      ensures entry == null <==> SlotOf(rows, id).None?
      ensures entry != null ==> fresh(entry) && entry.props == rows[SlotOf(rows, id).value]
    {
      var slot := SlotOf(rows, id);
      if slot.None? {
        return null;
      }
      entry := new QueueEntry(rows[slot.value]);
    }

    /** The WAITING rows of a restaurant, by position and then by arrival. */
    method FindActiveEntries(restaurantId: Id) returns (entries: seq<EntryProps>)
      ensures var line := LineOf(rows, restaurantId);
              |entries| == |line| && forall k :: 0 <= k < |line| ==> entries[k] == rows[line[k]]
    {
      var line := LineOf(rows, restaurantId);
      var table := rows;
      entries := seq(|line|, k requires 0 <= k < |line| => table[line[k]]);
    }

    method CreateWithHistory(entry: QueueEntry, changedBy: string, now: Time) returns (error: Option<QueueError>)
      modifies this
      ensures error == CreationObjection(old(rows), entry.props)
      ensures error.Some? ==> rows == old(rows) && history == old(history)
      ensures error.None? ==>
                && rows == old(rows) + [entry.props]
                && history == old(history) + [StatusChange(entry.props.id, None, entry.props.status, changedBy, now)]
      ensures assignments == old(assignments)
      ensures UniqueIds(old(rows)) ==> UniqueIds(rows)
    {
      var e := entry.props;
      if Truthy(e.userId) {
        var existingUser := Select(rows, HasUser(e.userId.value));
        if existingUser != [] {
          return Some(ActiveUserQueueEntryExists);
        }
      }
      var existingPhone := Select(rows, HasPhone(e.restaurantId, e.phone));
      if existingPhone != [] {
        return Some(ActiveQueueEntryExists(e.phone));
      }
      if SlotOf(rows, e.id).Some? {
        return Some(PersistenceFailure);
      }
      if UniqueIds(rows) { AppendKeepsIds(rows, e); }
      rows := rows + [e];
      history := history + [StatusChange(e.id, None, e.status, changedBy, now)];
      return None;
    }

    method AssignTablesWithHistory(entry: QueueEntry, tableIds: seq<Id>, assignedBy: string,
                                   previousStatus: QueueStatus, now: Time)
      modifies this
      ensures rows == WriteRow(old(rows), entry.props)
      ensures UniqueIds(old(rows)) ==> UniqueIds(rows)
      ensures assignments == old(assignments) + NewAssignments(entry.props.id, tableIds, assignedBy, now)
      ensures history == old(history) + [StatusChange(entry.props.id, Some(previousStatus), entry.props.status,
                                                      assignedBy, now)]
    {
      assignments := assignments + NewAssignments(entry.props.id, tableIds, assignedBy, now);
      if UniqueIds(rows) { WritingKeepsIds(rows, entry.props); }
      rows := WriteRow(rows, entry.props);
      history := history + [StatusChange(entry.props.id, Some(previousStatus), entry.props.status, assignedBy, now)];
    }

    method UpdateStatusWithHistory(entry: QueueEntry, previousStatus: QueueStatus, changedBy: string, now: Time)
      modifies this`rows, this`history
      ensures rows == WriteRow(old(rows), entry.props)
      ensures UniqueIds(old(rows)) ==> UniqueIds(rows)
      ensures history == old(history) + [StatusChange(entry.props.id, Some(previousStatus), entry.props.status,
                                                      changedBy, now)]
    {
      if UniqueIds(rows) { WritingKeepsIds(rows, entry.props); }
      rows := WriteRow(rows, entry.props);
      history := history + [StatusChange(entry.props.id, Some(previousStatus), entry.props.status, changedBy, now)];
    }

    method ReleaseTableAssignments(id: Id, now: Time)
      modifies this`assignments
      ensures assignments == Released(old(assignments), id, now)
    {
      assignments := Released(assignments, id, now);
    }

    /** An upsert; an existing row keeps its creation time. */
    method Save(entry: QueueEntry)
      modifies this`rows
      ensures var slot := SlotOf(old(rows), entry.props.id);
              rows == if slot.None? then old(rows) + [entry.props]
                      else old(rows)[slot.value := entry.props.(createdAt := old(rows)[slot.value].createdAt)]
      ensures UniqueIds(old(rows)) ==> UniqueIds(rows)
    {
      var slot := SlotOf(rows, entry.props.id);
      if slot.None? {
        if UniqueIds(rows) { AppendKeepsIds(rows, entry.props); }
        rows := rows + [entry.props];
      } else {
        if UniqueIds(rows) { SameIds(rows, rows[slot.value := entry.props.(createdAt := rows[slot.value].createdAt)]); }
        rows := rows[slot.value := entry.props.(createdAt := rows[slot.value].createdAt)];
      }
    }

    method BatchUpdatePositions(updates: seq<PositionUpdate>, now: Time)
      modifies this`rows
      ensures rows == WriteAll(old(rows), updates, now)
    {
      for k := 0 to |updates|
        invariant rows == WriteAll(old(rows), updates[..k], now)
      {
        var u := updates[k];
        assert updates[..k + 1][..k] == updates[..k];
        var slot := SlotOf(rows, u.id);
        if slot.Some? {
          rows := rows[slot.value := Placed(rows[slot.value], u.position, u.estimatedWaitMinutes, now)];
        }
      }
      assert updates[..|updates|] == updates;
    }
  }

  class LiveCache {
    var live: map<Id, LiveEntry>

    constructor ()
      ensures live == map[]
    {
      live := map[];
    }

    method SaveLiveEntry(id: Id, restaurantId: Id, position: int, currentEta: int, now: Time)
      modifies this
      ensures live == old(live)[id := LiveEntry(id, restaurantId, position, currentEta, now)]
    {
      live := live[id := LiveEntry(id, restaurantId, position, currentEta, now)];
    }

    method RemoveLiveEntry(id: Id)
      modifies this
      ensures live == old(live) - {id}
    {
      live := live - {id};
    }
  }

  lemma AppendKeepsIds(rows: Rows, e: EntryProps)
    requires UniqueIds(rows) && SlotOf(rows, e.id).None?
    ensures UniqueIds(rows + [e])
  {
    forall i: nat, j: nat | i < j < |rows + [e]| ensures DistinctIds(rows + [e], i, j) {
      if j < |rows| { assert DistinctIds(rows, i, j); }
    }
  }

  lemma WritingKeepsIds(rows: Rows, e: EntryProps)
    requires UniqueIds(rows)
    ensures UniqueIds(WriteRow(rows, e))
  {
    SameIds(rows, WriteRow(rows, e));
  }

  lemma SlotIs(rows: Rows, i: nat)
    requires UniqueIds(rows) && i < |rows|
    ensures SlotOf(rows, rows[i].id) == Some(i)
  {
    SameIdSameSlot(rows, SlotOf(rows, rows[i].id).value, i);
  }
}
