/** The service that renumbers what is left of a line, as the delta-writing loops it is. */
module QueuePositionRecalculator {
  import opened QueueTypes
  import opened QueueEntity
  import opened QueueLine
  import opened QueueStore
  import opened Renumbering
  import opened Recalculation
  import opened Reordering
  import opened QueueRepository

  datatype PositionDelta = PositionDelta(
    id: Id,
    oldPosition: Option<int>,
    newPosition: int,
    oldEta: Option<int>,
    newEta: int,
    partySize: nat
  )

  class Recalculator {
    const repository: Repository
    const cache: LiveCache
    const env: Env

    constructor (repository: Repository, cache: LiveCache, env: Env)
      ensures this.repository == repository && this.cache == cache && this.env == env
    {
      this.repository, this.cache, this.env := repository, cache, env;
    }

    /** Everything stored, as one value. */
    ghost function Snapshot(): Store
      reads repository, cache
    {
      Store(repository.rows, repository.history, repository.assignments, cache.live)
    }

    method Recalculate(restaurantId: Id, now: Time) returns (updatedEntryIds: seq<Id>)
      requires UniqueIds(repository.rows)
      modifies repository`rows, cache
      ensures Snapshot() == Recalculated(env, old(Snapshot()), restaurantId, now)
      ensures updatedEntryIds == DirtyIds(env, old(repository.rows), restaurantId)
      ensures UniqueIds(repository.rows)
    {
      RefreshKeepsIds(env, repository.rows, restaurantId, now);
      ghost var rows := repository.rows;
      ghost var line := LineOf(rows, restaurantId);
      var activeEntries := repository.FindActiveEntries(restaurantId);
      if |activeEntries| == 0 {
        NothingDirty(env, rows, restaurantId, now, cache.live);
        return [];
      }

      var predictedEtas := PredictEtas(restaurantId, activeEntries, rows, line);
      var deltas := CollectDeltas(restaurantId, activeEntries, predictedEtas, rows, line, now);
      if |deltas| == 0 {
        NothingDirty(env, rows, restaurantId, now, cache.live);
        return [];
      }
      WriteDeltas(restaurantId, deltas, now);
      updatedEntryIds := IdsOfDeltas(deltas);
    }

    /** The batch write, then the live copies. */
    method WriteDeltas(restaurantId: Id, deltas: seq<PositionDelta>, now: Time)
      requires UniqueIds(repository.rows)
      requires var line := LineOf(repository.rows, restaurantId);
               Deltas(env, repository.rows, restaurantId, line, |line|, deltas)
      modifies repository`rows, cache
      ensures Snapshot() == Recalculated(env, old(Snapshot()), restaurantId, now)
      ensures IdsOfDeltas(deltas) == DirtyIds(env, old(repository.rows), restaurantId)
    {
      ghost var rows := repository.rows;
      WritingCollectedDeltas(env, rows, restaurantId, deltas, now);
      repository.BatchUpdatePositions(UpdatesOf(deltas), now);
      RefreshCache(restaurantId, deltas, rows, LineOf(rows, restaurantId), now);
    }

    /** The prefix sums of the people ahead, and the prediction for each. */
    method PredictEtas(restaurantId: Id, activeEntries: seq<EntryProps>, ghost rows: Rows, ghost line: seq<nat>)
      returns (predictedEtas: seq<nat>)
      requires InTable(rows, line) && |activeEntries| == |line|
      requires forall k :: 0 <= k < |line| ==> activeEntries[k] == rows[line[k]]
      ensures |predictedEtas| == |line|
      ensures forall k :: 0 <= k < |line| ==> predictedEtas[k] == Eta(env, rows, restaurantId, line, k)
    {
      var n := |activeEntries|;
      var peopleAhead: seq<nat> := [];
      var runningPeopleAhead := 0;
      for i := 0 to n
        invariant |peopleAhead| == i
        invariant runningPeopleAhead == People(rows, line[..i])
        invariant forall j :: 0 <= j < i ==> peopleAhead[j] == People(rows, line[..j])
      {
        peopleAhead := peopleAhead + [runningPeopleAhead];
        assert line[..i + 1][..i] == line[..i];
        runningPeopleAhead := runningPeopleAhead + activeEntries[i].partySize;
      }
      predictedEtas := seq<nat>(n, i requires 0 <= i < n =>
        env.predict(restaurantId, peopleAhead[i], activeEntries[i].partySize));
    }

    method CollectDeltas(restaurantId: Id, activeEntries: seq<EntryProps>, predictedEtas: seq<nat>,
                         ghost rows: Rows, ghost line: seq<nat>, now: Time)
      returns (deltas: seq<PositionDelta>)
      requires InTable(rows, line) && |activeEntries| == |predictedEtas| == |line|
      requires forall k :: 0 <= k < |line| ==> activeEntries[k] == rows[line[k]]
      requires forall k :: 0 <= k < |line| ==> predictedEtas[k] == Eta(env, rows, restaurantId, line, k)
      ensures Deltas(env, rows, restaurantId, line, |line|, deltas)
    {
      deltas := [];
      for i := 0 to |activeEntries|
        invariant Deltas(env, rows, restaurantId, line, i, deltas)
      {
        var entry := new QueueEntry(activeEntries[i]);
        ghost var collected := deltas;
        var positionChanged := entry.props.position != Some(i + 1);
        var etaChanged := entry.props.estimatedWaitMinutes != Some(predictedEtas[i]);
        if positionChanged || etaChanged {
          deltas := deltas + [PositionDelta(entry.props.id, entry.props.position, i + 1,
                                            entry.props.estimatedWaitMinutes, predictedEtas[i],
                                            entry.props.partySize)];
          entry.UpdatePosition(i + 1, Some(predictedEtas[i]), now);
          OneMoreDelta(env, rows, restaurantId, line, i, collected, deltas[|collected|]);
        } else {
          NoMoreDelta(env, rows, restaurantId, line, i, deltas);
        }
      }
    }

    method RefreshCache(restaurantId: Id, deltas: seq<PositionDelta>, ghost rows: Rows, ghost line: seq<nat>, now: Time)
      requires InTable(rows, line) && Deltas(env, rows, restaurantId, line, |line|, deltas)
      modifies cache
      ensures cache.live == RefreshLive(env, rows, restaurantId, line, |line|, now, old(cache.live))
    {
      ghost var places := DirtyPlaces(env, rows, restaurantId, line, |line|);
      for m := 0 to |deltas|
        invariant cache.live == SavedLive(env, rows, restaurantId, line, places[..m], now, old(cache.live))
      {
        var d := deltas[m];
        assert places[..m + 1] == places[..m] + [places[m]];
        SavedOneMore(env, rows, restaurantId, line, places[..m], places[m], now, old(cache.live));
        cache.SaveLiveEntry(d.id, restaurantId, d.newPosition, d.newEta, now);
      }
      assert places[..|places|] == places;
      SavedIsRefreshed(env, rows, restaurantId, line, |line|, now, old(cache.live));
    }
  }

  function UpdatesOf(deltas: seq<PositionDelta>): (updates: seq<PositionUpdate>)
    ensures |updates| == |deltas|
  {
    seq(|deltas|, m requires 0 <= m < |deltas| =>
      PositionUpdate(deltas[m].id, deltas[m].newPosition, Some(deltas[m].newEta)))
  }

  function IdsOfDeltas(deltas: seq<PositionDelta>): (ids: seq<Id>)
    ensures |ids| == |deltas|
  {
    seq(|deltas|, m requires 0 <= m < |deltas| => deltas[m].id)
  }

  lemma WritingCollectedDeltas(env: Env, rows: Rows, restaurantId: Id, deltas: seq<PositionDelta>, now: Time)
    requires UniqueIds(rows)
    requires var line := LineOf(rows, restaurantId); Deltas(env, rows, restaurantId, line, |line|, deltas)
    ensures WriteAll(rows, UpdatesOf(deltas), now) == RefreshRows(env, rows, restaurantId, now)
    ensures IdsOfDeltas(deltas) == DirtyIds(env, rows, restaurantId)
  {
    var line := LineOf(rows, restaurantId);
    var places := DirtyPlaces(env, rows, restaurantId, line, |line|);
    forall m | 0 <= m < |places|
      ensures IsDeltaUpdate(env, rows, restaurantId, line, places[m], UpdatesOf(deltas)[m])
      ensures IdsOfDeltas(deltas)[m] == DirtyIds(env, rows, restaurantId)[m]
    {
      assert IsDeltaOf(env, rows, restaurantId, line, places[m], deltas[m]);
    }
    WritingDeltasRefreshes(env, rows, restaurantId, line, |line|, UpdatesOf(deltas), now);
  }

  ghost predicate IsDeltaOf(env: Env, rows: Rows, restaurantId: Id, line: seq<nat>, k: nat, d: PositionDelta)
    requires InTable(rows, line) && k < |line|
  {
    && d.id == rows[line[k]].id
    && d.newPosition == k + 1
    && d.newEta == Eta(env, rows, restaurantId, line, k)
  }

  /** The deltas collected from the first n parties: one per dirty place, with its recomputed values. */
  ghost predicate Deltas(env: Env, rows: Rows, restaurantId: Id, line: seq<nat>, n: nat, deltas: seq<PositionDelta>)
    requires InTable(rows, line) && n <= |line|
  {
    var places := DirtyPlaces(env, rows, restaurantId, line, n);
    && |deltas| == |places|
    && forall m :: 0 <= m < |places| ==> IsDeltaOf(env, rows, restaurantId, line, places[m], deltas[m])
  }

  lemma OneMoreDelta(env: Env, rows: Rows, restaurantId: Id, line: seq<nat>, n: nat, deltas: seq<PositionDelta>,
                     d: PositionDelta)
    requires InTable(rows, line) && n < |line| && Deltas(env, rows, restaurantId, line, n, deltas)
    requires IsDirty(env, rows, restaurantId, line, n) && IsDeltaOf(env, rows, restaurantId, line, n, d)
    ensures Deltas(env, rows, restaurantId, line, n + 1, deltas + [d])
  {
    var places := DirtyPlaces(env, rows, restaurantId, line, n);
    assert DirtyPlaces(env, rows, restaurantId, line, n + 1) == places + [n];
    forall m | 0 <= m < |places + [n]|
      ensures IsDeltaOf(env, rows, restaurantId, line, (places + [n])[m], (deltas + [d])[m])
    {
    }
  }

  lemma NoMoreDelta(env: Env, rows: Rows, restaurantId: Id, line: seq<nat>, n: nat, deltas: seq<PositionDelta>)
    requires InTable(rows, line) && n < |line| && Deltas(env, rows, restaurantId, line, n, deltas)
    requires !IsDirty(env, rows, restaurantId, line, n)
    ensures Deltas(env, rows, restaurantId, line, n + 1, deltas)
  {
    assert DirtyPlaces(env, rows, restaurantId, line, n + 1) == DirtyPlaces(env, rows, restaurantId, line, n);
  }

  /** The cache once the given places have been saved, front to back. */
  ghost function SavedLive(env: Env, rows: Rows, restaurantId: Id, line: seq<nat>, places: seq<nat>, now: Time,
                           live: map<Id, LiveEntry>): map<Id, LiveEntry>
    requires InTable(rows, line) && forall m :: 0 <= m < |places| ==> places[m] < |line|
  {
    if places == [] then live
    else
      var k := places[|places| - 1];
      var id := rows[line[k]].id;
      SavedLive(env, rows, restaurantId, line, places[..|places| - 1], now, live)
        [id := LiveEntry(id, restaurantId, k + 1, Eta(env, rows, restaurantId, line, k), now)]
  }

  lemma SavedOneMore(env: Env, rows: Rows, restaurantId: Id, line: seq<nat>, places: seq<nat>, k: nat, now: Time,
                     live: map<Id, LiveEntry>)
    requires InTable(rows, line) && (forall m :: 0 <= m < |places| ==> places[m] < |line|) && k < |line|
    ensures SavedLive(env, rows, restaurantId, line, places + [k], now, live)
            == SavedLive(env, rows, restaurantId, line, places, now, live)
                 [rows[line[k]].id := LiveEntry(rows[line[k]].id, restaurantId, k + 1,
                                                Eta(env, rows, restaurantId, line, k), now)]
  {
    assert (places + [k])[..|places|] == places;
  }

  lemma {:induction false} SavedIsRefreshed(env: Env, rows: Rows, restaurantId: Id, line: seq<nat>, n: nat, now: Time,
                                            live: map<Id, LiveEntry>)
    requires InTable(rows, line) && n <= |line|
    ensures SavedLive(env, rows, restaurantId, line, DirtyPlaces(env, rows, restaurantId, line, n), now, live)
            == RefreshLive(env, rows, restaurantId, line, n, now, live)
  {
    if n > 0 {
      var init := DirtyPlaces(env, rows, restaurantId, line, n - 1);
      SavedIsRefreshed(env, rows, restaurantId, line, n - 1, now, live);
      if IsDirty(env, rows, restaurantId, line, n - 1) {
        assert DirtyPlaces(env, rows, restaurantId, line, n) == init + [n - 1];
        SavedOneMore(env, rows, restaurantId, line, init, n - 1, now, live);
      }
    }
  }

  lemma NothingDirty(env: Env, rows: Rows, restaurantId: Id, now: Time, live: map<Id, LiveEntry>)
    requires DirtyPlaces(env, rows, restaurantId, LineOf(rows, restaurantId), |LineOf(rows, restaurantId)|) == []
    ensures RefreshRows(env, rows, restaurantId, now) == rows
    ensures RefreshLive(env, rows, restaurantId, LineOf(rows, restaurantId), |LineOf(rows, restaurantId)|, now, live)
            == live
  {
    var line := LineOf(rows, restaurantId);
    forall k: nat | k < |line| ensures !IsDirty(env, rows, restaurantId, line, k) {
      assert k !in DirtyPlaces(env, rows, restaurantId, line, |line|);
    }
    CleanLineStays(env, rows, restaurantId, now);
    SavedIsRefreshed(env, rows, restaurantId, line, |line|, now, live);
  }

  /** The last update of a batch lands on the slot that holds its id. */
  lemma WriteOneMore(rows: Rows, updates: seq<PositionUpdate>, slot: nat, now: Time)
    requires updates != []
    requires var before := WriteAll(rows, updates[..|updates| - 1], now);
             UniqueIds(before) && slot < |before| && before[slot].id == updates[|updates| - 1].id
    ensures var before := WriteAll(rows, updates[..|updates| - 1], now);
            var u := updates[|updates| - 1];
            WriteAll(rows, updates, now)
            == before[slot := Placed(before[slot], u.position, u.estimatedWaitMinutes, now)]
  {
    SlotIs(WriteAll(rows, updates[..|updates| - 1], now), slot);
  }

  ghost predicate IsDeltaUpdate(env: Env, rows: Rows, restaurantId: Id, line: seq<nat>, k: nat, u: PositionUpdate)
    requires InTable(rows, line) && k < |line|
  {
    u == PositionUpdate(rows[line[k]].id, k + 1, Some(Eta(env, rows, restaurantId, line, k)))
  }

  /** Writing the deltas of the first n parties is refreshing their rows. */
  lemma {:induction false} WritingDeltasRefreshes(env: Env, rows: Rows, restaurantId: Id, line: seq<nat>, n: nat,
                                                  updates: seq<PositionUpdate>, now: Time)
    requires UniqueIds(rows) && InTable(rows, line) && NoRepeats(line) && n <= |line|
    requires var places := DirtyPlaces(env, rows, restaurantId, line, n);
             && |updates| == |places|
             && forall m :: 0 <= m < |places| ==>
                  IsDeltaUpdate(env, rows, restaurantId, line, places[m], updates[m])
    ensures WriteAll(rows, updates, now) == RefreshFirst(env, rows, restaurantId, line, n, now)
  {
    if n > 0 {
      var before := RefreshFirst(env, rows, restaurantId, line, n - 1, now);
      forall k: nat | k < n - 1 ensures line[k] != line[n - 1] { assert DifferAt(line, k, n - 1); }
      UntouchedByRefresh(env, rows, restaurantId, line, n - 1, now, line[n - 1]);
      if IsDirty(env, rows, restaurantId, line, n - 1) {
        var m := |updates| - 1;
        WritingDeltasRefreshes(env, rows, restaurantId, line, n - 1, updates[..m], now);
        RefreshFirstKeepsIds(env, rows, restaurantId, line, n - 1, now);
        SameIds(rows, before);
        WriteOneMore(rows, updates, line[n - 1], now);
        assert IsDeltaUpdate(env, rows, restaurantId, line, n - 1, updates[m]);
      } else {
        WritingDeltasRefreshes(env, rows, restaurantId, line, n - 1, updates, now);
      }
    }
  }

  lemma {:induction false} RefreshFirstKeepsIds(env: Env, rows: Rows, restaurantId: Id, line: seq<nat>, n: nat,
                                                now: Time)
    requires InTable(rows, line) && n <= |line|
    ensures forall i :: 0 <= i < |rows| ==>
              RefreshFirst(env, rows, restaurantId, line, n, now)[i].id == rows[i].id
  {
    if n > 0 { RefreshFirstKeepsIds(env, rows, restaurantId, line, n - 1, now); }
  }

  /** Writing the first n slots of an order back gives them the positions 1..n. */
  lemma {:induction false} WritingOrderPlaces(rows: Rows, order: seq<nat>, n: nat, updates: seq<PositionUpdate>,
                                              now: Time)
    requires UniqueIds(rows) && InTable(rows, order) && NoRepeats(order) && n == |updates| <= |order|
    requires forall k :: 0 <= k < n ==> updates[k] == PositionUpdate(rows[order[k]].id, k + 1, None)
    ensures WriteAll(rows, updates, now) == PlaceFirst(rows, order, n, now)
  {
    if n > 0 {
      WritingOrderPlaces(rows, order, n - 1, updates[..n - 1], now);
      forall k: nat | k < n - 1 ensures order[k] != order[n - 1] { assert DifferAt(order, k, n - 1); }
      UntouchedByPlacing(rows, order, n - 1, now, order[n - 1]);
      PlaceFirstKeepsIds(rows, order, n - 1, now);
      SameIds(rows, PlaceFirst(rows, order, n - 1, now));
      WriteOneMore(rows, updates, order[n - 1], now);
    }
  }
}
