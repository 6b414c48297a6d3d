/** What a recalculation promises: it is a full rewrite of the line, written as a list of deltas. */
module Recalculation {
  import opened QueueTypes
  import opened QueueEntity
  import opened QueueLine
  import opened Renumbering

  lemma PlaceInLine(line: seq<nat>, k: nat)
    requires NoRepeats(line) && k < |line|
    ensures PlaceOf(line, line[k]) == k
  {
    SameValueSamePlace(line, PlaceOf(line, line[k]), k);
  }

  lemma {:induction false} RefreshedFirstAt(env: Env, rows: Rows, restaurantId: Id, line: seq<nat>, n: nat, now: Time,
                                            k: nat)
    requires InTable(rows, line) && NoRepeats(line) && k < n <= |line|
    ensures RefreshFirst(env, rows, restaurantId, line, n, now)[line[k]]
            == Refreshed(env, rows, restaurantId, line, k, now)
  {
    if k < n - 1 {
      assert DifferAt(line, k, n - 1);
      RefreshedFirstAt(env, rows, restaurantId, line, n - 1, now, k);
    }
  }

  lemma {:induction false} UntouchedByRefresh(env: Env, rows: Rows, restaurantId: Id, line: seq<nat>, n: nat, now: Time,
                                              i: nat)
    requires InTable(rows, line) && n <= |line| && i < |rows|
    requires forall k :: 0 <= k < n ==> line[k] != i
    ensures RefreshFirst(env, rows, restaurantId, line, n, now)[i] == rows[i]
  {
    if n > 0 { UntouchedByRefresh(env, rows, restaurantId, line, n - 1, now, i); }
  }

  lemma RefreshedAt(env: Env, rows: Rows, restaurantId: Id, now: Time, k: nat)
    requires k < |LineOf(rows, restaurantId)|
    ensures var line := LineOf(rows, restaurantId);
            RefreshRows(env, rows, restaurantId, now)[line[k]] == Refreshed(env, rows, restaurantId, line, k, now)
  {
    var line := LineOf(rows, restaurantId);
    RefreshedFirstAt(env, rows, restaurantId, line, |line|, now, k);
  }

  lemma NotRefreshed(env: Env, rows: Rows, restaurantId: Id, now: Time, i: nat)
    requires i < |rows| && !WaitingAt(restaurantId)(rows[i])
    ensures RefreshRows(env, rows, restaurantId, now)[i] == rows[i]
  {
    var line := LineOf(rows, restaurantId);
    forall k | 0 <= k < |line| ensures line[k] != i { assert line[k] in line; }
    UntouchedByRefresh(env, rows, restaurantId, line, |line|, now, i);
  }

  /** The recomputed row of every party in line; every other row stays as it is. */
  lemma RefreshedRows(env: Env, rows: Rows, restaurantId: Id, now: Time)
    ensures var line := LineOf(rows, restaurantId);
            var after := RefreshRows(env, rows, restaurantId, now);
            && |after| == |rows|
            && (forall k :: 0 <= k < |line| ==> after[line[k]] == Refreshed(env, rows, restaurantId, line, k, now))
            && (forall i: nat :: i < |rows| && !WaitingAt(restaurantId)(rows[i]) ==> after[i] == rows[i])
  {
    var line := LineOf(rows, restaurantId);
    forall i: nat | i < |rows| && !WaitingAt(restaurantId)(rows[i])
      ensures RefreshRows(env, rows, restaurantId, now)[i] == rows[i]
    {
      NotRefreshed(env, rows, restaurantId, now, i);
    }
    forall k | 0 <= k < |line|
      ensures RefreshRows(env, rows, restaurantId, now)[line[k]]
              == Refreshed(env, rows, restaurantId, line, k, now)
    {
      RefreshedAt(env, rows, restaurantId, now, k);
    }
  }

  /** Every row is either refreshed at its place in line or left alone. */
  lemma PlaceOrNotWaiting(rows: Rows, restaurantId: Id, i: nat) returns (k: int)
    requires i < |rows|
    ensures var line := LineOf(rows, restaurantId);
            if WaitingAt(restaurantId)(rows[i]) then 0 <= k < |line| && line[k] == i else k == -1
  {
    var line := LineOf(rows, restaurantId);
    k := PlaceOf(line, i);
    assert i in line <==> WaitingAt(restaurantId)(rows[i]);
  }

  lemma RefreshKeepsIds(env: Env, rows: Rows, restaurantId: Id, now: Time)
    requires UniqueIds(rows)
    ensures UniqueIds(RefreshRows(env, rows, restaurantId, now))
  {
    var after := RefreshRows(env, rows, restaurantId, now);
    forall i: nat | i < |rows| ensures after[i].id == rows[i].id {
      var k := PlaceOrNotWaiting(rows, restaurantId, i);
      if k != -1 {
        RefreshedAt(env, rows, restaurantId, now, k);
      } else {
        NotRefreshed(env, rows, restaurantId, now, i);
      }
    }
    SameIds(rows, after);
  }

  /** Overwriting the first n parties with their ranks and their predictions. */
  ghost function OverwriteFirst(env: Env, rows: Rows, restaurantId: Id, line: seq<nat>, n: nat, now: Time)
    : (after: Rows)
    requires InTable(rows, line) && n <= |line|
    ensures |after| == |rows|
  {
    if n == 0 then rows
    else
      var k := n - 1;
      OverwriteFirst(env, rows, restaurantId, line, k, now)
        [line[k] := Placed(rows[line[k]], k + 1, Some(Eta(env, rows, restaurantId, line, k)), now)]
  }

  ghost function FullRewrite(env: Env, rows: Rows, restaurantId: Id, now: Time): (after: Rows)
    ensures |after| == |rows|
  {
    var line := LineOf(rows, restaurantId);
    OverwriteFirst(env, rows, restaurantId, line, |line|, now)
  }

  predicate SameButUpdateTime(e: EntryProps, f: EntryProps) {
    e == f || e == f.(updatedAt := e.updatedAt)
  }

  /** From any rows, writing only the deltas stores what a full rewrite stores, update times aside. */
  lemma DeltasAreFullRewrite(env: Env, rows: Rows, restaurantId: Id, now: Time)
    ensures var after := RefreshRows(env, rows, restaurantId, now);
            var full := FullRewrite(env, rows, restaurantId, now);
            |after| == |full| && forall i :: 0 <= i < |rows| ==> SameButUpdateTime(after[i], full[i])
  {
    var line := LineOf(rows, restaurantId);
    forall i: nat | i < |rows|
      ensures SameButUpdateTime(RefreshRows(env, rows, restaurantId, now)[i],
                                FullRewrite(env, rows, restaurantId, now)[i])
    {
      DeltasAreOverwrites(env, rows, restaurantId, line, |line|, now, i);
    }
  }

  lemma {:induction false} DeltasAreOverwrites(env: Env, rows: Rows, restaurantId: Id, line: seq<nat>, n: nat,
                                               now: Time, i: nat)
    requires InTable(rows, line) && n <= |line| && i < |rows|
    ensures SameButUpdateTime(RefreshFirst(env, rows, restaurantId, line, n, now)[i],
                              OverwriteFirst(env, rows, restaurantId, line, n, now)[i])
  {
    if n > 0 {
      DeltasAreOverwrites(env, rows, restaurantId, line, n - 1, now, i);
      DeltaIsOverwrite(env, rows, restaurantId, line, n - 1, now);
    }
  }

  lemma DeltaIsOverwrite(env: Env, rows: Rows, restaurantId: Id, line: seq<nat>, k: nat, now: Time)
    requires InTable(rows, line) && k < |line|
    ensures SameButUpdateTime(Refreshed(env, rows, restaurantId, line, k, now),
                              Placed(rows[line[k]], k + 1, Some(Eta(env, rows, restaurantId, line, k)), now))
  {
  }

  /** A list whose stored positions are 1, 2, 3, ... is in strict order. */
  lemma NumberedIsStrict(rows: Rows, line: seq<nat>)
    requires InTable(rows, line)
    requires forall k :: 0 <= k < |line| ==> rows[line[k]].position == Some(k + 1)
    ensures InStrictOrder(POSITION_THEN_JOINED, rows, line)
  {
    forall a: nat, b: nat | a < b < |line| ensures Ahead(POSITION_THEN_JOINED, rows, line, a, b) {
    }
  }

  /** The order of the line survives, and its positions become 1..n. */
  lemma RefreshKeepsLine(env: Env, rows: Rows, restaurantId: Id, now: Time)
    ensures var after := RefreshRows(env, rows, restaurantId, now);
            var line := LineOf(rows, restaurantId);
            && LineOf(after, restaurantId) == line
            && (forall k :: 0 <= k < |line| ==> after[line[k]].position == Some(k + 1))
  {
    var after := RefreshRows(env, rows, restaurantId, now);
    var line := LineOf(rows, restaurantId);
    RefreshedRows(env, rows, restaurantId, now);
    NumberedIsStrict(after, line);
    forall i: nat ensures i in line <==> i < |after| && WaitingAt(restaurantId)(after[i]) {
      if i < |rows| { var k := PlaceOrNotWaiting(rows, restaurantId, i); }
    }
    LineIs(after, restaurantId, line);
  }

  /** Every other line stays as it is. */
  lemma RefreshKeepsOtherLines(env: Env, rows: Rows, restaurantId: Id, now: Time, other: Id)
    requires other != restaurantId
    ensures LineOf(RefreshRows(env, rows, restaurantId, now), other) == LineOf(rows, other)
    ensures forall i: nat :: i in LineOf(rows, other) ==> RefreshRows(env, rows, restaurantId, now)[i] == rows[i]
  {
    var after := RefreshRows(env, rows, restaurantId, now);
    forall i: nat | i < |rows|
      ensures WaitingAt(other)(after[i]) == WaitingAt(other)(rows[i])
      ensures WaitingAt(other)(rows[i]) ==> after[i] == rows[i]
    {
      var k := PlaceOrNotWaiting(rows, restaurantId, i);
      if k != -1 {
        RefreshedAt(env, rows, restaurantId, now, k);
      } else {
        NotRefreshed(env, rows, restaurantId, now, i);
      }
    }
    SelectAgrees(rows, after, WaitingAt(other));
    SortAgrees(POSITION_THEN_JOINED, rows, after, Select(rows, WaitingAt(other)));
  }

  lemma EtaDependsOnSizes(env: Env, rows: Rows, other: Rows, restaurantId: Id, line: seq<nat>, k: nat)
    requires InTable(rows, line) && InTable(other, line) && k < |line|
    requires forall j :: 0 <= j < |line| ==> rows[line[j]].partySize == other[line[j]].partySize
    ensures Eta(env, rows, restaurantId, line, k) == Eta(env, other, restaurantId, line, k)
  {
    PeopleOfPrefix(rows, other, line[..k]);
  }

  /** After a recalculation nothing is dirty. */
  lemma RefreshedIsClean(env: Env, rows: Rows, restaurantId: Id, now: Time)
    ensures IsClean(env, RefreshRows(env, rows, restaurantId, now), restaurantId)
  {
    var after := RefreshRows(env, rows, restaurantId, now);
    var line := LineOf(rows, restaurantId);
    assert LineOf(after, restaurantId) == line by { RefreshKeepsLine(env, rows, restaurantId, now); }
    RefreshedRows(env, rows, restaurantId, now);
    forall k: nat | k < |line| ensures !IsDirty(env, after, restaurantId, line, k) {
      EtaDependsOnSizes(env, rows, after, restaurantId, line, k);
    }
  }

  /** So a second recalculation, at any time, reports nothing and changes nothing, in rows or cache. */
  lemma RefreshIsIdempotent(env: Env, rows: Rows, restaurantId: Id, now: Time, later: Time, live: map<Id, LiveEntry>)
    ensures var after := RefreshRows(env, rows, restaurantId, now);
            && DirtyIds(env, after, restaurantId) == []
            && RefreshRows(env, after, restaurantId, later) == after
            && RefreshedLive(env, after, restaurantId, later, live) == live
  {
    var after := RefreshRows(env, rows, restaurantId, now);
    var line := LineOf(after, restaurantId);
    RefreshedIsClean(env, rows, restaurantId, now);
    CleanLineStays(env, after, restaurantId, later);
    CleanCacheStays(env, after, restaurantId, line, |line|, later, live);
  }

  lemma {:induction false} CleanCacheStays(env: Env, rows: Rows, restaurantId: Id, line: seq<nat>, n: nat, now: Time,
                                           live: map<Id, LiveEntry>)
    requires InTable(rows, line) && n <= |line|
    requires forall k :: 0 <= k < n ==> !IsDirty(env, rows, restaurantId, line, k)
    ensures RefreshLive(env, rows, restaurantId, line, n, now, live) == live
  {
    if n > 0 { CleanCacheStays(env, rows, restaurantId, line, n - 1, now, live); }
  }

  ghost predicate IsClean(env: Env, rows: Rows, restaurantId: Id) {
    var line := LineOf(rows, restaurantId);
    forall k :: 0 <= k < |line| ==> !IsDirty(env, rows, restaurantId, line, k)
  }

  lemma CleanLineStays(env: Env, rows: Rows, restaurantId: Id, now: Time)
    requires IsClean(env, rows, restaurantId)
    ensures DirtyIds(env, rows, restaurantId) == []
    ensures RefreshRows(env, rows, restaurantId, now) == rows
  {
    var line := LineOf(rows, restaurantId);
    var places := DirtyPlaces(env, rows, restaurantId, line, |line|);
    NothingIn(places);
    CleanFirst(env, rows, restaurantId, line, |line|, now);
  }

  lemma {:induction false} CleanFirst(env: Env, rows: Rows, restaurantId: Id, line: seq<nat>, n: nat, now: Time)
    requires InTable(rows, line) && n <= |line|
    requires forall k :: 0 <= k < n ==> !IsDirty(env, rows, restaurantId, line, k)
    ensures RefreshFirst(env, rows, restaurantId, line, n, now) == rows
  {
    if n > 0 { CleanFirst(env, rows, restaurantId, line, n - 1, now); }
  }

  /**
   * The reported ids are exactly those of the rows whose position or estimate changed, each once
   * and in the order of the line.
   */
  lemma ReportIsExact(env: Env, rows: Rows, restaurantId: Id, now: Time)
    requires UniqueIds(rows)
    ensures var after := RefreshRows(env, rows, restaurantId, now);
            var ids := DirtyIds(env, rows, restaurantId);
            var lineIds := IdsOf(rows, LineOf(rows, restaurantId));
            && (forall i :: 0 <= i < |rows| ==>
                  (rows[i].id in ids <==> rows[i].position != after[i].position
                                          || rows[i].estimatedWaitMinutes != after[i].estimatedWaitMinutes))
            && (forall a, b :: 0 <= a < b < |ids| ==> PlaceOf(lineIds, ids[a]) < PlaceOf(lineIds, ids[b]))
  {
    var line := LineOf(rows, restaurantId);
    var places := DirtyPlaces(env, rows, restaurantId, line, |line|);
    var ids := DirtyIds(env, rows, restaurantId);
    var after := RefreshRows(env, rows, restaurantId, now);
    var lineIds := IdsOf(rows, line);
    forall a, b | 0 <= a < b < |ids| ensures PlaceOf(lineIds, ids[a]) < PlaceOf(lineIds, ids[b]) {
      assert RisesAt(places, a, b);
      PlaceOfId(rows, line, places[a]);
      PlaceOfId(rows, line, places[b]);
    }
    forall i: nat | i < |rows|
      ensures rows[i].id in ids <==> rows[i].position != after[i].position
                                     || rows[i].estimatedWaitMinutes != after[i].estimatedWaitMinutes
    {
      if rows[i].id in ids { ReportedIsInLine(env, rows, restaurantId, i); }
      var k := PlaceOrNotWaiting(rows, restaurantId, i);
      if k != -1 {
        RefreshedAt(env, rows, restaurantId, now, k);
        ReportedIffDirty(env, rows, restaurantId, k);
      } else {
        NotRefreshed(env, rows, restaurantId, now, i);
      }
    }
  }

  lemma ReportedIsInLine(env: Env, rows: Rows, restaurantId: Id, i: nat)
    requires UniqueIds(rows) && i < |rows| && rows[i].id in DirtyIds(env, rows, restaurantId)
    ensures i in LineOf(rows, restaurantId) && WaitingAt(restaurantId)(rows[i])
    ensures exists k: nat :: k in DirtyPlaces(env, rows, restaurantId, LineOf(rows, restaurantId),
                                              |LineOf(rows, restaurantId)|)
                             && LineOf(rows, restaurantId)[k] == i
  {
    var line := LineOf(rows, restaurantId);
    var places := DirtyPlaces(env, rows, restaurantId, line, |line|);
    var ids := DirtyIds(env, rows, restaurantId);
    var m :| 0 <= m < |ids| && ids[m] == rows[i].id;
    var k := places[m];
    assert k in places;
    SameIdSameSlot(rows, line[k], i);
  }

  lemma PlaceOfId(rows: Rows, line: seq<nat>, k: nat)
    requires UniqueIds(rows) && InTable(rows, line) && NoRepeats(line) && k < |line|
    ensures PlaceOf(IdsOf(rows, line), rows[line[k]].id) == k
  {
    var lineIds := IdsOf(rows, line);
    assert lineIds[k] in lineIds;
    var j := PlaceOf(lineIds, rows[line[k]].id);
    assert rows[line[j]].id == rows[line[k]].id;
    SameIdSameSlot(rows, line[j], line[k]);
    SameValueSamePlace(line, j, k);
  }

  lemma ReportedIffDirty(env: Env, rows: Rows, restaurantId: Id, k: nat)
    requires UniqueIds(rows) && k < |LineOf(rows, restaurantId)|
    ensures var line := LineOf(rows, restaurantId);
            rows[line[k]].id in DirtyIds(env, rows, restaurantId) <==> IsDirty(env, rows, restaurantId, line, k)
  {
    var line := LineOf(rows, restaurantId);
    var places := DirtyPlaces(env, rows, restaurantId, line, |line|);
    var ids := DirtyIds(env, rows, restaurantId);
    var id := rows[line[k]].id;
    if id in ids {
      ReportedIsInLine(env, rows, restaurantId, line[k]);
      var j: nat :| j in places && line[j] == line[k];
      SameValueSamePlace(line, j, k);
    }
    if IsDirty(env, rows, restaurantId, line, k) {
      assert k in places;
      var m :| 0 <= m < |places| && places[m] == k;
      assert ids[m] == id;
    }
  }

  /** The cache key of the k-th party, once the first n have been looked at. */
  lemma {:induction false} RefreshedLiveAt(env: Env, rows: Rows, restaurantId: Id, line: seq<nat>, n: nat, now: Time,
                                           live: map<Id, LiveEntry>, k: nat)
    requires UniqueIds(rows) && InTable(rows, line) && NoRepeats(line) && k < n <= |line|
    ensures var after := RefreshLive(env, rows, restaurantId, line, n, now, live);
            var id := rows[line[k]].id;
            if IsDirty(env, rows, restaurantId, line, k)
            then id in after && after[id] == LiveEntry(id, restaurantId, k + 1,
                                                       Eta(env, rows, restaurantId, line, k), now)
            else (id in after <==> id in live) && (id in live ==> after[id] == live[id])
  {
    var id := rows[line[k]].id;
    if k < n - 1 {
      if rows[line[n - 1]].id == id {
        SameIdSameSlot(rows, line[n - 1], line[k]);
        SameValueSamePlace(line, n - 1, k);
      }
      RefreshedLiveAt(env, rows, restaurantId, line, n - 1, now, live, k);
    } else {
      forall j | 0 <= j < k ensures rows[line[j]].id != id {
        if rows[line[j]].id == id {
          SameIdSameSlot(rows, line[j], line[k]);
          SameValueSamePlace(line, j, k);
        }
      }
      UntouchedLive(env, rows, restaurantId, line, k, now, live, id);
    }
  }

  lemma {:induction false} UntouchedLive(env: Env, rows: Rows, restaurantId: Id, line: seq<nat>, n: nat, now: Time,
                                         live: map<Id, LiveEntry>, id: Id)
    requires InTable(rows, line) && n <= |line|
    requires forall j :: 0 <= j < n ==> rows[line[j]].id != id
    ensures var after := RefreshLive(env, rows, restaurantId, line, n, now, live);
            (id in after <==> id in live) && (id in live ==> after[id] == live[id])
  {
    if n > 0 { UntouchedLive(env, rows, restaurantId, line, n - 1, now, live, id); }
  }
}
