/** What a recalculation of one restaurant's line does to the rows and to the live cache. */
module Renumbering {
  import opened QueueTypes
  import opened QueueEntity
  import opened QueueLine
  import opened QueueStore

  /** The estimate of the k-th party in line, from the people ahead of it. */
  function Eta(env: Env, rows: Rows, restaurantId: Id, line: seq<nat>, k: nat): nat
    requires InTable(rows, line) && k < |line|
  {
    env.predict(restaurantId, People(rows, line[..k]), rows[line[k]].partySize)
  }

  /** Does the k-th party's stored position or estimate differ from the recomputed one? */
  predicate IsDirty(env: Env, rows: Rows, restaurantId: Id, line: seq<nat>, k: nat)
    requires InTable(rows, line) && k < |line|
  {
    rows[line[k]].position != Some(k + 1)
    || rows[line[k]].estimatedWaitMinutes != Some(Eta(env, rows, restaurantId, line, k))
  }

  /** The places among the first n whose parties changed, front to back. */
  ghost function DirtyPlaces(env: Env, rows: Rows, restaurantId: Id, line: seq<nat>, n: nat): (places: seq<nat>)
    requires InTable(rows, line) && n <= |line|
    ensures forall k: nat {:trigger k in places} :: k in places <==> k < n && IsDirty(env, rows, restaurantId, line, k)
    ensures forall a :: 0 <= a < |places| ==> places[a] < n
    ensures Rising(places)
  {
    if n == 0 then []
    else
      var init := DirtyPlaces(env, rows, restaurantId, line, n - 1);
      AppendRises(init, n - 1);
      if IsDirty(env, rows, restaurantId, line, n - 1) then init + [n - 1] else init
  }

  ghost function DirtyIds(env: Env, rows: Rows, restaurantId: Id): (ids: seq<Id>)
  {
    var line := LineOf(rows, restaurantId);
    var places := DirtyPlaces(env, rows, restaurantId, line, |line|);
    seq(|places|, m requires 0 <= m < |places| => rows[line[places[m]]].id)
  }

  /** The k-th party's row after the recalculation. */
  function Refreshed(env: Env, rows: Rows, restaurantId: Id, line: seq<nat>, k: nat, now: Time): EntryProps
    requires InTable(rows, line) && k < |line|
  {
    if IsDirty(env, rows, restaurantId, line, k)
    then Placed(rows[line[k]], k + 1, Some(Eta(env, rows, restaurantId, line, k)), now)
    else rows[line[k]]
  }

  /** The rows once the first n parties have been refreshed. */
  ghost function RefreshFirst(env: Env, rows: Rows, restaurantId: Id, line: seq<nat>, n: nat, now: Time): (after: Rows)
    requires InTable(rows, line) && n <= |line|
    ensures |after| == |rows|
  {
    if n == 0 then rows
    else
      RefreshFirst(env, rows, restaurantId, line, n - 1, now)
        [line[n - 1] := Refreshed(env, rows, restaurantId, line, n - 1, now)]
  }

  ghost function RefreshRows(env: Env, rows: Rows, restaurantId: Id, now: Time): (after: Rows)
    ensures |after| == |rows|
  {
    var line := LineOf(rows, restaurantId);
    RefreshFirst(env, rows, restaurantId, line, |line|, now)
  }

  /** The cache once the first n parties have been looked at. */
  ghost function RefreshLive(env: Env, rows: Rows, restaurantId: Id, line: seq<nat>, n: nat, now: Time,
                             live: map<Id, LiveEntry>): map<Id, LiveEntry>
    requires InTable(rows, line) && n <= |line|
  {
    if n == 0 then live
    else
      var k := n - 1;
      var before := RefreshLive(env, rows, restaurantId, line, k, now, live);
      var id := rows[line[k]].id;
      if IsDirty(env, rows, restaurantId, line, k)
      then before[id := LiveEntry(id, restaurantId, k + 1, Eta(env, rows, restaurantId, line, k), now)]
      else before
  }

  ghost function RefreshedLive(env: Env, rows: Rows, restaurantId: Id, now: Time, live: map<Id, LiveEntry>)
    : map<Id, LiveEntry>
  {
    var line := LineOf(rows, restaurantId);
    RefreshLive(env, rows, restaurantId, line, |line|, now, live)
  }

  ghost function Recalculated(env: Env, s: Store, restaurantId: Id, now: Time): Store {
    s.(rows := RefreshRows(env, s.rows, restaurantId, now),
       live := RefreshedLive(env, s.rows, restaurantId, now, s.live))
  }

  /** The rows once the first n slots of `order` have been given the positions 1..n. */
  ghost function PlaceFirst(rows: Rows, order: seq<nat>, n: nat, now: Time): (after: Rows)
    requires InTable(rows, order) && n <= |order|
    ensures |after| == |rows|
  {
    if n == 0 then rows
    else
      var k := n - 1;
      PlaceFirst(rows, order, k, now)[order[k] := Placed(rows[order[k]], k + 1, None, now)]
  }

  /** The rows once `order` has been written back as the line, front to back. */
  ghost function Reordered(rows: Rows, order: seq<nat>, now: Time): (after: Rows)
    requires InTable(rows, order)
    ensures |after| == |rows|
  {
    PlaceFirst(rows, order, |order|, now)
  }

  /** The place a party at c lands on when it is sent k places back in a line of n. */
  function ShiftTarget(c: nat, k: nat, n: nat): nat
    requires c < n
  {
    if c + k < n - 1 then c + k else n - 1
  }

  /** The position stored for, and reported to, a party sent k places back. */
  function ShiftedPosition(c: nat, k: nat, n: nat): nat
    requires c < n
  {
    ShiftTarget(c, k, n) + 1
  }

  function MoveBack<T(!new)>(s: seq<T>, c: nat, k: nat): (moved: seq<T>)
    requires c < |s|
    ensures |moved| == |s|
    ensures forall x {:trigger x in moved} :: x in moved <==> x in s
  {
    assert s == s[..c] + [s[c]] + s[c + 1..];
    InsertMembers(RemoveAt(s, c), ShiftTarget(c, k, |s|), s[c]);
    InsertAt(RemoveAt(s, c), ShiftTarget(c, k, |s|), s[c])
  }
}
