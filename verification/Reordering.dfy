/** Writing an order back to the line, and the order a shift writes. */
module Reordering {
  import opened QueueTypes
  import opened QueueEntity
  import opened QueueLine
  import opened Renumbering
  import opened Recalculation

  lemma {:induction false} PlaceFirstKeepsIds(rows: Rows, order: seq<nat>, n: nat, now: Time)
    requires InTable(rows, order) && n <= |order|
    ensures forall i :: 0 <= i < |rows| ==> PlaceFirst(rows, order, n, now)[i].id == rows[i].id
  {
    if n > 0 { PlaceFirstKeepsIds(rows, order, n - 1, now); }
  }

  lemma {:induction false} UntouchedByPlacing(rows: Rows, order: seq<nat>, n: nat, now: Time, i: nat)
    requires InTable(rows, order) && n <= |order| && i < |rows|
    requires forall k :: 0 <= k < n ==> order[k] != i
    ensures PlaceFirst(rows, order, n, now)[i] == rows[i]
  {
    if n > 0 { UntouchedByPlacing(rows, order, n - 1, now, i); }
  }

  lemma {:induction false} PlacedFirstAt(rows: Rows, order: seq<nat>, n: nat, now: Time, k: nat)
    requires InTable(rows, order) && NoRepeats(order) && k < n <= |order|
    ensures PlaceFirst(rows, order, n, now)[order[k]] == Placed(rows[order[k]], k + 1, None, now)
  {
    if k < n - 1 {
      assert DifferAt(order, k, n - 1);
      PlacedFirstAt(rows, order, n - 1, now, k);
    }
  }

  /** The row at the target place after a reordering. */
  lemma ReorderedEntry(rows: Rows, order: seq<nat>, k: nat, now: Time)
    requires InTable(rows, order) && NoRepeats(order) && k < |order| && UniqueIds(rows)
    ensures Reordered(rows, order, now)[order[k]] == Placed(rows[order[k]], k + 1, None, now)
    ensures UniqueIds(Reordered(rows, order, now))
  {
    PlacedFirstAt(rows, order, |order|, now, k);
    PlaceFirstKeepsIds(rows, order, |order|, now);
    SameIds(rows, Reordered(rows, order, now));
  }

  /** Writing an order back makes it the line, numbered 1..n. */
  lemma ReorderSetsLine(rows: Rows, restaurantId: Id, order: seq<nat>, now: Time)
    requires NoRepeats(order)
    requires forall i: nat :: i in order <==> i in LineOf(rows, restaurantId)
    ensures InTable(rows, order)
    ensures LineOf(Reordered(rows, order, now), restaurantId) == order
    ensures forall k :: 0 <= k < |order| ==>
              Reordered(rows, order, now)[order[k]] == Placed(rows[order[k]], k + 1, None, now)
    ensures forall i: nat :: i < |rows| && i !in order ==> Reordered(rows, order, now)[i] == rows[i]
  {
    StillInTable(rows, LineOf(rows, restaurantId), order);
    var after := Reordered(rows, order, now);
    forall k: nat | k < |order| ensures after[order[k]] == Placed(rows[order[k]], k + 1, None, now) {
      PlacedFirstAt(rows, order, |order|, now, k);
    }
    forall i: nat | i < |rows| && i !in order ensures after[i] == rows[i] {
      UntouchedByPlacing(rows, order, |order|, now, i);
    }
    NumberedIsStrict(after, order);
    forall i: nat ensures i in order <==> i < |after| && WaitingAt(restaurantId)(after[i]) {
      if i in order {
        var k :| 0 <= k < |order| && order[k] == i;
        assert i in LineOf(rows, restaurantId);
      }
    }
    LineIs(after, restaurantId, order);
  }

  /** The line of a restaurant with one of its parties sent k places back. */
  ghost function ShiftedLine(rows: Rows, restaurantId: Id, slot: nat, k: nat): (order: seq<nat>)
    requires slot < |rows| && WaitingAt(restaurantId)(rows[slot])
    ensures InTable(rows, order) && NoRepeats(order)
    ensures forall i: nat {:trigger i in order} :: i in order <==> i in LineOf(rows, restaurantId)
  {
    var line := LineOf(rows, restaurantId);
    assert slot in line;
    var c := PlaceOf(line, slot);
    MoveBackIsPermutation(line, c, k);
    StillInTable(rows, line, MoveBack(line, c, k));
    MoveBack(line, c, k)
  }

  /** Writing it back makes it the line, numbered 1..n, and touches no row outside the line. */
  lemma ShiftSetsLine(rows: Rows, restaurantId: Id, slot: nat, k: nat, now: Time)
    requires slot < |rows| && WaitingAt(restaurantId)(rows[slot])
    ensures var order := ShiftedLine(rows, restaurantId, slot, k);
            && LineOf(Reordered(rows, order, now), restaurantId) == order
            && (forall j :: 0 <= j < |order| ==>
                  Reordered(rows, order, now)[order[j]] == Placed(rows[order[j]], j + 1, None, now))
            && (forall i: nat :: i < |rows| && !WaitingAt(restaurantId)(rows[i]) ==>
                  Reordered(rows, order, now)[i] == rows[i])
  {
    var order := ShiftedLine(rows, restaurantId, slot, k);
    ReorderSetsLine(rows, restaurantId, order, now);
    forall i: nat | i < |rows| && !WaitingAt(restaurantId)(rows[i]) ensures Reordered(rows, order, now)[i] == rows[i] {
      assert i !in LineOf(rows, restaurantId);
      assert i !in order;
    }
  }

  lemma IdsMoveAlong(rows: Rows, line: seq<nat>, c: nat, k: nat)
    requires InTable(rows, line) && c < |line|
    ensures InTable(rows, MoveBack(line, c, k))
    ensures IdsOf(rows, MoveBack(line, c, k)) == MoveBack(IdsOf(rows, line), c, k)
  {
    var t := ShiftTarget(c, k, |line|);
    var ids := IdsOf(rows, line);
    assert RemoveAt(ids, c) == IdsOf(rows, RemoveAt(line, c));
  }

  /** Moving one element back keeps the elements, without repeats. */
  lemma MoveBackIsPermutation(s: seq<nat>, c: nat, k: nat)
    requires c < |s| && NoRepeats(s)
    ensures NoRepeats(MoveBack(s, c, k))
    ensures MoveBack(s, c, k)[ShiftTarget(c, k, |s|)] == s[c]
  {
    var rest := RemoveAt(s, c);
    assert s == s[..c] + [s[c]] + s[c + 1..];
    forall a: nat, b: nat | a < b < |rest| ensures DifferAt(rest, a, b) {
      assert DifferAt(s, if a < c then a else a + 1, if b < c then b else b + 1);
    }
    forall a: nat | a < |rest| ensures rest[a] != s[c] {
      if a < c { assert DifferAt(s, a, c); } else { assert DifferAt(s, c, a + 1); }
    }
    InsertMembers(rest, ShiftTarget(c, k, |s|), s[c]);
  }
}
