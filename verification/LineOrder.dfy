/** How each change of the rows changes the waiting lines. */
module LineOrder {
  import opened QueueTypes
  import opened QueueLine
  import opened QueueStore
  import opened Recalculation
  import opened Reordering
  import opened QueueSteps
  import opened StepEffects

  predicate SameKey(e: EntryProps, f: EntryProps) {
    f.position == e.position && f.joinedAt == e.joinedAt
  }

  /** Rows that wait at the restaurant in both tables, with the same sort keys, line up the same. */
  lemma SameLine(rows: Rows, after: Rows, restaurantId: Id)
    requires ByArrival(rows) && |rows| <= |after|
    requires forall i: nat :: i < |rows| ==>
               && WaitingAt(restaurantId)(after[i]) == WaitingAt(restaurantId)(rows[i])
               && (WaitingAt(restaurantId)(rows[i]) ==> SameKey(rows[i], after[i]))
    requires forall i: nat :: |rows| <= i < |after| ==> !WaitingAt(restaurantId)(after[i])
    ensures LineOf(after, restaurantId) == LineOf(rows, restaurantId)
  {
    var line := LineOf(rows, restaurantId);
    LineIsStrict(rows, restaurantId);
    forall a: nat, b: nat | a < b < |line| ensures Ahead(POSITION_THEN_JOINED, after, line, a, b) {
      assert Ahead(POSITION_THEN_JOINED, rows, line, a, b);
      assert line[a] in line && line[b] in line;
    }
    LineIs(after, restaurantId, line);
  }

  /** A party that leaves takes its place out of the line; the others keep their order. */
  lemma LineWithout(rows: Rows, restaurantId: Id, slot: nat, e: EntryProps)
    requires ByArrival(rows) && slot < |rows| && WaitingAt(restaurantId)(rows[slot]) && !e.status.WAITING?
    ensures var line := LineOf(rows, restaurantId);
            var c := PlaceOf(line, slot);
            0 <= c < |line| && LineOf(rows[slot := e], restaurantId) == RemoveAt(line, c)
  {
    var line := LineOf(rows, restaurantId);
    assert slot in line;
    var c := PlaceOf(line, slot);
    var rest := RemoveAt(line, c);
    var after := rows[slot := e];
    LineIsStrict(rows, restaurantId);
    RemovedIsGone(line, c);
    StillInTable(rows, line, rest);
    OrderWithout(rows, after, line, c);
    LineIs(after, restaurantId, rest);
  }

  lemma OrderWithout(rows: Rows, after: Rows, line: seq<nat>, c: nat)
    requires InStrictOrder(POSITION_THEN_JOINED, rows, line) && NoRepeats(line) && c < |line|
    requires |after| == |rows| && forall i :: 0 <= i < |rows| && i != line[c] ==> after[i] == rows[i]
    ensures InStrictOrder(POSITION_THEN_JOINED, after, RemoveAt(line, c))
  {
    var rest := RemoveAt(line, c);
    forall a: nat, b: nat | a < b < |rest| ensures Ahead(POSITION_THEN_JOINED, after, rest, a, b) {
      var i, j := if a < c then a else a + 1, if b < c then b else b + 1;
      assert Ahead(POSITION_THEN_JOINED, rows, line, i, j);
      assert DifferAtPlace(line, i, c) && DifferAtPlace(line, j, c);
    }
  }

  predicate DifferAtPlace(s: seq<nat>, a: nat, c: nat)
    requires NoRepeats(s) && a < |s| && c < |s| && a != c
    ensures DifferAtPlace(s, a, c)
  {
    assert if a < c then DifferAt(s, a, c) else DifferAt(s, c, a);
    s[a] != s[c]
  }

  lemma RemovedIsGone(s: seq<nat>, c: nat)
    requires NoRepeats(s) && c < |s|
    ensures forall i: nat :: i in RemoveAt(s, c) <==> i in s && i != s[c]
  {
    var rest := RemoveAt(s, c);
    assert s == s[..c] + [s[c]] + s[c + 1..];
    forall a: nat | a < |rest| ensures rest[a] != s[c] {
      assert DifferAtPlace(s, if a < c then a else a + 1, c);
    }
  }

  /** How many parties of a line stand at position p or before. */
  function UpTo(rows: Rows, line: seq<nat>, p: int): (j: nat)
    requires InTable(rows, line)
    ensures j <= |line|
    ensures j > 0 ==> rows[line[j - 1]].position.Some? && rows[line[j - 1]].position.value <= p
    ensures forall k :: j <= k < |line| ==> rows[line[k]].position.None? || rows[line[k]].position.value > p
  {
    if line == [] then 0
    else
      var last := rows[line[|line| - 1]];
      if last.position.Some? && last.position.value <= p then |line| else UpTo(rows, line[..|line| - 1], p)
  }

  /** A newcomer stands behind exactly the parties whose position is not beyond its own. */
  lemma LineWithNewcomer(rows: Rows, restaurantId: Id, e: EntryProps)
    requires ByArrival(rows + [e]) && WaitingAt(restaurantId)(e) && e.position.Some?
    ensures var line := LineOf(rows, restaurantId);
            LineOf(rows + [e], restaurantId) == InsertAt<nat>(line, UpTo(rows, line, e.position.value), |rows|)
  {
    var line := LineOf(rows, restaurantId);
    var after := rows + [e];
    var j := UpTo(rows, line, e.position.value);
    var order := InsertAt<nat>(line, j, |rows|);
    ArrivalOfFirst(rows, e);
    LineIsStrict(rows, restaurantId);
    InsertMembers(line, j, |rows|);
    OrderWithNewcomer(rows, line, e, j);
    forall i: nat ensures i in order <==> i < |after| && WaitingAt(restaurantId)(after[i]) {
      assert i in order <==> i in line || i == |rows|;
    }
    LineIs(after, restaurantId, order);
  }

  lemma OrderWithNewcomer(rows: Rows, line: seq<nat>, e: EntryProps, j: nat)
    requires InStrictOrder(POSITION_THEN_JOINED, rows, line) && ByArrival(rows + [e]) && e.position.Some?
    requires j == UpTo(rows, line, e.position.value)
    ensures InStrictOrder(POSITION_THEN_JOINED, rows + [e], InsertAt<nat>(line, j, |rows|))
  {
    var order := InsertAt<nat>(line, j, |rows|);
    forall a: nat, b: nat | a < b < |order| ensures Ahead(POSITION_THEN_JOINED, rows + [e], order, a, b) {
      RowWithNewcomer(rows, line, e, j, a);
      RowWithNewcomer(rows, line, e, j, b);
      PairWithNewcomer(rows, line, e, j, a, b);
    }
  }

  lemma RowWithNewcomer(rows: Rows, line: seq<nat>, e: EntryProps, j: nat, a: nat)
    requires InTable(rows, line) && j <= |line| && a <= |line|
    ensures InTable(rows + [e], InsertAt<nat>(line, j, |rows|))
    ensures (rows + [e])[InsertAt<nat>(line, j, |rows|)[a]]
            == if a == j then e else rows[line[if a < j then a else a - 1]]
  {
  }

  lemma PairWithNewcomer(rows: Rows, line: seq<nat>, e: EntryProps, j: nat, a: nat, b: nat)
    requires InStrictOrder(POSITION_THEN_JOINED, rows, line) && ByArrival(rows + [e]) && e.position.Some?
    requires j == UpTo(rows, line, e.position.value) && a < b <= |line|
    ensures Precedes(POSITION_THEN_JOINED, if a == j then e else rows[line[if a < j then a else a - 1]],
                     if b == j then e else rows[line[if b < j then b else b - 1]])
  {
    if a == j {
      AheadOfOrBehindNewcomer(rows, line, e, j, b - 1);
    } else if b == j {
      AheadOfOrBehindNewcomer(rows, line, e, j, a);
    } else {
      assert Ahead(POSITION_THEN_JOINED, rows, line, if a < j then a else a - 1, if b < j then b else b - 1);
    }
  }

  lemma AheadOfOrBehindNewcomer(rows: Rows, line: seq<nat>, e: EntryProps, j: nat, a: nat)
    requires InStrictOrder(POSITION_THEN_JOINED, rows, line) && ByArrival(rows + [e]) && e.position.Some?
    requires j == UpTo(rows, line, e.position.value) && a < |line|
    ensures if a < j then Precedes(POSITION_THEN_JOINED, rows[line[a]], e)
            else Precedes(POSITION_THEN_JOINED, e, rows[line[a]])
  {
    if a < j {
      NotBeyond(rows, line, j, e.position.value, a);
      assert JoinedBefore(rows + [e], line[a], |rows|);
    }
  }

  lemma ArrivalOfFirst(rows: Rows, e: EntryProps)
    requires ByArrival(rows + [e])
    ensures ByArrival(rows)
  {
    forall i: nat, j: nat | i < j < |rows| ensures JoinedBefore(rows, i, j) { assert JoinedBefore(rows + [e], i, j); }
  }

  /** Positions rise along a line: whoever stands before place j is not beyond p either. */
  lemma NotBeyond(rows: Rows, line: seq<nat>, j: nat, p: int, a: nat)
    requires InStrictOrder(POSITION_THEN_JOINED, rows, line) && a < j <= |line|
    requires rows[line[j - 1]].position.Some? && rows[line[j - 1]].position.value <= p
    ensures rows[line[a]].position.Some? && rows[line[a]].position.value <= p
  {
    assert a < j - 1 ==> Ahead(POSITION_THEN_JOINED, rows, line, a, j - 1);
  }

  /** A call leaves the rows of every other restaurant alone. */
  lemma OthersUntouched(env: Env, s: Store, step: Step, now: Time)
    requires WellFormed(step)
    ensures var after := Apply(env, s, step, now).store.rows;
            && |s.rows| <= |after|
            && (forall i :: 0 <= i < |s.rows| && s.rows[i].restaurantId != RestaurantOf(step) ==> after[i] == s.rows[i])
            && (forall i :: |s.rows| <= i < |after| ==> after[i].restaurantId == RestaurantOf(step))
  {
    if Apply(env, s, step, now).result.Failure? {
      FailedCallsStutter(env, s, step, now);
    } else if step.Register? {
      RegistrationAppends(env, s, step, now);
    } else {
      var slot := StepEffect(env, s, step, now);
      OtherRowsKept(env, s.rows, step, slot, now);
    }
  }

  lemma OtherRowsKept(env: Env, rows: Rows, step: Step, slot: nat, now: Time)
    requires !step.Register? && slot < |rows| && WaitingAt(step.restaurantId)(rows[slot])
    ensures forall i :: 0 <= i < |rows| && rows[i].restaurantId != step.restaurantId ==>
              RowsAfter(env, rows, step, slot, now)[i] == rows[i]
  {
    var r := step.restaurantId;
    var changed := ChangedRows(rows, step, slot, now);
    if IsShift(step) { ShiftSetsLine(rows, r, slot, step.skipPositions.value, now); }
    forall i: nat | i < |rows| && rows[i].restaurantId != r
      ensures RowsAfter(env, rows, step, slot, now)[i] == rows[i]
    {
      assert changed[i] == rows[i];
      if Recalculates(step) { NotRefreshed(env, changed, r, now, i); }
    }
  }
}
