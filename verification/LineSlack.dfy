/**
 * Assigning tables leaves gaps in a line that nobody closes until the next renumbering. How wide
 * they get, and what that does to the next arrival.
 */
module LineSlack {
  import opened QueueTypes
  import opened QueueEntity
  import opened QueueLine
  import opened QueueStore
  import opened Renumbering
  import opened Recalculation
  import opened QueueSteps
  import opened StepEffects
  import opened RowLifecycle
  import opened LineOrder
  import opened ExactLines

  /** The largest stored position of some rows; 0 if none has one. */
  function Largest(rows: Rows, slots: seq<nat>): nat
    requires InTable(rows, slots)
  {
    if slots == [] then 0
    else
      var init := Largest(rows, slots[..|slots| - 1]);
      var last := rows[slots[|slots| - 1]].position;
      if last.Some? && last.value > init then last.value else init
  }

  predicate AtMost(rows: Rows, slots: seq<nat>, k: nat, p: nat)
    requires InTable(rows, slots) && k < |slots|
  {
    rows[slots[k]].position.Some? ==> rows[slots[k]].position.value <= p
  }

  lemma {:induction false} NoneIsLarger(rows: Rows, slots: seq<nat>, k: nat)
    requires InTable(rows, slots) && k < |slots|
    ensures AtMost(rows, slots, k, Largest(rows, slots))
  {
    if k < |slots| - 1 { NoneIsLarger(rows, slots[..|slots| - 1], k); }
  }

  lemma {:induction false} LargestIsStored(rows: Rows, slots: seq<nat>) returns (k: nat)
    requires InTable(rows, slots) && Largest(rows, slots) > 0
    ensures k < |slots| && rows[slots[k]].position == Some(Largest(rows, slots))
  {
    k := |slots| - 1;
    if rows[slots[k]].position != Some(Largest(rows, slots)) { k := LargestIsStored(rows, slots[..k]); }
  }

  /** How far the stored positions of a line reach beyond the number of its parties. */
  ghost function Slack(rows: Rows, restaurantId: Id): nat {
    var line := LineOf(rows, restaurantId);
    var last := Largest(rows, line);
    if last > |line| then last - |line| else 0
  }

  lemma LargestGrows(rows: Rows, slots: seq<nat>, after: Rows, more: seq<nat>)
    requires InTable(rows, slots) && InTable(after, more)
    requires forall i: nat :: i in slots ==> i in more && after[i].position == rows[i].position
    ensures Largest(rows, slots) <= Largest(after, more)
  {
    if Largest(rows, slots) > 0 {
      var k := LargestIsStored(rows, slots);
      assert slots[k] in slots;
      var j :| 0 <= j < |more| && more[j] == slots[k];
      NoneIsLarger(after, more, j);
    }
  }

  lemma LargestWithNewcomer(rows: Rows, line: seq<nat>, e: EntryProps, order: seq<nat>)
    requires InTable(rows, line) && InTable(rows + [e], order) && e.position.Some? && e.position.value >= 1
    requires forall i: nat :: i in order <==> i in line || i == |rows|
    ensures Largest(rows + [e], order)
            == if Largest(rows, line) > e.position.value then Largest(rows, line) else e.position.value
  {
    LargestGrows(rows, line, rows + [e], order);
    assert |rows| in order;
    var j :| 0 <= j < |order| && order[j] == |rows|;
    NoneIsLarger(rows + [e], order, j);
    var k := LargestIsStored(rows + [e], order);
    assert order[k] in order;
    if order[k] != |rows| {
      var m :| 0 <= m < |line| && line[m] == order[k];
      NoneIsLarger(rows, line, m);
    }
  }

  /** A line numbered 1..n has no slack. */
  lemma NumberedHasNoSlack(rows: Rows, restaurantId: Id)
    requires var line := LineOf(rows, restaurantId);
             forall k :: 0 <= k < |line| ==> rows[line[k]].position == Some(k + 1)
    ensures Slack(rows, restaurantId) == 0
  {
    var line := LineOf(rows, restaurantId);
    if Largest(rows, line) > 0 { var k := LargestIsStored(rows, line); }
  }

  lemma CleanHasNoSlack(env: Env, rows: Rows, restaurantId: Id)
    requires IsClean(env, rows, restaurantId)
    ensures Slack(rows, restaurantId) == 0
  {
    var line := LineOf(rows, restaurantId);
    forall k: nat | k < |line| ensures rows[line[k]].position == Some(k + 1) {
      assert !IsDirty(env, rows, restaurantId, line, k);
    }
    NumberedHasNoSlack(rows, restaurantId);
  }

  /** Rows that look the same have the same slack. */
  lemma SameSlack(rows: Rows, after: Rows, restaurantId: Id)
    requires |rows| <= |after| && LineOf(after, restaurantId) == LineOf(rows, restaurantId)
    requires forall i :: 0 <= i < |rows| && WaitingAt(restaurantId)(rows[i]) ==> after[i].position == rows[i].position
    ensures Slack(after, restaurantId) == Slack(rows, restaurantId)
  {
    var line := LineOf(rows, restaurantId);
    LargestGrows(rows, line, after, line);
    LargestGrows(after, line, rows, line);
  }

  /** A newcomer stands last iff the slack is at most 1, and takes one unit of slack away. */
  lemma NewcomerTakesSlack(rows: Rows, restaurantId: Id, e: EntryProps)
    requires ByArrival(rows + [e]) && WaitingAt(restaurantId)(e) && WaitingRowsArePlaced(rows)
    requires e.position == Some(|LineOf(rows, restaurantId)| + 1)
    ensures var after := LineOf(rows + [e], restaurantId);
            && after != []
            && (after[|after| - 1] == |rows| <==> Slack(rows, restaurantId) <= 1)
    ensures Slack(rows + [e], restaurantId)
            == if Slack(rows, restaurantId) > 0 then Slack(rows, restaurantId) - 1 else 0
  {
    NewcomerInLine(rows, restaurantId, e);
    ArrivalOfFirst(rows, e);
    ReachOf(rows, restaurantId, UpTo(rows, LineOf(rows, restaurantId), e.position.value));
  }

  lemma NewcomerInLine(rows: Rows, restaurantId: Id, e: EntryProps)
    requires ByArrival(rows + [e]) && WaitingAt(restaurantId)(e) && e.position.Some? && e.position.value >= 1
    ensures var line := LineOf(rows, restaurantId);
            var after := LineOf(rows + [e], restaurantId);
            && |after| == |line| + 1
            && (after[|line|] == |rows| <==> UpTo(rows, line, e.position.value) == |line|)
            && Largest(rows + [e], after)
               == if Largest(rows, line) > e.position.value then Largest(rows, line) else e.position.value
  {
    var line := LineOf(rows, restaurantId);
    var j := UpTo(rows, line, e.position.value);
    LineWithNewcomer(rows, restaurantId, e);
    InsertMembers(line, j, |rows|);
    LargestWithNewcomer(rows, line, e, LineOf(rows + [e], restaurantId));
    assert line != [] ==> line[|line| - 1] in line;
  }

  /** It overtakes exactly the parties whose stored position is beyond its own. */
  lemma NewcomerOvertakes(rows: Rows, restaurantId: Id, e: EntryProps, i: nat)
    requires ByArrival(rows + [e]) && WaitingAt(restaurantId)(e) && WaitingRowsArePlaced(rows) && e.position.Some?
    requires i in LineOf(rows, restaurantId)
    ensures var after := LineOf(rows + [e], restaurantId);
            && i in after && |rows| in after
            && (PlaceOf<nat>(after, |rows|) < PlaceOf<nat>(after, i) <==> rows[i].position.value > e.position.value)
  {
    var line := LineOf(rows, restaurantId);
    var k :| 0 <= k < |line| && line[k] == i;
    NewcomerPlaces(rows, restaurantId, e, k);
    BeyondFrom(rows, restaurantId, e, k);
  }

  lemma BeyondFrom(rows: Rows, restaurantId: Id, e: EntryProps, k: nat)
    requires ByArrival(rows + [e]) && WaitingRowsArePlaced(rows) && e.position.Some?
    requires k < |LineOf(rows, restaurantId)|
    ensures var line := LineOf(rows, restaurantId);
            rows[line[k]].position.Some?
            && (k < UpTo(rows, line, e.position.value) <==> rows[line[k]].position.value <= e.position.value)
  {
    var line := LineOf(rows, restaurantId);
    var j := UpTo(rows, line, e.position.value);
    ArrivalOfFirst(rows, e);
    LineIsStrict(rows, restaurantId);
    assert line[k] in line;
    if k < j { NotBeyond(rows, line, j, e.position.value, k); }
  }

  lemma NewcomerPlaces(rows: Rows, restaurantId: Id, e: EntryProps, k: nat)
    requires ByArrival(rows + [e]) && WaitingAt(restaurantId)(e) && e.position.Some?
    requires k < |LineOf(rows, restaurantId)|
    ensures var line := LineOf(rows, restaurantId);
            var after := LineOf(rows + [e], restaurantId);
            var j := UpTo(rows, line, e.position.value);
            && |rows| in after && line[k] in after
            && PlaceOf<nat>(after, |rows|) == j && PlaceOf<nat>(after, line[k]) == if k < j then k else k + 1
  {
    var line := LineOf(rows, restaurantId);
    assert |rows| !in line;
    LineWithNewcomer(rows, restaurantId, e);
    PlacesWithNewcomer(line, UpTo(rows, line, e.position.value), |rows|, k, LineOf(rows + [e], restaurantId));
  }

  lemma PlacesWithNewcomer(line: seq<nat>, j: nat, x: nat, k: nat, after: seq<nat>)
    requires NoRepeats(line) && x !in line && j <= |line| && k < |line|
    requires after == InsertAt<nat>(line, j, x)
    ensures x in after && line[k] in after
    ensures PlaceOf<nat>(after, x) == j
    ensures PlaceOf<nat>(after, line[k]) == if k < j then k else k + 1
  {
    InsertMembers(line, j, x);
    PlaceInLine(after, j);
    PlaceInLine(after, if k < j then k else k + 1);
  }

  /** The parties up to the next position are the whole line iff the slack is at most 1. */
  lemma ReachOf(rows: Rows, restaurantId: Id, j: nat)
    requires ByArrival(rows) && WaitingRowsArePlaced(rows)
    requires j == UpTo(rows, LineOf(rows, restaurantId), |LineOf(rows, restaurantId)| + 1)
    ensures j == |LineOf(rows, restaurantId)| <==> Slack(rows, restaurantId) <= 1
  {
    var line := LineOf(rows, restaurantId);
    LineIsStrict(rows, restaurantId);
    if j < |line| {
      assert line[j] in line;
      assert AtMost(rows, line, j, Largest(rows, line)) by { NoneIsLarger(rows, line, j); }
    } else if Largest(rows, line) > 0 {
      var k := LargestIsStored(rows, line);
      NotBeyond(rows, line, j, |line| + 1, k);
    }
  }

  /** Taking a party out without renumbering widens the slack by at most one. */
  lemma DepartureWidensSlack(rows: Rows, restaurantId: Id, slot: nat, e: EntryProps)
    requires ByArrival(rows) && slot < |rows| && WaitingAt(restaurantId)(rows[slot]) && !e.status.WAITING?
    ensures Slack(rows[slot := e], restaurantId) <= Slack(rows, restaurantId) + 1
  {
    var line := LineOf(rows, restaurantId);
    var after := rows[slot := e];
    assert slot in line;
    var c := PlaceOf(line, slot);
    assert LineOf(after, restaurantId) == RemoveAt(line, c) by { LineWithout(rows, restaurantId, slot, e); }
    assert forall i: nat :: i in RemoveAt(line, c) <==> i in line && i != slot by { RemovedIsGone(line, c); }
    LargestGrows(after, RemoveAt(line, c), rows, line);
  }

  /**
   * Assigning tables to a party of an exact line leaves a gap behind unless the party was the last:
   * nobody renumbers.
   */
  lemma AssigningOpensGap(env: Env, rows: Rows, restaurantId: Id, c: nat, e: EntryProps)
    requires ByArrival(rows) && IsClean(env, rows, restaurantId) && c < |LineOf(rows, restaurantId)|
    requires !e.status.WAITING?
    ensures var line := LineOf(rows, restaurantId);
            line[c] < |rows| && Slack(rows[line[c] := e], restaurantId) == if c < |line| - 1 then 1 else 0
  {
    var line := LineOf(rows, restaurantId);
    var after := rows[line[c] := e];
    assert line[c] in line;
    assert LineOf(after, restaurantId) == RemoveAt(line, c) by {
      PlaceInLine(line, c);
      LineWithout(rows, restaurantId, line[c], e);
    }
    forall a: nat | a < |line| ensures rows[line[a]].position == Some(a + 1) {
      assert !IsDirty(env, rows, restaurantId, line, a);
    }
    LargestWithout(rows, after, line, LineOf(after, restaurantId), c);
  }

  lemma LargestWithout(rows: Rows, after: Rows, line: seq<nat>, rest: seq<nat>, c: nat)
    requires InTable(rows, line) && NoRepeats(line) && c < |line| && InTable(after, rest) && rest == RemoveAt(line, c)
    requires forall a :: 0 <= a < |line| ==> rows[line[a]].position == Some(a + 1)
    requires |after| == |rows| && forall i :: 0 <= i < |rows| && i != line[c] ==> after[i] == rows[i]
    ensures Largest(after, rest) == if c < |line| - 1 then |line| else |line| - 1
  {
    var n := |rest|;
    if n > 0 {
      PositionWithout(rows, after, line, rest, c, n - 1);
      NoneIsLarger(after, rest, n - 1);
      var k := LargestIsStored(after, rest);
      PositionWithout(rows, after, line, rest, c, k);
    }
  }

  lemma PositionWithout(rows: Rows, after: Rows, line: seq<nat>, rest: seq<nat>, c: nat, a: nat)
    requires InTable(rows, line) && NoRepeats(line) && c < |line| && InTable(after, rest) && rest == RemoveAt(line, c)
    requires forall a :: 0 <= a < |line| ==> rows[line[a]].position == Some(a + 1)
    requires |after| == |rows| && forall i :: 0 <= i < |rows| && i != line[c] ==> after[i] == rows[i]
    requires a < |rest|
    ensures after[rest[a]].position.Some? && after[rest[a]].position.value == if a < c then a + 1 else a + 2
  {
    var b := if a < c then a else a + 1;
    assert rest[a] == line[b];
    assert DifferAtPlace(line, b, c);
  }

  /** What one call does to the slack of a line. */
  lemma SlackAfter(env: Env, s: Store, step: Step, clock: Time, now: Time, restaurantId: Id)
    requires Ready(s, step, clock, now)
    ensures var before, after := Slack(s.rows, restaurantId), Slack(Apply(env, s, step, now).store.rows, restaurantId);
            if restaurantId != RestaurantOf(step) || Apply(env, s, step, now).result.Failure? || step.Ring?
            then after == before
            else if step.Register? then after == if before > 0 then before - 1 else 0
            else if step.AssignTables? then after <= before + 1
            else after == 0
  {
    if restaurantId != RestaurantOf(step) || Apply(env, s, step, now).result.Failure? {
      SlackElsewhere(env, s, step, clock, now, restaurantId);
    } else if step.Register? {
      ReadyStep(env, s, step, clock, now);
      RegistrationAppends(env, s, step, now);
      LineTotals(s.rows, restaurantId);
      NewcomerTakesSlack(s.rows, restaurantId, NewEntry(env, s.rows, step.request, step.newId, now));
    } else {
      var slot := StepEffect(env, s, step, now);
      SlackOfRowsAfter(env, s.rows, step, slot, now);
    }
  }

  lemma SlackElsewhere(env: Env, s: Store, step: Step, clock: Time, now: Time, restaurantId: Id)
    requires Ready(s, step, clock, now)
    requires restaurantId != RestaurantOf(step) || Apply(env, s, step, now).result.Failure?
    ensures Slack(Apply(env, s, step, now).store.rows, restaurantId) == Slack(s.rows, restaurantId)
  {
    FailedCallsStutter(env, s, step, now);
    if restaurantId != RestaurantOf(step) {
      OtherLinesAfter(env, s, step, clock, now, restaurantId);
      OthersUntouched(env, s, step, now);
      SameSlack(s.rows, Apply(env, s, step, now).store.rows, restaurantId);
    }
  }

  lemma SlackOfRowsAfter(env: Env, rows: Rows, step: Step, slot: nat, now: Time)
    requires ByArrival(rows)
    requires !step.Register? && slot < |rows| && WaitingAt(step.restaurantId)(rows[slot])
    ensures var before, after := Slack(rows, step.restaurantId),
                                 Slack(RowsAfter(env, rows, step, slot, now), step.restaurantId);
            if step.Ring? then after == before else if step.AssignTables? then after <= before + 1 else after == 0
  {
    var r := step.restaurantId;
    var after := RowsAfter(env, rows, step, slot, now);
    if step.Ring? {
      LineOfRowsAfter(env, rows, step, slot, now);
      SameSlack(rows, after, r);
    } else if step.AssignTables? {
      DepartureWidensSlack(rows, r, slot, Seated(rows[slot], now));
    } else {
      RefreshKeepsLine(env, ChangedRows(rows, step, slot, now), r, now);
      NumberedHasNoSlack(after, r);
    }
  }

  /** A bound on the slack after the k-th call, given one before it. */
  ghost function SlackBoundAfter(run: History, k: nat, restaurantId: Id, bound: nat): nat
    requires k < |run.events|
  {
    var step := run.events[k].step;
    if RestaurantOf(step) != restaurantId || run.results[k].Failure? then bound
    else if step.Register? then (if bound > 0 then bound - 1 else 0)
    else if step.AssignTables? then bound + 1
    else if Recalculates(step) then 0
    else bound
  }

  /**
   * The slack that the first k calls can have built up: one for each party assigned tables since the
   * last renumbering, less one for each registration that found some.
   */
  ghost function SlackBound(run: History, k: nat, restaurantId: Id): nat
    requires k <= |run.events|
  {
    if k == 0 then 0 else SlackBoundAfter(run, k - 1, restaurantId, SlackBound(run, k - 1, restaurantId))
  }

  /** The k-th call keeps the slack within its bound. */
  lemma SlackAfterCall(run: History, k: nat, restaurantId: Id)
    requires 0 < k <= |run.events|
    requires Slack(run.states[k - 1].rows, restaurantId) <= SlackBound(run, k - 1, restaurantId)
    ensures Slack(run.states[k].rows, restaurantId) <= SlackBound(run, k, restaurantId)
  {
    var s, step, clock, now := run.states[k - 1], run.events[k - 1].step, ClockAt(run, k - 1), run.events[k - 1].at;
    assert Ready(s, step, clock, now) by { RunIsReady(run, k - 1); }
    assert Outcome(run.states[k], run.results[k - 1]) == Apply(run.env, s, step, now) by { CallAt(run, k); }
    SlackAfter(run.env, s, step, clock, now, restaurantId);
  }

  /** In every run the slack of a line stays within that bound. */
  lemma {:induction false} SlackIsBounded(run: History, k: nat, restaurantId: Id)
    requires k <= |run.events|
    ensures Slack(run.states[k].rows, restaurantId) <= SlackBound(run, k, restaurantId)
  {
    if k > 0 {
      SlackIsBounded(run, k - 1, restaurantId);
      SlackAfterCall(run, k, restaurantId);
    }
  }

  // ---------------------------------------------------------------- overtaking

  /** Did the j-th call register a party that overtook others at the restaurant? */
  ghost predicate OvertakesAt(run: History, j: nat, restaurantId: Id)
    requires j < |run.events|
  {
    && run.events[j].step.Register? && RestaurantOf(run.events[j].step) == restaurantId && run.results[j].Success?
    && Slack(run.states[j].rows, restaurantId) > 1
  }

  /** None of the first k calls registered a party that overtook others at the restaurant. */
  ghost predicate NobodyOvertakes(run: History, k: nat, restaurantId: Id)
    requires k <= |run.events|
  {
    forall j: nat :: j < k ==> !OvertakesAt(run, j, restaurantId)
  }

  /** The slack bound of a line counts no more parties than were assigned tables. */
  lemma {:induction false} SlackBoundIsLess(run: History, k: nat, restaurantId: Id)
    requires k <= |run.events|
    ensures SlackBound(run, k, restaurantId) <= AssignedSince(run, k, restaurantId)
  {
    if k > 0 { SlackBoundIsLess(run, k - 1, restaurantId); }
  }

  /** It takes two parties assigned tables since the last renumbering for a newcomer to overtake. */
  lemma FewAssignedNobodyOvertakes(run: History, k: nat, restaurantId: Id)
    requires k <= |run.events| && forall j: nat :: j < k ==> AssignedSince(run, j, restaurantId) <= 1
    ensures NobodyOvertakes(run, k, restaurantId)
  {
    forall j: nat | j < k ensures !OvertakesAt(run, j, restaurantId) {
      SlackIsBounded(run, j, restaurantId);
      SlackBoundIsLess(run, j, restaurantId);
    }
  }
}
