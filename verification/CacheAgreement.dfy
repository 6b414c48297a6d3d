/** The live cache against the stored rows: which keys it holds, and how far their copies agree. */
module CacheAgreement {
  import opened QueueTypes
  import opened QueueEntity
  import opened QueueLine
  import opened QueueStore
  import opened Renumbering
  import opened Reordering
  import opened Recalculation
  import opened QueueSteps
  import opened StepEffects
  import opened StoreInvariants
  import opened LineOrder

  type Live = map<Id, LiveEntry>

  /** A row has a live copy iff it waits, and then with the stored estimate. */
  predicate CachedAt(rows: Rows, live: Live, i: nat)
    requires i < |rows|
  {
    var e := rows[i];
    if e.status.WAITING?
    then && e.id in live
         && live[e.id].queueEntryId == e.id
         && live[e.id].restaurantId == e.restaurantId
         && e.estimatedWaitMinutes == Some(live[e.id].currentEta)
    else e.id !in live
  }

  ghost predicate CacheOk(rows: Rows, live: Live) {
    && (forall i: nat :: i < |rows| ==> CachedAt(rows, live, i))
    && (forall id: Id :: id in live ==> SlotOf(rows, id).Some?)
  }

  /** The live copy of a waiting row has the stored position. */
  predicate AgreesAt(rows: Rows, live: Live, i: nat)
    requires i < |rows|
  {
    rows[i].status.WAITING? ==> rows[i].id in live && rows[i].position == Some(live[rows[i].id].position)
  }

  ghost predicate PositionsAgree(rows: Rows, live: Live, restaurantId: Id) {
    forall i: nat :: i < |rows| && rows[i].restaurantId == restaurantId ==> AgreesAt(rows, live, i)
  }

  predicate SameKeyIn(live: Live, after: Live, id: Id) {
    (id in after <==> id in live) && (id in live ==> after[id] == live[id])
  }

  /** What a recalculation does to one row and its live copy: it writes both, or neither. */
  lemma RefreshOfRow(env: Env, rows: Rows, restaurantId: Id, now: Time, live: Live, i: nat)
    returns (written: bool, position: int, eta: int)
    requires UniqueIds(rows) && i < |rows|
    ensures var after := RefreshRows(env, rows, restaurantId, now)[i];
            var cache := RefreshedLive(env, rows, restaurantId, now, live);
            if written
            then && WaitingAt(restaurantId)(rows[i])
                 && after == Placed(rows[i], position, Some(eta), now)
                 && rows[i].id in cache
                 && cache[rows[i].id] == LiveEntry(rows[i].id, restaurantId, position, eta, now)
                 && (rows[i].position == Some(position) ==> rows[i].estimatedWaitMinutes != Some(eta))
            else after == rows[i] && SameKeyIn(live, cache, rows[i].id)
    ensures WaitingAt(restaurantId)(rows[i]) ==> position == PlaceOf<nat>(LineOf(rows, restaurantId), i) + 1
  {
    var line := LineOf(rows, restaurantId);
    var k := PlaceOrNotWaiting(rows, restaurantId, i);
    position, eta := k + 1, 0;
    if k == -1 {
      written := false;
      NotRefreshed(env, rows, restaurantId, now, i);
      forall j | 0 <= j < |line| ensures rows[line[j]].id != rows[i].id {
        if rows[line[j]].id == rows[i].id { SameIdSameSlot(rows, line[j], i); }
        assert line[j] in line;
      }
      UntouchedLive(env, rows, restaurantId, line, |line|, now, live, rows[i].id);
    } else {
      PlaceInLine(line, k);
      written := IsDirty(env, rows, restaurantId, line, k);
      eta := Eta(env, rows, restaurantId, line, k);
      RefreshedAt(env, rows, restaurantId, now, k);
      RefreshedLiveAt(env, rows, restaurantId, line, |line|, now, live, k);
    }
  }

  lemma RefreshKeepsCache(env: Env, rows: Rows, restaurantId: Id, now: Time, live: Live)
    requires UniqueIds(rows) && CacheOk(rows, live)
    ensures CacheOk(RefreshRows(env, rows, restaurantId, now), RefreshedLive(env, rows, restaurantId, now, live))
  {
    var after := RefreshRows(env, rows, restaurantId, now);
    var cache := RefreshedLive(env, rows, restaurantId, now, live);
    forall i: nat | i < |after| ensures CachedAt(after, cache, i) && after[i].id == rows[i].id {
      assert CachedAt(rows, live, i);
      var written, _, _ := RefreshOfRow(env, rows, restaurantId, now, live, i);
    }
    forall id: Id | SlotOf(after, id).None? ensures id !in cache {
      var slot := SlotOf(rows, id);
      forall i | 0 <= i < |rows| ensures rows[i].id != id { assert after[i].id == rows[i].id; }
      var line := LineOf(rows, restaurantId);
      UntouchedLive(env, rows, restaurantId, line, |line|, now, live, id);
    }
  }

  lemma RefreshKeepsAgreement(env: Env, rows: Rows, restaurantId: Id, now: Time, live: Live, other: Id)
    requires UniqueIds(rows) && PositionsAgree(rows, live, other)
    ensures PositionsAgree(RefreshRows(env, rows, restaurantId, now),
                           RefreshedLive(env, rows, restaurantId, now, live), other)
  {
    var after := RefreshRows(env, rows, restaurantId, now);
    var cache := RefreshedLive(env, rows, restaurantId, now, live);
    forall i: nat | i < |after| && after[i].restaurantId == other ensures AgreesAt(after, cache, i) {
      var written, _, _ := RefreshOfRow(env, rows, restaurantId, now, live, i);
      assert rows[i].restaurantId == other ==> AgreesAt(rows, live, i);
    }
  }

  /** Writing an order back changes at most the position and the update time of a row in it. */
  lemma ReorderKeepsRest(rows: Rows, order: seq<nat>, now: Time, i: nat)
    requires InTable(rows, order) && i < |rows|
    ensures var e := Reordered(rows, order, now)[i];
            e == rows[i].(position := e.position, updatedAt := e.updatedAt) && (i !in order ==> e == rows[i])
  {
    PlacingKeepsRest(rows, order, |order|, now, i);
    if i !in order { UntouchedByPlacing(rows, order, |order|, now, i); }
  }

  lemma {:induction false} PlacingKeepsRest(rows: Rows, order: seq<nat>, n: nat, now: Time, i: nat)
    requires InTable(rows, order) && n <= |order| && i < |rows|
    ensures var e := PlaceFirst(rows, order, n, now)[i];
            e == rows[i].(position := e.position, updatedAt := e.updatedAt)
  {
    if n > 0 { PlacingKeepsRest(rows, order, n - 1, now, i); }
  }

  ghost function ShiftOrder(rows: Rows, step: Step, slot: nat): seq<nat>
    requires IsShift(step) && slot < |rows| && WaitingAt(step.restaurantId)(rows[slot])
  {
    ShiftedLine(rows, step.restaurantId, slot, step.skipPositions.value)
  }

  /** The change a call makes itself keeps the cache in step with the rows. */
  lemma ChangeKeepsCache(rows: Rows, live: Live, step: Step, slot: nat, now: Time)
    requires UniqueIds(rows) && CacheOk(rows, live)
    requires !step.Register? && slot < |rows| && WaitingAt(step.restaurantId)(rows[slot])
    requires rows[slot].id == step.queueEntryId && WellFormed(step)
    ensures UniqueIds(ChangedRows(rows, step, slot, now))
    ensures CacheOk(ChangedRows(rows, step, slot, now), ChangedLive(live, step))
  {
    var changed := ChangedRows(rows, step, slot, now);
    var cache := ChangedLive(live, step);
    forall i: nat | i < |rows| ensures CachedAt(changed, cache, i) && changed[i].id == rows[i].id {
      assert CachedAt(rows, live, i);
      if rows[i].id == step.queueEntryId { SameIdSameSlot(rows, i, slot); }
      if IsShift(step) {
        ReorderKeepsRest(rows, ShiftOrder(rows, step, slot), now, i);
      }
    }
    SameIds(rows, changed);
    forall id: Id | id in cache ensures SlotOf(changed, id).Some? {
      StillFound(rows, changed, id);
    }
  }

  /** Any change but a shift keeps the copied positions of a line in agreement. */
  lemma ChangeKeepsAgreement(rows: Rows, live: Live, step: Step, slot: nat, now: Time, restaurantId: Id)
    requires UniqueIds(rows) && PositionsAgree(rows, live, restaurantId) && WellFormed(step)
    requires !step.Register? && slot < |rows| && WaitingAt(step.restaurantId)(rows[slot])
    requires rows[slot].id == step.queueEntryId
    requires !(IsShift(step) && step.restaurantId == restaurantId)
    ensures PositionsAgree(ChangedRows(rows, step, slot, now), ChangedLive(live, step), restaurantId)
  {
    var changed := ChangedRows(rows, step, slot, now);
    var cache := ChangedLive(live, step);
    forall i: nat | i < |changed| && changed[i].restaurantId == restaurantId ensures AgreesAt(changed, cache, i) {
      if rows[i].id == step.queueEntryId { SameIdSameSlot(rows, i, slot); }
      if IsShift(step) {
        ReorderKeepsRest(rows, ShiftOrder(rows, step, slot), now, i);
        assert i in ShiftOrder(rows, step, slot) ==> i in LineOf(rows, step.restaurantId);
      }
      assert rows[i].restaurantId == restaurantId ==> AgreesAt(rows, live, i);
    }
  }

  // ---------------------------------------------------------------- every call and every run

  lemma RegisteringKeepsCache(rows: Rows, live: Live, e: EntryProps, now: Time)
    requires CacheOk(rows, live) && SlotOf(rows, e.id).None?
    requires e.status.WAITING? && e.position.Some? && e.estimatedWaitMinutes.Some?
    ensures var cache := live[e.id := LiveEntry(e.id, e.restaurantId, e.position.value,
                                                e.estimatedWaitMinutes.value, now)];
            CacheOk(rows + [e], cache)
            && forall r: Id :: PositionsAgree(rows, live, r) ==> PositionsAgree(rows + [e], cache, r)
  {
    var cache := live[e.id := LiveEntry(e.id, e.restaurantId, e.position.value, e.estimatedWaitMinutes.value, now)];
    var after := rows + [e];
    forall i: nat | i < |after| ensures CachedAt(after, cache, i) {
      assert i < |rows| ==> CachedAt(rows, live, i);
    }
    forall id: Id | id in cache ensures SlotOf(after, id).Some? {
      if id in live { StillFound(rows, after, id); } else { assert after[|rows|].id == id; }
    }
    forall r: Id | PositionsAgree(rows, live, r) ensures PositionsAgree(after, cache, r) {
      forall i: nat | i < |after| && after[i].restaurantId == r ensures AgreesAt(after, cache, i) {
        assert i < |rows| ==> AgreesAt(rows, live, i);
      }
    }
  }

  lemma StepKeepsCache(env: Env, s: Store, step: Step, now: Time)
    requires WellFormed(step) && UniqueIds(s.rows) && CacheOk(s.rows, s.live)
    ensures var after := Apply(env, s, step, now).store; CacheOk(after.rows, after.live)
  {
    if Apply(env, s, step, now).result.Failure? {
      FailedCallsStutter(env, s, step, now);
    } else if step.Register? {
      RegistrationAppends(env, s, step, now);
      RegisteringKeepsCache(s.rows, s.live, NewEntry(env, s.rows, step.request, step.newId, now), now);
    } else {
      var slot := StepEffect(env, s, step, now);
      LiveEffect(env, s, step, slot, now);
      ChangeKeepsCache(s.rows, s.live, step, slot, now);
      if Recalculates(step) {
        RefreshKeepsCache(env, ChangedRows(s.rows, step, slot, now), step.restaurantId, now, ChangedLive(s.live, step));
      }
    }
  }

  /**
   * In every run, after every call: the cached ids are exactly the ids of the waiting rows, and each
   * cached estimate is the stored one.
   */
  lemma {:induction false} RunCacheOk(run: History, k: nat)
    requires k <= |run.events|
    ensures CacheOk(run.states[k].rows, run.states[k].live)
  {
    if k > 0 {
      RunCacheOk(run, k - 1);
      CallKeepsCache(run, k);
    }
  }

  lemma CallKeepsCache(run: History, k: nat)
    requires 0 < k <= |run.events| && CacheOk(run.states[k - 1].rows, run.states[k - 1].live)
    ensures CacheOk(run.states[k].rows, run.states[k].live)
  {
    assert UniqueIds(run.states[k - 1].rows) by { RunRecordsOk(run, k - 1); }
    CallAt(run, k);
    StepKeepsCache(run.env, run.states[k - 1], run.events[k - 1].step, run.events[k - 1].at);
  }

  lemma CallKeepsAgreement(run: History, k: nat, restaurantId: Id)
    requires 0 < k <= |run.events| && !ShiftsAt(run, k - 1, restaurantId)
    requires PositionsAgree(run.states[k - 1].rows, run.states[k - 1].live, restaurantId)
    ensures PositionsAgree(run.states[k].rows, run.states[k].live, restaurantId)
  {
    assert CacheOk(run.states[k - 1].rows, run.states[k - 1].live) by { RunCacheOk(run, k - 1); }
    assert UniqueIds(run.states[k - 1].rows) by { RunRecordsOk(run, k - 1); }
    CallAt(run, k);
    StepKeepsAgreement(run.env, run.states[k - 1], run.events[k - 1].step, run.events[k - 1].at, restaurantId);
  }

  lemma StepKeepsAgreement(env: Env, s: Store, step: Step, now: Time, restaurantId: Id)
    requires WellFormed(step) && UniqueIds(s.rows) && CacheOk(s.rows, s.live)
    requires PositionsAgree(s.rows, s.live, restaurantId)
    requires !(IsShift(step) && step.restaurantId == restaurantId && Apply(env, s, step, now).result.Success?)
    ensures var after := Apply(env, s, step, now).store; PositionsAgree(after.rows, after.live, restaurantId)
  {
    if Apply(env, s, step, now).result.Failure? {
      FailedCallsStutter(env, s, step, now);
    } else if step.Register? {
      RegistrationAppends(env, s, step, now);
      RegisteringKeepsCache(s.rows, s.live, NewEntry(env, s.rows, step.request, step.newId, now), now);
    } else {
      var slot := StepEffect(env, s, step, now);
      LiveEffect(env, s, step, slot, now);
      ChangeKeepsCache(s.rows, s.live, step, slot, now);
      ChangeKeepsAgreement(s.rows, s.live, step, slot, now, restaurantId);
      if Recalculates(step) {
        RefreshKeepsAgreement(env, ChangedRows(s.rows, step, slot, now), step.restaurantId, now,
                              ChangedLive(s.live, step), restaurantId);
      }
    }
  }

  /** Did the j-th call shift a party of the restaurant? */
  ghost predicate ShiftsAt(run: History, j: nat, restaurantId: Id)
    requires j < |run.events|
  {
    IsShift(run.events[j].step) && run.events[j].step.restaurantId == restaurantId && run.results[j].Success?
  }

  /** While nobody is shifted at a restaurant, the cached positions of its line are the stored ones. */
  lemma {:induction false} RunPositionsAgree(run: History, k: nat, restaurantId: Id)
    requires k <= |run.events| && forall j: nat :: j < k ==> !ShiftsAt(run, j, restaurantId)
    ensures PositionsAgree(run.states[k].rows, run.states[k].live, restaurantId)
  {
    if k > 0 {
      RunPositionsAgree(run, k - 1, restaurantId);
      assert !ShiftsAt(run, k - 1, restaurantId);
      CallKeepsAgreement(run, k, restaurantId);
    }
  }

  // ---------------------------------------------------------------- when copies go stale, and when they heal

  /** The live copy of the row in slot i has another position than the row. */
  predicate IsStale(s: Store, i: nat) {
    && i < |s.rows| && s.rows[i].position.Some? && s.rows[i].id in s.live
    && s.live[s.rows[i].id].position != s.rows[i].position.value
  }

  /** What a shift stores and caches for the party it puts at place m. */
  lemma ShiftOfRow(env: Env, rows: Rows, live: Live, step: Step, slot: nat, now: Time, m: nat)
    requires IsShift(step) && UniqueIds(rows) && CacheOk(rows, live) && WellFormed(step)
    requires slot < |rows| && WaitingAt(step.restaurantId)(rows[slot]) && rows[slot].id == step.queueEntryId
    requires m < |ShiftOrder(rows, step, slot)|
    ensures var order := ShiftOrder(rows, step, slot);
            var eta := Eta(env, rows, step.restaurantId, order, m);
            var e, after := rows[order[m]], RowsAfter(env, rows, step, slot, now)[order[m]];
            var cache := LiveAfter(env, rows, live, step, slot, now);
            && after.id == e.id && after.position == Some(m + 1) && after.estimatedWaitMinutes == Some(eta)
            && (if e.estimatedWaitMinutes == Some(eta) then SameKeyIn(live, cache, e.id)
                else e.id in cache && cache[e.id].position == m + 1)
  {
    var r, order := step.restaurantId, ShiftOrder(rows, step, slot);
    var moved := ChangedRows(rows, step, slot, now);
    assert UniqueIds(moved) by { ChangeKeepsCache(rows, live, step, slot, now); }
    assert LineOf(moved, r) == order && moved[order[m]] == Placed(rows[order[m]], m + 1, None, now) by {
      ShiftSetsLine(rows, r, slot, step.skipPositions.value, now);
    }
    assert Eta(env, moved, r, order, m) == Eta(env, rows, r, order, m) by {
      ReorderKeepsEta(env, rows, r, order, now, m);
    }
    RefreshedAt(env, moved, r, now, m);
    RefreshedLiveAt(env, moved, r, order, |order|, now, live, m);
  }

  lemma ReorderKeepsEta(env: Env, rows: Rows, restaurantId: Id, order: seq<nat>, now: Time, m: nat)
    requires InTable(rows, order) && NoRepeats(order) && m < |order|
    requires forall i: nat :: i in order <==> i in LineOf(rows, restaurantId)
    ensures Eta(env, Reordered(rows, order, now), restaurantId, order, m) == Eta(env, rows, restaurantId, order, m)
  {
    ReorderSetsLine(rows, restaurantId, order, now);
    EtaDependsOnSizes(env, rows, Reordered(rows, order, now), restaurantId, order, m);
  }

  /**
   * After a shift a copy is stale iff it did not show the place its party gets, while the row already
   * had the estimate of that place: the recalculation then finds nothing to write. Both can be read
   * off the old rows and copies and the shifted order.
   */
  lemma StaleAfterShift(env: Env, s: Store, step: Step, slot: nat, now: Time, m: nat)
    requires WellFormed(step) && IsShift(step) && Apply(env, s, step, now).result.Success?
    requires UniqueIds(s.rows) && CacheOk(s.rows, s.live)
    requires Find(s.rows, step.restaurantId, step.queueEntryId) == Some(slot)
    requires WaitingAt(step.restaurantId)(s.rows[slot]) && m < |ShiftOrder(s.rows, step, slot)|
    ensures var order := ShiftOrder(s.rows, step, slot);
            var e := s.rows[order[m]];
            var after := Apply(env, s, step, now).store;
            && |after.rows| == |s.rows| && after.rows[order[m]].id == e.id && e.id in s.live && e.id in after.live
            && after.rows[order[m]].position == Some(m + 1)
            && after.rows[order[m]].estimatedWaitMinutes == Some(Eta(env, s.rows, step.restaurantId, order, m))
            && (IsStale(after, order[m])
                <==> s.live[e.id].position != m + 1
                     && e.estimatedWaitMinutes == Some(Eta(env, s.rows, step.restaurantId, order, m)))
  {
    var found := StepEffect(env, s, step, now);
    LiveEffect(env, s, step, slot, now);
    var i := ShiftOrder(s.rows, step, slot)[m];
    assert i in ShiftOrder(s.rows, step, slot);
    assert i in LineOf(s.rows, step.restaurantId);
    assert CachedAt(s.rows, s.live, i);
    ShiftOfRow(env, s.rows, s.live, step, slot, now, m);
  }

  /** In terms of what the shift did: the copy is stale iff the position changed and the estimate did not. */
  lemma StaleIffOnlyPositionChanged(env: Env, s: Store, step: Step, now: Time, i: nat)
    requires WellFormed(step) && IsShift(step) && Apply(env, s, step, now).result.Success?
    requires UniqueIds(s.rows) && CacheOk(s.rows, s.live) && PositionsAgree(s.rows, s.live, step.restaurantId)
    requires i < |s.rows| && WaitingAt(step.restaurantId)(s.rows[i])
    ensures var after := Apply(env, s, step, now).store;
            && i < |after.rows| && after.rows[i].id in after.live && after.rows[i].position.Some?
            && (after.live[after.rows[i].id].position != after.rows[i].position.value
                <==> after.rows[i].position != s.rows[i].position
                     && after.rows[i].estimatedWaitMinutes == s.rows[i].estimatedWaitMinutes)
  {
    var slot := StepEffect(env, s, step, now);
    var m := PlaceInShift(s.rows, step, slot, i);
    assert AgreesAt(s.rows, s.live, i);
    StaleAfterShift(env, s, step, slot, now, m);
  }

  /** Everybody who waits has a place in the shifted line. */
  lemma PlaceInShift(rows: Rows, step: Step, slot: nat, i: nat) returns (m: nat)
    requires IsShift(step) && slot < |rows| && WaitingAt(step.restaurantId)(rows[slot])
    requires i < |rows| && WaitingAt(step.restaurantId)(rows[i])
    ensures m < |ShiftOrder(rows, step, slot)| && ShiftOrder(rows, step, slot)[m] == i
  {
    assert i in LineOf(rows, step.restaurantId);
    m := PlaceOf<nat>(ShiftOrder(rows, step, slot), i);
  }

  /** The line that a departing party leaves behind. */
  ghost function LeftBehind(rows: Rows, restaurantId: Id, slot: nat): (rest: seq<nat>)
    requires slot < |rows| && WaitingAt(restaurantId)(rows[slot])
    ensures InTable(rows, rest)
  {
    var line := LineOf(rows, restaurantId);
    assert slot in line;
    StillInTable(rows, line, RemoveAt(line, PlaceOf<nat>(line, slot)));
    RemoveAt(line, PlaceOf<nat>(line, slot))
  }

  /** The party at place m of the line left behind waits in it, under another id than the one that left. */
  lemma InTheOldLine(rows: Rows, restaurantId: Id, slot: nat, m: nat)
    requires slot < |rows| && WaitingAt(restaurantId)(rows[slot]) && m < |LeftBehind(rows, restaurantId, slot)|
    ensures WaitingAt(restaurantId)(rows[LeftBehind(rows, restaurantId, slot)[m]])
    ensures LeftBehind(rows, restaurantId, slot)[m] != slot
    ensures UniqueIds(rows) ==> rows[LeftBehind(rows, restaurantId, slot)[m]].id != rows[slot].id
  {
    var line := LineOf(rows, restaurantId);
    assert slot in line;
    var c := PlaceOf<nat>(line, slot);
    var i := LeftBehind(rows, restaurantId, slot)[m];
    assert i == line[if m < c then m else m + 1] && i in line;
    assert DifferAtPlace(line, if m < c then m else m + 1, c);
    if UniqueIds(rows) && rows[i].id == rows[slot].id { SameIdSameSlot(rows, i, slot); }
  }

  lemma RowsLeftBehind(env: Env, rows: Rows, restaurantId: Id, slot: nat, e: EntryProps, m: nat)
    requires UniqueIds(rows) && ByArrival(rows) && slot < |rows| && WaitingAt(restaurantId)(rows[slot])
    requires !e.status.WAITING? && e.id == rows[slot].id && m < |LeftBehind(rows, restaurantId, slot)|
    ensures var order := LeftBehind(rows, restaurantId, slot);
            var changed := rows[slot := e];
            && UniqueIds(changed) && LineOf(changed, restaurantId) == order && changed[order[m]] == rows[order[m]]
            && Eta(env, changed, restaurantId, order, m) == Eta(env, rows, restaurantId, order, m)
  {
    var order := LeftBehind(rows, restaurantId, slot);
    LineWithout(rows, restaurantId, slot, e);
    SameIds(rows, rows[slot := e]);
    forall j | 0 <= j < |order| ensures order[j] != slot { InTheOldLine(rows, restaurantId, slot, j); }
    EtaDependsOnSizes(env, rows, rows[slot := e], restaurantId, order, m);
  }

  /** What the recalculation after a departure stores and caches for the party at place m. */
  lemma DepartureOfRow(env: Env, rows: Rows, live: Live, step: Step, slot: nat, now: Time, m: nat)
    requires IsDeparture(step) && Recalculates(step) && UniqueIds(rows) && ByArrival(rows)
    requires slot < |rows| && WaitingAt(step.restaurantId)(rows[slot]) && rows[slot].id == step.queueEntryId
    requires m < |LeftBehind(rows, step.restaurantId, slot)|
    ensures var order := LeftBehind(rows, step.restaurantId, slot);
            var eta := Eta(env, rows, step.restaurantId, order, m);
            var e, after := rows[order[m]], RowsAfter(env, rows, step, slot, now)[order[m]];
            var cache := LiveAfter(env, rows, live, step, slot, now);
            && after.id == e.id && after.position == Some(m + 1) && after.estimatedWaitMinutes == Some(eta)
            && (if e.position == Some(m + 1) && e.estimatedWaitMinutes == Some(eta) then SameKeyIn(live, cache, e.id)
                else e.id in cache && cache[e.id].position == m + 1)
  {
    var r, order := step.restaurantId, LeftBehind(rows, step.restaurantId, slot);
    var changed := ChangedRows(rows, step, slot, now);
    RowsLeftBehind(env, rows, r, slot, Departed(step, rows[slot], now), m);
    InTheOldLine(rows, r, slot, m);
    RefreshedAt(env, changed, r, now, m);
    RefreshedLiveAt(env, changed, r, order, |order|, now, ChangedLive(live, step), m);
  }

  /**
   * After a departure a copy is stale iff it did not show the place its party gets, while the row
   * already had both that position and the estimate: a stale copy heals unless its own row is left as
   * it was, and no copy goes stale.
   */
  lemma StaleAfterDeparture(env: Env, s: Store, step: Step, slot: nat, now: Time, m: nat)
    requires WellFormed(step) && IsDeparture(step) && Recalculates(step) && Apply(env, s, step, now).result.Success?
    requires UniqueIds(s.rows) && CacheOk(s.rows, s.live) && ByArrival(s.rows)
    requires Find(s.rows, step.restaurantId, step.queueEntryId) == Some(slot)
    requires WaitingAt(step.restaurantId)(s.rows[slot]) && m < |LeftBehind(s.rows, step.restaurantId, slot)|
    ensures var order := LeftBehind(s.rows, step.restaurantId, slot);
            var e := s.rows[order[m]];
            var after := Apply(env, s, step, now).store;
            && |after.rows| == |s.rows| && after.rows[order[m]].id == e.id && e.id in s.live && e.id in after.live
            && after.rows[order[m]].position == Some(m + 1)
            && (IsStale(after, order[m])
                <==> && s.live[e.id].position != m + 1
                     && e.position == Some(m + 1)
                     && e.estimatedWaitMinutes == Some(Eta(env, s.rows, step.restaurantId, order, m)))
            && (IsStale(after, order[m])
                <==> && IsStale(s, order[m])
                     && after.rows[order[m]].position == e.position
                     && after.rows[order[m]].estimatedWaitMinutes == e.estimatedWaitMinutes)
  {
    var found := StepEffect(env, s, step, now);
    LiveEffect(env, s, step, slot, now);
    var i := LeftBehind(s.rows, step.restaurantId, slot)[m];
    InTheOldLine(s.rows, step.restaurantId, slot, m);
    assert CachedAt(s.rows, s.live, i);
    DepartureOfRow(env, s.rows, s.live, step, slot, now, m);
  }

  /** A call that does not recalculate the line of a party which stays neither spoils nor heals its copy. */
  lemma OtherCallsKeepCopies(env: Env, s: Store, step: Step, now: Time, i: nat)
    requires WellFormed(step) && UniqueIds(s.rows) && i < |s.rows| && s.rows[i].status.WAITING?
    requires s.rows[i].restaurantId != RestaurantOf(step) || Apply(env, s, step, now).result.Failure?
             || !Recalculates(step)
    ensures var after := Apply(env, s, step, now).store;
            i < |after.rows| && (after.rows[i].status.WAITING? ==> (IsStale(after, i) <==> IsStale(s, i)))
  {
    if Apply(env, s, step, now).result.Failure? {
      FailedCallsStutter(env, s, step, now);
    } else if step.Register? {
      RegistrationAppends(env, s, step, now);
      NewIdsAreNew(s.rows, step.newId, i);
    } else {
      var slot := StepEffect(env, s, step, now);
      LiveEffect(env, s, step, slot, now);
      CopyOfBystander(env, s.rows, s.live, step, slot, now, i);
    }
  }

  lemma NewIdsAreNew(rows: Rows, id: Id, i: nat)
    requires SlotOf(rows, id).None? && i < |rows|
    ensures rows[i].id != id
  {
  }

  lemma CopyOfBystander(env: Env, rows: Rows, live: Live, step: Step, slot: nat, now: Time, i: nat)
    requires !step.Register? && UniqueIds(rows)
    requires slot < |rows| && WaitingAt(step.restaurantId)(rows[slot]) && rows[slot].id == step.queueEntryId
    requires i < |rows| && (rows[i].restaurantId != step.restaurantId || !Recalculates(step))
    ensures var after := RowsAfter(env, rows, step, slot, now)[i];
            after.status.WAITING? ==>
              && after.id == rows[i].id && after.position == rows[i].position
              && SameKeyIn(live, LiveAfter(env, rows, live, step, slot, now), rows[i].id)
  {
    if rows[i].id == step.queueEntryId { SameIdSameSlot(rows, i, slot); }
    if Recalculates(step) {
      var changed := ChangedRows(rows, step, slot, now);
      OtherRowsKept(env, rows, step, slot, now);
      ChangeKeepsIds(rows, step, slot, now, i);
      var written, _, _ := RefreshOfRow(env, changed, step.restaurantId, now, ChangedLive(live, step), i);
    }
  }

  lemma ChangeKeepsIds(rows: Rows, step: Step, slot: nat, now: Time, i: nat)
    requires !step.Register? && UniqueIds(rows) && i < |rows| && rows[i].restaurantId != step.restaurantId
    requires slot < |rows| && WaitingAt(step.restaurantId)(rows[slot])
    ensures UniqueIds(ChangedRows(rows, step, slot, now)) && ChangedRows(rows, step, slot, now)[i] == rows[i]
  {
    var changed := ChangedRows(rows, step, slot, now);
    if IsShift(step) {
      forall j: nat | j < |rows| ensures changed[j].id == rows[j].id {
        ReorderKeepsRest(rows, ShiftOrder(rows, step, slot), now, j);
      }
      assert i !in ShiftOrder(rows, step, slot) by { assert i !in LineOf(rows, step.restaurantId); }
      ReorderKeepsRest(rows, ShiftOrder(rows, step, slot), now, i);
    }
    SameIds(rows, changed);
  }
}
