/** Reachable states in which the redundant copies of a line differ. */
module Divergences {
  import opened QueueTypes
  import opened QueueEntity
  import opened QueueLine
  import opened QueueStore
  import opened Renumbering
  import opened Reordering
  import opened Recalculation
  import opened DisplayNumbers
  import opened SeatPlans
  import opened QueueSteps
  import opened QueueRepository
  import opened StepEffects
  import opened RowLifecycle
  import opened StoreInvariants
  import opened LineOrder
  import opened ExactLines
  import opened Shifting
  import opened CacheAgreement
  import opened Departures
  import opened FallingEstimates
  import opened StaffView

  // ---------------------------------------------------------------- stale copies

  /**
   * With the fallback estimate: if the first two parties of an exact line are single guests whose
   * copies agree, sending the first one place back leaves both copies with the old position.
   */
  lemma ShiftOfFirstLeavesTwoStale(env: Env, s: Store, step: Step, slot: nat, now: Time)
    requires UsesFallback(env) && WellFormed(step) && IsShift(step) && step.skipPositions == Some(1)
    requires Apply(env, s, step, now).result.Success?
    requires UniqueIds(s.rows) && CacheOk(s.rows, s.live) && PositionsAgree(s.rows, s.live, step.restaurantId)
    requires IsClean(env, s.rows, step.restaurantId)
    requires Find(s.rows, step.restaurantId, step.queueEntryId) == Some(slot)
    requires var line := LineOf(s.rows, step.restaurantId);
             && |line| >= 2 && line[0] == slot
             && s.rows[line[0]].partySize == 1 && s.rows[line[1]].partySize == 1
    ensures IsStale(Apply(env, s, step, now).store, LineOf(s.rows, step.restaurantId)[0])
    ensures IsStale(Apply(env, s, step, now).store, LineOf(s.rows, step.restaurantId)[1])
  {
    HeadOfLine(env, s.rows, step, slot);
    StaysBehind(env, s, step, slot, now, 0, 1);
    StaysBehind(env, s, step, slot, now, 1, 2);
  }

  lemma StaysBehind(env: Env, s: Store, step: Step, slot: nat, now: Time, m: nat, position: int)
    requires WellFormed(step) && IsShift(step) && Apply(env, s, step, now).result.Success?
    requires UniqueIds(s.rows) && CacheOk(s.rows, s.live) && PositionsAgree(s.rows, s.live, step.restaurantId)
    requires Find(s.rows, step.restaurantId, step.queueEntryId) == Some(slot)
    requires WaitingAt(step.restaurantId)(s.rows[slot]) && m < |ShiftOrder(s.rows, step, slot)|
    requires var order := ShiftOrder(s.rows, step, slot);
             && position == m + 1 && s.rows[order[m]].position != Some(position)
             && s.rows[order[m]].estimatedWaitMinutes == Some(Eta(env, s.rows, step.restaurantId, order, m))
    ensures IsStale(Apply(env, s, step, now).store, ShiftOrder(s.rows, step, slot)[m])
  {
    PlacesInShiftWait(s.rows, step, slot, m);
    ShownAsStored(s, step.restaurantId, ShiftOrder(s.rows, step, slot)[m]);
    StaleAfterShift(env, s, step, slot, now, m);
  }

  lemma PlacesInShiftWait(rows: Rows, step: Step, slot: nat, m: nat)
    requires IsShift(step) && slot < |rows| && WaitingAt(step.restaurantId)(rows[slot])
    requires m < |ShiftOrder(rows, step, slot)|
    ensures WaitingAt(step.restaurantId)(rows[ShiftOrder(rows, step, slot)[m]])
  {
    assert ShiftOrder(rows, step, slot)[m] in LineOf(rows, step.restaurantId);
  }

  lemma ShownAsStored(s: Store, restaurantId: Id, i: nat)
    requires PositionsAgree(s.rows, s.live, restaurantId) && i < |s.rows| && WaitingAt(restaurantId)(s.rows[i])
    ensures s.rows[i].id in s.live && s.rows[i].position == Some(s.live[s.rows[i].id].position)
  {
    assert AgreesAt(s.rows, s.live, i);
  }

  /** The shifted order at the head of the line, and what the old rows say there. */
  lemma HeadOfLine(env: Env, rows: Rows, step: Step, slot: nat)
    requires UsesFallback(env) && IsShift(step) && step.skipPositions == Some(1)
    requires slot < |rows| && WaitingAt(step.restaurantId)(rows[slot]) && IsClean(env, rows, step.restaurantId)
    requires var line := LineOf(rows, step.restaurantId);
             && |line| >= 2 && line[0] == slot
             && rows[line[0]].partySize == 1 && rows[line[1]].partySize == 1
    ensures var line, order := LineOf(rows, step.restaurantId), ShiftOrder(rows, step, slot);
            && |order| >= 2 && order[0] == line[1] && order[1] == line[0]
            && Eta(env, rows, step.restaurantId, order, 0) == 5 && Eta(env, rows, step.restaurantId, order, 1) == 5
            && rows[line[0]].position == Some(1) && rows[line[0]].estimatedWaitMinutes == Some(5)
            && rows[line[1]].position == Some(2) && rows[line[1]].estimatedWaitMinutes == Some(5)
  {
    var line := LineOf(rows, step.restaurantId);
    PlaceInLine(line, 0);
    FirstTwoSwap(line);
    FirstTwoEtas(env, rows, step.restaurantId, line);
    FirstTwoEtas(env, rows, step.restaurantId, ShiftOrder(rows, step, slot));
    assert !IsDirty(env, rows, step.restaurantId, line, 0);
    assert !IsDirty(env, rows, step.restaurantId, line, 1);
  }

  lemma FirstTwoSwap(line: seq<nat>)
    requires |line| >= 2
    ensures MoveBack(line, 0, 1)[0] == line[1] && MoveBack(line, 0, 1)[1] == line[0]
  {
    MovedFrom(line, 0, 1, 0);
    MovedFrom(line, 0, 1, 1);
  }

  /** Nobody ahead and one guest ahead give the same fallback estimate. */
  lemma FirstTwoEtas(env: Env, rows: Rows, restaurantId: Id, line: seq<nat>)
    requires UsesFallback(env) && InTable(rows, line) && |line| >= 2 && rows[line[0]].partySize == 1
    ensures Eta(env, rows, restaurantId, line, 0) == 5 && Eta(env, rows, restaurantId, line, 1) == 5
  {
    assert line[..0] == [] && line[..1] == [line[0]];
    PeopleOfOne(rows, line[0]);
    FallbackIs(0);
    FallbackIs(1);
  }

  // ---------------------------------------------------------------- building runs

  const R: Id := "R"

  const OPEN_HOUSE := RestaurantAnswers(Some(RestaurantStatus(false, true, Some("QUEUE_PRO"))),
                                        Some(TableCheck(true, true, false, 0)))

  /** A walk-in party registers. */
  function Joining(id: Id, phone: string, size: nat): Step {
    Register(Registration(R, None, None, phone, size, None), OPEN_HOUSE, id)
  }

  function Last(run: Run): Store
    requires |run.states| > 0
  {
    run.states[|run.states| - 1]
  }

  /** All calls of the run came before `now`, and succeeded. */
  ghost predicate Smooth(run: History, now: Time) {
    && (forall j :: 0 <= j < |run.events| ==> run.events[j].at < now)
    && (forall j :: 0 <= j < |run.results| ==> run.results[j].Success?)
  }

  /** One more call at the end of a run. */
  lemma Extend(run: History, step: Step, now: Time) returns (longer: History)
    requires WellFormed(step) && Smooth(run, now)
    ensures longer.env == run.env && longer.events == run.events + [Event(step, now)]
    ensures longer.states == run.states + [Apply(run.env, Last(run), step, now).store]
    ensures Apply(run.env, Last(run), step, now).result.Success? ==> Smooth(longer, now + 1)
  {
    longer := Appended(run, step, now, Apply(run.env, Last(run), step, now));
  }

  lemma Appended(run: History, step: Step, now: Time, outcome: Outcome) returns (longer: History)
    requires WellFormed(step) && Smooth(run, now) && outcome == Apply(run.env, Last(run), step, now)
    ensures longer == Run(run.env, run.events + [Event(step, now)], run.results + [outcome.result],
                          run.states + [outcome.store])
  {
    var all := Run(run.env, run.events + [Event(step, now)], run.results + [outcome.result],
                   run.states + [outcome.store]);
    forall j: nat, k: nat | j < k < |all.events| ensures TicksAt(all, j, k) {
      assert k < |run.events| ==> TicksAt(run, j, k);
    }
    forall k: nat | k < |all.events| ensures MovesAt(all, k) {
      if k < |run.events| { StillMoves(run, all, k); }
    }
    longer := all;
  }

  /** The calls of a run lead from store to store in a longer one, too. */
  lemma StillMoves(run: History, longer: Run, k: nat)
    requires Fits(longer) && k < |run.events| < |longer.events| && longer.env == run.env
    requires longer.events[k] == run.events[k] && longer.results[k] == run.results[k]
    requires longer.states[k] == run.states[k] && longer.states[k + 1] == run.states[k + 1]
    ensures MovesAt(longer, k)
  {
    assert MovesAt(run, k);
  }

  /** The last store of a run is ready for one. */
  lemma ReadyFor(run: History, step: Step, now: Time) returns (clock: Time)
    requires WellFormed(step) && Smooth(run, now)
    ensures Ready(Last(run), step, clock, now)
  {
    var n := |run.events|;
    var longer := Extend(run, step, now);
    clock := ClockAt(longer, n);
    assert longer.states[n] == Last(run) && longer.events[n] == Event(step, now);
    RunIsReady(longer, n);
  }

  lemma NoneSelected(rows: Rows, p: EntryProps -> bool)
    requires forall i :: 0 <= i < |rows| ==> !p(rows[i])
    ensures Select(rows, p) == []
  {
    NothingIn(Select(rows, p));
  }

  /** Nobody in the table has the id or the phone number. */
  predicate IsNew(rows: Rows, id: Id, phone: string) {
    Trim(phone) == phone && forall i :: 0 <= i < |rows| ==> rows[i].id != id && rows[i].phone != phone
  }

  /** A party with a new id and a new phone number gets in. */
  lemma GetsIn(env: Env, s: Store, id: Id, phone: string, size: nat, now: Time)
    requires 1 <= size <= 20 && IsNew(s.rows, id, phone)
    ensures Apply(env, s, Joining(id, phone, size), now).result.Success?
  {
    NoneSelected(s.rows, HasPhone(R, phone));
  }

  predicate IsParty(e: EntryProps, id: Id, phone: string, size: nat) {
    e.id == id && e.phone == phone && e.partySize == size
  }

  /** The rows are the old ones and one more party, numbered and quoted for the end of the line. */
  ghost predicate HasJoined(env: Env, rows: Rows, after: Rows, id: Id, phone: string, size: nat) {
    && |after| == |rows| + 1 && after[..|rows|] == rows
    && IsParty(after[|rows|], id, phone, size)
    && after[|rows|].position == Some(|LineOf(rows, R)| + 1)
    && after[|rows|].estimatedWaitMinutesAtJoin == Some(env.predict(R, People(rows, LineOf(rows, R)), size))
  }

  /** The store after a party has joined. */
  lemma PartyJoins(env: Env, s: Store, clock: Time, id: Id, phone: string, size: nat, now: Time)
    requires Ready(s, Joining(id, phone, size), clock, now) && IsNew(s.rows, id, phone)
    ensures var after := Apply(env, s, Joining(id, phone, size), now).store.rows;
            var line := LineOf(s.rows, R);
            && HasJoined(env, s.rows, after, id, phone, size)
            && LineOf(after, R) == InsertAt<nat>(line, UpTo(s.rows, line, |line| + 1), |s.rows|)
  {
    GetsIn(env, s, id, phone, size, now);
    RegistrationAppends(env, s, Joining(id, phone, size), now);
    LineTotals(s.rows, R);
    OwnLineAfter(env, s, Joining(id, phone, size), clock, now);
  }

  /** The run with one more party. */
  lemma Join(run: History, id: Id, phone: string, size: nat, now: Time) returns (longer: History)
    requires Smooth(run, now) && 1 <= size <= 20 && IsNew(Last(run).rows, id, phone)
    ensures longer.env == run.env && longer.events == run.events + [Event(Joining(id, phone, size), now)]
    ensures Smooth(longer, now + 1) && Last(longer) == Apply(run.env, Last(run), Joining(id, phone, size), now).store
    ensures var rows := Last(run).rows;
            var line := LineOf(rows, R);
            && HasJoined(run.env, rows, Last(longer).rows, id, phone, size)
            && LineOf(Last(longer).rows, R) == InsertAt<nat>(line, UpTo(rows, line, |line| + 1), |rows|)
  {
    longer := Extend(run, Joining(id, phone, size), now);
    var clock := ReadyFor(run, Joining(id, phone, size), now);
    GetsIn(run.env, Last(run), id, phone, size, now);
    PartyJoins(run.env, Last(run), clock, id, phone, size, now);
  }

  /** Behind an exact line the next party goes last. */
  lemma JoinLast(run: History, id: Id, phone: string, size: nat, now: Time) returns (longer: History)
    requires Smooth(run, now) && 1 <= size <= 20 && IsNew(Last(run).rows, id, phone)
    requires IsClean(run.env, Last(run).rows, R)
    ensures longer.env == run.env && longer.events == run.events + [Event(Joining(id, phone, size), now)]
    ensures Smooth(longer, now + 1)
    ensures var rows := Last(run).rows;
            && HasJoined(run.env, rows, Last(longer).rows, id, phone, size)
            && LineOf(Last(longer).rows, R) == LineOf(rows, R) + [|rows|]
            && IsClean(run.env, Last(longer).rows, R)
  {
    longer := Join(run, id, phone, size, now);
    var clock := ReadyFor(run, Joining(id, phone, size), now);
    GetsIn(run.env, Last(run), id, phone, size, now);
    RegistrationKeepsClean(run.env, Last(run), Joining(id, phone, size), clock, now);
  }

  lemma NobodyYet(rows: Rows)
    requires rows == []
    ensures LineOf(rows, R) == []
  {
    NothingIn(LineOf(rows, R));
  }

  lemma ShortPhones()
    ensures forall phone :: phone in {"1", "2", "3", "4", "5"} ==> Trim(phone) == phone
  {
  }

  const FIRST := Event(Joining("a", "1", 1), 1)
  const SECOND := Event(Joining("b", "2", 1), 2)
  const THIRD := Event(Joining("c", "3", 1), 3)

  lemma OneGuest(env: Env) returns (run: History)
    ensures run.env == env && run.events == [FIRST] && Smooth(run, 2)
    ensures var rows := Last(run).rows;
            && |rows| == 1 && IsParty(rows[0], "a", "1", 1)
            && LineOf(rows, R) == [0] && IsClean(env, rows, R)
  {
    var start := RunOf(env, []);
    NobodyYet(Last(start).rows);
    ShortPhones();
    run := JoinLast(start, "a", "1", 1, 1);
  }

  /** A restaurant with two single guests: "a" at the head of the line, "b" behind. */
  lemma TwoGuests(env: Env) returns (run: History)
    ensures run.env == env && run.events == [FIRST, SECOND] && Smooth(run, 3)
    ensures var rows := Last(run).rows;
            && |rows| == 2 && IsParty(rows[0], "a", "1", 1) && IsParty(rows[1], "b", "2", 1)
            && LineOf(rows, R) == [0, 1] && IsClean(env, rows, R)
  {
    var one := OneGuest(env);
    ShortPhones();
    run := JoinLast(one, "b", "2", 1, 2);
  }

  const SEND_BACK := SkipParty(R, "a", "staff", Some(1))

  /**
   * Three calls after which the staff's view and the stored line differ, and both live copies are
   * stale: two guests join and the first is sent one place back.
   */
  lemma ShiftPartsTheCopies(env: Env) returns (run: History)
    requires UsesFallback(env)
    ensures run.env == env && run.events == [FIRST, SECOND, Event(SEND_BACK, 3)] && Smooth(run, 4)
    ensures LineOf(Last(run).rows, R) == [1, 0] && Snapshot(Last(run).rows, R, WAITING, ALL) == [0, 1]
    ensures IsStale(Last(run), 0) && IsStale(Last(run), 1)
  {
    var two := TwoGuests(env);
    assert two.events[0] == FIRST && two.events[1] == SECOND;
    run := SendBack(two);
  }

  /** The first of two guests is sent one place back. */
  lemma SendBack(two: History) returns (run: History)
    requires UsesFallback(two.env) && Smooth(two, 3)
    requires |two.events| == 2 && two.events[0].step.Register? && two.events[1].step.Register?
    requires var rows := Last(two).rows;
             && |rows| == 2 && IsParty(rows[0], "a", "1", 1) && IsParty(rows[1], "b", "2", 1)
             && LineOf(rows, R) == [0, 1] && IsClean(two.env, rows, R)
    ensures run.env == two.env && run.events == two.events + [Event(SEND_BACK, 3)] && Smooth(run, 4)
    ensures LineOf(Last(run).rows, R) == [1, 0] && Snapshot(Last(run).rows, R, WAITING, ALL) == [0, 1]
    ensures IsStale(Last(run), 0) && IsStale(Last(run), 1)
  {
    run := Extend(two, SEND_BACK, 3);
    var clock := ReadyFor(two, SEND_BACK, 3);
    CopiesOfTwo(two);
    ShiftOfTwoGoesStale(two.env, Last(two), clock);
  }

  lemma ShiftOfTwoGoesStale(env: Env, s: Store, clock: Time)
    requires Ready(s, SEND_BACK, clock, 3) && LineOf(s.rows, R) == [0, 1]
    requires |s.rows| == 2 && s.rows[0].id == "a" && s.rows[0].partySize == 1 && s.rows[1].partySize == 1
    requires CacheOk(s.rows, s.live) && PositionsAgree(s.rows, s.live, R)
    requires UsesFallback(env) && IsClean(env, s.rows, R)
    ensures Apply(env, s, SEND_BACK, 3).result.Success?
    ensures var after := Apply(env, s, SEND_BACK, 3).store;
            && LineOf(after.rows, R) == [1, 0] && Snapshot(after.rows, R, WAITING, ALL) == [0, 1]
            && IsStale(after, 0) && IsStale(after, 1)
  {
    ShiftOfTwo(env, s, clock);
    ShiftOfFirstLeavesTwoStale(env, s, SEND_BACK, 0, 3);
  }

  /** Before the shift, all copies agree. */
  lemma CopiesOfTwo(run: History)
    requires |run.events| == 2 && run.events[0].step.Register? && run.events[1].step.Register?
    ensures UniqueIds(Last(run).rows) && CacheOk(Last(run).rows, Last(run).live)
    ensures PositionsAgree(Last(run).rows, Last(run).live, R)
  {
    RunRecordsOk(run, 2);
    RunCacheOk(run, 2);
    RunPositionsAgree(run, 2, R);
  }

  lemma ShiftOfTwo(env: Env, s: Store, clock: Time)
    requires Ready(s, SEND_BACK, clock, 3) && LineOf(s.rows, R) == [0, 1]
    requires |s.rows| == 2 && s.rows[0].id == "a"
    ensures Find(s.rows, R, "a") == Some(0) && Apply(env, s, SEND_BACK, 3).result.Success?
    ensures LineOf(Apply(env, s, SEND_BACK, 3).store.rows, R) == [1, 0]
    ensures Snapshot(Apply(env, s, SEND_BACK, 3).store.rows, R, WAITING, ALL) == [0, 1]
  {
    FirstIsFound(s.rows);
    ShiftSucceedsIff(env, s, SEND_BACK, 3);
    ShiftKeepsView(env, s, SEND_BACK, clock, 3, ALL);
    FirstSentBack(s.rows);
    ViewOfTwo(s.rows);
  }

  lemma FirstIsFound(rows: Rows)
    requires UniqueIds(rows) && LineOf(rows, R) == [0, 1] && |rows| == 2 && rows[0].id == "a"
    ensures Find(rows, R, "a") == Some(0) && WaitingAt(R)(rows[0])
  {
    assert 0 in LineOf(rows, R);
    SlotIs(rows, 0);
  }

  lemma FirstSentBack(rows: Rows)
    requires LineOf(rows, R) == [0, 1] && |rows| == 2 && WaitingAt(R)(rows[0])
    ensures ShiftedLine(rows, R, 0, 1) == [1, 0]
  {
    PlaceInLine(LineOf(rows, R), 0);
    FirstTwoSwap([0, 1]);
  }

  lemma ViewOfTwo(rows: Rows)
    requires LineOf(rows, R) == [0, 1] && ByArrival(rows)
    ensures Snapshot(rows, R, WAITING, ALL) == [0, 1]
  {
    AppendRises([0], 1);
    RisingLineIsShown(rows, R);
  }

  // ---------------------------------------------------------------- overtaking

  function SeatWithoutRenumbering(id: Id): Step {
    AssignTables(R, id, "staff", [TableSeats("table", 1)], true)
  }

  lemma AssignSucceeds(env: Env, s: Store, step: Step, slot: nat, now: Time)
    requires WellFormed(step) && step.AssignTables? && step.upstreamOk
    requires Find(s.rows, step.restaurantId, step.queueEntryId) == Some(slot) && s.rows[slot].status.WAITING?
    requires s.rows[slot].partySize <= Total(step.tables)
    ensures Apply(env, s, step, now).result.Success?
    ensures Apply(env, s, step, now).store.rows == s.rows[slot := Seated(s.rows[slot], now)]
  {
  }

  lemma HeadIsFound(rows: Rows, id: Id)
    requires UniqueIds(rows) && LineOf(rows, R) != [] && rows[LineOf(rows, R)[0]].id == id
    ensures var head := LineOf(rows, R)[0];
            Find(rows, R, id) == Some(head) && WaitingAt(R)(rows[head]) && PlaceOf<nat>(LineOf(rows, R), head) == 0
  {
    var line := LineOf(rows, R);
    assert line[0] in line;
    SlotIs(rows, line[0]);
    PlaceInLine(line, 0);
  }

  /** The first party of the line is given a table; the others keep their positions. */
  lemma HeadIsSeated(env: Env, s: Store, id: Id, clock: Time, now: Time)
    requires Ready(s, SeatWithoutRenumbering(id), clock, now) && LineOf(s.rows, R) != []
    requires var e := s.rows[LineOf(s.rows, R)[0]]; e.id == id && e.partySize == 1
    ensures Apply(env, s, SeatWithoutRenumbering(id), now).result.Success?
    ensures var line := LineOf(s.rows, R);
            var after := Apply(env, s, SeatWithoutRenumbering(id), now).store.rows;
            && after == s.rows[line[0] := Seated(s.rows[line[0]], now)]
            && LineOf(after, R) == line[1..]
  {
    var head := LineOf(s.rows, R)[0];
    HeadIsFound(s.rows, id);
    TotalOfOne(TableSeats("table", 1));
    AssignSucceeds(env, s, SeatWithoutRenumbering(id), head, now);
    LineWithout(s.rows, R, head, Seated(s.rows[head], now));
  }

  lemma TotalOfOne(seats: TableSeats)
    ensures Total([seats]) == seats.count
  {
    assert [seats][..0] == [];
  }

  lemma SeatHead(run: History, id: Id, now: Time) returns (longer: History)
    requires Smooth(run, now) && LineOf(Last(run).rows, R) != []
    requires var e := Last(run).rows[LineOf(Last(run).rows, R)[0]]; e.id == id && e.partySize == 1
    ensures longer.env == run.env && longer.events == run.events + [Event(SeatWithoutRenumbering(id), now)]
    ensures Smooth(longer, now + 1)
    ensures var rows := Last(run).rows;
            var line := LineOf(rows, R);
            && Last(longer).rows == rows[line[0] := Seated(rows[line[0]], now)]
            && LineOf(Last(longer).rows, R) == line[1..]
  {
    NoRepeatsInOne("table");
    longer := Extend(run, SeatWithoutRenumbering(id), now);
    var clock := ReadyFor(run, SeatWithoutRenumbering(id), now);
    HeadIsSeated(run.env, Last(run), id, clock, now);
  }

  lemma NoRepeatsInOne(id: Id)
    ensures TableIdsOf([TableSeats(id, 1)]) == [id] && NoRepeats([id])
  {
  }

  /** The third guest, as it joined: in the third position, with two guests ahead. */
  ghost predicate IsThird(env: Env, e: EntryProps) {
    IsParty(e, "c", "3", 1) && e.position == Some(3) && e.estimatedWaitMinutesAtJoin == Some(env.predict(R, 2, 1))
  }

  /** Three single guests in an exact line. */
  lemma ThreeGuests(env: Env) returns (run: History)
    ensures run.env == env && run.events == [FIRST, SECOND, THIRD] && Smooth(run, 4)
    ensures var rows := Last(run).rows;
            && |rows| == 3 && IsParty(rows[0], "a", "1", 1) && IsParty(rows[1], "b", "2", 1) && IsThird(env, rows[2])
            && LineOf(rows, R) == [0, 1, 2]
  {
    var two := TwoGuests(env);
    ShortPhones();
    run := JoinLast(two, "c", "3", 1, 3);
    TwoPeople(Last(two).rows);
  }

  lemma TwoPeople(rows: Rows)
    requires |rows| == 2 && rows[0].partySize == 1 && rows[1].partySize == 1
    ensures People(rows, [0, 1]) == 2
  {
    assert [0, 1] == [0] + [1];
    PeopleOfBoth(rows, [0], [1]);
    PeopleOfOne(rows, 0);
    PeopleOfOne(rows, 1);
  }

  const SEAT_FIRST := Event(SeatWithoutRenumbering("a"), 4)
  const SEAT_SECOND := Event(SeatWithoutRenumbering("b"), 5)

  /** A line with two seated at its head without renumbering: one guest is left, at position 3. */
  lemma TwoSeated(env: Env) returns (run: History)
    ensures run.env == env && run.events == [FIRST, SECOND, THIRD, SEAT_FIRST, SEAT_SECOND] && Smooth(run, 6)
    ensures ThirdIsLeft(env, Last(run).rows)
  {
    var three := ThreeGuests(env);
    var four := SeatHead(three, "a", 4);
    run := SeatHead(four, "b", 5);
  }

  /** The fourth party stands ahead of the third guest, who keeps position 3. */
  lemma FourthParty(env: Env, size: nat) returns (run: History)
    requires 1 <= size <= 20
    ensures run.env == env && Smooth(run, 7)
    ensures run.events == [FIRST, SECOND, THIRD, SEAT_FIRST, SEAT_SECOND, Event(Joining("d", "4", size), 6)]
    ensures Overtaken(env, Last(run).rows, size)
  {
    var five := TwoSeated(env);
    run := JoinAhead(five, size);
  }

  /** The fourth party waits at the head, in position 2, and the third guest behind it, in position 3. */
  ghost predicate Overtaken(env: Env, rows: Rows, size: nat) {
    && |rows| == 4 && IsParty(rows[0], "a", "1", 1) && IsParty(rows[1], "b", "2", 1) && IsThird(env, rows[2])
    && IsParty(rows[3], "d", "4", size) && rows[3].position == Some(2)
    && LineOf(rows, R) == [3, 2]
  }

  /** Two were assigned tables, and the third guest is left. */
  ghost predicate ThirdIsLeft(env: Env, rows: Rows) {
    && |rows| == 3 && IsParty(rows[0], "a", "1", 1) && IsParty(rows[1], "b", "2", 1) && IsThird(env, rows[2])
    && LineOf(rows, R) == [2]
  }

  lemma JoinAhead(five: History, size: nat) returns (run: History)
    requires 1 <= size <= 20 && Smooth(five, 6) && ThirdIsLeft(five.env, Last(five).rows)
    ensures run.env == five.env && run.events == five.events + [Event(Joining("d", "4", size), 6)] && Smooth(run, 7)
    ensures Overtaken(five.env, Last(run).rows, size)
  {
    FourthIsNew(five.env, Last(five).rows);
    run := Join(five, "d", "4", size, 6);
    FourthIsAhead(five.env, Last(five).rows, Last(run).rows, size);
  }

  lemma FourthIsNew(env: Env, rows: Rows)
    requires ThirdIsLeft(env, rows)
    ensures IsNew(rows, "d", "4")
  {
    ShortPhones();
  }

  lemma FourthIsAhead(env: Env, rows: Rows, after: Rows, size: nat)
    requires ThirdIsLeft(env, rows) && HasJoined(env, rows, after, "d", "4", size)
    requires var line := LineOf(rows, R);
             LineOf(after, R) == InsertAt<nat>(line, UpTo(rows, line, |line| + 1), |rows|)
    ensures Overtaken(env, after, size)
  {
    FourthGoesFirst(rows, LineOf(rows, R));
    StillThere(env, rows, after, "d", "4", size);
  }

  lemma StillThere(env: Env, rows: Rows, after: Rows, id: Id, phone: string, size: nat)
    requires HasJoined(env, rows, after, id, phone, size)
    ensures forall i :: 0 <= i < |rows| ==> after[i] == rows[i]
  {
    forall i | 0 <= i < |rows| ensures after[i] == rows[i] { assert after[..|rows|][i] == rows[i]; }
  }

  /** A party that joins in position 2 sorts ahead of the one in position 3. */
  lemma FourthGoesFirst(rows: Rows, line: seq<nat>)
    requires line == [2] && |rows| == 3 && rows[2].position == Some(3)
    ensures InsertAt<nat>(line, UpTo(rows, line, |line| + 1), |rows|) == [3, 2]
  {
  }

  lemma JoinedInTurn(run: History)
    requires |Last(run).rows| == 4
    ensures Last(run).rows[2].joinedAt < Last(run).rows[3].joinedAt
  {
    RunRowsOk(run, |run.events|);
    assert JoinedBefore(Last(run).rows, 2, 3);
  }

  /**
   * A run in which a newcomer overtakes a waiting guest though nobody is shifted: three join, the
   * first two are assigned tables, and the fourth party, of any size, goes ahead of the third.
   */
  lemma NewcomerGoesAhead(env: Env, size: nat) returns (run: History)
    requires 1 <= size <= 20
    ensures run.env == env && Smooth(run, 7)
    ensures run.events == [FIRST, SECOND, THIRD, SEAT_FIRST, SEAT_SECOND, Event(Joining("d", "4", size), 6)]
    ensures LineOf(Last(run).rows, R) == [3, 2]
    ensures |Last(run).rows| == 4 && Last(run).rows[2].joinedAt < Last(run).rows[3].joinedAt
  {
    run := FourthParty(env, size);
    JoinedInTurn(run);
  }

  // ---------------------------------------------------------------- a longer wait for the overtaken

  const GIVE_UP := SkipParty(R, "e", "staff", None)

  /** A fifth guest stands behind both. */
  ghost predicate FifthIsLast(env: Env, rows: Rows) {
    && |rows| == 5 && IsThird(env, rows[2]) && IsParty(rows[3], "d", "4", 20) && IsParty(rows[4], "e", "5", 1)
    && LineOf(rows, R) == [3, 2, 4]
  }

  lemma JoinBehind(six: History) returns (run: History)
    requires Smooth(six, 7) && Overtaken(six.env, Last(six).rows, 20)
    ensures run.env == six.env && run.events == six.events + [Event(Joining("e", "5", 1), 7)] && Smooth(run, 8)
    ensures FifthIsLast(six.env, Last(run).rows)
  {
    FifthIsNew(six.env, Last(six).rows);
    run := Join(six, "e", "5", 1, 7);
    FifthIsBehind(six.env, Last(six).rows, Last(run).rows);
  }

  lemma FifthIsNew(env: Env, rows: Rows)
    requires Overtaken(env, rows, 20)
    ensures IsNew(rows, "e", "5")
  {
    ShortPhones();
  }

  lemma FifthIsBehind(env: Env, rows: Rows, after: Rows)
    requires Overtaken(env, rows, 20) && HasJoined(env, rows, after, "e", "5", 1)
    requires var line := LineOf(rows, R);
             LineOf(after, R) == InsertAt<nat>(line, UpTo(rows, line, |line| + 1), |rows|)
    ensures FifthIsLast(env, after)
  {
    FifthGoesLast(rows, LineOf(rows, R));
    StillThere(env, rows, after, "e", "5", 1);
  }

  lemma FifthGoesLast(rows: Rows, line: seq<nat>)
    requires line == [3, 2] && |rows| == 4 && rows[2].position == Some(3)
    ensures InsertAt<nat>(line, UpTo(rows, line, |line| + 1), |rows|) == [3, 2, 4]
  {
  }

  lemma FifthIsFound(env: Env, rows: Rows)
    requires FifthIsLast(env, rows) && UniqueIds(rows)
    ensures WaitingAt(R)(rows[4]) && WaitingAt(R)(rows[2]) && Find(rows, R, "e") == Some(4)
    ensures LineAfter(rows, GIVE_UP, 4) == [3, 2]
  {
    var line := LineOf(rows, R);
    assert line[2] == 4 && 4 in line && line[1] == 2 && 2 in line;
    SlotIs(rows, 4);
    PlaceInLine(line, 2);
  }

  /** What skipping the fifth guest stores for the third. */
  lemma ThirdIsRecalculated(env: Env, rows: Rows, slot: nat, now: Time)
    requires FifthIsLast(env, rows) && ByArrival(rows) && WaitingRowsArePlaced(rows)
    requires slot == 4 && WaitingAt(R)(rows[slot]) && LineAfter(rows, GIVE_UP, slot) == [3, 2]
    ensures LineOf(RowsAfter(env, rows, GIVE_UP, slot, now), R) == [3, 2]
    ensures RowsAfter(env, rows, GIVE_UP, slot, now)[2].estimatedWaitMinutes == Some(env.predict(R, 20, 1))
  {
    LineOfRowsAfter(env, rows, GIVE_UP, slot, now);
    assert LineAfter(rows, GIVE_UP, slot)[..1] == [3];
    PeopleOfOne(rows, 3);
    EstimateAfter(env, rows, GIVE_UP, slot, now, 2, 1);
  }

  /** The fifth guest is skipped, and the line recalculated. */
  lemma FifthLeaves(env: Env, s: Store, clock: Time)
    requires Ready(s, GIVE_UP, clock, 8) && FifthIsLast(env, s.rows)
    ensures Apply(env, s, GIVE_UP, 8).result.Success?
    ensures var after := Apply(env, s, GIVE_UP, 8).store.rows;
            && |after| == 5 && LineOf(after, R) == [3, 2] && SameTicket(s.rows[2], after[2])
            && after[2].estimatedWaitMinutes == Some(env.predict(R, 20, 1))
  {
    FifthIsFound(env, s.rows);
    SkipSucceeds(env, s, GIVE_UP, 4, 8);
    ReadyStep(env, s, GIVE_UP, clock, 8);
    assert Evolves(s.rows[2], Apply(env, s, GIVE_UP, 8).store.rows[2], 8);
    ThirdIsRecalculated(env, s.rows, 4, 8);
  }

  lemma SkipSucceeds(env: Env, s: Store, step: Step, slot: nat, now: Time)
    requires WellFormed(step) && step.SkipParty? && Find(s.rows, step.restaurantId, step.queueEntryId) == Some(slot)
    requires s.rows[slot].status.WAITING?
    ensures Apply(env, s, step, now).result.Success?
    ensures Apply(env, s, step, now).store.rows == RowsAfter(env, s.rows, step, slot, now)
  {
    var _ := StepEffect(env, s, step, now);
  }

  lemma SkipFifth(seven: History) returns (run: History)
    requires Smooth(seven, 8) && FifthIsLast(seven.env, Last(seven).rows)
    ensures run.env == seven.env && run.events == seven.events + [Event(GIVE_UP, 8)] && Smooth(run, 9)
    ensures HasLongerWait(seven.env, Last(run).rows)
  {
    run := Extend(seven, GIVE_UP, 8);
    var clock := ReadyFor(seven, GIVE_UP, 8);
    FifthLeaves(seven.env, Last(seven), clock);
  }

  /** The third guest was quoted the wait behind two people, and now has the wait behind twenty. */
  ghost predicate HasLongerWait(env: Env, rows: Rows) {
    && |rows| == 5 && rows[2].id == "c" && LineOf(rows, R) == [3, 2]
    && rows[2].estimatedWaitMinutesAtJoin == Some(env.predict(R, 2, 1))
    && rows[2].estimatedWaitMinutes == Some(env.predict(R, 20, 1))
  }

  /**
   * So an estimate can rise though its party was never shifted. With the fallback, 5 minutes become
   * 50.
   */
  lemma OvertakenWaitsLonger(env: Env) returns (run: History)
    ensures run.env == env && Smooth(run, 9)
    ensures run.events == [FIRST, SECOND, THIRD, SEAT_FIRST, SEAT_SECOND, Event(Joining("d", "4", 20), 6),
                           Event(Joining("e", "5", 1), 7), Event(GIVE_UP, 8)]
    ensures HasLongerWait(env, Last(run).rows)
    ensures UsesFallback(env) ==> env.predict(R, 2, 1) == 5 && env.predict(R, 20, 1) == 50
  {
    var six := FourthParty(env, 20);
    var seven := JoinBehind(six);
    run := SkipFifth(seven);
    FallbackIs(2);
    FallbackIs(20);
  }
}
