/**
 * A stored line against a plain queue of ids, to which registering appends, from which seating,
 * skipping and cancelling remove, and within which a shift moves.
 */
module QueueRefinement {
  import opened QueueTypes
  import opened QueueLine
  import opened QueueStore
  import opened Renumbering
  import opened Recalculation
  import opened QueueSteps
  import opened Reordering
  import opened StepEffects
  import opened RowLifecycle
  import opened LineOrder
  import opened ExactLines
  import opened LineSlack

  ghost function QueueOf(rows: Rows, restaurantId: Id): seq<Id> {
    IdsOf(rows, LineOf(rows, restaurantId))
  }

  function Without(queue: seq<Id>, id: Id): seq<Id> {
    var c := PlaceOf(queue, id);
    if c == -1 then queue else RemoveAt(queue, c)
  }

  /** What a successful call does to a plain queue of ids. */
  function QueueAfter(queue: seq<Id>, step: Step): seq<Id> {
    match step
    case Register(_, _, newId) => queue + [newId]
    case Ring(_, _) => queue
    case SkipParty(_, id, _, skipPositions) =>
      var c := PlaceOf(queue, id);
      if !IsShift(step) then Without(queue, id)
      else if c == -1 then queue
      else MoveBack(queue, c, skipPositions.value)
    case _ => Without(queue, step.queueEntryId)
  }

  /** The plain queue of a restaurant after k calls: a sequence, and nothing else. */
  ghost function PlainQueue(run: History, k: nat, restaurantId: Id): seq<Id>
    requires k <= |run.events|
  {
    if k == 0 then []
    else
      var before := PlainQueue(run, k - 1, restaurantId);
      var step := run.events[k - 1].step;
      if RestaurantOf(step) == restaurantId && run.results[k - 1].Success? then QueueAfter(before, step)
      else before
  }

  lemma IdsAreKept(rows: Rows, after: Rows, slots: seq<nat>, now: Time)
    requires Next(rows, after, now) && InTable(rows, slots)
    ensures InTable(after, slots) && IdsOf(after, slots) == IdsOf(rows, slots)
  {
    forall k | 0 <= k < |slots| ensures after[slots[k]].id == rows[slots[k]].id {
      assert Evolves(rows[slots[k]], after[slots[k]], now);
    }
  }

  /** A newcomer is appended iff the slack of the line is at most one. */
  lemma QueueWithNewcomer(env: Env, s: Store, step: Step, clock: Time, now: Time)
    requires Ready(s, step, clock, now) && step.Register? && Apply(env, s, step, now).result.Success?
    ensures QueueOf(Apply(env, s, step, now).store.rows, RestaurantOf(step))
            == QueueOf(s.rows, RestaurantOf(step)) + [step.newId]
            <==> Slack(s.rows, RestaurantOf(step)) <= 1
  {
    var r := RestaurantOf(step);
    var line := LineOf(s.rows, r);
    var j := UpTo(s.rows, line, |line| + 1);
    assert j == |line| <==> Slack(s.rows, r) <= 1 by {
      ReadyStep(env, s, step, clock, now);
      ReachOf(s.rows, r, j);
    }
    assert LineOf(Apply(env, s, step, now).store.rows, r) == InsertAt<nat>(line, j, |s.rows|) by {
      OwnLineAfter(env, s, step, clock, now);
    }
    RegistrationAppends(env, s, step, now);
    IdsWithNewcomer(s.rows, line, NewEntry(env, s.rows, step.request, step.newId, now), j);
  }

  /** The id put in at place j is the last iff j is the end. */
  lemma IdsWithNewcomer(rows: Rows, line: seq<nat>, e: EntryProps, j: nat)
    requires InTable(rows, line) && j <= |line| && SlotOf(rows, e.id).None?
    ensures InTable(rows + [e], InsertAt<nat>(line, j, |rows|))
    ensures IdsOf(rows + [e], InsertAt<nat>(line, j, |rows|)) == IdsOf(rows, line) + [e.id] <==> j == |line|
  {
    if j < |line| { IdsWhenOvertaken(rows, line, e, j); } else { IdsWhenAppended(rows, line, e); }
  }

  lemma IdsWhenAppended(rows: Rows, line: seq<nat>, e: EntryProps)
    requires InTable(rows, line)
    ensures InTable(rows + [e], InsertAt<nat>(line, |line|, |rows|))
    ensures IdsOf(rows + [e], InsertAt<nat>(line, |line|, |rows|)) == IdsOf(rows, line) + [e.id]
  {
    assert InsertAt<nat>(line, |line|, |rows|) == line + [|rows|];
  }

  lemma IdsWhenOvertaken(rows: Rows, line: seq<nat>, e: EntryProps, j: nat)
    requires InTable(rows, line) && j < |line| && SlotOf(rows, e.id).None?
    ensures var order := InsertAt<nat>(line, j, |rows|);
            InTable(rows + [e], order) && |order| == |line| + 1 && IdsOf(rows + [e], order)[|line|] != e.id
  {
    assert InsertAt<nat>(line, j, |rows|)[|line|] == line[|line| - 1];
  }

  /** A successful call does to the line what it does to a plain queue, unless a newcomer overtakes. */
  lemma StepRefinesQueueIff(env: Env, s: Store, step: Step, clock: Time, now: Time)
    requires Ready(s, step, clock, now) && Apply(env, s, step, now).result.Success?
    ensures QueueOf(Apply(env, s, step, now).store.rows, RestaurantOf(step))
            == QueueAfter(QueueOf(s.rows, RestaurantOf(step)), step)
            <==> !(step.Register? && Slack(s.rows, RestaurantOf(step)) > 1)
  {
    if step.Register? {
      QueueWithNewcomer(env, s, step, clock, now);
    } else {
      ReadyStep(env, s, step, clock, now);
      var slot := StepEffect(env, s, step, now);
      var after := RowsAfter(env, s.rows, step, slot, now);
      IdsAreKept(s.rows, after, LineOf(s.rows, step.restaurantId), now);
      LineOfRowsAfter(env, s.rows, step, slot, now);
      QueueOfRowsAfter(s.rows, after, step, slot);
    }
  }

  lemma QueueOfRowsAfter(rows: Rows, after: Rows, step: Step, slot: nat)
    requires UniqueIds(rows)
    requires !step.Register? && slot < |rows| && WaitingAt(step.restaurantId)(rows[slot])
    requires rows[slot].id == step.queueEntryId
    requires LineOf(after, step.restaurantId) == LineAfter(rows, step, slot)
    requires InTable(after, LineOf(rows, step.restaurantId))
             && IdsOf(after, LineOf(rows, step.restaurantId)) == QueueOf(rows, step.restaurantId)
    ensures QueueOf(after, step.restaurantId) == QueueAfter(QueueOf(rows, step.restaurantId), step)
  {
    var line := LineOf(rows, step.restaurantId);
    assert slot in line;
    var c := PlaceOf(line, slot);
    assert PlaceOf(QueueOf(rows, step.restaurantId), step.queueEntryId) == c by { PlaceOfId(rows, line, c); }
    if IsShift(step) {
      IdsMoveAlong(after, line, c, step.skipPositions.value);
    } else if !step.Ring? {
      IdsWithout(after, line, c);
    }
  }

  lemma IdsWithout(rows: Rows, line: seq<nat>, c: nat)
    requires InTable(rows, line) && c < |line|
    ensures InTable(rows, RemoveAt(line, c))
    ensures IdsOf(rows, RemoveAt(line, c)) == RemoveAt(IdsOf(rows, line), c)
  {
  }

  /** Calls elsewhere, and failed calls, leave the queue as it is. */
  lemma OtherQueuesStay(env: Env, s: Store, step: Step, clock: Time, now: Time, restaurantId: Id)
    requires Ready(s, step, clock, now)
    requires restaurantId != RestaurantOf(step) || Apply(env, s, step, now).result.Failure?
    ensures QueueOf(Apply(env, s, step, now).store.rows, restaurantId) == QueueOf(s.rows, restaurantId)
  {
    OtherLinesAfter(env, s, step, clock, now, restaurantId);
    ReadyStep(env, s, step, clock, now);
    IdsAreKept(s.rows, Apply(env, s, step, now).store.rows, LineOf(s.rows, restaurantId), now);
  }

  lemma CallAtRefinesQueue(run: History, k: nat, restaurantId: Id)
    requires 0 < k <= |run.events| && !OvertakesAt(run, k - 1, restaurantId)
    requires QueueOf(run.states[k - 1].rows, restaurantId) == PlainQueue(run, k - 1, restaurantId)
    ensures QueueOf(run.states[k].rows, restaurantId) == PlainQueue(run, k, restaurantId)
  {
    var s, step, clock, now := run.states[k - 1], run.events[k - 1].step, ClockAt(run, k - 1), run.events[k - 1].at;
    assert Ready(s, step, clock, now) by { RunIsReady(run, k - 1); }
    CallAt(run, k);
    if RestaurantOf(step) == restaurantId && run.results[k - 1].Success? {
      StepRefinesQueueIff(run.env, s, step, clock, now);
    } else {
      OtherQueuesStay(run.env, s, step, clock, now, restaurantId);
    }
  }

  /**
   * As long as every newcomer at a restaurant finds a slack of at most one, its stored line is the
   * plain queue: registering appends, seating, assigning, skipping and cancelling remove, shifting
   * moves, and nothing else happens.
   */
  lemma {:induction false} LineRefinesQueue(run: History, k: nat, restaurantId: Id)
    requires k <= |run.events| && NobodyOvertakes(run, k, restaurantId)
    ensures QueueOf(run.states[k].rows, restaurantId) == PlainQueue(run, k, restaurantId)
  {
    if k > 0 {
      LineRefinesQueue(run, k - 1, restaurantId);
      assert !OvertakesAt(run, k - 1, restaurantId);
      CallAtRefinesQueue(run, k, restaurantId);
    }
  }
}
