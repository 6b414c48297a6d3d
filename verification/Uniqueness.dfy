/**
 * Registrations whose checks and whose transaction are separate steps, with anything in between:
 * no party ever waits twice.
 */
module Uniqueness {
  import opened QueueTypes
  import opened QueueLine
  import opened QueueStore
  import opened QueueSteps
  import opened StepEffects
  import opened RowLifecycle
  import opened RegistrationOutcomes
  import opened DisplayNumbers

  /** A registration that has passed its checks and waits for its transaction. */
  datatype Pending = Pending(entry: EntryProps, changedBy: string, request: Registration)

  /** The stored state, the registrations under way, and the requests that made the rows, one by one. */
  datatype Service = Service(store: Store, pending: seq<Pending>, joined: seq<Registration>)

  datatype Action =
    | Check(request: Registration, answers: RestaurantAnswers, newId: Id)
    | Commit(n: nat)
    | Call(step: Step)

  /** A prepared entity carries its request and waits, with a place and an estimate. */
  predicate IsPrepared(p: Pending) {
    && Carries(p.entry, p.request)
    && p.entry.status.WAITING?
    && p.entry.position.Some? && p.entry.position.value >= 1
    && p.entry.estimatedWaitMinutes.Some?
  }

  ghost predicate PendingOk(v: Service) {
    forall n :: 0 <= n < |v.pending| ==> IsPrepared(v.pending[n])
  }

  /** One step of the interleaved service; only the transaction itself is atomic. */
  ghost function Act(env: Env, v: Service, a: Action, now: Time): Service
    requires PendingOk(v) && (a.Call? ==> WellFormed(a.step))
  {
    match a
    case Check(request, answers, newId) =>
      var prepared := PrepareEntry(env, v.store.rows, request, answers, newId, now);
      if prepared.Failure? then v else v.(pending := v.pending + [Pending(prepared.value, ChangedBy(request), request)])
    case Commit(n) =>
      if n >= |v.pending| then v
      else
        var outcome := CommitEntry(v.store, v.pending[n].entry, v.pending[n].changedBy, now);
        Service(outcome.store, RemoveAt(v.pending, n),
                if outcome.result.Success? then v.joined + [v.pending[n].request] else v.joined)
    case Call(step) =>
      var outcome := Apply(env, v.store, step, now);
      v.(store := outcome.store,
         joined := if step.Register? && outcome.result.Success? then v.joined + [step.request] else v.joined)
  }

  /** Two waiting rows of one restaurant and phone, or of one non-empty user. */
  predicate ClashAt(rows: Rows, i: nat, j: nat)
    requires i < |rows| && j < |rows|
  {
    && rows[i].status.WAITING? && rows[j].status.WAITING?
    && ((rows[i].restaurantId == rows[j].restaurantId && rows[i].phone == rows[j].phone)
        || (Truthy(rows[i].userId) && rows[i].userId == rows[j].userId))
  }

  ghost predicate NobodyWaitsTwice(rows: Rows) {
    forall i: nat, j: nat :: i < j < |rows| ==> !ClashAt(rows, i, j)
  }

  lemma SelectedNone(rows: Rows, p: EntryProps -> bool, i: nat)
    requires Select(rows, p) == [] && i < |rows|
    ensures !p(rows[i])
  {
    assert i in Select(rows, p) <==> p(rows[i]);
  }

  /** The checks inside the transaction keep the rows free of clashes. */
  lemma CommitKeepsUnique(s: Store, e: EntryProps, changedBy: string, now: Time)
    requires NobodyWaitsTwice(s.rows) && e.position.Some? && e.estimatedWaitMinutes.Some?
    ensures NobodyWaitsTwice(CommitEntry(s, e, changedBy, now).store.rows)
  {
    var after := CommitEntry(s, e, changedBy, now).store.rows;
    if CommitEntry(s, e, changedBy, now).result.Success? {
      assert after == s.rows + [e];
      forall i: nat, j: nat | i < j < |after| ensures !ClashAt(after, i, j) {
        if j < |s.rows| {
          assert !ClashAt(s.rows, i, j);
        } else {
          SelectedNone(s.rows, HasPhone(e.restaurantId, e.phone), i);
          if Truthy(e.userId) { SelectedNone(s.rows, HasUser(e.userId.value), i); }
        }
      }
    }
  }

  /** Rows that only evolve do not start to clash. */
  lemma EvolvingKeepsUnique(rows: Rows, after: Rows, now: Time)
    requires NobodyWaitsTwice(rows) && |after| == |rows|
    requires forall i :: 0 <= i < |rows| ==> Evolves(rows[i], after[i], now)
    ensures NobodyWaitsTwice(after)
  {
    forall i: nat, j: nat | i < j < |after| ensures !ClashAt(after, i, j) {
      assert !ClashAt(rows, i, j);
      assert Evolves(rows[i], after[i], now) && Evolves(rows[j], after[j], now);
    }
  }

  ghost predicate Sound(v: Service) {
    && NobodyWaitsTwice(v.store.rows) && WaitingRowsArePlaced(v.store.rows) && PendingOk(v)
    && AllCarry(v.store.rows, v.joined)
  }

  /** Each row carries the request that made it. */
  ghost predicate AllCarry(rows: Rows, joined: seq<Registration>) {
    |joined| == |rows| && forall i :: 0 <= i < |rows| ==> Carries(rows[i], joined[i])
  }

  lemma EvolvingStillCarries(rows: Rows, after: Rows, joined: seq<Registration>, now: Time)
    requires AllCarry(rows, joined) && |after| == |rows|
    requires forall i :: 0 <= i < |rows| ==> Evolves(rows[i], after[i], now)
    ensures AllCarry(after, joined)
  {
    forall i | 0 <= i < |after| ensures Carries(after[i], joined[i]) { assert Evolves(rows[i], after[i], now); }
  }

  lemma CallStillCarries(env: Env, v: Service, step: Step, now: Time)
    requires WellFormed(step) && Sound(v)
    ensures AllCarry(Apply(env, v.store, step, now).store.rows, Act(env, v, Call(step), now).joined)
  {
    var s := v.store;
    if Apply(env, s, step, now).result.Failure? {
      FailedCallsStutter(env, s, step, now);
    } else if step.Register? {
      RegistrationAppends(env, s, step, now);
      NewRowIs(env, s.rows, step.request, step.newId, now);
    } else {
      var slot := StepEffect(env, s, step, now);
      StepIsNext(env, s, step, now);
      EvolvingStillCarries(s.rows, Apply(env, s, step, now).store.rows, v.joined, now);
    }
  }

  lemma CommitStillCarries(v: Service, p: Pending, now: Time)
    requires AllCarry(v.store.rows, v.joined) && IsPrepared(p)
    ensures var outcome := CommitEntry(v.store, p.entry, p.changedBy, now);
            AllCarry(outcome.store.rows, if outcome.result.Success? then v.joined + [p.request] else v.joined)
  {
  }

  lemma CommitStaysPlaced(s: Store, p: Pending, now: Time)
    requires WaitingRowsArePlaced(s.rows) && IsPrepared(p)
    ensures WaitingRowsArePlaced(CommitEntry(s, p.entry, p.changedBy, now).store.rows)
  {
  }

  lemma NextStaysPlaced(rows: Rows, after: Rows, now: Time)
    requires WaitingRowsArePlaced(rows) && Next(rows, after, now)
    ensures WaitingRowsArePlaced(after)
  {
    forall i | 0 <= i < |after| && after[i].status.WAITING?
      ensures after[i].estimatedWaitMinutes.Some? && after[i].position.Some? && after[i].position.value >= 1
    {
      assert i < |rows| ==> Evolves(rows[i], after[i], now);
    }
  }

  lemma CallStaysSound(env: Env, s: Store, step: Step, now: Time)
    requires WellFormed(step) && NobodyWaitsTwice(s.rows) && WaitingRowsArePlaced(s.rows)
    ensures var after := Apply(env, s, step, now).store.rows;
            NobodyWaitsTwice(after) && WaitingRowsArePlaced(after)
  {
    var after := Apply(env, s, step, now).store.rows;
    StepIsNext(env, s, step, now);
    NextStaysPlaced(s.rows, after, now);
    if step.Register? {
      RegisteringKeepsUnique(env, s, step, now);
    } else {
      if Apply(env, s, step, now).result.Failure? {
        FailedCallsStutter(env, s, step, now);
      } else {
        var slot := StepEffect(env, s, step, now);
      }
      EvolvingKeepsUnique(s.rows, after, now);
    }
  }

  lemma RegisteringKeepsUnique(env: Env, s: Store, step: Step, now: Time)
    requires step.Register? && WellFormed(step) && NobodyWaitsTwice(s.rows)
    ensures NobodyWaitsTwice(Apply(env, s, step, now).store.rows)
  {
    var prepared := PrepareEntry(env, s.rows, step.request, step.answers, step.newId, now);
    if prepared.Success? { CommitKeepsUnique(s, prepared.value, ChangedBy(step.request), now); }
  }

  lemma CheckStaysSound(env: Env, v: Service, a: Action, now: Time)
    requires Sound(v) && a.Check?
    ensures Sound(Act(env, v, a, now))
  {
    NewRowIs(env, v.store.rows, a.request, a.newId, now);
    if PrepareEntry(env, v.store.rows, a.request, a.answers, a.newId, now).Success? {
      PreparedIs(env, v.store.rows, a.request, a.answers, a.newId, now);
    }
  }

  lemma PreparedIs(env: Env, rows: Rows, request: Registration, answers: RestaurantAnswers, newId: Id, now: Time)
    requires PrepareEntry(env, rows, request, answers, newId, now).Success?
    ensures PrepareEntry(env, rows, request, answers, newId, now).value == NewEntry(env, rows, request, newId, now)
  {
  }

  lemma ActStaysSound(env: Env, v: Service, a: Action, now: Time)
    requires Sound(v) && (a.Call? ==> WellFormed(a.step))
    ensures Sound(Act(env, v, a, now))
  {
    match a
    case Check(_, _, _) => CheckStaysSound(env, v, a, now);
    case Commit(n) =>
      if n < |v.pending| {
        CommitKeepsUnique(v.store, v.pending[n].entry, v.pending[n].changedBy, now);
        CommitStaysPlaced(v.store, v.pending[n], now);
        CommitStillCarries(v, v.pending[n], now);
      }
    case Call(step) =>
      CallStaysSound(env, v.store, step, now);
      CallStillCarries(env, v, step, now);
  }

  /** The service after a list of actions, from empty tables. */
  ghost function After(env: Env, actions: seq<Action>, times: seq<Time>): (v: Service)
    requires |times| == |actions| && forall k :: 0 <= k < |actions| && actions[k].Call? ==> WellFormed(actions[k].step)
    ensures Sound(v)
  {
    if actions == [] then Service(EMPTY_STORE, [], [])
    else
      var n := |actions| - 1;
      var before := After(env, actions[..n], times[..n]);
      ActStaysSound(env, before, actions[n], times[n]);
      Act(env, before, actions[n], times[n])
  }

  /**
   * However the checks and transactions of registrations interleave with each other and with all
   * other calls: no two waiting rows come from requests for one restaurant with one phone number, blanks
   * around it aside, or from requests of one non-empty user id.
   */
  lemma InterleavingKeepsUnique(env: Env, actions: seq<Action>, times: seq<Time>, i: nat, j: nat)
    requires |times| == |actions| && forall k :: 0 <= k < |actions| && actions[k].Call? ==> WellFormed(actions[k].step)
    requires i < j < |After(env, actions, times).store.rows|
    ensures var v := After(env, actions, times);
            && |v.joined| == |v.store.rows|
            && (v.store.rows[i].status == WAITING && v.store.rows[j].status == WAITING ==>
                  var p, q := v.joined[i], v.joined[j];
                  && !(p.restaurantId == q.restaurantId && Trim(p.guestPhone) == Trim(q.guestPhone))
                  && !(NonEmpty(p.userId) && p.userId == q.userId))
  {
    var v := After(env, actions, times);
    assert !ClashAt(v.store.rows, i, j);
    assert Carries(v.store.rows[i], v.joined[i]) && Carries(v.store.rows[j], v.joined[j]);
  }

  /** So the two look-ups by user agree: there is one party to find, at one restaurant. */
  lemma LookupsAgree(rows: Rows, restaurantId: Id, userId: Id)
    requires NobodyWaitsTwice(rows) && userId != ""
    ensures ActiveByUserAndRestaurant(rows, restaurantId, userId)
            == var slot := ActiveByUser(rows, userId);
               if slot.Some? && rows[slot.value].restaurantId == restaurantId then slot else None
  {
    var anywhere, here := ActiveByUser(rows, userId), ActiveByUserAndRestaurant(rows, restaurantId, userId);
    if here.Some? {
      assert HasUser(userId)(rows[here.value]);
      assert anywhere.Some?;
      assert here.value < anywhere.value ==> !ClashAt(rows, here.value, anywhere.value);
      assert anywhere.value < here.value ==> !ClashAt(rows, anywhere.value, here.value);
    } else if anywhere.Some? {
      assert !HasUserAt(restaurantId, userId)(rows[anywhere.value]);
    }
  }

  lemma CallKeepsUnique(run: History, k: nat)
    requires 0 < k <= |run.events| && NobodyWaitsTwice(run.states[k - 1].rows)
    ensures NobodyWaitsTwice(run.states[k].rows)
  {
    assert WaitingRowsArePlaced(run.states[k - 1].rows) by {
      RunRowsOk(run, k - 1);
      OkRowsArePlaced(run.states[k - 1].rows, ClockAt(run, k - 1));
    }
    CallAt(run, k);
    CallStaysSound(run.env, run.states[k - 1], run.events[k - 1].step, run.events[k - 1].at);
  }

  /** The same for runs of whole calls. */
  lemma {:induction false} RunKeepsUnique(run: History, k: nat)
    requires k <= |run.events|
    ensures NobodyWaitsTwice(run.states[k].rows)
  {
    if k > 0 {
      RunKeepsUnique(run, k - 1);
      CallKeepsUnique(run, k);
    }
  }

  /** Of two prepared registrations for one phone, the second transaction fails. */
  lemma RacingCommitFails(s: Store, first: Pending, second: Pending, t: Time, u: Time)
    requires IsPrepared(first) && IsPrepared(second)
    requires first.request.restaurantId == second.request.restaurantId
    requires Trim(first.request.guestPhone) == Trim(second.request.guestPhone)
    requires CommitEntry(s, first.entry, first.changedBy, t).result.Success?
    ensures CommitEntry(CommitEntry(s, first.entry, first.changedBy, t).store, second.entry, second.changedBy, u)
            .result.Failure?
  {
    var between := CommitEntry(s, first.entry, first.changedBy, t).store;
    assert between.rows == s.rows + [first.entry];
    assert |s.rows| in Select(between.rows, HasPhone(second.entry.restaurantId, second.entry.phone));
  }

  /**
   * The checks alone would not do: whenever one registration passes them, two racing copies of it
   * both do, and storing both entities without the transaction's own checks would be a clash.
   */
  lemma ChecksDoNotSuffice(env: Env, v: Service, request: Registration, answers: RestaurantAnswers,
                           firstId: Id, secondId: Id, t: Time, u: Time)
    requires PendingOk(v) && PrepareEntry(env, v.store.rows, request, answers, firstId, t).Success?
    ensures PendingOk(Act(env, v, Check(request, answers, firstId), t))
    ensures var w := Act(env, Act(env, v, Check(request, answers, firstId), t), Check(request, answers, secondId), u);
            && w.store == v.store
            && |w.pending| == |v.pending| + 2
            && var first, second := w.pending[|v.pending|].entry, w.pending[|v.pending| + 1].entry;
            && first.id == firstId && second.id == secondId
            && !NobodyWaitsTwice(v.store.rows + [first, second])
  {
    var w := Act(env, Act(env, v, Check(request, answers, firstId), t), Check(request, answers, secondId), u);
    var first, second := w.pending[|v.pending|].entry, w.pending[|v.pending| + 1].entry;
    var rows := v.store.rows;
    assert ClashAt(rows + [first, second], |rows|, |rows| + 1);
  }
}
