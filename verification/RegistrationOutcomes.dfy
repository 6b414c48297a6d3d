/**
 * Registrations and quotes by request: when one is refused, with which error, and what a successful
 * registration stores of the request.
 */
module RegistrationOutcomes {
  import opened QueueTypes
  import opened QueueLine
  import opened QueueStore
  import opened DisplayNumbers
  import opened QueueSteps
  import opened QueueUseCases
  import opened StepEffects

  ghost predicate PhoneWaits(rows: Rows, restaurantId: Id, phone: string) {
    exists i: nat :: i < |rows| && rows[i].restaurantId == restaurantId && rows[i].phone == phone
                     && rows[i].status == WAITING
  }

  ghost predicate UserWaits(rows: Rows, userId: Id) {
    exists i: nat :: i < |rows| && rows[i].userId == Some(userId) && rows[i].status == WAITING
  }

  ghost predicate IdIsTaken(rows: Rows, id: Id) {
    exists i: nat :: i < |rows| && rows[i].id == id
  }

  predicate NonEmpty(s: Option<string>) {
    s != None && s != Some("")
  }

  lemma PhoneWaitsIff(rows: Rows, restaurantId: Id, phone: string)
    ensures Select(rows, HasPhone(restaurantId, phone)) != [] <==> PhoneWaits(rows, restaurantId, phone)
  {
    var selected := Select(rows, HasPhone(restaurantId, phone));
    if selected != [] {
      assert selected[0] in selected;
      assert HasPhone(restaurantId, phone)(rows[selected[0]]);
    }
    if PhoneWaits(rows, restaurantId, phone) {
      var i: nat :| i < |rows| && rows[i].restaurantId == restaurantId && rows[i].phone == phone
                    && rows[i].status == WAITING;
      assert HasPhone(restaurantId, phone)(rows[i]);
      assert i in selected;
    }
  }

  lemma UserWaitsIff(rows: Rows, userId: Id)
    ensures Select(rows, HasUser(userId)) != [] <==> UserWaits(rows, userId)
    ensures ActiveByUser(rows, userId).Some? <==> UserWaits(rows, userId)
  {
    var selected := Select(rows, HasUser(userId));
    if selected != [] {
      assert selected[0] in selected;
      assert HasUser(userId)(rows[selected[0]]);
    }
    if UserWaits(rows, userId) {
      var i: nat :| i < |rows| && rows[i].userId == Some(userId) && rows[i].status == WAITING;
      assert HasUser(userId)(rows[i]);
      assert i in selected;
    }
    var slot := ActiveByUser(rows, userId);
    if slot.Some? { assert HasUser(userId)(rows[slot.value]); }
  }

  lemma IdIsTakenIff(rows: Rows, id: Id)
    ensures SlotOf(rows, id).Some? <==> IdIsTaken(rows, id)
  {
  }

  /** Does the restaurant service answer, for a restaurant that may use the queue at all? */
  predicate MayQueue(a: RestaurantAnswers) {
    && a.status.Some? && !a.status.value.isBlocked
    && a.status.value.isSubscriptionActive && a.status.value.subscriptionPlanCode == Some("QUEUE_PRO")
  }

  /** Is the restaurant open and does it take parties into its queue? */
  predicate TakesParties(a: RestaurantAnswers) {
    MayQueue(a) && a.tables.Some? && a.tables.value.isOpen && a.tables.value.acceptsQueue
  }

  /** The answers that refuse a registration or a quote, each with its error. */
  predicate IsRefusal(a: RestaurantAnswers, error: QueueError) {
    if a.status == None then error == UpstreamServiceUnavailable
    else if a.status.value.isBlocked then error == RestaurantBlocked
    else if !MayQueue(a) then error == QueueProSubscriptionRequired
    else if a.tables == None then error == UpstreamServiceUnavailable
    else error == RestaurantNotAcceptingQueue
  }

  /** The restaurant refuses exactly when it does not take parties. */
  lemma RefusesIff(a: RestaurantAnswers)
    ensures RestaurantObjection(a) == None <==> TakesParties(a)
    ensures RestaurantObjection(a).Some? ==> IsRefusal(a, RestaurantObjection(a).value)
  {
  }

  /** A quote is refused for the restaurant's answers and for nothing else. */
  lemma QuoteOutcome(env: Env, rows: Rows, restaurantId: Id, partySize: nat, a: RestaurantAnswers)
    ensures var quote := Quote(env, rows, restaurantId, partySize, a);
            var line := LineOf(rows, restaurantId);
            && (quote.Success? <==> TakesParties(a))
            && (quote.Failure? ==> IsRefusal(a, quote.error))
            && (quote.Success? ==>
                  && quote.value.queueDepth == |line|
                  && quote.value.estimatedWaitMinutes
                     == if a.tables.value.isTableAvailable && line == [] then 0
                        else env.predict(restaurantId, People(rows, line), partySize))
  {
    LineTotals(rows, restaurantId);
  }

  /**
   * A registration succeeds iff the restaurant takes parties and has no table free, neither the phone
   * number as given nor as stored waits there, no user id waits twice anywhere, and the id is new.
   */
  lemma RegistrationSucceedsIff(env: Env, s: Store, step: Step, now: Time)
    requires WellFormed(step) && step.Register?
    ensures var a, q := step.answers, step.request;
            Apply(env, s, step, now).result.Success?
            <==> && TakesParties(a) && !a.tables.value.isTableAvailable
                 && !PhoneWaits(s.rows, q.restaurantId, q.guestPhone)
                 && !PhoneWaits(s.rows, q.restaurantId, Trim(q.guestPhone))
                 && !(NonEmpty(q.userId) && UserWaits(s.rows, q.userId.value))
                 && !IdIsTaken(s.rows, step.newId)
    ensures Apply(env, s, step, now).result.Failure? ==> Apply(env, s, step, now).store == s
  {
    var q := step.request;
    PhoneWaitsIff(s.rows, q.restaurantId, q.guestPhone);
    PhoneWaitsIff(s.rows, q.restaurantId, Trim(q.guestPhone));
    if q.userId.Some? { UserWaitsIff(s.rows, q.userId.value); }
    IdIsTakenIff(s.rows, step.newId);
  }

  /** Which error a refused registration ends in: the first of these that applies. */
  lemma RegistrationError(env: Env, s: Store, step: Step, now: Time)
    requires WellFormed(step) && step.Register? && Apply(env, s, step, now).result.Failure?
    ensures var a, q, error := step.answers, step.request, Apply(env, s, step, now).result.error;
            if !TakesParties(a) then IsRefusal(a, error)
            else if a.tables.value.isTableAvailable then error == TableAvailable(a.tables.value.availableCount)
            else if PhoneWaits(s.rows, q.restaurantId, q.guestPhone) then error == ActiveQueueEntryExists(q.guestPhone)
            else if NonEmpty(q.userId) && UserWaits(s.rows, q.userId.value) then error == ActiveUserQueueEntryExists
            else if PhoneWaits(s.rows, q.restaurantId, Trim(q.guestPhone))
            then error == ActiveQueueEntryExists(Trim(q.guestPhone))
            else error == PersistenceFailure
  {
    var q := step.request;
    PhoneWaitsIff(s.rows, q.restaurantId, q.guestPhone);
    PhoneWaitsIff(s.rows, q.restaurantId, Trim(q.guestPhone));
    if q.userId.Some? { UserWaitsIff(s.rows, q.userId.value); }
  }

  /** A row carries a request: who registered, where, how many, under which phone, over which channel. */
  predicate Carries(e: EntryProps, q: Registration) {
    && e.restaurantId == q.restaurantId && e.userId == q.userId && e.partySize == q.partySize
    && e.phone == Trim(q.guestPhone)
    && e.registrationType == (if q.registrationType.Some? then q.registrationType.value
                              else if NonEmpty(q.userId) && !NonEmpty(q.staffUserId) then ONLINE
                              else WALK_IN)
  }

  /** Nothing has happened yet to a row but its registration at `now`. */
  predicate HasJustJoined(e: EntryProps, now: Time) {
    && e.status == WAITING && e.joinedAt == now && e.createdAt == now && e.updatedAt == now
    && e.ringCount == 0 && e.lastRingedAt == None && e.seatedAt == None && e.cancelledAt == None
  }

  /** The row a registration adds. */
  lemma NewRowIs(env: Env, rows: Rows, q: Registration, newId: Id, now: Time)
    ensures var e := NewEntry(env, rows, q, newId, now);
            var line := LineOf(rows, q.restaurantId);
            var eta := env.predict(q.restaurantId, People(rows, line), q.partySize);
            && e.id == newId && Carries(e, q) && HasJustJoined(e, now)
            && e.position == Some(|line| + 1)
            && e.estimatedWaitMinutes == Some(eta) && e.estimatedWaitMinutesAtJoin == Some(eta)
  {
    LineTotals(rows, q.restaurantId);
  }

  /** What a registration stores and replies. */
  lemma RegistrationStores(env: Env, s: Store, step: Step, now: Time)
    requires WellFormed(step) && step.Register? && Apply(env, s, step, now).result.Success?
    ensures var q, outcome := step.request, Apply(env, s, step, now);
            var line := LineOf(s.rows, q.restaurantId);
            var eta := env.predict(q.restaurantId, People(s.rows, line), q.partySize);
            && |outcome.store.rows| == |s.rows| + 1 && outcome.store.rows[..|s.rows|] == s.rows
            && var e := outcome.store.rows[|s.rows|];
            && outcome.result.value == Registered(e)
            && e.id == step.newId && Carries(e, q) && HasJustJoined(e, now)
            && e.position == Some(|line| + 1)
            && e.estimatedWaitMinutes == Some(eta) && e.estimatedWaitMinutesAtJoin == Some(eta)
            && outcome.store.assignments == s.assignments
            && outcome.store.live == s.live[step.newId := LiveEntry(step.newId, q.restaurantId, |line| + 1, eta, now)]
  {
    RegistrationAppends(env, s, step, now);
    NewRowIs(env, s.rows, step.request, step.newId, now);
    RegistrationReplies(env, s, step, now);
  }

  lemma RegistrationReplies(env: Env, s: Store, step: Step, now: Time)
    requires WellFormed(step) && step.Register? && Apply(env, s, step, now).result.Success?
    ensures Apply(env, s, step, now).result.value
            == Registered(NewEntry(env, s.rows, step.request, step.newId, now))
  {
  }

  /** The record of a registration names the staff, else the user, else the system. */
  lemma RegistrationIsRecorded(env: Env, s: Store, step: Step, now: Time)
    requires WellFormed(step) && step.Register? && Apply(env, s, step, now).result.Success?
    ensures var q := step.request;
            var name := if NonEmpty(q.staffUserId) then q.staffUserId.value
                      else if NonEmpty(q.userId) then q.userId.value else "system";
            Apply(env, s, step, now).store.history == s.history + [StatusChange(step.newId, None, WAITING, name, now)]
  {
    RegistrationAppends(env, s, step, now);
  }
}
