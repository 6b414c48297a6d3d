/** The display numbers one restaurant gives out within a day are all different. */
module DailyNumbers {
  import opened QueueTypes
  import opened QueueLine
  import opened QueueStore
  import opened DisplayNumbers
  import opened QueueSteps
  import opened StepEffects
  import opened RowLifecycle

  /** The rows a restaurant had created that day when the row in slot i was created. */
  function EarlierThatDay(env: Env, rows: Rows, i: nat): nat
    requires i < |rows|
  {
    Count(rows[..i], CreatedSince(rows[i].restaurantId, env.startOfDay(rows[i].createdAt)))
  }

  predicate NumberedAt(env: Env, rows: Rows, i: nat)
    requires i < |rows|
  {
    rows[i].queueNumber == QueueNumber(rows[i].registrationType, EarlierThatDay(env, rows, i) + 1)
  }

  ghost predicate NumbersOk(env: Env, rows: Rows) {
    forall i: nat :: i < |rows| ==> NumberedAt(env, rows, i)
  }

  /** Two filters that agree row by row count the same. */
  lemma {:induction false} CountAgrees(rows: Rows, other: Rows, p: EntryProps -> bool)
    requires |rows| == |other| && forall i :: 0 <= i < |rows| ==> p(rows[i]) == p(other[i])
    ensures Count(rows, p) == Count(other, p)
  {
    if rows != [] { CountAgrees(rows[..|rows| - 1], other[..|rows| - 1], p); }
  }

  lemma {:induction false} CountGrows(rows: Rows, p: EntryProps -> bool, i: nat, j: nat)
    requires i < j <= |rows| && p(rows[i])
    ensures Count(rows[..i], p) < Count(rows[..j], p)
  {
    assert rows[..j][..j - 1] == rows[..j - 1];
    if i < j - 1 { CountGrows(rows, p, i, j - 1); }
  }

  /** Numbers stay right while rows evolve. */
  lemma NumbersStayRight(env: Env, rows: Rows, after: Rows, now: Time, i: nat)
    requires Next(rows, after, now) && i < |rows| && NumberedAt(env, rows, i)
    ensures NumberedAt(env, after, i)
  {
    assert Evolves(rows[i], after[i], now);
    var p := CreatedSince(rows[i].restaurantId, env.startOfDay(rows[i].createdAt));
    forall k | 0 <= k < i ensures p(rows[..i][k]) == p(after[..i][k]) {
      assert Evolves(rows[k], after[k], now);
    }
    CountAgrees(rows[..i], after[..i], p);
  }

  lemma CallKeepsNumbers(run: History, k: nat)
    requires 0 < k <= |run.events| && NumbersOk(run.env, run.states[k - 1].rows)
    ensures NumbersOk(run.env, run.states[k].rows)
  {
    var s, after := run.states[k - 1], run.states[k].rows;
    NextAt(run, k);
    forall i: nat | i < |after| ensures NumberedAt(run.env, after, i) {
      if i < |s.rows| {
        assert NumberedAt(run.env, s.rows, i);
        NumbersStayRight(run.env, s.rows, after, run.events[k - 1].at, i);
      } else {
        NewcomerIsNumbered(run, k);
      }
    }
  }

  lemma NewcomerIsNumbered(run: History, k: nat)
    requires 0 < k <= |run.events| && |run.states[k - 1].rows| < |run.states[k].rows|
    ensures NumberedAt(run.env, run.states[k].rows, |run.states[k - 1].rows|)
  {
    var s, step, now := run.states[k - 1], run.events[k - 1].step, run.events[k - 1].at;
    CallAt(run, k);
    JoiningKeepsRows(run.env, s, step, now);
    RegistrationAppends(run.env, s, step, now);
    assert (s.rows + [NewEntry(run.env, s.rows, step.request, step.newId, now)])[..|s.rows|] == s.rows;
  }

  lemma {:induction false} RunNumbersOk(run: History, k: nat)
    requires k <= |run.events|
    ensures NumbersOk(run.env, run.states[k].rows)
  {
    if k > 0 {
      RunNumbersOk(run, k - 1);
      CallKeepsNumbers(run, k);
    }
  }

  /** Days do not begin after the instants they contain. */
  ghost predicate HasDays(env: Env) {
    forall t: Time :: env.startOfDay(t) <= t
  }

  /**
   * In every reachable store, two parties that registered at one restaurant on one day have
   * different display numbers.
   */
  lemma DailyNumbersDiffer(run: History, k: nat, i: nat, j: nat)
    requires HasDays(run.env) && k <= |run.events| && i < j < |run.states[k].rows|
    requires run.states[k].rows[i].restaurantId == run.states[k].rows[j].restaurantId
    requires run.env.startOfDay(run.states[k].rows[i].createdAt) == run.env.startOfDay(run.states[k].rows[j].createdAt)
    ensures run.states[k].rows[i].queueNumber != run.states[k].rows[j].queueNumber
  {
    var rows := run.states[k].rows;
    RunNumbersOk(run, k);
    assert NumberedAt(run.env, rows, i) && NumberedAt(run.env, rows, j);
    assert run.env.startOfDay(rows[i].createdAt) <= rows[i].createdAt;
    CountGrows(rows, CreatedSince(rows[j].restaurantId, run.env.startOfDay(rows[j].createdAt)), i, j);
    NumberIsInjective(rows[i].registrationType, EarlierThatDay(run.env, rows, i) + 1,
                      rows[j].registrationType, EarlierThatDay(run.env, rows, j) + 1);
  }

  /** The number a row shows, read back. */
  function NumberOf(e: EntryProps): int {
    var parsed := Parse(e.queueNumber);
    if parsed.Some? then parsed.value.1 else 0
  }

  lemma NumberIsPlace(run: History, k: nat, i: nat)
    requires k <= |run.events| && i < |run.states[k].rows|
    ensures var rows := run.states[k].rows;
            Parse(rows[i].queueNumber) == Some((rows[i].registrationType, EarlierThatDay(run.env, rows, i) + 1))
  {
    var rows := run.states[k].rows;
    RunNumbersOk(run, k);
    assert NumberedAt(run.env, rows, i);
    NumberParsesBack(rows[i].registrationType, EarlierThatDay(run.env, rows, i) + 1);
  }

  /** Each day starts again at 1, written with three digits. */
  lemma DaysStartAtOne(run: History, k: nat, i: nat)
    requires k <= |run.events| && i < |run.states[k].rows|
    requires var rows := run.states[k].rows;
             forall j :: 0 <= j < i && rows[j].restaurantId == rows[i].restaurantId ==>
               rows[j].createdAt < run.env.startOfDay(rows[i].createdAt)
    ensures var e := run.states[k].rows[i];
            e.queueNumber == if e.registrationType == ONLINE then "Q-001" else "W-001"
  {
    var rows := run.states[k].rows;
    RunNumbersOk(run, k);
    assert NumberedAt(run.env, rows, i);
    NothingIn(Select(rows[..i], CreatedSince(rows[i].restaurantId, run.env.startOfDay(rows[i].createdAt))));
    FirstNumber();
  }

  lemma FirstNumber()
    ensures QueueNumber(ONLINE, 1) == "Q-001" && QueueNumber(WALK_IN, 1) == "W-001"
  {
    assert PadStart("1", 3, '0') == PadStart("01", 3, '0') == PadStart("001", 3, '0') == "001";
  }

  /** Within a day, the next party of a restaurant has the next number, whatever its channel. */
  lemma NumbersFollow(run: History, k: nat, j: nat, i: nat)
    requires HasDays(run.env) && k <= |run.events| && j < i < |run.states[k].rows|
    requires var rows := run.states[k].rows;
             && rows[j].restaurantId == rows[i].restaurantId
             && run.env.startOfDay(rows[j].createdAt) == run.env.startOfDay(rows[i].createdAt)
             && forall m :: j < m < i ==> rows[m].restaurantId != rows[i].restaurantId
    ensures NumberOf(run.states[k].rows[i]) == NumberOf(run.states[k].rows[j]) + 1
  {
    var rows := run.states[k].rows;
    NumberIsPlace(run, k, i);
    NumberIsPlace(run, k, j);
    assert run.env.startOfDay(rows[j].createdAt) <= rows[j].createdAt;
    OneMoreThatDay(rows, CreatedSince(rows[i].restaurantId, run.env.startOfDay(rows[i].createdAt)), j, i);
  }

  /** Between two rows that count, with none that counts between them, the count rises by one. */
  lemma {:induction false} OneMoreThatDay(rows: Rows, p: EntryProps -> bool, j: nat, i: nat)
    requires j < i <= |rows| && p(rows[j]) && forall m :: j < m < i ==> !p(rows[m])
    ensures Count(rows[..i], p) == Count(rows[..j], p) + 1
  {
    assert rows[..i][..i - 1] == rows[..i - 1];
    if j < i - 1 { OneMoreThatDay(rows, p, j, i - 1); }
  }
}
