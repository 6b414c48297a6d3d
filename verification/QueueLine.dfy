/** Row queries: filters, sums, and the waiting line of a restaurant as a sorted list of slots. */
module QueueLine {
  import opened QueueTypes

  /** The rows that wait at a restaurant. */
  function WaitingAt(restaurantId: Id): EntryProps -> bool {
    (e: EntryProps) => e.restaurantId == restaurantId && e.status.WAITING?
  }

  /** The slots of the rows that meet `p`, in table order. */
  function Select(rows: Rows, p: EntryProps -> bool): (slots: seq<nat>)
    ensures forall i: nat {:trigger i in slots} :: i in slots <==> i < |rows| && p(rows[i])
    ensures InTable(rows, slots)
    ensures Rising(slots)
  {
    if rows == [] then []
    else
      var n := |rows| - 1;
      var init := Select(rows[..n], p);
      assert InTable(rows[..n], init);
      AppendRises(init, n);
      if p(rows[n]) then init + [n] else init
  }

  /** The people of the rows that meet `p`: a SUM(party_size) aggregate. */
  function Sum(rows: Rows, p: EntryProps -> bool): nat {
    if rows == [] then 0
    else
      var n := |rows| - 1;
      Sum(rows[..n], p) + if p(rows[n]) then rows[n].partySize else 0
  }

  /** How many rows meet `p`: a COUNT(*) aggregate. */
  function Count(rows: Rows, p: EntryProps -> bool): nat {
    |Select(rows, p)|
  }

  predicate InTable(rows: Rows, slots: seq<nat>) {
    forall k :: 0 <= k < |slots| ==> slots[k] < |rows|
  }

  // The pairwise facts below sit behind a named relation, so that they are only looked at for the
  // pairs a proof names.

  predicate DifferAt<T(==)>(s: seq<T>, a: nat, b: nat)
    requires a < |s| && b < |s|
  {
    s[a] != s[b]
  }

  ghost predicate NoRepeats<T>(s: seq<T>) {
    forall a: nat, b: nat :: a < b < |s| ==> DifferAt(s, a, b)
  }

  predicate RisesAt(s: seq<nat>, a: nat, b: nat)
    requires a < |s| && b < |s|
  {
    s[a] < s[b]
  }

  ghost predicate Rising(s: seq<nat>) {
    forall a: nat, b: nat :: a < b < |s| ==> RisesAt(s, a, b)
  }

  lemma SameValueSamePlace<T>(s: seq<T>, a: nat, b: nat)
    requires NoRepeats(s) && a < |s| && b < |s| && s[a] == s[b]
    ensures a == b
  {
    assert a < b ==> DifferAt(s, a, b);
    assert b < a ==> DifferAt(s, b, a);
  }

  lemma RisingDiffers(s: seq<nat>)
    requires Rising(s)
    ensures NoRepeats(s)
  {
    forall a: nat, b: nat | a < b < |s| ensures DifferAt(s, a, b) { assert RisesAt(s, a, b); }
  }

  lemma AppendRises(s: seq<nat>, x: nat)
    requires Rising(s) && forall a :: 0 <= a < |s| ==> s[a] < x
    ensures Rising(s + [x])
  {
    forall a: nat, b: nat | a < b < |s + [x]| ensures RisesAt(s + [x], a, b) {
      if b < |s| { assert RisesAt(s, a, b); }
    }
  }

  lemma StillInTable(rows: Rows, slots: seq<nat>, other: seq<nat>)
    requires InTable(rows, slots) && forall i: nat :: i in other ==> i in slots
    ensures InTable(rows, other)
  {
    forall k | 0 <= k < |other| ensures other[k] < |rows| { assert other[k] in other; }
  }

  /** The people in a list of slots. */
  function People(rows: Rows, slots: seq<nat>): nat
    requires InTable(rows, slots)
  {
    if slots == [] then 0
    else People(rows, slots[..|slots| - 1]) + rows[slots[|slots| - 1]].partySize
  }

  /** ORDER BY clauses: position (nulls last) then joinedAt, or joinedAt alone. */
  datatype OrderBy = POSITION_THEN_JOINED | JOINED

  predicate Precedes(order: OrderBy, e: EntryProps, f: EntryProps) {
    match order
    case JOINED => e.joinedAt < f.joinedAt
    case POSITION_THEN_JOINED =>
      if e.position.None? && f.position.None? then e.joinedAt < f.joinedAt
      else if e.position.None? then false
      else if f.position.None? then true
      else e.position.value < f.position.value
           || (e.position.value == f.position.value && e.joinedAt < f.joinedAt)
  }

  /** Where a stable insertion puts `slot`: behind the last slot it does not precede. */
  function InsertPoint(order: OrderBy, rows: Rows, slots: seq<nat>, slot: nat): (k: nat)
    requires InTable(rows, slots) && slot < |rows|
    ensures k <= |slots|
    ensures k > 0 ==> !Precedes(order, rows[slot], rows[slots[k - 1]])
    ensures forall a :: k <= a < |slots| ==> Precedes(order, rows[slot], rows[slots[a]])
  {
    if slots == [] || !Precedes(order, rows[slot], rows[slots[|slots| - 1]]) then |slots|
    else InsertPoint(order, rows, slots[..|slots| - 1], slot)
  }

  function InsertAt<T>(s: seq<T>, k: nat, x: T): seq<T>
    requires k <= |s|
  {
    s[..k] + [x] + s[k..]
  }

  function RemoveAt<T>(s: seq<T>, k: nat): seq<T>
    requires k < |s|
  {
    s[..k] + s[k + 1..]
  }

  function Sort(order: OrderBy, rows: Rows, slots: seq<nat>): (sorted: seq<nat>)
    requires InTable(rows, slots)
    ensures |sorted| == |slots| && InTable(rows, sorted)
    ensures forall i: nat {:trigger i in sorted} :: i in sorted <==> i in slots
    ensures NoRepeats(slots) ==> NoRepeats(sorted)
  {
    if slots == [] then []
    else
      var n := |slots| - 1;
      DropLast(slots);
      var init := Sort(order, rows, slots[..n]);
      assert slots == slots[..n] + [slots[n]];
      var k := InsertPoint(order, rows, init, slots[n]);
      InsertMembers(init, k, slots[n]);
      assert forall a :: 0 <= a <= |init| ==> InsertAt(init, k, slots[n])[a] in InsertAt(init, k, slots[n]);
      InsertAt(init, k, slots[n])
  }

  lemma {:induction false} SortFacts(order: OrderBy, rows: Rows, slots: seq<nat>)
    requires InTable(rows, slots)
    ensures InOrder(order, rows, Sort(order, rows, slots))
    ensures People(rows, Sort(order, rows, slots)) == People(rows, slots)
  {
    if slots != [] {
      var n := |slots| - 1;
      SortFacts(order, rows, slots[..n]);
      InsertFacts(order, rows, Sort(order, rows, slots[..n]), slots[n]);
    }
  }

  predicate Ahead(order: OrderBy, rows: Rows, slots: seq<nat>, a: nat, b: nat)
    requires InTable(rows, slots) && a < |slots| && b < |slots|
  {
    Precedes(order, rows[slots[a]], rows[slots[b]])
  }

  /** No later slot precedes an earlier one. */
  ghost predicate InOrder(order: OrderBy, rows: Rows, slots: seq<nat>) {
    InTable(rows, slots) && forall a: nat, b: nat :: a < b < |slots| ==> !Ahead(order, rows, slots, b, a)
  }

  /** Every earlier slot precedes every later one. */
  ghost predicate InStrictOrder(order: OrderBy, rows: Rows, slots: seq<nat>) {
    InTable(rows, slots) && forall a: nat, b: nat :: a < b < |slots| ==> Ahead(order, rows, slots, a, b)
  }

  lemma InsertFacts(order: OrderBy, rows: Rows, slots: seq<nat>, slot: nat)
    requires InOrder(order, rows, slots) && slot < |rows|
    ensures var r := InsertAt(slots, InsertPoint(order, rows, slots, slot), slot);
            && InOrder(order, rows, r)
            && People(rows, r) == People(rows, slots) + rows[slot].partySize
  {
    var k := InsertPoint(order, rows, slots, slot);
    InsertMembers(slots, k, slot);
    InsertKeepsOrder(order, rows, slots, slot);
    assert slots[..k] + slots[k..] == slots;
    PeopleOfBoth(rows, slots[..k], slots[k..]);
    PeopleOfBoth(rows, slots[..k] + [slot], slots[k..]);
    PeopleOfBoth(rows, slots[..k], [slot]);
    PeopleOfOne(rows, slot);
  }

  lemma InsertKeepsOrder(order: OrderBy, rows: Rows, slots: seq<nat>, slot: nat)
    requires InOrder(order, rows, slots) && slot < |rows|
    ensures InOrder(order, rows, InsertAt(slots, InsertPoint(order, rows, slots, slot), slot))
  {
    var k := InsertPoint(order, rows, slots, slot);
    var r := InsertAt<nat>(slots, k, slot);
    assert InTable(rows, r);
    forall a: nat, b: nat | a < b < |r| ensures !Ahead(order, rows, r, b, a) {
      if b == k {
        InsertedIsBehind(order, rows, slots, slot, a);
      } else if a == k {
        PrecedesIsAsymmetric(order, rows[slot], rows[slots[b - 1]]);
        assert r[b] == slots[b - 1];
      } else {
        var i, j := if a < k then a else a - 1, if b < k then b else b - 1;
        assert !Ahead(order, rows, slots, j, i);
      }
    }
  }

  lemma InsertedIsBehind(order: OrderBy, rows: Rows, slots: seq<nat>, slot: nat, a: nat)
    requires InOrder(order, rows, slots) && slot < |rows| && a < InsertPoint(order, rows, slots, slot)
    ensures !Precedes(order, rows[slot], rows[slots[a]])
  {
    var k := InsertPoint(order, rows, slots, slot);
    if a < k - 1 { assert !Ahead(order, rows, slots, k - 1, a); }
    NotBeforeIsTransitive(order, rows[slots[a]], rows[slots[k - 1]], rows[slot]);
  }

  lemma InsertMembers<T>(s: seq<T>, k: nat, x: T)
    requires k <= |s|
    ensures |InsertAt(s, k, x)| == |s| + 1
    ensures forall y :: y in InsertAt(s, k, x) <==> y in s || y == x
    ensures NoRepeats(s) && x !in s ==> NoRepeats(InsertAt(s, k, x))
  {
    assert s == s[..k] + s[k..];
    var r := InsertAt(s, k, x);
    if NoRepeats(s) && x !in s {
      forall a: nat, b: nat | a < b < |r| ensures DifferAt(r, a, b) {
        if a != k && b != k {
          assert DifferAt(s, if a < k then a else a - 1, if b < k then b else b - 1);
        }
      }
    }
  }

  lemma PrecedesIsAsymmetric(order: OrderBy, e: EntryProps, f: EntryProps)
    ensures Precedes(order, e, f) ==> !Precedes(order, f, e)
  {
  }

  lemma NotBeforeIsTransitive(order: OrderBy, e: EntryProps, f: EntryProps, g: EntryProps)
    ensures !Precedes(order, g, f) && !Precedes(order, f, e) ==> !Precedes(order, g, e)
  {
  }

  lemma PeopleOfOne(rows: Rows, slot: nat)
    requires slot < |rows|
    ensures People(rows, [slot]) == rows[slot].partySize
  {
    assert [slot][..0] == [];
    assert People(rows, [slot][..0]) == 0;
  }

  lemma {:induction false} PeopleOfBoth(rows: Rows, s: seq<nat>, t: seq<nat>)
    requires InTable(rows, s) && InTable(rows, t)
    ensures People(rows, s + t) == People(rows, s) + People(rows, t)
  {
    if t == [] {
      assert s + t == s;
    } else {
      assert (s + t)[..|s + t| - 1] == s + t[..|t| - 1];
      PeopleOfBoth(rows, s, t[..|t| - 1]);
    }
  }

  /**
   * The waiting line of a restaurant, first party first: the slots of its WAITING rows ordered by
   * position, then by arrival.
   */
  function LineOf(rows: Rows, restaurantId: Id): (line: seq<nat>)
    ensures forall i: nat {:trigger i in line} :: i in line <==> i < |rows| && WaitingAt(restaurantId)(rows[i])
    ensures NoRepeats(line) && InTable(rows, line)
  {
    RisingDiffers(Select(rows, WaitingAt(restaurantId)));
    Sort(POSITION_THEN_JOINED, rows, Select(rows, WaitingAt(restaurantId)))
  }

  function IdsOf(rows: Rows, slots: seq<nat>): (ids: seq<Id>)
    requires InTable(rows, slots)
    ensures |ids| == |slots| && forall k :: 0 <= k < |ids| ==> ids[k] == rows[slots[k]].id
  {
    seq(|slots|, k requires 0 <= k < |slots| => rows[slots[k]].id)
  }

  /** The first slot that holds an id: a look-up by primary key. */
  function SlotOf(rows: Rows, id: Id): (slot: Option<nat>)
    ensures slot.Some? ==> slot.value < |rows| && rows[slot.value].id == id
    ensures slot.None? ==> forall i :: 0 <= i < |rows| ==> rows[i].id != id
  {
    if rows == [] then None
    else
      var n := |rows| - 1;
      var first := SlotOf(rows[..n], id);
      if first.Some? then first else if rows[n].id == id then Some(n) else None
  }

  /** The first place where a list holds a value, as JavaScript's findIndex. */
  function PlaceOf<T(==)>(s: seq<T>, x: T): (k: int)
    ensures x in s ==> 0 <= k < |s| && s[k] == x
    ensures x !in s ==> k == -1
  {
    if s == [] then -1
    else
      var n := |s| - 1;
      var k := PlaceOf(s[..n], x);
      if k != -1 then k else if s[n] == x then n else -1
  }

  predicate DistinctIds(rows: Rows, i: nat, j: nat)
    requires i < |rows| && j < |rows|
  {
    rows[i].id != rows[j].id
  }

  /** The id is a primary key. */
  ghost predicate UniqueIds(rows: Rows) {
    forall i: nat, j: nat :: i < j < |rows| ==> DistinctIds(rows, i, j)
  }

  lemma SameIdSameSlot(rows: Rows, i: nat, j: nat)
    requires UniqueIds(rows) && i < |rows| && j < |rows| && rows[i].id == rows[j].id
    ensures i == j
  {
    assert i < j ==> DistinctIds(rows, i, j);
    assert j < i ==> DistinctIds(rows, j, i);
  }

  lemma SameIds(rows: Rows, other: Rows)
    requires UniqueIds(rows) && |other| == |rows|
    requires forall i :: 0 <= i < |rows| ==> other[i].id == rows[i].id
    ensures UniqueIds(other)
  {
    forall i: nat, j: nat | i < j < |other| ensures DistinctIds(other, i, j) {
      assert DistinctIds(rows, i, j);
    }
  }

  predicate JoinedBefore(rows: Rows, i: nat, j: nat)
    requires i < |rows| && j < |rows|
  {
    rows[i].joinedAt < rows[j].joinedAt
  }

  /** The table is in order of arrival. */
  ghost predicate ByArrival(rows: Rows) {
    forall i: nat, j: nat :: i < j < |rows| ==> JoinedBefore(rows, i, j)
  }

  lemma SomethingIn(s: seq<nat>)
    ensures s == [] || exists i: nat :: i in s
  {
    if s != [] { assert s[0] in s; }
  }

  lemma NothingIn(s: seq<nat>)
    requires forall i: nat :: i !in s
    ensures s == []
  {
    SomethingIn(s);
  }

  /** A strict order leaves one way to line up a set of slots. */
  lemma {:induction false} SortIs(order: OrderBy, rows: Rows, line: seq<nat>, other: seq<nat>)
    requires InStrictOrder(order, rows, line) && InOrder(order, rows, other)
    requires NoRepeats(other)
    requires forall i: nat :: i in line <==> i in other
    ensures line == other
  {
    if line == [] {
      NothingIn(other);
    } else {
      var n := |line| - 1;
      assert line[n] in other;
      var m := |other| - 1;
      SameLast(order, rows, line, other);
      DropLast(line);
      DropLast(other);
      DropLastOrder(order, rows, line);
      DropLastOrder(order, rows, other);
      assert line == line[..n] + [line[n]] && other == other[..m] + [other[m]];
      forall i: nat ensures i in line[..n] <==> i in other[..m] {
        assert i in line <==> i in line[..n] || i == line[n];
        assert i in other <==> i in other[..m] || i == other[m];
      }
      SortIs(order, rows, line[..n], other[..m]);
    }
  }

  lemma DropLast<T>(s: seq<T>)
    requires s != []
    ensures NoRepeats(s) ==> s[|s| - 1] !in s[..|s| - 1] && NoRepeats(s[..|s| - 1])
  {
    var n := |s| - 1;
    if NoRepeats(s) {
      forall a: nat | a < n ensures s[a] != s[n] { assert DifferAt(s, a, n); }
      forall a: nat, b: nat | a < b < n ensures DifferAt(s[..n], a, b) { assert DifferAt(s, a, b); }
    }
  }

  lemma DropLastOrder(order: OrderBy, rows: Rows, slots: seq<nat>)
    requires slots != []
    ensures InOrder(order, rows, slots) ==> InOrder(order, rows, slots[..|slots| - 1])
    ensures InStrictOrder(order, rows, slots) ==> InStrictOrder(order, rows, slots[..|slots| - 1])
  {
    var init := slots[..|slots| - 1];
    if InTable(rows, slots) {
      forall a: nat, b: nat | a < |init| && b < |init|
        ensures Ahead(order, rows, init, a, b) == Ahead(order, rows, slots, a, b)
      {
      }
    }
  }

  lemma StrictDiffers(order: OrderBy, rows: Rows, slots: seq<nat>)
    requires InStrictOrder(order, rows, slots)
    ensures NoRepeats(slots)
  {
    forall a: nat, b: nat | a < b < |slots| ensures DifferAt(slots, a, b) {
      assert Ahead(order, rows, slots, a, b);
      PrecedesIsAsymmetric(order, rows[slots[a]], rows[slots[b]]);
    }
  }

  lemma SameLast(order: OrderBy, rows: Rows, line: seq<nat>, other: seq<nat>)
    requires InStrictOrder(order, rows, line) && InOrder(order, rows, other)
    requires forall i: nat :: i in line <==> i in other
    requires line != [] && other != []
    ensures line[|line| - 1] == other[|other| - 1]
    ensures NoRepeats(line)
  {
    StrictDiffers(order, rows, line);
    var n, m := |line| - 1, |other| - 1;
    assert line[n] in other && other[m] in line;
    var k: nat :| k <= m && other[k] == line[n];
    var j: nat :| j <= n && line[j] == other[m];
    assert k < m ==> !Ahead(order, rows, other, m, k);
    assert j < n ==> Ahead(order, rows, line, j, n);
  }

  /** The waiting line is the only strictly ordered list of the waiting slots. */
  lemma LineIs(rows: Rows, restaurantId: Id, line: seq<nat>)
    requires InStrictOrder(POSITION_THEN_JOINED, rows, line)
    requires forall i: nat :: i in line <==> i < |rows| && WaitingAt(restaurantId)(rows[i])
    ensures LineOf(rows, restaurantId) == line
  {
    SortFacts(POSITION_THEN_JOINED, rows, Select(rows, WaitingAt(restaurantId)));
    SortIs(POSITION_THEN_JOINED, rows, line, LineOf(rows, restaurantId));
  }

  lemma LineIsStrict(rows: Rows, restaurantId: Id)
    requires ByArrival(rows)
    ensures InStrictOrder(POSITION_THEN_JOINED, rows, LineOf(rows, restaurantId))
  {
    var line := LineOf(rows, restaurantId);
    SortFacts(POSITION_THEN_JOINED, rows, Select(rows, WaitingAt(restaurantId)));
    forall a: nat, b: nat | a < b < |line| ensures Ahead(POSITION_THEN_JOINED, rows, line, a, b) {
      assert DifferAt(line, a, b);
      assert !Ahead(POSITION_THEN_JOINED, rows, line, b, a);
      assert if line[a] < line[b] then JoinedBefore(rows, line[a], line[b]) else JoinedBefore(rows, line[b], line[a]);
    }
  }

  lemma {:induction false} PeopleOfSelect(rows: Rows, p: EntryProps -> bool)
    ensures InTable(rows, Select(rows, p))
    ensures People(rows, Select(rows, p)) == Sum(rows, p)
  {
    if rows != [] {
      var n := |rows| - 1;
      var init := Select(rows[..n], p);
      PeopleOfSelect(rows[..n], p);
      PeopleOfPrefix(rows, rows[..n], init);
      if p(rows[n]) { assert Select(rows, p)[..|init|] == init; }
    }
  }

  lemma {:induction false} PeopleOfPrefix(rows: Rows, other: Rows, slots: seq<nat>)
    requires InTable(rows, slots) && InTable(other, slots)
    requires forall k :: 0 <= k < |slots| ==> rows[slots[k]].partySize == other[slots[k]].partySize
    ensures People(rows, slots) == People(other, slots)
  {
    if slots != [] { PeopleOfPrefix(rows, other, slots[..|slots| - 1]); }
  }

  /** The aggregate the registration reads is the length and the headcount of the line. */
  lemma LineTotals(rows: Rows, restaurantId: Id)
    ensures |LineOf(rows, restaurantId)| == Count(rows, WaitingAt(restaurantId))
    ensures People(rows, LineOf(rows, restaurantId)) == Sum(rows, WaitingAt(restaurantId))
  {
    PeopleOfSelect(rows, WaitingAt(restaurantId));
    SortFacts(POSITION_THEN_JOINED, rows, Select(rows, WaitingAt(restaurantId)));
  }

  /** Two filters that agree row by row give the same sum. */
  lemma {:induction false} SumAgrees(rows: Rows, p: EntryProps -> bool, other: Rows, q: EntryProps -> bool)
    requires |rows| == |other|
    requires forall i :: 0 <= i < |rows| ==> p(rows[i]) == q(other[i]) && rows[i].partySize == other[i].partySize
    ensures Sum(rows, p) == Sum(other, q)
  {
    if rows != [] { SumAgrees(rows[..|rows| - 1], p, other[..|rows| - 1], q); }
  }

  /** Filters that agree row by row select the same slots. */
  lemma {:induction false} SelectAgrees(rows: Rows, other: Rows, p: EntryProps -> bool)
    requires |rows| == |other| && forall i :: 0 <= i < |rows| ==> p(rows[i]) == p(other[i])
    ensures Select(rows, p) == Select(other, p)
  {
    if rows != [] { SelectAgrees(rows[..|rows| - 1], other[..|rows| - 1], p); }
  }

  /** Rows that agree on some slots sort them the same. */
  lemma {:induction false} SortAgrees(order: OrderBy, rows: Rows, other: Rows, slots: seq<nat>)
    requires InTable(rows, slots) && |other| == |rows| && forall i: nat :: i in slots ==> other[i] == rows[i]
    ensures Sort(order, rows, slots) == Sort(order, other, slots)
  {
    if slots != [] {
      var n := |slots| - 1;
      assert forall i: nat :: i in slots[..n] ==> i in slots;
      assert slots[n] in slots;
      SortAgrees(order, rows, other, slots[..n]);
      InsertPointAgrees(order, rows, other, Sort(order, rows, slots[..n]), slots[n]);
    }
  }

  lemma {:induction false} InsertPointAgrees(order: OrderBy, rows: Rows, other: Rows, slots: seq<nat>, slot: nat)
    requires InTable(rows, slots) && slot < |rows| == |other| && other[slot] == rows[slot]
    requires forall i: nat :: i in slots ==> other[i] == rows[i]
    ensures InsertPoint(order, rows, slots, slot) == InsertPoint(order, other, slots, slot)
  {
    if slots != [] {
      var n := |slots| - 1;
      assert slots[n] in slots;
      assert forall i: nat :: i in slots[..n] ==> i in slots;
      InsertPointAgrees(order, rows, other, slots[..n], slot);
    }
  }
}
