/** How a party's seats are spread over its tables, when it is seated and when it is released. */
module SeatPlans {
  import opened QueueTypes

  function Max(a: nat, b: nat): nat {
    if a < b then b else a
  }

  /** The seats of the i-th of t tables for a party of p. */
  function Share(p: nat, t: nat, i: nat): nat
    requires i < t
  {
    Max(1, (p + t - 1 - i) / t)
  }

  function SeatPlan(partySize: nat, tableIds: seq<Id>): (plan: seq<TableSeats>)
  {
    seq(|tableIds|, i requires 0 <= i < |tableIds| => TableSeats(tableIds[i], Share(partySize, |tableIds|, i)))
  }

  function Total(plan: seq<TableSeats>): nat {
    if plan == [] then 0 else Total(plan[..|plan| - 1]) + plan[|plan| - 1].count
  }

  /** The loop that seats a party: a base count, and one more while the remainder lasts. */
  method PlanSeats(partySize: nat, tableIds: seq<Id>) returns (plan: seq<TableSeats>)
    requires tableIds != []
    ensures plan == SeatPlan(partySize, tableIds)
  {
    var tableCount := |tableIds|;
    var baseCount := partySize / tableCount;
    var remainder := partySize % tableCount;
    ghost var extra := remainder;
    plan := [];
    for i := 0 to tableCount
      invariant |plan| == i
      invariant remainder == if i < extra then extra - i else 0
      invariant forall j :: 0 <= j < i ==> plan[j] == TableSeats(tableIds[j], Spread(baseCount, extra, j))
    {
      var count := baseCount + if remainder > 0 then 1 else 0;
      if remainder > 0 {
        remainder := remainder - 1;
      }
      plan := plan + [TableSeats(tableIds[i], Max(1, count))];
    }
    SpreadIsPlan(partySize, tableIds, plan);
  }

  /** The loop that gives a party's tables back. */
  method PlanRelease(partySize: nat, held: seq<TableAssignment>) returns (plan: seq<TableSeats>)
    requires held != []
    ensures plan == SeatPlan(partySize, TablesOf(held))
  {
    var assignmentCount := |held|;
    var baseOccupancy := partySize / assignmentCount;
    var remainder := partySize % assignmentCount;
    ghost var extra := remainder;
    plan := [];
    for i := 0 to assignmentCount
      invariant |plan| == i
      invariant remainder == if i < extra then extra - i else 0
      invariant forall j :: 0 <= j < i ==> plan[j] == TableSeats(held[j].tableId, Spread(baseOccupancy, extra, j))
    {
      var occupancy := baseOccupancy + if remainder > 0 then 1 else 0;
      if remainder > 0 {
        remainder := remainder - 1;
      }
      plan := plan + [TableSeats(held[i].tableId, Max(1, occupancy))];
    }
    SpreadIsPlan(partySize, TablesOf(held), plan);
  }

  function Base(p: nat, t: nat): nat
    requires t > 0
  {
    p / t
  }

  function Extra(p: nat, t: nat): (r: nat)
    requires t > 0
    ensures r < t
  {
    p % t
  }

  /** The i-th count when every table gets b, the first r one more, and none less than one. */
  function Spread(b: nat, r: nat, i: nat): nat {
    Max(1, b + if i < r then 1 else 0)
  }

  lemma SpreadIsPlan(p: nat, tableIds: seq<Id>, plan: seq<TableSeats>)
    requires tableIds != [] && |plan| == |tableIds|
    requires forall j :: 0 <= j < |plan| ==>
               plan[j] == TableSeats(tableIds[j], Spread(Base(p, |tableIds|), Extra(p, |tableIds|), j))
    ensures plan == SeatPlan(p, tableIds)
  {
    forall j | 0 <= j < |plan| ensures plan[j] == SeatPlan(p, tableIds)[j] {
      ShareIs(p, |tableIds|, j);
    }
  }

  function TablesOf(held: seq<TableAssignment>): (ids: seq<Id>)
    ensures |ids| == |held|
  {
    seq(|held|, k requires 0 <= k < |held| => held[k].tableId)
  }

  lemma ProductsGrow(a: nat, b: nat, t: nat)
    requires a <= b
    ensures a * t <= b * t
  {
  }

  lemma DivisionIs(x: nat, t: nat, q: nat)
    requires t > 0 && q * t <= x < q * t + t
    ensures x / t == q
  {
    var d := x / t;
    assert d * t <= x < d * t + t;
    if d < q {
      ProductsGrow(d + 1, q, t);
    } else if q < d {
      ProductsGrow(q + 1, d, t);
    }
  }

  lemma ShareOfQuotient(b: nat, r: nat, t: nat, i: nat)
    requires r < t && i < t
    ensures (b * t + r + t - 1 - i) / t == b + if i < r then 1 else 0
  {
    if i < r {
      assert (b + 1) * t == b * t + t;
      DivisionIs(b * t + r + t - 1 - i, t, b + 1);
    } else {
      DivisionIs(b * t + r + t - 1 - i, t, b);
    }
  }

  lemma QuotientAndRemainder(p: nat, t: nat)
    requires t > 0
    ensures p == p / t * t + p % t && p % t < t
    ensures p < t ==> p / t == 0 && p % t == p
    ensures t <= p ==> p / t >= 1
  {
    if p < t { DivisionIs(p, t, 0); }
  }

  /** The closed form is the base count plus one for the first `p % t` tables. */
  lemma ShareIs(p: nat, t: nat, i: nat)
    requires i < t
    ensures Share(p, t, i) == Spread(Base(p, t), Extra(p, t), i)
  {
    QuotientAndRemainder(p, t);
    ShareOfQuotient(p / t, p % t, t, i);
  }

  lemma {:induction false} TotalOfFirst(plan: seq<TableSeats>, k: nat, b: nat, r: nat)
    requires k <= |plan| && forall i :: 0 <= i < |plan| ==> plan[i].count == Spread(b, r, i)
    ensures Total(plan[..k]) == if b == 0 then k else k * b + if k < r then k else r
  {
    if k > 0 {
      TotalOfFirst(plan, k - 1, b, r);
      assert plan[..k][..k - 1] == plan[..k - 1];
      OneMore(k, b);
    }
  }

  lemma OneMore(k: nat, b: nat)
    requires k > 0
    ensures k * b == (k - 1) * b + b
  {
  }

  /**
   * A party of p over t tables takes max(p, t) seats in all; the counts fall along the tables, and
   * no two of them differ by more than one.
   */
  lemma SeatPlanIsFair(p: nat, tableIds: seq<Id>)
    requires tableIds != []
    ensures var plan := SeatPlan(p, tableIds);
            && Total(plan) == Max(p, |tableIds|)
            && (forall i :: 0 <= i < |plan| ==> plan[i].tableId == tableIds[i] && plan[i].count >= 1)
            && (forall i, j :: 0 <= i < j < |plan| ==> plan[j].count <= plan[i].count <= plan[j].count + 1)
  {
    var plan := SeatPlan(p, tableIds);
    PlanIsSpread(p, tableIds);
    SpreadIsFair(plan, Base(p, |tableIds|), Extra(p, |tableIds|));
    assert p == Base(p, |tableIds|) * |tableIds| + Extra(p, |tableIds|) by { QuotientAndRemainder(p, |tableIds|); }
  }

  lemma PlanIsSpread(p: nat, tableIds: seq<Id>)
    requires tableIds != []
    ensures forall i :: 0 <= i < |tableIds| ==>
              SeatPlan(p, tableIds)[i].count == Spread(Base(p, |tableIds|), Extra(p, |tableIds|), i)
  {
    forall i | 0 <= i < |tableIds|
      ensures SeatPlan(p, tableIds)[i].count == Spread(Base(p, |tableIds|), Extra(p, |tableIds|), i)
    {
      ShareIs(p, |tableIds|, i);
    }
  }

  lemma SpreadIsFair(plan: seq<TableSeats>, b: nat, r: nat)
    requires r < |plan| && forall i :: 0 <= i < |plan| ==> plan[i].count == Spread(b, r, i)
    ensures Total(plan) == Max(b * |plan| + r, |plan|)
    ensures forall i :: 0 <= i < |plan| ==> plan[i].count >= 1
    ensures forall i, j :: 0 <= i < j < |plan| ==> plan[j].count <= plan[i].count <= plan[j].count + 1
  {
    TotalOfFirst(plan, |plan|, b, r);
    assert plan[..|plan|] == plan;
    if b > 0 { ProductsGrow(1, b, |plan|); }
  }

  /** Giving back as many tables as were taken frees as many seats as were taken. */
  lemma ReleaseMatchesSeating(p: nat, tableIds: seq<Id>, held: seq<TableAssignment>)
    requires tableIds != [] && |held| == |tableIds|
    ensures Total(SeatPlan(p, TablesOf(held))) == Total(SeatPlan(p, tableIds))
    ensures forall i :: 0 <= i < |held| ==>
              SeatPlan(p, TablesOf(held))[i].count == SeatPlan(p, tableIds)[i].count
  {
    SeatPlanIsFair(p, tableIds);
    SeatPlanIsFair(p, TablesOf(held));
  }
}
