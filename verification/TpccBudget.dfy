/** How many new orders each district may take before inserts stop commuting.

    A district's orders fill slots upwards from its own first slot, past the end of its own slots and into those
    of the districts after it.  Two orders may meet in a slot only if nothing makes their behaviours run in
    log order: in the split form that is any two districts, in the joint form only districts of different
    warehouses, because the joint form takes the warehouse's cown. */
module TpccBudget {
  import opened Common
  import opened TpccKeys

  /** May new orders of districts g and h run in either order? */
  ghost predicate Concurrent(split: bool, g: nat, h: nat) {
    split || g / DISTRICTS_PER_WAREHOUSE != h / DISTRICTS_PER_WAREHOUSE
  }

  /** With n[g] new orders for each district g, no district reaches the new orders of a concurrent one. */
  ghost predicate ClearOf(split: bool, n: seq<nat>) {
    forall g, h | 0 <= g < h < |n| && Concurrent(split, g, h) && n[h] > 0 :: n[g] <= ORDERS_PER_DISTRICT * (h - g)
  }

  /** The new orders' slots lie inside the new-order table and fit in 32 bits. */
  ghost predicate SlotsFit(scale: nat, g: nat, orders: nat) {
    var last := g * ORDERS_PER_DISTRICT + INITIAL_ORDERS_PER_DISTRICT + orders;
    last <= TSizeNewOrder(scale) && last < TWO32
  }

  /** The tables have room for them. */
  ghost predicate Fit(scale: nat, n: seq<nat>) {
    && |n| == DistrictCount(scale)
    && Sum(n) + 2 <= TSizeNewOrder(scale)
    && forall g | 0 <= g < |n| && n[g] > 0 :: SlotsFit(scale, g, n[g])
  }

  /** No district's new order lines reach those of another; lines lie twice as far apart as orders. */
  ghost predicate LinesClearOf(n: seq<nat>) {
    forall g, h | 0 <= g < h < |n| && n[h] > 0 :: n[g] <= 2 * ORDERS_PER_DISTRICT * (h - g)
  }

  ghost predicate Below(m: seq<nat>, n: seq<nat>) {
    |m| == |n| && forall g | 0 <= g < |m| :: m[g] <= n[g]
  }

  lemma BelowClear(split: bool, m: seq<nat>, n: seq<nat>)
    requires Below(m, n) && ClearOf(split, n)
    ensures ClearOf(split, m)
  {}

  lemma BelowLinesClear(m: seq<nat>, n: seq<nat>)
    requires Below(m, n) && LinesClearOf(n)
    ensures LinesClearOf(m)
  {}

  lemma BelowFits(scale: nat, m: seq<nat>, n: seq<nat>)
    requires Below(m, n) && Fit(scale, n)
    ensures Fit(scale, m)
  {
    SumMonotone(m, n);
    forall g | 0 <= g < |m| && m[g] > 0 ensures SlotsFit(scale, g, m[g]) { assert SlotsFit(scale, g, n[g]); }
  }

  lemma {:induction false} SumBound(n: seq<nat>, bound: nat)
    requires forall g | 0 <= g < |n| :: n[g] <= bound
    ensures Sum(n) <= |n| * bound
  {
    if n != [] {
      SumBound(n[..|n| - 1], bound);
      assert |n| * bound == (|n| - 1) * bound + bound;
    }
  }

  /** Up to 6840 new orders for every district are within both budgets. */
  lemma UniformBudget(scale: nat, split: bool, n: seq<nat>)
    requires ValidScale(scale) && |n| == DistrictCount(scale) && forall g | 0 <= g < |n| :: n[g] <= ORDERS_PER_DISTRICT
    ensures ClearOf(split, n) && Fit(scale, n)
  {
    SumBound(n, ORDERS_PER_DISTRICT);
    SmallKeys(scale, 1, 1);
    forall g | 0 <= g < |n| && n[g] > 0 ensures SlotsFit(scale, g, n[g]) {}
  }

  /** With the same allowance for every district the budget is exactly 6840, unless the form is joint and there
      is only one warehouse. */
  lemma UniformIsClearIff(scale: nat, split: bool, n: seq<nat>, bound: nat)
    requires ValidScale(scale) && |n| == DistrictCount(scale) && forall g | 0 <= g < |n| :: n[g] == bound
    ensures ClearOf(split, n) <==> bound <= ORDERS_PER_DISTRICT || (!split && scale == 1)
  {
    if scale > 1 {
      assert Concurrent(split, 9, 10);
    } else if split {
      assert Concurrent(split, 0, 1);
    }
  }

  /** In the joint form the last district before the next warehouse is the tightest: district j of a warehouse
      may take 6840 * (10 - j) when every district of the next takes some. */
  lemma JointBudget(scale: nat, n: seq<nat>)
    requires |n| == DistrictCount(scale) && forall g | 0 <= g < |n| :: n[g] > 0
    ensures ClearOf(false, n)
            <==> forall g | 0 <= g < |n| - DISTRICTS_PER_WAREHOUSE ::
                   n[g] <= ORDERS_PER_DISTRICT * (DISTRICTS_PER_WAREHOUSE - g % DISTRICTS_PER_WAREHOUSE)
  {
    var per := DISTRICTS_PER_WAREHOUSE;
    if ClearOf(false, n) {
      forall g | 0 <= g < |n| - per ensures n[g] <= ORDERS_PER_DISTRICT * (per - g % per) {
        var h := g + per - g % per;
        assert h == (g / per + 1) * per;
        assert Concurrent(false, g, h);
      }
    }
    if forall g | 0 <= g < |n| - per :: n[g] <= ORDERS_PER_DISTRICT * (per - g % per) {
      forall g, h | 0 <= g < h < |n| && Concurrent(false, g, h) && n[h] > 0 ensures n[g] <= ORDERS_PER_DISTRICT * (h - g) {
        assert h >= (g / per + 1) * per;
      }
    }
  }

  /** The ids of two orders keep them out of each other's slots. */
  ghost predicate IdsClear(g: int, o: int, h: int, v: int) {
    && (g < h ==> o - v < ORDERS_PER_DISTRICT * (h - g))
    && (h < g ==> v - o < ORDERS_PER_DISTRICT * (g - h))
  }

  lemma ClearIds(split: bool, n: seq<nat>, g: nat, o: nat, h: nat, v: nat)
    requires ClearOf(split, n) && g < |n| && h < |n| && g != h && Concurrent(split, g, h)
    requires INITIAL_NEXT_O_ID <= o <= INITIAL_ORDERS_PER_DISTRICT + n[g]
    requires INITIAL_NEXT_O_ID <= v <= INITIAL_ORDERS_PER_DISTRICT + n[h]
    ensures IdsClear(g, o, h, v)
  {}
}
