/** Row numbering of the TPC-C tables and the single-allocation address layout.

    The C++ `hash_key` functions mix 32-bit and 64-bit unsigned arithmetic; the
    reductions are written out with Wrap32 and Wrap64.  The number of warehouses is a
    parameter; `ValidScale` holds of NUM_WAREHOUSES = 1 and of every scale at which no
    in-range key wraps. */
module TpccKeys {
  import opened Common

  const MAX_ORDER_TRANSACTIONS := 3840  // NUM_TRANSACTIONS / 10 * 6, where NUM_TRANSACTIONS is 3200 * 2
  const DISTRICTS_PER_WAREHOUSE := 10
  const CUSTOMERS_PER_DISTRICT := 3000
  const INITIAL_ORDERS_PER_DISTRICT := 3000
  const INITIAL_NEW_ORDERS_PER_DISTRICT := 900
  const INITIAL_NEXT_O_ID := 3001
  const NUM_ITEMS := 100000
  const STOCK_PER_WAREHOUSE := 100000
  const LINES_PER_ORDER := 15

  /** Order slots reserved per district. */
  const ORDERS_PER_DISTRICT := 6840  // INITIAL_ORDERS_PER_DISTRICT + MAX_ORDER_TRANSACTIONS

  /** The last order id that keeps a district's new orders clear of its neighbour's new orders: ids
      3001 to 9840 fill exactly one district's worth of slots.  Ids past ORDERS_PER_DISTRICT fall on
      slots of the next district's loaded orders. */
  const LAST_CLEAR_ID := 9840  // INITIAL_ORDERS_PER_DISTRICT + ORDERS_PER_DISTRICT

  ghost predicate ValidScale(w: nat) {
    1 <= w && w * STOCK_PER_WAREHOUSE <= TWO32
  }

  /** Reduction modulo 2^32 and 2^64; the common case is split off because it is the one that matters. */
  function Wrap32(x: int): (r: nat)
    ensures r < TWO32
  {
    if 0 <= x < TWO32 then x else x % TWO32
  }

  function Wrap64(x: int): (r: nat)
    ensures r < TWO64
  {
    if 0 <= x < TWO64 then x else x % TWO64
  }

  // ---------------------------------------------------------------------------
  // hash_key
  // ---------------------------------------------------------------------------

  function WarehouseKey(wid: int): nat { Wrap32(wid - 1) }

  function DistrictKey(wid: int, did: int): nat {
    Wrap32((wid - 1) * DISTRICTS_PER_WAREHOUSE + (did - 1))
  }

  function CustomerKey(wid: int, did: int, cid: int): nat {
    Wrap32((wid - 1) * DISTRICTS_PER_WAREHOUSE * CUSTOMERS_PER_DISTRICT + (did - 1) * CUSTOMERS_PER_DISTRICT + (cid - 1))
  }

  function StockKey(wid: int, iid: int): nat {
    Wrap32((wid - 1) * STOCK_PER_WAREHOUSE + (iid - 1))
  }

  function ItemKey(iid: int): nat { Wrap32(iid - 1) }

  /** Order::hash_key on a row, whose o_id is 64 bits wide. */
  function OrderKey(wid: int, did: int, oid: int): nat {
    Wrap64(Wrap32((wid - 1) * DISTRICTS_PER_WAREHOUSE) * ORDERS_PER_DISTRICT
           + Wrap32(did - 1) * ORDERS_PER_DISTRICT + Wrap64(oid - 1))
  }

  /** The static Order::hash_key and NewOrder::hash_key, whose order id is 32 bits wide. */
  function OrderKey32(wid: int, did: int, oid: int): nat {
    Wrap64(Wrap32((wid - 1) * DISTRICTS_PER_WAREHOUSE) * ORDERS_PER_DISTRICT
           + Wrap32(did - 1) * ORDERS_PER_DISTRICT + Wrap32(Wrap32(oid) - 1))
  }

  /** OrderLine::hash_key; `oid` is whatever the constructor was given. */
  function OrderLineKey(wid: int, did: int, oid: int, number: int): nat {
    Wrap64(OrderKey32(wid, did, oid) * LINES_PER_ORDER + Wrap64(number - 1))
  }

  /** The key a NewOrder transaction uses for its line: the order's hash key is passed
      where the constructor names an order id. */
  function NewLineKey(wid: int, did: int, oid: int, number: int): nat {
    OrderLineKey(wid, did, OrderKey(wid, did, oid), number)
  }

  // ---------------------------------------------------------------------------
  // In-range ids
  // ---------------------------------------------------------------------------

  ghost predicate DistrictId(scale: nat, wid: int, did: int) {
    1 <= wid <= scale && 1 <= did <= DISTRICTS_PER_WAREHOUSE
  }

  /** Zero-based number of a district over all warehouses. */
  function GlobalDistrict(wid: int, did: int): int {
    (wid - 1) * DISTRICTS_PER_WAREHOUSE + (did - 1)
  }

  function DistrictCount(scale: nat): nat { scale * DISTRICTS_PER_WAREHOUSE }

  lemma SmallKeys(scale: nat, wid: int, did: int)
    requires ValidScale(scale) && DistrictId(scale, wid, did)
    ensures 0 <= GlobalDistrict(wid, did) < DistrictCount(scale) <= 429490
    ensures DistrictKey(wid, did) == GlobalDistrict(wid, did)
    ensures WarehouseKey(wid) == wid - 1
    ensures Wrap32((wid - 1) * DISTRICTS_PER_WAREHOUSE) == (wid - 1) * DISTRICTS_PER_WAREHOUSE
    ensures Wrap32(did - 1) == did - 1
  {}

  // Keys as the mixed-radix numbers they are meant to be.

  /** The order's slot number fits in the 32 bits that the line's key passes it through. */
  ghost predicate KeyFits(wid: int, did: int, oid: int) {
    1 <= oid && GlobalDistrict(wid, did) * ORDERS_PER_DISTRICT + oid < TWO32
  }

  lemma OrderKeyValue(scale: nat, wid: int, did: int, oid: int)
    requires ValidScale(scale) && DistrictId(scale, wid, did) && 1 <= oid
    requires oid <= LAST_CLEAR_ID + 1 || KeyFits(wid, did, oid)
    ensures KeyFits(wid, did, oid)
    ensures OrderKey(wid, did, oid) == OrderKey32(wid, did, oid)
                == GlobalDistrict(wid, did) * ORDERS_PER_DISTRICT + (oid - 1) < TWO32 - 1
    ensures oid <= LAST_CLEAR_ID + 1 ==> OrderKey(wid, did, oid) < TSizeNewOrder(scale) <= TSizeOrder(scale)
  {
    SmallKeys(scale, wid, did);
  }

  lemma LoadedLineKeyValue(scale: nat, wid: int, did: int, oid: int, number: int)
    requires ValidScale(scale) && DistrictId(scale, wid, did)
    requires 1 <= oid <= ORDERS_PER_DISTRICT && 1 <= number <= LINES_PER_ORDER
    ensures OrderLineKey(wid, did, oid, number)
            == (GlobalDistrict(wid, did) * ORDERS_PER_DISTRICT + (oid - 1)) * LINES_PER_ORDER + (number - 1)
  {
    OrderKeyValue(scale, wid, did, oid);
  }

  /** Passing the order's key as its id doubles the district offset and shifts by one. */
  lemma NewLineKeyValue(scale: nat, wid: int, did: int, oid: int, number: int)
    requires ValidScale(scale) && DistrictId(scale, wid, did)
    requires INITIAL_NEXT_O_ID <= oid && 1 <= number <= LINES_PER_ORDER
    requires oid <= LAST_CLEAR_ID || KeyFits(wid, did, oid)
    ensures NewLineKey(wid, did, oid, number)
            == (2 * GlobalDistrict(wid, did) * ORDERS_PER_DISTRICT + (oid - 2)) * LINES_PER_ORDER + (number - 1)
  {
    OrderKeyValue(scale, wid, did, oid);
    SmallKeys(scale, wid, did);
    var k := OrderKey(wid, did, oid);
    assert Wrap32(Wrap32(k) - 1) == k - 1;
  }

  // ---------------------------------------------------------------------------
  // Bijections: each key function has a two-sided inverse on its table's index range
  // ---------------------------------------------------------------------------

  function DistrictIds(key: nat): (int, int) {
    (key / DISTRICTS_PER_WAREHOUSE + 1, key % DISTRICTS_PER_WAREHOUSE + 1)
  }

  function CustomerIds(key: nat): (int, int, int) {
    var d := key / CUSTOMERS_PER_DISTRICT;
    (d / DISTRICTS_PER_WAREHOUSE + 1, d % DISTRICTS_PER_WAREHOUSE + 1, key % CUSTOMERS_PER_DISTRICT + 1)
  }

  function StockIds(key: nat): (int, int) {
    (key / STOCK_PER_WAREHOUSE + 1, key % STOCK_PER_WAREHOUSE + 1)
  }

  lemma DistrictKeyBijection(scale: nat, wid: int, did: int, key: nat)
    requires ValidScale(scale)
    ensures DistrictId(scale, wid, did) ==>
              DistrictKey(wid, did) == (wid - 1) * 10 + (did - 1) < TSizeDistrict(scale) && DistrictIds(DistrictKey(wid, did)) == (wid, did)
    ensures key < TSizeDistrict(scale) ==>
              var (w, d) := DistrictIds(key); DistrictId(scale, w, d) && DistrictKey(w, d) == key
  {}

  lemma CustomerKeyBijection(scale: nat, wid: int, did: int, cid: int, key: nat)
    requires ValidScale(scale)
    ensures DistrictId(scale, wid, did) && 1 <= cid <= CUSTOMERS_PER_DISTRICT ==>
              CustomerKey(wid, did, cid) == ((wid - 1) * 10 + (did - 1)) * 3000 + (cid - 1) < TSizeCustomer(scale) && CustomerIds(CustomerKey(wid, did, cid)) == (wid, did, cid)
    ensures key < TSizeCustomer(scale) ==>
              var (w, d, c) := CustomerIds(key);
              DistrictId(scale, w, d) && 1 <= c <= CUSTOMERS_PER_DISTRICT && CustomerKey(w, d, c) == key
  {}

  lemma StockKeyBijection(scale: nat, wid: int, iid: int, key: nat)
    requires ValidScale(scale)
    ensures 1 <= wid <= scale && 1 <= iid <= NUM_ITEMS ==>
              StockKey(wid, iid) == (wid - 1) * 100_000 + (iid - 1) < TSizeStock(scale) && StockIds(StockKey(wid, iid)) == (wid, iid)
    ensures key < TSizeStock(scale) ==>
              var (w, i) := StockIds(key); 1 <= w <= scale && 1 <= i <= NUM_ITEMS && StockKey(w, i) == key
  {}

  // ---------------------------------------------------------------------------
  // Orders and order lines
  // ---------------------------------------------------------------------------

  lemma OrderKeyInjective(scale: nat, w1: int, d1: int, o1: int, w2: int, d2: int, o2: int)
    requires ValidScale(scale) && DistrictId(scale, w1, d1) && DistrictId(scale, w2, d2)
    requires 1 <= o1 <= ORDERS_PER_DISTRICT && 1 <= o2 <= ORDERS_PER_DISTRICT
    ensures OrderKey(w1, d1, o1) == OrderKey(w2, d2, o2) <==> w1 == w2 && d1 == d2 && o1 == o2
  {
    OrderKeyValue(scale, w1, d1, o1);
    OrderKeyValue(scale, w2, d2, o2);
  }

  /** Exactly when two orders share a slot: the ids differ by a district's worth of slots for each district
      between them. */
  lemma OrderKeysMeet(scale: nat, w1: int, d1: int, o1: int, w2: int, d2: int, o2: int)
    requires ValidScale(scale) && DistrictId(scale, w1, d1) && DistrictId(scale, w2, d2)
    requires KeyFits(w1, d1, o1) && KeyFits(w2, d2, o2)
    ensures OrderKey(w1, d1, o1) == OrderKey(w2, d2, o2)
            <==> o1 - o2 == ORDERS_PER_DISTRICT * (GlobalDistrict(w2, d2) - GlobalDistrict(w1, d1))
  {
    OrderKeyValue(scale, w1, d1, o1);
    OrderKeyValue(scale, w2, d2, o2);
  }

  /** New orders of different districts keep clear of each other up to id 9840. */
  lemma NewOrderKeyInjective(scale: nat, w1: int, d1: int, o1: int, w2: int, d2: int, o2: int)
    requires ValidScale(scale) && DistrictId(scale, w1, d1) && DistrictId(scale, w2, d2)
    requires INITIAL_NEXT_O_ID <= o1 <= LAST_CLEAR_ID && INITIAL_NEXT_O_ID <= o2 <= LAST_CLEAR_ID
    ensures OrderKey(w1, d1, o1) == OrderKey(w2, d2, o2) <==> w1 == w2 && d1 == d2 && o1 == o2
  {
    OrderKeyValue(scale, w1, d1, o1);
    OrderKeyValue(scale, w2, d2, o2);
  }

  /** Lines of new orders are twice as far apart as the orders. */
  lemma NewLinesMeet(scale: nat, w1: int, d1: int, o1: int, n1: int, w2: int, d2: int, o2: int, n2: int)
    requires ValidScale(scale) && DistrictId(scale, w1, d1) && DistrictId(scale, w2, d2)
    requires INITIAL_NEXT_O_ID <= o1 && INITIAL_NEXT_O_ID <= o2 && KeyFits(w1, d1, o1) && KeyFits(w2, d2, o2)
    requires 1 <= n1 <= LINES_PER_ORDER && 1 <= n2 <= LINES_PER_ORDER
    ensures NewLineKey(w1, d1, o1, n1) == NewLineKey(w2, d2, o2, n2)
            <==> n1 == n2 && o1 - o2 == 2 * ORDERS_PER_DISTRICT * (GlobalDistrict(w2, d2) - GlobalDistrict(w1, d1))
  {
    NewLineKeyValue(scale, w1, d1, o1, n1);
    NewLineKeyValue(scale, w2, d2, o2, n2);
  }

  /** Lines of new orders never share a slot up to id 9840, and stay inside the order-line table. */
  lemma NewLineKeyInjective(scale: nat, w1: int, d1: int, o1: int, n1: int, w2: int, d2: int, o2: int, n2: int)
    requires ValidScale(scale) && DistrictId(scale, w1, d1) && DistrictId(scale, w2, d2)
    requires INITIAL_NEXT_O_ID <= o1 <= LAST_CLEAR_ID && INITIAL_NEXT_O_ID <= o2 <= LAST_CLEAR_ID
    requires 1 <= n1 <= LINES_PER_ORDER && 1 <= n2 <= LINES_PER_ORDER
    ensures NewLineKey(w1, d1, o1, n1) < TSizeOrderLine(scale)
    ensures NewLineKey(w1, d1, o1, n1) == NewLineKey(w2, d2, o2, n2)
            <==> w1 == w2 && d1 == d2 && o1 == o2 && n1 == n2
  {
    NewLineKeyValue(scale, w1, d1, o1, n1);
    NewLineKeyValue(scale, w2, d2, o2, n2);
  }

  /** Exactly when a new order's line lands on a loaded line.  Up to id 9840 that is id 3001 against order 3000
      of the district with twice the global number, and id o from 6842 on against order o - 6841 of the
      district after that. */
  lemma NewLineMeetsLoadedLine(scale: nat, w1: int, d1: int, o1: int, n1: int, w2: int, d2: int, o2: int, n2: int)
    requires ValidScale(scale) && DistrictId(scale, w1, d1) && DistrictId(scale, w2, d2)
    requires INITIAL_NEXT_O_ID <= o1 && KeyFits(w1, d1, o1) && 1 <= o2 <= INITIAL_ORDERS_PER_DISTRICT
    requires 1 <= n1 <= LINES_PER_ORDER && 1 <= n2 <= LINES_PER_ORDER
    ensures NewLineKey(w1, d1, o1, n1) == OrderLineKey(w2, d2, o2, n2)
            <==> n1 == n2 && o1 - 1 - o2 == ORDERS_PER_DISTRICT * (GlobalDistrict(w2, d2) - 2 * GlobalDistrict(w1, d1))
    ensures o1 <= LAST_CLEAR_ID ==>
              (NewLineKey(w1, d1, o1, n1) == OrderLineKey(w2, d2, o2, n2)
               <==> n1 == n2
                    && ((o1 == INITIAL_NEXT_O_ID && o2 == INITIAL_ORDERS_PER_DISTRICT
                         && GlobalDistrict(w2, d2) == 2 * GlobalDistrict(w1, d1))
                        || (o1 == o2 + ORDERS_PER_DISTRICT + 1 && GlobalDistrict(w2, d2) == 2 * GlobalDistrict(w1, d1) + 1)))
  {
    NewLineKeyValue(scale, w1, d1, o1, n1);
    LoadedLineKeyValue(scale, w2, d2, o2, n2);
    LinesMeet(GlobalDistrict(w1, d1), o1, n1, GlobalDistrict(w2, d2), o2, n2);
  }

  lemma LinesMeet(g1: int, o1: int, n1: int, g2: int, o2: int, n2: int)
    requires INITIAL_NEXT_O_ID <= o1 && 1 <= o2 <= INITIAL_ORDERS_PER_DISTRICT
    requires 1 <= n1 <= LINES_PER_ORDER && 1 <= n2 <= LINES_PER_ORDER
    ensures (2 * g1 * ORDERS_PER_DISTRICT + (o1 - 2)) * LINES_PER_ORDER + (n1 - 1)
            == (g2 * ORDERS_PER_DISTRICT + (o2 - 1)) * LINES_PER_ORDER + (n2 - 1)
            <==> n1 == n2 && o1 - 1 - o2 == ORDERS_PER_DISTRICT * (g2 - 2 * g1)
    ensures o1 <= LAST_CLEAR_ID ==>
              (o1 - 1 - o2 == ORDERS_PER_DISTRICT * (g2 - 2 * g1)
               <==> (o1 == INITIAL_NEXT_O_ID && o2 == INITIAL_ORDERS_PER_DISTRICT && g2 == 2 * g1)
                    || (o1 == o2 + ORDERS_PER_DISTRICT + 1 && g2 == 2 * g1 + 1))
  {
    var a, b := 2 * g1 * ORDERS_PER_DISTRICT + (o1 - 2), g2 * ORDERS_PER_DISTRICT + (o2 - 1);
    assert a * LINES_PER_ORDER + (n1 - 1) == b * LINES_PER_ORDER + (n2 - 1) <==> a == b && n1 == n2;
    var e := g2 - 2 * g1;
    assert a == b <==> e * ORDERS_PER_DISTRICT == o1 - o2 - 1;
  }

  // ---------------------------------------------------------------------------
  // Table sizes and the single-table address layout
  // ---------------------------------------------------------------------------

  function TSizeWarehouse(scale: nat): nat { scale }
  function TSizeDistrict(scale: nat): nat { scale * DISTRICTS_PER_WAREHOUSE }
  function TSizeCustomer(scale: nat): nat { scale * DISTRICTS_PER_WAREHOUSE * CUSTOMERS_PER_DISTRICT }
  function TSizeStock(scale: nat): nat { scale * STOCK_PER_WAREHOUSE }
  function TSizeItem(): nat { NUM_ITEMS }
  function TSizeHistory(scale: nat): nat { TSizeCustomer(scale) }
  function TSizeOrder(scale: nat): nat { scale * DISTRICTS_PER_WAREHOUSE * ORDERS_PER_DISTRICT * 30 }
  function TSizeOrderLine(scale: nat): nat { TSizeOrder(scale) * 30 }
  function TSizeNewOrder(scale: nat): nat {
    scale * DISTRICTS_PER_WAREHOUSE * (INITIAL_NEW_ORDERS_PER_DISTRICT + MAX_ORDER_TRANSACTIONS) * 30
  }

  /** A table's share of the allocation: bytes per row, and rows. */
  datatype Extent = Extent(stride: nat, rows: nat)

  /** The nine tables in address order.  The loader spaces customers 2 KB apart, all others 1 KB. */
  function Layout(scale: nat): seq<Extent> {
    [ Extent(1024, TSizeWarehouse(scale)), Extent(1024, TSizeDistrict(scale)), Extent(2 * 1024, TSizeCustomer(scale)),
      Extent(1024, TSizeStock(scale)), Extent(1024, TSizeItem()), Extent(1024, TSizeHistory(scale)),
      Extent(1024, TSizeOrder(scale)), Extent(1024, TSizeOrderLine(scale)), Extent(1024, TSizeNewOrder(scale)) ]
  }

  /** Offset of table t from the start of the allocation, each computed from the one before it. */
  function Base(tables: seq<Extent>, t: nat): nat
    requires t <= |tables|
  {
    if t == 0 then 0 else Base(tables, t - 1) + tables[t - 1].stride * tables[t - 1].rows
  }

  function RowAddress(tables: seq<Extent>, t: nat, key: nat): nat
    requires t < |tables|
  {
    Base(tables, t) + tables[t].stride * key
  }

  function AllocationSize(scale: nat): nat {
    1024 * (TSizeWarehouse(scale) + TSizeDistrict(scale) + 2 * TSizeCustomer(scale) + TSizeStock(scale) + TSizeItem()
            + TSizeHistory(scale) + TSizeOrder(scale) + TSizeOrderLine(scale) + TSizeNewOrder(scale))
  }

  /** The allocation is exactly as long as the nine tables. */
  lemma AllocationIsExact(scale: nat)
    ensures |Layout(scale)| == 9 && Base(Layout(scale), 9) == AllocationSize(scale)
    ensures AllocationSize(scale) == 1024 * (scale * (1 + 10 + 2 * 30_000 + 100_000 + 30_000 + 2_052_000 + 61_560_000 + 1_422_000) + 100_000)
  {
    BaseOfNine(Layout(scale));
  }

  lemma BaseOfNine(e: seq<Extent>)
    requires |e| == 9 && forall i | 0 <= i < 9 :: e[i].stride == if i == 2 then 2048 else 1024
    ensures Base(e, 9) == 1024 * (e[0].rows + e[1].rows + 2 * e[2].rows + e[3].rows + e[4].rows
                                  + e[5].rows + e[6].rows + e[7].rows + e[8].rows)
  {
    assert Base(e, 1) == 1024 * e[0].rows;
    assert Base(e, 2) == Base(e, 1) + 1024 * e[1].rows;
    assert Base(e, 4) == Base(e, 2) + 2048 * e[2].rows + 1024 * e[3].rows;
    assert Base(e, 6) == Base(e, 4) + 1024 * e[4].rows + 1024 * e[5].rows;
    assert Base(e, 8) == Base(e, 6) + 1024 * e[6].rows + 1024 * e[7].rows;
  }

  lemma {:induction false} BaseMonotone(tables: seq<Extent>, t: nat, u: nat)
    requires t < u <= |tables|
    ensures Base(tables, t) + tables[t].stride * tables[t].rows <= Base(tables, u)
    decreases u
  {
    if t + 1 < u { BaseMonotone(tables, t, u - 1); }
  }

  lemma OneStride(stride: nat, k: nat, n: nat)
    requires k < n
    ensures 0 <= stride * k && stride * k + stride <= stride * n
  {
    assert stride * n == stride * k + stride + stride * (n - k - 1);
  }

  /** No two rows of the nine tables overlap, and every row is inside the allocation. */
  lemma RowsAreDisjoint(scale: nat, t: nat, k: nat, u: nat, l: nat)
    requires var tables := Layout(scale);
             t < |tables| && u < |tables| && k < tables[t].rows && l < tables[u].rows && (t, k) != (u, l)
    ensures var tables := Layout(scale);
            && RowAddress(tables, t, k) + tables[t].stride <= AllocationSize(scale)
            && (RowAddress(tables, t, k) + tables[t].stride <= RowAddress(tables, u, l)
                || RowAddress(tables, u, l) + tables[u].stride <= RowAddress(tables, t, k))
  {
    AllocationIsExact(scale);
    Separate(Layout(scale), t, k, u, l);
  }

  lemma Separate(tables: seq<Extent>, t: nat, k: nat, u: nat, l: nat)
    requires t < |tables| && u < |tables| && k < tables[t].rows && l < tables[u].rows && (t, k) != (u, l)
    ensures RowAddress(tables, t, k) + tables[t].stride <= Base(tables, |tables|)
    ensures RowAddress(tables, t, k) + tables[t].stride <= RowAddress(tables, u, l)
            || RowAddress(tables, u, l) + tables[u].stride <= RowAddress(tables, t, k)
  {
    OneStride(tables[t].stride, k, tables[t].rows);
    OneStride(tables[u].stride, l, tables[u].rows);
    BaseMonotone(tables, t, |tables|);
    if t < u {
      BaseMonotone(tables, t, u);
    } else if u < t {
      BaseMonotone(tables, u, t);
    } else if k < l {
      OneStride(tables[t].stride, k, l);
    } else {
      OneStride(tables[t].stride, l, k);
    }
  }
}
