/** The TPC-C loader: nested loops over ids that insert every row under its hash key. */
module Loader {
  import opened TpccKeys
  import opened Tpcc
  import opened TpccRun
  import opened TpccConsistency

  // ---------------------------------------------------------------------------
  // Tables filled in key order
  // ---------------------------------------------------------------------------

  /** Exactly the slots below n are filled, each with the row that belongs to its number. */
  ghost predicate Filled<R>(t: Table<R>, n: nat, row: nat -> R) {
    t.cnt == n && forall k: nat :: (k in t.rows <==> k < n) && (k < n ==> t.rows[k] == row(k))
  }

  lemma FillNext<R>(t: Table<R>, size: nat, n: nat, row: nat -> R)
    requires Filled(t, n, row) && n < size
    ensures Filled(Insert(t, size, n, row(n)), n + 1, row)
  {}

  function EmptyTable<R>(): Table<R> { Table(map[], 0) }

  // The rows as the loader initialises them.

  function WarehouseRow(key: nat): Warehouse { Warehouse(key + 1, 300000) }

  function DistrictRow(key: nat): District {
    var (w, d) := DistrictIds(key);
    District(w, d, 300000, 3001)
  }

  function CustomerRow(key: nat): Customer {
    var (w, d, c) := CustomerIds(key);
    Customer(w, d, c, -10, 10, 1)
  }

  method GenerateWarehouses(scale: nat) returns (t: Table<Warehouse>)
    requires ValidScale(scale)
    ensures Filled(t, TSizeWarehouse(scale), WarehouseRow)
  {
    t := EmptyTable();
    for w := 1 to scale + 1
      invariant Filled(t, w - 1, WarehouseRow)
    {
      FillNext(t, TSizeWarehouse(scale), w - 1, WarehouseRow);
      t := Insert(t, TSizeWarehouse(scale), WarehouseKey(w), Warehouse(w, 300000));
    }
  }

  method GenerateDistricts(scale: nat) returns (t: Table<District>)
    requires ValidScale(scale)
    ensures Filled(t, TSizeDistrict(scale), DistrictRow)
  {
    t := EmptyTable();
    for w := 1 to scale + 1
      invariant Filled(t, (w - 1) * DISTRICTS_PER_WAREHOUSE, DistrictRow)
    {
      for d := 1 to DISTRICTS_PER_WAREHOUSE + 1
        invariant Filled(t, (w - 1) * DISTRICTS_PER_WAREHOUSE + (d - 1), DistrictRow)
      {
        DistrictKeyBijection(scale, w, d, 0);
        FillNext(t, TSizeDistrict(scale), DistrictKey(w, d), DistrictRow);
        t := Insert(t, TSizeDistrict(scale), DistrictKey(w, d), District(w, d, 300000, 3001));
      }
    }
  }

  method GenerateCustomers(scale: nat) returns (t: Table<Customer>)
    requires ValidScale(scale)
    ensures Filled(t, TSizeCustomer(scale), CustomerRow)
  {
    t := EmptyTable();
    for w := 1 to scale + 1
      invariant Filled(t, (w - 1) * DISTRICTS_PER_WAREHOUSE * CUSTOMERS_PER_DISTRICT, CustomerRow)
    {
      for d := 1 to DISTRICTS_PER_WAREHOUSE + 1
        invariant Filled(t, ((w - 1) * DISTRICTS_PER_WAREHOUSE + (d - 1)) * CUSTOMERS_PER_DISTRICT, CustomerRow)
      {
        t := CustomersOf(scale, w, d, t);
      }
    }
  }

  method CustomersOf(scale: nat, w: nat, d: nat, t0: Table<Customer>) returns (t: Table<Customer>)
    requires ValidScale(scale) && DistrictId(scale, w, d)
    requires Filled(t0, GlobalDistrict(w, d) * CUSTOMERS_PER_DISTRICT, CustomerRow)
    ensures Filled(t, (GlobalDistrict(w, d) + 1) * CUSTOMERS_PER_DISTRICT, CustomerRow)
  {
    t := t0;
    for c := 1 to CUSTOMERS_PER_DISTRICT + 1
      invariant Filled(t, GlobalDistrict(w, d) * CUSTOMERS_PER_DISTRICT + (c - 1), CustomerRow)
    {
      CustomerKeyBijection(scale, w, d, c, 0);
      CustomerKeyValue(scale, w, d, c);
      FillNext(t, TSizeCustomer(scale), CustomerKey(w, d, c), CustomerRow);
      t := Insert(t, TSizeCustomer(scale), CustomerKey(w, d, c), Customer(w, d, c, -10, 10, 1));
    }
  }

  lemma CustomerKeyValue(scale: nat, w: nat, d: nat, c: nat)
    requires ValidScale(scale) && DistrictId(scale, w, d) && 1 <= c <= CUSTOMERS_PER_DISTRICT
    ensures CustomerKey(w, d, c) == GlobalDistrict(w, d) * CUSTOMERS_PER_DISTRICT + (c - 1) < TSizeCustomer(scale)
  {
    CustomerKeyBijection(scale, w, d, c, 0);
  }

  /** Stock and item rows take their quantity and price from a random draw per key. */
  function StockRow(quantity: nat -> nat): nat -> Stock {
    (key: nat) => var (w, i) := StockIds(key); Stock(w, i, quantity(key), 0, 0, 0)
  }

  function ItemRow(price: nat -> real): nat -> Item { (key: nat) => Item(key + 1, price(key)) }

  method GenerateItems(price: nat -> real) returns (t: Table<Item>)
    ensures Filled(t, TSizeItem(), ItemRow(price))
  {
    t := EmptyTable();
    for i := 1 to NUM_ITEMS + 1
      invariant Filled(t, i - 1, ItemRow(price))
    {
      FillNext(t, TSizeItem(), i - 1, ItemRow(price));
      t := Insert(t, TSizeItem(), ItemKey(i), Item(i, price(ItemKey(i))));
    }
  }

  method GenerateStocks(scale: nat, quantity: nat -> nat) returns (t: Table<Stock>)
    requires ValidScale(scale)
    ensures Filled(t, TSizeStock(scale), StockRow(quantity))
  {
    t := EmptyTable();
    for w := 1 to scale + 1
      invariant Filled(t, (w - 1) * STOCK_PER_WAREHOUSE, StockRow(quantity))
    {
      for i := 1 to NUM_ITEMS + 1
        invariant Filled(t, (w - 1) * STOCK_PER_WAREHOUSE + (i - 1), StockRow(quantity))
      {
        StockKeyBijection(scale, w, i, 0);
        FillNext(t, TSizeStock(scale), StockKey(w, i), StockRow(quantity));
        t := Insert(t, TSizeStock(scale), StockKey(w, i), Stock(w, i, quantity(StockKey(w, i)), 0, 0, 0));
      }
    }
  }

  // ---------------------------------------------------------------------------
  // Orders and order lines
  // ---------------------------------------------------------------------------

  /** Orders 1 .. 3000 of the districts before g, and 1 .. o of district g, each in its slot. */
  ghost predicate OrdersLoaded(t: Table<Order>, g: nat, o: nat) {
    && t.cnt == |t.rows| == g * INITIAL_ORDERS_PER_DISTRICT + o
    && forall k: nat :: OrderLoaded(t, g, o, k)
  }

  ghost predicate OrderLoaded(t: Table<Order>, g: nat, o: nat, k: nat) {
    && (k in t.rows <==> (SlotDistrict(k) < g && SlotId(k) <= INITIAL_ORDERS_PER_DISTRICT)
                         || (SlotDistrict(k) == g && SlotId(k) <= o))
    && (k in t.rows ==> var (w, d) := DistrictIds(SlotDistrict(k)); t.rows[k] == Order(w, d, SlotId(k)))
  }

  lemma OneMoreOrder(t: Table<Order>, scale: nat, w: nat, d: nat, o: nat)
    requires ValidScale(scale) && DistrictId(scale, w, d) && 1 <= o <= INITIAL_ORDERS_PER_DISTRICT
    requires 0 <= GlobalDistrict(w, d) && OrdersLoaded(t, GlobalDistrict(w, d), o - 1)
    ensures OrdersLoaded(Insert(t, TSizeOrder(scale), OrderKey(w, d, o), Order(w, d, o)), GlobalDistrict(w, d), o)
  {
    var g, key := GlobalDistrict(w, d), OrderKey(w, d, o);
    SmallKeys(scale, w, d);
    OrderKeyValue(scale, w, d, o);
    SlotIsPositional(g, o);
    DistrictKeyBijection(scale, w, d, 0);
    assert OrderLoaded(t, g, o - 1, key);
    FreshInsertCounts(t, TSizeOrder(scale), key, Order(w, d, o));
    var u := Insert(t, TSizeOrder(scale), key, Order(w, d, o));
    forall k: nat ensures OrderLoaded(u, g, o, k) { assert OrderLoaded(t, g, o - 1, k); }
  }

  lemma NextDistrict(t: Table<Order>, g: nat)
    requires OrdersLoaded(t, g, INITIAL_ORDERS_PER_DISTRICT)
    ensures OrdersLoaded(t, g + 1, 0)
  {
    var h := g + 1;
    forall k: nat ensures OrderLoaded(t, h, 0, k) { assert OrderLoaded(t, g, INITIAL_ORDERS_PER_DISTRICT, k); }
  }

  /** Random draws for the loaded rows, by row number.  Lines of orders past 2100 have amount 0. */
  datatype Draws = Draws(quantity: nat -> nat, price: nat -> real, lines: nat -> nat, item: nat -> nat, amount: nat -> int)

  ghost predicate InRange(r: Draws) {
    && (forall k: nat :: 10 <= r.quantity(k) <= 100)
    && (forall k: nat :: 5 <= r.lines(k) <= 15)
  }

  /** Line slot k belongs to line k % 15 + 1 of the order in slot k / 15; the loader fills it if that is one of
      the first 3000 orders of its district and has that many lines. */
  ghost predicate IsLoadedLine(r: Draws, k: nat) {
    SlotId(k / LINES_PER_ORDER) <= INITIAL_ORDERS_PER_DISTRICT && k % LINES_PER_ORDER < r.lines(k / LINES_PER_ORDER)
  }

  ghost function LoadedLine(r: Draws, k: nat): OrderLine {
    var slot := k / LINES_PER_ORDER;
    var (w, d) := DistrictIds(SlotDistrict(slot));
    OrderLine(w, d, SlotId(slot), k % LINES_PER_ORDER + 1, r.item(k), w, 5, if SlotId(slot) > 2100 then 0 else r.amount(k))
  }

  ghost predicate LineLoaded(t: Table<OrderLine>, r: Draws, limit: nat, k: nat) {
    && (k in t.rows <==> k < limit && IsLoadedLine(r, k))
    && (k in t.rows ==> t.rows[k] == LoadedLine(r, k))
  }

  /** Exactly the line slots below the limit that belong to loaded lines are filled, each with its own line. */
  ghost predicate LinesLoaded(t: Table<OrderLine>, r: Draws, limit: nat) {
    t.cnt == |t.rows| && forall k: nat :: LineLoaded(t, r, limit, k)
  }

  lemma LineIsPositional(slot: nat, n: nat)
    requires 1 <= n <= LINES_PER_ORDER
    ensures (slot * LINES_PER_ORDER + (n - 1)) / LINES_PER_ORDER == slot
    ensures (slot * LINES_PER_ORDER + (n - 1)) % LINES_PER_ORDER == n - 1
  {}

  /** Skipping slots that belong to no loaded line. */
  lemma SkipLines(t: Table<OrderLine>, r: Draws, limit: nat, more: nat)
    requires LinesLoaded(t, r, limit) && limit <= more && forall k: nat | limit <= k < more :: !IsLoadedLine(r, k)
    ensures LinesLoaded(t, r, more)
  {
    forall k: nat ensures LineLoaded(t, r, more, k) { assert LineLoaded(t, r, limit, k); }
  }

  lemma OneMoreLine(t: Table<OrderLine>, size: nat, r: Draws, k: nat)
    requires LinesLoaded(t, r, k) && IsLoadedLine(r, k) && t.cnt < size
    ensures LinesLoaded(Insert(t, size, k, LoadedLine(r, k)), r, k + 1)
  {
    var u := Insert(t, size, k, LoadedLine(r, k));
    assert LineLoaded(t, r, k, k);
    FreshInsertCounts(t, size, k, LoadedLine(r, k));
    var limit := k + 1;
    forall j: nat ensures LineLoaded(u, r, limit, j) { assert LineLoaded(t, r, k, j); }
  }

  /** The line the loader builds is the one that belongs in its slot. */
  lemma LineBelongs(scale: nat, w: nat, d: nat, o: nat, n: nat, r: Draws)
    requires ValidScale(scale) && DistrictId(scale, w, d) && 1 <= o <= INITIAL_ORDERS_PER_DISTRICT && 1 <= n <= LINES_PER_ORDER
    ensures 0 <= GlobalDistrict(w, d)
    ensures var slot := GlobalDistrict(w, d) * ORDERS_PER_DISTRICT + (o - 1);
            var key := slot * LINES_PER_ORDER + (n - 1);
            && OrderKey(w, d, o) == slot && OrderLineKey(w, d, o, n) == key
            && (IsLoadedLine(r, key) <==> n <= r.lines(slot))
            && LoadedLine(r, key) == OrderLine(w, d, o, n, r.item(key), w, 5, if o > 2100 then 0 else r.amount(key))
  {
    SmallKeys(scale, w, d);
    LoadedLineKeyValue(scale, w, d, o, n);
    OrderKeyValue(scale, w, d, o);
    SlotIsPositional(GlobalDistrict(w, d), o);
    DistrictKeyBijection(scale, w, d, 0);
    LineIsPositional(GlobalDistrict(w, d) * ORDERS_PER_DISTRICT + (o - 1), n);
  }

  method AddLine(scale: nat, w: nat, d: nat, o: nat, n: nat, r: Draws, t0: Table<OrderLine>) returns (t: Table<OrderLine>)
    requires ValidScale(scale) && DistrictId(scale, w, d) && 1 <= o <= INITIAL_ORDERS_PER_DISTRICT && 1 <= n <= LINES_PER_ORDER
    requires 0 <= GlobalDistrict(w, d) && t0.cnt < TSizeOrderLine(scale)
    requires var slot := GlobalDistrict(w, d) * ORDERS_PER_DISTRICT + (o - 1);
             n <= r.lines(slot) && LinesLoaded(t0, r, slot * LINES_PER_ORDER + (n - 1))
    ensures var slot := GlobalDistrict(w, d) * ORDERS_PER_DISTRICT + (o - 1); LinesLoaded(t, r, slot * LINES_PER_ORDER + n)
    ensures t.cnt == t0.cnt + 1
  {
    LineBelongs(scale, w, d, o, n, r);
    var key := OrderLineKey(w, d, o, n);
    OneMoreLine(t0, TSizeOrderLine(scale), r, key);
    t := Insert(t0, TSizeOrderLine(scale), key, OrderLine(w, d, o, n, r.item(key), w, 5, if o > 2100 then 0 else r.amount(key)));
  }

  /** One order's lines. */
  method LinesOf(scale: nat, w: nat, d: nat, o: nat, r: Draws, t0: Table<OrderLine>) returns (t: Table<OrderLine>)
    requires ValidScale(scale) && DistrictId(scale, w, d) && 1 <= o <= INITIAL_ORDERS_PER_DISTRICT && InRange(r)
    requires var slot := GlobalDistrict(w, d) * ORDERS_PER_DISTRICT + (o - 1); slot >= 0 && LinesLoaded(t0, r, slot * LINES_PER_ORDER)
    requires t0.cnt + LINES_PER_ORDER <= TSizeOrderLine(scale)
    ensures var slot := GlobalDistrict(w, d) * ORDERS_PER_DISTRICT + o; LinesLoaded(t, r, slot * LINES_PER_ORDER)
    ensures t.cnt <= t0.cnt + LINES_PER_ORDER
  {
    t := t0;
    ghost var slot := GlobalDistrict(w, d) * ORDERS_PER_DISTRICT + (o - 1);
    LineBelongs(scale, w, d, o, 1, r);
    var lines := r.lines(OrderKey(w, d, o));
    assert 5 <= lines <= LINES_PER_ORDER;
    for n := 1 to lines + 1
      invariant LinesLoaded(t, r, slot * LINES_PER_ORDER + (n - 1)) && t.cnt == t0.cnt + (n - 1)
    {
      t := AddLine(scale, w, d, o, n, r, t);
    }
    NoMoreLines(scale, w, d, o, r);
    SkipLines(t, r, slot * LINES_PER_ORDER + lines, (slot + 1) * LINES_PER_ORDER);
  }

  /** The slots left over in an order's fifteen belong to no loaded line. */
  lemma NoMoreLines(scale: nat, w: nat, d: nat, o: nat, r: Draws)
    requires ValidScale(scale) && DistrictId(scale, w, d) && 1 <= o <= INITIAL_ORDERS_PER_DISTRICT && InRange(r)
    ensures 0 <= GlobalDistrict(w, d)
    ensures var slot := GlobalDistrict(w, d) * ORDERS_PER_DISTRICT + (o - 1);
            forall k: nat | slot * LINES_PER_ORDER + r.lines(slot) <= k < (slot + 1) * LINES_PER_ORDER :: !IsLoadedLine(r, k)
  {
    SmallKeys(scale, w, d);
    var slot := GlobalDistrict(w, d) * ORDERS_PER_DISTRICT + (o - 1);
    forall k: nat | slot * LINES_PER_ORDER + r.lines(slot) <= k < (slot + 1) * LINES_PER_ORDER ensures !IsLoadedLine(r, k) {
      LineBelongs(scale, w, d, o, k - slot * LINES_PER_ORDER + 1, r);
    }
  }

  /** Nor do the slots left over in a district. */
  lemma NoMoreOrders(g: nat, r: Draws)
    ensures forall k: nat | (g * ORDERS_PER_DISTRICT + INITIAL_ORDERS_PER_DISTRICT) * LINES_PER_ORDER <= k
                            < (g + 1) * ORDERS_PER_DISTRICT * LINES_PER_ORDER :: !IsLoadedLine(r, k)
  {
    forall k: nat | (g * ORDERS_PER_DISTRICT + INITIAL_ORDERS_PER_DISTRICT) * LINES_PER_ORDER <= k
                    < (g + 1) * ORDERS_PER_DISTRICT * LINES_PER_ORDER
      ensures !IsLoadedLine(r, k)
    {
      var slot := k / LINES_PER_ORDER;
      assert g * ORDERS_PER_DISTRICT + INITIAL_ORDERS_PER_DISTRICT <= slot < (g + 1) * ORDERS_PER_DISTRICT;
      SlotIsPositional(g, slot - g * ORDERS_PER_DISTRICT + 1);
    }
  }

  /** The 3000 orders of one district with their lines. */
  method OrdersOf(scale: nat, w: nat, d: nat, r: Draws, os0: Table<Order>, ls0: Table<OrderLine>)
    returns (os: Table<Order>, ls: Table<OrderLine>)
    requires ValidScale(scale) && DistrictId(scale, w, d) && InRange(r) && 0 <= GlobalDistrict(w, d)
    requires LoadedBefore(os0, ls0, r, GlobalDistrict(w, d))
    ensures LoadedBefore(os, ls, r, GlobalDistrict(w, d) + 1)
  {
    SmallKeys(scale, w, d);
    var g := GlobalDistrict(w, d);
    os, ls := os0, ls0;
    for o := 1 to INITIAL_ORDERS_PER_DISTRICT + 1
      invariant OrdersLoaded(os, g, o - 1)
      invariant LinesLoaded(ls, r, (g * ORDERS_PER_DISTRICT + (o - 1)) * LINES_PER_ORDER)
      invariant ls.cnt <= (g * INITIAL_ORDERS_PER_DISTRICT + (o - 1)) * LINES_PER_ORDER
    {
      ls := LinesOf(scale, w, d, o, r, ls);
      OneMoreOrder(os, scale, w, d, o);
      os := Insert(os, TSizeOrder(scale), OrderKey(w, d, o), Order(w, d, o));
    }
    NextDistrict(os, g);
    NoMoreOrders(g, r);
    SkipLines(ls, r, (g * ORDERS_PER_DISTRICT + INITIAL_ORDERS_PER_DISTRICT) * LINES_PER_ORDER, (g + 1) * ORDERS_PER_DISTRICT * LINES_PER_ORDER);
  }

  /** Orders and lines of the districts before g are loaded. */
  ghost predicate LoadedBefore(os: Table<Order>, ls: Table<OrderLine>, r: Draws, g: nat) {
    && OrdersLoaded(os, g, 0)
    && LinesLoaded(ls, r, g * ORDERS_PER_DISTRICT * LINES_PER_ORDER)
    && ls.cnt <= g * INITIAL_ORDERS_PER_DISTRICT * LINES_PER_ORDER
  }

  method OrdersOfWarehouse(scale: nat, w: nat, r: Draws, os0: Table<Order>, ls0: Table<OrderLine>)
    returns (os: Table<Order>, ls: Table<OrderLine>)
    requires ValidScale(scale) && 1 <= w <= scale && InRange(r) && LoadedBefore(os0, ls0, r, (w - 1) * DISTRICTS_PER_WAREHOUSE)
    ensures LoadedBefore(os, ls, r, w * DISTRICTS_PER_WAREHOUSE)
  {
    os, ls := os0, ls0;
    for d := 1 to DISTRICTS_PER_WAREHOUSE + 1
      invariant LoadedBefore(os, ls, r, (w - 1) * DISTRICTS_PER_WAREHOUSE + (d - 1))
    {
      os, ls := OrdersOf(scale, w, d, r, os, ls);
    }
  }

  method GenerateOrders(scale: nat, r: Draws) returns (os: Table<Order>, ls: Table<OrderLine>)
    requires ValidScale(scale) && InRange(r)
    ensures LoadedBefore(os, ls, r, TSizeDistrict(scale))
  {
    os, ls := EmptyTable(), EmptyTable();
    for w := 1 to scale + 1
      invariant LoadedBefore(os, ls, r, (w - 1) * DISTRICTS_PER_WAREHOUSE)
    {
      os, ls := OrdersOfWarehouse(scale, w, r, os, ls);
    }
  }

  // ---------------------------------------------------------------------------
  // The loaded database
  // ---------------------------------------------------------------------------

  /** The rows of a completely filled table, in key order. */
  function RowsOf<R>(t: Table<R>, n: nat): (s: seq<R>)
    requires forall k: nat | k < n :: k in t.rows
    ensures |s| == n && forall k | 0 <= k < n :: s[k] == t.rows[k]
  {
    seq(n, k requires 0 <= k < n => t.rows[k])
  }

  /** After loading, every slot holds the row with its own ids, the database meets the precondition of the
      determinism theorem, its order tables are exact, stocks hold 10 to 100, and every customer's balance
      and payments cancel. */
  method LoadDatabase(scale: nat, r: Draws) returns (db: Database)
    requires ValidScale(scale) && InRange(r)
    ensures Loaded(db) && db.scale == scale && OrderIdsExact(db)
    ensures forall k | 0 <= k < |db.warehouses| :: db.warehouses[k] == WarehouseRow(k)
    ensures forall k | 0 <= k < |db.districts| :: db.districts[k] == DistrictRow(k)
    ensures forall k | 0 <= k < |db.customers| :: db.customers[k] == CustomerRow(k)
    ensures forall k | 0 <= k < |db.stocks| :: db.stocks[k] == StockRow(r.quantity)(k)
    ensures forall k | 0 <= k < |db.items| :: db.items[k] == ItemRow(r.price)(k)
    ensures forall k | 0 <= k < |db.warehouses| :: db.warehouses[k].w_id == k + 1 && db.warehouses[k].w_ytd == 300_000
    ensures forall k | 0 <= k < |db.districts| :: db.districts[k] == District(k / 10 + 1, k % 10 + 1, 300_000, 3001)
    ensures forall k | 0 <= k < |db.customers| ::
              db.customers[k] == Customer(k / 3000 / 10 + 1, k / 3000 % 10 + 1, k % 3000 + 1, -10, 10, 1)
    ensures forall k | 0 <= k < |db.stocks| :: db.stocks[k] == Stock(k / 100_000 + 1, k % 100_000 + 1, r.quantity(k), 0, 0, 0)
    ensures forall k | 0 <= k < |db.items| :: db.items[k] == Item(k + 1, r.price(k))
    ensures LinesLoaded(db.orderLines, r, DistrictCount(scale) * ORDERS_PER_DISTRICT * LINES_PER_ORDER)
  {
    db := LoadRows(scale, r);
    var os, ls := GenerateOrders(scale, r);
    db := db.(orders := os, orderLines := ls);
    LoadedDatabase(db, r);
  }

  /** The five tables that hold one row per key. */
  method LoadRows(scale: nat, r: Draws) returns (db: Database)
    requires ValidScale(scale)
    ensures Valid(db) && db.scale == scale && !db.aborted && db.newOrders == EmptyTable()
    ensures forall k | 0 <= k < |db.warehouses| :: db.warehouses[k] == WarehouseRow(k)
    ensures forall k | 0 <= k < |db.districts| :: db.districts[k] == DistrictRow(k)
    ensures forall k | 0 <= k < |db.customers| :: db.customers[k] == CustomerRow(k)
    ensures forall k | 0 <= k < |db.stocks| :: db.stocks[k] == StockRow(r.quantity)(k)
    ensures forall k | 0 <= k < |db.items| :: db.items[k] == ItemRow(r.price)(k)
  {
    var ws := GenerateWarehouses(scale);
    var ds := GenerateDistricts(scale);
    var cs := GenerateCustomers(scale);
    var its := GenerateItems(r.price);
    var ss := GenerateStocks(scale, r.quantity);
    db := Database(scale, RowsOf(ws, TSizeWarehouse(scale)), RowsOf(ds, TSizeDistrict(scale)),
                   RowsOf(cs, TSizeCustomer(scale)), RowsOf(ss, TSizeStock(scale)), RowsOf(its, TSizeItem()),
                   EmptyTable(), EmptyTable(), EmptyTable(), false);
  }

  /** The loaded lines of order o of district d of warehouse w: five units of an item from the order's own
      warehouse, unpaid for past order 2100. */
  lemma LoadedLineFields(scale: nat, t: Table<OrderLine>, r: Draws, w: nat, d: nat, o: nat, n: nat)
    requires ValidScale(scale) && InRange(r) && LinesLoaded(t, r, DistrictCount(scale) * ORDERS_PER_DISTRICT * LINES_PER_ORDER)
    requires DistrictId(scale, w, d) && 1 <= o <= 3000 && 1 <= n <= 15
    ensures var slot := ((w as int - 1) * 10 + (d as int - 1)) * 6840 + (o - 1);
            && slot >= 0
            && (slot * 15 + (n - 1) in t.rows <==> n <= r.lines(slot))
            && (n <= r.lines(slot) ==>
                  t.rows[slot * 15 + (n - 1)]
                  == OrderLine(w, d, o, n, r.item(slot * 15 + (n - 1)), w, 5, if o > 2100 then 0 else r.amount(slot * 15 + (n - 1))))
  {
    SmallKeys(scale, w, d);
    LineBelongs(scale, w, d, o, n, r);
    var slot := GlobalDistrict(w, d) * ORDERS_PER_DISTRICT + (o - 1);
    assert LineLoaded(t, r, DistrictCount(scale) * ORDERS_PER_DISTRICT * LINES_PER_ORDER, slot * LINES_PER_ORDER + (n - 1));
  }

  lemma LoadedDatabase(db: Database, r: Draws)
    requires Valid(db) && !db.aborted && db.newOrders == Table(map[], 0)
    requires LoadedBefore(db.orders, db.orderLines, r, |db.districts|)
    requires forall g | 0 <= g < |db.districts| :: db.districts[g] == DistrictRow(g)
    ensures Loaded(db) && OrderIdsExact(db)
  {
    LoadedOrdersExact(db);
  }

  lemma LoadedOrdersExact(db: Database)
    requires Valid(db) && OrdersLoaded(db.orders, |db.districts|, 0) && db.newOrders == Table(map[], 0)
    requires forall g | 0 <= g < |db.districts| :: db.districts[g].d_next_o_id == INITIAL_NEXT_O_ID
    ensures OrderIdsExact(db)
  {
    forall k: nat ensures OrderSlotOk(db, k) && NewOrderSlotOk(db, k) {
      assert OrderLoaded(db.orders, |db.districts|, 0, k);
      if IsSlot(db, k) { SlotInRange(db, k); }
    }
  }
}
