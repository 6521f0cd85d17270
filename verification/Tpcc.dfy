/** The TPC-C transactions: rows, tables, transaction bodies, and the behaviours that
    `parse_and_process` spawns for a log record, in the joint and the WAREHOUSE_SPLIT form. */
module Tpcc {
  import opened TpccKeys

  // ---------------------------------------------------------------------------
  // Rows and tables
  // ---------------------------------------------------------------------------

  datatype Warehouse = Warehouse(w_id: nat, w_ytd: nat)
  datatype District = District(w_id: nat, d_id: nat, d_ytd: nat, d_next_o_id: nat)
  datatype Customer = Customer(w_id: nat, d_id: nat, c_id: nat, c_balance: int, c_ytd_payment: nat, c_payment_cnt: nat)
  datatype Stock = Stock(w_id: nat, i_id: nat, s_quantity: nat, s_ytd: nat, s_order_cnt: nat, s_remote_cnt: nat)
  datatype Item = Item(i_id: nat, i_price: real)
  datatype Order = Order(w_id: nat, d_id: nat, o_id: nat)
  datatype NewOrder = NewOrder(w_id: nat, d_id: nat, o_id: nat)
  datatype OrderLine = OrderLine(w_id: nat, d_id: nat, o_id: nat, number: nat,
                                 i_id: nat, supply_w_id: nat, quantity: nat, amount: int)

  /** A keyed table that counts insertions and throws once the count reaches its size. */
  datatype Table<+R> = Table(rows: map<nat, R>, cnt: nat)

  function Insert<R>(t: Table<R>, size: nat, key: nat, r: R): Table<R> {
    if t.cnt < size then Table(t.rows[key := r], t.cnt + 1) else t
  }

  /** The five loaded tables hold one row per key; the other three grow.  `aborted` records that
      an insertion threw. */
  datatype Database = Database(
    scale: nat,
    warehouses: seq<Warehouse>, districts: seq<District>, customers: seq<Customer>,
    stocks: seq<Stock>, items: seq<Item>,
    orders: Table<Order>, newOrders: Table<NewOrder>, orderLines: Table<OrderLine>,
    aborted: bool)

  ghost predicate Valid(db: Database) {
    && ValidScale(db.scale)
    && |db.warehouses| == TSizeWarehouse(db.scale)
    && |db.districts| == TSizeDistrict(db.scale)
    && |db.customers| == TSizeCustomer(db.scale)
    && |db.stocks| == TSizeStock(db.scale)
    && |db.items| == TSizeItem()
  }

  // ---------------------------------------------------------------------------
  // Log records
  // ---------------------------------------------------------------------------

  /** TPCCTransactionMarshalled without its cown_ptrs. */
  datatype Txn = Txn(kind: nat, params: seq<nat>) {
    predicate Marshalled() { |params| == 65 }
    function W(): nat requires Marshalled() { params[0] }
    function D(): nat requires Marshalled() { params[1] }
    function C(): nat requires Marshalled() { params[2] }
    /** Line numbers run from 1 to 15. */
    function ItemId(i: nat): nat requires Marshalled() && 1 <= i <= 15 { params[5 + (i - 1)] }
    function SupplyW(i: nat): nat requires Marshalled() && 1 <= i <= 15 { params[20 + (i - 1)] }
    function Qty(i: nat): nat requires Marshalled() && 1 <= i <= 15 { params[35 + (i - 1)] }
    function ItemNumber(): nat requires Marshalled() { params[50] }
    function RowNumber(): nat requires Marshalled() { params[51] }
    function Amount(): nat requires Marshalled() { params[52] }
    /** The switch of parse_and_process has cases 1 to 15; any other item count spawns nothing. */
    predicate IsNewOrder() requires Marshalled() { kind == 0 && 1 <= ItemNumber() <= 15 }
    predicate IsPayment() requires Marshalled() { kind == 1 }
    function G(): int requires Marshalled() { GlobalDistrict(W(), D()) }
  }

  /** The record names rows that exist. */
  ghost predicate WellFormed(scale: nat, t: Txn) {
    && t.Marshalled()
    && (t.IsNewOrder() || t.IsPayment() ==>
          DistrictId(scale, t.W(), t.D()) && 1 <= t.C() <= CUSTOMERS_PER_DISTRICT)
    && (t.IsNewOrder() ==>
          forall i: nat | 1 <= i <= t.ItemNumber() :: 1 <= t.SupplyW(i) <= scale && 1 <= t.ItemId(i) <= NUM_ITEMS)
  }

  ghost predicate WellFormedLog(scale: nat, log: seq<Txn>) {
    forall i | 0 <= i < |log| :: WellFormed(scale, log[i])
  }

  // ---------------------------------------------------------------------------
  // Row updates
  // ---------------------------------------------------------------------------

  /** UPDATE_STOCK: unsigned subtraction, restock below 10, counters. */
  function StockAfter(s: Stock, qty: nat, remote: bool): Stock {
    var q := Wrap64(s.s_quantity - qty);
    s.(s_quantity := if q < 10 then Wrap64(q + 91) else q,
       s_ytd := s.s_ytd + qty,
       s_order_cnt := s.s_order_cnt + 1,
       s_remote_cnt := if remote then s.s_remote_cnt + 1 else s.s_remote_cnt)
  }

  /** Price times quantity, converted to an integer amount. */
  function LineAmount(price: real, qty: nat): int { (price * (qty as real)).Floor }

  /** INSERT_ORDER_LINE: the row's order id is the order's hash key. */
  function LineRow(t: Txn, o: nat, i: nat, price: real): OrderLine
    requires t.Marshalled() && 1 <= i <= 15
  {
    OrderLine(t.W(), t.D(), OrderKey(t.W(), t.D(), o), i,
              t.ItemId(i), t.SupplyW(i), t.Qty(i), LineAmount(price, t.Qty(i)))
  }

  function CustomerAfter(c: Customer, amount: nat): Customer {
    c.(c_balance := c.c_balance - amount, c_ytd_payment := c.c_ytd_payment + amount, c_payment_cnt := c.c_payment_cnt + 1)
  }

  // Row numbers of the rows a record names.

  function WKey(t: Txn): nat requires t.Marshalled() { WarehouseKey(t.W()) }
  function DKey(t: Txn): nat requires t.Marshalled() { DistrictKey(t.W(), t.D()) }
  function CKey(t: Txn): nat requires t.Marshalled() { CustomerKey(t.W(), t.D(), t.C()) }
  function SKey(t: Txn, i: nat): nat requires t.Marshalled() && 1 <= i <= 15 { StockKey(t.SupplyW(i), t.ItemId(i)) }
  function IKey(t: Txn, i: nat): nat requires t.Marshalled() && 1 <= i <= 15 { ItemKey(t.ItemId(i)) }

  lemma KeysInRange(db: Database, t: Txn)
    requires Valid(db) && WellFormed(db.scale, t) && (t.IsNewOrder() || t.IsPayment())
    ensures WKey(t) < |db.warehouses| && DKey(t) < |db.districts| && CKey(t) < |db.customers|
    ensures WKey(t) == t.W() - 1 && DKey(t) == t.G()
    ensures t.IsNewOrder() ==>
              forall i: nat | 1 <= i <= t.ItemNumber() :: SKey(t, i) < |db.stocks| && IKey(t, i) < |db.items|
  {
    CustomerKeyBijection(db.scale, t.W(), t.D(), t.C(), 0);
    if t.IsNewOrder() {
      forall i: nat | 1 <= i <= t.ItemNumber() ensures SKey(t, i) < |db.stocks| && IKey(t, i) < |db.items| {
        StockKeyBijection(db.scale, t.SupplyW(i), t.ItemId(i), 0);
      }
    }
  }

  /** The row numbers in terms of the record's parameters, free of wrap-around. */
  lemma RowNumbers(scale: nat, t: Txn)
    requires ValidScale(scale) && WellFormed(scale, t)
    ensures t.IsNewOrder() <==> t.kind == 0 && 1 <= t.params[50] <= 15
    ensures t.IsPayment() <==> t.kind == 1
    ensures t.IsNewOrder() || t.IsPayment() ==>
              && WKey(t) == t.params[0] as int - 1
              && DKey(t) == (t.params[0] as int - 1) * 10 + (t.params[1] as int - 1)
              && CKey(t) == ((t.params[0] as int - 1) * 10 + (t.params[1] as int - 1)) * 3000 + (t.params[2] as int - 1)
    ensures t.IsNewOrder() ==> forall i: nat | 1 <= i <= t.params[50] ::
              && SKey(t, i) == (t.params[19 + i] as int - 1) * 100_000 + (t.params[4 + i] as int - 1)
              && IKey(t, i) == t.params[4 + i] as int - 1
  {
    if t.IsNewOrder() || t.IsPayment() {
      SmallKeys(scale, t.W(), t.D());
      CustomerKeyBijection(scale, t.W(), t.D(), t.C(), 0);
    }
    if t.IsNewOrder() {
      forall i: nat | 1 <= i <= t.params[50]
        ensures SKey(t, i) == (t.params[19 + i] as int - 1) * 100_000 + (t.params[4 + i] as int - 1) && IKey(t, i) == t.params[4 + i] as int - 1
      {
        assert t.ItemId(i) == t.params[4 + i] && t.SupplyW(i) == t.params[19 + i];
        StockKeyBijection(scale, t.SupplyW(i), t.ItemId(i), 0);
      }
    }
  }

  // ---------------------------------------------------------------------------
  // Reference semantics: a transaction executed alone, start to end
  // ---------------------------------------------------------------------------

  ghost function AddToWarehouse(db: Database, key: nat, amount: nat): Database
    requires key < |db.warehouses|
  {
    var r := db.warehouses[key];
    db.(warehouses := db.warehouses[key := r.(w_ytd := r.w_ytd + amount)])
  }

  ghost function TakeOrderId(db: Database, key: nat): Database
    requires key < |db.districts|
  {
    var r := db.districts[key];
    db.(districts := db.districts[key := r.(d_next_o_id := r.d_next_o_id + 1)])
  }

  ghost function InsertOrder(db: Database, t: Txn, o: nat): Database
    requires t.Marshalled()
  {
    var size := TSizeOrder(db.scale);
    db.(orders := Insert(db.orders, size, OrderKey(t.W(), t.D(), o), Order(t.W(), t.D(), o)),
        aborted := db.aborted || db.orders.cnt >= size)
  }

  ghost function InsertNewOrder(db: Database, t: Txn, o: nat): Database
    requires t.Marshalled()
  {
    var size := TSizeNewOrder(db.scale);
    db.(newOrders := Insert(db.newOrders, size, OrderKey32(t.W(), t.D(), o), NewOrder(t.W(), t.D(), Wrap32(o))),
        aborted := db.aborted || db.newOrders.cnt >= size)
  }

  /** UPDATE_STOCK_AND_INSERT_ORDER_LINE for line i of order o. */
  ghost function ProcessLine(db: Database, t: Txn, o: nat, i: nat): Database
    requires t.Marshalled() && 1 <= i <= 15 && SKey(t, i) < |db.stocks| && IKey(t, i) < |db.items|
  {
    var size := TSizeOrderLine(db.scale);
    var price := db.items[IKey(t, i)].i_price;
    db.(stocks := db.stocks[SKey(t, i) := StockAfter(db.stocks[SKey(t, i)], t.Qty(i), t.RowNumber() == 1)],
        orderLines := Insert(db.orderLines, size, NewLineKey(t.W(), t.D(), o, i), LineRow(t, o, i, price)),
        aborted := db.aborted || db.orderLines.cnt >= size)
  }

  /** The first i lines, in line order. */
  ghost function ProcessLines(db: Database, t: Txn, o: nat, i: nat): (r: Database)
    requires Valid(db) && WellFormed(db.scale, t) && t.IsNewOrder() && i <= t.ItemNumber()
    ensures Valid(r) && r.scale == db.scale
  {
    if i == 0 then db
    else
      var d := ProcessLines(db, t, o, i - 1);
      KeysInRange(d, t);
      ProcessLine(d, t, o, i)
  }

  /** The NewOrder body without the warehouse update. */
  ghost function NewOrderBody(db: Database, t: Txn): (r: Database)
    requires Valid(db) && WellFormed(db.scale, t) && t.IsNewOrder()
    ensures Valid(r) && r.scale == db.scale
  {
    KeysInRange(db, t);
    var o := db.districts[DKey(t)].d_next_o_id;
    var begun := TakeOrderId(db, DKey(t));
    InsertNewOrder(InsertOrder(ProcessLines(begun, t, o, t.ItemNumber()), t, o), t, o)
  }

  ghost function ExecNewOrder(db: Database, t: Txn): (r: Database)
    requires Valid(db) && WellFormed(db.scale, t) && t.IsNewOrder()
    ensures Valid(r) && r.scale == db.scale
  {
    KeysInRange(db, t);
    NewOrderBody(AddToWarehouse(db, WKey(t), t.Amount()), t)
  }

  ghost function PayDistrictAndCustomer(db: Database, t: Txn): Database
    requires t.Marshalled() && DKey(t) < |db.districts| && CKey(t) < |db.customers|
  {
    var d := db.districts[DKey(t)];
    db.(districts := db.districts[DKey(t) := d.(d_ytd := d.d_ytd + t.Amount())],
        customers := db.customers[CKey(t) := CustomerAfter(db.customers[CKey(t)], t.Amount())])
  }

  ghost function ExecPayment(db: Database, t: Txn): (r: Database)
    requires Valid(db) && WellFormed(db.scale, t) && t.IsPayment()
    ensures Valid(r) && r.scale == db.scale
  {
    KeysInRange(db, t);
    PayDistrictAndCustomer(AddToWarehouse(db, WKey(t), t.Amount()), t)
  }

  /** parse_and_process, executed on the spot. */
  ghost function ExecTxn(db: Database, t: Txn): (r: Database)
    requires Valid(db) && WellFormed(db.scale, t)
    ensures Valid(r) && r.scale == db.scale
  {
    if t.IsNewOrder() then ExecNewOrder(db, t) else if t.IsPayment() then ExecPayment(db, t) else db
  }

  /** Serial execution of a log, record by record. */
  ghost function ExecLog(db: Database, log: seq<Txn>): (r: Database)
    requires Valid(db) && WellFormedLog(db.scale, log)
    ensures Valid(r) && r.scale == db.scale
  {
    if log == [] then db else ExecTxn(ExecLog(db, log[..|log| - 1]), log[|log| - 1])
  }

  // ---------------------------------------------------------------------------
  // Behaviours
  // ---------------------------------------------------------------------------

  datatype Cown = WarehouseC(key: nat) | DistrictC(key: nat) | CustomerC(key: nat) | StockC(key: nat) | ItemC(key: nat)

  /** One `when(...)`.  `joint` says whether the warehouse cown and its update are part of it. */
  datatype Behaviour =
    | NewOrderB(t: Txn, joint: bool)
    | PaymentB(t: Txn, joint: bool)
    | WarehouseB(t: Txn)

  ghost predicate IsBehaviour(scale: nat, b: Behaviour) {
    && WellFormed(scale, b.t)
    && match b
       case NewOrderB(t, _) => t.IsNewOrder()
       case PaymentB(t, _) => t.IsPayment()
       case WarehouseB(t) => t.IsNewOrder() || t.IsPayment()
  }

  /** The WHEN macro: split spawns the warehouse update first, as its own behaviour. */
  ghost function Spawn(t: Txn, split: bool): seq<Behaviour>
    requires t.Marshalled()
  {
    if t.IsNewOrder() then
      if split then [WarehouseB(t), NewOrderB(t, false)] else [NewOrderB(t, true)]
    else if t.IsPayment() then
      if split then [WarehouseB(t), PaymentB(t, false)] else [PaymentB(t, true)]
    else []
  }

  ghost function SpawnAll(log: seq<Txn>, split: bool): seq<Behaviour>
    requires forall i | 0 <= i < |log| :: log[i].Marshalled()
  {
    if log == [] then [] else SpawnAll(log[..|log| - 1], split) + Spawn(log[|log| - 1], split)
  }

  /** WHEN_PARAMS: the cowns named by the `when(...)`. */
  ghost function Cowns(b: Behaviour): set<Cown>
    requires b.t.Marshalled() && (b.NewOrderB? ==> b.t.IsNewOrder())
  {
    match b
    case NewOrderB(t, joint) =>
      (if joint then {WarehouseC(WKey(t))} else {}) + {DistrictC(DKey(t)), CustomerC(CKey(t))}
      + (set i: nat | 1 <= i <= t.ItemNumber() :: StockC(SKey(t, i)))
      + (set i: nat | 1 <= i <= t.ItemNumber() :: ItemC(IKey(t, i)))
    case PaymentB(t, joint) =>
      (if joint then {WarehouseC(WKey(t))} else {}) + {DistrictC(DKey(t)), CustomerC(CKey(t))}
    case WarehouseB(t) => {WarehouseC(WKey(t))}
  }

  /** Stock row and item row of the n-th line, counted from 0. */
  ghost predicate IsLineStock(t: Txn, n: nat, key: int)
    requires t.Marshalled() && n < 15
  {
    key == (t.params[20 + n] as int - 1) * 100_000 + (t.params[5 + n] as int - 1)
  }

  ghost predicate IsLineItem(t: Txn, n: nat, key: int)
    requires t.Marshalled() && n < 15
  {
    key == t.params[5 + n] as int - 1
  }

  lemma LineRows(scale: nat, t: Txn, n: nat)
    requires ValidScale(scale) && WellFormed(scale, t) && t.IsNewOrder() && n < t.ItemNumber()
    ensures forall key: nat :: (IsLineStock(t, n, key) <==> key == SKey(t, n + 1)) && (IsLineItem(t, n, key) <==> key == IKey(t, n + 1))
  {
    RowNumbers(scale, t);
  }

  lemma LineCowns(scale: nat, t: Txn, joint: bool, c: Cown)
    requires ValidScale(scale) && WellFormed(scale, t) && t.IsNewOrder() && (c.StockC? || c.ItemC?)
    ensures c in Cowns(NewOrderB(t, joint)) <==>
              exists n: nat :: n < t.ItemNumber() && if c.StockC? then IsLineStock(t, n, c.key) else IsLineItem(t, n, c.key)
  {
    if c in Cowns(NewOrderB(t, joint)) {
      var i: nat :| 1 <= i <= t.ItemNumber() && (c == StockC(SKey(t, i)) || c == ItemC(IKey(t, i)));
      var n: nat := i - 1;
      LineRows(scale, t, n);
      assert if c.StockC? then IsLineStock(t, n, c.key) else IsLineItem(t, n, c.key);
    }
    if n: nat :| n < t.ItemNumber() && if c.StockC? then IsLineStock(t, n, c.key) else IsLineItem(t, n, c.key) {
      LineRows(scale, t, n);
      assert c == StockC(SKey(t, n + 1)) || c == ItemC(IKey(t, n + 1));
    }
  }

  /** The cowns of a behaviour by row number, in terms of the record's parameters. */
  lemma CownsByRow(scale: nat, b: Behaviour, c: Cown)
    requires ValidScale(scale) && IsBehaviour(scale, b)
    ensures var p := b.t.params;
            c in Cowns(b) <==>
              match c
              case WarehouseC(k) => k as int == p[0] as int - 1 && (b.WarehouseB? || b.joint)
              case DistrictC(k) => k as int == (p[0] as int - 1) * 10 + (p[1] as int - 1) && !b.WarehouseB?
              case CustomerC(k) => k as int == ((p[0] as int - 1) * 10 + (p[1] as int - 1)) * 3000 + (p[2] as int - 1) && !b.WarehouseB?
              case StockC(k) => b.NewOrderB? && exists n: nat :: n < p[50] && IsLineStock(b.t, n, k)
              case ItemC(k) => b.NewOrderB? && exists n: nat :: n < p[50] && IsLineItem(b.t, n, k)
  {
    RowNumbers(scale, b.t);
    if b.NewOrderB? && (c.StockC? || c.ItemC?) { LineCowns(scale, b.t, b.joint, c); }
  }
}
