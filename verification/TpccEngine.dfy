/** The transaction bodies as they run: row fields updated in place, table rows inserted, the order's
    lines processed by a loop, and the cown_ptrs slots filled by prepare_cowns. */
module TpccEngine {
  import opened TpccKeys
  import opened Tpcc

  class Engine {
    const scale: nat
    var warehouses: seq<Warehouse>
    var districts: seq<District>
    var customers: seq<Customer>
    var stocks: seq<Stock>
    const items: seq<Item>
    var orders: Table<Order>
    var newOrders: Table<NewOrder>
    var orderLines: Table<OrderLine>
    var aborted: bool

    ghost function Db(): Database
      reads this
    {
      Database(scale, warehouses, districts, customers, stocks, items, orders, newOrders, orderLines, aborted)
    }

    constructor (db: Database)
      ensures Db() == db
    {
      scale, warehouses, districts, customers, stocks, items :=
        db.scale, db.warehouses, db.districts, db.customers, db.stocks, db.items;
      orders, newOrders, orderLines, aborted := db.orders, db.newOrders, db.orderLines, db.aborted;
    }

    /** WAREHOUSE_OP. */
    method WarehouseOp(t: Txn)
      requires t.Marshalled() && WKey(t) < |warehouses|
      modifies `warehouses
      ensures Db() == AddToWarehouse(old(Db()), WKey(t), t.Amount())
    {
      var w := warehouses[WKey(t)];
      warehouses := warehouses[WKey(t) := w.(w_ytd := w.w_ytd + t.Amount())];
    }

    /** UPDATE_STOCK. */
    method UpdateStock(t: Txn, i: nat)
      requires t.Marshalled() && 1 <= i <= 15 && SKey(t, i) < |stocks|
      modifies `stocks
      ensures stocks == old(stocks)[SKey(t, i) := StockAfter(old(stocks)[SKey(t, i)], t.Qty(i), t.RowNumber() == 1)]
    {
      var s := stocks[SKey(t, i)];
      s := s.(s_quantity := Wrap64(s.s_quantity - t.Qty(i)));
      if s.s_quantity < 10 { s := s.(s_quantity := Wrap64(s.s_quantity + 91)); }
      s := s.(s_ytd := s.s_ytd + t.Qty(i), s_order_cnt := s.s_order_cnt + 1);
      if t.RowNumber() == 1 { s := s.(s_remote_cnt := s.s_remote_cnt + 1); }
      stocks := stocks[SKey(t, i) := s];
    }

    /** INSERT_ORDER_LINE. */
    method InsertOrderLine(t: Txn, orderKey: nat, i: nat)
      requires t.Marshalled() && 1 <= i <= 15 && IKey(t, i) < |items|
      modifies `orderLines, `aborted
      ensures var size := TSizeOrderLine(scale);
              var row := OrderLine(t.W(), t.D(), orderKey, i, t.ItemId(i), t.SupplyW(i), t.Qty(i),
                                   LineAmount(items[IKey(t, i)].i_price, t.Qty(i)));
              && orderLines == Insert(old(orderLines), size, OrderLineKey(t.W(), t.D(), orderKey, i), row)
              && aborted == (old(aborted) || old(orderLines).cnt >= size)
    {
      var amount := LineAmount(items[IKey(t, i)].i_price, t.Qty(i));
      var row := OrderLine(t.W(), t.D(), orderKey, i, t.ItemId(i), t.SupplyW(i), t.Qty(i), amount);
      if orderLines.cnt >= TSizeOrderLine(scale) { aborted := true; }
      orderLines := Insert(orderLines, TSizeOrderLine(scale), OrderLineKey(t.W(), t.D(), orderKey, i), row);
    }

    /** UPDATE_STOCK_AND_OL: all lines in line order. */
    method AllLines(t: Txn, o: nat)
      requires Valid(Db()) && WellFormed(scale, t) && t.IsNewOrder()
      modifies `stocks, `orderLines, `aborted
      ensures Db() == ProcessLines(old(Db()), t, o, t.ItemNumber())
    {
      for i := 1 to t.ItemNumber() + 1
        invariant Db() == ProcessLines(old(Db()), t, o, i - 1)
      {
        KeysInRange(Db(), t);
        UpdateStock(t, i);
        InsertOrderLine(t, OrderKey(t.W(), t.D(), o), i);
      }
    }

    /** The joint NewOrder behaviour, __NEW_ORDER_CASE. */
    method NewOrderTxn(t: Txn)
      requires Valid(Db()) && WellFormed(scale, t) && t.IsNewOrder()
      modifies this
      ensures Db() == ExecTxn(old(Db()), t)
    {
      KeysInRange(Db(), t);
      WarehouseOp(t);
      var d := districts[DKey(t)];
      var o := d.d_next_o_id;
      districts := districts[DKey(t) := d.(d_next_o_id := o + 1)];
      AllLines(t, o);
      NewOrderEnd(t, o);
    }

    /** NEWORDER_END. */
    method NewOrderEnd(t: Txn, o: nat)
      requires t.Marshalled()
      modifies `orders, `newOrders, `aborted
      ensures Db() == InsertNewOrder(InsertOrder(old(Db()), t, o), t, o)
    {
      if orders.cnt >= TSizeOrder(scale) { aborted := true; }
      orders := Insert(orders, TSizeOrder(scale), OrderKey(t.W(), t.D(), o), Order(t.W(), t.D(), o));
      if newOrders.cnt >= TSizeNewOrder(scale) { aborted := true; }
      newOrders := Insert(newOrders, TSizeNewOrder(scale), OrderKey32(t.W(), t.D(), o), NewOrder(t.W(), t.D(), Wrap32(o)));
    }

    /** The joint Payment behaviour. */
    method PaymentTxn(t: Txn)
      requires Valid(Db()) && WellFormed(scale, t) && t.IsPayment()
      modifies this
      ensures Db() == ExecTxn(old(Db()), t)
    {
      KeysInRange(Db(), t);
      WarehouseOp(t);
      var d := districts[DKey(t)];
      districts := districts[DKey(t) := d.(d_ytd := d.d_ytd + t.Amount())];
      var c := customers[CKey(t)];
      c := c.(c_balance := c.c_balance - t.Amount());
      c := c.(c_ytd_payment := c.c_ytd_payment + t.Amount());
      c := c.(c_payment_cnt := c.c_payment_cnt + 1);
      customers := customers[CKey(t) := c];
    }

    /** parse_and_process run inline on a whole log: the serial replay. */
    method Replay(log: seq<Txn>)
      requires Valid(Db()) && WellFormedLog(scale, log)
      modifies this
      ensures Db() == ExecLog(old(Db()), log)
    {
      for k := 0 to |log|
        invariant Db() == ExecLog(old(Db()), log[..k])
      {
        assert log[..k + 1][..k] == log[..k];
        if log[k].IsNewOrder() {
          NewOrderTxn(log[k]);
        } else if log[k].IsPayment() {
          PaymentTxn(log[k]);
        }
      }
      assert log[..|log|] == log;
    }
  }

  // ---------------------------------------------------------------------------
  // The cown_ptrs slots
  // ---------------------------------------------------------------------------

  /** What prepare_cowns asks of a record: its item loops stay inside the slots. */
  predicate Preparable(t: Txn) { t.Marshalled() && (t.kind == 0 ==> t.ItemNumber() <= 15) }

  /** The slots after prepare_cowns: the row cowns of a NewOrder or Payment, and a stock and an item cown for
      each line of a NewOrder; other slots, and records of any other type, are left alone. */
  ghost function FilledSlots(t: Txn, slots: seq<Cown>): (r: seq<Cown>)
    requires Preparable(t) && |slots| == 33
    ensures |r| == 33
  {
    if t.kind > 1 then slots
    else
      var n := if t.kind == 0 then t.ItemNumber() else 0;
      seq(33, x requires 0 <= x < 33 =>
        if x == 0 then WarehouseC(WKey(t)) else if x == 1 then DistrictC(DKey(t)) else if x == 2 then CustomerC(CKey(t))
        else if 3 <= x < 3 + n then StockC(SKey(t, x - 2))
        else if 18 <= x < 18 + n then ItemC(IKey(t, x - 17))
        else slots[x])
  }

  /** prepare_cowns, for any type byte; the slots hold cowns rather than addresses. */
  method PrepareCowns(t: Txn, slots: array<Cown>)
    requires Preparable(t) && slots.Length == 33
    modifies slots
    ensures slots[..] == FilledSlots(t, old(slots[..]))
  {
    if t.kind <= 1 {
      slots[0] := WarehouseC(WKey(t));
      slots[1] := DistrictC(DKey(t));
      slots[2] := CustomerC(CKey(t));
      if t.kind == 0 { FillLineSlots(t, slots); }
    }
  }

  /** The two item loops. */
  method FillLineSlots(t: Txn, slots: array<Cown>)
    requires Preparable(t) && t.kind == 0 && slots.Length == 33
    modifies slots
    ensures forall x | 0 <= x < 3 :: slots[x] == old(slots[x])
    ensures forall x: nat | 3 <= x < 33 ::
              slots[x] == if x < 3 + t.ItemNumber() then StockC(SKey(t, x - 2))
                          else if 18 <= x < 18 + t.ItemNumber() then ItemC(IKey(t, x - 17)) else old(slots[x])
  {
    for i := 0 to t.ItemNumber()
      invariant forall x | 0 <= x < 3 :: slots[x] == old(slots[x])
      invariant forall x: nat | 3 <= x < 33 :: slots[x] == if x < 3 + i then StockC(SKey(t, x - 2)) else old(slots[x])
    {
      slots[3 + i] := StockC(StockKey(t.params[20 + i], t.params[5 + i]));
    }
    for i := 0 to t.ItemNumber()
      invariant forall x | 0 <= x < 3 :: slots[x] == old(slots[x])
      invariant forall x: nat | 3 <= x < 33 ::
                  slots[x] == if x < 3 + t.ItemNumber() then StockC(SKey(t, x - 2))
                              else if 18 <= x < 18 + i then ItemC(IKey(t, x - 17)) else old(slots[x])
    {
      slots[18 + i] := ItemC(ItemKey(t.params[5 + i]));
    }
  }

  /** The slot that GET_COWN_PTR_STOCK_i and GET_COWN_PTR_ITEM_i read. */
  function StockSlot(i: nat): nat { 2 + i }
  function ItemSlot(i: nat): nat { 17 + i }

  /** The slots name the rows of the record. */
  ghost predicate Names(t: Txn, slots: seq<Cown>) {
    && t.Marshalled() && |slots| == 33
    && (t.IsNewOrder() || t.IsPayment() ==>
          slots[0] == WarehouseC(WKey(t)) && slots[1] == DistrictC(DKey(t)) && slots[2] == CustomerC(CKey(t)))
    && (t.IsNewOrder() ==> forall i: nat | 1 <= i <= t.ItemNumber() ::
          slots[StockSlot(i)] == StockC(SKey(t, i)) && slots[ItemSlot(i)] == ItemC(IKey(t, i)))
  }

  lemma FilledNames(t: Txn, slots: seq<Cown>)
    requires Preparable(t) && |slots| == 33
    ensures Names(t, FilledSlots(t, slots))
    ensures t.kind > 1 ==> FilledSlots(t, slots) == slots
    ensures forall x | 3 <= x < 33 && (t.kind == 1 || (t.kind == 0 && (3 + t.ItemNumber() <= x < 18 || 18 + t.ItemNumber() <= x))) ::
              FilledSlots(t, slots)[x] == slots[x]
  {}

  /** WHEN_PARAMS(n) expanded: d, c, s1, i1, ..., sn, in, as the slots the names were read from. */
  function WhenParams(n: nat): seq<nat> {
    if n == 0 then [1, 2] else WhenParams(n - 1) + [StockSlot(n), ItemSlot(n)]
  }

  lemma {:induction false} WhenParamsSlots(n: nat, x: nat)
    ensures x in WhenParams(n) <==>
              x == 1 || x == 2 || (exists i: nat :: 1 <= i <= n && (x == StockSlot(i) || x == ItemSlot(i)))
  {
    if n > 0 {
      WhenParamsSlots(n - 1, x);
      assert x in [StockSlot(n), ItemSlot(n)] <==> x == StockSlot(n) || x == ItemSlot(n);
    }
  }

  /** The cowns in the slots that WHEN_PARAMS(n) names; n = 0 is the Payment's when(d, c). */
  ghost function WhenCowns(slots: seq<Cown>, n: nat): set<Cown>
    requires |slots| == 33
  {
    set x | x in WhenParams(n) && x < 33 :: slots[x]
  }

  /** What parse_and_process hands to `when`, one set of cowns for each behaviour it spawns. */
  ghost function HandedOver(t: Txn, slots: seq<Cown>, split: bool): seq<set<Cown>>
    requires t.Marshalled() && |slots| == 33
  {
    if t.IsNewOrder() || t.IsPayment() then
      var rest := WhenCowns(slots, if t.IsNewOrder() then t.ItemNumber() else 0);
      if split then [{slots[0]}, rest] else [{slots[0]} + rest]
    else []
  }

  /** The cowns that the generated `when(...)` names are exactly the behaviour's, but for the warehouse. */
  lemma GeneratedWhenTakesItsCowns(t: Txn, slots: seq<Cown>)
    requires Names(t, slots) && t.IsNewOrder()
    ensures WhenCowns(slots, t.ItemNumber()) == Cowns(NewOrderB(t, false))
  {
    var n, b := t.ItemNumber(), NewOrderB(t, false);
    forall x: nat ensures x in WhenParams(n) <==>
              x == 1 || x == 2 || (exists i: nat :: 1 <= i <= n && (x == StockSlot(i) || x == ItemSlot(i))) {
      WhenParamsSlots(n, x);
    }
    forall c ensures c in Cowns(b) <==> c in WhenCowns(slots, n) {
      if c in Cowns(b) {
        var x := SlotOf(t, c);
        assert x in WhenParams(n) && slots[x] == c;
      }
    }
  }

  /** A record whose slots have been filled spawns its behaviours over exactly their own cowns. */
  lemma HandsOverItsCowns(t: Txn, slots: seq<Cown>, split: bool)
    requires Names(t, slots)
    ensures |HandedOver(t, slots, split)| == |Spawn(t, split)|
    ensures forall i | 0 <= i < |Spawn(t, split)| :: HandedOver(t, slots, split)[i] == Cowns(Spawn(t, split)[i])
  {
    if t.IsNewOrder() {
      GeneratedWhenTakesItsCowns(t, slots);
    } else if t.IsPayment() {
      assert WhenCowns(slots, 0) == {slots[1], slots[2]} by {
        assert 1 in WhenParams(0) && 2 in WhenParams(0);
      }
    }
  }

  lemma SlotOf(t: Txn, c: Cown) returns (x: nat)
    requires t.Marshalled() && t.IsNewOrder() && c in Cowns(NewOrderB(t, false))
    ensures x < 33 && (x == 1 || x == 2 || exists i: nat :: 1 <= i <= t.ItemNumber() && (x == StockSlot(i) || x == ItemSlot(i)))
    ensures x == 1 ==> c == DistrictC(DKey(t))
    ensures x == 2 ==> c == CustomerC(CKey(t))
    ensures forall i: nat | 1 <= i <= t.ItemNumber() ::
              (x == StockSlot(i) ==> c == StockC(SKey(t, i))) && (x == ItemSlot(i) ==> c == ItemC(IKey(t, i)))
  {
    x := 1;
    match c
    case WarehouseC(_) => assert false;
    case DistrictC(_) => x := 1;
    case CustomerC(_) => x := 2;
    case StockC(_) => var i: nat :| 1 <= i <= t.ItemNumber() && c == StockC(SKey(t, i)); x := StockSlot(i);
    case ItemC(_) => var i: nat :| 1 <= i <= t.ItemNumber() && c == ItemC(IKey(t, i)); x := ItemSlot(i);
  }
}
