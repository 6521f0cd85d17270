/** TPC-C consistency over whole runs: order ids, stock levels and year-to-date balances, each as a
    law of serial execution, and then of every quiescent state of every permitted execution. */
module TpccConsistency {
  import opened Common
  import opened TpccKeys
  import opened TpccBudget
  import opened Tpcc
  import opened TpccRun
  import opened TpccDeterminism
  import opened Runtime

  // ---------------------------------------------------------------------------
  // Frames: what the line steps leave alone
  // ---------------------------------------------------------------------------

  lemma {:induction false} ProcessLinesFrame(db: Database, t: Txn, o: nat, i: nat)
    requires Valid(db) && WellFormed(db.scale, t) && t.IsNewOrder() && i <= t.ItemNumber()
    ensures var r := ProcessLines(db, t, o, i);
            && r.warehouses == db.warehouses && r.districts == db.districts && r.customers == db.customers
            && r.items == db.items && r.orders == db.orders && r.newOrders == db.newOrders
            && db.orderLines.cnt <= r.orderLines.cnt <= db.orderLines.cnt + i
            && (!db.aborted && db.orderLines.cnt + i <= TSizeOrderLine(db.scale) ==> !r.aborted)
  {
    if i > 0 { ProcessLinesFrame(db, t, o, i - 1); }
  }

  // ---------------------------------------------------------------------------
  // Order ids
  // ---------------------------------------------------------------------------

  /** The slots reserved for the districts, each naming a district and an order id. */
  ghost predicate IsSlot(db: Database, key: nat) { key < |db.districts| * ORDERS_PER_DISTRICT }
  ghost function SlotDistrict(key: nat): nat { key / ORDERS_PER_DISTRICT }
  ghost function SlotId(key: nat): nat { key % ORDERS_PER_DISTRICT + 1 }

  lemma SlotInRange(db: Database, key: nat)
    requires IsSlot(db, key)
    ensures SlotDistrict(key) < |db.districts|
  {}

  ghost predicate OrderSlotOk(db: Database, key: nat) {
    && (key in db.orders.rows <==>
          IsSlot(db, key) && (SlotInRange(db, key); SlotId(key) < db.districts[SlotDistrict(key)].d_next_o_id))
    && (key in db.orders.rows ==> var (w, d) := DistrictIds(SlotDistrict(key));
                                  db.orders.rows[key] == Order(w, d, SlotId(key)))
  }

  ghost predicate NewOrderSlotOk(db: Database, key: nat) {
    && (key in db.newOrders.rows <==>
          IsSlot(db, key) && (SlotInRange(db, key);
                              INITIAL_NEXT_O_ID <= SlotId(key) < db.districts[SlotDistrict(key)].d_next_o_id))
    && (key in db.newOrders.rows ==> var (w, d) := DistrictIds(SlotDistrict(key));
                                     db.newOrders.rows[key] == NewOrder(w, d, SlotId(key)))
  }

  /** The order table holds exactly orders 1 .. d_next_o_id - 1 of each district and the new-order
      table exactly 3001 .. d_next_o_id - 1, every row in its own slot, and no insertion has ever
      overwritten a row. */
  ghost predicate OrderIdsExact(db: Database) {
    && Valid(db)
    && (forall key: nat :: OrderSlotOk(db, key))
    && (forall key: nat :: NewOrderSlotOk(db, key))
    && db.orders.cnt == |db.orders.rows| && db.newOrders.cnt == |db.newOrders.rows|
  }

  lemma FreshInsertCounts<R>(t: Table<R>, size: nat, key: nat, r: R)
    requires t.cnt == |t.rows| && key !in t.rows
    ensures var u := Insert(t, size, key, r); u.cnt == |u.rows|
  {
    assert t.rows[key := r].Keys == t.rows.Keys + {key};
  }

  lemma SlotOfKey(db: Database, w: nat, d: nat, o: nat)
    requires Valid(db) && DistrictId(db.scale, w, d) && 1 <= o <= ORDERS_PER_DISTRICT
    ensures var key := OrderKey(w, d, o);
            && key == OrderKey32(w, d, o) && IsSlot(db, key)
            && SlotDistrict(key) == GlobalDistrict(w, d) && SlotId(key) == o
            && DistrictIds(SlotDistrict(key)) == (w, d)
            && (forall k: nat | IsSlot(db, k) && SlotDistrict(k) == GlobalDistrict(w, d) && SlotId(k) == o :: k == key)
  {
    OrderKeyValue(db.scale, w, d, o);
    SmallKeys(db.scale, w, d);
    DistrictKeyBijection(db.scale, w, d, 0);
    SlotIsPositional(GlobalDistrict(w, d), o);
  }

  lemma SlotIsPositional(g: nat, o: nat)
    requires 1 <= o <= ORDERS_PER_DISTRICT
    ensures SlotDistrict(g * ORDERS_PER_DISTRICT + (o - 1)) == g && SlotId(g * ORDERS_PER_DISTRICT + (o - 1)) == o
    ensures forall k: nat | SlotDistrict(k) == g && SlotId(k) == o :: k == g * ORDERS_PER_DISTRICT + (o - 1)
  {}

  /** A new order, in either form, takes the next id of its district and nothing else. */
  lemma NewOrderKeepsOrderIds(db: Database, t: Txn)
    requires OrderIdsExact(db) && WellFormed(db.scale, t) && t.IsNewOrder()
    requires t.G() < |db.districts| && 0 <= t.G()
    requires INITIAL_NEXT_O_ID <= db.districts[t.G()].d_next_o_id <= ORDERS_PER_DISTRICT
    requires db.orders.cnt < TSizeOrder(db.scale) && db.newOrders.cnt < TSizeNewOrder(db.scale)
    ensures OrderIdsExact(NewOrderBody(db, t))
    ensures var r := NewOrderBody(db, t); var d := db.districts[t.G()];
            && r.districts == db.districts[t.G() := d.(d_next_o_id := d.d_next_o_id + 1)]
            && r.orders.cnt == db.orders.cnt + 1 && r.newOrders.cnt == db.newOrders.cnt + 1
  {
    KeysInRange(db, t);
    var g, o := DKey(t), db.districts[DKey(t)].d_next_o_id;
    var key := OrderKey(t.W(), t.D(), o);
    SlotOfKey(db, t.W(), t.D(), o);
    ProcessLinesFrame(TakeOrderId(db, g), t, o, t.ItemNumber());
    var r := NewOrderBody(db, t);
    assert r.orders == Insert(db.orders, TSizeOrder(db.scale), key, Order(t.W(), t.D(), o));
    assert r.newOrders == Insert(db.newOrders, TSizeNewOrder(db.scale), key, NewOrder(t.W(), t.D(), o));
    assert OrderSlotOk(db, key) && NewOrderSlotOk(db, key);
    FreshInsertCounts(db.orders, TSizeOrder(db.scale), key, Order(t.W(), t.D(), o));
    FreshInsertCounts(db.newOrders, TSizeNewOrder(db.scale), key, NewOrder(t.W(), t.D(), o));
    SlotsStep(db, r, t.W(), t.D(), o);
  }

  /** Raising one district's next id by one and filling that slot keeps every slot right. */
  lemma SlotsStep(db: Database, r: Database, w: nat, d: nat, o: nat)
    requires OrderIdsExact(db) && Valid(r) && r.scale == db.scale
    requires DistrictId(db.scale, w, d) && INITIAL_NEXT_O_ID <= o <= ORDERS_PER_DISTRICT
    requires 0 <= GlobalDistrict(w, d) < |db.districts|
    requires var row := db.districts[GlobalDistrict(w, d)];
             row.d_next_o_id == o && r.districts == db.districts[GlobalDistrict(w, d) := row.(d_next_o_id := o + 1)]
    requires var key := OrderKey(w, d, o);
             r.orders.rows == db.orders.rows[key := Order(w, d, o)] && r.newOrders.rows == db.newOrders.rows[key := NewOrder(w, d, o)]
    ensures forall k: nat :: OrderSlotOk(r, k)
    ensures forall k: nat :: NewOrderSlotOk(r, k)
  {
    SlotOfKey(db, w, d, o);
    var key := OrderKey(w, d, o);
    forall k: nat ensures OrderSlotOk(r, k) && NewOrderSlotOk(r, k) {
      assert OrderSlotOk(db, k) && NewOrderSlotOk(db, k);
      if IsSlot(db, k) { SlotInRange(db, k); }
    }
  }

  lemma {:induction false} BoundedSetSize(s: set<nat>, n: nat)
    requires forall x | x in s :: x < n
    ensures |s| <= n
  {
    if n == 0 {
      assert s == {};
    } else {
      var rest := s - {n - 1};
      BoundedSetSize(rest, n - 1);
      assert s <= rest + {n - 1};
      if n - 1 in s { assert s == rest + {n - 1}; } else { assert s == rest; }
    }
  }

  /** A table that never overwrote a row and fills only district slots is nowhere near its size. */
  lemma TablesHaveRoom(db: Database)
    requires OrderIdsExact(db)
    ensures db.orders.cnt < TSizeOrder(db.scale) && db.newOrders.cnt < TSizeNewOrder(db.scale)
  {
    forall key | key in db.orders.rows.Keys ensures key < |db.districts| * ORDERS_PER_DISTRICT {
      assert OrderSlotOk(db, key);
    }
    forall key | key in db.newOrders.rows.Keys ensures key < |db.districts| * ORDERS_PER_DISTRICT {
      assert NewOrderSlotOk(db, key);
    }
    BoundedSetSize(db.orders.rows.Keys, |db.districts| * ORDERS_PER_DISTRICT);
    BoundedSetSize(db.newOrders.rows.Keys, |db.districts| * ORDERS_PER_DISTRICT);
  }

  /** The law looks at the two order tables and the counters only. */
  lemma SameOrderIds(db: Database, r: Database)
    requires OrderIdsExact(db) && Valid(r) && r.scale == db.scale && r.orders == db.orders && r.newOrders == db.newOrders
    requires forall g | 0 <= g < |db.districts| :: r.districts[g].d_next_o_id == db.districts[g].d_next_o_id
    ensures OrderIdsExact(r)
  {
    forall key: nat ensures OrderSlotOk(r, key) && NewOrderSlotOk(r, key) {
      assert OrderSlotOk(db, key) && NewOrderSlotOk(db, key);
      if IsSlot(db, key) { SlotInRange(db, key); }
    }
  }

  lemma OtherBehavioursKeepOrderIds(db: Database, b: Behaviour)
    requires OrderIdsExact(db) && IsBehaviour(db.scale, b) && !b.NewOrderB?
    ensures OrderIdsExact(ExecBehaviour(db, b))
    ensures forall g | 0 <= g < |db.districts| :: ExecBehaviour(db, b).districts[g].d_next_o_id == db.districts[g].d_next_o_id
  {
    KeysInRange(db, b.t);
    SameOrderIds(db, ExecBehaviour(db, b));
  }

  lemma NewOrderBehaviourKeepsOrderIds(db: Database, b: Behaviour)
    requires OrderIdsExact(db) && IsBehaviour(db.scale, b) && b.NewOrderB? && 0 <= b.t.G() < |db.districts|
    requires INITIAL_NEXT_O_ID <= db.districts[b.t.G()].d_next_o_id <= ORDERS_PER_DISTRICT
    ensures OrderIdsExact(ExecBehaviour(db, b))
    ensures forall g | 0 <= g < |db.districts| :: ExecBehaviour(db, b).districts[g].d_next_o_id
              == db.districts[g].d_next_o_id + (if g == b.t.G() then 1 else 0)
  {
    KeysInRange(db, b.t);
    var begun := if b.joint then AddToWarehouse(db, WKey(b.t), b.t.Amount()) else db;
    SameOrderIds(db, begun);
    TablesHaveRoom(begun);
    NewOrderKeepsOrderIds(begun, b.t);
  }

  lemma {:induction false} OrderIdsOverBehaviours(db: Database, bs: seq<Behaviour>)
    requires OrderIdsExact(db) && AllBehaviours(db.scale, bs)
    requires forall g | 0 <= g < DistrictCount(db.scale) :: OrdersOn(bs, g) <= MAX_ORDER_TRANSACTIONS
    requires forall g | 0 <= g < |db.districts| :: db.districts[g].d_next_o_id == INITIAL_NEXT_O_ID
    ensures OrderIdsExact(ExecAll(db, bs))
    ensures forall g | 0 <= g < |db.districts| :: ExecAll(db, bs).districts[g].d_next_o_id == INITIAL_NEXT_O_ID + OrdersOn(bs, g)
  {
    if bs != [] {
      var before, b := bs[..|bs| - 1], bs[|bs| - 1];
      forall g | 0 <= g < DistrictCount(db.scale) ensures OrdersOn(before, g) <= MAX_ORDER_TRANSACTIONS {
        assert OrdersOn(bs, g) <= MAX_ORDER_TRANSACTIONS;
      }
      OrderIdsOverBehaviours(db, before);
      if b.NewOrderB? {
        SmallKeys(db.scale, b.t.W(), b.t.D());
        assert OrdersOn(bs, b.t.G()) == OrdersOn(before, b.t.G()) + 1;
        NewOrderBehaviourKeepsOrderIds(ExecAll(db, before), b);
      } else {
        OtherBehavioursKeepOrderIds(ExecAll(db, before), b);
      }
    }
  }

  /** At most MAX_ORDER_TRANSACTIONS new orders per district: the bound the tables are sized for. */
  ghost predicate WithinOrderBound(scale: nat, log: seq<Txn>)
    requires WellFormedLog(scale, log)
  {
    forall g | 0 <= g < DistrictCount(scale) :: LogOrders(log, g) <= MAX_ORDER_TRANSACTIONS
  }

  /** Sections 3.3.2.2 and 3.3.2.3 of TPC-C 5.11.0, order-id parts: ids are handed out without gaps or
      repeats and every order and new-order row is where its id says. */
  lemma OrderIdsOverRuns(db: Database, log: seq<Txn>)
    requires OrderIdsExact(db) && WellFormedLog(db.scale, log) && WithinOrderBound(db.scale, log)
    requires forall g | 0 <= g < |db.districts| :: db.districts[g].d_next_o_id == INITIAL_NEXT_O_ID
    ensures OrderIdsExact(ExecLog(db, log))
    ensures forall g | 0 <= g < |db.districts| ::
              ExecLog(db, log).districts[g].d_next_o_id == INITIAL_NEXT_O_ID + LogOrders(log, g)
  {
    SpawnAllBehaviours(db.scale, log, false);
    SpawnedLogIsExecLog(db, log, false);
    OrderIdsOverBehaviours(db, SpawnAll(log, false));
  }

  // ---------------------------------------------------------------------------
  // Stock
  // ---------------------------------------------------------------------------

  /** One line's demand on a stock row: quantity, and whether it counts as remote. */
  datatype Demand = Demand(qty: nat, remote: bool)

  /** What the first i lines of the record ask of stock row `key`, read off its parameters: supply warehouses
      from slot 20 on, items from 5, quantities from 35, and the row count in 51. */
  ghost function LineDemand(t: Txn, key: nat, i: nat): seq<Demand>
    requires t.Marshalled() && i <= 15
  {
    if i == 0 then []
    else
      LineDemand(t, key, i - 1)
      + (if (t.params[19 + i] as int - 1) * 100_000 + (t.params[4 + i] as int - 1) == key then [Demand(t.params[34 + i], t.params[51] == 1)] else [])
  }

  /** Everything the log orders of stock row `key`, in log order. */
  ghost function StockDemand(log: seq<Txn>, key: nat): seq<Demand>
    requires forall i | 0 <= i < |log| :: log[i].Marshalled()
  {
    if log == [] then []
    else
      var t := log[|log| - 1];
      assert t.Marshalled();
      StockDemand(log[..|log| - 1], key)
      + (if t.kind == 0 && 1 <= t.params[50] <= 15 then LineDemand(t, key, t.params[50]) else [])
  }

  ghost function Replay(s: Stock, ds: seq<Demand>): Stock {
    if ds == [] then s
    else var d := ds[|ds| - 1]; StockAfter(Replay(s, ds[..|ds| - 1]), d.qty, d.remote)
  }

  lemma {:induction false} ReplayConcat(s: Stock, a: seq<Demand>, b: seq<Demand>)
    ensures Replay(s, a + b) == Replay(Replay(s, a), b)
  {
    if b == [] {
      assert a + b == a;
    } else {
      assert (a + b)[..|a + b| - 1] == a + b[..|b| - 1];
      ReplayConcat(s, a, b[..|b| - 1]);
    }
  }

  lemma {:induction false} LinesReplay(db: Database, t: Txn, o: nat, i: nat, key: nat)
    requires Valid(db) && WellFormed(db.scale, t) && t.IsNewOrder() && i <= t.ItemNumber() && key < |db.stocks|
    ensures ProcessLines(db, t, o, i).stocks[key] == Replay(db.stocks[key], LineDemand(t, key, i))
  {
    if i > 0 {
      KeysInRange(ProcessLines(db, t, o, i - 1), t);
      LinesReplay(db, t, o, i - 1, key);
      OneLineReplay(ProcessLines(db, t, o, i - 1), t, o, i, key);
      RowNumbers(db.scale, t);
      var before := LineDemand(t, key, i - 1);
      if SKey(t, i) == key {
        ReplayOne(db.stocks[key], before, Demand(t.Qty(i), t.RowNumber() == 1));
      } else {
        assert before + [] == before;
      }
    }
  }

  lemma ReplayOne(s: Stock, ds: seq<Demand>, d: Demand)
    ensures Replay(s, ds + [d]) == StockAfter(Replay(s, ds), d.qty, d.remote)
  {
    assert (ds + [d])[..|ds|] == ds;
  }

  lemma OneLineReplay(db: Database, t: Txn, o: nat, i: nat, key: nat)
    requires Valid(db) && WellFormed(db.scale, t) && t.IsNewOrder() && 1 <= i <= t.ItemNumber() && key < |db.stocks|
    requires SKey(t, i) < |db.stocks| && IKey(t, i) < |db.items|
    ensures ProcessLine(db, t, o, i).stocks[key]
            == if SKey(t, i) == key then StockAfter(db.stocks[key], t.Qty(i), t.RowNumber() == 1) else db.stocks[key]
  {}

  lemma StockStep(db: Database, t: Txn, key: nat)
    requires Valid(db) && WellFormed(db.scale, t) && key < |db.stocks|
    ensures ExecTxn(db, t).stocks[key]
            == Replay(db.stocks[key], if t.IsNewOrder() then LineDemand(t, key, t.ItemNumber()) else [])
  {
    if t.IsNewOrder() {
      KeysInRange(db, t);
      var begun := TakeOrderId(AddToWarehouse(db, WKey(t), t.Amount()), DKey(t));
      LinesReplay(begun, t, db.districts[DKey(t)].d_next_o_id, t.ItemNumber(), key);
    }
  }

  /** Each stock row sees exactly its own demand, in log order. */
  lemma {:induction false} StockRowOverRuns(db: Database, log: seq<Txn>, key: nat)
    requires Valid(db) && WellFormedLog(db.scale, log) && key < |db.stocks|
    ensures ExecLog(db, log).stocks[key] == Replay(db.stocks[key], StockDemand(log, key))
  {
    if log != [] {
      var before, t := log[..|log| - 1], log[|log| - 1];
      StockRowOverRuns(db, before, key);
      StockStep(ExecLog(db, before), t, key);
      ReplayConcat(db.stocks[key], StockDemand(before, key),
                   if t.IsNewOrder() then LineDemand(t, key, t.ItemNumber()) else []);
    }
  }

  /** How often the quantity would have fallen below 10. */
  ghost function Restocks(s: Stock, ds: seq<Demand>): nat {
    if ds == [] then 0
    else
      var before := ds[..|ds| - 1];
      Restocks(s, before) + (if Replay(s, before).s_quantity - ds[|ds| - 1].qty < 10 then 1 else 0)
  }

  ghost function TotalQty(ds: seq<Demand>): nat {
    if ds == [] then 0 else TotalQty(ds[..|ds| - 1]) + ds[|ds| - 1].qty
  }

  ghost function RemoteLines(ds: seq<Demand>): nat {
    if ds == [] then 0 else RemoteLines(ds[..|ds| - 1]) + (if ds[|ds| - 1].remote then 1 else 0)
  }

  /** Section 2.4.2.2 of TPC-C 5.11.0: the quantity stays between 10 and 100 without wrapping, and what
      left the shelf plus what is on it is the initial quantity plus 91 for each restock. */
  lemma {:induction false} StockLaw(s: Stock, ds: seq<Demand>)
    requires 10 <= s.s_quantity <= 100
    requires forall i | 0 <= i < |ds| :: 1 <= ds[i].qty <= 10
    ensures var r := Replay(s, ds);
            && 10 <= r.s_quantity <= 100
            && r.s_quantity + r.s_ytd == s.s_quantity + s.s_ytd + 91 * Restocks(s, ds)
            && r.s_ytd == s.s_ytd + TotalQty(ds)
            && r.s_order_cnt == s.s_order_cnt + |ds|
            && r.s_remote_cnt == s.s_remote_cnt + RemoteLines(ds)
            && r.w_id == s.w_id && r.i_id == s.i_id
  {
    if ds != [] { StockLaw(s, ds[..|ds| - 1]); }
  }

  lemma {:induction false} DemandInRange(log: seq<Txn>, key: nat)
    requires forall i | 0 <= i < |log| :: log[i].Marshalled() && QuantitiesInRange(log[i])
    ensures forall i | 0 <= i < |StockDemand(log, key)| :: 1 <= StockDemand(log, key)[i].qty <= 10
  {
    if log != [] {
      DemandInRange(log[..|log| - 1], key);
      var t := log[|log| - 1];
      if t.IsNewOrder() { LineDemandInRange(t, key, t.ItemNumber()); }
    }
  }

  ghost predicate QuantitiesInRange(t: Txn)
    requires t.Marshalled()
  {
    t.IsNewOrder() ==> forall i: nat | 1 <= i <= t.ItemNumber() :: 1 <= t.Qty(i) <= 10
  }

  lemma {:induction false} LineDemandInRange(t: Txn, key: nat, i: nat)
    requires t.Marshalled() && t.IsNewOrder() && QuantitiesInRange(t) && i <= t.ItemNumber()
    ensures forall l | 0 <= l < |LineDemand(t, key, i)| :: 1 <= LineDemand(t, key, i)[l].qty <= 10
  {
    if i > 0 {
      LineDemandInRange(t, key, i - 1);
      assert t.Qty(i) == t.params[34 + i];
    }
  }

  lemma StockOverRuns(db: Database, log: seq<Txn>, key: nat)
    requires Valid(db) && WellFormedLog(db.scale, log) && key < |db.stocks|
    requires 10 <= db.stocks[key].s_quantity <= 100
    requires forall i | 0 <= i < |log| :: QuantitiesInRange(log[i])
    ensures var s, r := db.stocks[key], ExecLog(db, log).stocks[key];
            && 10 <= r.s_quantity <= 100
            && r.s_quantity + r.s_ytd == s.s_quantity + s.s_ytd + 91 * Restocks(s, StockDemand(log, key))
            && r.s_ytd == s.s_ytd + TotalQty(StockDemand(log, key))
            && r.s_order_cnt == s.s_order_cnt + |StockDemand(log, key)|
            && r.s_remote_cnt == s.s_remote_cnt + RemoteLines(StockDemand(log, key))
            && r.w_id == s.w_id && r.i_id == s.i_id
  {
    StockRowOverRuns(db, log, key);
    DemandInRange(log, key);
    StockLaw(db.stocks[key], StockDemand(log, key));
  }

  // ---------------------------------------------------------------------------
  // Balances
  // ---------------------------------------------------------------------------

  /** Sum of d_ytd over the first n districts of warehouse row wkey. */
  ghost function DistrictYtd(ds: seq<District>, wkey: nat, n: nat): nat
    requires n <= DISTRICTS_PER_WAREHOUSE && (wkey + 1) * DISTRICTS_PER_WAREHOUSE <= |ds|
  {
    if n == 0 then 0 else DistrictYtd(ds, wkey, n - 1) + ds[wkey * DISTRICTS_PER_WAREHOUSE + (n - 1)].d_ytd
  }

  lemma {:induction false} DistrictYtdUpdate(ds: seq<District>, wkey: nat, n: nat, g: nat, row: District)
    requires n <= DISTRICTS_PER_WAREHOUSE && (wkey + 1) * DISTRICTS_PER_WAREHOUSE <= |ds| && g < |ds|
    ensures DistrictYtd(ds[g := row], wkey, n)
            == DistrictYtd(ds, wkey, n)
               + (if wkey * DISTRICTS_PER_WAREHOUSE <= g < wkey * DISTRICTS_PER_WAREHOUSE + n then row.d_ytd - ds[g].d_ytd else 0)
  {
    if n > 0 { DistrictYtdUpdate(ds, wkey, n - 1, g, row); }
  }

  /** Amounts that NewOrder records carry for the warehouse; the generator writes 0. */
  ghost function NewOrderAmounts(log: seq<Txn>, wkey: nat): nat
    requires forall i | 0 <= i < |log| :: log[i].Marshalled()
  {
    if log == [] then 0
    else
      var t := log[|log| - 1];
      assert t.Marshalled();
      NewOrderAmounts(log[..|log| - 1], wkey)
      + (if t.kind == 0 && 1 <= t.params[50] <= 15 && t.params[0] as int - 1 == wkey then t.params[52] else 0)
  }

  ghost function YtdGap(db: Database, wkey: nat): int
    requires Valid(db) && wkey < db.scale
  {
    db.warehouses[wkey].w_ytd - DistrictYtd(db.districts, wkey, DISTRICTS_PER_WAREHOUSE)
  }

  lemma YtdStep(db: Database, t: Txn, wkey: nat)
    requires Valid(db) && WellFormed(db.scale, t) && wkey < db.scale
    ensures YtdGap(ExecTxn(db, t), wkey)
            == YtdGap(db, wkey) + (if t.IsNewOrder() && WKey(t) == wkey then t.Amount() else 0)
  {
    if t.IsNewOrder() || t.IsPayment() {
      KeysInRange(db, t);
      SmallKeys(db.scale, t.W(), t.D());
      var r := ExecTxn(db, t);
      var g := DKey(t);
      if t.IsNewOrder() {
        var begun := TakeOrderId(AddToWarehouse(db, WKey(t), t.Amount()), g);
        ProcessLinesFrame(begun, t, db.districts[g].d_next_o_id, t.ItemNumber());
      }
      assert r.districts == db.districts[g := r.districts[g]];
      DistrictYtdUpdate(db.districts, wkey, DISTRICTS_PER_WAREHOUSE, g, r.districts[g]);
    }
  }

  /** Section 3.3.2.1 of TPC-C 5.11.0 as a conserved difference: W_YTD minus the sum of its districts'
      D_YTD moves only by amounts that NewOrder records carry, so it is constant exactly when those
      sum to 0. */
  lemma {:induction false} YtdOverRuns(db: Database, log: seq<Txn>, wkey: nat)
    requires Valid(db) && WellFormedLog(db.scale, log) && wkey < db.scale
    ensures YtdGap(ExecLog(db, log), wkey) == YtdGap(db, wkey) + NewOrderAmounts(log, wkey)
  {
    if log != [] {
      YtdOverRuns(db, log[..|log| - 1], wkey);
      RowNumbers(db.scale, log[|log| - 1]);
      YtdStep(ExecLog(db, log[..|log| - 1]), log[|log| - 1], wkey);
    }
  }

  // Each balance by itself: what the log adds to a warehouse row and to a district row.

  /** Amounts of all NewOrder and Payment records that name warehouse row k. */
  ghost function WarehouseAmounts(log: seq<Txn>, k: nat): nat
    requires forall i | 0 <= i < |log| :: log[i].Marshalled()
  {
    if log == [] then 0
    else
      var t := log[|log| - 1];
      assert t.Marshalled();
      WarehouseAmounts(log[..|log| - 1], k)
      + (if ((t.kind == 0 && 1 <= t.params[50] <= 15) || t.kind == 1) && t.params[0] as int - 1 == k then t.params[52] else 0)
  }

  /** Amounts of the Payment records that name district row g. */
  ghost function DistrictAmounts(log: seq<Txn>, g: nat): nat
    requires forall i | 0 <= i < |log| :: log[i].Marshalled()
  {
    if log == [] then 0
    else
      var t := log[|log| - 1];
      assert t.Marshalled();
      DistrictAmounts(log[..|log| - 1], g)
      + (if t.kind == 1 && (t.params[0] as int - 1) * 10 + (t.params[1] as int - 1) == g then t.params[52] else 0)
  }

  lemma YtdRowStep(db: Database, t: Txn)
    requires Valid(db) && WellFormed(db.scale, t)
    ensures var r := ExecTxn(db, t);
            && (forall k: nat | k < |db.warehouses| ::
                  r.warehouses[k] == db.warehouses[k].(w_ytd := db.warehouses[k].w_ytd
                                                               + (if (t.IsNewOrder() || t.IsPayment()) && WKey(t) == k then t.Amount() else 0)))
            && (forall g: nat | g < |db.districts| ::
                  r.districts[g] == db.districts[g].(d_ytd := db.districts[g].d_ytd + (if t.IsPayment() && DKey(t) == g then t.Amount() else 0),
                                                     d_next_o_id := db.districts[g].d_next_o_id + (if t.IsNewOrder() && DKey(t) == g then 1 else 0)))
            && r.items == db.items
  {
    if t.IsNewOrder() {
      KeysInRange(db, t);
      var begun := TakeOrderId(AddToWarehouse(db, WKey(t), t.Amount()), DKey(t));
      ProcessLinesFrame(begun, t, db.districts[DKey(t)].d_next_o_id, t.ItemNumber());
    } else if t.IsPayment() {
      KeysInRange(db, t);
    }
  }

  /** Over every log, w_ytd and d_ytd grow by exactly those amounts, the next order id by the district's new
      orders, and nothing else in these rows, nor any item, changes. */
  lemma {:induction false} YtdRowsOverRuns(db: Database, log: seq<Txn>, k: nat, g: nat)
    requires Valid(db) && WellFormedLog(db.scale, log) && k < |db.warehouses| && g < |db.districts|
    ensures var r := ExecLog(db, log);
            && r.warehouses[k] == db.warehouses[k].(w_ytd := db.warehouses[k].w_ytd + WarehouseAmounts(log, k))
            && r.districts[g] == db.districts[g].(d_ytd := db.districts[g].d_ytd + DistrictAmounts(log, g),
                                                  d_next_o_id := db.districts[g].d_next_o_id + LogOrders(log, g))
            && r.items == db.items
  {
    if log != [] {
      var before, t := log[..|log| - 1], log[|log| - 1];
      YtdRowsOverRuns(db, before, k, g);
      RowNumbers(db.scale, t);
      YtdRowStep(ExecLog(db, before), t);
      if t.IsNewOrder() { SmallKeys(db.scale, t.W(), t.D()); }
    }
  }

  /** Payments the log makes for customer row ckey. */
  ghost function Payments(log: seq<Txn>, ckey: nat): seq<nat>
    requires forall i | 0 <= i < |log| :: log[i].Marshalled()
  {
    if log == [] then []
    else
      var t := log[|log| - 1];
      assert t.Marshalled();
      Payments(log[..|log| - 1], ckey)
      + (if t.kind == 1 && ((t.params[0] as int - 1) * 10 + (t.params[1] as int - 1)) * 3000 + (t.params[2] as int - 1) == ckey then [t.params[52]] else [])
  }

  lemma CustomerStep(db: Database, t: Txn, ckey: nat)
    requires Valid(db) && WellFormed(db.scale, t) && ckey < |db.customers|
    ensures ExecTxn(db, t).customers[ckey]
            == if t.IsPayment() && CKey(t) == ckey then CustomerAfter(db.customers[ckey], t.Amount()) else db.customers[ckey]
  {
    if t.IsNewOrder() {
      KeysInRange(db, t);
      var begun := TakeOrderId(AddToWarehouse(db, WKey(t), t.Amount()), DKey(t));
      ProcessLinesFrame(begun, t, db.districts[DKey(t)].d_next_o_id, t.ItemNumber());
    } else if t.IsPayment() {
      KeysInRange(db, t);
    }
  }

  /** What a customer paid left the balance: the two always cancel. */
  lemma {:induction false} CustomerOverRuns(db: Database, log: seq<Txn>, ckey: nat)
    requires Valid(db) && WellFormedLog(db.scale, log) && ckey < |db.customers|
    ensures var c, r := db.customers[ckey], ExecLog(db, log).customers[ckey];
            && r.c_balance + r.c_ytd_payment == c.c_balance + c.c_ytd_payment
            && r.c_ytd_payment == c.c_ytd_payment + Sum(Payments(log, ckey))
            && r.c_payment_cnt == c.c_payment_cnt + |Payments(log, ckey)|
            && r.w_id == c.w_id && r.d_id == c.d_id && r.c_id == c.c_id
  {
    if log != [] {
      var before, t := log[..|log| - 1], log[|log| - 1];
      CustomerOverRuns(db, before, ckey);
      RowNumbers(db.scale, t);
      CustomerStep(ExecLog(db, before), t, ckey);
      var ps := Payments(before, ckey);
      assert (ps + [t.Amount()])[..|ps|] == ps && ps + [] == ps;
    }
  }

  // ---------------------------------------------------------------------------
  // Every quiescent state of every permitted execution
  // ---------------------------------------------------------------------------

  /** No behaviour is half way: each has finished or not started. */
  ghost predicate Quiescent(w: Workload<Store>, p: seq<nat>)
    requires |p| == w.n
  {
    forall k | 0 <= k < w.n :: p[k] == 0 || p[k] == w.len(k)
  }

  /** Those of the first j behaviours that have run. */
  ghost function Done(bs: seq<Behaviour>, p: seq<nat>, j: nat): seq<Behaviour>
    requires j <= |bs| == |p|
  {
    if j == 0 then [] else Done(bs, p, j - 1) + (if p[j - 1] > 0 then [bs[j - 1]] else [])
  }

  lemma {:induction false} DoneAreBehaviours(scale: nat, bs: seq<Behaviour>, p: seq<nat>, j: nat)
    requires AllBehaviours(scale, bs) && j <= |bs| == |p|
    ensures AllBehaviours(scale, Done(bs, p, j))
    ensures forall g :: OrdersOn(Done(bs, p, j), g) <= OrdersOn(bs[..j], g)
  {
    if j > 0 {
      DoneAreBehaviours(scale, bs, p, j - 1);
      assert bs[..j][..j - 1] == bs[..j - 1];
      var done, b := Done(bs, p, j - 1), bs[j - 1];
      assert (done + [b])[..|done|] == done && done + [] == done;
    }
  }

  lemma QuiescentStep(db: Database, w: Workload<Store>, k: nat, b: Behaviour, m: nat, st: Store, done: seq<Behaviour>)
    requires Valid(db) && IsBehaviour(db.scale, b) && Runs(w, k, b) && (m == 0 || m == Steps(b))
    requires AllBehaviours(db.scale, done) && st.db == ExecAll(db, done)
    ensures var done' := done + (if m > 0 then [b] else []);
            AllBehaviours(db.scale, done') && RunSteps(w, k, m, st).db == ExecAll(db, done')
  {
    if m > 0 {
      BehaviourRun(w, b, k, st);
      ExecAllOne(db, done, b);
    } else {
      assert done + [] == done;
    }
  }

  lemma {:induction false} QuiescentInOrder(db: Database, bs: seq<Behaviour>, w: Workload<Store>, p: seq<nat>, j: nat)
    requires Valid(db) && AllBehaviours(db.scale, bs) && j <= |bs| == |p|
    requires forall k | 0 <= k < |bs| :: p[k] == 0 || p[k] == Steps(bs[k])
    requires w.init.db == db && forall k: nat | k < |bs| :: Runs(w, k, bs[k])
    ensures AllBehaviours(db.scale, Done(bs, p, j))
    ensures InOrder(w, p, j).db == ExecAll(db, Done(bs, p, j))
  {
    if j > 0 {
      QuiescentInOrder(db, bs, w, p, j - 1);
      var k, st, done := j - 1, InOrder(w, p, j - 1), Done(bs, p, j - 1);
      assert InOrder(w, p, j) == RunSteps(w, k, p[k], st);
      assert Done(bs, p, j) == done + (if p[k] > 0 then [bs[k]] else []);
      QuiescentStep(db, w, k, bs[k], p[k], st, done);
    }
  }

  /** In every quiescent state of every permitted execution, joint or split, finished or not, the database is
      what the finished behaviours give when run one after another in spawn order. */
  lemma QuiescentStatesAreSerial(db: Database, split: bool, bs: seq<Behaviour>, sched: seq<nat>)
    requires Loaded(db) && AllBehaviours(db.scale, bs) && WithinBudget(db.scale, split, bs)
    requires var w := Load(db, bs); Permitted(w, sched) && Quiescent(w, After(w, sched).progress)
    ensures var c := After(Load(db, bs), sched);
            var done := Done(bs, c.progress, |bs|);
            AllBehaviours(db.scale, done) && c.store.db == ExecAll(db, done)
  {
    TpccIndependent(db, split, bs);
    EveryStateIsLogOrder(Load(db, bs), sched);
    var w := Load(db, bs);
    assert forall k: nat | k < |bs| :: Runs(w, k, bs[k]);
    QuiescentInOrder(db, bs, w, After(w, sched).progress, |bs|);
  }

  function Records(bs: seq<Behaviour>): (log: seq<Txn>)
    ensures |log| == |bs| && forall i | 0 <= i < |bs| :: log[i] == bs[i].t
  {
    seq(|bs|, i requires 0 <= i < |bs| => bs[i].t)
  }

  /** In the joint form a behaviour is its whole record, so those states are serial execution of the records. */
  lemma {:induction false} JointRunsAreRecords(db: Database, bs: seq<Behaviour>)
    requires Valid(db) && AllBehaviours(db.scale, bs) && forall k | 0 <= k < |bs| :: !bs[k].WarehouseB? && bs[k].joint
    ensures WellFormedLog(db.scale, Records(bs)) && ExecAll(db, bs) == ExecLog(db, Records(bs))
  {
    if bs != [] {
      JointRunsAreRecords(db, bs[..|bs| - 1]);
      assert Records(bs)[..|bs| - 1] == Records(bs[..|bs| - 1]);
    }
  }

  /** The order-id law at every quiescent point of every permitted execution, joint or split. */
  lemma OrderIdsAtEveryQuiescentState(db: Database, split: bool, bs: seq<Behaviour>, sched: seq<nat>)
    requires Loaded(db) && OrderIdsExact(db) && AllBehaviours(db.scale, bs)
    requires split || forall k | 0 <= k < |bs| && bs[k].NewOrderB? :: bs[k].joint
    requires forall g | 0 <= g < DistrictCount(db.scale) :: OrdersOn(bs, g) <= MAX_ORDER_TRANSACTIONS
    requires var w := Load(db, bs); Permitted(w, sched) && Quiescent(w, After(w, sched).progress)
    ensures OrderIdsExact(After(Load(db, bs), sched).store.db)
  {
    UniformBudget(db.scale, split, Counts(db.scale, bs));
    QuiescentStatesAreSerial(db, split, bs, sched);
    var p := After(Load(db, bs), sched).progress;
    var done := Done(bs, p, |bs|);
    DoneAreBehaviours(db.scale, bs, p, |bs|);
    assert bs[..|bs|] == bs;
    forall g | 0 <= g < DistrictCount(db.scale) ensures OrdersOn(done, g) <= MAX_ORDER_TRANSACTIONS {
      assert OrdersOn(done, g) <= OrdersOn(bs, g);
    }
    OrderIdsOverBehaviours(db, done);
  }
}
