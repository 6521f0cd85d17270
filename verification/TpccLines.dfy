/** The order-line table over whole runs: every line of every new order is in the slot its key names, with
    the ids, quantity and amount of that line, and no other slot has changed. */
module TpccLines {
  import opened Common
  import opened TpccKeys
  import opened TpccBudget
  import opened Tpcc
  import opened TpccRun
  import opened TpccDeterminism
  import opened TpccConsistency
  import opened TpccBound
  import opened Runtime

  /** The order id that record i of the log is given on a loaded database. */
  ghost function OrderIdOf(log: seq<Txn>, i: nat): nat
    requires i < |log| && forall k | 0 <= k < |log| :: log[k].Marshalled()
  {
    INITIAL_NEXT_O_ID + LogOrders(log[..i], log[i].G())
  }

  ghost predicate IsLine(t: Txn, n: nat) { t.Marshalled() && t.IsNewOrder() && 1 <= n <= t.ItemNumber() }

  /** Line n of order o of record t: who ordered what, how much of it, from where, and for how much. */
  ghost predicate HasLine(lines: Table<OrderLine>, t: Txn, o: nat, n: nat, amount: int)
    requires IsLine(t, n)
  {
    var key := NewLineKey(t.W(), t.D(), o, n);
    && key in lines.rows
    && var row := lines.rows[key];
       && row.w_id == t.W() && row.d_id == t.D() && row.number == n
       && row.o_id == OrderKey(t.W(), t.D(), o)
       && row.i_id == t.params[4 + n] && row.supply_w_id == t.params[19 + n] && row.quantity == t.params[34 + n]
       && row.amount == amount
  }

  // ---------------------------------------------------------------------------
  // One new order
  // ---------------------------------------------------------------------------

  /** Adding line i puts it in its slot and leaves the others. */
  lemma OneLine(d: Database, t: Txn, o: nat, i: nat, key: nat)
    requires IsLine(t, i) && SKey(t, i) < |d.stocks| && IKey(t, i) < |d.items|
    requires d.orderLines.cnt < TSizeOrderLine(d.scale)
    ensures HasLine(ProcessLine(d, t, o, i).orderLines, t, o, i, LineAmount(d.items[IKey(t, i)].i_price, t.Qty(i)))
    ensures key != NewLineKey(t.W(), t.D(), o, i) ==> SameSlot(ProcessLine(d, t, o, i).orderLines, d.orderLines, key)
  {
    var lines := ProcessLine(d, t, o, i).orderLines;
    assert lines.rows[NewLineKey(t.W(), t.D(), o, i)] == LineRow(t, o, i, d.items[IKey(t, i)].i_price);
  }

  lemma HasLineKept(a: Table<OrderLine>, b: Table<OrderLine>, t: Txn, o: nat, n: nat, amount: int)
    requires IsLine(t, n) && HasLine(a, t, o, n, amount) && SameSlot(b, a, NewLineKey(t.W(), t.D(), o, n))
    ensures HasLine(b, t, o, n, amount)
  {}

  lemma {:induction false} LinesAdded(db: Database, t: Txn, o: nat, i: nat, n: nat, amount: int)
    requires Valid(db) && WellFormed(db.scale, t) && t.IsNewOrder() && 1 <= n <= i <= t.ItemNumber()
    requires INITIAL_NEXT_O_ID <= o && KeyFits(t.W(), t.D(), o) && db.orderLines.cnt + i <= TSizeOrderLine(db.scale)
    requires IKey(t, n) < |db.items| && amount == LineAmount(db.items[IKey(t, n)].i_price, t.Qty(n))
    ensures HasLine(ProcessLines(db, t, o, i).orderLines, t, o, n, amount)
  {
    var d := ProcessLines(db, t, o, i - 1);
    ProcessLinesFrame(db, t, o, i - 1);
    KeysInRange(d, t);
    OneLine(d, t, o, i, NewLineKey(t.W(), t.D(), o, n));
    if n < i {
      LinesAdded(db, t, o, i - 1, n, amount);
      NewLinesMeet(db.scale, t.W(), t.D(), o, n, t.W(), t.D(), o, i);
      HasLineKept(d.orderLines, ProcessLines(db, t, o, i).orderLines, t, o, n, amount);
    }
  }

  /** The slot belongs to none of the first i lines of order o. */
  ghost predicate Clear(t: Txn, o: nat, i: nat, key: nat)
    requires t.Marshalled()
  {
    forall n: nat | 1 <= n <= i :: key != NewLineKey(t.W(), t.D(), o, n)
  }

  lemma {:induction false} LinesKept(db: Database, t: Txn, o: nat, i: nat, key: nat)
    requires Valid(db) && WellFormed(db.scale, t) && t.IsNewOrder() && i <= t.ItemNumber()
    requires Clear(t, o, i, key)
    ensures SameSlot(ProcessLines(db, t, o, i).orderLines, db.orderLines, key)
  {
    if i > 0 {
      LinesKept(db, t, o, i - 1, key);
      assert key != NewLineKey(t.W(), t.D(), o, i);
    }
  }

  ghost predicate SameSlot<R>(a: Table<R>, b: Table<R>, key: nat) {
    (key in a.rows <==> key in b.rows) && (key in a.rows ==> a.rows[key] == b.rows[key])
  }

  /** What a record does to the order lines: nothing, or the lines of one order under the district's next id. */
  lemma ExecTxnLines(db: Database, t: Txn)
    requires Valid(db) && WellFormed(db.scale, t)
    ensures var r := ExecTxn(db, t);
            && r.items == db.items
            && (!t.IsNewOrder() ==> r.orderLines == db.orderLines)
            && (t.IsNewOrder() ==>
                  && 0 <= t.G() < |db.districts|
                  && var begun := TakeOrderId(AddToWarehouse(db, WKey(t), t.Amount()), t.G());
                     var o := db.districts[t.G()].d_next_o_id;
                     && begun.items == db.items && begun.orderLines == db.orderLines && Valid(begun) && begun.scale == db.scale
                     && r.orderLines == ProcessLines(begun, t, o, t.ItemNumber()).orderLines
                     && r.orderLines.cnt <= db.orderLines.cnt + t.ItemNumber())
  {
    if t.IsNewOrder() {
      KeysInRange(db, t);
      var begun := TakeOrderId(AddToWarehouse(db, WKey(t), t.Amount()), t.G());
      ProcessLinesFrame(begun, t, db.districts[t.G()].d_next_o_id, t.ItemNumber());
    } else if t.IsPayment() {
      KeysInRange(db, t);
    }
  }

  // ---------------------------------------------------------------------------
  // Room
  // ---------------------------------------------------------------------------

  lemma {:induction false} LineCountOverRuns(db: Database, log: seq<Txn>)
    requires Valid(db) && WellFormedLog(db.scale, log)
    ensures ExecLog(db, log).orderLines.cnt <= db.orderLines.cnt + LINES_PER_ORDER * NewOrders(log)
    ensures ExecLog(db, log).items == db.items
  {
    if log != [] {
      var before := log[..|log| - 1];
      LineCountOverRuns(db, before);
      ExecTxnLines(ExecLog(db, before), log[|log| - 1]);
    }
  }

  /** The tables have room for the log's new orders. */
  ghost predicate LogFits(scale: nat, log: seq<Txn>)
    requires WellFormedLog(scale, log)
  {
    Fit(scale, LogCounts(scale, log))
  }

  lemma LinesHaveRoom(db: Database, log: seq<Txn>)
    requires Loaded(db) && WellFormedLog(db.scale, log) && LogFits(db.scale, log)
    ensures ExecLog(db, log).orderLines.cnt + LINES_PER_ORDER <= TSizeOrderLine(db.scale)
  {
    LineCountOverRuns(db, log);
    NewOrdersByDistrict(db.scale, log);
  }

  /** All order lines of the log's new orders. */
  ghost function LogLines(log: seq<Txn>): nat
    requires forall i | 0 <= i < |log| :: log[i].Marshalled()
  {
    if log == [] then 0
    else
      var t := log[|log| - 1];
      assert t.Marshalled();
      LogLines(log[..|log| - 1]) + (if t.kind == 0 && 1 <= t.params[50] <= 15 then t.params[50] else 0)
  }

  lemma {:induction false} LinesThrowIff(db: Database, t: Txn, o: nat, i: nat)
    requires Valid(db) && WellFormed(db.scale, t) && t.IsNewOrder() && i <= t.ItemNumber() && db.orderLines.cnt <= TSizeOrderLine(db.scale)
    ensures var r, size := ProcessLines(db, t, o, i), TSizeOrderLine(db.scale);
            && r.orderLines.cnt == Min(size, db.orderLines.cnt + i)
            && (r.aborted <==> db.aborted || db.orderLines.cnt + i > size)
  {
    if i > 0 { LinesThrowIff(db, t, o, i - 1); }
  }

  /** The tables have been asked for n orders and as many new-orders, and l lines, since db. */
  ghost predicate AskedFor(db: Database, r: Database, n: nat, l: nat) {
    && r.scale == db.scale
    && r.orders.cnt == Min(TSizeOrder(db.scale), db.orders.cnt + n)
    && r.newOrders.cnt == Min(TSizeNewOrder(db.scale), db.newOrders.cnt + n)
    && r.orderLines.cnt == Min(TSizeOrderLine(db.scale), db.orderLines.cnt + l)
    && (r.aborted <==> db.aborted || db.orders.cnt + n > TSizeOrder(db.scale)
                       || db.newOrders.cnt + n > TSizeNewOrder(db.scale) || db.orderLines.cnt + l > TSizeOrderLine(db.scale))
  }

  ghost predicate HasCounts(db: Database) {
    && db.orders.cnt <= TSizeOrder(db.scale) && db.newOrders.cnt <= TSizeNewOrder(db.scale)
    && db.orderLines.cnt <= TSizeOrderLine(db.scale)
  }

  lemma TxnThrowsIff(db: Database, t: Txn)
    requires Valid(db) && WellFormed(db.scale, t) && HasCounts(db)
    ensures AskedFor(db, ExecTxn(db, t), if t.IsNewOrder() then 1 else 0, if t.IsNewOrder() then t.ItemNumber() else 0)
  {
    if t.IsNewOrder() {
      KeysInRange(db, t);
      var begun := TakeOrderId(AddToWarehouse(db, WKey(t), t.Amount()), DKey(t));
      var o := db.districts[DKey(t)].d_next_o_id;
      ProcessLinesFrame(begun, t, o, t.ItemNumber());
      LinesThrowIff(begun, t, o, t.ItemNumber());
    } else if t.IsPayment() {
      KeysInRange(db, t);
    }
  }

  lemma AskedForMore(db: Database, q: Database, r: Database, n: nat, l: nat, n': nat, l': nat)
    requires HasCounts(db) && AskedFor(db, q, n, l) && AskedFor(q, r, n', l')
    ensures AskedFor(db, r, n + n', l + l')
  {
  }

  lemma OneMoreRecord(db: Database, q: Database, t: Txn, n: nat, l: nat)
    requires HasCounts(db) && Valid(q) && WellFormed(q.scale, t) && AskedFor(db, q, n, l)
    ensures AskedFor(db, ExecTxn(q, t), n + if t.IsNewOrder() then 1 else 0, l + if t.IsNewOrder() then t.ItemNumber() else 0)
  {
    TxnThrowsIff(q, t);
    AskedForMore(db, q, ExecTxn(q, t), n, l, if t.IsNewOrder() then 1 else 0, if t.IsNewOrder() then t.ItemNumber() else 0);
  }

  lemma LastRecord(db: Database, log: seq<Txn>)
    requires Valid(db) && WellFormedLog(db.scale, log) && log != []
    ensures var rest, t := log[..|log| - 1], log[|log| - 1];
            && WellFormed(db.scale, t) && WellFormedLog(db.scale, rest)
            && ExecLog(db, log) == ExecTxn(ExecLog(db, rest), t)
            && NewOrders(log) == NewOrders(rest) + (if t.IsNewOrder() then 1 else 0)
            && LogLines(log) == LogLines(rest) + (if t.IsNewOrder() then t.ItemNumber() else 0)
  {
  }

  lemma {:induction false} LogAskedFor(db: Database, log: seq<Txn>)
    requires Valid(db) && WellFormedLog(db.scale, log) && HasCounts(db)
    ensures AskedFor(db, ExecLog(db, log), NewOrders(log), LogLines(log))
  {
    if log != [] {
      var rest, t := log[..|log| - 1], log[|log| - 1];
      LastRecord(db, log);
      LogAskedFor(db, rest);
      OneMoreRecord(db, ExecLog(db, rest), t, NewOrders(rest), LogLines(rest));
    }
  }

  /** Tables count every insertion, and one throws during a log if and only if some table is asked for more rows
      than its size. */
  lemma ThrowsIff(db: Database, log: seq<Txn>)
    requires Valid(db) && WellFormedLog(db.scale, log) && !db.aborted && db.orders.cnt <= TSizeOrder(db.scale)
    requires db.newOrders.cnt <= TSizeNewOrder(db.scale) && db.orderLines.cnt <= TSizeOrderLine(db.scale)
    ensures var r := ExecLog(db, log);
            && r.orders.cnt == Min(TSizeOrder(db.scale), db.orders.cnt + NewOrders(log))
            && r.newOrders.cnt == Min(TSizeNewOrder(db.scale), db.newOrders.cnt + NewOrders(log))
            && r.orderLines.cnt == Min(TSizeOrderLine(db.scale), db.orderLines.cnt + LogLines(log))
            && (r.aborted <==> db.orders.cnt + NewOrders(log) > TSizeOrder(db.scale)
                               || db.newOrders.cnt + NewOrders(log) > TSizeNewOrder(db.scale)
                               || db.orderLines.cnt + LogLines(log) > TSizeOrderLine(db.scale))
  {
    LogAskedFor(db, log);
  }

  // ---------------------------------------------------------------------------
  // Whole runs
  // ---------------------------------------------------------------------------

  lemma {:induction false} LogOrdersGrow(log: seq<Txn>, i: nat)
    requires i < |log| && forall k | 0 <= k < |log| :: log[k].Marshalled()
    requires log[i].IsNewOrder()
    ensures LogOrders(log[..i], log[i].G()) < LogOrders(log, log[i].G())
  {
    if i < |log| - 1 {
      var before := log[..|log| - 1];
      assert before[..i] == log[..i] && before[i] == log[i];
      LogOrdersGrow(before, i);
    }
  }

  /** The id that a new order of the log is given is among those its district hands out. */
  lemma OrderIdInRange(db: Database, log: seq<Txn>, i: nat)
    requires Valid(db) && WellFormedLog(db.scale, log) && LogFits(db.scale, log) && i < |log| && log[i].IsNewOrder()
    ensures var t, o := log[i], OrderIdOf(log, i);
            && 0 <= t.G() < DistrictCount(db.scale) && KeyFits(t.W(), t.D(), o)
            && INITIAL_NEXT_O_ID <= o <= INITIAL_ORDERS_PER_DISTRICT + LogOrders(log, t.G())
  {
    var g := log[i].G();
    SmallKeys(db.scale, log[i].W(), log[i].D());
    LogOrdersGrow(log, i);
    assert SlotsFit(db.scale, g, LogCounts(db.scale, log)[g]);
  }

  /** The slot of line n of record i. */
  ghost function LineSlot(log: seq<Txn>, i: nat, n: nat): nat
    requires i < |log| && forall k | 0 <= k < |log| :: log[k].Marshalled()
  {
    NewLineKey(log[i].W(), log[i].D(), OrderIdOf(log, i), n)
  }

  /** The slot is that of one of the lines of record i. */
  ghost predicate IsLineSlot(log: seq<Txn>, i: nat, key: nat)
    requires i < |log| && forall k | 0 <= k < |log| :: log[k].Marshalled()
  {
    log[i].IsNewOrder() && !Clear(log[i], OrderIdOf(log, i), log[i].ItemNumber(), key)
  }

  /** Exactly when a line of record j goes to the slot of line n of record i. */
  lemma SharesSlotIff(db: Database, log: seq<Txn>, i: nat, j: nat, n: nat)
    requires Valid(db) && WellFormedLog(db.scale, log) && LogFits(db.scale, log) && i < |log| && j < |log| && IsLine(log[i], n)
    ensures IsLineSlot(log, j, LineSlot(log, i, n))
            <==> IsLine(log[j], n) && OrderIdOf(log, i) - OrderIdOf(log, j) == 2 * ORDERS_PER_DISTRICT * (log[j].G() - log[i].G())
  {
    if log[j].IsNewOrder() {
      var t, u := log[i], log[j];
      var o: int, v: int := OrderIdOf(log, i), OrderIdOf(log, j);
      OrderIdInRange(db, log, i);
      OrderIdInRange(db, log, j);
      var key, meets := LineSlot(log, i, n), o - v == 2 * ORDERS_PER_DISTRICT * (u.G() - t.G());
      forall m: nat | 1 <= m <= u.ItemNumber() ensures key == NewLineKey(u.W(), u.D(), v, m) <==> m == n && meets {
        NewLinesMeet(db.scale, t.W(), t.D(), o, n, u.W(), u.D(), v, m);
      }
      if IsLine(u, n) && meets {
        assert NewLineKey(u.W(), u.D(), v, n) == key;
        assert !Clear(u, v, u.ItemNumber(), key);
      } else {
        assert Clear(u, v, u.ItemNumber(), key);
      }
    }
  }

  /** Orders of one district have ids in log order. */
  lemma LaterIdIsHigher(log: seq<Txn>, i: nat, j: nat)
    requires i < j < |log| && forall k | 0 <= k < |log| :: log[k].Marshalled()
    requires log[i].IsNewOrder() && log[i].G() == log[j].G()
    ensures OrderIdOf(log, i) < OrderIdOf(log, j)
  {
    assert log[..j][..i] == log[..i];
    LogOrdersGrow(log[..j], i);
  }

  /** While the districts' lines keep apart, two new orders of a log never share a line slot. */
  lemma LaterOrdersClear(db: Database, log: seq<Txn>, i: nat, j: nat, n: nat)
    requires Valid(db) && WellFormedLog(db.scale, log) && LogFits(db.scale, log) && LinesClearOf(LogCounts(db.scale, log))
    requires i < j < |log| && IsLine(log[i], n)
    ensures !IsLineSlot(log, j, LineSlot(log, i, n))
  {
    SharesSlotIff(db, log, i, j, n);
    if log[j].IsNewOrder() {
      OrderIdInRange(db, log, i);
      OrderIdInRange(db, log, j);
      var g, h, counts := log[i].G(), log[j].G(), LogCounts(db.scale, log);
      assert counts[g] == LogOrders(log, g) > 0 && counts[h] == LogOrders(log, h) > 0 by {
        LogOrdersGrow(log, i);
        LogOrdersGrow(log, j);
      }
      if g == h { LaterIdIsHigher(log, i, j); }
    }
  }

  /** Record k runs on the state of the first k, and its order gets the id that OrderIdOf says. */
  lemma RecordRuns(db: Database, log: seq<Txn>, k: nat)
    requires Loaded(db) && WellFormedLog(db.scale, log) && k < |log|
    ensures ExecLog(db, log[..k + 1]) == ExecTxn(ExecLog(db, log[..k]), log[k])
    ensures log[k].IsNewOrder() ==>
              && 0 <= log[k].G() < |db.districts|
              && ExecLog(db, log[..k]).districts[log[k].G()].d_next_o_id == OrderIdOf(log, k)
  {
    assert log[..k + 1][..k] == log[..k];
    if log[k].IsNewOrder() {
      SmallKeys(db.scale, log[k].W(), log[k].D());
      CountersOverRuns(db, log[..k], log[k].G());
    }
  }

  ghost function LinesAfter(db: Database, log: seq<Txn>, k: nat): Table<OrderLine>
    requires Valid(db) && WellFormedLog(db.scale, log) && k <= |log|
  {
    ExecLog(db, log[..k]).orderLines
  }

  /** Record k leaves every slot but its own lines'. */
  lemma SlotKept(db: Database, log: seq<Txn>, k: nat, key: nat)
    requires Loaded(db) && WellFormedLog(db.scale, log) && k < |log| && !IsLineSlot(log, k, key)
    ensures SameSlot(LinesAfter(db, log, k + 1), LinesAfter(db, log, k), key)
  {
    var t, d := log[k], ExecLog(db, log[..k]);
    RecordRuns(db, log, k);
    ExecTxnLines(d, t);
    if t.IsNewOrder() {
      LinesKept(TakeOrderId(AddToWarehouse(d, WKey(t), t.Amount()), t.G()), t, OrderIdOf(log, k), t.ItemNumber(), key);
    }
  }

  /** Record i puts its lines in their slots. */
  lemma LineAdded(db: Database, log: seq<Txn>, i: nat, n: nat, amount: int)
    requires Loaded(db) && WellFormedLog(db.scale, log) && LogFits(db.scale, log)
    requires i < |log| && IsLine(log[i], n) && IKey(log[i], n) < |db.items|
    requires amount == LineAmount(db.items[IKey(log[i], n)].i_price, log[i].Qty(n))
    ensures HasLine(LinesAfter(db, log, i + 1), log[i], OrderIdOf(log, i), n, amount)
  {
    var before, t := log[..i], log[i];
    CountsPrefix(db.scale, log, i);
    BelowFits(db.scale, LogCounts(db.scale, before), LogCounts(db.scale, log));
    LineCountOverRuns(db, before);
    LinesHaveRoom(db, before);
    OrderIdInRange(db, log, i);
    RecordRuns(db, log, i);
    var d := ExecLog(db, before);
    ExecTxnLines(d, t);
    LinesAdded(TakeOrderId(AddToWarehouse(d, WKey(t), t.Amount()), t.G()), t, OrderIdOf(log, i), t.ItemNumber(), n, amount);
  }

  lemma {:induction false} SlotKeptFrom(db: Database, log: seq<Txn>, from: nat, key: nat, k: nat)
    requires Loaded(db) && WellFormedLog(db.scale, log) && from <= k <= |log|
    requires forall j: nat | from <= j < |log| :: !IsLineSlot(log, j, key)
    ensures SameSlot(LinesAfter(db, log, k), LinesAfter(db, log, from), key)
  {
    if from < k {
      SlotKeptFrom(db, log, from, key, k - 1);
      SlotKept(db, log, k - 1, key);
    }
  }

  /** Line n of record i is in its slot at the end of the run: the record's warehouse, district, item, supply
      warehouse and quantity, and the item's price times the quantity, rounded down. */
  ghost predicate LineIsThere(db: Database, log: seq<Txn>, i: nat, n: nat)
    requires Valid(db) && WellFormedLog(db.scale, log) && i < |log| && IsLine(log[i], n)
  {
    var t, lines := log[i], ExecLog(db, log).orderLines;
    var key := LineSlot(log, i, n);
    && key in lines.rows
    && var row := lines.rows[key];
       && row.w_id == t.params[0] && row.d_id == t.params[1] && row.number == n
       && row.o_id == OrderKey(t.params[0], t.params[1], OrderIdOf(log, i))
       && row.i_id == t.params[4 + n] && row.supply_w_id == t.params[19 + n] && row.quantity == t.params[34 + n]
       && 1 <= t.params[4 + n] <= |db.items|
       && IsAmount(row.amount, db.items[t.params[4 + n] - 1].i_price, t.params[34 + n])
  }

  /** The whole part of price times quantity. */
  ghost predicate IsAmount(amount: int, price: real, qty: nat) {
    amount as real <= price * (qty as real) < (amount + 1) as real
  }

  lemma LineAmountIsAmount(amount: int, price: real, qty: nat)
    ensures IsAmount(amount, price, qty) <==> amount == LineAmount(price, qty)
  {}

  lemma LineIsThereAsRow(db: Database, log: seq<Txn>, i: nat, n: nat)
    requires Valid(db) && WellFormedLog(db.scale, log) && i < |log| && IsLine(log[i], n)
    ensures IKey(log[i], n) < |db.items|
    ensures LineIsThere(db, log, i, n)
            <==> HasLine(ExecLog(db, log).orderLines, log[i], OrderIdOf(log, i), n,
                         LineAmount(db.items[IKey(log[i], n)].i_price, log[i].Qty(n)))
  {
    KeysInRange(db, log[i]);
    RowNumbers(db.scale, log[i]);
    var lines, key := ExecLog(db, log).orderLines, LineSlot(log, i, n);
    assert log[i].Qty(n) == log[i].params[34 + n];
    if key in lines.rows { LineAmountIsAmount(lines.rows[key].amount, db.items[IKey(log[i], n)].i_price, log[i].params[34 + n]); }
  }

  lemma UncoveredIsThere(db: Database, log: seq<Txn>, i: nat, n: nat)
    requires Loaded(db) && WellFormedLog(db.scale, log) && LogFits(db.scale, log) && i < |log| && IsLine(log[i], n)
    requires forall j: nat | i < j < |log| :: !IsLineSlot(log, j, LineSlot(log, i, n))
    ensures LineIsThere(db, log, i, n)
  {
    KeysInRange(db, log[i]);
    var amount := LineAmount(db.items[IKey(log[i], n)].i_price, log[i].Qty(n));
    LineAdded(db, log, i, n, amount);
    SlotKeptFrom(db, log, i + 1, LineSlot(log, i, n), |log|);
    assert log[..|log|] == log;
    HasLineKept(LinesAfter(db, log, i + 1), ExecLog(db, log).orderLines, log[i], OrderIdOf(log, i), n, amount);
    LineIsThereAsRow(db, log, i, n);
  }

  /** The last record with a line in the slot. */
  lemma {:induction false} LastCover(log: seq<Txn>, j: nat, key: nat) returns (k: nat)
    requires (forall i | 0 <= i < |log| :: log[i].Marshalled()) && j < |log| && IsLineSlot(log, j, key)
    ensures j <= k < |log| && IsLineSlot(log, k, key) && forall l: nat | k < l < |log| :: !IsLineSlot(log, l, key)
    decreases |log| - j
  {
    if l: nat :| j < l < |log| && IsLineSlot(log, l, key) {
      k := LastCover(log, l, key);
    } else {
      k := j;
    }
  }

  /** Exactly when a line stays: no later order has a line in its slot. */
  lemma LineIsThereIff(db: Database, log: seq<Txn>, i: nat, n: nat)
    requires Loaded(db) && WellFormedLog(db.scale, log) && LogFits(db.scale, log) && i < |log| && IsLine(log[i], n)
    ensures LineIsThere(db, log, i, n) <==> forall j: nat | i < j < |log| :: !IsLineSlot(log, j, LineSlot(log, i, n))
  {
    if j: nat :| i < j < |log| && IsLineSlot(log, j, LineSlot(log, i, n)) {
      CoveredIsGone(db, log, i, n, j);
    } else {
      UncoveredIsThere(db, log, i, n);
    }
  }

  lemma CoveredIsGone(db: Database, log: seq<Txn>, i: nat, n: nat, j: nat)
    requires Loaded(db) && WellFormedLog(db.scale, log) && LogFits(db.scale, log) && i < j < |log| && IsLine(log[i], n)
    requires IsLineSlot(log, j, LineSlot(log, i, n))
    ensures !LineIsThere(db, log, i, n)
  {
    var key := LineSlot(log, i, n);
    var k := LastCover(log, j, key);
    SharesSlotIff(db, log, i, k, n);
    if log[i].G() == log[k].G() { LaterIdIsHigher(log, i, k); }
    OrderIdInRange(db, log, i);
    OrderIdInRange(db, log, k);
    var m: nat :| 1 <= m <= log[k].ItemNumber() && key == NewLineKey(log[k].W(), log[k].D(), OrderIdOf(log, k), m);
    assert LineSlot(log, k, m) == key && IsLine(log[k], m);
    UncoveredIsThere(db, log, k, m);
  }

  ghost predicate AllLinesThere(db: Database, log: seq<Txn>)
    requires Valid(db) && WellFormedLog(db.scale, log)
  {
    forall i: nat, n: nat | i < |log| && IsLine(log[i], n) :: LineIsThere(db, log, i, n)
  }

  /** While the districts' lines keep apart, every line of every new order stays. */
  lemma EveryLineIsKept(db: Database, log: seq<Txn>)
    requires Loaded(db) && WellFormedLog(db.scale, log) && LogFits(db.scale, log) && LinesClearOf(LogCounts(db.scale, log))
    ensures AllLinesThere(db, log)
  {
    forall i: nat, n: nat | i < |log| && IsLine(log[i], n) ensures LineIsThere(db, log, i, n) {
      forall j: nat | i < j < |log| ensures !IsLineSlot(log, j, LineSlot(log, i, n)) { LaterOrdersClear(db, log, i, j, n); }
      UncoveredIsThere(db, log, i, n);
    }
  }

  lemma {:induction false} LogOrdersConcat(a: seq<Txn>, b: seq<Txn>, g: int)
    requires (forall i | 0 <= i < |a| :: a[i].Marshalled()) && forall i | 0 <= i < |b| :: b[i].Marshalled()
    ensures LogOrders(a + b, g) == LogOrders(a, g) + LogOrders(b, g)
  {
    if b == [] {
      assert a + b == a;
    } else {
      assert (a + b)[..|a + b| - 1] == a + b[..|b| - 1];
      LogOrdersConcat(a, b[..|b| - 1], g);
    }
  }

  /** One order, then n + 1 like another. */
  function OneThenMany(u: Txn, t: Txn, n: nat): (log: seq<Txn>)
    ensures |log| == n + 2 && log[0] == u && forall i | 1 <= i < |log| :: log[i] == t
  {
    [u] + Copies(t, n + 1)
  }

  lemma OneThenManyCounts(u: Txn, t: Txn, n: nat, m: nat, x: int)
    requires t.Marshalled() && t.IsNewOrder() && u.Marshalled() && u.IsNewOrder() && 1 <= m <= n + 2
    ensures LogOrders(OneThenMany(u, t, n)[..m], x) == (if u.G() == x then 1 else 0) + (if t.G() == x then m - 1 else 0)
  {
    assert OneThenMany(u, t, n)[..m] == [u] + Copies(t, m - 1);
    LogOrdersConcat([u], Copies(t, m - 1), x);
    CopiesOrders(t, m - 1, x);
    assert LogOrders([u], x) == if u.G() == x then 1 else 0 by { assert [u][..0] == []; }
  }

  lemma OneThenManyIds(u: Txn, t: Txn, n: nat)
    requires t.Marshalled() && t.IsNewOrder() && u.Marshalled() && u.IsNewOrder() && t.G() != u.G()
    ensures var log := OneThenMany(u, t, n);
            OrderIdOf(log, 0) == INITIAL_NEXT_O_ID && OrderIdOf(log, n + 1) == INITIAL_NEXT_O_ID + n
  {
    var log := OneThenMany(u, t, n);
    OneThenManyCounts(u, t, n, n + 1, t.G());
    assert log[..0] == [];
  }

  /** One order of district h, then so many of district g that the last one's line lands on the first's. */
  function CoveringLog(g: nat, h: nat): (log: seq<Txn>)
    requires g < h
    ensures |log| == 2 * ORDERS_PER_DISTRICT * (h - g) + 2 && forall i | 0 <= i < |log| :: log[i].Marshalled()
  {
    OneThenMany(SampleFor(h, 2), SampleFor(g, 1), 2 * ORDERS_PER_DISTRICT * (h - g))
  }

  lemma CoveringMeets(g: nat, h: nat)
    requires g < h
    ensures var log := CoveringLog(g, h); var last := |log| - 1;
            && IsLine(log[0], 1) && IsLine(log[last], 1)
            && OrderIdOf(log, 0) - OrderIdOf(log, last) == 2 * ORDERS_PER_DISTRICT * (log[last].G() - log[0].G())
  {
    var t, u, n := SampleFor(g, 1), SampleFor(h, 2), 2 * ORDERS_PER_DISTRICT * (h - g);
    OneThenManyIds(u, t, n);
    assert CoveringLog(g, h) == OneThenMany(u, t, n);
  }

  /** If the ids of two orders of different districts make their first lines meet, the earlier line is lost. */
  lemma MeetingLosesALine(db: Database, log: seq<Txn>, i: nat, j: nat)
    requires Loaded(db) && WellFormedLog(db.scale, log) && LogFits(db.scale, log) && i < j < |log|
    requires IsLine(log[i], 1) && IsLine(log[j], 1)
    requires OrderIdOf(log, i) - OrderIdOf(log, j) == 2 * ORDERS_PER_DISTRICT * (log[j].G() - log[i].G())
    ensures !AllLinesThere(db, log)
  {
    SharesSlotIff(db, log, i, j, 1);
    CoveredIsGone(db, log, i, 1, j);
  }

  lemma CoveringLogIsBelow(scale: nat, n: seq<nat>, g: nat, h: nat)
    requires |n| == DistrictCount(scale) && g < h < |n| && n[h] > 0 && n[g] > 2 * ORDERS_PER_DISTRICT * (h - g)
    ensures WellFormedLog(scale, CoveringLog(g, h)) && Below(LogCounts(scale, CoveringLog(g, h)), n)
  {
    var log := CoveringLog(g, h);
    SampleIsWellFormed(scale, g, 1);
    SampleIsWellFormed(scale, h, 2);
    var counts := LogCounts(scale, log);
    forall x | 0 <= x < |n| ensures counts[x] <= n[x] {
      OneThenManyCounts(SampleFor(h, 2), SampleFor(g, 1), 2 * ORDERS_PER_DISTRICT * (h - g), |log|, x);
      assert log[..|log|] == log;
    }
  }

  lemma MeetingWithin(db: Database, n: seq<nat>, log: seq<Txn>, j: nat)
    requires Loaded(db) && Fit(db.scale, n) && WellFormedLog(db.scale, log) && Below(LogCounts(db.scale, log), n)
    requires 0 < j < |log| && IsLine(log[0], 1) && IsLine(log[j], 1)
    requires OrderIdOf(log, 0) - OrderIdOf(log, j) == 2 * ORDERS_PER_DISTRICT * (log[j].G() - log[0].G())
    ensures !AllLinesThere(db, log)
  {
    BelowFits(db.scale, LogCounts(db.scale, log), n);
    MeetingLosesALine(db, log, 0, j);
  }

  lemma CoveringLosesALine(db: Database, n: seq<nat>, g: nat, h: nat)
    requires Loaded(db) && Fit(db.scale, n) && g < h < |n|
    requires WellFormedLog(db.scale, CoveringLog(g, h)) && Below(LogCounts(db.scale, CoveringLog(g, h)), n)
    ensures !AllLinesThere(db, CoveringLog(g, h))
  {
    CoveringMeets(g, h);
    MeetingWithin(db, n, CoveringLog(g, h), |CoveringLog(g, h)| - 1);
  }

  /** All logs within given allowances keep all their lines if and only if no district may take more than 13680
      new orders for each district between it and one that may take any. */
  lemma LinesKeptIff(db: Database, n: seq<nat>)
    requires Loaded(db) && Fit(db.scale, n)
    ensures (forall log | WellFormedLog(db.scale, log) && Below(LogCounts(db.scale, log), n) :: AllLinesThere(db, log))
            <==> LinesClearOf(n)
  {
    if LinesClearOf(n) {
      forall log | WellFormedLog(db.scale, log) && Below(LogCounts(db.scale, log), n) ensures AllLinesThere(db, log) {
        BelowFits(db.scale, LogCounts(db.scale, log), n);
        BelowLinesClear(LogCounts(db.scale, log), n);
        EveryLineIsKept(db, log);
      }
    } else {
      var g, h :| 0 <= g < h < |n| && n[h] > 0 && n[g] > 2 * ORDERS_PER_DISTRICT * (h - g);
      CoveringLogIsBelow(db.scale, n, g, h);
      CoveringLosesALine(db, n, g, h);
    }
  }

  /** And nothing else has been written: a slot that no new order names holds what was loaded. */
  lemma OtherLinesUnchanged(db: Database, log: seq<Txn>, key: nat)
    requires Loaded(db) && WellFormedLog(db.scale, log)
    requires forall i: nat | i < |log| :: !IsLineSlot(log, i, key)
    ensures SameSlot(ExecLog(db, log).orderLines, db.orderLines, key)
  {
    SlotKeptFrom(db, log, 0, key, |log|);
    assert log[..0] == [] && log[..|log|] == log;
  }

  // ---------------------------------------------------------------------------
  // Which loaded lines survive
  // ---------------------------------------------------------------------------

  /** Record i's order, line n, goes where line n of loaded order o of district g is. */
  ghost predicate Covers(log: seq<Txn>, i: nat, g: nat, o: nat, n: nat)
    requires i < |log| && forall k | 0 <= k < |log| :: log[k].Marshalled()
  {
    IsLine(log[i], n) && OrderIdOf(log, i) - 1 - o == ORDERS_PER_DISTRICT * (g - 2 * log[i].G())
  }

  lemma CoversIsSlot(db: Database, log: seq<Txn>, i: nat, w: nat, d: nat, o: nat, n: nat)
    requires Loaded(db) && WellFormedLog(db.scale, log) && LogFits(db.scale, log) && i < |log|
    requires DistrictId(db.scale, w, d) && 1 <= o <= INITIAL_ORDERS_PER_DISTRICT && 1 <= n <= LINES_PER_ORDER
    ensures 0 <= GlobalDistrict(w, d)
    ensures IsLineSlot(log, i, OrderLineKey(w, d, o, n)) <==> Covers(log, i, GlobalDistrict(w, d), o, n)
    ensures Covers(log, i, GlobalDistrict(w, d), o, n) ==> LineSlot(log, i, n) == OrderLineKey(w, d, o, n)
  {
    SmallKeys(db.scale, w, d);
    if log[i].IsNewOrder() {
      var t, v := log[i], OrderIdOf(log, i);
      OrderIdInRange(db, log, i);
      var key, meets := OrderLineKey(w, d, o, n), v - 1 - o == ORDERS_PER_DISTRICT * (GlobalDistrict(w, d) - 2 * t.G());
      forall m: nat | 1 <= m <= t.ItemNumber() ensures NewLineKey(t.W(), t.D(), v, m) == key <==> m == n && meets {
        NewLineMeetsLoadedLine(db.scale, t.W(), t.D(), v, m, w, d, o, n);
      }
      if IsLine(t, n) && meets {
        assert NewLineKey(t.W(), t.D(), v, n) == key;
        assert !Clear(t, v, t.ItemNumber(), key);
      } else {
        assert Clear(t, v, t.ItemNumber(), key);
      }
    }
  }

  /** A loaded line is still there after the log, unless a new order's line covers its slot; then the last line
      that does is there instead. */
  lemma LoadedLineFate(db: Database, log: seq<Txn>, w: nat, d: nat, o: nat, n: nat)
    requires Loaded(db) && WellFormedLog(db.scale, log) && LogFits(db.scale, log)
    requires DistrictId(db.scale, w, d) && 1 <= o <= INITIAL_ORDERS_PER_DISTRICT && 1 <= n <= LINES_PER_ORDER
    ensures 0 <= GlobalDistrict(w, d)
    ensures (forall i: nat | i < |log| :: !Covers(log, i, GlobalDistrict(w, d), o, n))
            ==> SameSlot(ExecLog(db, log).orderLines, db.orderLines, OrderLineKey(w, d, o, n))
    ensures forall i: nat | i < |log| && Covers(log, i, GlobalDistrict(w, d), o, n)
                            && (forall j: nat | i < j < |log| :: !Covers(log, j, GlobalDistrict(w, d), o, n)) ::
              LineSlot(log, i, n) == OrderLineKey(w, d, o, n) && LineIsThere(db, log, i, n)
  {
    SmallKeys(db.scale, w, d);
    forall i: nat | i < |log|
      ensures IsLineSlot(log, i, OrderLineKey(w, d, o, n)) <==> Covers(log, i, GlobalDistrict(w, d), o, n)
      ensures Covers(log, i, GlobalDistrict(w, d), o, n) ==> LineSlot(log, i, n) == OrderLineKey(w, d, o, n)
    {
      CoversIsSlot(db, log, i, w, d, o, n);
    }
    if forall i: nat | i < |log| :: !Covers(log, i, GlobalDistrict(w, d), o, n) {
      OtherLinesUnchanged(db, log, OrderLineKey(w, d, o, n));
    }
    forall i: nat | i < |log| && Covers(log, i, GlobalDistrict(w, d), o, n)
                    && (forall j: nat | i < j < |log| :: !Covers(log, j, GlobalDistrict(w, d), o, n))
      ensures LineIsThere(db, log, i, n)
    {
      UncoveredIsThere(db, log, i, n);
    }
  }
}
