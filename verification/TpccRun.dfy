/** TPC-C behaviours under the runtime: each body as atomic steps, and the determinism theorem.

    A NewOrder behaviour takes its order id, then processes its lines one by one, then inserts the
    order and the new-order row; other behaviours may run between any two of these.  The order id
    it took lives in its own frame. */
module TpccRun {
  import opened Common
  import opened TpccKeys
  import opened TpccBudget
  import opened Tpcc
  import opened Runtime

  /** The database plus the local variables of the running behaviours. */
  datatype Store = Store(db: Database, frames: map<nat, nat>)

  /** What one step writes.  Every step writes at most one row of each table. */
  datatype Effect = Effect(
    w: Option<(nat, Warehouse)>, d: Option<(nat, District)>, c: Option<(nat, Customer)>, s: Option<(nat, Stock)>,
    frame: Option<nat>,
    o: Option<(nat, Order)>, no: Option<(nat, NewOrder)>, ol: Option<(nat, OrderLine)>)

  function Put<T>(s: seq<T>, e: Option<(nat, T)>): (r: seq<T>)
    ensures |r| == |s|
  {
    if e.Some? && e.value.0 < |s| then s[e.value.0 := e.value.1] else s
  }

  function Add<R>(t: Table<R>, size: nat, e: Option<(nat, R)>): Table<R> {
    if e.Some? then Insert(t, size, e.value.0, e.value.1) else t
  }

  function Overflows<R>(t: Table<R>, size: nat, e: Option<(nat, R)>): bool {
    e.Some? && t.cnt >= size
  }

  function ApplyDb(db: Database, so: nat, sn: nat, sl: nat, e: Effect): Database {
    db.(warehouses := Put(db.warehouses, e.w), districts := Put(db.districts, e.d),
        customers := Put(db.customers, e.c), stocks := Put(db.stocks, e.s),
        orders := Add(db.orders, so, e.o), newOrders := Add(db.newOrders, sn, e.no),
        orderLines := Add(db.orderLines, sl, e.ol),
        aborted := db.aborted || Overflows(db.orders, so, e.o) || Overflows(db.newOrders, sn, e.no)
                   || Overflows(db.orderLines, sl, e.ol))
  }

  function Apply(st: Store, k: nat, e: Effect): Store {
    Store(ApplyDb(st.db, TSizeOrder(st.db.scale), TSizeNewOrder(st.db.scale), TSizeOrderLine(st.db.scale), e),
          if e.frame.Some? then st.frames[k := e.frame.value] else st.frames)
  }

  ghost function Steps(b: Behaviour): nat
    requires b.t.Marshalled()
  {
    match b
    case NewOrderB(t, _) => t.ItemNumber() + 3
    case PaymentB(_, _) => 1
    case WarehouseB(_) => 1
  }

  /** Behaviour k, here b, has the locals its m-th step needs. */
  ghost predicate Ready(b: Behaviour, k: nat, m: nat, st: Store) {
    && Valid(st.db) && IsBehaviour(st.db.scale, b) && m < Steps(b)
    && (b.NewOrderB? && m > 0 ==> k in st.frames)
  }

  ghost function WarehouseWrite(t: Txn, db: Database): Option<(nat, Warehouse)>
    requires t.Marshalled() && WKey(t) < |db.warehouses|
  {
    var r := db.warehouses[WKey(t)];
    Some((WKey(t), r.(w_ytd := r.w_ytd + t.Amount())))
  }

  ghost function EffectOf(b: Behaviour, k: nat, m: nat, st: Store): Effect
    requires Ready(b, k, m, st)
  {
    var db := st.db;
    KeysInRange(db, b.t);
    match b
    case WarehouseB(t) => Effect(WarehouseWrite(t, db), None, None, None, None, None, None, None)
    case PaymentB(t, joint) =>
      var d := db.districts[DKey(t)];
      Effect(if joint then WarehouseWrite(t, db) else None,
             Some((DKey(t), d.(d_ytd := d.d_ytd + t.Amount()))),
             Some((CKey(t), CustomerAfter(db.customers[CKey(t)], t.Amount()))),
             None, None, None, None, None)
    case NewOrderB(t, joint) =>
      if m == 0 then
        var d := db.districts[DKey(t)];
        Effect(if joint then WarehouseWrite(t, db) else None,
               Some((DKey(t), d.(d_next_o_id := d.d_next_o_id + 1))),
               None, None, Some(d.d_next_o_id), None, None, None)
      else
        var o := st.frames[k];
        if m <= t.ItemNumber() then
          Effect(None, None, None,
                 Some((SKey(t, m), StockAfter(db.stocks[SKey(t, m)], t.Qty(m), t.RowNumber() == 1))),
                 None, None, None,
                 Some((NewLineKey(t.W(), t.D(), o, m), LineRow(t, o, m, db.items[IKey(t, m)].i_price))))
        else if m == t.ItemNumber() + 1 then
          Effect(None, None, None, None, None, Some((OrderKey(t.W(), t.D(), o), Order(t.W(), t.D(), o))), None, None)
        else
          Effect(None, None, None, None, None, None,
                 Some((OrderKey32(t.W(), t.D(), o), NewOrder(t.W(), t.D(), Wrap32(o)))), None)
  }

  ghost function StepOf(b: Behaviour, k: nat, m: nat, st: Store): Store {
    if Ready(b, k, m, st) then Apply(st, k, EffectOf(b, k, m, st)) else st
  }

  ghost predicate AllBehaviours(scale: nat, bs: seq<Behaviour>) {
    forall k | 0 <= k < |bs| :: IsBehaviour(scale, bs[k])
  }

  ghost predicate Conflict(b: Behaviour, c: Behaviour)
    requires b.t.Marshalled() && (b.NewOrderB? ==> b.t.IsNewOrder())
    requires c.t.Marshalled() && (c.NewOrderB? ==> c.t.IsNewOrder())
  {
    Cowns(b) * Cowns(c) != {}
  }

  ghost function Load(db: Database, bs: seq<Behaviour>): Workload<Store>
    requires AllBehaviours(db.scale, bs)
  {
    Workload(|bs|, Store(db, map[]),
             (k: nat) => if k < |bs| then Steps(bs[k]) else 0,
             (k: nat, m: nat, s: Store) => if k < |bs| then StepOf(bs[k], k, m, s) else s,
             (k: nat, j: nat) => k < |bs| && j < |bs| && Conflict(bs[k], bs[j]))
  }

  /** Behaviour k of the workload is b. */
  ghost predicate Runs(w: Workload<Store>, k: nat, b: Behaviour)
    requires b.t.Marshalled()
  {
    w.len(k) == Steps(b) && forall m: nat, s :: w.step(k, m, s) == StepOf(b, k, m, s)
  }

  // ---------------------------------------------------------------------------
  // Budgets
  // ---------------------------------------------------------------------------

  /** New orders on global district g among the behaviours. */
  ghost function OrdersOn(bs: seq<Behaviour>, g: int): nat
    requires forall k | 0 <= k < |bs| :: bs[k].t.Marshalled()
  {
    if bs == [] then 0
    else OrdersOn(bs[..|bs| - 1], g) + (var b := bs[|bs| - 1]; if b.NewOrderB? && b.t.G() == g then 1 else 0)
  }

  ghost function AllOrders(bs: seq<Behaviour>): nat {
    if bs == [] then 0 else AllOrders(bs[..|bs| - 1]) + (if bs[|bs| - 1].NewOrderB? then 1 else 0)
  }

  /** New orders of the first n districts. */
  ghost function CountsTo(bs: seq<Behaviour>, n: nat): (c: seq<nat>)
    requires forall k | 0 <= k < |bs| :: bs[k].t.Marshalled()
    ensures |c| == n && forall g | 0 <= g < n :: c[g] == OrdersOn(bs, g)
  {
    seq(n, g requires 0 <= g < n => OrdersOn(bs, g))
  }

  ghost function Counts(scale: nat, bs: seq<Behaviour>): seq<nat>
    requires forall k | 0 <= k < |bs| :: bs[k].t.Marshalled()
  {
    CountsTo(bs, DistrictCount(scale))
  }

  /** No district's new orders reach those of a district they may run concurrently with, and there is room. */
  ghost predicate WithinBudget(scale: nat, split: bool, bs: seq<Behaviour>)
    requires forall k | 0 <= k < |bs| :: bs[k].t.Marshalled()
  {
    && (split || forall k | 0 <= k < |bs| && bs[k].NewOrderB? :: bs[k].joint)
    && ClearOf(split, Counts(scale, bs)) && Fit(scale, Counts(scale, bs))
  }

  lemma {:induction false} OrdersOnPrefix(bs: seq<Behaviour>, i: nat, g: int)
    requires forall k | 0 <= k < |bs| :: bs[k].t.Marshalled()
    requires i <= |bs|
    ensures OrdersOn(bs[..i], g) <= OrdersOn(bs, g)
  {
    if i < |bs| {
      assert bs[..|bs| - 1][..i] == bs[..i];
      OrdersOnPrefix(bs[..|bs| - 1], i, g);
    } else {
      assert bs[..i] == bs;
    }
  }

  lemma {:induction false} CountsLast(bs: seq<Behaviour>, n: nat)
    requires bs != [] && forall k | 0 <= k < |bs| :: bs[k].t.Marshalled()
    ensures var b := bs[|bs| - 1];
            Sum(CountsTo(bs, n)) == Sum(CountsTo(bs[..|bs| - 1], n)) + (if b.NewOrderB? && 0 <= b.t.G() < n then 1 else 0)
  {
    if n > 0 {
      CountsLast(bs, n - 1);
      assert CountsTo(bs, n)[..n - 1] == CountsTo(bs, n - 1);
      assert CountsTo(bs[..|bs| - 1], n)[..n - 1] == CountsTo(bs[..|bs| - 1], n - 1);
    }
  }

  lemma {:induction false} OrdersSplitByDistrict(scale: nat, bs: seq<Behaviour>)
    requires ValidScale(scale) && AllBehaviours(scale, bs)
    ensures AllOrders(bs) == Sum(Counts(scale, bs))
  {
    if bs == [] {
      NoOrders(DistrictCount(scale));
    } else {
      OrdersSplitByDistrict(scale, bs[..|bs| - 1]);
      CountsLast(bs, DistrictCount(scale));
      var b := bs[|bs| - 1];
      if b.NewOrderB? { SmallKeys(scale, b.t.W(), b.t.D()); }
    }
  }

  lemma {:induction false} NoOrders(n: nat)
    ensures Sum(CountsTo([], n)) == 0
  {
    if n > 0 {
      NoOrders(n - 1);
      assert CountsTo([], n)[..n - 1] == CountsTo([], n - 1);
    }
  }

  lemma TotalOrdersBound(scale: nat, split: bool, bs: seq<Behaviour>)
    requires ValidScale(scale) && AllBehaviours(scale, bs) && WithinBudget(scale, split, bs)
    ensures AllOrders(bs) + 2 <= TSizeNewOrder(scale)
  {
    OrdersSplitByDistrict(scale, bs);
  }

  lemma {:induction false} AllOrdersPrefix(bs: seq<Behaviour>, i: nat)
    requires i <= |bs|
    ensures AllOrders(bs[..i]) <= AllOrders(bs)
  {
    if i < |bs| {
      assert bs[..|bs| - 1][..i] == bs[..i];
      AllOrdersPrefix(bs[..|bs| - 1], i);
    } else {
      assert bs[..i] == bs;
    }
  }

  /** What the loader leaves: every district at order id 3001, and tables no fuller than the loaded
      orders with up to 15 lines each. */
  ghost predicate Loaded(db: Database) {
    && Valid(db) && !db.aborted
    && (forall g | 0 <= g < |db.districts| :: db.districts[g].d_next_o_id == INITIAL_NEXT_O_ID)
    && db.orders.cnt <= DistrictCount(db.scale) * INITIAL_ORDERS_PER_DISTRICT
    && db.newOrders.cnt == 0
    && db.orderLines.cnt <= DistrictCount(db.scale) * INITIAL_ORDERS_PER_DISTRICT * LINES_PER_ORDER
  }

  // ---------------------------------------------------------------------------
  // Bounds kept by log-order states
  // ---------------------------------------------------------------------------

  // How far into its body a behaviour that has taken m steps is.

  ghost predicate TookId(b: Behaviour, m: nat) { b.NewOrderB? && m > 0 }

  ghost function LinesDone(b: Behaviour, m: nat): nat
    requires b.t.Marshalled()
  {
    if !TookId(b, m) then 0 else if m - 1 <= b.t.ItemNumber() then m - 1 else b.t.ItemNumber()
  }

  ghost function Ordered(b: Behaviour, m: nat): nat
    requires b.t.Marshalled()
  {
    if b.NewOrderB? && m > b.t.ItemNumber() + 1 then 1 else 0
  }

  ghost function NewOrdered(b: Behaviour, m: nat): nat
    requires b.t.Marshalled()
  {
    if b.NewOrderB? && m > b.t.ItemNumber() + 2 then 1 else 0
  }

  /** Behaviour i holds an order id that its district can have handed out. */
  ghost predicate FrameOk(bs: seq<Behaviour>, i: nat, frames: map<nat, nat>)
    requires i < |bs| && forall k | 0 <= k < |bs| :: bs[k].t.Marshalled()
  {
    && i in frames
    && INITIAL_NEXT_O_ID <= frames[i] <= INITIAL_NEXT_O_ID + OrdersOn(bs[..i], bs[i].t.G())
  }

  /** Bounds on a log-order state: behaviours before j as far as p says, behaviour j at m steps. */
  ghost predicate Bounded(db0: Database, bs: seq<Behaviour>, p: seq<nat>, j: nat, m: nat, st: Store)
    requires AllBehaviours(db0.scale, bs) && |p| == |bs| && j < |bs|
  {
    var b := bs[j];
    && Valid(st.db) && st.db.scale == db0.scale && !st.db.aborted
    && (forall g | 0 <= g < |st.db.districts| ::
          INITIAL_NEXT_O_ID <= st.db.districts[g].d_next_o_id
          <= INITIAL_NEXT_O_ID + OrdersOn(bs[..j], g) + (if TookId(b, m) && b.t.G() == g then 1 else 0))
    && (forall i: nat | i < j && TookId(bs[i], p[i]) :: FrameOk(bs, i, st.frames))
    && (TookId(b, m) ==> FrameOk(bs, j, st.frames))
    && st.db.orders.cnt <= db0.orders.cnt + AllOrders(bs[..j]) + Ordered(b, m)
    && st.db.newOrders.cnt <= AllOrders(bs[..j]) + NewOrdered(b, m)
    && st.db.orderLines.cnt <= db0.orderLines.cnt + AllOrders(bs[..j]) * LINES_PER_ORDER + LinesDone(b, m)
  }

  /** Room left in the three growing tables for anything a log within budget can insert. */
  ghost predicate Room(db: Database) {
    && db.orders.cnt + 2 <= TSizeOrder(db.scale)
    && db.newOrders.cnt + 2 <= TSizeNewOrder(db.scale)
    && db.orderLines.cnt + 2 <= TSizeOrderLine(db.scale)
  }

  lemma BoundedHasRoom(db0: Database, split: bool, bs: seq<Behaviour>, p: seq<nat>, j: nat, m: nat, st: Store)
    requires Loaded(db0) && AllBehaviours(db0.scale, bs) && WithinBudget(db0.scale, split, bs)
    requires |p| == |bs| && j < |bs| && Bounded(db0, bs, p, j, m, st)
    ensures Room(st.db)
  {
    TotalOrdersBound(db0.scale, split, bs);
    AllOrdersPrefix(bs, j + 1);
    assert bs[..j + 1][..j] == bs[..j];
  }

  /** One more step of behaviour j keeps the bounds. */
  lemma BoundedStep(db0: Database, split: bool, bs: seq<Behaviour>, p: seq<nat>, j: nat, m: nat, st: Store)
    requires Loaded(db0) && AllBehaviours(db0.scale, bs) && WithinBudget(db0.scale, split, bs)
    requires |p| == |bs| && j < |bs| && m < Steps(bs[j]) && Bounded(db0, bs, p, j, m, st)
    ensures Ready(bs[j], j, m, st) && Bounded(db0, bs, p, j, m + 1, StepOf(bs[j], j, m, st))
  {
    BoundedHasRoom(db0, split, bs, p, j, m, st);
    var b := bs[j];
    KeysInRange(st.db, b.t);
    var e := EffectOf(b, j, m, st);
    var st' := Apply(st, j, e);
    assert StepOf(b, j, m, st) == st';
    if TookId(b, m + 1) && m == 0 {
      assert st'.frames[j] == st.db.districts[DKey(b.t)].d_next_o_id;
      assert FrameOk(bs, j, st'.frames);
    }
    forall i: nat | i < j && TookId(bs[i], p[i]) ensures FrameOk(bs, i, st'.frames) {
      assert FrameOk(bs, i, st.frames);
    }
  }

  lemma BoundedNext(db0: Database, bs: seq<Behaviour>, p: seq<nat>, j: nat, st: Store)
    requires Loaded(db0) && AllBehaviours(db0.scale, bs)
    requires |p| == |bs| && j + 1 < |bs| && Bounded(db0, bs, p, j, p[j], st)
    ensures Bounded(db0, bs, p, j + 1, 0, st)
  {
    assert bs[..j + 1][..j] == bs[..j];
    forall g | 0 <= g < |st.db.districts|
      ensures INITIAL_NEXT_O_ID <= st.db.districts[g].d_next_o_id <= INITIAL_NEXT_O_ID + OrdersOn(bs[..j + 1], g)
    {}
    forall i: nat | i < j + 1 && TookId(bs[i], p[i]) ensures FrameOk(bs, i, st.frames) {}
  }

  lemma {:induction false} BoundedRun(db0: Database, split: bool, bs: seq<Behaviour>, w: Workload<Store>, p: seq<nat>, j: nat, m: nat, st: Store)
    requires Loaded(db0) && AllBehaviours(db0.scale, bs) && WithinBudget(db0.scale, split, bs)
    requires |p| == |bs| && j < |bs| && m <= Steps(bs[j]) && Bounded(db0, bs, p, j, 0, st)
    requires forall i: nat, s :: w.step(j, i, s) == StepOf(bs[j], j, i, s)
    ensures Bounded(db0, bs, p, j, m, RunSteps(w, j, m, st))
  {
    if m > 0 {
      BoundedRun(db0, split, bs, w, p, j, m - 1, st);
      BoundedStep(db0, split, bs, p, j, m - 1, RunSteps(w, j, m - 1, st));
    }
  }

  lemma {:induction false} BoundedInOrder(db0: Database, split: bool, bs: seq<Behaviour>, p: seq<nat>, j: nat)
    requires Loaded(db0) && AllBehaviours(db0.scale, bs) && WithinBudget(db0.scale, split, bs)
    requires IsProgress(Load(db0, bs), p) && j < |bs|
    ensures Bounded(db0, bs, p, j, p[j], InOrder(Load(db0, bs), p, j + 1))
  {
    var w := Load(db0, bs);
    var st := InOrder(w, p, j);
    if j == 0 {
      assert bs[..0] == [];
    } else {
      BoundedInOrder(db0, split, bs, p, j - 1);
      BoundedNext(db0, bs, p, j - 1, st);
    }
    assert p[j] <= w.len(j);
    BoundedRun(db0, split, bs, w, p, j, p[j], st);
  }

  // ---------------------------------------------------------------------------
  // Steps of behaviours that share no cown commute
  // ---------------------------------------------------------------------------

  ghost predicate Apart<T>(e: Option<(nat, T)>, f: Option<(nat, T)>) {
    e.Some? && f.Some? ==> e.value.0 != f.value.0
  }

  ghost predicate ApartEffects(e: Effect, f: Effect) {
    Apart(e.w, f.w) && Apart(e.d, f.d) && Apart(e.c, f.c) && Apart(e.s, f.s)
    && Apart(e.o, f.o) && Apart(e.no, f.no) && Apart(e.ol, f.ol)
  }

  lemma PutCommutes<T>(s: seq<T>, e: Option<(nat, T)>, f: Option<(nat, T)>)
    requires Apart(e, f)
    ensures Put(Put(s, e), f) == Put(Put(s, f), e)
  {}

  lemma AddCommutes<R>(t: Table<R>, size: nat, e: Option<(nat, R)>, f: Option<(nat, R)>)
    requires Apart(e, f) && t.cnt + 2 <= size
    ensures Add(Add(t, size, e), size, f) == Add(Add(t, size, f), size, e)
    ensures !Overflows(t, size, e) && !Overflows(Add(t, size, f), size, e)
  {
    if e.Some? && f.Some? {
      assert t.rows[e.value.0 := e.value.1][f.value.0 := f.value.1] == t.rows[f.value.0 := f.value.1][e.value.0 := e.value.1];
    }
  }

  lemma DbCommutes(db: Database, so: nat, sn: nat, sl: nat, e: Effect, f: Effect)
    requires ApartEffects(e, f)
    requires db.orders.cnt + 2 <= so && db.newOrders.cnt + 2 <= sn && db.orderLines.cnt + 2 <= sl
    ensures ApplyDb(ApplyDb(db, so, sn, sl, e), so, sn, sl, f) == ApplyDb(ApplyDb(db, so, sn, sl, f), so, sn, sl, e)
  {
    PutCommutes(db.warehouses, e.w, f.w);
    PutCommutes(db.districts, e.d, f.d);
    PutCommutes(db.customers, e.c, f.c);
    PutCommutes(db.stocks, e.s, f.s);
    AddCommutes(db.orders, so, e.o, f.o);
    AddCommutes(db.orders, so, f.o, e.o);
    AddCommutes(db.newOrders, sn, e.no, f.no);
    AddCommutes(db.newOrders, sn, f.no, e.no);
    AddCommutes(db.orderLines, sl, e.ol, f.ol);
    AddCommutes(db.orderLines, sl, f.ol, e.ol);
  }

  lemma ApplyCommutes(st: Store, k: nat, e: Effect, j: nat, f: Effect)
    requires k != j && ApartEffects(e, f) && Room(st.db)
    ensures Apply(Apply(st, k, e), j, f) == Apply(Apply(st, j, f), k, e)
  {
    DbCommutes(st.db, TSizeOrder(st.db.scale), TSizeNewOrder(st.db.scale), TSizeOrderLine(st.db.scale), e, f);
    if e.frame.Some? && f.frame.Some? {
      assert st.frames[k := e.frame.value][j := f.frame.value] == st.frames[j := f.frame.value][k := e.frame.value];
    }
  }

  /** A step writes loaded rows only under cowns its behaviour holds. */
  lemma WritesOwnCowns(b: Behaviour, k: nat, m: nat, st: Store)
    requires Ready(b, k, m, st)
    ensures var e := EffectOf(b, k, m, st);
            && (e.w.Some? ==> WarehouseC(e.w.value.0) in Cowns(b))
            && (e.d.Some? ==> DistrictC(e.d.value.0) in Cowns(b))
            && (e.c.Some? ==> CustomerC(e.c.value.0) in Cowns(b))
            && (e.s.Some? ==> StockC(e.s.value.0) in Cowns(b))
  {
    if b.NewOrderB? && 1 <= m <= b.t.ItemNumber() {
      assert StockC(SKey(b.t, m)) in Cowns(b);
    }
  }

  /** No row that a step of b reads is written by f. */
  ghost predicate LeavesReadsOf(b: Behaviour, f: Effect)
    requires b.t.Marshalled() && (b.NewOrderB? ==> b.t.IsNewOrder())
  {
    && (f.w.Some? ==> WarehouseC(f.w.value.0) !in Cowns(b))
    && (f.d.Some? ==> DistrictC(f.d.value.0) !in Cowns(b))
    && (f.c.Some? ==> CustomerC(f.c.value.0) !in Cowns(b))
    && (f.s.Some? ==> StockC(f.s.value.0) !in Cowns(b))
  }

  lemma EffectStable(b: Behaviour, k: nat, m: nat, st: Store, j: nat, f: Effect)
    requires Ready(b, k, m, st) && j != k && LeavesReadsOf(b, f)
    ensures Ready(b, k, m, Apply(st, j, f))
    ensures EffectOf(b, k, m, Apply(st, j, f)) == EffectOf(b, k, m, st)
  {
    KeysInRange(st.db, b.t);
    var db, db' := st.db, Apply(st, j, f).db;
    if b.NewOrderB? && 1 <= m <= b.t.ItemNumber() {
      assert StockC(SKey(b.t, m)) in Cowns(b);
      assert db'.stocks[SKey(b.t, m)] == db.stocks[SKey(b.t, m)];
    } else if !b.WarehouseB? {
      assert db'.districts[DKey(b.t)] == db.districts[DKey(b.t)];
      assert db'.customers[CKey(b.t)] == db.customers[CKey(b.t)];
    }
  }

  /** Order ids held by running behaviours are among those their district hands out. */
  lemma FrameInRange(db0: Database, split: bool, bs: seq<Behaviour>, i: nat, frames: map<nat, nat>)
    requires Loaded(db0) && AllBehaviours(db0.scale, bs) && WithinBudget(db0.scale, split, bs)
    requires i < |bs| && bs[i].NewOrderB? && FrameOk(bs, i, frames)
    ensures var t := bs[i].t;
            && 0 <= t.G() < DistrictCount(db0.scale) && KeyFits(t.W(), t.D(), frames[i])
            && INITIAL_NEXT_O_ID <= frames[i] <= INITIAL_ORDERS_PER_DISTRICT + OrdersOn(bs, t.G())
  {
    var g := bs[i].t.G();
    SmallKeys(db0.scale, bs[i].t.W(), bs[i].t.D());
    OrdersOnPrefix(bs, i + 1, g);
    assert bs[..i + 1][..i] == bs[..i];
    assert SlotsFit(db0.scale, g, Counts(db0.scale, bs)[g]);
  }

  /** The ids that two behaviours hold, if both hold one, keep them apart. */
  ghost predicate HoldClearIds(b: Behaviour, k: nat, m: nat, c: Behaviour, j: nat, l: nat, frames: map<nat, nat>)
    requires b.t.Marshalled() && c.t.Marshalled()
  {
    TookId(b, m) && TookId(c, l) ==>
      && k in frames && j in frames && INITIAL_NEXT_O_ID <= frames[k] && INITIAL_NEXT_O_ID <= frames[j]
      && KeyFits(b.t.W(), b.t.D(), frames[k]) && KeyFits(c.t.W(), c.t.D(), frames[j])
      && b.t.G() != c.t.G() && IdsClear(b.t.G(), frames[k], c.t.G(), frames[j])
  }

  /** Behaviours that share no cown are of different districts, and of different warehouses if joint. */
  lemma ApartDistricts(scale: nat, split: bool, b: Behaviour, c: Behaviour)
    requires ValidScale(scale) && IsBehaviour(scale, b) && IsBehaviour(scale, c) && b.NewOrderB? && c.NewOrderB?
    requires !Conflict(b, c) && (split || (b.joint && c.joint))
    ensures 0 <= b.t.G() && 0 <= c.t.G() && b.t.G() != c.t.G() && Concurrent(split, b.t.G(), c.t.G())
  {
    var t, u := b.t, c.t;
    SmallKeys(scale, t.W(), t.D());
    SmallKeys(scale, u.W(), u.D());
    assert DistrictC(DKey(t)) in Cowns(b) && DistrictC(DKey(u)) in Cowns(c);
    assert DKey(t) != DKey(u);
    if !split {
      assert WarehouseC(WKey(t)) in Cowns(b) && WarehouseC(WKey(u)) in Cowns(c);
      assert WKey(t) != WKey(u);
      assert t.G() / DISTRICTS_PER_WAREHOUSE == t.W() - 1 && u.G() / DISTRICTS_PER_WAREHOUSE == u.W() - 1;
    }
  }

  /** In a log-order state within budget, behaviours that share no cown hold ids that keep them apart. */
  lemma IdsKeptApart(db0: Database, split: bool, bs: seq<Behaviour>, k: nat, m: nat, j: nat, l: nat, frames: map<nat, nat>)
    requires Loaded(db0) && AllBehaviours(db0.scale, bs) && WithinBudget(db0.scale, split, bs)
    requires k < |bs| && j < |bs| && !Conflict(bs[k], bs[j])
    requires TookId(bs[k], m) ==> FrameOk(bs, k, frames)
    requires TookId(bs[j], l) ==> FrameOk(bs, j, frames)
    ensures HoldClearIds(bs[k], k, m, bs[j], j, l, frames)
  {
    if TookId(bs[k], m) && TookId(bs[j], l) {
      FrameInRange(db0, split, bs, k, frames);
      FrameInRange(db0, split, bs, j, frames);
      ApartDistricts(db0.scale, split, bs[k], bs[j]);
      ClearIds(split, Counts(db0.scale, bs), bs[k].t.G(), frames[k], bs[j].t.G(), frames[j]);
    }
  }

  /** Inserts of new orders that share no cown go to different slots. */
  lemma InsertsApart(scale: nat, b: Behaviour, k: nat, m: nat, c: Behaviour, j: nat, l: nat, st: Store)
    requires Ready(b, k, m, st) && Ready(c, j, l, st) && st.db.scale == scale
    requires HoldClearIds(b, k, m, c, j, l, st.frames)
    ensures var e, f := EffectOf(b, k, m, st), EffectOf(c, j, l, st);
            Apart(e.o, f.o) && Apart(e.no, f.no) && Apart(e.ol, f.ol)
  {
    if TookId(b, m) && TookId(c, l) {
      var t, u := b.t, c.t;
      var o, v := st.frames[k], st.frames[j];
      OrderKeysMeet(scale, t.W(), t.D(), o, u.W(), u.D(), v);
      OrderKeyValue(scale, t.W(), t.D(), o);
      OrderKeyValue(scale, u.W(), u.D(), v);
      if 1 <= m <= t.ItemNumber() && 1 <= l <= u.ItemNumber() {
        NewLinesMeet(scale, t.W(), t.D(), o, m, u.W(), u.D(), v, l);
      }
    }
  }

  /** Two pending steps of behaviours that share no cown neither overlap nor see each other. */
  lemma EffectsApart(scale: nat, b: Behaviour, k: nat, m: nat, c: Behaviour, j: nat, l: nat, st: Store)
    requires Ready(b, k, m, st) && Ready(c, j, l, st) && st.db.scale == scale && !Conflict(b, c)
    requires HoldClearIds(b, k, m, c, j, l, st.frames)
    ensures var e, f := EffectOf(b, k, m, st), EffectOf(c, j, l, st);
            ApartEffects(e, f) && LeavesReadsOf(b, f) && LeavesReadsOf(c, e)
  {
    WritesOwnCowns(b, k, m, st);
    WritesOwnCowns(c, j, l, st);
    InsertsApart(scale, b, k, m, c, j, l, st);
    assert forall x :: x in Cowns(b) ==> x !in Cowns(c) by {
      assert Cowns(b) * Cowns(c) == {};
    }
  }

  lemma StepsCommute(scale: nat, b: Behaviour, k: nat, m: nat, c: Behaviour, j: nat, l: nat, st: Store)
    requires k != j && Ready(b, k, m, st) && Ready(c, j, l, st) && st.db.scale == scale && Room(st.db)
    requires !Conflict(b, c)
    requires HoldClearIds(b, k, m, c, j, l, st.frames)
    ensures StepOf(b, k, m, StepOf(c, j, l, st)) == StepOf(c, j, l, StepOf(b, k, m, st))
  {
    EffectsApart(scale, b, k, m, c, j, l, st);
    var e, f := EffectOf(b, k, m, st), EffectOf(c, j, l, st);
    EffectStable(b, k, m, st, j, f);
    EffectStable(c, j, l, st, k, e);
    ApplyCommutes(st, k, e, j, f);
  }

  /** The precondition of the determinism theorem, for every TPC-C log within budget. */
  lemma TpccIndependent(db0: Database, split: bool, bs: seq<Behaviour>)
    requires Loaded(db0) && AllBehaviours(db0.scale, bs) && WithinBudget(db0.scale, split, bs)
    ensures Independent(Load(db0, bs))
  {
    var w := Load(db0, bs);
    forall p, k: nat, j: nat |
      IsProgress(w, p) && k < j < w.n && !w.conflict(k, j) && p[k] < w.len(k) && p[j] < w.len(j)
      ensures CommuteAt(w, p, k, j)
    {
      PendingStepsCommute(db0, split, bs, p, k, j);
    }
  }

  lemma PendingStepsCommute(db0: Database, split: bool, bs: seq<Behaviour>, p: seq<nat>, k: nat, j: nat)
    requires Loaded(db0) && AllBehaviours(db0.scale, bs) && WithinBudget(db0.scale, split, bs)
    requires var w := Load(db0, bs);
             IsProgress(w, p) && k < j < w.n && !w.conflict(k, j) && p[k] < w.len(k) && p[j] < w.len(j)
    ensures CommuteAt(Load(db0, bs), p, k, j)
  {
    var w := Load(db0, bs);
    var st := InOrder(w, p, j + 1);
    BoundedInOrder(db0, split, bs, p, j);
    BoundedHasRoom(db0, split, bs, p, j, p[j], st);
    IdsKeptApart(db0, split, bs, k, p[k], j, p[j], st.frames);
    StepsCommute(db0.scale, bs[k], k, p[k], bs[j], j, p[j], st);
  }
}
