/** The bounds of the determinism theorem and of the order-id law are exact.  Past them, concrete logs have two
    permitted executions that end in different databases, or leave order tables that no longer say which orders
    were placed. */
module TpccBound {
  import opened Common
  import opened TpccKeys
  import opened TpccBudget
  import opened Tpcc
  import opened TpccRun
  import opened TpccDeterminism
  import opened TpccConsistency
  import opened Runtime

  // ---------------------------------------------------------------------------
  // What a new order does to the order table and the counters
  // ---------------------------------------------------------------------------

  /** From db to r, record t has placed an order under its district's next id, and no other. */
  ghost predicate Places(db: Database, r: Database, t: Txn) {
    && Valid(db) && Valid(r) && r.scale == db.scale && t.Marshalled() && 0 <= t.G() < |db.districts|
    && var d := db.districts[t.G()];
       && r.districts == db.districts[t.G() := d.(d_next_o_id := d.d_next_o_id + 1)]
       && r.orders == Insert(db.orders, TSizeOrder(db.scale), OrderKey(t.W(), t.D(), d.d_next_o_id),
                             Order(t.W(), t.D(), d.d_next_o_id))
  }

  ghost predicate SameOrders(db: Database, r: Database) {
    r.scale == db.scale && r.orders == db.orders && r.districts == db.districts
  }

  lemma NewOrderPlaces(db: Database, b: Behaviour)
    requires Valid(db) && IsBehaviour(db.scale, b) && b.NewOrderB?
    ensures Places(db, ExecBehaviour(db, b), b.t)
  {
    var t := b.t;
    KeysInRange(db, t);
    var begun := if b.joint then AddToWarehouse(db, WKey(t), t.Amount()) else db;
    ProcessLinesFrame(TakeOrderId(begun, DKey(t)), t, db.districts[DKey(t)].d_next_o_id, t.ItemNumber());
  }

  lemma TxnPlaces(db: Database, t: Txn)
    requires Valid(db) && WellFormed(db.scale, t) && t.IsNewOrder()
    ensures Places(db, ExecTxn(db, t), t)
  {
    NewOrderPlaces(db, NewOrderB(t, true));
  }

  /** Order-id counters count the district's orders, and only new orders insert an order. */
  lemma {:induction false} CountersOverRuns(db: Database, log: seq<Txn>, g: nat)
    requires Valid(db) && WellFormedLog(db.scale, log) && g < |db.districts|
    ensures ExecLog(db, log).districts[g].d_next_o_id == db.districts[g].d_next_o_id + LogOrders(log, g)
    ensures ExecLog(db, log).orders.cnt <= db.orders.cnt + NewOrders(log)
  {
    if log != [] {
      var before, t := log[..|log| - 1], log[|log| - 1];
      CountersOverRuns(db, before, g);
      var d := ExecLog(db, before);
      if t.IsNewOrder() {
        TxnPlaces(d, t);
      } else if t.IsPayment() {
        KeysInRange(d, t);
      }
    }
  }

  /** Of two orders for the same slot, the one placed last is there. */
  lemma LastWriterWins(d0: Database, d1: Database, d2: Database, t: Txn, u: Txn)
    requires Places(d0, d1, t) && Places(d1, d2, u) && t.G() != u.G() && d0.orders.cnt + 2 <= TSizeOrder(d0.scale)
    requires 0 <= u.G() < |d0.districts|
    ensures var o := d0.districts[u.G()].d_next_o_id;
            var key := OrderKey(u.W(), u.D(), o);
            key in d2.orders.rows && d2.orders.rows[key] == Order(u.W(), u.D(), o)
  {}

  // ---------------------------------------------------------------------------
  // Sample records
  // ---------------------------------------------------------------------------

  /** A NewOrder of customer 1 for one unit of one item from its own warehouse. */
  function Sample(wid: nat, did: nat, item: nat): (t: Txn)
    ensures t.Marshalled() && t.IsNewOrder() && t.ItemNumber() == 1
    ensures t.W() == wid && t.D() == did && t.C() == 1 && t.ItemId(1) == item && t.SupplyW(1) == wid
  {
    Txn(0, seq(65, j requires 0 <= j < 65 =>
                 if j == 0 || j == 20 then wid else if j == 1 then did else if j == 5 then item
                 else if j == 2 || j == 35 || j == 50 || j == 51 then 1 else 0))
  }

  /** Sample records for global districts g and h and for different items. */
  function SampleFor(g: nat, item: nat): (t: Txn)
    ensures t.Marshalled() && t.IsNewOrder() && t.ItemNumber() == 1 && t.G() == g && t.ItemId(1) == item
    ensures t.W() == g / DISTRICTS_PER_WAREHOUSE + 1 && t.D() == g % DISTRICTS_PER_WAREHOUSE + 1
    ensures t.C() == 1 && t.SupplyW(1) == t.W()
  {
    Sample(g / DISTRICTS_PER_WAREHOUSE + 1, g % DISTRICTS_PER_WAREHOUSE + 1, item)
  }

  lemma SampleIsWellFormed(scale: nat, g: nat, item: nat)
    requires g < DistrictCount(scale) && 1 <= item <= NUM_ITEMS
    ensures WellFormed(scale, SampleFor(g, item))
  {}

  function Copies(t: Txn, n: nat): (log: seq<Txn>)
    ensures |log| == n && forall i | 0 <= i < n :: log[i] == t
  {
    seq(n, i => t)
  }

  lemma OneCopyMore(t: Txn, n: nat, u: Txn)
    ensures Copies(t, n) + [t, u] == Copies(t, n + 1) + [u]
  {}

  lemma {:induction false} CopiesOrders(t: Txn, n: nat, g: int)
    requires t.Marshalled() && t.IsNewOrder()
    ensures LogOrders(Copies(t, n), g) == if t.G() == g then n else 0
  {
    if n > 0 {
      CopiesOrders(t, n - 1, g);
      assert Copies(t, n)[..n - 1] == Copies(t, n - 1);
    }
  }

  lemma SampleKeysApart(scale: nat, g: nat, h: nat)
    requires ValidScale(scale) && g < DistrictCount(scale) && h < DistrictCount(scale) && g != h
    ensures var t, u := SampleFor(g, 1), SampleFor(h, 2);
            && SKey(t, 1) != SKey(u, 1) && IKey(t, 1) != IKey(u, 1) && CKey(t) != CKey(u) && DKey(t) != DKey(u)
            && (t.W() != u.W() ==> WKey(t) != WKey(u))
  {
    var t, u := SampleFor(g, 1), SampleFor(h, 2);
    SmallKeys(scale, t.W(), t.D());
    SmallKeys(scale, u.W(), u.D());
    CustomerKeyBijection(scale, t.W(), t.D(), 1, 0);
    CustomerKeyBijection(scale, u.W(), u.D(), 1, 0);
    StockKeyBijection(scale, t.W(), 1, 0);
    StockKeyBijection(scale, u.W(), 2, 0);
  }

  lemma SingleLineCowns(t: Txn, joint: bool, x: Cown)
    requires t.Marshalled() && t.IsNewOrder() && t.ItemNumber() == 1
    ensures x in Cowns(NewOrderB(t, joint)) <==>
              x == DistrictC(DKey(t)) || x == CustomerC(CKey(t)) || x == StockC(SKey(t, 1)) || x == ItemC(IKey(t, 1))
              || (joint && x == WarehouseC(WKey(t)))
  {}

  /** Sample orders of concurrent districts for different items share no cown. */
  lemma SamplesShareNothing(scale: nat, split: bool, g: nat, h: nat)
    requires ValidScale(scale) && g < DistrictCount(scale) && h < DistrictCount(scale) && g != h && Concurrent(split, g, h)
    ensures !Conflict(NewOrderB(SampleFor(g, 1), !split), NewOrderB(SampleFor(h, 2), !split))
  {
    var t, u := SampleFor(g, 1), SampleFor(h, 2);
    SampleKeysApart(scale, g, h);
    var both := Cowns(NewOrderB(t, !split)) * Cowns(NewOrderB(u, !split));
    forall x ensures x !in both {
      SingleLineCowns(t, !split, x);
      SingleLineCowns(u, !split, x);
    }
    assert both == {};
  }

  // ---------------------------------------------------------------------------
  // A schedule that swaps the last two orders
  // ---------------------------------------------------------------------------

  lemma PlaceStep(w: Workload<Store>, st: Store, k: nat, b: Behaviour)
    requires Valid(st.db) && IsBehaviour(st.db.scale, b) && Runs(w, k, b) && b.NewOrderB?
    ensures Places(st.db, RunSteps(w, k, w.len(k), st).db, b.t)
  {
    BehaviourRun(w, b, k, st);
    NewOrderPlaces(st.db, b);
  }

  lemma WarehouseStep(w: Workload<Store>, st: Store, k: nat, b: Behaviour)
    requires Valid(st.db) && IsBehaviour(st.db.scale, b) && Runs(w, k, b) && b.WarehouseB?
    ensures var r := RunSteps(w, k, w.len(k), st).db; Valid(r) && SameOrders(st.db, r)
  {
    BehaviourRun(w, b, k, st);
    KeysInRange(st.db, b.t);
  }

  lemma PlaceTwo(w: Workload<Store>, st: Store, j: nat, b: Behaviour, k: nat, c: Behaviour) returns (d1: Database)
    requires Valid(st.db) && IsBehaviour(st.db.scale, b) && IsBehaviour(st.db.scale, c) && b.NewOrderB? && c.NewOrderB?
    requires Runs(w, j, b) && Runs(w, k, c)
    ensures Places(st.db, d1, b.t) && Places(d1, StoreAfter(w, st, [j, k]).db, c.t)
  {
    var st1 := RunSteps(w, j, w.len(j), st);
    PlaceStep(w, st, j, b);
    PlaceStep(w, st1, k, c);
    d1 := st1.db;
    assert [j, k][1..] == [k] && [k][1..] == [];
    assert StoreAfter(w, st1, [k]) == RunSteps(w, k, w.len(k), st1);
  }

  lemma WarehouseTwo(w: Workload<Store>, st: Store, j: nat, b: Behaviour, k: nat, c: Behaviour, rest: seq<nat>) returns (st2: Store)
    requires Valid(st.db) && IsBehaviour(st.db.scale, b) && IsBehaviour(st.db.scale, c) && b.WarehouseB? && c.WarehouseB?
    requires Runs(w, j, b) && Runs(w, k, c)
    ensures Valid(st2.db) && SameOrders(st.db, st2.db) && StoreAfter(w, st, [j, k] + rest) == StoreAfter(w, st2, rest)
  {
    var st1 := RunSteps(w, j, w.len(j), st);
    WarehouseStep(w, st, j, b);
    WarehouseStep(w, st1, k, c);
    st2 := RunSteps(w, k, w.len(k), st1);
    assert ([j, k] + rest)[1..] == [k] + rest && ([k] + rest)[1..] == rest;
    assert StoreAfter(w, st1, [k] + rest) == StoreAfter(w, st2, rest);
  }

  /** After the first j behaviours, the order of u before that of t. */
  lemma SwapJoint(db: Database, bs: seq<Behaviour>, j: nat, t: Txn, u: Txn) returns (sched: seq<nat>, d1: Database)
    requires Valid(db) && AllBehaviours(db.scale, bs) && |bs| == j + 2
    requires bs[j] == NewOrderB(t, true) && bs[j + 1] == NewOrderB(u, true) && !Conflict(bs[j], bs[j + 1])
    ensures Finishes(Load(db, bs), sched)
    ensures Places(ExecAll(db, bs[..j]), d1, u) && Places(d1, After(Load(db, bs), sched).store.db, t)
  {
    var w := Load(db, bs);
    InOrderIsExecAll(db, bs, w, j);
    SwapTwo(w, j);
    sched := PrefixThen(w, j, [j + 1, j]);
    d1 := PlaceTwo(w, InOrder(w, Full(w), j), j + 1, bs[j + 1], j, bs[j]);
  }

  lemma FourInTurn(w: Workload<Store>, st: Store, j: nat, t: Txn, u: Txn) returns (d0: Database, d1: Database)
    requires Valid(st.db)
    requires var b, c := NewOrderB(t, false), NewOrderB(u, false);
             && IsBehaviour(st.db.scale, b) && IsBehaviour(st.db.scale, c)
             && Runs(w, j, WarehouseB(t)) && Runs(w, j + 1, b) && Runs(w, j + 2, WarehouseB(u)) && Runs(w, j + 3, c)
    ensures SameOrders(st.db, d0) && Places(d0, d1, u) && Places(d1, StoreAfter(w, st, [j, j + 2, j + 3, j + 1]).db, t)
  {
    var st2 := WarehouseTwo(w, st, j, WarehouseB(t), j + 2, WarehouseB(u), [j + 3, j + 1]);
    assert [j, j + 2] + [j + 3, j + 1] == [j, j + 2, j + 3, j + 1];
    d0 := st2.db;
    d1 := PlaceTwo(w, st2, j + 3, NewOrderB(u, false), j + 1, NewOrderB(t, false));
  }

  /** The same in the split form, with both warehouse updates first. */
  lemma SwapSplit(db: Database, bs: seq<Behaviour>, j: nat, t: Txn, u: Txn) returns (sched: seq<nat>, d0: Database, d1: Database)
    requires Valid(db) && AllBehaviours(db.scale, bs) && |bs| == j + 4
    requires bs[j] == WarehouseB(t) && bs[j + 1] == NewOrderB(t, false)
    requires bs[j + 2] == WarehouseB(u) && bs[j + 3] == NewOrderB(u, false) && !Conflict(bs[j + 1], bs[j + 3])
    ensures Finishes(Load(db, bs), sched) && SameOrders(ExecAll(db, bs[..j]), d0)
    ensures Places(d0, d1, u) && Places(d1, After(Load(db, bs), sched).store.db, t)
  {
    var w := Load(db, bs);
    InOrderIsExecAll(db, bs, w, j);
    SplitFormsApart(t, u);
    SwapFour(w, j);
    sched := PrefixThen(w, j, [j, j + 2, j + 3, j + 1]);
    d0, d1 := FourInTurn(w, InOrder(w, Full(w), j), j, t, u);
  }

  lemma SplitFormsApart(t: Txn, u: Txn)
    requires t.Marshalled() && t.IsNewOrder() && u.Marshalled()
    ensures !Conflict(NewOrderB(t, false), WarehouseB(u))
  {
    assert Cowns(NewOrderB(t, false)) * Cowns(WarehouseB(u)) == {};
  }

  lemma SpawnTwoMore(log: seq<Txn>, t: Txn, u: Txn, split: bool)
    requires forall i | 0 <= i < |log| :: log[i].Marshalled()
    requires t.Marshalled() && u.Marshalled()
    ensures SpawnAll(log + [t, u], split) == SpawnAll(log, split) + Spawn(t, split) + Spawn(u, split)
  {
    var all := log + [t, u];
    assert all[..|all| - 1] == log + [t];
    assert (log + [t])[..|log + [t]| - 1] == log;
  }

  /** A permitted execution of the log followed by t and u that places the order of t last. */
  lemma Swapped(db: Database, log: seq<Txn>, t: Txn, u: Txn, split: bool) returns (sched: seq<nat>, d0: Database, d1: Database)
    requires Valid(db) && WellFormedLog(db.scale, log) && WellFormed(db.scale, t) && WellFormed(db.scale, u)
    requires t.IsNewOrder() && u.IsNewOrder() && !Conflict(NewOrderB(t, !split), NewOrderB(u, !split))
    ensures WellFormedLog(db.scale, log + [t, u]) && Finishes(LogWorkload(db, log + [t, u], split), sched)
    ensures SameOrders(ExecLog(db, log), d0) && Places(d0, d1, u)
    ensures Places(d1, After(LogWorkload(db, log + [t, u], split), sched).store.db, t)
  {
    SpawnTwoMore(log, t, u, split);
    SpawnAllBehaviours(db.scale, log + [t, u], split);
    SpawnedLogIsExecLog(db, log, split);
    var bs, j := SpawnAll(log + [t, u], split), |SpawnAll(log, split)|;
    assert bs[..j] == SpawnAll(log, split);
    if split {
      sched, d0, d1 := SwapSplit(db, bs, j, t, u);
    } else {
      sched, d1 := SwapJoint(db, bs, j, t, u);
      d0 := ExecLog(db, log);
    }
  }

  /** Serially, the order of u is placed last. */
  lemma SerialTwoMore(db: Database, log: seq<Txn>, t: Txn, u: Txn)
    requires Valid(db) && WellFormedLog(db.scale, log) && WellFormed(db.scale, t) && WellFormed(db.scale, u)
    requires t.IsNewOrder() && u.IsNewOrder()
    ensures WellFormedLog(db.scale, log + [t, u])
    ensures var d1 := ExecTxn(ExecLog(db, log), t);
            Places(ExecLog(db, log), d1, t) && Places(d1, ExecLog(db, log + [t, u]), u)
  {
    var all := log + [t, u];
    assert all[..|all| - 1] == log + [t];
    assert (log + [t])[..|log + [t]| - 1] == log;
    TxnPlaces(ExecLog(db, log), t);
    TxnPlaces(ExecLog(db, log + [t]), u);
  }

  /** If the next orders of t and u go to the same slot, the two executions disagree on it. */
  lemma SharedSlotDiffers(db: Database, log: seq<Txn>, t: Txn, u: Txn, split: bool) returns (sched: seq<nat>)
    requires Valid(db) && WellFormedLog(db.scale, log) && WellFormed(db.scale, t) && WellFormed(db.scale, u)
    requires t.IsNewOrder() && u.IsNewOrder() && !Conflict(NewOrderB(t, !split), NewOrderB(u, !split)) && t.G() != u.G()
    requires var d := ExecLog(db, log);
             && d.orders.cnt + 2 <= TSizeOrder(db.scale) && 0 <= t.G() < |d.districts| && 0 <= u.G() < |d.districts|
             && OrderKey(t.W(), t.D(), d.districts[t.G()].d_next_o_id) == OrderKey(u.W(), u.D(), d.districts[u.G()].d_next_o_id)
    ensures WellFormedLog(db.scale, log + [t, u]) && Finishes(LogWorkload(db, log + [t, u], split), sched)
    ensures After(LogWorkload(db, log + [t, u], split), sched).store.db.orders != ExecLog(db, log + [t, u]).orders
  {
    var d0, d1;
    sched, d0, d1 := Swapped(db, log, t, u, split);
    LastWriterWins(d0, d1, After(LogWorkload(db, log + [t, u], split), sched).store.db, u, t);
    SerialTwoMore(db, log, t, u);
    var d := ExecLog(db, log);
    LastWriterWins(d, ExecTxn(d, t), ExecLog(db, log + [t, u]), t, u);
  }

  // ---------------------------------------------------------------------------
  // The determinism bound is exact
  // ---------------------------------------------------------------------------

  ghost predicate DeterministicOn(db: Database, log: seq<Txn>, split: bool)
    requires Valid(db) && WellFormedLog(db.scale, log)
  {
    forall sched | Finishes(LogWorkload(db, log, split), sched) :: After(LogWorkload(db, log, split), sched).store.db == ExecLog(db, log)
  }

  /** The log that takes district g up to the first new order of district h. */
  function CollidingLog(g: nat, h: nat): (log: seq<Txn>)
    requires g < h
    ensures forall i | 0 <= i < |log| :: log[i].Marshalled()
  {
    Copies(SampleFor(g, 1), ORDERS_PER_DISTRICT * (h - g))
  }

  /** It gives district g one order more than there are slots between the two, and district h one. */
  lemma CollidingCounts(g: nat, h: nat, x: nat)
    requires g < h
    ensures LogOrders(CollidingLog(g, h) + [SampleFor(g, 1), SampleFor(h, 2)], x)
            == if x == g then ORDERS_PER_DISTRICT * (h - g) + 1 else if x == h then 1 else 0
    ensures LogOrders(CollidingLog(g, h), x) == if x == g then ORDERS_PER_DISTRICT * (h - g) else 0
  {
    var log, t, u := CollidingLog(g, h), SampleFor(g, 1), SampleFor(h, 2);
    var all := log + [t, u];
    assert all[..|all| - 1] == log + [t];
    assert (log + [t])[..|log + [t]| - 1] == log;
    CopiesOrders(t, ORDERS_PER_DISTRICT * (h - g), x);
  }

  lemma CollidingCounters(db: Database, g: nat, h: nat)
    requires Loaded(db) && g < h < DistrictCount(db.scale) && SlotsFit(db.scale, g, ORDERS_PER_DISTRICT * (h - g) + 1)
    requires WellFormedLog(db.scale, CollidingLog(g, h))
    ensures var d := ExecLog(db, CollidingLog(g, h));
            && d.orders.cnt + 2 <= TSizeOrder(db.scale)
            && d.districts[g].d_next_o_id == INITIAL_NEXT_O_ID + ORDERS_PER_DISTRICT * (h - g)
            && d.districts[h].d_next_o_id == INITIAL_NEXT_O_ID
  {
    CollidingCounts(g, h, g);
    CollidingCounts(g, h, h);
    CountersOverRuns(db, CollidingLog(g, h), g);
    CountersOverRuns(db, CollidingLog(g, h), h);
  }

  /** After it, the next orders of the two districts go to the same slot. */
  lemma NextOrdersCollide(db: Database, g: nat, h: nat)
    requires Loaded(db) && g < h < DistrictCount(db.scale) && SlotsFit(db.scale, g, ORDERS_PER_DISTRICT * (h - g) + 1)
    requires WellFormedLog(db.scale, CollidingLog(g, h))
    ensures var d := ExecLog(db, CollidingLog(g, h)); var t, u := SampleFor(g, 1), SampleFor(h, 2);
            && d.orders.cnt + 2 <= TSizeOrder(db.scale)
            && OrderKey(t.W(), t.D(), d.districts[g].d_next_o_id) == OrderKey(u.W(), u.D(), d.districts[h].d_next_o_id)
  {
    var t, u := SampleFor(g, 1), SampleFor(h, 2);
    CollidingCounters(db, g, h);
    KeysCollide(db.scale, t.W(), t.D(), u.W(), u.D());
  }

  lemma KeysCollide(scale: nat, w1: nat, d1: nat, w2: nat, d2: nat)
    requires ValidScale(scale) && DistrictId(scale, w1, d1) && DistrictId(scale, w2, d2)
    requires 0 <= GlobalDistrict(w1, d1) < GlobalDistrict(w2, d2)
    requires var n := GlobalDistrict(w2, d2) - GlobalDistrict(w1, d1); SlotsFit(scale, GlobalDistrict(w1, d1), ORDERS_PER_DISTRICT * n + 1)
    ensures var n := GlobalDistrict(w2, d2) - GlobalDistrict(w1, d1);
            OrderKey(w1, d1, INITIAL_NEXT_O_ID + ORDERS_PER_DISTRICT * n) == OrderKey(w2, d2, INITIAL_NEXT_O_ID)
  {
    OrderKeyValue(scale, w2, d2, INITIAL_NEXT_O_ID);
    OrderKeysMeet(scale, w1, d1, INITIAL_NEXT_O_ID + ORDERS_PER_DISTRICT * (GlobalDistrict(w2, d2) - GlobalDistrict(w1, d1)),
                  w2, d2, INITIAL_NEXT_O_ID);
  }

  /** On any loaded database it has an execution that ends in another order table than serial execution. */
  lemma CollidingRun(db: Database, split: bool, g: nat, h: nat) returns (log: seq<Txn>, sched: seq<nat>)
    requires Loaded(db) && g < h < DistrictCount(db.scale) && Concurrent(split, g, h)
    requires SlotsFit(db.scale, g, ORDERS_PER_DISTRICT * (h - g) + 1)
    ensures log == CollidingLog(g, h) + [SampleFor(g, 1), SampleFor(h, 2)]
    ensures WellFormedLog(db.scale, log) && Finishes(LogWorkload(db, log, split), sched)
    ensures After(LogWorkload(db, log, split), sched).store.db.orders != ExecLog(db, log).orders
  {
    var before, t, u := CollidingLog(g, h), SampleFor(g, 1), SampleFor(h, 2);
    log := before + [t, u];
    SampleIsWellFormed(db.scale, g, 1);
    SampleIsWellFormed(db.scale, h, 2);
    NextOrdersCollide(db, g, h);
    SamplesShareNothing(db.scale, split, g, h);
    sched := SharedSlotDiffers(db, before, t, u, split);
  }

  /** Determinism holds for every log with at most n[g] new orders in each district g exactly when the allowances
      keep concurrent districts apart; for either form, any number of warehouses, and any allowances the tables
      have room for. */
  lemma DeterminismIff(db: Database, split: bool, n: seq<nat>)
    requires Loaded(db) && Fit(db.scale, n)
    ensures (forall log | WellFormedLog(db.scale, log) && Below(LogCounts(db.scale, log), n) :: DeterministicOn(db, log, split))
            <==> ClearOf(split, n)
  {
    if ClearOf(split, n) {
      forall log | WellFormedLog(db.scale, log) && Below(LogCounts(db.scale, log), n) ensures DeterministicOn(db, log, split) {
        WithinAllowance(db, split, n, log);
      }
    } else {
      var g, h :| 0 <= g < h < |n| && Concurrent(split, g, h) && n[h] > 0 && n[g] > ORDERS_PER_DISTRICT * (h - g);
      var log := PastAllowance(db, split, n, g, h);
      assert !DeterministicOn(db, log, split);
    }
  }

  lemma WithinAllowance(db: Database, split: bool, n: seq<nat>, log: seq<Txn>)
    requires Loaded(db) && Fit(db.scale, n) && ClearOf(split, n) && WellFormedLog(db.scale, log) && Below(LogCounts(db.scale, log), n)
    ensures DeterministicOn(db, log, split)
  {
    BelowClear(split, LogCounts(db.scale, log), n);
    BelowFits(db.scale, LogCounts(db.scale, log), n);
    forall sched | Finishes(LogWorkload(db, log, split), sched)
      ensures After(LogWorkload(db, log, split), sched).store.db == ExecLog(db, log)
    {
      TpccIsDeterministic(db, log, split, sched);
    }
  }

  lemma PastAllowance(db: Database, split: bool, n: seq<nat>, g: nat, h: nat) returns (log: seq<Txn>)
    requires Loaded(db) && Fit(db.scale, n) && g < h < |n| && Concurrent(split, g, h)
    requires n[h] > 0 && n[g] > ORDERS_PER_DISTRICT * (h - g)
    ensures WellFormedLog(db.scale, log) && Below(LogCounts(db.scale, log), n) && !DeterministicOn(db, log, split)
  {
    assert SlotsFit(db.scale, g, n[g]);
    var sched;
    log, sched := CollidingRun(db, split, g, h);
    CollidingLogIsBelow(db.scale, n, g, h, log);
  }

  lemma CollidingLogIsBelow(scale: nat, n: seq<nat>, g: nat, h: nat, log: seq<Txn>)
    requires |n| == DistrictCount(scale) && g < h < |n| && n[h] > 0 && n[g] > ORDERS_PER_DISTRICT * (h - g)
    requires log == CollidingLog(g, h) + [SampleFor(g, 1), SampleFor(h, 2)]
    ensures Below(LogCounts(scale, log), n)
  {
    var counts := LogCounts(scale, log);
    forall x | 0 <= x < |n| ensures counts[x] <= n[x] { CollidingCounts(g, h, x); }
  }

  /** With one allowance for all districts the bound is 6840 in the split form and, with two or more warehouses,
      in the joint form; with one warehouse the joint form is deterministic whatever the allowance. */
  lemma UniformDeterminismIff(db: Database, split: bool, n: seq<nat>, bound: nat)
    requires Loaded(db) && Fit(db.scale, n) && forall g | 0 <= g < |n| :: n[g] == bound
    ensures (forall log | WellFormedLog(db.scale, log) && Below(LogCounts(db.scale, log), n) :: DeterministicOn(db, log, split))
            <==> bound <= ORDERS_PER_DISTRICT || (!split && db.scale == 1)
  {
    DeterminismIff(db, split, n);
    UniformIsClearIff(db.scale, split, n, bound);
  }

  /** The shipped number of warehouses, split form: 6841 orders in district 1 and one in district 2. */
  lemma SplitWitness(db: Database) returns (log: seq<Txn>, sched: seq<nat>)
    requires Loaded(db) && db.scale == 1
    ensures log == Copies(Sample(1, 1, 1), 6841) + [Sample(1, 2, 2)] && WellFormedLog(db.scale, log)
    ensures Finishes(LogWorkload(db, log, true), sched)
    ensures After(LogWorkload(db, log, true), sched).store.db.orders != ExecLog(db, log).orders
  {
    OneCopyMore(Sample(1, 1, 1), 6840, Sample(1, 2, 2));
    log, sched := CollidingRun(db, true, 0, 1);
  }

  /** Two warehouses, joint form: 6841 orders in the last district of one and one in the first of the other. */
  lemma JointWitness(db: Database) returns (log: seq<Txn>, sched: seq<nat>)
    requires Loaded(db) && db.scale >= 2
    ensures log == Copies(Sample(1, 10, 1), 6841) + [Sample(2, 1, 2)] && WellFormedLog(db.scale, log)
    ensures Finishes(LogWorkload(db, log, false), sched)
    ensures After(LogWorkload(db, log, false), sched).store.db.orders != ExecLog(db, log).orders
  {
    SmallKeys(db.scale, 1, 1);
    OneCopyMore(Sample(1, 10, 1), 6840, Sample(2, 1, 2));
    log, sched := CollidingRun(db, false, 9, 10);
  }

  // ---------------------------------------------------------------------------
  // The bound of the order-id law is exact
  // ---------------------------------------------------------------------------

  /** The first slot of the district after g, which holds that district's order 1 or nothing, has been taken by
      an order placed since loading. */
  ghost predicate Overrun(db: Database, g: nat) {
    var key := (g + 1) * ORDERS_PER_DISTRICT;
    key in db.orders.rows && db.orders.rows[key].o_id >= INITIAL_NEXT_O_ID
  }

  lemma OverrunIsInexact(db: Database, g: nat)
    requires Valid(db) && g < |db.districts| && Overrun(db, g)
    ensures !OrderIdsExact(db)
  {
    SlotIsPositional(g + 1, 1);
    assert !OrderSlotOk(db, (g + 1) * ORDERS_PER_DISTRICT);
  }

  /** Order 6841 of a district takes that slot, and no order placed later gives it back. */
  lemma PlacingOverruns(d: Database, r: Database, t: Txn, g: nat)
    requires Places(d, r, t) && DistrictId(d.scale, t.W(), t.D()) && g < |d.districts| && d.orders.cnt < TSizeOrder(d.scale)
    requires d.districts[t.G()].d_next_o_id >= INITIAL_NEXT_O_ID
    requires Overrun(d, g) || (t.G() == g && d.districts[g].d_next_o_id == ORDERS_PER_DISTRICT + 1)
    ensures Overrun(r, g)
  {
    if t.G() == g { OrderKeyValue(d.scale, t.W(), t.D(), ORDERS_PER_DISTRICT + 1); }
  }

  lemma {:induction false} PastOrderBound(db: Database, log: seq<Txn>, g: nat)
    requires Loaded(db) && WellFormedLog(db.scale, log) && g < |db.districts|
    requires db.orders.cnt + NewOrders(log) <= TSizeOrder(db.scale) && LogOrders(log, g) > MAX_ORDER_TRANSACTIONS
    ensures Overrun(ExecLog(db, log), g)
  {
    if log != [] {
      var before, t := log[..|log| - 1], log[|log| - 1];
      var d := ExecLog(db, before);
      CountersOverRuns(db, before, g);
      if LogOrders(before, g) > MAX_ORDER_TRANSACTIONS { PastOrderBound(db, before, g); }
      OverrunStep(d, t, g, db, before);
    }
  }

  lemma OverrunStep(d: Database, t: Txn, g: nat, db: Database, before: seq<Txn>)
    requires Loaded(db) && WellFormedLog(db.scale, before) && d == ExecLog(db, before) && WellFormed(db.scale, t)
    requires g < |db.districts| && (t.IsNewOrder() ==> d.orders.cnt < TSizeOrder(db.scale))
    requires Overrun(d, g) || (t.IsNewOrder() && t.G() == g && d.districts[g].d_next_o_id == ORDERS_PER_DISTRICT + 1)
    ensures Overrun(ExecTxn(d, t), g)
  {
    if t.IsNewOrder() {
      TxnPlaces(d, t);
      CountersOverRuns(db, before, t.G());
      PlacingOverruns(d, ExecTxn(d, t), t, g);
    } else if t.IsPayment() {
      KeysInRange(d, t);
    }
  }

  /** The order tables are exact after a log if and only if no district takes more than MAX_ORDER_TRANSACTIONS
      new orders. */
  lemma OrderIdsIff(db: Database, log: seq<Txn>)
    requires Loaded(db) && OrderIdsExact(db) && WellFormedLog(db.scale, log)
    requires db.orders.cnt + NewOrders(log) <= TSizeOrder(db.scale)
    ensures OrderIdsExact(ExecLog(db, log)) <==> WithinOrderBound(db.scale, log)
  {
    if WithinOrderBound(db.scale, log) {
      OrderIdsOverRuns(db, log);
    } else {
      var g :| 0 <= g < DistrictCount(db.scale) && LogOrders(log, g) > MAX_ORDER_TRANSACTIONS;
      PastOrderBound(db, log, g);
      OverrunIsInexact(ExecLog(db, log), g);
    }
  }

  /** 3841 orders in one district are one too many. */
  lemma OrderIdsWitness(db: Database) returns (log: seq<Txn>)
    requires Loaded(db) && OrderIdsExact(db)
    ensures log == Copies(Sample(1, 1, 1), MAX_ORDER_TRANSACTIONS + 1) && WellFormedLog(db.scale, log)
    ensures !OrderIdsExact(ExecLog(db, log))
  {
    log := Copies(Sample(1, 1, 1), MAX_ORDER_TRANSACTIONS + 1);
    CopiesOrders(Sample(1, 1, 1), MAX_ORDER_TRANSACTIONS + 1, 0);
    SmallKeys(db.scale, 1, 1);
    assert LogOrders(log, 0) == MAX_ORDER_TRANSACTIONS + 1;
    OrderIdsIff(db, log);
  }
}
