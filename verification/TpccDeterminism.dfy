/** Every permitted execution of a TPC-C log, in the joint or the split form, ends in the database
    that serial execution of the log gives. */
module TpccDeterminism {
  import opened Common
  import opened TpccKeys
  import opened TpccBudget
  import opened Tpcc
  import opened TpccRun
  import opened Runtime

  /** New orders of the log on global district g. */
  ghost function LogOrders(log: seq<Txn>, g: int): nat
    requires forall i | 0 <= i < |log| :: log[i].Marshalled()
  {
    if log == [] then 0
    else
      var t := log[|log| - 1];
      assert t.Marshalled();
      LogOrders(log[..|log| - 1], g)
      + (if t.kind == 0 && 1 <= t.params[50] <= 15 && (t.params[0] as int - 1) * 10 + (t.params[1] as int - 1) == g then 1 else 0)
  }

  lemma {:induction false} LogOrdersPrefix(log: seq<Txn>, m: nat, g: int)
    requires (forall i | 0 <= i < |log| :: log[i].Marshalled()) && m <= |log|
    ensures LogOrders(log[..m], g) <= LogOrders(log, g)
  {
    if m < |log| {
      assert log[..|log| - 1][..m] == log[..m];
      LogOrdersPrefix(log[..|log| - 1], m, g);
    } else {
      assert log[..m] == log;
    }
  }

  /** All new orders of the log. */
  ghost function NewOrders(log: seq<Txn>): (r: nat)
    requires forall i | 0 <= i < |log| :: log[i].Marshalled()
    ensures r <= |log|
  {
    if log == [] then 0 else NewOrders(log[..|log| - 1]) + (if log[|log| - 1].IsNewOrder() then 1 else 0)
  }

  lemma {:induction false} SpawnedNewOrders(log: seq<Txn>)
    requires forall i | 0 <= i < |log| :: log[i].Marshalled()
    ensures AllOrders(SpawnAll(log, false)) == NewOrders(log)
  {
    if log != [] {
      SpawnedNewOrders(log[..|log| - 1]);
      var bs, more := SpawnAll(log[..|log| - 1], false), Spawn(log[|log| - 1], false);
      if more == [] {
        assert bs + more == bs;
      } else {
        assert more == [more[0]] && (bs + more)[..|bs + more| - 1] == bs;
      }
    }
  }

  lemma NewOrdersByDistrict(scale: nat, log: seq<Txn>)
    requires ValidScale(scale) && WellFormedLog(scale, log)
    ensures NewOrders(log) == Sum(LogCounts(scale, log))
  {
    SpawnAllBehaviours(scale, log, false);
    SpawnedNewOrders(log);
    OrdersSplitByDistrict(scale, SpawnAll(log, false));
    assert Counts(scale, SpawnAll(log, false)) == LogCounts(scale, log);
  }

  /** New orders of the log for each district. */
  ghost function LogCounts(scale: nat, log: seq<Txn>): (c: seq<nat>)
    requires forall i | 0 <= i < |log| :: log[i].Marshalled()
    ensures |c| == DistrictCount(scale) && forall g | 0 <= g < |c| :: c[g] == LogOrders(log, g)
  {
    seq(DistrictCount(scale), g requires 0 <= g < DistrictCount(scale) => LogOrders(log, g))
  }

  /** No district's new orders reach those of a district they may run concurrently with, and there is room. */
  ghost predicate LogWithinBudget(scale: nat, split: bool, log: seq<Txn>)
    requires WellFormedLog(scale, log)
  {
    ClearOf(split, LogCounts(scale, log)) && Fit(scale, LogCounts(scale, log))
  }

  lemma CountsPrefix(scale: nat, log: seq<Txn>, k: nat)
    requires k <= |log| && WellFormedLog(scale, log)
    ensures Below(LogCounts(scale, log[..k]), LogCounts(scale, log))
  {
    var m, n := LogCounts(scale, log[..k]), LogCounts(scale, log);
    forall g | 0 <= g < |m| ensures m[g] <= n[g] { LogOrdersPrefix(log, k, g); }
  }

  lemma BudgetPrefix(scale: nat, split: bool, log: seq<Txn>, k: nat)
    requires k <= |log| && WellFormedLog(scale, log) && LogWithinBudget(scale, split, log)
    ensures LogWithinBudget(scale, split, log[..k])
  {
    var m, n := LogCounts(scale, log[..k]), LogCounts(scale, log);
    CountsPrefix(scale, log, k);
    BelowClear(split, m, n);
    BelowFits(scale, m, n);
  }

  /** At most ORDERS_PER_DISTRICT new orders for every district: within budget in either form. */
  ghost predicate UniformLog(scale: nat, log: seq<Txn>)
    requires WellFormedLog(scale, log)
  {
    forall g | 0 <= g < DistrictCount(scale) :: LogOrders(log, g) <= ORDERS_PER_DISTRICT
  }

  lemma UniformLogBudget(scale: nat, split: bool, log: seq<Txn>)
    requires ValidScale(scale) && WellFormedLog(scale, log) && UniformLog(scale, log)
    ensures LogWithinBudget(scale, split, log)
  {
    UniformBudget(scale, split, LogCounts(scale, log));
  }

  lemma SpawnAddsOrders(bs: seq<Behaviour>, t: Txn, split: bool, g: int)
    requires (forall k | 0 <= k < |bs| :: bs[k].t.Marshalled()) && t.Marshalled()
    ensures OrdersOn(bs + Spawn(t, split), g) == OrdersOn(bs, g) + (if t.IsNewOrder() && t.G() == g then 1 else 0)
  {
    var added := Spawn(t, split);
    if |added| == 0 {
      assert bs + added == bs;
    } else if |added| == 1 {
      assert (bs + added)[..|bs|] == bs;
    } else {
      var half := bs + [added[0]];
      assert half[..|bs|] == bs;
      assert (bs + added)[..|bs| + 1] == half;
      assert OrdersOn(half, g) == OrdersOn(bs, g);
    }
  }

  lemma {:induction false} SpawnAllBehaviours(scale: nat, log: seq<Txn>, split: bool)
    requires WellFormedLog(scale, log)
    ensures AllBehaviours(scale, SpawnAll(log, split))
    ensures forall g :: OrdersOn(SpawnAll(log, split), g) == LogOrders(log, g)
  {
    if log != [] {
      var before, t := log[..|log| - 1], log[|log| - 1];
      SpawnAllBehaviours(scale, before, split);
      var bs := SpawnAll(before, split);
      forall g ensures OrdersOn(bs + Spawn(t, split), g) == LogOrders(log, g) { SpawnAddsOrders(bs, t, split, g); }
    }
  }

  lemma {:induction false} SpawnedForm(log: seq<Txn>, split: bool)
    requires forall i | 0 <= i < |log| :: log[i].Marshalled()
    ensures forall k | 0 <= k < |SpawnAll(log, split)| :: SpawnAll(log, split)[k].WarehouseB? || SpawnAll(log, split)[k].joint != split
  {
    if log != [] { SpawnedForm(log[..|log| - 1], split); }
  }

  lemma SpawnedWithinBudget(scale: nat, split: bool, log: seq<Txn>)
    requires WellFormedLog(scale, log) && LogWithinBudget(scale, split, log)
    ensures AllBehaviours(scale, SpawnAll(log, split)) && WithinBudget(scale, split, SpawnAll(log, split))
  {
    SpawnAllBehaviours(scale, log, split);
    SpawnedForm(log, split);
    assert Counts(scale, SpawnAll(log, split)) == LogCounts(scale, log);
  }

  /** The workload that dispatching the log creates. */
  ghost function LogWorkload(db: Database, log: seq<Txn>, split: bool): Workload<Store>
    requires WellFormedLog(db.scale, log)
  {
    SpawnAllBehaviours(db.scale, log, split);
    Load(db, SpawnAll(log, split))
  }

  // ---------------------------------------------------------------------------
  // A behaviour run without interruption does what the reference says
  // ---------------------------------------------------------------------------

  ghost function ExecBehaviour(db: Database, b: Behaviour): (r: Database)
    requires Valid(db) && IsBehaviour(db.scale, b)
    ensures Valid(r) && r.scale == db.scale
  {
    KeysInRange(db, b.t);
    match b
    case NewOrderB(t, joint) => if joint then ExecNewOrder(db, t) else NewOrderBody(db, t)
    case PaymentB(t, joint) => if joint then ExecPayment(db, t) else PayDistrictAndCustomer(db, t)
    case WarehouseB(t) => AddToWarehouse(db, WKey(t), t.Amount())
  }

  /** After its first step a NewOrder has updated the warehouse if joint, and holds its order id. */
  lemma NewOrderFirstStep(b: Behaviour, k: nat, st: Store)
    requires b.NewOrderB? && Valid(st.db) && IsBehaviour(st.db.scale, b)
    requires WKey(b.t) < |st.db.warehouses| && DKey(b.t) < |st.db.districts|
    ensures var base := if b.joint then AddToWarehouse(st.db, WKey(b.t), b.t.Amount()) else st.db;
            var st' := StepOf(b, k, 0, st);
            && st'.db == TakeOrderId(base, DKey(b.t))
            && k in st'.frames && st'.frames[k] == base.districts[DKey(b.t)].d_next_o_id
  {}

  lemma NewOrderLineStep(b: Behaviour, k: nat, i: nat, st: Store)
    requires b.NewOrderB? && Valid(st.db) && IsBehaviour(st.db.scale, b) && k in st.frames
    requires 1 <= i <= b.t.ItemNumber()
    ensures SKey(b.t, i) < |st.db.stocks| && IKey(b.t, i) < |st.db.items|
    ensures StepOf(b, k, i, st) == Store(ProcessLine(st.db, b.t, st.frames[k], i), st.frames)
  {
    KeysInRange(st.db, b.t);
  }

  lemma NewOrderLastSteps(b: Behaviour, k: nat, st: Store)
    requires b.NewOrderB? && Valid(st.db) && IsBehaviour(st.db.scale, b) && k in st.frames
    ensures StepOf(b, k, b.t.ItemNumber() + 1, st) == Store(InsertOrder(st.db, b.t, st.frames[k]), st.frames)
    ensures StepOf(b, k, b.t.ItemNumber() + 2, st) == Store(InsertNewOrder(st.db, b.t, st.frames[k]), st.frames)
  {
    KeysInRange(st.db, b.t);
  }

  /** After its first step and i lines. */
  lemma {:induction false} NewOrderLines(w: Workload<Store>, b: Behaviour, k: nat, i: nat, st: Store, begun: Store)
    requires b.NewOrderB? && Valid(st.db) && IsBehaviour(st.db.scale, b) && i <= b.t.ItemNumber()
    requires forall m: nat, s :: w.step(k, m, s) == StepOf(b, k, m, s)
    requires begun == StepOf(b, k, 0, st) && Valid(begun.db) && begun.db.scale == st.db.scale && k in begun.frames
    ensures RunSteps(w, k, i + 1, st) == Store(ProcessLines(begun.db, b.t, begun.frames[k], i), begun.frames)
  {
    if i == 0 {
      assert RunSteps(w, k, 0, st) == st;
    } else {
      NewOrderLines(w, b, k, i - 1, st, begun);
      NewOrderLineStep(b, k, i, RunSteps(w, k, i, st));
    }
  }

  lemma BehaviourRun(w: Workload<Store>, b: Behaviour, k: nat, st: Store)
    requires Valid(st.db) && IsBehaviour(st.db.scale, b)
    requires forall m: nat, s :: w.step(k, m, s) == StepOf(b, k, m, s)
    ensures RunSteps(w, k, Steps(b), st).db == ExecBehaviour(st.db, b)
  {
    KeysInRange(st.db, b.t);
    if b.NewOrderB? {
      NewOrderRun(w, b, k, st);
    } else {
      assert RunSteps(w, k, 0, st) == st;
      assert RunSteps(w, k, 1, st) == StepOf(b, k, 0, st);
    }
  }

  /** All steps of a NewOrder, from the state after its first. */
  lemma NewOrderTail(w: Workload<Store>, b: Behaviour, k: nat, st: Store, begun: Store)
    requires b.NewOrderB? && Valid(st.db) && IsBehaviour(st.db.scale, b)
    requires forall m: nat, s :: w.step(k, m, s) == StepOf(b, k, m, s)
    requires begun == StepOf(b, k, 0, st) && Valid(begun.db) && begun.db.scale == st.db.scale && k in begun.frames
    ensures var o := begun.frames[k];
            RunSteps(w, k, Steps(b), st).db
            == InsertNewOrder(InsertOrder(ProcessLines(begun.db, b.t, o, b.t.ItemNumber()), b.t, o), b.t, o)
  {
    var n := b.t.ItemNumber();
    NewOrderLines(w, b, k, n, st, begun);
    var lined := RunSteps(w, k, n + 1, st);
    NewOrderLastSteps(b, k, lined);
    var ordered := RunSteps(w, k, n + 2, st);
    assert ordered == StepOf(b, k, n + 1, lined);
    NewOrderLastSteps(b, k, ordered);
    assert RunSteps(w, k, n + 3, st) == StepOf(b, k, n + 2, ordered);
  }

  lemma NewOrderRun(w: Workload<Store>, b: Behaviour, k: nat, st: Store)
    requires b.NewOrderB? && Valid(st.db) && IsBehaviour(st.db.scale, b)
    requires forall m: nat, s :: w.step(k, m, s) == StepOf(b, k, m, s)
    ensures RunSteps(w, k, Steps(b), st).db == ExecBehaviour(st.db, b)
  {
    KeysInRange(st.db, b.t);
    var base := if b.joint then AddToWarehouse(st.db, WKey(b.t), b.t.Amount()) else st.db;
    assert ExecBehaviour(st.db, b) == NewOrderBody(base, b.t);
    NewOrderFirstStep(b, k, st);
    NewOrderTail(w, b, k, st, StepOf(b, k, 0, st));
  }

  // ---------------------------------------------------------------------------
  // The serial state of the workload is serial execution of the log
  // ---------------------------------------------------------------------------

  /** Behaviours run one after another, each to its end. */
  ghost function ExecAll(db: Database, bs: seq<Behaviour>): (r: Database)
    requires Valid(db) && AllBehaviours(db.scale, bs)
    ensures Valid(r) && r.scale == db.scale
  {
    if bs == [] then db else ExecBehaviour(ExecAll(db, bs[..|bs| - 1]), bs[|bs| - 1])
  }

  lemma {:induction false} InOrderIsExecAll(db: Database, bs: seq<Behaviour>, w: Workload<Store>, k: nat)
    requires Valid(db) && AllBehaviours(db.scale, bs) && k <= |bs| && w == Load(db, bs)
    ensures InOrder(w, Full(w), k).db == ExecAll(db, bs[..k])
  {
    if k > 0 {
      InOrderIsExecAll(db, bs, w, k - 1);
      InOrderNext(db, bs, w, k - 1);
      ExecAllOne(db, bs[..k - 1], bs[k - 1]);
      assert bs[..k] == bs[..k - 1] + [bs[k - 1]];
    }
  }

  /** Behaviour k runs after the first k have, in log order. */
  lemma InOrderNext(db: Database, bs: seq<Behaviour>, w: Workload<Store>, k: nat)
    requires AllBehaviours(db.scale, bs) && k < |bs| && w == Load(db, bs)
    requires var d := InOrder(w, Full(w), k).db; Valid(d) && d.scale == db.scale
    ensures InOrder(w, Full(w), k + 1).db == ExecBehaviour(InOrder(w, Full(w), k).db, bs[k])
  {
    BehaviourRun(w, bs[k], k, InOrder(w, Full(w), k));
  }

  lemma ExecAllOne(db: Database, bs: seq<Behaviour>, b: Behaviour)
    requires Valid(db) && AllBehaviours(db.scale, bs) && IsBehaviour(db.scale, b)
    ensures AllBehaviours(db.scale, bs + [b]) && ExecAll(db, bs + [b]) == ExecBehaviour(ExecAll(db, bs), b)
  {
    assert (bs + [b])[..|bs + [b]| - 1] == bs;
  }

  /** A record's behaviours, run in order, amount to the record. */
  lemma SpawnedIsExec(db: Database, t: Txn, split: bool)
    requires Valid(db) && WellFormed(db.scale, t)
    ensures var bs := Spawn(t, split);
            match |bs|
            case 0 => ExecTxn(db, t) == db
            case 1 => IsBehaviour(db.scale, bs[0]) && ExecTxn(db, t) == ExecBehaviour(db, bs[0])
            case _ => |bs| == 2 && IsBehaviour(db.scale, bs[0]) && IsBehaviour(db.scale, bs[1])
                      && ExecTxn(db, t) == ExecBehaviour(ExecBehaviour(db, bs[0]), bs[1])
  {}

  lemma ExecAllSpawned(db: Database, bs: seq<Behaviour>, t: Txn, split: bool)
    requires Valid(db) && AllBehaviours(db.scale, bs) && WellFormed(db.scale, t)
    requires AllBehaviours(db.scale, bs + Spawn(t, split))
    ensures ExecAll(db, bs + Spawn(t, split)) == ExecTxn(ExecAll(db, bs), t)
  {
    var more := Spawn(t, split);
    SpawnedIsExec(ExecAll(db, bs), t, split);
    if |more| == 0 {
      assert bs + more == bs;
    } else {
      ExecAllOne(db, bs, more[0]);
      if |more| == 1 {
        assert more == [more[0]];
      } else {
        ExecAllOne(db, bs + [more[0]], more[1]);
        assert bs + [more[0]] + [more[1]] == bs + more;
      }
    }
  }

  lemma {:induction false} SpawnedLogIsExecLog(db: Database, log: seq<Txn>, split: bool)
    requires Valid(db) && WellFormedLog(db.scale, log)
    ensures AllBehaviours(db.scale, SpawnAll(log, split)) && ExecAll(db, SpawnAll(log, split)) == ExecLog(db, log)
  {
    SpawnAllBehaviours(db.scale, log, split);
    if log != [] {
      var before, t := log[..|log| - 1], log[|log| - 1];
      SpawnedLogIsExecLog(db, before, split);
      ExecAllSpawned(db, SpawnAll(before, split), t, split);
    }
  }

  lemma SerialIsExecAll(db: Database, bs: seq<Behaviour>)
    requires Valid(db) && AllBehaviours(db.scale, bs)
    ensures Serial(Load(db, bs)).db == ExecAll(db, bs)
  {
    InOrderIsExecAll(db, bs, Load(db, bs), |bs|);
    assert bs[..|bs|] == bs;
  }

  lemma SerialIsExecLog(db: Database, log: seq<Txn>, split: bool)
    requires Valid(db) && WellFormedLog(db.scale, log)
    ensures Serial(LogWorkload(db, log, split)).db == ExecLog(db, log)
  {
    SpawnedLogIsExecLog(db, log, split);
    SerialIsExecAll(db, SpawnAll(log, split));
  }

  // ---------------------------------------------------------------------------
  // Main theorems
  // ---------------------------------------------------------------------------

  /** Determinism of the TPC-C replay: any permitted interleaving, joint or split. */
  lemma TpccIsDeterministic(db: Database, log: seq<Txn>, split: bool, sched: seq<nat>)
    requires Loaded(db) && WellFormedLog(db.scale, log) && LogWithinBudget(db.scale, split, log)
    requires Finishes(LogWorkload(db, log, split), sched)
    ensures After(LogWorkload(db, log, split), sched).store.db == ExecLog(db, log)
  {
    SpawnedWithinBudget(db.scale, split, log);
    TpccIndependent(db, split, SpawnAll(log, split));
    Determinism(LogWorkload(db, log, split), sched);
    SerialIsExecLog(db, log, split);
  }

  /** With one warehouse the joint form needs no condition at all: every behaviour takes the warehouse's cown,
      so any two conflict. */
  lemma OneWarehouseIsSerial(db: Database, log: seq<Txn>, sched: seq<nat>)
    requires Valid(db) && db.scale == 1 && WellFormedLog(db.scale, log)
    requires Finishes(LogWorkload(db, log, false), sched)
    ensures After(LogWorkload(db, log, false), sched).store.db == ExecLog(db, log)
  {
    var bs := SpawnAll(log, false);
    var w := LogWorkload(db, log, false);
    SpawnAllBehaviours(1, log, false);
    SpawnedForm(log, false);
    forall k: nat, j: nat | k < j < w.n ensures w.conflict(k, j) { JointBehavioursConflict(bs, k, j); }
    Determinism(w, sched);
    SerialIsExecLog(db, log, false);
  }

  /** Within the budget of the form, or joint with one warehouse. */
  ghost predicate Replayable(scale: nat, split: bool, log: seq<Txn>)
    requires WellFormedLog(scale, log)
  {
    LogWithinBudget(scale, split, log) || (!split && scale == 1)
  }

  lemma ReplayablePrefix(scale: nat, split: bool, log: seq<Txn>, k: nat)
    requires k <= |log| && WellFormedLog(scale, log) && Replayable(scale, split, log)
    ensures Replayable(scale, split, log[..k])
  {
    if LogWithinBudget(scale, split, log) { BudgetPrefix(scale, split, log, k); }
  }

  /** Both cases together. */
  lemma ReplayEndsSerially(db: Database, log: seq<Txn>, split: bool, sched: seq<nat>)
    requires Loaded(db) && WellFormedLog(db.scale, log) && Replayable(db.scale, split, log)
    requires Finishes(LogWorkload(db, log, split), sched)
    ensures After(LogWorkload(db, log, split), sched).store.db == ExecLog(db, log)
  {
    if LogWithinBudget(db.scale, split, log) {
      TpccIsDeterministic(db, log, split, sched);
    } else {
      OneWarehouseIsSerial(db, log, sched);
    }
  }

  lemma JointBehavioursConflict(bs: seq<Behaviour>, k: nat, j: nat)
    requires AllBehaviours(1, bs) && k < |bs| && j < |bs|
    requires forall i | 0 <= i < |bs| :: bs[i].WarehouseB? || bs[i].joint
    ensures Conflict(bs[k], bs[j])
  {
    assert WarehouseC(0) in Cowns(bs[k]) && WarehouseC(0) in Cowns(bs[j]);
    assert WarehouseC(0) in Cowns(bs[k]) * Cowns(bs[j]);
  }

  /** In no state of any permitted execution has an insertion thrown. */
  lemma NothingOverflows(db: Database, split: bool, bs: seq<Behaviour>, sched: seq<nat>)
    requires Loaded(db) && AllBehaviours(db.scale, bs) && WithinBudget(db.scale, split, bs)
    requires Permitted(Load(db, bs), sched)
    ensures !After(Load(db, bs), sched).store.db.aborted
  {
    var w := Load(db, bs);
    TpccIndependent(db, split, bs);
    EveryStateIsLogOrder(w, sched);
    ProgressInvariant(w, sched);
    if bs != [] { BoundedInOrder(db, split, bs, After(w, sched).progress, |bs| - 1); }
  }

  /** The WAREHOUSE_SPLIT rewrite: any run of the split form ends like any run of the joint form. */
  lemma SplitEqualsJoint(db: Database, log: seq<Txn>, joint: seq<nat>, split: seq<nat>)
    requires Loaded(db) && WellFormedLog(db.scale, log) && LogWithinBudget(db.scale, true, log)
    requires Finishes(LogWorkload(db, log, false), joint) && Finishes(LogWorkload(db, log, true), split)
    ensures After(LogWorkload(db, log, false), joint).store.db == After(LogWorkload(db, log, true), split).store.db
  {
    SplitBudgetIsTighter(LogCounts(db.scale, log));
    TpccIsDeterministic(db, log, false, joint);
    TpccIsDeterministic(db, log, true, split);
  }

  lemma SplitBudgetIsTighter(n: seq<nat>)
    requires ClearOf(true, n)
    ensures ClearOf(false, n)
  {
    assert forall g, h | 0 <= g < h < |n| :: Concurrent(true, g, h);
  }
}
