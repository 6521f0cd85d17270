/** From the log generator to the final database: which TPC-C laws survive when a file that generate_tpcc.py
    writes is read back byte by byte and replayed on a freshly loaded database. */
module GeneratedLog {
  import opened Common
  import opened LogRecords
  import K = TpccKeys
  import opened TpccBudget
  import opened Tpcc
  import opened TpccRun
  import opened TpccDeterminism
  import opened TpccConsistency
  import opened TpccBound
  import opened TpccLines
  import opened Runtime
  import Loader

  /** One turn of the generator's loop: the record type and the drawn parameters. */
  datatype Request = Request(kind: nat, p: Params)

  /** What the generator may draw: NewOrders (type 0) with 5 to 15 lines, Payments (type 1) without lines. */
  ghost predicate Drawn(scale: nat, r: Request) {
    var p := r.p;
    && K.DistrictId(scale, p.w_id, p.d_id) && 1 <= p.c_id <= K.CUSTOMERS_PER_DISTRICT
    && r.kind <= 1
    && p.ol_cnt == |p.i_ids| == |p.i_w_ids| == |p.i_qtys|
    && p.o_entry_d < TWO32 && p.h_amount < TWO32 && p.c_w_id < TWO32 && p.c_d_id < TWO32 && p.h_date < TWO32
    && (if r.kind == 0 then 5 <= p.ol_cnt <= 15 else p.ol_cnt == 0)
    && forall i | 0 <= i < |p.i_ids| ::
         1 <= p.i_ids[i] <= K.NUM_ITEMS && 1 <= p.i_w_ids[i] <= scale && 1 <= p.i_qtys[i] <= 10
  }

  ghost predicate AllDrawn(scale: nat, rs: seq<Request>) {
    K.ValidScale(scale) && |rs| < TWO32 && forall i | 0 <= i < |rs| :: Drawn(scale, rs[i])
  }

  function Record(r: Request): (bytes: Bytes)
    ensures |bytes| == TPCC_SIZE
  {
    TpccRecord(r.kind, TpccWords(r.kind, r.p))
  }

  function File(rs: seq<Request>): Bytes {
    LogFile(seq(|rs|, i requires 0 <= i < |rs| => Record(rs[i])))
  }

  /** TPCCTransactionMarshalled laid over 576 bytes. */
  function Decode(bytes: Bytes): (t: Txn)
    requires |bytes| == TPCC_SIZE
    ensures t.Marshalled()
  {
    Txn(bytes[0], seq(PARAMS, j requires 0 <= j < PARAMS => Param(bytes, j)))
  }

  lemma DrawnFits(scale: nat, r: Request)
    requires K.ValidScale(scale) && Drawn(scale, r)
    ensures Fits(TpccWords(r.kind, r.p))
  {}

  /** The decoded record names existing rows and is the drawn transaction: same type, same ids, and an amount
      that is zero for every NewOrder and the drawn one for every Payment. */
  lemma DecodedRequest(scale: nat, r: Request)
    requires K.ValidScale(scale) && Drawn(scale, r)
    ensures var t := Decode(Record(r));
            && WellFormed(scale, t) && QuantitiesInRange(t)
            && (t.IsNewOrder() <==> r.kind == 0) && (t.IsPayment() <==> r.kind == 1)
            && t.W() == r.p.w_id && t.D() == r.p.d_id && t.C() == r.p.c_id
            && t.Amount() == (if r.kind == 1 then r.p.h_amount else 0)
            && t.ItemNumber() == t.RowNumber() == |r.p.i_ids|
            && forall i | 0 <= i < |r.p.i_ids| ::
                 t.ItemId(i + 1) == r.p.i_ids[i] && t.SupplyW(i + 1) == r.p.i_w_ids[i] && t.Qty(i + 1) == r.p.i_qtys[i]
  {
    DecodedFields(scale, r);
    DecodedLines(scale, r, Decode(Record(r)));
  }

  /** Field by field, the struct reads back what was drawn. */
  lemma DecodedFields(scale: nat, r: Request)
    requires K.ValidScale(scale) && Drawn(scale, r)
    ensures var t := Decode(Record(r));
            && t.kind == r.kind && t.W() == r.p.w_id && t.D() == r.p.d_id && t.C() == r.p.c_id
            && t.Amount() == (if r.kind == 1 then r.p.h_amount else 0)
            && t.ItemNumber() == t.RowNumber() == |r.p.i_ids|
            && forall i: nat | i < |r.p.i_ids| ::
                 t.ItemId(i + 1) == r.p.i_ids[i] && t.SupplyW(i + 1) == r.p.i_w_ids[i] && t.Qty(i + 1) == r.p.i_qtys[i]
  {
    DrawnFits(scale, r);
    TpccRoundTrip(r.kind, r.p, 0);
    var t := Decode(Record(r));
    forall i: nat | i < |r.p.i_ids|
      ensures t.ItemId(i + 1) == r.p.i_ids[i] && t.SupplyW(i + 1) == r.p.i_w_ids[i] && t.Qty(i + 1) == r.p.i_qtys[i]
    {
      TpccRoundTrip(r.kind, r.p, i);
    }
  }

  lemma DecodedLines(scale: nat, r: Request, t: Txn)
    requires Drawn(scale, r) && t.Marshalled() && t.ItemNumber() == |r.p.i_ids|
    requires forall i: nat | i < |r.p.i_ids| ::
               t.ItemId(i + 1) == r.p.i_ids[i] && t.SupplyW(i + 1) == r.p.i_w_ids[i] && t.Qty(i + 1) == r.p.i_qtys[i]
    ensures forall i: nat | 1 <= i <= t.ItemNumber() :: 1 <= t.SupplyW(i) <= scale && 1 <= t.ItemId(i) <= K.NUM_ITEMS
    ensures forall i: nat | 1 <= i <= t.ItemNumber() :: 1 <= t.Qty(i) <= 10
  {
    forall i: nat | 1 <= i <= t.ItemNumber()
      ensures 1 <= t.SupplyW(i) <= scale && 1 <= t.ItemId(i) <= K.NUM_ITEMS && 1 <= t.Qty(i) <= 10
    {
      var j: nat := i - 1;
      assert t.ItemId(j + 1) == r.p.i_ids[j];
    }
  }

  /** The log as the dispatcher's stages walk it: entry k is what the k-th read head points at. */
  ghost function ReadLog(scale: nat, rs: seq<Request>): (log: seq<Txn>)
    requires AllDrawn(scale, rs)
    ensures |log| == |rs| && WellFormedLog(scale, log)
    ensures forall k | 0 <= k < |rs| :: log[k] == Decode(Record(rs[k]))
  {
    var f := File(rs);
    FileWalk(scale, rs);
    seq(|rs|, k requires 0 <= k < |rs| =>
      var at := ReadHead(TPCC_SIZE, k); Decode(f[at..at + TPCC_SIZE]))
  }

  lemma FileWalk(scale: nat, rs: seq<Request>)
    requires AllDrawn(scale, rs)
    ensures forall k {:trigger ReadHead(TPCC_SIZE, k)} | 0 <= k < |rs| ::
              var at := ReadHead(TPCC_SIZE, k);
              && at + TPCC_SIZE <= |File(rs)|
              && File(rs)[at..at + TPCC_SIZE] == Record(rs[k])
              && WellFormed(scale, Decode(Record(rs[k])))
  {
    var records := seq(|rs|, i requires 0 <= i < |rs| => Record(rs[i]));
    forall k {:trigger ReadHead(TPCC_SIZE, k)} | 0 <= k < |rs|
      ensures var at := ReadHead(TPCC_SIZE, k);
              && at + TPCC_SIZE <= |File(rs)|
              && File(rs)[at..at + TPCC_SIZE] == Record(rs[k])
              && WellFormed(scale, Decode(Record(rs[k])))
    {
      LogWalk(records, TPCC_SIZE, k);
      DecodedRequest(scale, rs[k]);
    }
  }

  /** Generated NewOrders carry no amount, so they leave every balance alone. */
  lemma {:induction false} NoNewOrderAmounts(log: seq<Txn>, wkey: nat)
    requires forall i | 0 <= i < |log| :: log[i].Marshalled() && (log[i].IsNewOrder() ==> log[i].params[52] == 0)
    ensures NewOrderAmounts(log, wkey) == 0
  {
    if log != [] { NoNewOrderAmounts(log[..|log| - 1], wkey); }
  }

  /** Three of the laws, relative to the database that was loaded: year-to-date differences are what they were,
      stocks hold 10 to 100 and no line counted as remote, and what every customer paid has left the balance. */
  ghost predicate KeepsBalances(db: Database, r: Database)
    requires Valid(db) && Valid(r) && r.scale == db.scale
  {
    && (forall k: nat | k < db.scale :: YtdGap(r, k) == YtdGap(db, k))
    && (forall k: nat | k < |r.stocks| :: 10 <= r.stocks[k].s_quantity <= 100 && r.stocks[k].s_remote_cnt == db.stocks[k].s_remote_cnt)
    && (forall k: nat | k < |r.customers| :: r.customers[k].c_balance + r.customers[k].c_ytd_payment == 0)
  }

  /** What the loader builds keeps all four laws to begin with. */
  method LoadConsistent(scale: nat, r: Loader.Draws) returns (db: Database)
    requires K.ValidScale(scale) && Loader.InRange(r)
    ensures Loaded(db) && db.scale == scale && OrderIdsExact(db) && KeepsBalances(db, db)
  {
    db := Loader.LoadDatabase(scale, r);
  }

  /** A log as the generator writes it. */
  ghost predicate Generated(log: seq<Txn>) {
    forall i | 0 <= i < |log| ::
      && log[i].Marshalled() && QuantitiesInRange(log[i])
      && (log[i].IsNewOrder() ==> log[i].params[52] == 0 && log[i].params[51] != 1)
  }

  lemma ReadLogIsGenerated(scale: nat, rs: seq<Request>)
    requires AllDrawn(scale, rs)
    ensures Generated(ReadLog(scale, rs))
  {
    var log := ReadLog(scale, rs);
    forall k | 0 <= k < |log|
      ensures log[k].Marshalled() && QuantitiesInRange(log[k])
      ensures log[k].IsNewOrder() ==> log[k].params[52] == 0 && log[k].params[51] != 1
    {
      DecodedRequest(scale, rs[k]);
      assert log[k].Amount() == log[k].params[52] && log[k].RowNumber() == log[k].params[51];
    }
  }

  lemma {:induction false} NoRemoteLines(log: seq<Txn>, key: nat)
    requires Generated(log)
    ensures forall i | 0 <= i < |StockDemand(log, key)| :: !StockDemand(log, key)[i].remote
  {
    if log != [] {
      NoRemoteLines(log[..|log| - 1], key);
      var t := log[|log| - 1];
      if t.IsNewOrder() { NoRemoteLinesOf(t, key, t.ItemNumber()); }
    }
  }

  lemma {:induction false} NoRemoteLinesOf(t: Txn, key: nat, i: nat)
    requires t.Marshalled() && i <= 15 && t.params[51] != 1
    ensures forall l | 0 <= l < |LineDemand(t, key, i)| :: !LineDemand(t, key, i)[l].remote
  {
    if i > 0 { NoRemoteLinesOf(t, key, i - 1); }
  }

  lemma {:induction false} NoneRemote(ds: seq<Demand>)
    requires forall i | 0 <= i < |ds| :: !ds[i].remote
    ensures RemoteLines(ds) == 0
  {
    if ds != [] { NoneRemote(ds[..|ds| - 1]); }
  }

  lemma SerialKeepsBalances(db: Database, log: seq<Txn>)
    requires Valid(db) && KeepsBalances(db, db) && WellFormedLog(db.scale, log) && Generated(log)
    ensures KeepsBalances(db, ExecLog(db, log))
  {
    var r := ExecLog(db, log);
    forall k: nat | k < db.scale ensures YtdGap(r, k) == YtdGap(db, k) {
      YtdOverRuns(db, log, k);
      NoNewOrderAmounts(log, k);
    }
    forall k: nat | k < |r.stocks|
      ensures 10 <= r.stocks[k].s_quantity <= 100 && r.stocks[k].s_remote_cnt == db.stocks[k].s_remote_cnt
    {
      StockOverRuns(db, log, k);
      NoRemoteLines(log, k);
      NoneRemote(StockDemand(log, k));
    }
    forall k: nat | k < |r.customers| ensures r.customers[k].c_balance + r.customers[k].c_ytd_payment == 0 {
      CustomerOverRuns(db, log, k);
    }
  }

  lemma FittingOrdersHaveRoom(db: Database, log: seq<Txn>)
    requires Loaded(db) && WellFormedLog(db.scale, log) && LogFits(db.scale, log)
    ensures db.orders.cnt + NewOrders(log) <= K.TSizeOrder(db.scale)
  {
    NewOrdersByDistrict(db.scale, log);
  }

  /** Any file the generator can write, replayed in either form under any permitted schedule on a loaded
      database, keeps the balance, stock and customer laws; and it keeps the order-id law if and only if it gives
      no district more than MAX_ORDER_TRANSACTIONS new orders.  The file must be within the budget of the form;
      with one warehouse the joint form needs none. */
  lemma GeneratedReplayIsConsistent(db: Database, rs: seq<Request>, split: bool, sched: seq<nat>)
    requires Loaded(db) && OrderIdsExact(db) && KeepsBalances(db, db) && AllDrawn(db.scale, rs)
    requires Replayable(db.scale, split, ReadLog(db.scale, rs))
    requires Finishes(LogWorkload(db, ReadLog(db.scale, rs), split), sched)
    ensures var log := ReadLog(db.scale, rs); var r := After(LogWorkload(db, log, split), sched).store.db;
            && Valid(r) && r.scale == db.scale && KeepsBalances(db, r)
            && (LogFits(db.scale, log) ==> (OrderIdsExact(r) <==> WithinOrderBound(db.scale, log)))
  {
    var log := ReadLog(db.scale, rs);
    ReadLogIsGenerated(db.scale, rs);
    ReplayEndsSerially(db, log, split, sched);
    SerialKeepsBalances(db, log);
    if LogFits(db.scale, log) {
      FittingOrdersHaveRoom(db, log);
      OrderIdsIff(db, log);
    }
  }

  // ---------------------------------------------------------------------------
  // The file the generator writes by default
  // ---------------------------------------------------------------------------

  const TX_COUNT := 1_000_000

  /** One million records for one warehouse, NewOrders and Payments in turn. */
  ghost predicate DefaultFile(rs: seq<Request>) {
    AllDrawn(1, rs) && |rs| == TX_COUNT && forall i | 0 <= i < |rs| :: rs[i].kind == i % 2
  }

  lemma {:induction false} AlternatingOrders(log: seq<Txn>, k: nat)
    requires k <= |log| && forall i | 0 <= i < |log| :: log[i].Marshalled() && (log[i].IsNewOrder() <==> i % 2 == 0)
    ensures NewOrders(log[..k]) == (k + 1) / 2
  {
    if k > 0 {
      AlternatingOrders(log, k - 1);
      assert log[..k][..k - 1] == log[..k - 1];
    }
  }

  lemma {:induction false} SumAtLeast(n: seq<nat>, g: nat)
    requires g < |n|
    ensures n[g] <= Sum(n)
  {
    if g < |n| - 1 { SumAtLeast(n[..|n| - 1], g); }
  }

  /** With one warehouse every log of up to a million records is within the joint budget. */
  lemma MillionFits(log: seq<Txn>)
    requires WellFormedLog(1, log) && |log| <= TX_COUNT
    ensures LogWithinBudget(1, false, log)
  {
    var n := LogCounts(1, log);
    NewOrdersByDistrict(1, log);
    forall g | 0 <= g < |n| && n[g] > 0 ensures SlotsFit(1, g, n[g]) { SumAtLeast(n, g); }
  }

  lemma TooManyForTheBound(scale: nat, log: seq<Txn>)
    requires K.ValidScale(scale) && WellFormedLog(scale, log)
    requires NewOrders(log) > K.DistrictCount(scale) * K.MAX_ORDER_TRANSACTIONS
    ensures !WithinOrderBound(scale, log)
  {
    NewOrdersByDistrict(scale, log);
    if WithinOrderBound(scale, log) { SumBound(LogCounts(scale, log), K.MAX_ORDER_TRANSACTIONS); }
  }

  /** The default file, replayed by the default build: nothing overflows and the three laws are kept, but half a
      million new orders are more than the order tables' numbering has slots for, so the order-id law is broken. */
  lemma DefaultReplay(db: Database, rs: seq<Request>, sched: seq<nat>)
    requires Loaded(db) && OrderIdsExact(db) && KeepsBalances(db, db) && db.scale == 1 && DefaultFile(rs)
    requires Finishes(LogWorkload(db, ReadLog(1, rs), false), sched)
    ensures LogWithinBudget(1, false, ReadLog(1, rs))
    ensures var r := After(LogWorkload(db, ReadLog(1, rs), false), sched).store.db;
            Valid(r) && r.scale == 1 && !r.aborted && KeepsBalances(db, r) && !OrderIdsExact(r)
  {
    var log := ReadLog(1, rs);
    MillionFits(log);
    GeneratedReplayIsConsistent(db, rs, false, sched);
    forall i | 0 <= i < |log| ensures log[i].IsNewOrder() <==> i % 2 == 0 { DecodedRequest(1, rs[i]); }
    AlternatingOrders(log, |log|);
    assert log[..|log|] == log;
    TooManyForTheBound(1, log);
    SpawnedWithinBudget(1, false, log);
    NothingOverflows(db, false, SpawnAll(log, false), sched);
  }
}
