# DORADD, modelled and verified in Dafny

DORADD replays a transaction log through a pipeline of dispatcher threads, spawns each transaction as a
behaviour over the rows ("cowns") it touches, and promises that the parallel result equals the serial one.
This project models that pipeline, the runtime contract, the TPC-C and YCSB transactions, the log formats and
the repository's lookup experiments, and proves the promise.

`dafny verify dfyconfig.toml` checks everything.

## What is proved

**The runtime.** `Runtime` takes the contract of `when(...)` as its only scheduling rule: a behaviour holds its
cowns exclusively, and each cown serves its behaviours in spawn order. Between the atomic steps of one behaviour
any other may run. If pending steps of behaviours without a common cown commute, every reachable store is the
log-order store of the steps taken; runs never get stuck and always end.

**TPC-C.** `Tpcc` holds the rows, the tables and the transactions; `TpccEngine` the same bodies as they update
fields in place. `TpccRun` and `TpccDeterminism` discharge the commutation condition, with inserts into shared
tables as the hard case, and conclude determinism for joint and split transactions. `TpccBudget` says how many new
orders each district may take, and `TpccBound` proves that this is exact: all logs within given allowances are
deterministic if and only if the allowances keep concurrent districts apart. In the split form any two districts
are concurrent, and 6840 orders per district is the uniform bound. In the joint form only districts of different
warehouses are, so district j (from 0) of a warehouse may take 6840 * (10 - j); with one warehouse, the number the
repository ships with, the joint form is deterministic for every log. Concrete logs and runs past the bound are
given for both forms. The order-id law holds if and only if no district takes more than `MAX_ORDER_TRANSACTIONS` =
3840 new orders, and all order lines of all logs are kept if and only if no district takes more than 13680 per
district of distance. `TpccConsistency` and `TpccLines` prove the order-id, stock, balance and order-line laws over every
run, each in terms of the records' parameters; `TpccKeys` and `Loader` the key arithmetic and the loaded state.

**The pipeline.** `Walk` describes how each stage walks the circular log as a function of the batch sizes.
`Pipeline` is the step relation of the four threads with an inductive invariant; `PipelineLaws` and
`PipelineProgress` derive conservation, timestamps, bounds, dispatch order, lockstep, preparation before dispatch
and progress, and say which batch each check takes and where each thread waits. `FileDispatcher` is the single-core dispatcher. `EndToEnd` joins pipeline and runtime through the
records' cown slots: what the Indexer has filled in by the time of a dispatch is what the Spawner hands to
`when(...)`. In the first lap, or in any lap with equal batches, replicas agree for every arrival pattern, every
interleaving of stages and every execution order, as long as the Indexer stays ahead and inside the log; in the
first lap it is always ahead, and it is inside while at most `count - MAX_BATCH + 1` requests have been taken in.

**Lookups, profiler, hash map, YCSB, logs.** `Lookup`, `SmLookup` and `CoroLookup` refine plain binary search;
`ProfilePipeline` proves deadlock freedom and termination for any number of stages; `HashMap` ties the buckets
and the three batched lookups to one set; `Ycsb` compares the three forms of a transaction, says byte by byte what
it leaves in the rows, and proves its replay deterministic; `LogRecords` and `GeneratedLog` go from the generators' bytes to the final database. The file
that the TPC-C generator writes by default keeps the balance, stock and customer laws and breaks the order-id law.

## Properties that hold only conditionally

- Determinism and the order-id law: exactly within the bounds above.
- Lockstep of the Indexer: its wrap guard uses the previous batch size (src/doradd/dispatcher.hpp:311), all other
  stages use `MAX_BATCH`. It keeps step if and only if no batch leaves the walk where the two guards disagree
  (`Walk.LockstepIff`), and it stays inside the log if and only if no batch is larger than the one before it where
  only the smaller one fits (`Walk.IndexerInBoundsIff`). `PipelineProgress.OutOfBoundsRun` is a run that leaves it.
- Preparation before dispatch: for every run over given batches if and only if, batch by batch, the Indexer has been
  at least as far as the Spawner (`PipelineProgress.PreparedFirstIff`). In the first lap that is always so.
  `PipelineProgress.UnpreparedDispatch` is a run that dispatches an unprepared entry.
- Staying inside the log: if and only if it has at least `MAX_BATCH` entries (`Walk.InBoundsIff`).
- Log order of dispatches: for the first `count - MAX_BATCH + 1`, and no further (`Walk.FirstLapBoundIsTight`).
- Agreement of replicas beyond the first lap: with equal batches that keep the Indexer ahead and inside the log.
- Coroutine lookups: if m is the smaller of streams and lookups, 256 * (m / 256) lookups never finish, so all do if
  and only if m < 256.

## Where code and documentation disagree

- The parameter list in app/tpcc.cc:72-78 puts `c_w_id` in slot 53; the writer packs the amount in 64 bits, so it
  is in slot 54. The transactions do not read these slots. The model follows the writer.
- `OrderLine` is constructed with the order's hash key where the constructor names an order id
  (app/tpcc.cc:26). The model passes the key, and proves where the resulting keys lie.
- `s_remote_cnt` is incremented when slot 51, the row count, is 1 (app/tpcc.cc:20). The model does the same.

## Assumptions

- `when(...)` and `make_cown` of verona-rt: exclusive access, each cown first-in first-out in spawn order.
- The SPSC queue: a bounded blocking first-in first-out ring; `front` is empty exactly when nothing is queued.
- Memory is sequentially consistent; an insertion (`map[key] = r; cnt++`) and a counter update are single steps.
- A record names existing rows, as `WellFormed` says; the scale is such that row numbers fit in 32 bits.
- Random draws, prices and clocks are arbitrary parameters within the ranges the code draws from.

## Model

| member | source | states |
|---|---|---|
| `Runtime.EveryStateIsLogOrder` | README.md:5-5 | for any workload whose behaviours commute when they share no cown, the store after every permitted schedule, finished or not, is the log-order state of the steps taken so far |
| `Runtime.Determinism` | README.md:5-5 | every permitted schedule that finishes ends in the serial, log-order store |
| `Runtime.NeverStuck` | README.md:3-5 | an unfinished configuration always has a permitted step |
| `Runtime.BoundedRuns` | README.md:3-5 | the length of a permitted schedule is the number of steps taken and is bounded by the total, so every maximal run completes |
| `TpccRun.TpccIndependent` | app/tpcc.cc:199-254 | pending steps of TPC-C behaviours without a common cown commute in every log-order state, keyed inserts included, when no district's new orders reach those of a district it may run concurrently with (any other in the split form, one of another warehouse in the joint form) and the tables have room |
| `TpccDeterminism.BehaviourRun` | app/tpcc_macros.m4:31-46 | a behaviour run without interruption, step by step, does what its transaction body does |
| `TpccDeterminism.SerialIsExecLog` | app/tpcc.cc:191-257 | the log-order state of the spawned behaviours, joint or split, is serial execution of the log |
| `TpccDeterminism.TpccIsDeterministic` | app/tpcc.cc:199-254 | for every log within the budget of its form and every permitted interleaving the final database is that of serial execution |
| `TpccDeterminism.UniformLogBudget` | app/tpcc/constants.hpp:6-7 | a log with at most 6840 new orders for every district is within the budget of either form |
| `TpccDeterminism.OneWarehouseIsSerial` | app/tpcc.cc:54-60 | with one warehouse the joint form is deterministic for every log on every valid database, without any bound |
| `TpccDeterminism.ReplayEndsSerially` | app/tpcc.cc:199-254 | the two together: within the budget of the form, or joint with one warehouse |
| `TpccBudget.UniformIsClearIff` | app/tpcc/constants.hpp:6-7 | the same allowance for every district is within budget if and only if it is at most 6840, or the form is joint and there is one warehouse |
| `TpccBudget.JointBudget` | app/tpcc/entries.hpp:149-159 | in the joint form with orders everywhere, the budget is exactly 6840 * (10 - j) for district j of every warehouse but the last |
| `TpccBound.DeterminismIff` | app/tpcc.cc:199-254 | for any per-district allowances that the tables have room for, all logs within them are deterministic if and only if the allowances keep concurrent districts apart, in either form |
| `TpccBound.UniformDeterminismIff` | app/tpcc/constants.hpp:6-7 | for one allowance for all districts: if and only if it is at most 6840, or the form is joint with one warehouse |
| `TpccBound.CollidingRun` | app/tpcc_macros.m4:36-43 | for any two concurrent districts, the log that reaches from one to the other has a finished run whose order table differs from the serial one |
| `TpccBound.SplitWitness` | app/tpcc.cc:50-53 | split form, one warehouse: 6841 orders in district 1 and one in district 2, and the run that differs |
| `TpccBound.JointWitness` | app/tpcc.cc:54-60 | joint form, two or more warehouses: 6841 orders in district 10 of the first and one in district 1 of the second, and the run that differs |
| `TpccDeterminism.SplitEqualsJoint` | app/tpcc.cc:50-61 | within the split budget, any finished run of the WAREHOUSE_SPLIT form ends in the same database as any finished run of the joint form |
| `TpccDeterminism.NothingOverflows` | app/tpcc/tables.hpp:41-53 | within budget no insertion throws in any state of any permitted execution |
| `TpccBound.CountersOverRuns` | app/tpcc_macros.m4:36-38 | the order-id counter of a district counts its new orders over any log, and no record inserts more than one order |
| `Tpcc.RowNumbers` | app/tpcc.cc:102-156 | which records are NewOrders and Payments, and the row numbers of their rows in terms of params, free of the wrap-around in the key functions |
| `Tpcc.CownsByRow` | app/tpcc.cc:199-254 | a behaviour takes exactly the cowns of the rows that its parameters number: stock and item of each line, district and customer, and the warehouse where it updates it |
| `TpccConsistency.OrderIdsOverRuns` | app/tpcc_macros.m4:36-43 | over every log with at most 3840 new orders per district, order ids of a district are exactly 1 to d_next_o_id - 1 and new-order ids exactly 3001 to d_next_o_id - 1, each row in its own slot (sections 3.3.2.2 and 3.3.2.3 of TPC-C 5.11.0) |
| `TpccBound.OrderIdsIff` | app/tpcc_macros.m4:36-43 | for any log whose new orders the order table has room for, the order tables are exact afterwards if and only if no district takes more than 3840 |
| `TpccBound.PastOrderBound` | app/tpcc_macros.m4:36-43 | once a district has taken 3841, the next district's first slot holds an order placed since loading, and nothing placed later repairs it |
| `TpccBound.OrderIdsWitness` | app/tpcc/constants.hpp:6-7 | 3841 orders in one district break the law |
| `TpccConsistency.NewOrderKeepsOrderIds` | app/tpcc_macros.m4:36-43 | one NewOrder body, with or without the warehouse update, keeps the exact order-id tables |
| `TpccConsistency.QuiescentStatesAreSerial` | app/tpcc.cc:199-254 | in every quiescent state of every permitted execution, joint or split, the database is the finished behaviours run one after another in spawn order |
| `TpccConsistency.JointRunsAreRecords` | app/tpcc.cc:54-60 | in the joint form that is serial execution of the finished records |
| `TpccConsistency.OrderIdsAtEveryQuiescentState` | app/tpcc_macros.m4:36-43 | the order-id law holds at every quiescent point of every permitted execution, joint or split |
| `TpccConsistency.StockRowOverRuns` | app/tpcc.cc:13-22 | each stock row sees exactly the demand that names it, in log order, read off the parameters; a line is remote when params[51] is 1 |
| `TpccConsistency.StockLaw` | app/tpcc.cc:13-22 | with quantities 1 to 10 a stock row stays in 10..100 without underflow, and quantity plus s_ytd is the initial sum plus 91 per restock (section 2.4.2.2 of TPC-C 5.11.0) |
| `TpccConsistency.StockOverRuns` | app/tpcc.cc:13-22 | that law for every stock row over every log; s_ytd, s_order_cnt and s_remote_cnt grow by exactly the quantities, the lines and the lines of records with params[51] == 1 that name the row, and its ids stay |
| `TpccConsistency.YtdOverRuns` | app/tpcc.cc:50-61 | w_ytd minus the sum of its districts' d_ytd moves by exactly the amounts that NewOrder records carry (section 3.3.2.1 of TPC-C 5.11.0 as a preserved difference) |
| `TpccConsistency.YtdRowsOverRuns` | app/tpcc.cc:237-253 | over every log w_ytd of each warehouse grows by exactly params[52] of all NewOrder and Payment records that name it, d_ytd of each district by exactly params[52] of its Payments, d_next_o_id by its new orders; nothing else in these rows changes, and items never do |
| `TpccConsistency.CustomerOverRuns` | app/tpcc.cc:244-247 | c_balance plus c_ytd_payment never changes; c_ytd_payment and c_payment_cnt add up the payments that name the customer by params[0] to params[2], and the ids stay |
| `TpccLines.EveryLineIsKept` | app/tpcc.cc:24-35 | while no district takes more than 13680 new orders per district of distance, every line of every new order is, at the end of the log, in the slot its key names, with its own ids, item, supply warehouse and quantity, and with the whole number a for which a <= price * quantity < a + 1 |
| `TpccLines.LineIsThereIff` | app/tpcc.cc:24-35 | for any log the tables have room for, a line with those fields and that amount is there at the end if and only if no later order has a line in its slot |
| `TpccLines.SharesSlotIff` | app/tpcc.cc:24-35 | which orders of a log have lines in one slot, by line number, order id and district |
| `TpccLines.LinesKeptIff` | app/tpcc.cc:24-35 | all logs within given allowances keep all their lines if and only if the allowances respect 13680 per district of distance |
| `TpccLines.OtherLinesUnchanged` | app/tpcc.cc:24-35 | an order-line slot that no new order names holds what was loaded |
| `TpccLines.LoadedLineFate` | app/tpcc/generator.hpp:418-440 | a loaded line survives a log unless a new order's line covers its slot, in which case the last line that does is there; which lines cover it is stated by ids and districts |
| `TpccLines.LinesHaveRoom` | app/tpcc/tables.hpp:41-53 | no log whose new orders fit the tables fills the order-line table |
| `TpccLines.ThrowsIff` | app/tpcc/tables.hpp:41-53 | over any log each growing table counts its insertions up to its size, and an insertion throws if and only if some table is asked for more rows than its size |
| `TpccEngine.Engine.UpdateStock` | app/tpcc.cc:13-22 | the in-place statements with unsigned arithmetic amount to the stock update function |
| `TpccEngine.Engine.AllLines` | app/tpcc_macros.m4:15-18 | the generated chain of lines is the fold of single lines in line order |
| `TpccEngine.Engine.NewOrderTxn` | app/tpcc_macros.m4:31-46 | the joint NewOrder body refines the reference transaction |
| `TpccEngine.Engine.PaymentTxn` | app/tpcc.cc:237-253 | the joint Payment body refines the reference transaction |
| `TpccEngine.Engine.Replay` | app/tpcc.cc:191-257 | replaying a log record by record is serial execution of the log |
| `TpccEngine.PrepareCowns` | app/tpcc.cc:102-156 | for any type byte and any item count that stays inside the slots: fills the row cowns of a NewOrder or Payment and a stock and an item slot per line, and leaves all other slots alone |
| `TpccEngine.GeneratedWhenTakesItsCowns` | app/tpcc_macros.m4:25-26 | from filled slots the expanded WHEN_PARAMS names exactly the cowns of the behaviour |
| `TpccEngine.HandsOverItsCowns` | app/tpcc.cc:199-254 | a record whose slots are filled hands to each when(...), in either form, exactly the cowns its behaviour uses |
| `TpccKeys.DistrictKeyBijection` | app/tpcc/entries.hpp:57-65 | district keys are a bijection onto 0..TSIZE_DISTRICT-1 |
| `TpccKeys.CustomerKeyBijection` | app/tpcc/entries.hpp:120-130 | customer keys are a bijection onto 0..TSIZE_CUSTOMER-1 |
| `TpccKeys.StockKeyBijection` | app/tpcc/entries.hpp:243-251 | stock keys are a bijection onto 0..TSIZE_STOCK-1 |
| `TpccKeys.OrderKeyValue` | app/tpcc/entries.hpp:149-159 | both order keys, despite 32-bit wrap-around, are the mixed-radix number while it fits 32 bits, and inside both tables up to id 9841 |
| `TpccKeys.OrderKeyInjective` | app/tpcc/entries.hpp:149-159 | order keys up to id 6840 are equal exactly for equal ids |
| `TpccKeys.NewOrderKeyInjective` | app/tpcc/entries.hpp:204-214 | keys of new orders, ids 3001 to 9840, are equal exactly for equal ids |
| `TpccKeys.OrderKeysMeet` | app/tpcc/entries.hpp:149-159 | two orders share a slot if and only if their ids differ by 6840 for each district between them |
| `TpccKeys.NewLinesMeet` | app/tpcc.cc:24-35 | two new orders' lines share a slot if and only if the line numbers agree and the ids differ by 13680 for each district between them |
| `TpccKeys.NewLineKeyInjective` | app/tpcc.cc:24-35 | line keys of new orders are equal exactly for equal (order, line), and inside the order-line table |
| `TpccKeys.NewLineMeetsLoadedLine` | app/tpcc/generator.hpp:418-440 | exactly when a new order's line key is a loaded line's, for every id whose key fits; up to id 9840 that is id 3001 against order 3000 of district 2g, and id o from 6842 on against order o - 6841 of district 2g + 1 |
| `TpccKeys.AllocationIsExact` | app/tpcc.cc:286-298 | the nine tables laid end to end take exactly the allocated bytes |
| `TpccKeys.RowsAreDisjoint` | app/tpcc.cc:286-298 | rows of the single-table layout never overlap and lie inside the allocation |
| `Loader.GenerateWarehouses` | app/tpcc/generator.hpp:61-105 | fills exactly the warehouse slots, each with its own row |
| `Loader.GenerateDistricts` | app/tpcc/generator.hpp:107-162 | fills exactly the district slots, each with its own row |
| `Loader.GenerateCustomers` | app/tpcc/generator.hpp:164-264 | fills exactly the customer slots, each with its own row |
| `Loader.GenerateItems` | app/tpcc/generator.hpp:266-308 | fills exactly the item slots, each with its own row |
| `Loader.GenerateStocks` | app/tpcc/generator.hpp:310-396 | fills exactly the stock slots, each with its own row |
| `Loader.GenerateOrders` | app/tpcc/generator.hpp:398-451 | loads orders 1 to 3000 of every district in their slots, and in exactly their slots their lines, each with its ids, item, quantity 5 and amount |
| `Loader.LoadDatabase` | app/tpcc/generator.hpp:61-451 | the loaded database has every row and every order line in its slot and no others, exact order tables, and meets the precondition of the determinism theorem; warehouse, district and customer rows have the literal initial values |
| `Loader.LoadedLineFields` | app/tpcc/generator.hpp:418-440 | which slots hold loaded lines, and each one: its own ids, the drawn item, its own warehouse as supplier, quantity 5, and the drawn amount, or 0 past order 2100 |
| `Walk.EntriesInBounds` | src/doradd/dispatcher.hpp:534-558 | with at least MAX_BATCH entries every batching stays inside the log |
| `Walk.InBoundsIff` | src/doradd/dispatcher.hpp:534-539 | it does so for every batching if and only if the log has at least MAX_BATCH entries |
| `Walk.FirstLapIsLogOrder` | src/doradd/dispatcher.hpp:534-558 | the first count - MAX_BATCH + 1 visited entries are 0, 1, 2, ... however the batches fall |
| `Walk.FirstLapBoundIsTight` | src/doradd/dispatcher.hpp:534-558 | one further, two batchings visit different entries |
| `Walk.LockstepIff` | src/doradd/dispatcher.hpp:302-328 | the Indexer starts every batch where the other stages do if and only if no batch straddles the end of the log |
| `Walk.FullBatchesKeepStep` | src/doradd/dispatcher.hpp:302-328 | in particular when every batch is MAX_BATCH |
| `Walk.LockstepEntries` | src/doradd/dispatcher.hpp:302-328 | in step, the Indexer prepares the entries the others visit, in the same order |
| `Walk.IndexerInBoundsIff` | src/doradd/dispatcher.hpp:302-328 | the Indexer stays inside the log if and only if no batch is larger than the one before it where only the smaller one fits |
| `Walk.EarlyBatchesFit` | src/doradd/dispatcher.hpp:302-328 | whatever the batch sizes, the Indexer is inside the log while they sum to at most count - MAX_BATCH + 1 |
| `Walk.PreparedIff` | src/doradd/dispatcher.hpp:302-328 | every visited entry has been prepared if and only if the Indexer has been at least as far as the other stages |
| `Walk.IndexerFirstLap` | src/doradd/dispatcher.hpp:302-328 | the first count - MAX_BATCH + 1 entries the Indexer prepares are 0, 1, 2, ... for every batching |
| `Walk.LockstepInBounds` | src/doradd/dispatcher.hpp:302-328 | in step, every batch of the Indexer fits in the log |
| `Walk.UnpreparedEntry` | src/doradd/dispatcher.hpp:311-311 | batches 4, 1, 2, 2, 4 over eight entries visit an entry the Indexer never prepares |
| `Walk.IndexerOutOfBounds` | src/doradd/dispatcher.hpp:311-311 | batches 4, 1, 4 over eight entries take the Indexer past the end of the log |
| `Pipeline.StepKeepsInv` | src/doradd/dispatcher.hpp:302-328 | every atomic step of every thread keeps the pipeline invariant |
| `Pipeline.ReachableInv` | src/doradd/dispatcher.hpp:503-581 | the invariant holds in every reachable state |
| `PipelineLaws.RequestsAreConserved` | src/doradd/dispatcher.hpp:541-560 | handled, prefetched and dispatched requests differ by exactly the batches in each ring and in flight in each stage |
| `PipelineLaws.IndexerTakesBacklog` | src/doradd/dispatcher.hpp:277-300 | in every reachable state, when requests are outstanding at the check the Indexer moves to min(received, handled + 4), appends exactly that difference to the sizes, and leaves the counter and the ring alone |
| `PipelineLaws.WaitsExactlyWhen` | src/doradd/dispatcher.hpp:302-328 | in every reachable state each stage waits exactly where the code does: the Indexer on no outstanding request or a full ring, the Prefetcher on an empty ring before it or a full one after it, the Spawner on an empty ring, and the request handler after RPC_LOG_SIZE requests |
| `PipelineLaws.CountersAreOrdered` | src/doradd/rpc_handler.hpp:40-51 | spawned <= prefetched <= handled <= received <= RPC_LOG_SIZE in every reachable state |
| `PipelineLaws.TimestampsBelongToRequests` | src/doradd/dispatcher.hpp:488-495 | the k-th dispatch reads the k-th timestamp, which has been written and is in bounds |
| `PipelineLaws.DispatchedIsWalk` | src/doradd/dispatcher.hpp:503-581 | what has been dispatched is a prefix of the walk over the batch sizes taken in |
| `PipelineLaws.DispatchesInBounds` | src/doradd/dispatcher.hpp:534-558 | every dispatched entry is inside the log |
| `PipelineLaws.FirstDispatchesAreLogOrder` | src/doradd/dispatcher.hpp:534-558 | for every timing the first count - MAX_BATCH + 1 dispatches are log entries in order |
| `PipelineLaws.PrefetcherAndSpawnerKeepStep` | src/doradd/dispatcher.hpp:359-410 | Prefetcher and Spawner start their k-th batch at the same in-bounds entry |
| `PipelineLaws.IndexerAndSpawnerStarts` | src/doradd/dispatcher.hpp:302-328 | where Indexer and Spawner start their batches, as functions of the sizes |
| `PipelineLaws.DispatchedWasPrepared` | src/doradd/dispatcher.hpp:302-328 | in lockstep the k-th dispatched entry is the k-th prepared one |
| `PipelineLaws.PreparedByThen` | src/doradd/dispatcher.hpp:302-328 | if batch by batch the Indexer has been at least as far as the Spawner, every dispatched entry has been prepared, in every reachable state |
| `PipelineLaws.FirstLapIsPrepared` | src/doradd/dispatcher.hpp:302-328 | in the first lap, for every timing and batching, the k-th dispatched entry is the k-th prepared one and both are k |
| `PipelineProgress.PreparedFirstIff` | src/doradd/dispatcher.hpp:311-311 | every run over given batches prepares each entry before dispatching it if and only if that condition holds |
| `PipelineProgress.IndexerStaysInsideIff` | src/doradd/dispatcher.hpp:311-311 | no run over given batches takes the Indexer out of the log if and only if no batch runs over |
| `PipelineProgress.EarlyStaysInside` | src/doradd/dispatcher.hpp:277-300 | in every reachable state in which at most count - MAX_BATCH + 1 requests have been taken in, the Indexer is inside the log |
| `PipelineProgress.OutOfBoundsRun` | src/doradd/dispatcher.hpp:311-311 | a run from the start that prepares an entry past the end of the log |
| `PipelineLaws.FullBatchesArePrepared` | src/doradd/dispatcher.hpp:302-328 | so with full batches nothing is dispatched unprepared |
| `PipelineLaws.BacklogGivesFullBatches` | src/doradd/dispatcher.hpp:277-300 | if at every check of a run at least MAX_BATCH requests are outstanding, every batch is full |
| `PipelineLaws.BacklogIsPrepared` | src/doradd/dispatcher.hpp:302-328 | so under such a backlog nothing is dispatched unprepared, over any number of laps |
| `PipelineProgress.StuckOnlyWhenDone` | src/doradd/dispatcher.hpp:503-581 | no deadlock: when no stage can step, every counted request has been dispatched and both rings are empty |
| `PipelineProgress.BoundedBetweenArrivals` | src/doradd/dispatcher.hpp:302-328 | between arrivals the stages take only boundedly many steps |
| `PipelineProgress.EveryBatchingHappens` | src/doradd/dispatcher.hpp:277-300 | every sequence of batch sizes that fits the timestamp log is taken by some run |
| `PipelineProgress.UnpreparedDispatch` | src/doradd/dispatcher.hpp:311-311 | a run from the start that dispatches an entry the Indexer never prepared |
| `FileDispatcher.Dispatcher.DispatchBatch` | src/doradd/dispatcher.hpp:151-192 | takes in requests up to min(received, handled + 4), then prepares and dispatches that next batch of the walk; what is prepared is what is dispatched |
| `FileDispatcher.SpawnerMatchesFileDispatcher` | src/doradd/dispatcher.hpp:151-192 | for the same batch sizes the Spawner dispatches the entries the single-core dispatcher does |
| `EndToEnd.DispatchedIsLogPrefix` | src/doradd/dispatcher.hpp:534-558 | in the first lap the pipeline hands the runtime the log itself, every record prepared |
| `EndToEnd.ReplayIsSerial` | README.md:5-5 | in any lap, for every arrival pattern, stage interleaving, form and schedule, if the Indexer was ahead and stayed inside the log: at each dispatch the behaviours were handed their own cowns, and the database is serial execution of the dispatched records |
| `EndToEnd.FirstLapIsSerial` | README.md:5-5 | in the first lap, if the Indexer has not left the log: at each dispatch the behaviours were handed their own cowns, and the database is serial execution of the dispatched prefix of the log |
| `EndToEnd.EarlyReplayIsSerial` | README.md:5-5 | the same for every batching while at most count - MAX_BATCH + 1 requests have been taken in |
| `EndToEnd.DispatchHandsOver` | app/tpcc.cc:199-204 | at a dispatch step, if the Indexer is ahead and inside the log, the record's slots are filled at that moment and each when(...) is handed exactly its behaviour's cowns |
| `EndToEnd.FirstLapHandsOver` | app/tpcc.cc:199-204 | in the first lap that holds at every dispatch step while the Indexer is inside the log, for every batching |
| `EndToEnd.ReplicasWithEqualBatchesAgree` | README.md:8-8 | replicas that took the same batches agree in every lap, and every dispatch of either handed over its own cowns, if these batches keep the Indexers ahead and inside the log |
| `EndToEnd.ReplicasAgree` | README.md:8-8 | in the first lap two replicas that have dispatched equally many transactions, and whose Indexers have not left the log, hold the same database, and every dispatch of either handed over its own cowns |
| `Lookup.NaiveBinarySearch` | app/prefetch/coro_bin_search/naive.h:3-20 | the loop answers as the recursive search does, with at most as many probes as the length has binary digits |
| `Lookup.NaiveDecidesMembership` | app/prefetch/coro_bin_search/naive.h:3-20 | on a sorted vector the search finds a value if and only if it is there |
| `Lookup.CountFoundIsMembership` | app/prefetch/coro_bin_search/naive.h:3-20 | so the number found is the number of lookups that occur in the vector |
| `Lookup.Frame.Init` | app/prefetch/coro_bin_search/sm.h:22-39 | a fresh frame will find what the plain search finds |
| `Lookup.Frame.Run` | app/prefetch/coro_bin_search/sm.h:41-64 | one probe leaves at most half of the search, keeps its answer, and ends in FOUND exactly for a find |
| `Lookup.SmBinarySearch` | app/prefetch/coro_bin_search/sm.h:67-73 | the state machine run alone answers as the plain search |
| `SmLookup.FrameVector.RunUntilDone` | app/prefetch/coro_bin_search/sm.h:92-102 | the inner endless loop, entered with every frame live, ends at a finished frame |
| `SmLookup.FrameVector.Feed` | app/prefetch/coro_bin_search/sm.h:86-104 | a turn of the outer loop takes in the key and counts the finds it completes |
| `SmLookup.FrameVector.Drain` | app/prefetch/coro_bin_search/sm.h:106-115 | the final loop reports every find still pending |
| `SmLookup.SmMultiLookup` | app/prefetch/coro_bin_search/sm.h:76-118 | for any vector and any streams >= 1 the result is the number of lookups the plain search finds |
| `CoroLookup.SchedulerQueue.PushBack` | app/prefetch/coro_bin_search/coro_infra.h:17-20 | appends to the ring of 256 slots; into a full ring, the new handle is the only one it will yield |
| `CoroLookup.SchedulerQueue.PopFront` | app/prefetch/coro_bin_search/coro_infra.h:22-26 | yields the handles in that order, after overruns too |
| `CoroLookup.Throttler.Spawn` | app/prefetch/coro_bin_search/coro_infra.h:154-161 | for any limit: queues a new coroutine, first running the queue until one finishes if the limit is used up; a push into a full ring loses 256 |
| `CoroLookup.Throttler.Run` | app/prefetch/coro_bin_search/coro_infra.h:29-32 | for any limit: runs the ring empty, unless it holds 256 handles and so reads as empty |
| `CoroLookup.CoroMultiLookup` | app/prefetch/coro_bin_search/coro.h:27-46 | for every streams >= 1, with m = min(streams, lookups), exactly lookups - 256 * (m / 256) lookups complete, each with the plain search's answer; unless m is a multiple of 256 the found count is the plain search's for the lookups after the first 256 * (m / 256), so for all of them when m < 256 |
| `ProfilePipeline.StepKeepsInv` | app/pipeline-profile/core.hpp:69-104 | every step keeps each ring equal to what went in minus what came out |
| `ProfilePipeline.NobodyStarves` | app/pipeline-profile/core.hpp:90-104 | in a stuck state no stage waits on an empty ring |
| `ProfilePipeline.NoDeadlock` | app/pipeline-profile/core.hpp:86-153 | for any number of stages a reachable state is stuck if and only if all have processed the same number of batches and all rings are empty |
| `ProfilePipeline.WaitsExactlyWhen` | app/pipeline-profile/core.hpp:86-153 | each stage waits exactly on an empty input ring, a full output ring or having reached the termination count |
| `ProfilePipeline.RunsAreBounded` | app/pipeline-profile/test.cc:11-51 | every run is finite |
| `HashMap.FastHashMap.Find` | app/prefetch/hashmap/hashmap.hpp:61-64 | find decides membership in the set the buckets hold |
| `HashMap.FastHashMap.Insert` | app/prefetch/hashmap/hashmap.hpp:49-53 | insert adds to the set and reports whether the value was new; a new value is appended to bucket hash % size and no other bucket changes |
| `HashMap.FastHashMap.Remove` | app/prefetch/hashmap/hashmap.hpp:27-36 | swap-and-pop removal takes exactly the value out of the set, in its own bucket, and leaves the other buckets alone |
| `HashMap.SwapAndPop` | app/prefetch/hashmap/hashmap.hpp:27-36 | moving the last value into the hole keeps every other value and no duplicate |
| `HashMap.FastHashMap.FindMultipleSimple` | app/prefetch/hashmap/hashmap.hpp:66-74 | the plain loop answers membership of each value |
| `HashMap.FastHashMap.FindMultipleInterleave` | app/prefetch/hashmap/hashmap.hpp:84-113 | the look-ahead form answers the same for inputs of at least look_ahead values |
| `HashMap.FastHashMap.FindMultipleBatch` | app/prefetch/hashmap/hashmap.hpp:115-143 | the batched form answers the same for every input |
| `Ycsb.ProcessTxn` | app/txn_profile.cpp:61-80 | the loop leaves the rows of the reference transaction, for every write set and index array |
| `Ycsb.ProcessTxnClosure` | app/txn_profile.cpp:82-156 | the closure form leaves the same rows, aliased rows included |
| `Ycsb.ProcessTxnUnfold` | app/txn_profile.cpp:158-284 | the unrolled form leaves the same rows, aliased rows included |
| `Ycsb.ExecTxnIsTrace` | app/txn_profile.cpp:61-80 | for every write set and index array, repeated rows included: step i overwrites the first 100 bytes of its row with the sum, modulo 256, of all bytes read so far if bit i is set, and otherwise reads the row and changes nothing |
| `Ycsb.ExecTxnOnDistinctRows` | app/txn_profile.cpp:61-80 | a row named by no set bit is unchanged; for distinct rows, one with its bit set keeps its bytes from 100 on, and its first 100 are the sum, modulo 256, of all bytes of the earlier rows with clear bits |
| `Ycsb.YcsbIndependent` | app/ycsb.cc:92-159 | steps of transactions without a common row commute |
| `Ycsb.YcsbIsDeterministic` | app/ycsb.cc:92-159 | every permitted execution of a YCSB log ends in the rows of serial execution |
| `Ycsb.DisjointTransactionsMaySwap` | app/ycsb.cc:126-157 | two transactions without a common row have a permitted finished run in the opposite order |
| `LogRecords.IntegerRoundTrip` | app/ycsb/gen-log/generate_ycsb_zipf.cc:82-91 | little-endian bytes give back the integer |
| `LogRecords.ByteOf` | app/ycsb/gen-log/generate_ycsb_zipf.cc:82-91 | byte i of a written integer is the integer shifted right by 8 * i bits, modulo 256 |
| `LogRecords.GenBinTxn` | app/ycsb/gen-log/generate_ycsb_zipf.cc:75-98 | the byte-by-byte writer produces the 128-byte record |
| `LogRecords.YcsbRoundTrip` | app/ycsb.cc:53-60 | the packed struct reads back every key and the write set |
| `LogRecords.GenKeys` | app/ycsb/gen-log/generate_ycsb_zipf.cc:21-55 | ten pairwise distinct keys below the row count, contended ones on the stride and the others off it; key i is the first draw after that of key i - 1 that is not retried, taken modulo the row count and with the low 17 bits cleared where contended, and a draw is retried exactly for a repeated key or an uncontended one on the stride |
| `LogRecords.GenerateStruct` | app/tpcc/gen-log/generate_tpcc.py:135-193 | the writer produces the 576-byte record, or fails exactly when a value does not fit |
| `LogRecords.ParamRoundTrip` | app/tpcc.cc:80-86 | params[j] reads back word j, and zero where none was written |
| `LogRecords.TpccRoundTrip` | app/tpcc.cc:80-86 | the ids, entry date, items, supply warehouses, quantities, counts and amount come back, and the unused line slots read zero |
| `LogRecords.PaymentSlotsAreShifted` | app/tpcc.cc:72-78 | the payment fields documented in slots 53 to 56 are in 54 to 57 |
| `LogRecords.LogWalk` | src/doradd/dispatcher.hpp:270-275 | walking the file by record size finds every record, and the header holds the count |
| `GeneratedLog.DecodedRequest` | app/tpcc/gen-log/generate_tpcc.py:32-110 | a drawn NewOrder or Payment decodes to itself: existing rows, row and item counts, quantities 1 to 10, and amount 0 for a NewOrder |
| `GeneratedLog.ReadLog` | app/tpcc/gen-log/generate_tpcc.py:206-219 | reading the written file yields the drawn transactions, all well formed |
| `GeneratedLog.LoadConsistent` | app/tpcc/generator.hpp:61-451 | the loader builds a database that keeps the order-id, balance, stock and customer laws |
| `GeneratedLog.GeneratedReplayIsConsistent` | app/tpcc/gen-log/generate_tpcc.py:196-219 | any file the generator can write, within the budget of the form or joint with one warehouse, replayed under any permitted schedule keeps the balance, stock and customer laws and leaves every s_remote_cnt as loaded, and keeps the order-id law if and only if no district takes more than 3840 new orders |
| `GeneratedLog.MillionFits` | app/tpcc/gen-log/generate_tpcc.py:12-12 | with one warehouse every log of up to a million records is within the joint budget |
| `GeneratedLog.TooManyForTheBound` | app/tpcc/constants.hpp:6-7 | more new orders in all than 3840 per district put some district over the bound |
| `GeneratedLog.DefaultReplay` | app/tpcc/gen-log/generate_tpcc.py:206-219 | the file written by default, replayed in the joint form: nothing overflows, the three laws are kept, and the order-id law is broken |

## Left out

- The internals of verona-rt and of the SPSC queue, which are not part of this model; their contracts are assumed.
- Weak-memory effects of relaxed atomics and the race on `cnt` in `insert_row`.
- Prefetch instructions, which have no effect on values; huge pages, mmap, thread pinning, throughput output.
- 64-bit wrap-around of `w_ytd`, `d_ytd`, `s_ytd`, `c_ytd_payment` and the row counters: they are unbounded here. Stock quantity and all key arithmetic wrap as in the code.
- `c_balance` is a `float` in the code and an integer here, which is exact only below 2^24; `i_price` is a real.
- Descriptive fields (names, addresses, random strings, dates), the history table, and the unused local `amount` of NewOrder.
- An exception thrown by a full table ends the process; the model records it in `aborted` and skips the insertion. By `TpccDeterminism.NothingOverflows` logs within budget never cause one. The budgets include room: two free slots in the new-order table, and slot numbers inside it and below 2^32; only `TpccDeterminism.OneWarehouseIsSerial` does without.
- Writes past the end of a table by ids beyond the room, and a NewOrder record of more than 15 items, whose slots would overflow.
- Logs of fewer than `MAX_BATCH` entries, beyond showing that they are overrun.
- What preparing bytes past the end of the log does: the theorems about databases ask that the Indexer has stayed inside, and when it does is stated exactly.
- HashMap.FastHashMap.FindMultipleInterleave: inputs shorter than `look_ahead` read past the vector in the code and are excluded.
- Calls of `CoroMultiLookup` after one that left handles in the process-wide ring: the ring is empty at the start here.
- Coroutine frame allocation (`tcalloc`), and the address returned by `get_base_addr`: slots hold cowns, not addresses.
- The record cursor of the profile pipeline's workers, which only repeats the dispatcher's walk.
- app/chain.cc, app/tpcc/gen-log/dump_txn.cc, the Zipfian and inter-arrival distributions.
