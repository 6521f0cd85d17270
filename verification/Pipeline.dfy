/** The dispatch pipeline: RPC handler, Indexer, Prefetcher and Spawner, joined by an atomic request
    counter and two bounded rings.

    Each thread is a program counter over the code's own variables; a run is any interleaving of
    their atomic steps over sequentially consistent memory.  A thread that would spin or block has no
    step.  Rings are blocking FIFOs.  `sizes`, `prepared`, `prefetched`, `done` and `dispatched` record
    history and influence nothing. */
module Pipeline {
  import opened Common
  import opened Walk

  const RPC_LOG_SIZE := 1_000_000
  const CHANNEL_SIZE := 2

  /** `written` timestamps stored (the handler's i), `received` the shared counter. */
  datatype Rpc = Rpc(written: nat, received: nat)

  datatype IndexerPc = IGuard | ICheck | IPrepare(i: nat)
  datatype Indexer = Indexer(pc: IndexerPc, idx: nat, batch: nat, handled: nat)

  datatype PrefetcherPc = PGuard | PFront | PLoop(i: nat) | PPop
  datatype Prefetcher = Prefetcher(pc: PrefetcherPc, idx: nat, batch: nat, prefetched: nat, done: nat)

  datatype SpawnerPc = SFront | SDispatch(i: nat)
  datatype Spawner = Spawner(pc: SpawnerPc, idx: nat, batch: nat, txnLogId: nat, done: nat)

  /** One dispatch: the log entry and the timestamp slot it read. */
  datatype Dispatch = Dispatch(entry: nat, ts: nat)

  datatype State = State(
    count: nat,
    rpc: Rpc, ix: Indexer, ring1: seq<nat>, pf: Prefetcher, ring2: seq<nat>, sp: Spawner,
    sizes: seq<nat>, prepared: seq<nat>, dispatched: seq<Dispatch>)

  /** The initial state; `junk` is the Indexer's uninitialised batch variable. */
  function Init(count: nat, junk: nat): State {
    State(count, Rpc(0, 0), Indexer(IGuard, 0, junk, 0), [], Prefetcher(PGuard, 0, 0, 0, 0), [],
          Spawner(SFront, 0, 0, 0, 0), [], [], [])
  }

  datatype Actor = RpcWrite | RpcCount | IndexerA | PrefetcherA | SpawnerA

  // ---------------------------------------------------------------------------
  // Steps
  // ---------------------------------------------------------------------------

  function RpcWriteNext(s: State): Option<State> {
    if s.rpc.written == s.rpc.received && s.rpc.written < RPC_LOG_SIZE
    then Some(s.(rpc := s.rpc.(written := s.rpc.written + 1))) else None
  }

  function RpcCountNext(s: State): Option<State> {
    if s.rpc.written > s.rpc.received then Some(s.(rpc := s.rpc.(received := s.rpc.received + 1))) else None
  }

  /** check_avail_cnts: everything outstanding, up to MAX_BATCH. */
  function Available(s: State): int { s.rpc.received - s.ix.handled }

  function IndexerNext(s: State): Option<State> {
    var ix := s.ix;
    match ix.pc
    case IGuard => Some(s.(ix := ix.(pc := ICheck, idx := RewindIndexer(ix.idx, s.count, ix.batch))))
    case ICheck =>
      if Available(s) <= 0 then None
      else
        var b := if Available(s) >= MAX_BATCH then MAX_BATCH else Available(s);
        Some(s.(ix := ix.(pc := IPrepare(0), batch := b, handled := ix.handled + b), sizes := s.sizes + [b]))
    case IPrepare(i) =>
      if i < ix.batch then
        Some(s.(ix := ix.(pc := IPrepare(i + 1), idx := ix.idx + 1), prepared := s.prepared + [ix.idx]))
      else if |s.ring1| < CHANNEL_SIZE then
        Some(s.(ix := ix.(pc := IGuard), ring1 := s.ring1 + [ix.batch]))
      else None
  }

  function PrefetcherNext(s: State): Option<State> {
    var pf := s.pf;
    match pf.pc
    case PGuard => Some(s.(pf := pf.(pc := PFront, idx := Rewind(pf.idx, s.count))))
    case PFront => if s.ring1 == [] then None else Some(s.(pf := pf.(pc := PLoop(0), batch := s.ring1[0])))
    case PLoop(i) =>
      if i < pf.batch then Some(s.(pf := pf.(pc := PLoop(i + 1), idx := pf.idx + 1, prefetched := pf.prefetched + 1)))
      else if |s.ring2| < CHANNEL_SIZE then Some(s.(pf := pf.(pc := PPop), ring2 := s.ring2 + [pf.batch]))
      else None
    case PPop =>
      if s.ring1 == [] then None else Some(s.(pf := pf.(pc := PGuard, done := pf.done + 1), ring1 := s.ring1[1..]))
  }

  /** The Spawner leaves its loop once txn_log_id exceeds RPC_LOG_SIZE. */
  function SpawnerNext(s: State): Option<State> {
    var sp := s.sp;
    match sp.pc
    case SFront =>
      if sp.txnLogId > RPC_LOG_SIZE || s.ring2 == [] then None
      else Some(s.(sp := sp.(pc := SDispatch(0), batch := s.ring2[0], idx := Rewind(sp.idx, s.count))))
    case SDispatch(i) =>
      if i < sp.batch then
        Some(s.(sp := sp.(pc := SDispatch(i + 1), idx := sp.idx + 1, txnLogId := sp.txnLogId + 1),
                dispatched := s.dispatched + [Dispatch(sp.idx, sp.txnLogId)]))
      else if s.ring2 == [] then None
      else Some(s.(sp := sp.(pc := SFront, done := sp.done + 1), ring2 := s.ring2[1..]))
  }

  function Next(s: State, a: Actor): Option<State> {
    match a
    case RpcWrite => RpcWriteNext(s)
    case RpcCount => RpcCountNext(s)
    case IndexerA => IndexerNext(s)
    case PrefetcherA => PrefetcherNext(s)
    case SpawnerA => SpawnerNext(s)
  }

  /** The state after a run from s, if every step of it was possible. */
  function Run(s: State, run: seq<Actor>): Option<State> {
    if run == [] then Some(s)
    else
      var t := Run(s, run[..|run| - 1]);
      if t.None? then None else Next(t.value, run[|run| - 1])
  }

  ghost predicate Reachable(s: State) {
    exists junk: nat, run :: ValidCount(s.count) && Run(Init(s.count, junk), run) == Some(s)
  }

  // ---------------------------------------------------------------------------
  // The invariant
  // ---------------------------------------------------------------------------

  /** Batches pushed into the first ring, and into the second. */
  function Pushed1(s: State): int { |s.sizes| - (if s.ix.pc.IPrepare? then 1 else 0) }
  function Pushed2(s: State): nat { s.pf.done + (if s.pf.pc.PPop? then 1 else 0) }

  function EntriesOf(ds: seq<Dispatch>): (es: seq<nat>)
    ensures |es| == |ds| && forall i | 0 <= i < |ds| :: es[i] == ds[i].entry
  {
    seq(|ds|, i requires 0 <= i < |ds| => ds[i].entry)
  }

  ghost predicate RpcInv(s: State) {
    s.rpc.received <= s.rpc.written <= s.rpc.received + 1 && s.rpc.written <= RPC_LOG_SIZE
  }

  ghost predicate IndexerInv(count: nat, ix: Indexer, sizes: seq<nat>, prepared: seq<nat>) {
    var n := |sizes|;
    && ValidSizes(sizes) && ix.handled == Sum(sizes)
    && match ix.pc
       case IGuard => ix.idx == IndexerEnd(count, sizes) && (n > 0 ==> ix.batch == sizes[n - 1])
                      && prepared == IndexerEntries(count, sizes)
       case ICheck => ix.idx == IndexerStart(count, sizes) && prepared == IndexerEntries(count, sizes)
       case IPrepare(i) =>
         && n > 0 && ix.batch == sizes[n - 1] && i <= ix.batch
         && ix.idx == IndexerStart(count, sizes[..n - 1]) + i
         && prepared == IndexerEntries(count, sizes[..n - 1]) + Range(IndexerStart(count, sizes[..n - 1]), i)
  }

  ghost predicate PrefetcherInv(count: nat, pf: Prefetcher, ring1: seq<nat>, sizes: seq<nat>, pushed1: int) {
    && pf.done <= pushed1 <= |sizes| && ring1 == sizes[pf.done..pushed1] && |ring1| <= CHANNEL_SIZE
    && var before := sizes[..pf.done];
       match pf.pc
       case PGuard => pf.idx == End(count, before) && pf.prefetched == Sum(before)
       case PFront => pf.idx == Start(count, before) && pf.prefetched == Sum(before)
       case PLoop(i) => ring1 != [] && pf.batch == ring1[0] && i <= pf.batch
                        && pf.idx == Start(count, before) + i && pf.prefetched == Sum(before) + i
       case PPop => ring1 != [] && pf.batch == ring1[0]
                    && pf.idx == Start(count, before) + pf.batch && pf.prefetched == Sum(before) + pf.batch
  }

  ghost predicate SpawnerInv(count: nat, sp: Spawner, ring2: seq<nat>, sizes: seq<nat>, pushed2: nat, dispatched: seq<Dispatch>) {
    && sp.done <= pushed2 <= |sizes| && ring2 == sizes[sp.done..pushed2] && |ring2| <= CHANNEL_SIZE
    && sp.txnLogId == |dispatched|
    && (forall k | 0 <= k < |dispatched| :: dispatched[k].ts == k)
    && var before := sizes[..sp.done];
       match sp.pc
       case SFront => sp.idx == End(count, before) && EntriesOf(dispatched) == Entries(count, before)
       case SDispatch(i) => ring2 != [] && sp.batch == ring2[0] && i <= sp.batch
                            && sp.idx == Start(count, before) + i
                            && EntriesOf(dispatched) == Entries(count, before) + Range(Start(count, before), i)
  }

  ghost predicate Inv(s: State) {
    && ValidCount(s.count) && RpcInv(s)
    && s.ix.handled <= s.rpc.received
    && IndexerInv(s.count, s.ix, s.sizes, s.prepared)
    && PrefetcherInv(s.count, s.pf, s.ring1, s.sizes, Pushed1(s))
    && SpawnerInv(s.count, s.sp, s.ring2, s.sizes, Pushed2(s), s.dispatched)
  }

  lemma InitInv(count: nat, junk: nat)
    requires ValidCount(count)
    ensures Inv(Init(count, junk))
  {}

  // One lemma per kind of step and invariant it disturbs.

  /** A new batch leaves what the later stages know about earlier batches unchanged. */
  lemma NewBatchDownstream(s: State, b: nat)
    requires Inv(s) && !s.ix.pc.IPrepare?
    ensures PrefetcherInv(s.count, s.pf, s.ring1, s.sizes + [b], |s.sizes|)
    ensures SpawnerInv(s.count, s.sp, s.ring2, s.sizes + [b], Pushed2(s), s.dispatched)
  {
    var more := s.sizes + [b];
    assert more[..s.pf.done] == s.sizes[..s.pf.done];
    assert more[..s.sp.done] == s.sizes[..s.sp.done];
    assert more[s.pf.done..|s.sizes|] == s.sizes[s.pf.done..|s.sizes|];
    assert more[s.sp.done..Pushed2(s)] == s.sizes[s.sp.done..Pushed2(s)];
  }

  lemma CheckKeepsIndexer(count: nat, ix: Indexer, sizes: seq<nat>, prepared: seq<nat>, b: nat)
    requires IndexerInv(count, ix, sizes, prepared) && ix.pc.ICheck? && 1 <= b <= MAX_BATCH
    ensures IndexerInv(count, ix.(pc := IPrepare(0), batch := b, handled := ix.handled + b), sizes + [b], prepared)
  {
    var more := sizes + [b];
    assert more[..|more| - 1] == sizes;
    assert prepared == IndexerEntries(count, sizes) + Range(IndexerStart(count, sizes), 0);
  }

  lemma PrepareKeepsIndexer(count: nat, ix: Indexer, sizes: seq<nat>, prepared: seq<nat>)
    requires IndexerInv(count, ix, sizes, prepared) && ix.pc.IPrepare? && ix.pc.i < ix.batch
    ensures IndexerInv(count, ix.(pc := IPrepare(ix.pc.i + 1), idx := ix.idx + 1), sizes, prepared + [ix.idx])
  {
    var at, i := IndexerStart(count, sizes[..|sizes| - 1]), ix.pc.i;
    assert Range(at, i) + [ix.idx] == Range(at, i + 1);
  }

  lemma PushKeepsIndexer(count: nat, ix: Indexer, sizes: seq<nat>, prepared: seq<nat>)
    requires IndexerInv(count, ix, sizes, prepared) && ix.pc.IPrepare? && ix.pc.i == ix.batch
    ensures IndexerInv(count, ix.(pc := IGuard), sizes, prepared)
  {
    OneBatch(count, sizes, |sizes| - 1);
    assert sizes[..|sizes|] == sizes;
  }

  lemma PushKeepsPrefetcher(count: nat, pf: Prefetcher, ring1: seq<nat>, sizes: seq<nat>, pushed1: nat)
    requires PrefetcherInv(count, pf, ring1, sizes, pushed1) && pushed1 < |sizes| && |ring1| < CHANNEL_SIZE
    ensures PrefetcherInv(count, pf, ring1 + [sizes[pushed1]], sizes, pushed1 + 1)
  {
    assert sizes[pf.done..pushed1 + 1] == sizes[pf.done..pushed1] + [sizes[pushed1]];
  }

  lemma GuardKeepsIndexer(count: nat, ix: Indexer, sizes: seq<nat>, prepared: seq<nat>)
    requires IndexerInv(count, ix, sizes, prepared) && ix.pc.IGuard?
    ensures IndexerInv(count, ix.(pc := ICheck, idx := RewindIndexer(ix.idx, count, ix.batch)), sizes, prepared)
  {}

  lemma IndexerCheckStep(s: State)
    requires Inv(s) && IndexerNext(s).Some? && s.ix.pc.ICheck?
    ensures Inv(IndexerNext(s).value)
  {
    var b := IndexerNext(s).value.ix.batch;
    CheckKeepsIndexer(s.count, s.ix, s.sizes, s.prepared, b);
    NewBatchDownstream(s, b);
  }

  lemma IndexerPrepareStep(s: State)
    requires Inv(s) && s.ix.pc.IPrepare? && s.ix.pc.i < s.ix.batch
    ensures Inv(IndexerNext(s).value)
  {
    PrepareKeepsIndexer(s.count, s.ix, s.sizes, s.prepared);
  }

  lemma IndexerPushStep(s: State)
    requires Inv(s) && IndexerNext(s).Some? && s.ix.pc.IPrepare? && s.ix.pc.i == s.ix.batch
    ensures Inv(IndexerNext(s).value)
  {
    PushKeepsIndexer(s.count, s.ix, s.sizes, s.prepared);
    PushKeepsPrefetcher(s.count, s.pf, s.ring1, s.sizes, Pushed1(s));
  }

  lemma IndexerGuardStep(s: State)
    requires Inv(s) && s.ix.pc.IGuard?
    ensures Inv(IndexerNext(s).value)
  {
    GuardKeepsIndexer(s.count, s.ix, s.sizes, s.prepared);
  }

  lemma IndexerKeepsInv(s: State)
    requires Inv(s) && IndexerNext(s).Some?
    ensures Inv(IndexerNext(s).value)
  {
    match s.ix.pc
    case IGuard => IndexerGuardStep(s);
    case ICheck => IndexerCheckStep(s);
    case IPrepare(i) => if i < s.ix.batch { IndexerPrepareStep(s); } else { IndexerPushStep(s); }
  }

  lemma PopKeepsPrefetcher(count: nat, pf: Prefetcher, ring1: seq<nat>, sizes: seq<nat>, pushed1: nat)
    requires PrefetcherInv(count, pf, ring1, sizes, pushed1) && pf.pc.PPop?
    ensures PrefetcherInv(count, pf.(pc := PGuard, done := pf.done + 1), ring1[1..], sizes, pushed1)
  {
    OneBatch(count, sizes, pf.done);
    assert ring1[1..] == sizes[pf.done + 1..pushed1];
  }

  lemma PushKeepsSpawner(count: nat, sp: Spawner, ring2: seq<nat>, sizes: seq<nat>, pushed2: nat, ds: seq<Dispatch>)
    requires SpawnerInv(count, sp, ring2, sizes, pushed2, ds) && pushed2 < |sizes| && |ring2| < CHANNEL_SIZE
    ensures SpawnerInv(count, sp, ring2 + [sizes[pushed2]], sizes, pushed2 + 1, ds)
  {
    assert sizes[sp.done..pushed2 + 1] == sizes[sp.done..pushed2] + [sizes[pushed2]];
  }

  lemma PrefetcherLocalStep(s: State)
    requires Inv(s) && PrefetcherNext(s).Some?
    requires s.pf.pc.PGuard? || s.pf.pc.PFront? || (s.pf.pc.PLoop? && s.pf.pc.i < s.pf.batch)
    ensures Inv(PrefetcherNext(s).value)
  {
    var t := PrefetcherNext(s).value;
    assert PrefetcherInv(s.count, t.pf, s.ring1, s.sizes, Pushed1(s));
  }

  lemma PrefetcherPushStep(s: State)
    requires Inv(s) && PrefetcherNext(s).Some? && s.pf.pc.PLoop? && s.pf.pc.i == s.pf.batch
    ensures Inv(PrefetcherNext(s).value)
  {
    var t := PrefetcherNext(s).value;
    assert s.ring1[0] == s.sizes[s.pf.done];
    PushKeepsSpawner(s.count, s.sp, s.ring2, s.sizes, Pushed2(s), s.dispatched);
    assert PrefetcherInv(s.count, t.pf, s.ring1, s.sizes, Pushed1(s));
  }

  lemma PrefetcherPopStep(s: State)
    requires Inv(s) && s.pf.pc.PPop? && PrefetcherNext(s).Some?
    ensures Inv(PrefetcherNext(s).value)
  {
    PopKeepsPrefetcher(s.count, s.pf, s.ring1, s.sizes, Pushed1(s));
  }

  lemma PrefetcherKeepsInv(s: State)
    requires Inv(s) && PrefetcherNext(s).Some?
    ensures Inv(PrefetcherNext(s).value)
  {
    match s.pf.pc
    case PGuard => PrefetcherLocalStep(s);
    case PFront => PrefetcherLocalStep(s);
    case PLoop(i) => if i < s.pf.batch { PrefetcherLocalStep(s); } else { PrefetcherPushStep(s); }
    case PPop => PrefetcherPopStep(s);
  }

  lemma FrontKeepsSpawner(count: nat, sp: Spawner, ring2: seq<nat>, sizes: seq<nat>, pushed2: nat, ds: seq<Dispatch>)
    requires SpawnerInv(count, sp, ring2, sizes, pushed2, ds) && sp.pc.SFront? && ring2 != []
    ensures SpawnerInv(count, sp.(pc := SDispatch(0), batch := ring2[0], idx := Rewind(sp.idx, count)), ring2, sizes, pushed2, ds)
  {
    var before := sizes[..sp.done];
    assert Entries(count, before) + Range(Start(count, before), 0) == Entries(count, before);
  }

  lemma DispatchKeepsSpawner(count: nat, sp: Spawner, ring2: seq<nat>, sizes: seq<nat>, pushed2: nat, ds: seq<Dispatch>)
    requires SpawnerInv(count, sp, ring2, sizes, pushed2, ds) && sp.pc.SDispatch? && sp.pc.i < sp.batch
    ensures SpawnerInv(count, sp.(pc := SDispatch(sp.pc.i + 1), idx := sp.idx + 1, txnLogId := sp.txnLogId + 1),
                       ring2, sizes, pushed2, ds + [Dispatch(sp.idx, sp.txnLogId)])
  {
    var at := Start(count, sizes[..sp.done]);
    assert Range(at, sp.pc.i + 1) == Range(at, sp.pc.i) + [sp.idx];
    assert EntriesOf(ds + [Dispatch(sp.idx, sp.txnLogId)]) == EntriesOf(ds) + [sp.idx];
  }

  lemma PopKeepsSpawner(count: nat, sp: Spawner, ring2: seq<nat>, sizes: seq<nat>, pushed2: nat, ds: seq<Dispatch>)
    requires SpawnerInv(count, sp, ring2, sizes, pushed2, ds) && sp.pc.SDispatch? && sp.pc.i == sp.batch
    ensures SpawnerInv(count, sp.(pc := SFront, done := sp.done + 1), ring2[1..], sizes, pushed2, ds)
  {
    OneBatch(count, sizes, sp.done);
    assert ring2[1..] == sizes[sp.done + 1..pushed2];
  }

  lemma SpawnerFrontStep(s: State)
    requires Inv(s) && SpawnerNext(s).Some? && s.sp.pc.SFront?
    ensures Inv(SpawnerNext(s).value)
  {
    FrontKeepsSpawner(s.count, s.sp, s.ring2, s.sizes, Pushed2(s), s.dispatched);
  }

  lemma SpawnerDispatchStep(s: State)
    requires Inv(s) && SpawnerNext(s).Some? && s.sp.pc.SDispatch? && s.sp.pc.i < s.sp.batch
    ensures Inv(SpawnerNext(s).value)
  {
    DispatchKeepsSpawner(s.count, s.sp, s.ring2, s.sizes, Pushed2(s), s.dispatched);
  }

  lemma SpawnerPopStep(s: State)
    requires Inv(s) && SpawnerNext(s).Some? && s.sp.pc.SDispatch? && s.sp.pc.i == s.sp.batch
    ensures Inv(SpawnerNext(s).value)
  {
    PopKeepsSpawner(s.count, s.sp, s.ring2, s.sizes, Pushed2(s), s.dispatched);
  }

  lemma SpawnerKeepsInv(s: State)
    requires Inv(s) && SpawnerNext(s).Some?
    ensures Inv(SpawnerNext(s).value)
  {
    match s.sp.pc
    case SFront => SpawnerFrontStep(s);
    case SDispatch(i) => if i < s.sp.batch { SpawnerDispatchStep(s); } else { SpawnerPopStep(s); }
  }

  lemma RpcKeepsInv(s: State, a: Actor)
    requires Inv(s) && Next(s, a).Some? && (a.RpcWrite? || a.RpcCount?)
    ensures Inv(Next(s, a).value)
  {}

  lemma StepKeepsInv(s: State, a: Actor)
    requires Inv(s) && Next(s, a).Some?
    ensures Inv(Next(s, a).value) && Next(s, a).value.count == s.count
  {
    match a
    case RpcWrite => RpcKeepsInv(s, a);
    case RpcCount => RpcKeepsInv(s, a);
    case IndexerA => IndexerKeepsInv(s);
    case PrefetcherA => PrefetcherKeepsInv(s);
    case SpawnerA => SpawnerKeepsInv(s);
  }

  lemma {:induction false} RunKeepsInv(s: State, run: seq<Actor>)
    requires Inv(s) && Run(s, run).Some?
    ensures Inv(Run(s, run).value) && Run(s, run).value.count == s.count
  {
    if run != [] {
      RunKeepsInv(s, run[..|run| - 1]);
      StepKeepsInv(Run(s, run[..|run| - 1]).value, run[|run| - 1]);
    }
  }

  /** Every state of every interleaving satisfies the invariant. */
  lemma ReachableInv(s: State)
    requires Reachable(s)
    ensures Inv(s)
  {
    var junk: nat, run :| Run(Init(s.count, junk), run) == Some(s);
    InitInv(s.count, junk);
    RunKeepsInv(Init(s.count, junk), run);
  }
}
