/** Progress of the dispatch pipeline, and realisability of every batching. */
module PipelineProgress {
  import opened Common
  import opened Walk
  import opened Pipeline
  import opened PipelineLaws

  ghost predicate IsStage(a: Actor) { a.IndexerA? || a.PrefetcherA? || a.SpawnerA? }

  // ---------------------------------------------------------------------------
  // No deadlock, and no endless work
  // ---------------------------------------------------------------------------

  /** When no stage can move, nothing is left to do: every counted request has been dispatched. */
  lemma StuckOnlyWhenDone(s: State)
    requires Reachable(s) && forall a | IsStage(a) :: Next(s, a).None?
    ensures |s.dispatched| == s.pf.prefetched == s.ix.handled == s.rpc.received
    ensures s.ring1 == [] && s.ring2 == []
  {
    ReachableInv(s);
    CountersAreOrdered(s);
    assert SpawnerNext(s).None? by { assert Next(s, SpawnerA).None?; }
    assert PrefetcherNext(s).None? by { assert Next(s, PrefetcherA).None?; }
    assert IndexerNext(s).None? by { assert Next(s, IndexerA).None?; }
    StuckStages(s);
    RequestsAreConserved(s);
  }

  lemma StuckStages(s: State)
    requires Inv(s) && |s.dispatched| <= RPC_LOG_SIZE
    requires SpawnerNext(s).None? && PrefetcherNext(s).None? && IndexerNext(s).None?
    ensures s.sp.pc.SFront? && s.ring2 == []
    ensures s.pf.pc.PFront? && s.ring1 == []
    ensures s.ix.pc.ICheck? && s.ix.handled == s.rpc.received
  {}

  /** Steps that stages still have to take, counting 20 for each request not yet taken in. */
  ghost function Work(s: State): int {
    20 * (s.rpc.received - s.ix.handled)
    + (match s.ix.pc
       case IGuard => 1
       case ICheck => 0
       case IPrepare(i) => (s.ix.batch - i) + 2 + (2 * s.ix.batch + 6))
    + RingWork(s.ring1, 2, 6)
    + (match s.pf.pc
       case PGuard => 1
       case PFront => 0
       case PLoop(i) => -(1 + i)
       case PPop => -(2 * s.pf.batch + 4))
    + RingWork(s.ring2, 1, 2)
    - (if s.sp.pc.SDispatch? then 1 + s.sp.pc.i else 0)
  }

  /** Each queued batch of size b costs c * b + d steps. */
  ghost function RingWork(ring: seq<nat>, c: nat, d: nat): nat {
    if ring == [] then 0 else c * ring[0] + d + RingWork(ring[1..], c, d)
  }

  lemma {:induction false} RingWorkAppend(ring: seq<nat>, b: nat, c: nat, d: nat)
    ensures RingWork(ring + [b], c, d) == RingWork(ring, c, d) + c * b + d
  {
    if ring == [] {
      assert [b][1..] == [];
      assert ring + [b] == [b];
    } else {
      assert (ring + [b])[1..] == ring[1..] + [b];
      RingWorkAppend(ring[1..], b, c, d);
    }
  }

  lemma WorkIsNat(s: State)
    requires Inv(s)
    ensures Work(s) >= 0
  {}

  lemma IndexerWorks(s: State)
    requires IndexerNext(s).Some? && (s.ix.pc.IPrepare? ==> s.ix.pc.i <= s.ix.batch)
    ensures Work(IndexerNext(s).value) < Work(s)
  {
    if s.ix.pc.IPrepare? { RingWorkAppend(s.ring1, s.ix.batch, 2, 6); }
  }

  lemma PrefetcherWorks(s: State)
    requires PrefetcherNext(s).Some?
    requires s.pf.pc.PLoop? || s.pf.pc.PPop? ==> s.ring1 != [] && s.pf.batch == s.ring1[0]
    requires s.pf.pc.PLoop? ==> s.pf.pc.i <= s.pf.batch
    ensures Work(PrefetcherNext(s).value) < Work(s)
  {
    if s.pf.pc.PLoop? { RingWorkAppend(s.ring2, s.pf.batch, 1, 2); }
  }

  lemma SpawnerWorks(s: State)
    requires Inv(s) && SpawnerNext(s).Some?
    ensures Work(SpawnerNext(s).value) < Work(s)
  {}

  /** Between arrivals the stages can take only boundedly many steps; by StuckOnlyWhenDone they stop
      only with every counted request dispatched. */
  lemma {:induction false} BoundedBetweenArrivals(s: State, run: seq<Actor>)
    requires Inv(s) && Run(s, run).Some? && forall i | 0 <= i < |run| :: IsStage(run[i])
    ensures |run| + Work(Run(s, run).value) <= Work(s)
    ensures Work(Run(s, run).value) >= 0
  {
    RunKeepsInv(s, run);
    WorkIsNat(Run(s, run).value);
    if run != [] {
      var before, a := run[..|run| - 1], run[|run| - 1];
      BoundedBetweenArrivals(s, before);
      RunKeepsInv(s, before);
      var t := Run(s, before).value;
      assert IsStage(a);
      match a
      case IndexerA => IndexerWorks(t);
      case PrefetcherA => PrefetcherWorks(t);
      case SpawnerA => SpawnerWorks(t);
    }
  }

  // ---------------------------------------------------------------------------
  // Every batching happens in some run
  // ---------------------------------------------------------------------------

  ghost predicate Goes(s: State, run: seq<Actor>, t: State) { Run(s, run) == Some(t) }

  lemma GoesOne(s: State, a: Actor)
    requires Next(s, a).Some?
    ensures Goes(s, [a], Next(s, a).value)
  {
    assert [a][..0] == [];
    assert Run(s, []) == Some(s);
  }

  lemma {:induction false} GoesOn(s: State, first: seq<Actor>, t: State, second: seq<Actor>, u: State)
    requires Goes(s, first, t) && Goes(t, second, u)
    ensures Goes(s, first + second, u)
    decreases |second|
  {
    if second == [] {
      assert first + second == first;
    } else {
      var before := second[..|second| - 1];
      GoesOn(s, first, t, before, Run(t, before).value);
      assert (first + second)[..|first + second| - 1] == first + before;
    }
  }

  /** The same actor n times. */
  ghost function Times(a: Actor, n: nat): seq<Actor> { seq(n, i => a) }

  lemma GoesTimes(s: State, a: Actor, n: nat, t: State)
    requires Goes(s, Times(a, n), t) && Next(t, a).Some?
    ensures Goes(s, Times(a, n + 1), Next(t, a).value)
  {
    var run := Times(a, n + 1);
    assert run[..n] == Times(a, n);
  }

  lemma {:induction false} Arrivals(s: State, n: nat) returns (run: seq<Actor>)
    requires s.rpc.written == s.rpc.received && s.rpc.received + n <= RPC_LOG_SIZE
    ensures Goes(s, run, s.(rpc := Rpc(s.rpc.written + n, s.rpc.received + n)))
  {
    if n == 0 {
      run := [];
    } else {
      var before := Arrivals(s, n - 1);
      var t := s.(rpc := Rpc(s.rpc.written + n - 1, s.rpc.received + n - 1));
      var u := Next(t, RpcWrite).value;
      GoesOne(t, RpcWrite);
      GoesOne(u, RpcCount);
      GoesOn(t, [RpcWrite], u, [RpcCount], Next(u, RpcCount).value);
      GoesOn(s, before, t, [RpcWrite] + [RpcCount], Next(u, RpcCount).value);
      run := before + ([RpcWrite] + [RpcCount]);
    }
  }

  lemma {:induction false} Prepares(s: State, n: nat) returns (t: State)
    requires s.ix.pc == IPrepare(0) && n <= s.ix.batch
    ensures Goes(s, Times(IndexerA, n), t)
    ensures t == s.(ix := s.ix.(pc := IPrepare(n), idx := s.ix.idx + n), prepared := t.prepared)
  {
    if n == 0 {
      t := s;
    } else {
      var u := Prepares(s, n - 1);
      GoesTimes(s, IndexerA, n - 1, u);
      t := Next(u, IndexerA).value;
    }
  }

  lemma {:induction false} Prefetches(s: State, n: nat) returns (t: State)
    requires s.pf.pc == PLoop(0) && n <= s.pf.batch
    ensures Goes(s, Times(PrefetcherA, n), t)
    ensures t == s.(pf := s.pf.(pc := PLoop(n), idx := s.pf.idx + n, prefetched := s.pf.prefetched + n))
  {
    if n == 0 {
      t := s;
    } else {
      var u := Prefetches(s, n - 1);
      GoesTimes(s, PrefetcherA, n - 1, u);
      t := Next(u, PrefetcherA).value;
    }
  }

  lemma {:induction false} Dispatches(s: State, n: nat) returns (t: State)
    requires s.sp.pc == SDispatch(0) && n <= s.sp.batch
    ensures Goes(s, Times(SpawnerA, n), t)
    ensures t == s.(sp := s.sp.(pc := SDispatch(n), idx := s.sp.idx + n, txnLogId := s.sp.txnLogId + n), dispatched := t.dispatched)
  {
    if n == 0 {
      t := s;
    } else {
      var u := Dispatches(s, n - 1);
      GoesTimes(s, SpawnerA, n - 1, u);
      t := Next(u, SpawnerA).value;
    }
  }

  /** Every stage idle, nothing queued, nothing outstanding. */
  ghost predicate Idle(s: State) {
    && s.rpc.written == s.rpc.received == s.ix.handled
    && s.ix.pc.IGuard? && s.pf.pc.PGuard? && s.sp.pc.SFront? && s.ring1 == [] && s.ring2 == []
    && s.sp.txnLogId <= RPC_LOG_SIZE
  }

  lemma TakeIn(s: State, b: nat) returns (run: seq<Actor>, t: State)
    requires Idle(s) && 1 <= b <= MAX_BATCH && s.rpc.received + b <= RPC_LOG_SIZE
    ensures Goes(s, run, t) && t.sizes == s.sizes + [b] && t.ring1 == [b] && t.ring2 == []
    ensures t == s.(rpc := Rpc(s.rpc.written + b, s.rpc.received + b), ix := t.ix, ring1 := [b], sizes := t.sizes, prepared := t.prepared)
    ensures t.ix.pc.IGuard? && t.ix.handled == t.rpc.received
  {
    var r1 := Arrivals(s, b);
    var s1 := s.(rpc := Rpc(s.rpc.written + b, s.rpc.received + b));
    var s2 := Next(s1, IndexerA).value;
    GoesOne(s1, IndexerA);
    var s3 := Next(s2, IndexerA).value;
    GoesOne(s2, IndexerA);
    assert s3.ix.batch == b;
    var s4 := Prepares(s3, b);
    t := Next(s4, IndexerA).value;
    GoesTimes(s3, IndexerA, b, s4);
    GoesOn(s2, [IndexerA], s3, Times(IndexerA, b + 1), t);
    GoesOn(s1, [IndexerA], s2, [IndexerA] + Times(IndexerA, b + 1), t);
    run := r1 + ([IndexerA] + ([IndexerA] + Times(IndexerA, b + 1)));
    GoesOn(s, r1, s1, [IndexerA] + ([IndexerA] + Times(IndexerA, b + 1)), t);
  }

  lemma PassOn(s: State, b: nat) returns (run: seq<Actor>, t: State)
    requires s.pf.pc.PGuard? && s.ring1 == [b] && s.ring2 == []
    ensures Goes(s, run, t)
    ensures t == s.(pf := t.pf, ring1 := [], ring2 := [b]) && t.pf.pc.PGuard?
  {
    var s1 := Next(s, PrefetcherA).value;
    GoesOne(s, PrefetcherA);
    var s2 := Next(s1, PrefetcherA).value;
    GoesOne(s1, PrefetcherA);
    var s3 := Prefetches(s2, b);
    var s4 := Next(s3, PrefetcherA).value;
    GoesTimes(s2, PrefetcherA, b, s3);
    t := Next(s4, PrefetcherA).value;
    GoesTimes(s2, PrefetcherA, b + 1, s4);
    GoesOn(s1, [PrefetcherA], s2, Times(PrefetcherA, b + 2), t);
    run := [PrefetcherA] + ([PrefetcherA] + Times(PrefetcherA, b + 2));
    GoesOn(s, [PrefetcherA], s1, [PrefetcherA] + Times(PrefetcherA, b + 2), t);
  }

  lemma SpawnOff(s: State, b: nat) returns (run: seq<Actor>, t: State)
    requires s.sp.pc.SFront? && s.ring2 == [b] && s.sp.txnLogId <= RPC_LOG_SIZE
    ensures Goes(s, run, t)
    ensures t == s.(sp := t.sp, ring2 := [], dispatched := t.dispatched) && t.sp.pc.SFront?
  {
    var s1 := Next(s, SpawnerA).value;
    GoesOne(s, SpawnerA);
    var s2 := Dispatches(s1, b);
    t := Next(s2, SpawnerA).value;
    GoesTimes(s1, SpawnerA, b, s2);
    run := [SpawnerA] + Times(SpawnerA, b + 1);
    GoesOn(s, [SpawnerA], s1, Times(SpawnerA, b + 1), t);
  }

  lemma LastSize(sizes: seq<nat>)
    requires ValidSizes(sizes) && sizes != []
    ensures var before, b := sizes[..|sizes| - 1], sizes[|sizes| - 1];
            && ValidSizes(before) && 1 <= b <= MAX_BATCH && sizes == before + [b] && Sum(sizes) == Sum(before) + b
  {
  }

  lemma {:induction false} Batching(init: State, sizes: seq<nat>) returns (run: seq<Actor>, t: State)
    requires Inv(init) && Idle(init) && init.sizes == [] && ValidSizes(sizes) && Sum(sizes) <= RPC_LOG_SIZE
    ensures Goes(init, run, t) && Idle(t) && t.sizes == sizes && t.count == init.count
  {
    if sizes == [] {
      run, t := [], init;
    } else {
      var before, b := sizes[..|sizes| - 1], sizes[|sizes| - 1];
      LastSize(sizes);
      var r0, s0 := Batching(init, before);
      run, t := OneMore(init, r0, s0, b);
    }
  }

  /** For every batch sequence that fits the timestamp log there is a run, from the start, that takes
      exactly those batches and dispatches all of them. */
  lemma EveryBatchingHappens(count: nat, junk: nat, sizes: seq<nat>) returns (run: seq<Actor>, t: State)
    requires ValidCount(count) && ValidSizes(sizes) && Sum(sizes) <= RPC_LOG_SIZE
    ensures Goes(Init(count, junk), run, t) && Reachable(t) && t.sizes == sizes && t.count == count
    ensures EntriesOf(t.dispatched) == Entries(count, sizes) && t.prepared == IndexerEntries(count, sizes)
  {
    InitInv(count, junk);
    run, t := Batching(Init(count, junk), sizes);
    RunKeepsInv(Init(count, junk), run);
    assert Run(Init(t.count, junk), run) == Some(t);
    AllDispatched(t);
  }

  lemma OneMore(init: State, r0: seq<Actor>, s0: State, b: nat) returns (run: seq<Actor>, t: State)
    requires Inv(init) && Goes(init, r0, s0) && Idle(s0) && 1 <= b <= MAX_BATCH && Sum(s0.sizes) + b <= RPC_LOG_SIZE
    ensures Goes(init, run, t) && Idle(t) && t.sizes == s0.sizes + [b] && t.count == init.count
  {
    RunKeepsInv(init, r0);
    var r1, s1 := TakeIn(s0, b);
    var r2, s2 := PassOn(s1, b);
    var r3, s3 := SpawnOff(s2, b);
    GoesOn(s1, r2, s2, r3, s3);
    GoesOn(s0, r1, s1, r2 + r3, s3);
    GoesOn(init, r0, s0, r1 + (r2 + r3), s3);
    run, t := r0 + (r1 + (r2 + r3)), s3;
    RunKeepsInv(init, run);
    IdleTxnId(t);
  }

  lemma IdleTxnId(s: State)
    requires Inv(s)
    ensures s.sp.txnLogId <= RPC_LOG_SIZE
  {
    SpawnerTotal(s.count, s.sp, s.ring2, s.sizes, Pushed2(s), s.dispatched);
    var n := |s.sizes|;
    assert s.sizes[..n] == s.sizes;
    SumSlice(s.sizes, Pushed2(s), n);
    if s.ring2 != [] { HeadBound(s.ring2); }
  }

  lemma AllDispatched(t: State)
    requires Inv(t) && Idle(t)
    ensures EntriesOf(t.dispatched) == Entries(t.count, t.sizes)
    ensures t.prepared == IndexerEntries(t.count, t.sizes)
  {
    assert t.sizes[..|t.sizes|] == t.sizes;
  }

  /** The Indexer's guard can let the Spawner dispatch an entry whose cown_ptrs were never prepared:
      a run over eight entries that does. */
  lemma UnpreparedDispatch(junk: nat) returns (run: seq<Actor>, t: State)
    ensures Goes(Init(8, junk), run, t) && Reachable(t)
    ensures 7 in EntriesOf(t.dispatched) && 7 !in t.prepared
  {
    var sizes := [4, 1, 2, 2, 4];
    SampleSum(sizes);
    run, t := EveryBatchingHappens(8, junk, sizes);
    UnpreparedEntry(sizes);
  }

  /** A batching that takes the Indexer past the end of the log, as a run from the start. */
  lemma OutOfBoundsRun(junk: nat) returns (run: seq<Actor>, t: State)
    ensures Goes(Init(8, junk), run, t) && Reachable(t)
    ensures 8 in t.prepared && t.count == 8
  {
    var sizes := [4, 1, 4];
    SumOfThree(4, 1, 4);
    run, t := EveryBatchingHappens(8, junk, sizes);
    IndexerOutOfBounds(sizes);
  }

  lemma SumOfThree(a: nat, b: nat, c: nat)
    ensures Sum([a, b, c]) == a + b + c
  {
    assert [a, b, c][..2] == [a, b] && [a, b][..1] == [a] && [a][..0] == [];
    assert Sum([a]) == a;
    assert Sum([a, b]) == a + b;
  }

  lemma {:induction false} SumPrefix(sizes: seq<nat>, k: nat)
    requires k <= |sizes|
    ensures Sum(sizes[..k]) <= Sum(sizes)
  {
    if k < |sizes| {
      assert sizes[..|sizes| - 1][..k] == sizes[..k];
      SumPrefix(sizes[..|sizes| - 1], k);
    } else {
      assert sizes[..k] == sizes;
    }
  }

  lemma PreparedIsIndexerWalk(s: State)
    requires Inv(s)
    ensures s.prepared <= IndexerEntries(s.count, s.sizes)
  {
    var n := |s.sizes|;
    assert s.sizes[..n] == s.sizes;
    if s.ix.pc.IPrepare? {
      OneBatch(s.count, s.sizes, n - 1);
      var at := IndexerStart(s.count, s.sizes[..n - 1]);
      assert Range(at, s.ix.pc.i) <= Range(at, s.ix.batch);
    }
  }

  /** The Indexer has not left the log. */
  ghost predicate Inside(s: State) { AllBelow(s.prepared, s.count) }

  lemma StaysInside(s: State)
    requires Reachable(s) && NoOverrun(s.count, s.sizes, |s.sizes|)
    ensures Inside(s)
  {
    ReachableInv(s);
    PreparedIsIndexerWalk(s);
    IndexerInBoundsIff(s.count, s.sizes);
  }

  /** While no more requests than that have been taken in, no batching leads it out. */
  lemma EarlyStaysInside(s: State)
    requires Reachable(s) && s.ix.handled <= s.count - MAX_BATCH + 1
    ensures Inside(s)
  {
    ReachableInv(s);
    EarlyBatchesFit(s.count, s.sizes);
    StaysInside(s);
  }

  /** Exactly when no run that takes these batches, or some first ones of them, leads the Indexer out of the log. */
  lemma IndexerStaysInsideIff(count: nat, sizes: seq<nat>)
    requires ValidCount(count) && ValidSizes(sizes) && Sum(sizes) <= RPC_LOG_SIZE
    ensures (forall s | Reachable(s) && s.count == count && s.sizes <= sizes :: AllBelow(s.prepared, count))
            <==> NoOverrun(count, sizes, |sizes|)
  {
    if NoOverrun(count, sizes, |sizes|) {
      forall s | Reachable(s) && s.count == count && s.sizes <= sizes ensures AllBelow(s.prepared, count) {
        ReachableInv(s);
        PreparedIsIndexerWalk(s);
        IndexerInBoundsUpTo(count, sizes, |s.sizes|);
        assert sizes[..|s.sizes|] == s.sizes;
      }
    } else {
      var run, t := EveryBatchingHappens(count, 0, sizes);
      IndexerInBoundsIff(count, sizes);
    }
  }

  lemma {:induction false} PreparedFirstPrefix(count: nat, sizes: seq<nat>, k: nat)
    requires PreparedFirst(count, sizes) && k <= |sizes|
    ensures PreparedFirst(count, sizes[..k])
  {
    var before := sizes[..k];
    forall i | 0 <= i <= k ensures High(count, before[..i]) <= IndexerHigh(count, before[..i]) {
      assert before[..i] == sizes[..i];
    }
  }

  /** A batching that takes the Spawner further than the Indexer has been happens in some run. */
  lemma UnpreparedRun(count: nat, junk: nat, sizes: seq<nat>) returns (run: seq<Actor>, t: State)
    requires ValidCount(count) && ValidSizes(sizes) && Sum(sizes) <= RPC_LOG_SIZE
    requires High(count, sizes) > IndexerHigh(count, sizes)
    ensures Goes(Init(count, junk), run, t) && Reachable(t) && t.count == count && t.sizes == sizes && !AllPrepared(t)
  {
    run, t := EveryBatchingHappens(count, junk, sizes);
    PreparedIff(count, sizes);
    var e: nat :| e in Entries(count, sizes) && e !in IndexerEntries(count, sizes);
    var k :| 0 <= k < |EntriesOf(t.dispatched)| && EntriesOf(t.dispatched)[k] == e;
    assert t.dispatched[k].entry !in t.prepared;
  }

  /** Exactly when preparation comes first: every run that takes these batches, or some first ones of them, has
      prepared every entry it has dispatched, if and only if batch by batch the Indexer has been at least as far
      as the Spawner. */
  lemma PreparedFirstIff(count: nat, sizes: seq<nat>)
    requires ValidCount(count) && ValidSizes(sizes) && Sum(sizes) <= RPC_LOG_SIZE
    ensures (forall s | Reachable(s) && s.count == count && s.sizes <= sizes :: AllPrepared(s)) <==> PreparedFirst(count, sizes)
  {
    if PreparedFirst(count, sizes) {
      forall s | Reachable(s) && s.count == count && s.sizes <= sizes ensures AllPrepared(s) {
        PreparedFirstPrefix(count, sizes, |s.sizes|);
        assert sizes[..|s.sizes|] == s.sizes;
        PreparedByThen(s);
      }
    } else {
      var k :| 0 <= k <= |sizes| && High(count, sizes[..k]) > IndexerHigh(count, sizes[..k]);
      SumPrefix(sizes, k);
      var run, t := UnpreparedRun(count, 0, sizes[..k]);
      assert t.sizes <= sizes;
    }
  }

  lemma SampleSum(sizes: seq<nat>)
    requires sizes == [4, 1, 2, 2, 4]
    ensures Sum(sizes) == 13
  {
    assert sizes[..0] == [] && sizes[..5] == sizes;
    SumSlice(sizes, 0, 2);
    SumSlice(sizes, 2, 4);
    SumSlice(sizes, 4, 5);
    assert sizes[0..2] == [4, 1] && sizes[2..4] == [2, 2] && sizes[4..5] == [4];
  }
}
