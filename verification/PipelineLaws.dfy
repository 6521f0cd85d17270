/** What every interleaving of the dispatch pipeline guarantees. */
module PipelineLaws {
  import opened Common
  import opened Walk
  import opened Pipeline

  // ---------------------------------------------------------------------------
  // Counters and timestamps
  // ---------------------------------------------------------------------------

  lemma {:induction false} SumConcat(a: seq<nat>, b: seq<nat>)
    ensures Sum(a + b) == Sum(a) + Sum(b)
  {
    if b == [] {
      assert a + b == a;
    } else {
      assert (a + b)[..|a + b| - 1] == a + b[..|b| - 1];
      SumConcat(a, b[..|b| - 1]);
    }
  }

  lemma SumSlice(xs: seq<nat>, i: nat, j: nat)
    requires i <= j <= |xs|
    ensures Sum(xs[..j]) == Sum(xs[..i]) + Sum(xs[i..j])
  {
    assert xs[..j] == xs[..i] + xs[i..j];
    SumConcat(xs[..i], xs[i..j]);
  }

  // Work of the batch a stage has in hand.

  ghost function InIndexer(s: State): nat { if s.ix.pc.IPrepare? then s.ix.batch else 0 }
  ghost function InPrefetcher(s: State): nat {
    match s.pf.pc
    case PLoop(i) => i
    case PPop => s.pf.batch
    case _ => 0
  }
  ghost function Forwarded(s: State): nat { if s.pf.pc.PPop? then s.pf.batch else 0 }
  ghost function InSpawner(s: State): nat { if s.sp.pc.SDispatch? then s.sp.pc.i else 0 }

  lemma IndexerTotal(s: State)
    requires Inv(s)
    ensures s.ix.handled == Sum(s.sizes[..Pushed1(s)]) + InIndexer(s)
  {
    var n := |s.sizes|;
    assert s.sizes[..n] == s.sizes;
    if s.ix.pc.IPrepare? { OneBatch(s.count, s.sizes, n - 1); }
  }

  lemma PrefetcherTotal(count: nat, pf: Prefetcher, ring1: seq<nat>, sizes: seq<nat>, pushed1: nat)
    requires PrefetcherInv(count, pf, ring1, sizes, pushed1)
    ensures Sum(sizes[..pushed1]) == Sum(sizes[..pf.done]) + Sum(ring1)
    ensures pf.pc.PPop? ==> pf.done < |sizes| && Sum(sizes[..pf.done + 1]) == Sum(sizes[..pf.done]) + pf.batch
  {
    SumSlice(sizes, pf.done, pushed1);
    if pf.pc.PPop? { OneBatch(count, sizes, pf.done); }
  }

  lemma SpawnerTotal(count: nat, sp: Spawner, ring2: seq<nat>, sizes: seq<nat>, pushed2: nat, ds: seq<Dispatch>)
    requires SpawnerInv(count, sp, ring2, sizes, pushed2, ds)
    ensures Sum(sizes[..pushed2]) == Sum(sizes[..sp.done]) + Sum(ring2)
    ensures |ds| == Sum(sizes[..sp.done]) + (if sp.pc.SDispatch? then sp.pc.i else 0)
  {
    SumSlice(sizes, sp.done, pushed2);
    EntriesLength(count, sizes[..sp.done]);
    assert |EntriesOf(ds)| == |ds|;
  }

  /** Requests are conserved: every difference between consecutive counters is exactly what the rings
      and the batches in hand hold. */
  lemma RequestsAreConserved(s: State)
    requires Reachable(s)
    ensures s.ix.handled + InPrefetcher(s) == s.pf.prefetched + Sum(s.ring1) + InIndexer(s)
    ensures s.pf.prefetched + InSpawner(s) + Forwarded(s) == |s.dispatched| + Sum(s.ring2) + InPrefetcher(s)
  {
    ReachableInv(s);
    IndexerTotal(s);
    PrefetcherTotal(s.count, s.pf, s.ring1, s.sizes, Pushed1(s));
    SpawnerTotal(s.count, s.sp, s.ring2, s.sizes, Pushed2(s), s.dispatched);
  }

  lemma HeadBound(xs: seq<nat>)
    requires xs != []
    ensures xs[0] <= Sum(xs)
  {
    assert xs == xs[..1] + xs[1..];
    SumConcat(xs[..1], xs[1..]);
    assert Sum(xs[..1]) == xs[0];
  }

  /** spawned <= prefetched <= handled <= received <= RPC_LOG_SIZE, in every state. */
  lemma CountersAreOrdered(s: State)
    requires Reachable(s)
    ensures |s.dispatched| <= s.pf.prefetched <= s.ix.handled <= s.rpc.received <= RPC_LOG_SIZE
  {
    ReachableInv(s);
    RequestsAreConserved(s);
    if s.ring1 != [] { HeadBound(s.ring1); }
    if s.ring2 != [] { HeadBound(s.ring2); }
  }

  /** The k-th dispatch reads the k-th timestamp, written before the request was counted. */
  lemma TimestampsBelongToRequests(s: State, k: nat)
    requires Reachable(s) && k < |s.dispatched|
    ensures s.dispatched[k].ts == k < s.rpc.received <= s.rpc.written <= RPC_LOG_SIZE
  {
    ReachableInv(s);
    CountersAreOrdered(s);
  }

  // ---------------------------------------------------------------------------
  // Dispatch order
  // ---------------------------------------------------------------------------

  lemma {:induction false} EntriesPrefix(count: nat, sizes: seq<nat>, k: nat)
    requires k <= |sizes|
    ensures Entries(count, sizes[..k]) <= Entries(count, sizes)
    ensures IndexerEntries(count, sizes[..k]) <= IndexerEntries(count, sizes)
    decreases |sizes| - k
  {
    if k < |sizes| {
      OneBatch(count, sizes, k);
      EntriesPrefix(count, sizes, k + 1);
    } else {
      assert sizes[..k] == sizes;
    }
  }

  /** The Spawner has dispatched a prefix of the walk that the batch sizes determine. */
  lemma DispatchedIsWalk(s: State)
    requires Inv(s)
    ensures EntriesOf(s.dispatched) <= Entries(s.count, s.sizes)
  {
    SpawnerVisited(s.count, s.sp, s.ring2, s.sizes, Pushed2(s), s.dispatched);
    EntriesPrefix(s.count, s.sizes, Pushed2(s));
  }

  /** Every dispatch reads inside the log. */
  lemma DispatchesInBounds(s: State, k: nat)
    requires Reachable(s) && k < |s.dispatched|
    ensures s.dispatched[k].entry < s.count
  {
    ReachableInv(s);
    DispatchedIsWalk(s);
    EntriesInBounds(s.count, s.sizes);
    assert EntriesOf(s.dispatched)[k] == Entries(s.count, s.sizes)[k];
  }

  /** Whatever the arrival times and batching, the first count - MAX_BATCH + 1 dispatched transactions
      are log entries 0, 1, 2, ... in order. */
  lemma FirstDispatchesAreLogOrder(s: State, k: nat)
    requires Reachable(s) && k < |s.dispatched| && k <= s.count - MAX_BATCH
    ensures s.dispatched[k].entry == k
  {
    ReachableInv(s);
    DispatchedIsWalk(s);
    FirstLapIsLogOrder(s.count, s.sizes);
    assert EntriesOf(s.dispatched)[k] == Entries(s.count, s.sizes)[k];
  }

  // ---------------------------------------------------------------------------
  // Lockstep
  // ---------------------------------------------------------------------------

  /** A run only adds to what has happened. */
  lemma {:induction false} HistoryGrows(s: State, run: seq<Actor>, t: State)
    requires Run(s, run) == Some(t)
    ensures s.count == t.count && s.sizes <= t.sizes && s.prepared <= t.prepared && s.dispatched <= t.dispatched
  {
    if run != [] {
      var u := Run(s, run[..|run| - 1]).value;
      HistoryGrows(s, run[..|run| - 1], u);
    }
  }

  lemma ReachableNext(s: State, a: Actor)
    requires Reachable(s) && Next(s, a).Some?
    ensures Reachable(Next(s, a).value)
  {
    var t := Next(s, a).value;
    var junk: nat, run :| Run(Init(s.count, junk), run) == Some(s);
    assert (run + [a])[..|run|] == run;
    assert Run(Init(s.count, junk), run + [a]) == Some(t);
    assert t.count == s.count;
  }

  /** The Spawner is about to dispatch. */
  ghost predicate Dispatching(s: State) { s.sp.pc.SDispatch? && s.sp.pc.i < s.sp.batch }

  /** What it dispatches, as the state after the step records it. */
  lemma NextDispatch(s: State) returns (t: State)
    requires Reachable(s) && Dispatching(s)
    ensures SpawnerNext(s) == Some(t) && Reachable(t)
    ensures t.count == s.count && t.sizes == s.sizes && t.prepared == s.prepared && |t.dispatched| == |s.dispatched| + 1
    ensures t.dispatched[|s.dispatched|].entry == s.sp.idx < s.count
  {
    t := SpawnerNext(s).value;
    ReachableNext(s, SpawnerA);
    DispatchesInBounds(t, |s.dispatched|);
  }

  lemma {:induction false} SizesGrow(s: State, run: seq<Actor>)
    requires Run(s, run).Some?
    ensures s.sizes <= Run(s, run).value.sizes
  {
    if run != [] { SizesGrow(s, run[..|run| - 1]); }
  }

  /** In any run, the Prefetcher and later the Spawner begin their k-th batch with the same size at the
      same entry, and the batch fits in the log. */
  lemma PrefetcherAndSpawnerKeepStep(s: State, run: seq<Actor>, t: State)
    requires Inv(s) && Run(s, run) == Some(t)
    requires s.pf.pc == PLoop(0) && t.sp.pc == SDispatch(0) && s.pf.done == t.sp.done
    ensures s.pf.idx == t.sp.idx && s.pf.batch == t.sp.batch && t.sp.idx + t.sp.batch <= t.count
  {
    RunKeepsInv(s, run);
    SizesGrow(s, run);
    var k := t.sp.done;
    assert t.sizes[..k] == s.sizes[..k];
    assert s.sizes[k] == t.sizes[k];
    StartInBounds(t.count, t.sizes[..k]);
  }

  lemma IndexerBatchStart(s: State)
    requires Inv(s) && s.ix.pc == IPrepare(0)
    ensures |s.sizes| > 0 && s.ix.idx == IndexerStart(s.count, s.sizes[..|s.sizes| - 1])
  {
  }

  lemma SpawnerBatchStart(s: State)
    requires Inv(s) && s.sp.pc == SDispatch(0)
    ensures s.sp.done < |s.sizes| && s.sp.idx == Start(s.count, s.sizes[..s.sp.done])
  {
  }

  /** Where the Indexer and later the Spawner begin their k-th batch: the same entry for every batch of
      the run exactly when no batch straddled the end of the log. */
  lemma IndexerAndSpawnerStarts(s: State, run: seq<Actor>, t: State)
    requires Inv(s) && Run(s, run) == Some(t)
    requires s.ix.pc == IPrepare(0) && t.sp.pc == SDispatch(0) && |s.sizes| - 1 == t.sp.done
    ensures t.sp.done <= |t.sizes|
    ensures var before := t.sizes[..t.sp.done];
            s.ix.idx == IndexerStart(t.count, before) && t.sp.idx == Start(t.count, before)
    ensures (forall k | 1 <= k <= |t.sizes| :: !Straddles(t.count, t.sizes, k)) <==> Lockstep(t.count, t.sizes)
    ensures Lockstep(t.count, t.sizes) ==> s.ix.idx == t.sp.idx
  {
    RunKeepsInv(s, run);
    SizesGrow(s, run);
    IndexerBatchStart(s);
    SpawnerBatchStart(t);
    assert t.sizes[..t.sp.done] == s.sizes[..t.sp.done];
    LockstepIff(t.count, t.sizes);
  }

  /** While the Indexer is in step, each dispatched entry was prepared first: the k-th entry dispatched
      is the k-th prepared. */
  lemma DispatchedWasPrepared(s: State, k: nat)
    requires Reachable(s) && Lockstep(s.count, s.sizes) && k < |s.dispatched|
    ensures k < |s.prepared| && s.prepared[k] == s.dispatched[k].entry
  {
    ReachableInv(s);
    var p := Pushed1(s);
    assert s.sizes[..|s.sizes|] == s.sizes;
    SpawnedFromPushed(s);
    LockstepEntries(s.count, s.sizes, p);
    assert EntriesOf(s.dispatched)[k] == Entries(s.count, s.sizes[..p])[k];
  }

  lemma SpawnerVisited(count: nat, sp: Spawner, ring2: seq<nat>, sizes: seq<nat>, pushed2: nat, ds: seq<Dispatch>)
    requires SpawnerInv(count, sp, ring2, sizes, pushed2, ds)
    ensures EntriesOf(ds) <= Entries(count, sizes[..pushed2])
  {
    var e, pushed := sp.done, sizes[..pushed2];
    assert pushed[..e] == sizes[..e];
    EntriesPrefix(count, pushed, e);
    if sp.pc.SDispatch? {
      OneBatch(count, pushed, e);
      EntriesPrefix(count, pushed, e + 1);
      var at := Start(count, sizes[..e]);
      assert Range(at, sp.pc.i) <= Range(at, sp.batch);
    }
  }

  /** Batches that have reached the Spawner have been pushed by the Indexer. */
  lemma PushedInTurn(s: State)
    requires Inv(s)
    ensures 0 <= Pushed2(s) <= Pushed1(s) <= |s.sizes|
  {}

  lemma PushedIsPrepared(s: State)
    requires Inv(s)
    ensures IndexerEntries(s.count, s.sizes[..Pushed1(s)]) <= s.prepared
  {
    assert s.sizes[..|s.sizes|] == s.sizes;
  }

  /** What has been dispatched comes from batches the Indexer has already pushed. */
  lemma SpawnedFromPushed(s: State)
    requires Inv(s)
    ensures EntriesOf(s.dispatched) <= Entries(s.count, s.sizes[..Pushed1(s)])
    ensures IndexerEntries(s.count, s.sizes[..Pushed1(s)]) <= s.prepared
  {
    PushedInTurn(s);
    PushedIsPrepared(s);
    DispatchedFrom(s.count, s.sp, s.ring2, s.sizes, Pushed2(s), Pushed1(s), s.dispatched);
  }

  lemma DispatchedFrom(count: nat, sp: Spawner, ring2: seq<nat>, sizes: seq<nat>, q: nat, p: nat, ds: seq<Dispatch>)
    requires SpawnerInv(count, sp, ring2, sizes, q, ds) && q <= p <= |sizes|
    ensures EntriesOf(ds) <= Entries(count, sizes[..p])
  {
    SpawnerVisited(count, sp, ring2, sizes, q, ds);
    assert sizes[..p][..q] == sizes[..q];
    EntriesPrefix(count, sizes[..p], q);
  }

  ghost predicate AllPrepared(s: State) {
    forall k | 0 <= k < |s.dispatched| :: s.dispatched[k].entry in s.prepared
  }

  /** Whatever the interleaving, if batch by batch the Indexer has been at least as far as the Spawner will be,
      every entry has been prepared by the time it is dispatched. */
  lemma PreparedByThen(s: State)
    requires Reachable(s) && PreparedFirst(s.count, s.sizes)
    ensures AllPrepared(s)
  {
    ReachableInv(s);
    SpawnedFromPushed(s);
    var p := Pushed1(s);
    PreparedIff(s.count, s.sizes[..p]);
    forall k | 0 <= k < |s.dispatched| ensures s.dispatched[k].entry in s.prepared {
      var e := s.dispatched[k].entry;
      assert EntriesOf(s.dispatched)[k] == Entries(s.count, s.sizes[..p])[k] == e;
      assert e in Entries(s.count, s.sizes[..p]);
    }
  }

  /** In the first lap no condition is needed: the k-th dispatched entry is the k-th prepared, and both are k. */
  lemma FirstLapIsPrepared(s: State, k: nat)
    requires Reachable(s) && k < |s.dispatched| && k <= s.count - MAX_BATCH
    ensures k < |s.prepared| && s.prepared[k] == s.dispatched[k].entry == k
  {
    ReachableInv(s);
    FirstDispatchesAreLogOrder(s, k);
    SpawnedFromPushed(s);
    var before := s.sizes[..Pushed1(s)];
    EntriesLength(s.count, before);
    IndexerFirstLap(s.count, before);
  }

  /** In particular in every run whose batches have all been full. */
  lemma FullBatchesArePrepared(s: State, k: nat)
    requires Reachable(s) && k < |s.dispatched| && forall i | 0 <= i < |s.sizes| :: s.sizes[i] == MAX_BATCH
    ensures k < |s.prepared| && s.prepared[k] == s.dispatched[k].entry
  {
    ReachableInv(s);
    FullBatchesKeepStep(s.count, s.sizes);
    DispatchedWasPrepared(s, k);
  }

  // ---------------------------------------------------------------------------
  // What each stage takes, and when it waits
  // ---------------------------------------------------------------------------

  /** The Indexer takes everything outstanding, up to four requests, and remembers how many. */
  lemma IndexerTakesBacklog(s: State)
    requires Reachable(s) && s.ix.pc.ICheck? && s.rpc.received > s.ix.handled
    ensures IndexerNext(s).Some?
    ensures var t := IndexerNext(s).value;
            && t.ix.handled == Min(s.rpc.received, s.ix.handled + 4)
            && t.ix.batch == t.ix.handled - s.ix.handled && t.sizes == s.sizes + [t.ix.batch]
            && t.rpc == s.rpc && t.ring1 == s.ring1
  {}

  /** Exactly when a thread has no step: the Indexer with nothing outstanding or two batches queued before it, the
      Prefetcher with an empty ring before it or a full one after it, the Spawner with an empty ring, and the
      handler after a million requests. */
  lemma WaitsExactlyWhen(s: State)
    requires Reachable(s)
    ensures IndexerNext(s).None? <==>
              (s.ix.pc.ICheck? && s.rpc.received == s.ix.handled) || (s.ix.pc == IPrepare(s.ix.batch) && |s.ring1| == 2)
    ensures PrefetcherNext(s).None? <==> (s.pf.pc.PFront? && s.ring1 == []) || (s.pf.pc == PLoop(s.pf.batch) && |s.ring2| == 2)
    ensures SpawnerNext(s).None? <==> s.sp.pc.SFront? && s.ring2 == []
    ensures RpcWriteNext(s).None? && RpcCountNext(s).None? <==> s.rpc.written == s.rpc.received == 1_000_000
  {
    ReachableInv(s);
    CountersAreOrdered(s);
  }

  /** Whenever the Indexer reads the counter in this run, at least four requests are outstanding. */
  ghost predicate Backlogged(s: State, run: seq<Actor>) {
    run == [] ||
    var before, a := run[..|run| - 1], run[|run| - 1];
    && Backlogged(s, before)
    && (Run(s, before).Some? && a.IndexerA? && Run(s, before).value.ix.pc.ICheck? ==>
          var u := Run(s, before).value; u.rpc.received >= u.ix.handled + 4)
  }

  /** Under a backlog all batches are full. */
  lemma {:induction false} BacklogGivesFullBatches(s: State, run: seq<Actor>, t: State)
    requires Run(s, run) == Some(t) && Backlogged(s, run) && forall i | 0 <= i < |s.sizes| :: s.sizes[i] == 4
    ensures forall i | 0 <= i < |t.sizes| :: t.sizes[i] == 4
  {
    if run != [] {
      var before := run[..|run| - 1];
      BacklogGivesFullBatches(s, before, Run(s, before).value);
    }
  }

  /** So whatever the interleaving, a pipeline that is never short of requests prepares every entry before it
      dispatches it. */
  lemma BacklogIsPrepared(count: nat, junk: nat, run: seq<Actor>, t: State, k: nat)
    requires ValidCount(count) && Run(Init(count, junk), run) == Some(t) && Backlogged(Init(count, junk), run) && k < |t.dispatched|
    ensures k < |t.prepared| && t.prepared[k] == t.dispatched[k].entry
  {
    BacklogGivesFullBatches(Init(count, junk), run, t);
    HistoryGrows(Init(count, junk), run, t);
    assert Reachable(t);
    FullBatchesArePrepared(t, k);
  }
}
