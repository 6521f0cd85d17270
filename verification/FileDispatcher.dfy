/** The single-core dispatcher: one thread that takes in a batch, prepares its records and dispatches
    them.  It visits the same entries as the pipelined Spawner for the same batch sizes, and unlike
    the pipelined Indexer it prepares every record before dispatching it, for every batching. */
module FileDispatcher {
  import opened Common
  import opened Walk
  import opened Pipeline
  import opened PipelineLaws

  lemma AppendBatch(count: nat, sizes: seq<nat>, b: nat)
    requires ValidCount(count) && ValidSizes(sizes) && 1 <= b <= MAX_BATCH
    ensures ValidSizes(sizes + [b]) && Sum(sizes + [b]) == Sum(sizes) + b
    ensures var at := if End(count, sizes) > count - MAX_BATCH then 0 else End(count, sizes);
            End(count, sizes + [b]) == at + b && Entries(count, sizes + [b]) == Entries(count, sizes) + Range(at, b)
  {
    var more := sizes + [b];
    OneBatch(count, more, |sizes|);
    assert more[..|sizes|] == sizes && more[..|sizes| + 1] == more;
  }

  class Dispatcher {
    const count: nat
    var idx: nat           // entries dispatched since the last rewind; read_head follows it
    var prepareIdx: nat    // prepare_proc_read_head
    var handled: nat
    ghost var sizes: seq<nat>
    ghost var prepared: seq<nat>
    ghost var dispatched: seq<nat>

    ghost predicate Valid()
      reads this
    {
      && ValidCount(count) && ValidSizes(sizes) && handled == Sum(sizes)
      && idx == prepareIdx == End(count, sizes)
      && dispatched == prepared == Entries(count, sizes)
    }

    constructor (n: nat)
      requires ValidCount(n)
      ensures Valid() && count == n && sizes == [] && handled == 0
    {
      count := n;
      idx, prepareIdx, handled := 0, 0, 0;
      sizes, prepared, dispatched := [], [], [];
    }

    /** check_avail_cnts, given a value loaded from the request counter that leaves the spin loop. */
    method CheckAvailCnts(received: nat) returns (batch: nat)
      requires received > handled
      ensures batch == if received - handled >= MAX_BATCH then MAX_BATCH else received - handled
    {
      var avail := received - handled;
      if avail >= MAX_BATCH { batch := MAX_BATCH; } else { batch := avail; }
    }

    method PrepareAll(batch: nat)
      modifies `prepareIdx, `prepared
      ensures prepareIdx == old(prepareIdx) + batch
      ensures prepared == old(prepared) + Range(old(prepareIdx), batch)
    {
      var i := 0;
      while i < batch
        invariant 0 <= i <= batch && prepareIdx == old(prepareIdx) + i
        invariant prepared == old(prepared) + Range(old(prepareIdx), i)
      {
        prepared := prepared + [prepareIdx];
        assert Range(old(prepareIdx), i + 1) == Range(old(prepareIdx), i) + [prepareIdx];
        prepareIdx := prepareIdx + 1;
        i := i + 1;
      }
    }

    method DispatchAll(batch: nat)
      modifies `idx, `dispatched
      ensures idx == old(idx) + batch
      ensures dispatched == old(dispatched) + Range(old(idx), batch)
    {
      var j := 0;
      while j < batch
        invariant 0 <= j <= batch && idx == old(idx) + j
        invariant dispatched == old(dispatched) + Range(old(idx), j)
      {
        dispatched := dispatched + [idx];
        assert Range(old(idx), j + 1) == Range(old(idx), j) + [idx];
        idx := idx + 1;
        j := j + 1;
      }
    }

    /** dispatch_batch: rewind if needed, prepare the batch, dispatch the batch. */
    method DispatchBatch(received: nat) returns (batch: nat)
      requires Valid() && received > handled
      modifies this
      ensures Valid()
      ensures handled == Min(received, old(handled) + 4) && batch == handled - old(handled)
      ensures sizes == old(sizes) + [batch]
    {
      if idx > count - MAX_BATCH { idx, prepareIdx := 0, 0; }
      batch := CheckAvailCnts(received);
      PrepareAll(batch);
      DispatchAll(batch);
      AppendBatch(count, sizes, batch);
      handled := handled + batch;
      sizes := sizes + [batch];
    }
  }

  /** For the same batch sizes the Spawner, once it has caught up, has dispatched what the single-core
      dispatcher has, entry for entry; before that, a prefix of it. */
  lemma SpawnerMatchesFileDispatcher(s: State, d: Dispatcher)
    requires Reachable(s) && d.Valid() && d.count == s.count && d.sizes == s.sizes
    ensures EntriesOf(s.dispatched) <= d.dispatched
    ensures |s.dispatched| == s.ix.handled ==> EntriesOf(s.dispatched) == d.dispatched
  {
    ReachableInv(s);
    DispatchedIsWalk(s);
    EntriesLength(s.count, s.sizes);
  }
}
