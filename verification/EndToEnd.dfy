/** From arriving requests to the final database: the Indexer fills each record's cown slots, the Spawner
    dispatches it with what is in them, and the runtime executes it. */
module EndToEnd {
  import W = Walk
  import P = Pipeline
  import PL = PipelineLaws
  import PP = PipelineProgress
  import opened Common
  import opened TpccKeys
  import opened Tpcc
  import opened TpccRun
  import opened TpccDeterminism
  import opened TpccEngine
  import opened Runtime

  /** The records that the dispatched entries name, in dispatch order. */
  ghost function Dispatched(s: P.State, log: seq<Txn>): (r: seq<Txn>)
    requires P.Reachable(s) && s.count == |log|
    ensures |r| == |s.dispatched|
    ensures forall k | 0 <= k < |r| :: s.dispatched[k].entry < |log| && r[k] == log[s.dispatched[k].entry]
  {
    assert forall k | 0 <= k < |s.dispatched| :: s.dispatched[k].entry < |log| by {
      forall k | 0 <= k < |s.dispatched| ensures s.dispatched[k].entry < |log| { PL.DispatchesInBounds(s, k); }
    }
    seq(|s.dispatched|, k requires 0 <= k < |s.dispatched| => log[s.dispatched[k].entry])
  }

  // ---------------------------------------------------------------------------
  // The hand-off through the records' slots
  // ---------------------------------------------------------------------------

  ghost predicate AllPreparable(log: seq<Txn>) { forall i | 0 <= i < |log| :: Preparable(log[i]) }

  /** Slots of every record, 33 each. */
  ghost predicate IsMemory(log: seq<Txn>, mem: seq<seq<Cown>>) {
    |mem| == |log| && forall i | 0 <= i < |mem| :: |mem[i]| == 33
  }

  /** The slots after the Indexer has prepared the given entries of the log, whatever they held before. */
  ghost function SlotsAfter(log: seq<Txn>, mem: seq<seq<Cown>>, prepared: seq<nat>): (r: seq<seq<Cown>>)
    requires AllPreparable(log) && IsMemory(log, mem) && W.AllBelow(prepared, |log|)
    ensures IsMemory(log, r)
  {
    if prepared == [] then mem
    else
      var before, e := SlotsAfter(log, mem, prepared[..|prepared| - 1]), prepared[|prepared| - 1];
      before[e := FilledSlots(log[e], before[e])]
  }

  lemma {:induction false} PreparedIsNamed(log: seq<Txn>, mem: seq<seq<Cown>>, prepared: seq<nat>, e: nat)
    requires AllPreparable(log) && IsMemory(log, mem) && W.AllBelow(prepared, |log|) && e in prepared && e < |log|
    ensures Names(log[e], SlotsAfter(log, mem, prepared)[e])
  {
    var before, last := prepared[..|prepared| - 1], prepared[|prepared| - 1];
    if last == e {
      FilledNames(log[e], SlotsAfter(log, mem, before)[e]);
    } else {
      assert prepared == before + [last];
      PreparedIsNamed(log, mem, before, e);
    }
  }

  /** The Spawner is about to dispatch a record whose slots are filled by now, so that what it hands to each
      `when` is what the behaviour's body uses. */
  ghost predicate HandsOver(u: P.State, log: seq<Txn>, mem: seq<seq<Cown>>, split: bool) {
    && u.count == |log| && AllPreparable(log) && IsMemory(log, mem) && PP.Inside(u)
    && u.sp.idx < |log| && u.sp.idx in u.prepared
    && var t, slots := log[u.sp.idx], SlotsAfter(log, mem, u.prepared)[u.sp.idx];
       && Names(t, slots)
       && var cowns := HandedOver(t, slots, split);
          |cowns| == |Spawn(t, split)| && forall i | 0 <= i < |cowns| :: cowns[i] == Cowns(Spawn(t, split)[i])
  }

  /** A record that has been prepared by the time it is dispatched hands over exactly its own cowns. */
  lemma PreparedHandsOver(u: P.State, log: seq<Txn>, mem: seq<seq<Cown>>, split: bool)
    requires P.Reachable(u) && PL.Dispatching(u) && u.count == |log| && AllPreparable(log) && IsMemory(log, mem)
    requires PP.Inside(u) && u.sp.idx in u.prepared
    ensures HandsOver(u, log, mem, split)
  {
    var t := PL.NextDispatch(u);
    PreparedIsNamed(log, mem, u.prepared, u.sp.idx);
    HandsOverItsCowns(log[u.sp.idx], SlotsAfter(log, mem, u.prepared)[u.sp.idx], split);
  }

  /** At the dispatch step itself: while batch by batch the Indexer has been at least as far as the Spawner, and
      inside the log. */
  lemma DispatchHandsOver(u: P.State, log: seq<Txn>, mem: seq<seq<Cown>>, split: bool)
    requires P.Reachable(u) && PL.Dispatching(u) && u.count == |log| && AllPreparable(log) && IsMemory(log, mem)
    requires PP.Inside(u) && W.PreparedFirst(u.count, u.sizes)
    ensures HandsOver(u, log, mem, split)
  {
    var t := PL.NextDispatch(u);
    PL.PreparedByThen(t);
    PreparedHandsOver(u, log, mem, split);
  }

  /** The same in the first lap, for every batching. */
  lemma FirstLapHandsOver(u: P.State, log: seq<Txn>, mem: seq<seq<Cown>>, split: bool)
    requires P.Reachable(u) && PL.Dispatching(u) && u.count == |log| && AllPreparable(log) && IsMemory(log, mem)
    requires PP.Inside(u) && |u.dispatched| <= u.count - W.MAX_BATCH
    ensures HandsOver(u, log, mem, split)
  {
    var t := PL.NextDispatch(u);
    PL.FirstLapIsPrepared(t, |u.dispatched|);
    PreparedHandsOver(u, log, mem, split);
  }

  /** Every dispatch on any way to s handed over the behaviours' own cowns, at the time. */
  ghost predicate AllHandedOver(s: P.State, log: seq<Txn>, mem: seq<seq<Cown>>, split: bool) {
    forall u, run | P.Reachable(u) && P.Run(u, run) == Some(s) && PL.Dispatching(u) && |u.dispatched| < |s.dispatched| ::
      HandsOver(u, log, mem, split)
  }

  lemma InsideBefore(u: P.State, run: seq<P.Actor>, s: P.State)
    requires P.Run(u, run) == Some(s) && PP.Inside(s)
    ensures PP.Inside(u)
  {
    PL.HistoryGrows(u, run, s);
    assert forall i | 0 <= i < |u.prepared| :: u.prepared[i] == s.prepared[i];
  }

  lemma AheadBefore(u: P.State, run: seq<P.Actor>, s: P.State)
    requires P.Run(u, run) == Some(s) && W.PreparedFirst(s.count, s.sizes)
    ensures u.count == s.count && W.PreparedFirst(u.count, u.sizes)
  {
    PL.HistoryGrows(u, run, s);
    PP.PreparedFirstPrefix(s.count, s.sizes, |u.sizes|);
    assert s.sizes[..|u.sizes|] == u.sizes;
  }

  lemma PreparedFirstHandsAllOver(s: P.State, log: seq<Txn>, mem: seq<seq<Cown>>, split: bool)
    requires P.Reachable(s) && s.count == |log| && AllPreparable(log) && IsMemory(log, mem)
    requires PP.Inside(s) && W.PreparedFirst(s.count, s.sizes)
    ensures AllHandedOver(s, log, mem, split)
  {
    forall u, run | P.Reachable(u) && P.Run(u, run) == Some(s) && PL.Dispatching(u) && |u.dispatched| < |s.dispatched|
      ensures HandsOver(u, log, mem, split)
    {
      AheadBefore(u, run, s);
      InsideBefore(u, run, s);
      DispatchHandsOver(u, log, mem, split);
    }
  }

  lemma FirstLapHandsAllOver(s: P.State, log: seq<Txn>, mem: seq<seq<Cown>>, split: bool)
    requires P.Reachable(s) && s.count == |log| && AllPreparable(log) && IsMemory(log, mem)
    requires PP.Inside(s) && |s.dispatched| <= s.count - W.MAX_BATCH + 1
    ensures AllHandedOver(s, log, mem, split)
  {
    forall u, run | P.Reachable(u) && P.Run(u, run) == Some(s) && PL.Dispatching(u) && |u.dispatched| < |s.dispatched|
      ensures HandsOver(u, log, mem, split)
    {
      PL.HistoryGrows(u, run, s);
      InsideBefore(u, run, s);
      FirstLapHandsOver(u, log, mem, split);
    }
  }

  // ---------------------------------------------------------------------------
  // Every lap
  // ---------------------------------------------------------------------------

  /** For every arrival pattern, every interleaving of the pipeline stages, either form of the transactions and
      every permitted execution order: if the Indexer kept ahead and inside the log, each behaviour was handed its
      own cowns when it was dispatched, and the database is what serial execution of the dispatched records
      gives, in whatever lap. */
  lemma ReplayIsSerial(db: Database, log: seq<Txn>, mem: seq<seq<Cown>>, s: P.State, split: bool, sched: seq<nat>)
    requires Loaded(db) && WellFormedLog(db.scale, log) && AllPreparable(log) && IsMemory(log, mem)
    requires P.Reachable(s) && s.count == |log| && W.PreparedFirst(s.count, s.sizes) && PP.Inside(s)
    requires Replayable(db.scale, split, Dispatched(s, log))
    requires Finishes(LogWorkload(db, Dispatched(s, log), split), sched)
    ensures AllHandedOver(s, log, mem, split)
    ensures After(LogWorkload(db, Dispatched(s, log), split), sched).store.db == ExecLog(db, Dispatched(s, log))
  {
    PreparedFirstHandsAllOver(s, log, mem, split);
    ReplayEndsSerially(db, Dispatched(s, log), split, sched);
  }

  /** Replicas that took the same batches agree in every lap, once they have dispatched equally many, as long as
      these batches keep the Indexers ahead and inside the log. */
  lemma ReplicasWithEqualBatchesAgree(db: Database, log: seq<Txn>,
                                      mem1: seq<seq<Cown>>, s1: P.State, split1: bool, sched1: seq<nat>,
                                      mem2: seq<seq<Cown>>, s2: P.State, split2: bool, sched2: seq<nat>)
    requires Loaded(db) && WellFormedLog(db.scale, log) && AllPreparable(log) && IsMemory(log, mem1) && IsMemory(log, mem2)
    requires P.Reachable(s1) && s1.count == |log| && P.Reachable(s2) && s2.count == |log|
    requires s1.sizes == s2.sizes && |s1.dispatched| == |s2.dispatched|
    requires W.PreparedFirst(s1.count, s1.sizes) && W.NoOverrun(s1.count, s1.sizes, |s1.sizes|)
    requires Replayable(db.scale, split1, Dispatched(s1, log)) && Replayable(db.scale, split2, Dispatched(s2, log))
    requires Finishes(LogWorkload(db, Dispatched(s1, log), split1), sched1)
    requires Finishes(LogWorkload(db, Dispatched(s2, log), split2), sched2)
    ensures After(LogWorkload(db, Dispatched(s1, log), split1), sched1).store.db
            == After(LogWorkload(db, Dispatched(s2, log), split2), sched2).store.db
    ensures AllHandedOver(s1, log, mem1, split1) && AllHandedOver(s2, log, mem2, split2)
  {
    SameDispatches(s1, s2, log);
    PP.StaysInside(s1);
    PP.StaysInside(s2);
    ReplayIsSerial(db, log, mem1, s1, split1, sched1);
    ReplayIsSerial(db, log, mem2, s2, split2, sched2);
  }

  lemma SameDispatches(s1: P.State, s2: P.State, log: seq<Txn>)
    requires P.Reachable(s1) && s1.count == |log| && P.Reachable(s2) && s2.count == |log|
    requires s1.sizes == s2.sizes && |s1.dispatched| == |s2.dispatched|
    ensures Dispatched(s1, log) == Dispatched(s2, log)
  {
    P.ReachableInv(s1);
    P.ReachableInv(s2);
    PL.DispatchedIsWalk(s1);
    PL.DispatchedIsWalk(s2);
    forall k | 0 <= k < |s1.dispatched| ensures s1.dispatched[k].entry == s2.dispatched[k].entry {
      assert P.EntriesOf(s1.dispatched)[k] == W.Entries(s1.count, s1.sizes)[k] == P.EntriesOf(s2.dispatched)[k];
    }
  }

  // ---------------------------------------------------------------------------
  // The first lap
  // ---------------------------------------------------------------------------

  /** In the first lap the pipeline hands the runtime the log itself, prepared, whatever the timing. */
  lemma DispatchedIsLogPrefix(s: P.State, log: seq<Txn>)
    requires P.Reachable(s) && s.count == |log| && |s.dispatched| <= s.count - W.MAX_BATCH + 1
    ensures Dispatched(s, log) == log[..|s.dispatched|]
    ensures PL.AllPrepared(s)
  {
    forall k | 0 <= k < |s.dispatched|
      ensures Dispatched(s, log)[k] == log[..|s.dispatched|][k] && s.dispatched[k].entry in s.prepared
    {
      PL.FirstLapIsPrepared(s, k);
    }
  }

  /** Here the Indexer is always ahead; it must only not have left the log, which it may by running on towards
      the second lap. */
  lemma FirstLapIsSerial(db: Database, log: seq<Txn>, mem: seq<seq<Cown>>, s: P.State, split: bool, sched: seq<nat>)
    requires Loaded(db) && WellFormedLog(db.scale, log) && Replayable(db.scale, split, log)
    requires AllPreparable(log) && IsMemory(log, mem)
    requires P.Reachable(s) && s.count == |log| && |s.dispatched| <= s.count - W.MAX_BATCH + 1 && PP.Inside(s)
    requires Finishes(LogWorkload(db, Dispatched(s, log), split), sched)
    ensures AllHandedOver(s, log, mem, split)
    ensures After(LogWorkload(db, Dispatched(s, log), split), sched).store.db == ExecLog(db, log[..|s.dispatched|])
  {
    DispatchedIsLogPrefix(s, log);
    FirstLapHandsAllOver(s, log, mem, split);
    ReplayablePrefix(db.scale, split, log, |s.dispatched|);
    ReplayEndsSerially(db, log[..|s.dispatched|], split, sched);
  }

  /** While no more requests have been taken in than the first lap has, nothing is asked of the batches. */
  lemma EarlyReplayIsSerial(db: Database, log: seq<Txn>, mem: seq<seq<Cown>>, s: P.State, split: bool, sched: seq<nat>)
    requires Loaded(db) && WellFormedLog(db.scale, log) && Replayable(db.scale, split, log)
    requires AllPreparable(log) && IsMemory(log, mem)
    requires P.Reachable(s) && s.count == |log| && s.ix.handled <= s.count - W.MAX_BATCH + 1
    requires Finishes(LogWorkload(db, Dispatched(s, log), split), sched)
    ensures AllHandedOver(s, log, mem, split) && |s.dispatched| <= |log|
    ensures After(LogWorkload(db, Dispatched(s, log), split), sched).store.db == ExecLog(db, log[..|s.dispatched|])
  {
    PP.EarlyStaysInside(s);
    PL.CountersAreOrdered(s);
    FirstLapIsSerial(db, log, mem, s, split, sched);
  }

  /** Two replicas that have dispatched equally many transactions agree, although their requests arrived, were
      batched and were executed differently, and each behaviour of either was handed its own cowns. */
  lemma ReplicasAgree(db: Database, log: seq<Txn>,
                      mem1: seq<seq<Cown>>, s1: P.State, split1: bool, sched1: seq<nat>,
                      mem2: seq<seq<Cown>>, s2: P.State, split2: bool, sched2: seq<nat>)
    requires Loaded(db) && WellFormedLog(db.scale, log) && AllPreparable(log) && IsMemory(log, mem1) && IsMemory(log, mem2)
    requires Replayable(db.scale, split1, log) && Replayable(db.scale, split2, log)
    requires P.Reachable(s1) && s1.count == |log| && PP.Inside(s1) && P.Reachable(s2) && s2.count == |log| && PP.Inside(s2)
    requires |s1.dispatched| == |s2.dispatched| <= |log| - W.MAX_BATCH + 1
    requires Finishes(LogWorkload(db, Dispatched(s1, log), split1), sched1)
    requires Finishes(LogWorkload(db, Dispatched(s2, log), split2), sched2)
    ensures After(LogWorkload(db, Dispatched(s1, log), split1), sched1).store.db
            == After(LogWorkload(db, Dispatched(s2, log), split2), sched2).store.db
    ensures AllHandedOver(s1, log, mem1, split1) && AllHandedOver(s2, log, mem2, split2)
  {
    FirstLapIsSerial(db, log, mem1, s1, split1, sched1);
    FirstLapIsSerial(db, log, mem2, s2, split2, sched2);
  }
}
