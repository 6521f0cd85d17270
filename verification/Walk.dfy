/** How the dispatcher stages walk the circular transaction log, as functions of the batch sizes.

    The Prefetcher, the Spawner and the single-core FileDispatcher rewind when fewer than MAX_BATCH
    entries are left; the Indexer rewinds when fewer than its previous batch are left.  Positions are
    entry numbers: every stage moves its read head and its index together. */
module Walk {
  import opened Common

  const MAX_BATCH := 4

  ghost predicate ValidCount(count: nat) { MAX_BATCH <= count < TWO32 }
  ghost predicate ValidSizes(sizes: seq<nat>) { forall k | 0 <= k < |sizes| :: 1 <= sizes[k] <= MAX_BATCH }

  /** `idx > count - MAX_BATCH`, in 64-bit unsigned arithmetic. */
  function Rewind(idx: nat, count: nat): nat {
    if idx > (if count >= MAX_BATCH then count - MAX_BATCH else TWO64 + count - MAX_BATCH) then 0 else idx
  }

  /** `read_idx > read_count - batch`, in 32-bit unsigned arithmetic. */
  function RewindIndexer(idx: nat, count: nat, batch: nat): nat {
    if idx > (if count >= batch then count - batch else (count - batch) % TWO32) then 0 else idx
  }

  /** Where a MAX_BATCH-guarded stage stands after the given batches, and where its next one starts. */
  function End(count: nat, sizes: seq<nat>): nat
    decreases |sizes|, 0
  {
    if sizes == [] then 0 else Start(count, sizes[..|sizes| - 1]) + sizes[|sizes| - 1]
  }

  function Start(count: nat, sizes: seq<nat>): nat
    decreases |sizes|, 1
  {
    Rewind(End(count, sizes), count)
  }

  /** The same for the Indexer.  On its first turn the previous batch is uninitialised, and index 0
      never exceeds anything. */
  function IndexerEnd(count: nat, sizes: seq<nat>): nat
    decreases |sizes|, 0
  {
    if sizes == [] then 0 else IndexerStart(count, sizes[..|sizes| - 1]) + sizes[|sizes| - 1]
  }

  function IndexerStart(count: nat, sizes: seq<nat>): nat
    decreases |sizes|, 1
  {
    if sizes == [] then 0 else RewindIndexer(IndexerEnd(count, sizes), count, sizes[|sizes| - 1])
  }

  function Range(from: nat, n: nat): (r: seq<nat>)
    ensures |r| == n && forall i | 0 <= i < n :: r[i] == from + i
  {
    seq(n, i => from + i)
  }

  /** All entries visited, in order. */
  function Entries(count: nat, sizes: seq<nat>): seq<nat> {
    if sizes == [] then []
    else
      var before := sizes[..|sizes| - 1];
      Entries(count, before) + Range(Start(count, before), sizes[|sizes| - 1])
  }

  function IndexerEntries(count: nat, sizes: seq<nat>): seq<nat> {
    if sizes == [] then []
    else
      var before := sizes[..|sizes| - 1];
      IndexerEntries(count, before) + Range(IndexerStart(count, before), sizes[|sizes| - 1])
  }

  lemma {:induction false} EntriesLength(count: nat, sizes: seq<nat>)
    ensures |Entries(count, sizes)| == |IndexerEntries(count, sizes)| == Sum(sizes)
  {
    if sizes != [] { EntriesLength(count, sizes[..|sizes| - 1]); }
  }

  // ---------------------------------------------------------------------------
  // Bounds
  // ---------------------------------------------------------------------------

  /** A MAX_BATCH-guarded batch always fits in the log. */
  lemma StartInBounds(count: nat, sizes: seq<nat>)
    requires ValidCount(count)
    ensures Start(count, sizes) + MAX_BATCH <= count
  {}

  lemma {:induction false} EntriesInBounds(count: nat, sizes: seq<nat>)
    requires ValidCount(count) && ValidSizes(sizes)
    ensures AllBelow(Entries(count, sizes), count)
  {
    if sizes != [] {
      var before := sizes[..|sizes| - 1];
      EntriesInBounds(count, before);
      StartInBounds(count, before);
    }
  }

  /** Until the first rewind the walk is the log itself, however the batches fall: the first
      count - MAX_BATCH + 1 entries are 0, 1, 2, and so on. */
  lemma {:induction false} FirstLapIsLogOrder(count: nat, sizes: seq<nat>)
    requires ValidCount(count) && ValidSizes(sizes)
    ensures Sum(sizes) <= count - MAX_BATCH ==> End(count, sizes) == Start(count, sizes) == Sum(sizes)
    ensures forall k | 0 <= k < |Entries(count, sizes)| && k <= count - MAX_BATCH :: Entries(count, sizes)[k] == k
  {
    if sizes != [] {
      var before := sizes[..|sizes| - 1];
      FirstLapIsLogOrder(count, before);
      EntriesLength(count, before);
    }
  }

  function Ones(n: nat): (r: seq<nat>)
    ensures |r| == n && ValidSizes(r)
  {
    seq(n, i => 1)
  }

  lemma {:induction false} SumOnes(n: nat)
    ensures Sum(Ones(n)) == n
  {
    if n > 0 {
      SumOnes(n - 1);
      assert Ones(n)[..n - 1] == Ones(n - 1);
    }
  }

  /** One further, the order depends on the batching: after single-entry batches the walk has rewound to
      entry 0, while a full batch still takes it through entry count - MAX_BATCH + 1. */
  lemma FirstLapBoundIsTight(count: nat) returns (a: seq<nat>, b: seq<nat>)
    requires ValidCount(count)
    ensures ValidSizes(a) && ValidSizes(b)
    ensures var k := count - MAX_BATCH + 1;
            && k < |Entries(count, a)| && k < |Entries(count, b)|
            && Entries(count, a)[k] == 0 && Entries(count, b)[k] == k
  {
    var n := count - MAX_BATCH;
    var ones, more := Ones(n), Ones(n + 1);
    SumOnes(n);
    FirstLapIsLogOrder(count, ones);
    EntriesLength(count, ones);
    b := ones + [MAX_BATCH];
    assert b[..|b| - 1] == ones;
    assert more[..n] == ones;
    assert End(count, more) == n + 1 && Start(count, more) == 0;
    SumOnes(n + 1);
    EntriesLength(count, more);
    a := more + [1];
    assert a[..|a| - 1] == more;
  }

  ghost predicate AllBelow(xs: seq<nat>, n: nat) { forall i | 0 <= i < |xs| :: xs[i] < n }

  /** The subtraction in the guard wraps on a log shorter than MAX_BATCH, so the walk never rewinds. */
  lemma {:induction false} ShortLogNeverRewinds(count: nat, n: nat)
    requires count < MAX_BATCH && n <= count + 1
    ensures End(count, Ones(n)) == Start(count, Ones(n)) == n
  {
    if n > 0 {
      ShortLogNeverRewinds(count, n - 1);
      assert Ones(n)[..n - 1] == Ones(n - 1);
    }
  }

  /** MAX_BATCH entries are exactly what the guards need: the walk stays inside the log under every
      batching if and only if the log has that many. */
  lemma InBoundsIff(count: nat)
    requires count < TWO32
    ensures (forall sizes | ValidSizes(sizes) :: AllBelow(Entries(count, sizes), count)) <==> count >= MAX_BATCH
  {
    if count >= MAX_BATCH {
      forall sizes | ValidSizes(sizes) ensures AllBelow(Entries(count, sizes), count) { EntriesInBounds(count, sizes); }
    } else {
      var sizes := Ones(count + 1);
      assert sizes[..count] == Ones(count);
      ShortLogNeverRewinds(count, count);
      var e := Entries(count, sizes);
      assert e == Entries(count, Ones(count)) + Range(count, 1);
      assert e[|e| - 1] == count;
      assert !AllBelow(e, count);
    }
  }

  // ---------------------------------------------------------------------------
  // Lockstep
  // ---------------------------------------------------------------------------

  /** The Indexer starts every batch where the other stages do. */
  ghost predicate Lockstep(count: nat, sizes: seq<nat>) {
    forall k | 0 <= k <= |sizes| :: IndexerStart(count, sizes[..k]) == Start(count, sizes[..k])
  }

  /** After batch k, a smaller batch than MAX_BATCH has left the walk where the other stages rewind and
      the Indexer, looking only at that batch, does not. */
  ghost predicate Straddles(count: nat, sizes: seq<nat>, k: nat)
    requires 1 <= k <= |sizes|
  {
    count - MAX_BATCH < End(count, sizes[..k]) <= count - sizes[k - 1]
  }

  lemma LockstepOne(count: nat, sizes: seq<nat>, k: nat)
    requires ValidCount(count) && ValidSizes(sizes) && 1 <= k <= |sizes|
    requires IndexerStart(count, sizes[..k - 1]) == Start(count, sizes[..k - 1])
    ensures IndexerStart(count, sizes[..k]) == Start(count, sizes[..k]) <==> !Straddles(count, sizes, k)
  {
    var p := sizes[..k];
    assert p[..|p| - 1] == sizes[..k - 1];
    assert p[|p| - 1] == sizes[k - 1];
    assert IndexerEnd(count, p) == End(count, p) > 0;
  }

  /** Exactly when the Indexer keeps step: no batch straddles the end of the log. */
  lemma LockstepIff(count: nat, sizes: seq<nat>)
    requires ValidCount(count) && ValidSizes(sizes)
    ensures Lockstep(count, sizes) <==> forall k | 1 <= k <= |sizes| :: !Straddles(count, sizes, k)
  {
    if Lockstep(count, sizes) {
      forall k | 1 <= k <= |sizes| ensures !Straddles(count, sizes, k) { LockstepOne(count, sizes, k); }
    }
    if forall k | 1 <= k <= |sizes| :: !Straddles(count, sizes, k) {
      forall k | 0 <= k <= |sizes| ensures IndexerStart(count, sizes[..k]) == Start(count, sizes[..k]) {
        NoStraddleKeepsStep(count, sizes, k);
      }
    }
  }

  lemma {:induction false} NoStraddleKeepsStep(count: nat, sizes: seq<nat>, k: nat)
    requires ValidCount(count) && ValidSizes(sizes) && k <= |sizes|
    requires forall j | 1 <= j <= |sizes| :: !Straddles(count, sizes, j)
    ensures IndexerStart(count, sizes[..k]) == Start(count, sizes[..k])
  {
    if k > 0 {
      NoStraddleKeepsStep(count, sizes, k - 1);
      LockstepOne(count, sizes, k);
    } else {
      assert sizes[..0] == [];
    }
  }

  /** In particular when every batch is full. */
  lemma FullBatchesKeepStep(count: nat, sizes: seq<nat>)
    requires ValidCount(count) && forall k | 0 <= k < |sizes| :: sizes[k] == MAX_BATCH
    ensures Lockstep(count, sizes)
  {
    LockstepIff(count, sizes);
  }

  /** In step, the Indexer prepares exactly the entries the others visit, in the same order. */
  lemma {:induction false} LockstepEntries(count: nat, sizes: seq<nat>, k: nat)
    requires Lockstep(count, sizes) && k <= |sizes|
    ensures IndexerEntries(count, sizes[..k]) == Entries(count, sizes[..k])
  {
    if k > 0 {
      LockstepEntries(count, sizes, k - 1);
      assert sizes[..k][..k - 1] == sizes[..k - 1];
    }
  }

  /** The guard looked at batch k - 1 and left the walk where batch k, being larger, does not fit. */
  ghost predicate RunsOver(count: nat, sizes: seq<nat>, k: nat)
    requires 1 <= k < |sizes|
  {
    count - sizes[k] < IndexerEnd(count, sizes[..k]) <= count - sizes[k - 1]
  }

  ghost predicate NoOverrun(count: nat, sizes: seq<nat>, n: nat)
    requires n <= |sizes|
  {
    forall k | 1 <= k < n :: !RunsOver(count, sizes, k)
  }

  lemma BatchInBoundsIff(count: nat, sizes: seq<nat>, k: nat)
    requires ValidCount(count) && ValidSizes(sizes) && k < |sizes|
    ensures IndexerStart(count, sizes[..k]) + sizes[k] <= count <==> k == 0 || !RunsOver(count, sizes, k)
  {
    if k > 0 { assert sizes[..k][|sizes[..k]| - 1] == sizes[k - 1]; }
  }

  lemma {:induction false} IndexerInBoundsUpTo(count: nat, sizes: seq<nat>, n: nat)
    requires ValidCount(count) && ValidSizes(sizes) && n <= |sizes|
    ensures AllBelow(IndexerEntries(count, sizes[..n]), count) <==> NoOverrun(count, sizes, n)
  {
    if n > 0 {
      IndexerInBoundsUpTo(count, sizes, n - 1);
      assert NoOverrun(count, sizes, n) <==> NoOverrun(count, sizes, n - 1) && (n == 1 || !RunsOver(count, sizes, n - 1));
      OneBatch(count, sizes, n - 1);
      BatchInBoundsIff(count, sizes, n - 1);
      AppendBelow(IndexerEntries(count, sizes[..n - 1]), IndexerStart(count, sizes[..n - 1]), sizes[n - 1], count);
    }
  }

  lemma AppendBelow(xs: seq<nat>, at: nat, b: nat, count: nat)
    requires b > 0
    ensures AllBelow(xs + Range(at, b), count) <==> AllBelow(xs, count) && at + b <= count
  {
    var more, all := Range(at, b), xs + Range(at, b);
    if AllBelow(all, count) {
      assert forall i | 0 <= i < |xs| :: xs[i] == all[i];
      assert all[|xs| + (b - 1)] == more[b - 1];
    }
  }

  /** Exactly when the Indexer stays inside the log: no batch is larger than the one before it where only the
      smaller one fitted. */
  lemma IndexerInBoundsIff(count: nat, sizes: seq<nat>)
    requires ValidCount(count) && ValidSizes(sizes)
    ensures AllBelow(IndexerEntries(count, sizes), count) <==> forall k | 1 <= k < |sizes| :: !RunsOver(count, sizes, k)
  {
    IndexerInBoundsUpTo(count, sizes, |sizes|);
    assert sizes[..|sizes|] == sizes;
  }

  /** Early on it always does: until the batches reach the last MAX_BATCH entries, whatever their sizes. */
  lemma EarlyBatchesFit(count: nat, sizes: seq<nat>)
    requires ValidCount(count) && ValidSizes(sizes) && Sum(sizes) <= count - MAX_BATCH + 1
    ensures NoOverrun(count, sizes, |sizes|)
  {
    forall k | 1 <= k < |sizes| ensures !RunsOver(count, sizes, k) {
      SumSplits(sizes, k);
      IndexerFirstLap(count, sizes[..k]);
    }
  }

  lemma {:induction false} SumSplits(sizes: seq<nat>, k: nat)
    requires k < |sizes|
    ensures Sum(sizes[..k]) + sizes[k] <= Sum(sizes)
    decreases |sizes|
  {
    if k < |sizes| - 1 {
      assert sizes[..|sizes| - 1][..k] == sizes[..k];
      SumSplits(sizes[..|sizes| - 1], k);
    }
  }

  /** In step it stays inside. */
  lemma LockstepInBounds(count: nat, sizes: seq<nat>, k: nat)
    requires ValidCount(count) && ValidSizes(sizes) && Lockstep(count, sizes) && k < |sizes|
    ensures IndexerStart(count, sizes[..k]) + sizes[k] <= count
  {
    StartInBounds(count, sizes[..k]);
    assert IndexerStart(count, sizes[..k]) == Start(count, sizes[..k]);
  }

  /** Both walks, one batch further. */
  lemma OneBatch(count: nat, sizes: seq<nat>, k: nat)
    requires k < |sizes|
    ensures var before, more, b := sizes[..k], sizes[..k + 1], sizes[k];
            && Sum(more) == Sum(before) + b
            && End(count, more) == Start(count, before) + b
            && IndexerEnd(count, more) == IndexerStart(count, before) + b
            && Entries(count, more) == Entries(count, before) + Range(Start(count, before), b)
            && IndexerEntries(count, more) == IndexerEntries(count, before) + Range(IndexerStart(count, before), b)
  {
    var more := sizes[..k + 1];
    assert more != [] && more[..|more| - 1] == sizes[..k] && more[|more| - 1] == sizes[k];
  }

  // ---------------------------------------------------------------------------
  // What has been visited: both walks cover initial segments of the log
  // ---------------------------------------------------------------------------

  /** One past the furthest entry visited. */
  function High(count: nat, sizes: seq<nat>): nat {
    if sizes == [] then 0 else Max(High(count, sizes[..|sizes| - 1]), End(count, sizes))
  }

  function IndexerHigh(count: nat, sizes: seq<nat>): nat {
    if sizes == [] then 0 else Max(IndexerHigh(count, sizes[..|sizes| - 1]), IndexerEnd(count, sizes))
  }

  function Max(a: nat, b: nat): nat { if a < b then b else a }

  lemma {:induction false} EntriesAreSegment(count: nat, sizes: seq<nat>)
    requires ValidSizes(sizes)
    ensures forall e: nat :: e in Entries(count, sizes) <==> e < High(count, sizes)
    ensures End(count, sizes) <= High(count, sizes)
  {
    if sizes != [] {
      var before, b := sizes[..|sizes| - 1], sizes[|sizes| - 1];
      EntriesAreSegment(count, before);
      SegmentGrows(Entries(count, before), High(count, before), Start(count, before), b);
    }
  }

  lemma {:induction false} IndexerEntriesAreSegment(count: nat, sizes: seq<nat>)
    requires ValidSizes(sizes)
    ensures forall e: nat :: e in IndexerEntries(count, sizes) <==> e < IndexerHigh(count, sizes)
    ensures IndexerEnd(count, sizes) <= IndexerHigh(count, sizes)
  {
    if sizes != [] {
      var before, b := sizes[..|sizes| - 1], sizes[|sizes| - 1];
      IndexerEntriesAreSegment(count, before);
      SegmentGrows(IndexerEntries(count, before), IndexerHigh(count, before), IndexerStart(count, before), b);
    }
  }

  lemma SegmentGrows(xs: seq<nat>, high: nat, at: nat, b: nat)
    requires (forall e: nat :: e in xs <==> e < high) && at <= high
    ensures forall e: nat :: e in xs + Range(at, b) <==> e < Max(high, at + b)
  {
    forall e: nat ensures e in xs + Range(at, b) <==> e < Max(high, at + b) {
      if at <= e < at + b { assert Range(at, b)[e - at] == e; }
    }
  }

  ghost predicate Covered(xs: seq<nat>, ys: seq<nat>) { forall e: nat :: e in xs ==> e in ys }

  /** Exactly when every entry visited has been prepared. */
  lemma PreparedIff(count: nat, sizes: seq<nat>)
    requires ValidSizes(sizes)
    ensures Covered(Entries(count, sizes), IndexerEntries(count, sizes)) <==> High(count, sizes) <= IndexerHigh(count, sizes)
  {
    EntriesAreSegment(count, sizes);
    IndexerEntriesAreSegment(count, sizes);
    SegmentsNest(Entries(count, sizes), High(count, sizes), IndexerEntries(count, sizes), IndexerHigh(count, sizes));
  }

  lemma SegmentsNest(xs: seq<nat>, m: nat, ys: seq<nat>, n: nat)
    requires (forall e: nat :: e in xs <==> e < m) && (forall e: nat :: e in ys <==> e < n)
    ensures Covered(xs, ys) <==> m <= n
  {
    if m > n { assert n in xs && n !in ys; }
  }

  /** Batch by batch, the Indexer has been at least as far as the other stages. */
  ghost predicate PreparedFirst(count: nat, sizes: seq<nat>) {
    forall k | 0 <= k <= |sizes| :: High(count, sizes[..k]) <= IndexerHigh(count, sizes[..k])
  }

  /** In the first lap both walks are the log itself, in step or not. */
  lemma {:induction false} IndexerFirstLap(count: nat, sizes: seq<nat>)
    requires ValidCount(count) && ValidSizes(sizes)
    ensures Sum(sizes) <= count - MAX_BATCH ==> IndexerEnd(count, sizes) == IndexerStart(count, sizes) == Sum(sizes)
    ensures forall k | 0 <= k < |IndexerEntries(count, sizes)| && k <= count - MAX_BATCH :: IndexerEntries(count, sizes)[k] == k
  {
    if sizes != [] {
      var before := sizes[..|sizes| - 1];
      IndexerFirstLap(count, before);
      EntriesLength(count, before);
    }
  }

  /** The two walks over eight entries with batches 4, 1, 2, 2, 4 and with batches 4, 1, 4. */
  lemma SampleStarts(sizes: seq<nat>, k: nat)
    requires sizes == [4, 1, 2, 2, 4] && k <= 4
    ensures Start(8, sizes[..k]) == [0, 4, 0, 2, 4][k]
    ensures IndexerStart(8, sizes[..k]) == [0, 4, 5, 0, 2][k]
  {
    if k > 0 {
      SampleStarts(sizes, k - 1);
      OneBatch(8, sizes, k - 1);
    }
  }

  /** A run of batches after which an entry is dispatched that was never prepared: the fifth batch
      dispatches entry 7, which the Indexer has skipped. */
  lemma UnpreparedEntry(sizes: seq<nat>)
    requires sizes == [4, 1, 2, 2, 4]
    ensures 7 in Entries(8, sizes) && 7 !in IndexerEntries(8, sizes)
  {
    NeverPrepared(sizes, 5);
    assert sizes[..5] == sizes;
    SampleStarts(sizes, 4);
    OneBatch(8, sizes, 4);
    assert Range(4, 4)[3] == 7;
  }

  lemma {:induction false} NeverPrepared(sizes: seq<nat>, k: nat)
    requires sizes == [4, 1, 2, 2, 4] && k <= 5
    ensures 7 !in IndexerEntries(8, sizes[..k])
  {
    if k > 0 {
      NeverPrepared(sizes, k - 1);
      SampleStarts(sizes, k - 1);
      OneBatch(8, sizes, k - 1);
    }
  }

  /** And one after which the Indexer works past the end of the log. */
  lemma IndexerOutOfBounds(sizes: seq<nat>)
    requires sizes == [4, 1, 4]
    ensures 8 in IndexerEntries(8, sizes)
  {
    OneBatch(8, sizes, 0);
    OneBatch(8, sizes, 1);
    OneBatch(8, sizes, 2);
    assert IndexerStart(8, sizes[..2]) == 5;
    assert sizes[..3] == sizes;
    assert Range(5, 4)[3] == 8;
  }
}
