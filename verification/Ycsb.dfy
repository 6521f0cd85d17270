/** The YCSB transaction in its loop, closure and unrolled forms, and its deterministic replay.

    A row is its payload bytes; rows are named by index, so a repeated index is the same row and an
    earlier write feeds a later sum. */
module Ycsb {
  import opened Common
  import opened Runtime

  const ROW_SIZE := 900
  const WRITE_SIZE := 100
  const ROWS_PER_TX := 10

  type Row = seq<nat>

  ghost predicate ValidRows(rows: seq<Row>) { forall i | 0 <= i < |rows| :: |rows[i]| == ROW_SIZE }
  ghost predicate ValidIndices(indices: seq<nat>, n: nat) {
    |indices| == ROWS_PER_TX && forall i | 0 <= i < ROWS_PER_TX :: indices[i] < n
  }

  /** Sum of the first n payload bytes in the transaction's 8-bit accumulator. */
  function SumBytes(sum: nat, row: Row, n: nat): nat
    requires n <= |row|
  {
    if n == 0 then sum else (SumBytes(sum, row, n - 1) + row[n - 1]) % 256
  }

  /** memset of the first WRITE_SIZE bytes. */
  function Memset(row: Row, b: nat): (r: Row)
    requires |row| == ROW_SIZE
    ensures |r| == ROW_SIZE && forall i | 0 <= i < ROW_SIZE :: r[i] == if i < WRITE_SIZE then b else row[i]
  {
    seq(WRITE_SIZE, i => b) + row[WRITE_SIZE..]
  }

  /** Rows, accumulator and remaining write-set bits of a transaction under way. */
  datatype Progress = Progress(rows: seq<Row>, sum: nat, writeSet: nat)

  /** Process one row and shift the write set: the TXN macro. */
  function Touch(p: Progress, idx: nat): (r: Progress)
    requires ValidRows(p.rows) && idx < |p.rows|
    ensures ValidRows(r.rows) && |r.rows| == |p.rows|
  {
    if p.writeSet % 2 == 1
    then Progress(p.rows[idx := Memset(p.rows[idx], p.sum)], p.sum, p.writeSet / 2)
    else Progress(p.rows, SumBytes(p.sum, p.rows[idx], ROW_SIZE), p.writeSet / 2)
  }

  /** The first k rows of the transaction. */
  function TouchAll(p: Progress, indices: seq<nat>, k: nat): (r: Progress)
    requires ValidRows(p.rows) && k <= |indices| && forall i | 0 <= i < |indices| :: indices[i] < |p.rows|
    ensures ValidRows(r.rows) && |r.rows| == |p.rows|
  {
    if k == 0 then p else Touch(TouchAll(p, indices, k - 1), indices[k - 1])
  }

  /** What a transaction does to the rows. */
  function ExecTxn(rows: seq<Row>, writeSet: nat, indices: seq<nat>): (r: seq<Row>)
    requires ValidRows(rows) && ValidIndices(indices, |rows|)
    ensures ValidRows(r) && |r| == |rows|
  {
    TouchAll(Progress(rows, 0, writeSet), indices, ROWS_PER_TX).rows
  }

  method SumRow(sum0: nat, row: Row) returns (sum: nat)
    requires |row| == ROW_SIZE
    ensures sum == SumBytes(sum0, row, ROW_SIZE)
  {
    sum := sum0;
    for j := 0 to ROW_SIZE
      invariant sum == SumBytes(sum0, row, j)
    {
      sum := (sum + row[j]) % 256;
    }
  }

  /** process_txn: the loop form. */
  method ProcessTxn(writeSet: nat, indices: seq<nat>, rows: array<Row>)
    requires ValidRows(rows[..]) && ValidIndices(indices, rows.Length)
    modifies rows
    ensures rows[..] == ExecTxn(old(rows[..]), writeSet, indices)
  {
    ghost var start := Progress(rows[..], 0, writeSet);
    var sum, ws := 0, writeSet;
    for i := 0 to ROWS_PER_TX
      invariant ValidRows(rows[..]) && Progress(rows[..], sum, ws) == TouchAll(start, indices, i)
    {
      var idx := indices[i];
      if ws % 2 == 1 {
        rows[idx] := Memset(rows[idx], sum);
      } else {
        sum := SumRow(sum, rows[idx]);
      }
      ws := ws / 2;
    }
  }

  /** process_each_row: the closure applied to one row, with sum and write set captured by reference. */
  method ProcessEachRow(sum0: nat, ws0: nat, idx: nat, rows: array<Row>) returns (sum: nat, ws: nat)
    requires ValidRows(rows[..]) && idx < rows.Length
    modifies rows
    ensures Progress(rows[..], sum, ws) == Touch(Progress(old(rows[..]), sum0, ws0), idx)
  {
    sum, ws := sum0, ws0;
    if ws % 2 == 1 {
      rows[idx] := Memset(rows[idx], sum);
    } else {
      sum := SumRow(sum, rows[idx]);
    }
    ws := ws / 2;
  }

  /** process_txn_closure: a fold over the ten row references. */
  method ProcessTxnClosure(writeSet: nat, indices: seq<nat>, rows: array<Row>)
    requires ValidRows(rows[..]) && ValidIndices(indices, rows.Length)
    modifies rows
    ensures rows[..] == ExecTxn(old(rows[..]), writeSet, indices)
  {
    ghost var start := Progress(rows[..], 0, writeSet);
    var sum, ws := 0, writeSet;
    sum, ws := ProcessEachRow(sum, ws, indices[0], rows);
    assert Progress(rows[..], sum, ws) == TouchAll(start, indices, 1);
    sum, ws := ProcessEachRow(sum, ws, indices[1], rows);
    assert Progress(rows[..], sum, ws) == TouchAll(start, indices, 2);
    sum, ws := ProcessEachRow(sum, ws, indices[2], rows);
    assert Progress(rows[..], sum, ws) == TouchAll(start, indices, 3);
    sum, ws := ProcessEachRow(sum, ws, indices[3], rows);
    assert Progress(rows[..], sum, ws) == TouchAll(start, indices, 4);
    sum, ws := ProcessEachRow(sum, ws, indices[4], rows);
    assert Progress(rows[..], sum, ws) == TouchAll(start, indices, 5);
    sum, ws := ProcessEachRow(sum, ws, indices[5], rows);
    assert Progress(rows[..], sum, ws) == TouchAll(start, indices, 6);
    sum, ws := ProcessEachRow(sum, ws, indices[6], rows);
    assert Progress(rows[..], sum, ws) == TouchAll(start, indices, 7);
    sum, ws := ProcessEachRow(sum, ws, indices[7], rows);
    assert Progress(rows[..], sum, ws) == TouchAll(start, indices, 8);
    sum, ws := ProcessEachRow(sum, ws, indices[8], rows);
    assert Progress(rows[..], sum, ws) == TouchAll(start, indices, 9);
    sum, ws := ProcessEachRow(sum, ws, indices[9], rows);
  }

  /** Two consecutive blocks of process_txn_unfold, written out, for rows i and i + 1. */
  method UnfoldTwo(sum0: nat, ws0: nat, a: nat, b: nat, rows: array<Row>) returns (sum: nat, ws: nat)
    requires ValidRows(rows[..]) && a < rows.Length && b < rows.Length
    modifies rows
    ensures Progress(rows[..], sum, ws) == Touch(Touch(Progress(old(rows[..]), sum0, ws0), a), b)
  {
    sum, ws := sum0, ws0;
    if ws % 2 == 1 {
      rows[a] := Memset(rows[a], sum);
    } else {
      sum := SumRow(sum, rows[a]);
    }
    ws := ws / 2;
    assert Progress(rows[..], sum, ws) == Touch(Progress(old(rows[..]), sum0, ws0), a);

    if ws % 2 == 1 {
      rows[b] := Memset(rows[b], sum);
    } else {
      sum := SumRow(sum, rows[b]);
    }
    ws := ws / 2;
  }

  lemma TwoTouches(p: Progress, indices: seq<nat>, k: nat)
    requires ValidRows(p.rows) && k + 2 <= |indices| && forall i | 0 <= i < |indices| :: indices[i] < |p.rows|
    ensures TouchAll(p, indices, k + 2) == Touch(Touch(TouchAll(p, indices, k), indices[k]), indices[k + 1])
  {
    assert TouchAll(p, indices, k + 1) == Touch(TouchAll(p, indices, k), indices[k]);
  }

  /** process_txn_unfold: ten blocks in a row. */
  method ProcessTxnUnfold(writeSet: nat, indices: seq<nat>, rows: array<Row>)
    requires ValidRows(rows[..]) && ValidIndices(indices, rows.Length)
    modifies rows
    ensures rows[..] == ExecTxn(old(rows[..]), writeSet, indices)
  {
    ghost var start := Progress(rows[..], 0, writeSet);
    assert TouchAll(start, indices, 0) == start;
    var sum, ws := UnfoldTwo(0, writeSet, indices[0], indices[1], rows);
    TwoTouches(start, indices, 0);
    assert Progress(rows[..], sum, ws) == TouchAll(start, indices, 2);
    sum, ws := UnfoldTwo(sum, ws, indices[2], indices[3], rows);
    TwoTouches(start, indices, 2);
    assert Progress(rows[..], sum, ws) == TouchAll(start, indices, 4);
    sum, ws := UnfoldTwo(sum, ws, indices[4], indices[5], rows);
    TwoTouches(start, indices, 4);
    assert Progress(rows[..], sum, ws) == TouchAll(start, indices, 6);
    sum, ws := UnfoldTwo(sum, ws, indices[6], indices[7], rows);
    TwoTouches(start, indices, 6);
    assert Progress(rows[..], sum, ws) == TouchAll(start, indices, 8);
    sum, ws := UnfoldTwo(sum, ws, indices[8], indices[9], rows);
    TwoTouches(start, indices, 8);
  }

  // ---------------------------------------------------------------------------
  // What a transaction does, row by row
  // ---------------------------------------------------------------------------

  /** Bit i of the write set: is the i-th row written? */
  ghost predicate Writes(writeSet: nat, i: nat) { writeSet / Pow2(i) % 2 == 1 }

  /** All bytes of the rows that have been read before step i, as the rows were when they were read. */
  ghost function BytesRead(states: seq<seq<Row>>, writeSet: nat, indices: seq<nat>, i: nat): nat
    requires i <= |states| && i <= |indices| && forall j | 0 <= j < i :: indices[j] < |states[j]|
  {
    if i == 0 then 0
    else BytesRead(states, writeSet, indices, i - 1) + (if Writes(writeSet, i - 1) then 0 else Sum(states[i - 1][indices[i - 1]]))
  }

  /** Step i writes its row, whose first 100 bytes become the sum so far modulo 256, or changes nothing. */
  ghost predicate IsStep(states: seq<seq<Row>>, writeSet: nat, indices: seq<nat>, i: nat)
    requires |states| == 11 && |indices| == 10 && i < 10
    requires forall j | 0 <= j < 10 :: indices[j] < |states[j]|
  {
    var before, after, idx := states[i], states[i + 1], indices[i];
    if Writes(writeSet, i) then
      && |after| == |before| && |after[idx]| == |before[idx]| == 900
      && (forall x | 0 <= x < |before| && x != idx :: after[x] == before[x])
      && (forall b | 0 <= b < 900 ::
            after[idx][b] == if b < 100 then BytesRead(states, writeSet, indices, i) % 256 else before[idx][b])
    else after == before
  }

  /** The rows before each of the ten steps and after the last. */
  ghost predicate IsTrace(states: seq<seq<Row>>, writeSet: nat, indices: seq<nat>) {
    && |states| == 11 && |indices| == 10
    && (forall j | 0 <= j < 10 :: indices[j] < |states[j]|)
    && forall i: nat | i < 10 :: IsStep(states, writeSet, indices, i)
  }

  lemma {:induction false} SumBytesIsSum(sum: nat, row: Row, n: nat)
    requires n <= |row| && sum < 256
    ensures SumBytes(sum, row, n) == (sum + Sum(row[..n])) % 256
  {
    if n > 0 {
      SumBytesIsSum(sum, row, n - 1);
      assert row[..n][..n - 1] == row[..n - 1];
    }
  }

  ghost function StatesOf(rows: seq<Row>, writeSet: nat, indices: seq<nat>): (states: seq<seq<Row>>)
    requires ValidRows(rows) && ValidIndices(indices, |rows|)
    ensures |states| == 11 && states[0] == rows && states[10] == ExecTxn(rows, writeSet, indices)
    ensures forall k | 0 <= k <= 10 :: |states[k]| == |rows| && states[k] == TouchAll(Progress(rows, 0, writeSet), indices, k).rows
  {
    seq(11, k requires 0 <= k < 11 => TouchAll(Progress(rows, 0, writeSet), indices, k).rows)
  }

  /** The remaining write set and the accumulator after k steps. */
  lemma {:induction false} WriteSetSoFar(p: Progress, indices: seq<nat>, k: nat)
    requires ValidRows(p.rows) && ValidIndices(indices, |p.rows|) && k <= 10
    ensures TouchAll(p, indices, k).writeSet == p.writeSet / Pow2(k)
  {
    if k > 0 {
      WriteSetSoFar(p, indices, k - 1);
      DivideTwice(p.writeSet, Pow2(k - 1), 2);
    }
  }

  lemma {:induction false} SumSoFar(states: seq<seq<Row>>, p: Progress, indices: seq<nat>, k: nat)
    requires ValidRows(p.rows) && ValidIndices(indices, |p.rows|) && k <= 10 && p.sum == 0
    requires |states| == 11 && forall j | 0 <= j <= 10 :: |states[j]| == |p.rows| && states[j] == TouchAll(p, indices, j).rows
    ensures TouchAll(p, indices, k).sum == BytesRead(states, p.writeSet, indices, k) % 256
  {
    if k > 0 {
      SumSoFar(states, p, indices, k - 1);
      WriteSetSoFar(p, indices, k - 1);
      SumStep(TouchAll(p, indices, k - 1), states, p.writeSet, indices, k - 1);
    }
  }

  lemma SumStep(q: Progress, states: seq<seq<Row>>, writeSet: nat, indices: seq<nat>, i: nat)
    requires |states| == 11 && |indices| == 10 && i < 10 && (forall j | 0 <= j < 10 :: indices[j] < |states[j]|)
    requires ValidRows(q.rows) && q.rows == states[i] && q.writeSet == writeSet / Pow2(i)
    requires q.sum == BytesRead(states, writeSet, indices, i) % 256
    ensures Touch(q, indices[i]).sum == BytesRead(states, writeSet, indices, i + 1) % 256
  {
    OneTouch(q, indices[i], BytesRead(states, writeSet, indices, i));
  }

  lemma OneTouch(p: Progress, idx: nat, bytes: nat)
    requires ValidRows(p.rows) && idx < |p.rows| && p.sum == bytes % 256
    ensures var r := Touch(p, idx);
            && r.writeSet == p.writeSet / 2
            && r.sum == (if p.writeSet % 2 == 1 then bytes else bytes + Sum(p.rows[idx])) % 256
  {
    var row := p.rows[idx];
    SumBytesIsSum(p.sum, row, ROW_SIZE);
    assert row[..ROW_SIZE] == row;
  }

  /** Ten steps take the rows to what the transaction leaves: a row is overwritten where its bit in the write set
      is set, with the sum of all bytes read before it, and read where it is clear.  Repeated rows included. */
  lemma ExecTxnIsTrace(rows: seq<Row>, writeSet: nat, indices: seq<nat>) returns (states: seq<seq<Row>>)
    requires ValidRows(rows) && ValidIndices(indices, |rows|)
    ensures IsTrace(states, writeSet, indices) && states[0] == rows && states[10] == ExecTxn(rows, writeSet, indices)
  {
    states := StatesOf(rows, writeSet, indices);
    var start := Progress(rows, 0, writeSet);
    forall i: nat | i < 10 ensures IsStep(states, writeSet, indices, i) {
      SumSoFar(states, start, indices, i);
      WriteSetSoFar(start, indices, i);
    }
  }

  /** A row that steps a to b do not write is the same after them. */
  lemma {:induction false} UnwrittenStays(states: seq<seq<Row>>, writeSet: nat, indices: seq<nat>, x: nat, a: nat, b: nat)
    requires IsTrace(states, writeSet, indices) && a <= b <= 10 && x < |states[a]|
    requires forall i: nat | a <= i < b :: !(Writes(writeSet, i) && indices[i] == x)
    ensures x < |states[b]| && states[b][x] == states[a][x]
  {
    if a < b {
      UnwrittenStays(states, writeSet, indices, x, a, b - 1);
      assert IsStep(states, writeSet, indices, b - 1);
    }
  }

  /** Bytes of the rows read before step i, as they were at the start. */
  ghost function InitialBytes(rows: seq<Row>, writeSet: nat, indices: seq<nat>, i: nat): nat
    requires i <= |indices| && forall j | 0 <= j < i :: indices[j] < |rows|
  {
    if i == 0 then 0
    else InitialBytes(rows, writeSet, indices, i - 1) + (if Writes(writeSet, i - 1) then 0 else Sum(rows[indices[i - 1]]))
  }

  lemma {:induction false} ReadAtTheStart(states: seq<seq<Row>>, writeSet: nat, indices: seq<nat>, i: nat)
    requires IsTrace(states, writeSet, indices) && i <= 10
    requires (forall j | 0 <= j < 10 :: indices[j] < |states[0]|) && forall j, k | 0 <= j < k < 10 :: indices[j] != indices[k]
    ensures BytesRead(states, writeSet, indices, i) == InitialBytes(states[0], writeSet, indices, i)
  {
    if i > 0 {
      ReadAtTheStart(states, writeSet, indices, i - 1);
      UnwrittenStays(states, writeSet, indices, indices[i - 1], 0, i - 1);
    }
  }

  /** Without repetitions, in terms of the initial rows alone: rows named by no set bit keep their bytes; a row
      whose bit is set keeps its bytes from 100 on, and its first 100 are the sum, modulo 256, of all bytes of the
      rows before it whose bits are clear. */
  lemma ExecTxnOnDistinctRows(rows: seq<Row>, writeSet: nat, indices: seq<nat>)
    requires ValidRows(rows) && ValidIndices(indices, |rows|)
    ensures forall x: nat | x < |rows| && (forall i: nat | i < 10 :: !(Writes(writeSet, i) && indices[i] == x)) ::
              ExecTxn(rows, writeSet, indices)[x] == rows[x]
    ensures (forall j, k | 0 <= j < k < 10 :: indices[j] != indices[k]) ==>
              forall i: nat, b | i < 10 && Writes(writeSet, i) && 0 <= b < 900 ::
                ExecTxn(rows, writeSet, indices)[indices[i]][b]
                == if b < 100 then InitialBytes(rows, writeSet, indices, i) % 256 else rows[indices[i]][b]
  {
    var states := ExecTxnIsTrace(rows, writeSet, indices);
    forall x: nat | x < |rows| && (forall i: nat | i < 10 :: !(Writes(writeSet, i) && indices[i] == x))
      ensures ExecTxn(rows, writeSet, indices)[x] == rows[x]
    {
      UnwrittenStays(states, writeSet, indices, x, 0, 10);
    }
    if forall j, k | 0 <= j < k < 10 :: indices[j] != indices[k] {
      forall i: nat, b | i < 10 && Writes(writeSet, i) && 0 <= b < 900
        ensures ExecTxn(rows, writeSet, indices)[indices[i]][b]
                == if b < 100 then InitialBytes(rows, writeSet, indices, i) % 256 else rows[indices[i]][b]
      {
        WrittenOnce(states, writeSet, indices, i);
      }
    }
  }

  lemma WrittenOnce(states: seq<seq<Row>>, writeSet: nat, indices: seq<nat>, i: nat)
    requires IsTrace(states, writeSet, indices) && i < 10 && Writes(writeSet, i)
    requires (forall j | 0 <= j < 10 :: indices[j] < |states[0]|) && forall j, k | 0 <= j < k < 10 :: indices[j] != indices[k]
    ensures indices[i] < |states[10]| && |states[10][indices[i]]| == 900 && |states[0][indices[i]]| == 900
    ensures forall b | 0 <= b < 900 ::
              states[10][indices[i]][b]
              == if b < 100 then InitialBytes(states[0], writeSet, indices, i) % 256 else states[0][indices[i]][b]
  {
    UnwrittenStays(states, writeSet, indices, indices[i], 0, i);
    assert IsStep(states, writeSet, indices, i);
    ReadAtTheStart(states, writeSet, indices, i);
    UnwrittenStays(states, writeSet, indices, indices[i], i + 1, 10);
  }

  // ---------------------------------------------------------------------------
  // Parallel replay
  // ---------------------------------------------------------------------------

  datatype Txn = Txn(indices: seq<nat>, writeSet: nat)

  ghost predicate ValidLog(log: seq<Txn>, n: nat) { forall i | 0 <= i < |log| :: ValidIndices(log[i].indices, n) }

  /** The rows, and each running behaviour's accumulator and remaining write set. */
  datatype Store = Store(rows: seq<Row>, frames: map<nat, (nat, nat)>)

  ghost function Frame(s: Store, k: nat, t: Txn): (nat, nat) {
    if k in s.frames then s.frames[k] else (0, t.writeSet)
  }

  /** The m-th row of behaviour k: one atomic step. */
  ghost function StepOf(t: Txn, k: nat, m: nat, s: Store): Store {
    if ValidRows(s.rows) && ValidIndices(t.indices, |s.rows|) && m < ROWS_PER_TX then
      var f := Frame(s, k, t);
      var p := Touch(Progress(s.rows, f.0, f.1), t.indices[m]);
      Store(p.rows, s.frames[k := (p.sum, p.writeSet)])
    else s
  }

  /** Each transaction is one behaviour over the rows it names. */
  ghost function LogWorkload(rows: seq<Row>, log: seq<Txn>): Workload<Store> {
    Workload(|log|, Store(rows, map[]),
             (k: nat) => ROWS_PER_TX,
             (k: nat, m: nat, s: Store) => if k < |log| then StepOf(log[k], k, m, s) else s,
             (k: nat, j: nat) => k < |log| && j < |log| && exists i :: i in log[k].indices && i in log[j].indices)
  }

  lemma StepsCommute(t: Txn, k: nat, m: nat, u: Txn, j: nat, l: nat, s: Store)
    requires k != j && ValidRows(s.rows) && ValidIndices(t.indices, |s.rows|) && ValidIndices(u.indices, |s.rows|)
    requires m < ROWS_PER_TX && l < ROWS_PER_TX && t.indices[m] != u.indices[l]
    ensures StepOf(t, k, m, StepOf(u, j, l, s)) == StepOf(u, j, l, StepOf(t, k, m, s))
  {
    var a, b := StepOf(t, k, m, s), StepOf(u, j, l, s);
    assert a.rows[u.indices[l]] == s.rows[u.indices[l]];
    assert b.rows[t.indices[m]] == s.rows[t.indices[m]];
    assert Frame(b, k, t) == Frame(s, k, t) && Frame(a, j, u) == Frame(s, j, u);
    var ab, ba := StepOf(u, j, l, a), StepOf(t, k, m, b);
    assert ab.frames == ba.frames;
    assert ab.rows == ba.rows;
  }

  lemma {:induction false} RunKeepsRows(w: Workload<Store>, log: seq<Txn>, k: nat, m: nat, s: Store)
    requires k < |log| && ValidRows(s.rows) && forall m: nat, s :: w.step(k, m, s) == StepOf(log[k], k, m, s)
    ensures var r := RunSteps(w, k, m, s); ValidRows(r.rows) && |r.rows| == |s.rows|
  {
    if m > 0 { RunKeepsRows(w, log, k, m - 1, s); }
  }

  lemma {:induction false} InOrderKeepsRows(rows: seq<Row>, log: seq<Txn>, p: seq<nat>, j: nat)
    requires ValidRows(rows) && j <= |p| == |log|
    ensures var r := InOrder(LogWorkload(rows, log), p, j); ValidRows(r.rows) && |r.rows| == |rows|
  {
    if j > 0 {
      InOrderKeepsRows(rows, log, p, j - 1);
      var w := LogWorkload(rows, log);
      RunKeepsRows(w, log, j - 1, p[j - 1], InOrder(w, p, j - 1));
    }
  }

  lemma YcsbIndependent(rows: seq<Row>, log: seq<Txn>)
    requires ValidRows(rows) && ValidLog(log, |rows|)
    ensures Independent(LogWorkload(rows, log))
  {
    var w := LogWorkload(rows, log);
    forall p, k: nat, j: nat |
      IsProgress(w, p) && k < j < w.n && !w.conflict(k, j) && p[k] < w.len(k) && p[j] < w.len(j)
      ensures CommuteAt(w, p, k, j)
    {
      InOrderKeepsRows(rows, log, p, j + 1);
      assert log[k].indices[p[k]] in log[k].indices && log[j].indices[p[j]] in log[j].indices;
      StepsCommute(log[k], k, p[k], log[j], j, p[j], InOrder(w, p, j + 1));
    }
  }

  /** Serial execution of the log. */
  ghost function ExecLog(rows: seq<Row>, log: seq<Txn>): (r: seq<Row>)
    requires ValidRows(rows) && ValidLog(log, |rows|)
    ensures ValidRows(r) && |r| == |rows|
  {
    if log == [] then rows
    else var t := log[|log| - 1]; ExecTxn(ExecLog(rows, log[..|log| - 1]), t.writeSet, t.indices)
  }

  /** A behaviour run alone is the transaction. */
  lemma {:induction false} RunIsTouchAll(w: Workload<Store>, t: Txn, k: nat, m: nat, s: Store)
    requires ValidRows(s.rows) && ValidIndices(t.indices, |s.rows|) && m <= ROWS_PER_TX && k !in s.frames
    requires forall m: nat, s :: w.step(k, m, s) == StepOf(t, k, m, s)
    ensures var p := TouchAll(Progress(s.rows, 0, t.writeSet), t.indices, m);
            var r := RunSteps(w, k, m, s);
            r.rows == p.rows && Frame(r, k, t) == (p.sum, p.writeSet) && r.frames.Keys <= s.frames.Keys + {k}
  {
    if m > 0 { RunIsTouchAll(w, t, k, m - 1, s); }
  }

  lemma {:induction false} SerialPrefix(rows: seq<Row>, log: seq<Txn>, j: nat)
    requires ValidRows(rows) && ValidLog(log, |rows|) && j <= |log|
    ensures var w := LogWorkload(rows, log);
            var s := InOrder(w, Full(w), j);
            s.rows == ExecLog(rows, log[..j]) && forall k | k in s.frames :: k < j
  {
    if j > 0 {
      SerialPrefix(rows, log, j - 1);
      var w := LogWorkload(rows, log);
      assert log[..j][..j - 1] == log[..j - 1];
      RunIsTouchAll(w, log[j - 1], j - 1, ROWS_PER_TX, InOrder(w, Full(w), j - 1));
    }
  }

  /** Determinism of the YCSB replay, for every log, including repeated rows within a transaction. */
  lemma YcsbIsDeterministic(rows: seq<Row>, log: seq<Txn>, sched: seq<nat>)
    requires ValidRows(rows) && ValidLog(log, |rows|) && Finishes(LogWorkload(rows, log), sched)
    ensures After(LogWorkload(rows, log), sched).store.rows == ExecLog(rows, log)
  {
    YcsbIndependent(rows, log);
    Determinism(LogWorkload(rows, log), sched);
    SerialPrefix(rows, log, |log|);
    assert log[..|log|] == log;
  }

  /** Transactions over different rows are free to run in either order. */
  lemma DisjointTransactionsMaySwap(rows: seq<Row>, t: Txn, u: Txn) returns (sched: seq<nat>)
    requires ValidRows(rows) && ValidIndices(t.indices, |rows|) && ValidIndices(u.indices, |rows|)
    requires forall i, j | 0 <= i < 10 && 0 <= j < 10 :: t.indices[i] != u.indices[j]
    ensures var w := LogWorkload(rows, [t, u]);
            Finishes(w, sched) && After(w, sched).store == StoreAfter(w, w.init, [1, 0])
  {
    var w := LogWorkload(rows, [t, u]);
    assert !w.conflict(0, 1);
    SwapTwo(w, 0);
    sched := PrefixThen(w, 0, [1, 0]);
  }
}
