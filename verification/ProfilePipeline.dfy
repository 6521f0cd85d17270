/** The pipeline profiler: a first core, any number of workers and a last core, joined by bounded rings,
    each processing the same number of batches and then stopping.

    Stage k reads ring k-1 and writes ring k.  A ring carries only the constant batch size, so its
    length is its state.  A run is any interleaving of the stages' steps; a stage that would spin on
    an empty ring or block on a full one has no step. */
module ProfilePipeline {
  import opened Common

  const BUF_SZ := 4
  const BATCH_SZ := 8
  const TERMINATION_COUNT := 40_000_000

  datatype Pc = Ready | Processed | Pushed

  /** `processed` counts batches; processed_cnt is BATCH_SZ times it. */
  datatype State = State(pc: seq<Pc>, processed: seq<nat>, rings: seq<nat>)

  /** Stages, with at least a first and a last. */
  ghost predicate WellFormed(s: State) {
    |s.pc| >= 2 && |s.processed| == |s.pc| && |s.rings| == |s.pc| - 1
  }

  function Init(stages: nat): State
    requires stages >= 2
  {
    State(seq(stages, i => Ready), seq(stages, i => 0), seq(stages - 1, i => 0))
  }

  function Terminate(s: State, k: nat): bool
    requires k < |s.processed|
  {
    s.processed[k] * BATCH_SZ >= TERMINATION_COUNT
  }

  /** One step of stage k. */
  function Next(s: State, k: nat): Option<State>
    requires WellFormed(s)
  {
    if k >= |s.pc| then None
    else
      var first, last := k == 0, k == |s.pc| - 1;
      match s.pc[k]
      case Ready =>
        if Terminate(s, k) || (!first && s.rings[k - 1] == 0) then None
        else Some(s.(pc := s.pc[k := if last then Pushed else Processed], processed := s.processed[k := s.processed[k] + 1]))
      case Processed =>
        if last || s.rings[k] >= BUF_SZ then None
        else Some(s.(pc := s.pc[k := if first then Ready else Pushed], rings := s.rings[k := s.rings[k] + 1]))
      case Pushed =>
        if first || s.rings[k - 1] == 0 then None
        else Some(s.(pc := s.pc[k := Ready], rings := s.rings[k - 1 := s.rings[k - 1] - 1]))
  }

  ghost predicate RunsTo(s: State, run: seq<nat>, t: State)
    requires WellFormed(s)
  {
    if run == [] then s == t
    else exists u :: WellFormed(u) && RunsTo(s, run[..|run| - 1], u) && Next(u, run[|run| - 1]) == Some(t)
  }

  // ---------------------------------------------------------------------------
  // The invariant: what is in a ring is what went in and has not come out
  // ---------------------------------------------------------------------------

  const BATCHES := 5_000_000  // TERMINATION_COUNT / BATCH_SZ

  ghost function PushedBy(s: State, k: nat): int
    requires WellFormed(s) && k < |s.pc|
  {
    s.processed[k] as int - (if s.pc[k] == Processed then 1 else 0)
  }

  ghost function PoppedBy(s: State, k: nat): int
    requires WellFormed(s) && k < |s.pc|
  {
    s.processed[k] as int - (if s.pc[k] == Ready then 0 else 1)
  }

  ghost predicate StageOk(s: State, k: nat)
    requires WellFormed(s) && k < |s.pc|
  {
    && s.processed[k] <= BATCHES
    && (s.pc[k] != Ready ==> s.processed[k] > 0)
    && (k == 0 ==> s.pc[k] != Pushed) && (k == |s.pc| - 1 ==> s.pc[k] != Processed)
    && (k > 0 && s.pc[k] != Ready ==> s.rings[k - 1] > 0)
  }

  ghost predicate RingOk(s: State, r: nat)
    requires WellFormed(s) && r < |s.rings|
  {
    s.rings[r] == PushedBy(s, r) - PoppedBy(s, r + 1) && s.rings[r] <= BUF_SZ
  }

  ghost predicate Inv(s: State) {
    && WellFormed(s)
    && (forall k | 0 <= k < |s.pc| :: StageOk(s, k))
    && (forall r | 0 <= r < |s.rings| :: RingOk(s, r))
  }

  lemma StepKeepsInv(s: State, k: nat)
    requires Inv(s) && Next(s, k).Some?
    ensures Inv(Next(s, k).value) && |Next(s, k).value.pc| == |s.pc|
  {
    var t := Next(s, k).value;
    assert StageOk(s, k);
    forall j | 0 <= j < |t.pc| ensures StageOk(t, j) { assert StageOk(s, j); }
    forall r | 0 <= r < |t.rings| ensures RingOk(t, r) { assert RingOk(s, r); }
  }

  lemma {:induction false} RunKeepsInv(s: State, run: seq<nat>, t: State)
    requires Inv(s) && RunsTo(s, run, t)
    ensures Inv(t) && |t.pc| == |s.pc|
  {
    if run != [] {
      var u :| WellFormed(u) && RunsTo(s, run[..|run| - 1], u) && Next(u, run[|run| - 1]) == Some(t);
      RunKeepsInv(s, run[..|run| - 1], u);
      StepKeepsInv(u, run[|run| - 1]);
    }
  }

  lemma InitInv(stages: nat)
    requires stages >= 2
    ensures Inv(Init(stages))
  {}

  // ---------------------------------------------------------------------------
  // Deadlock freedom
  // ---------------------------------------------------------------------------

  ghost predicate Finished(s: State, k: nat)
    requires WellFormed(s) && k < |s.pc|
  {
    s.pc[k] == Ready && s.processed[k] == BATCHES
  }

  ghost predicate AllFinished(s: State)
    requires WellFormed(s)
  {
    (forall k | 0 <= k < |s.pc| :: Finished(s, k)) && (forall r | 0 <= r < |s.rings| :: s.rings[r] == 0)
  }

  ghost predicate Stuck(s: State)
    requires WellFormed(s)
  {
    forall k: nat | k < |s.pc| :: Next(s, k).None?
  }

  /** Waiting on an empty input ring. */
  ghost predicate Starved(s: State, k: nat)
    requires WellFormed(s) && k < |s.pc|
  {
    k > 0 && s.pc[k] == Ready && s.processed[k] < BATCHES && s.rings[k - 1] == 0
  }

  /** A stage before a starved one is starved too, so starvation would reach the first core, which reads
      no ring. */
  lemma {:induction false} NobodyStarves(s: State, k: nat)
    requires Inv(s) && Stuck(s) && k < |s.pc|
    ensures !Starved(s, k)
  {
    if k > 0 {
      NobodyStarves(s, k - 1);
      assert StageOk(s, k - 1) && StageOk(s, k) && RingOk(s, k - 1);
      assert Next(s, k - 1).None?;
    }
  }

  lemma {:induction false} StuckMeansFinished(s: State, k: nat)
    requires Inv(s) && Stuck(s) && k < |s.pc|
    ensures Finished(s, k) && (k < |s.rings| ==> s.rings[k] == 0)
    decreases |s.pc| - k
  {
    assert StageOk(s, k) && Next(s, k).None?;
    NobodyStarves(s, k);
    if k < |s.pc| - 1 {
      StuckMeansFinished(s, k + 1);
      assert RingOk(s, k);
    }
  }

  /** No interleaving deadlocks: a state with no step has every stage finished with the same number of
      batches and every ring empty. */
  lemma NoDeadlock(stages: nat, run: seq<nat>, t: State)
    requires stages >= 2 && RunsTo(Init(stages), run, t)
    ensures WellFormed(t) && (Stuck(t) <==> AllFinished(t))
  {
    InitInv(stages);
    RunKeepsInv(Init(stages), run, t);
    if Stuck(t) {
      forall k | 0 <= k < |t.pc| ensures Finished(t, k) { StuckMeansFinished(t, k); }
      forall r | 0 <= r < |t.rings| ensures t.rings[r] == 0 { StuckMeansFinished(t, r); }
    }
    if AllFinished(t) {
      forall k: nat | k < |t.pc| ensures Next(t, k).None? { assert Finished(t, k); }
    }
  }

  /** Exactly when a stage has no step: after five million batches of eight, on an empty ring before it, or on
      four batches in the ring after it. */
  lemma WaitsExactlyWhen(stages: nat, run: seq<nat>, t: State, k: nat)
    requires stages >= 2 && RunsTo(Init(stages), run, t) && k < stages
    ensures WellFormed(t) && |t.pc| == stages
    ensures Next(t, k).None? <==>
              || (t.pc[k].Ready? && (t.processed[k] == 5_000_000 || (k > 0 && t.rings[k - 1] == 0)))
              || (t.pc[k].Processed? && k < stages - 1 && t.rings[k] == 4)
  {
    InitInv(stages);
    RunKeepsInv(Init(stages), run, t);
    assert StageOk(t, k);
    if k < stages - 1 { assert RingOk(t, k); }
  }

  // ---------------------------------------------------------------------------
  // Termination
  // ---------------------------------------------------------------------------

  ghost function StageWork(pc: Pc, processed: nat): int {
    3 * (BATCHES - processed) + (match pc case Ready => 0 case Processed => 2 case Pushed => 1)
  }

  ghost function Work(pc: seq<Pc>, processed: seq<nat>): int
    requires |pc| == |processed|
  {
    if pc == [] then 0
    else Work(pc[..|pc| - 1], processed[..|pc| - 1]) + StageWork(pc[|pc| - 1], processed[|pc| - 1])
  }

  lemma {:induction false} WorkUpdate(pc: seq<Pc>, processed: seq<nat>, k: nat, c: Pc, n: nat)
    requires |pc| == |processed| && k < |pc|
    ensures Work(pc[k := c], processed[k := n])
            == Work(pc, processed) - StageWork(pc[k], processed[k]) + StageWork(c, n)
  {
    var m := |pc| - 1;
    var pc', processed' := pc[k := c], processed[k := n];
    if k == m {
      assert pc'[..m] == pc[..m] && processed'[..m] == processed[..m];
    } else {
      assert pc'[..m] == pc[..m][k := c] && processed'[..m] == processed[..m][k := n];
      WorkUpdate(pc[..m], processed[..m], k, c, n);
    }
  }

  lemma {:induction false} WorkIsNat(s: State, n: nat)
    requires Inv(s) && n <= |s.pc|
    ensures Work(s.pc[..n], s.processed[..n]) >= 0
  {
    if n > 0 {
      WorkIsNat(s, n - 1);
      assert StageOk(s, n - 1);
      assert s.pc[..n][..n - 1] == s.pc[..n - 1] && s.processed[..n][..n - 1] == s.processed[..n - 1];
    }
  }

  lemma StepWorks(s: State, k: nat)
    requires Inv(s) && Next(s, k).Some?
    ensures WellFormed(Next(s, k).value)
    ensures Work(Next(s, k).value.pc, Next(s, k).value.processed) < Work(s.pc, s.processed)
  {
    var t := Next(s, k).value;
    WorkUpdate(s.pc, s.processed, k, t.pc[k], t.processed[k]);
    assert t.processed == s.processed[k := t.processed[k]];
    assert t.pc == s.pc[k := t.pc[k]];
  }

  /** Every run is finite: its length is bounded by the initial work, three steps per stage and batch. */
  lemma {:induction false} RunsAreBounded(s: State, run: seq<nat>, t: State)
    requires Inv(s) && RunsTo(s, run, t)
    ensures WellFormed(t) && |run| + Work(t.pc, t.processed) <= Work(s.pc, s.processed)
    ensures Work(t.pc, t.processed) >= 0
  {
    RunKeepsInv(s, run, t);
    WorkIsNat(t, |t.pc|);
    assert t.pc[..|t.pc|] == t.pc && t.processed[..|t.pc|] == t.processed;
    if run != [] {
      var u :| WellFormed(u) && RunsTo(s, run[..|run| - 1], u) && Next(u, run[|run| - 1]) == Some(t);
      RunsAreBounded(s, run[..|run| - 1], u);
      RunKeepsInv(s, run[..|run| - 1], u);
      StepWorks(u, run[|run| - 1]);
    }
  }
}
