/** The behaviour runtime that DORADD spawns transactions into.

    A workload is the sequence of behaviours in spawn order.  Behaviour k runs as
    Len(k) atomic steps; between its steps any other behaviour may run.  The contract
    of `when(...)` is the only scheduling constraint: a behaviour holds all its cowns
    exclusively from its first step to its last, and each cown serves its behaviours in
    spawn order.  So behaviour k may step exactly when every earlier behaviour it shares
    a cown with has completed.

    The store is arbitrary.  The main theorem needs one thing of it: pending steps of two
    behaviours that share no cown commute in the states that arise. */
module Runtime {
  import opened Common

  datatype Workload<!S> = Workload(
    n: nat,                        // number of behaviours, in spawn order
    init: S,
    len: nat -> nat,               // atomic steps of behaviour k
    step: (nat, nat, S) -> S,      // step(k, m, s): the m-th step of behaviour k
    conflict: (nat, nat) -> bool)  // do behaviours k and j share a cown?

  /** A configuration: the store, and how many steps each behaviour has taken. */
  datatype Config<!S> = Config(store: S, progress: seq<nat>)

  ghost predicate IsProgress<S>(w: Workload<S>, p: seq<nat>) {
    |p| == w.n && forall k | 0 <= k < w.n :: p[k] <= w.len(k)
  }

  ghost predicate CanStep<S>(w: Workload<S>, p: seq<nat>, k: nat)
    requires |p| == w.n
  {
    && k < w.n
    && p[k] < w.len(k)
    && forall j: nat | j < k && w.conflict(j, k) :: p[j] == w.len(j)
  }

  ghost predicate Complete<S>(w: Workload<S>, p: seq<nat>) {
    |p| == w.n && forall k | 0 <= k < w.n :: p[k] == w.len(k)
  }

  /** The configuration after the given schedule, a sequence of behaviour indices. */
  ghost function After<S>(w: Workload<S>, sched: seq<nat>): (c: Config<S>)
    ensures |c.progress| == w.n
  {
    if sched == [] then Config(w.init, seq(w.n, i => 0))
    else
      var c := After(w, sched[..|sched| - 1]);
      var k := sched[|sched| - 1];
      if k < w.n then Config(w.step(k, c.progress[k], c.store), c.progress[k := c.progress[k] + 1]) else c
  }

  /** Every step of the schedule was permitted by `when(...)`. */
  ghost predicate Permitted<S>(w: Workload<S>, sched: seq<nat>) {
    sched == [] ||
    var before := sched[..|sched| - 1];
    Permitted(w, before) && CanStep(w, After(w, before).progress, sched[|sched| - 1])
  }

  /** A permitted schedule that runs every behaviour to its end. */
  ghost predicate Finishes<S>(w: Workload<S>, sched: seq<nat>) {
    Permitted(w, sched) && Complete(w, After(w, sched).progress)
  }

  // ---------------------------------------------------------------------------
  // The log-order reference: behaviours run one after another, each as far as p says
  // ---------------------------------------------------------------------------

  ghost function RunSteps<S>(w: Workload<S>, k: nat, m: nat, s: S): S {
    if m == 0 then s else w.step(k, m - 1, RunSteps(w, k, m - 1, s))
  }

  /** The first j behaviours, in log order, behaviour i taking its first p[i] steps. */
  ghost function InOrder<S>(w: Workload<S>, p: seq<nat>, j: nat): S
    requires j <= |p|
  {
    if j == 0 then w.init else RunSteps(w, j - 1, p[j - 1], InOrder(w, p, j - 1))
  }

  ghost function Full<S>(w: Workload<S>): (p: seq<nat>)
    ensures IsProgress(w, p) && Complete(w, p)
  {
    seq(w.n, i requires 0 <= i < w.n => w.len(i))
  }

  /** Serial execution in log order. */
  ghost function Serial<S>(w: Workload<S>): S {
    InOrder(w, Full(w), w.n)
  }

  /** The pending steps of behaviours k < j commute in the log-order state of p. */
  ghost predicate CommuteAt<S>(w: Workload<S>, p: seq<nat>, k: nat, j: nat)
    requires IsProgress(w, p) && k < j < w.n
  {
    var s := InOrder(w, p, j + 1);
    w.step(k, p[k], w.step(j, p[j], s)) == w.step(j, p[j], w.step(k, p[k], s))
  }

  /** What the store owes the runtime: behaviours that share no cown commute. */
  ghost predicate Independent<S>(w: Workload<S>) {
    forall p, k: nat, j: nat {:trigger CommuteAt(w, p, k, j)} |
      IsProgress(w, p) && k < j < w.n && !w.conflict(k, j) && p[k] < w.len(k) && p[j] < w.len(j)
      :: CommuteAt(w, p, k, j)
  }

  lemma {:induction false} InOrderPrefix<S>(w: Workload<S>, p: seq<nat>, q: seq<nat>, j: nat)
    requires j <= |p| && j <= |q| && p[..j] == q[..j]
    ensures InOrder(w, p, j) == InOrder(w, q, j)
  {
    if j > 0 {
      assert p[j - 1] == p[..j][j - 1] == q[..j][j - 1] == q[j - 1];
      assert p[..j - 1] == p[..j][..j - 1] == q[..j][..j - 1] == q[..j - 1];
      InOrderPrefix(w, p, q, j - 1);
    }
  }

  /** A pending step of k slides over the first l steps of a later behaviour j. */
  lemma {:induction false} SlideOverSteps<S>(w: Workload<S>, p: seq<nat>, k: nat, j: nat, l: nat)
    requires Independent(w) && IsProgress(w, p)
    requires k < j < w.n && p[k] < w.len(k) && !w.conflict(k, j) && l <= p[j]
    ensures var a := InOrder(w, p, j);
            RunSteps(w, j, l, w.step(k, p[k], a)) == w.step(k, p[k], RunSteps(w, j, l, a))
  {
    if l > 0 {
      SlideOverSteps(w, p, k, j, l - 1);
      var q := p[j := l - 1];
      InOrderPrefix(w, p, q, j);
      assert InOrder(w, q, j + 1) == RunSteps(w, j, l - 1, InOrder(w, p, j));
      assert CommuteAt(w, q, k, j);
    }
  }

  /** No behaviour has started while an earlier one it shares a cown with is unfinished. */
  ghost predicate Exclusive<S>(w: Workload<S>, p: seq<nat>)
    requires |p| == w.n
  {
    forall k: nat, j: nat | k < j < w.n && w.conflict(k, j) && p[j] > 0 :: p[k] == w.len(k)
  }

  /** Advancing k inside the log order is the same as taking its step last. */
  lemma {:induction false} Slide<S>(w: Workload<S>, p: seq<nat>, k: nat, j: nat)
    requires Independent(w) && IsProgress(w, p) && Exclusive(w, p)
    requires k < j <= w.n && p[k] < w.len(k)
    ensures InOrder(w, p[k := p[k] + 1], j) == w.step(k, p[k], InOrder(w, p, j))
    decreases j
  {
    var q := p[k := p[k] + 1];
    if j == k + 1 {
      InOrderPrefix(w, p, q, k);
    } else {
      Slide(w, p, k, j - 1);
      assert q[j - 1] == p[j - 1];
      if p[j - 1] != 0 {
        SlideOverSteps(w, p, k, j - 1, p[j - 1]);
      }
    }
  }

  lemma {:induction false} ProgressInvariant<S>(w: Workload<S>, sched: seq<nat>)
    requires Permitted(w, sched)
    ensures var p := After(w, sched).progress; IsProgress(w, p) && Exclusive(w, p)
  {
    if sched != [] {
      var before := sched[..|sched| - 1];
      ProgressInvariant(w, before);
    }
  }

  lemma {:induction false} InitInOrder<S>(w: Workload<S>, p: seq<nat>, j: nat)
    requires j <= |p| && forall i | 0 <= i < j :: p[i] == 0
    ensures InOrder(w, p, j) == w.init
  {
    if j > 0 { InitInOrder(w, p, j - 1); }
  }

  /** In every reachable state, mid-flight or not, the store is what log-order execution of
      the same progress gives. */
  lemma {:induction false} EveryStateIsLogOrder<S>(w: Workload<S>, sched: seq<nat>)
    requires Independent(w) && Permitted(w, sched)
    ensures var c := After(w, sched); c.store == InOrder(w, c.progress, w.n)
  {
    if sched == [] {
      InitInOrder(w, After(w, sched).progress, w.n);
    } else {
      var before := sched[..|sched| - 1];
      EveryStateIsLogOrder(w, before);
      ProgressInvariant(w, before);
      var c, k := After(w, before), sched[|sched| - 1];
      assert c.store == InOrder(w, c.progress, w.n);
      assert CanStep(w, c.progress, k);
      Slide(w, c.progress, k, w.n);
      assert After(w, sched) == Config(w.step(k, c.progress[k], c.store), c.progress[k := c.progress[k] + 1]);
    }
  }

  /** Determinism: whatever the interleaving, a completed run ends in the serial state. */
  lemma Determinism<S>(w: Workload<S>, sched: seq<nat>)
    requires Independent(w) && Finishes(w, sched)
    ensures After(w, sched).store == Serial(w)
  {
    EveryStateIsLogOrder(w, sched);
    assert After(w, sched).progress == Full(w);
  }

  /** The runtime cannot get stuck: while work remains, the oldest unfinished behaviour may step. */
  lemma NeverStuck<S>(w: Workload<S>, sched: seq<nat>)
    requires Permitted(w, sched) && !Complete(w, After(w, sched).progress)
    ensures exists k :: Permitted(w, sched + [k])
  {
    ProgressInvariant(w, sched);
    var k := Oldest(w, After(w, sched).progress, 0);
    assert (sched + [k])[..|sched|] == sched;
    assert Permitted(w, sched + [k]);
  }

  lemma {:induction false} Oldest<S>(w: Workload<S>, p: seq<nat>, from: nat) returns (k: nat)
    requires IsProgress(w, p) && !Complete(w, p) && from <= w.n
    requires forall j | 0 <= j < from :: p[j] == w.len(j)
    ensures CanStep(w, p, k)
    decreases w.n - from
  {
    if p[from] < w.len(from) { k := from; } else { k := Oldest(w, p, from + 1); }
  }

  lemma Extend<S>(w: Workload<S>, sched: seq<nat>, k: nat)
    requires Permitted(w, sched) && CanStep(w, After(w, sched).progress, k)
    ensures Permitted(w, sched + [k])
    ensures var c := After(w, sched);
            After(w, sched + [k]) == Config(w.step(k, c.progress[k], c.store), c.progress[k := c.progress[k] + 1])
  {
    var e := sched + [k];
    assert e != [] && e[..|e| - 1] == sched && e[|e| - 1] == k;
  }

  /** A behaviour with no unfinished predecessor may run to any point without interruption. */
  lemma {:induction false} RunAlone<S>(w: Workload<S>, sched: seq<nat>, c: Config<S>, k: nat, m: nat) returns (out: seq<nat>)
    requires Permitted(w, sched) && c == After(w, sched) && k < w.n && m <= w.len(k)
    requires c.progress[k] == 0 && forall j: nat | j < k && w.conflict(j, k) :: c.progress[j] == w.len(j)
    ensures Permitted(w, out)
    ensures After(w, out) == Config(RunSteps(w, k, m, c.store), c.progress[k := m])
  {
    if m == 0 {
      out := sched;
      assert c == Config(RunSteps(w, k, 0, c.store), c.progress[k := 0]);
    } else {
      var so := RunAlone(w, sched, c, k, m - 1);
      out := OneStepMore(w, so, c, k, m - 1);
    }
  }

  lemma OneStepMore<S>(w: Workload<S>, so: seq<nat>, c: Config<S>, k: nat, m: nat) returns (out: seq<nat>)
    requires Permitted(w, so) && |c.progress| == w.n && k < w.n && m < w.len(k)
    requires After(w, so) == Config(RunSteps(w, k, m, c.store), c.progress[k := m])
    requires forall j: nat | j < k && w.conflict(j, k) :: c.progress[j] == w.len(j)
    ensures Permitted(w, out) && After(w, out) == Config(RunSteps(w, k, m + 1, c.store), c.progress[k := m + 1])
  {
    out := so + [k];
    Extend(w, so, k);
    assert c.progress[k := m][k := m + 1] == c.progress[k := m + 1];
  }

  lemma StartConfig<S>(w: Workload<S>)
    ensures Permitted(w, []) && After(w, []) == Config(w.init, seq(w.n, i => 0))
  {}

  /** Progress when the first j behaviours are complete and the others have not started. */
  ghost function Upto<S>(w: Workload<S>, j: nat): (p: seq<nat>)
    ensures |p| == w.n && forall i | 0 <= i < w.n :: p[i] == if i < j then w.len(i) else 0
  {
    seq(w.n, i requires 0 <= i < w.n => if i < j then w.len(i) else 0)
  }

  /** The first j behaviours may run one after another in spawn order. */
  lemma {:induction false} RunPrefix<S>(w: Workload<S>, j: nat) returns (sched: seq<nat>)
    requires j <= w.n
    ensures Permitted(w, sched) && After(w, sched) == Config(InOrder(w, Full(w), j), Upto(w, j))
  {
    if j == 0 {
      sched := [];
      StartConfig(w);
      assert Upto(w, 0) == seq(w.n, i => 0);
    } else {
      var before := RunPrefix(w, j - 1);
      sched := RunAlone(w, before, After(w, before), j - 1, w.len(j - 1));
      assert Upto(w, j - 1)[j - 1 := w.len(j - 1)] == Upto(w, j);
    }
  }

  // Behaviours run one at a time, each to its end, in any order that every one of them may start in.

  ghost predicate Startable<S>(w: Workload<S>, p: seq<nat>, k: nat)
    requires |p| == w.n
  {
    k < w.n && p[k] == 0 && forall j: nat | j < k && w.conflict(j, k) :: p[j] == w.len(j)
  }

  ghost predicate TurnsOk<S>(w: Workload<S>, p: seq<nat>, turns: seq<nat>)
    requires |p| == w.n
    decreases |turns|
  {
    turns == [] || (Startable(w, p, turns[0]) && TurnsOk(w, p[turns[0] := w.len(turns[0])], turns[1..]))
  }

  /** Progress and store after those turns. */
  ghost function ProgressAfter<S>(w: Workload<S>, p: seq<nat>, turns: seq<nat>): (q: seq<nat>)
    requires |p| == w.n && TurnsOk(w, p, turns)
    ensures |q| == w.n
    decreases |turns|
  {
    if turns == [] then p else ProgressAfter(w, p[turns[0] := w.len(turns[0])], turns[1..])
  }

  ghost function StoreAfter<S>(w: Workload<S>, s: S, turns: seq<nat>): S
    decreases |turns|
  {
    if turns == [] then s else StoreAfter(w, RunSteps(w, turns[0], w.len(turns[0]), s), turns[1..])
  }

  lemma {:induction false} TakeTurns<S>(w: Workload<S>, sched: seq<nat>, c: Config<S>, turns: seq<nat>) returns (out: seq<nat>)
    requires Permitted(w, sched) && c == After(w, sched) && TurnsOk(w, c.progress, turns)
    ensures Permitted(w, out)
    ensures After(w, out) == Config(StoreAfter(w, c.store, turns), ProgressAfter(w, c.progress, turns))
    decreases |turns|
  {
    if turns == [] {
      out := sched;
    } else {
      var k := turns[0];
      var next := RunAlone(w, sched, c, k, w.len(k));
      out := TakeTurns(w, next, Config(RunSteps(w, k, w.len(k), c.store), c.progress[k := w.len(k)]), turns[1..]);
    }
  }

  /** The first j behaviours in spawn order, then the given turns. */
  lemma PrefixThen<S>(w: Workload<S>, j: nat, turns: seq<nat>) returns (sched: seq<nat>)
    requires j <= w.n && TurnsOk(w, Upto(w, j), turns) && Complete(w, ProgressAfter(w, Upto(w, j), turns))
    ensures Finishes(w, sched) && After(w, sched).store == StoreAfter(w, InOrder(w, Full(w), j), turns)
  {
    var before := RunPrefix(w, j);
    sched := TakeTurns(w, before, Config(InOrder(w, Full(w), j), Upto(w, j)), turns);
  }

  /** The last two the other way round. */
  lemma SwapTwo<S>(w: Workload<S>, j: nat)
    requires w.n == j + 2 && !w.conflict(j, j + 1)
    ensures TurnsOk(w, Upto(w, j), [j + 1, j]) && Complete(w, ProgressAfter(w, Upto(w, j), [j + 1, j]))
  {
    var p := Upto(w, j);
    var q := p[j + 1 := w.len(j + 1)];
    assert [j + 1, j][1..] == [j] && [j][1..] == [];
    assert Startable(w, p, j + 1) && Startable(w, q, j);
    assert TurnsOk(w, q, [j]) && ProgressAfter(w, q, [j]) == q[j := w.len(j)];
    assert ProgressAfter(w, p, [j + 1, j]) == ProgressAfter(w, q, [j]);
  }

  /** Of the last four, the second goes last. */
  lemma SwapFour<S>(w: Workload<S>, j: nat)
    requires w.n == j + 4 && !w.conflict(j + 1, j + 2) && !w.conflict(j + 1, j + 3)
    ensures TurnsOk(w, Upto(w, j), [j, j + 2, j + 3, j + 1])
    ensures Complete(w, ProgressAfter(w, Upto(w, j), [j, j + 2, j + 3, j + 1]))
  {
    var p0 := Upto(w, j);
    var p1 := p0[j := w.len(j)];
    var p2 := p1[j + 2 := w.len(j + 2)];
    var p3 := p2[j + 3 := w.len(j + 3)];
    var t := [j, j + 2, j + 3, j + 1];
    assert t[1..] == [j + 2, j + 3, j + 1] && t[1..][1..] == [j + 3, j + 1] && t[1..][1..][1..] == [j + 1] && t[1..][1..][1..][1..] == [];
    assert Startable(w, p0, j) && Startable(w, p1, j + 2) && Startable(w, p2, j + 3) && Startable(w, p3, j + 1);
    assert TurnsOk(w, p3, [j + 1]) && ProgressAfter(w, p3, [j + 1]) == p3[j + 1 := w.len(j + 1)];
    assert TurnsOk(w, p2, [j + 3, j + 1]) && ProgressAfter(w, p2, [j + 3, j + 1]) == ProgressAfter(w, p3, [j + 1]);
    assert TurnsOk(w, p1, t[1..]) && ProgressAfter(w, p1, t[1..]) == ProgressAfter(w, p2, [j + 3, j + 1]);
    assert ProgressAfter(w, p0, t) == ProgressAfter(w, p1, t[1..]);
  }

  lemma {:induction false} SumUpdate(p: seq<nat>, k: nat)
    requires k < |p|
    ensures Sum(p[k := p[k] + 1]) == Sum(p) + 1
  {
    var q := p[k := p[k] + 1];
    if k == |p| - 1 {
      assert q[..|q| - 1] == p[..|p| - 1];
    } else {
      assert q[..|q| - 1] == p[..|p| - 1][k := p[k] + 1];
      SumUpdate(p[..|p| - 1], k);
    }
  }

  lemma {:induction false} SumZero(p: seq<nat>)
    requires forall i | 0 <= i < |p| :: p[i] == 0
    ensures Sum(p) == 0
  {
    if p != [] { SumZero(p[..|p| - 1]); }
  }

  /** Every permitted schedule is finite work: its length is the number of steps taken, which
      never exceeds the total.  With NeverStuck, every maximal run completes. */
  lemma {:induction false} BoundedRuns<S>(w: Workload<S>, sched: seq<nat>)
    requires Permitted(w, sched)
    ensures |sched| == Sum(After(w, sched).progress) <= Sum(Full(w))
  {
    ProgressInvariant(w, sched);
    SumMonotone(After(w, sched).progress, Full(w));
    if sched == [] {
      SumZero(After(w, sched).progress);
    } else {
      var before := sched[..|sched| - 1];
      BoundedRuns(w, before);
      SumUpdate(After(w, before).progress, sched[|sched| - 1]);
    }
  }
}
