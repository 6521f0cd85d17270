/** CoroMultiLookup: one coroutine per lookup, at most `streams` of them alive, scheduled through a
    256-slot ring.  A coroutine that awaits a prefetch pushes its own handle and resumes the one it
    pops; one that finishes returns to whoever called resume. */
module CoroLookup {
  import opened Common
  import opened Lookup

  const N := 256

  // ---------------------------------------------------------------------------
  // scheduler_queue
  // ---------------------------------------------------------------------------

  /** A coroutine handle: the number of its task, or none. */
  datatype Handle = Null | Handle(id: nat)

  /** Slot of the i-th queued handle. */
  function SlotAt(tail: nat, i: nat): nat { if tail + i < N then tail + i else tail + i - N }

  class SchedulerQueue {
    const arr: array<nat>
    var head: nat
    var tail: nat
    ghost var contents: seq<nat>  // what pop_front will yield, in order

    ghost predicate Valid()
      reads this, arr
    {
      && arr.Length == N && head < N && tail < N
      && |contents| <= N && head == SlotAt(tail, |contents|) % N
      && forall i | 0 <= i < |contents| :: arr[SlotAt(tail, i)] == contents[i]
    }

    constructor ()
      ensures Valid() && contents == [] && head == tail == 0 && fresh(arr)
    {
      arr := new nat[N];
      head, tail, contents := 0, 0, [];
    }

    /** push_back never checks for room.  With 256 handles queued it overwrites the oldest and the ring then
        reads as holding only the new one: the other 255 are never popped again. */
    method PushBack(h: nat)
      requires Valid()
      modifies this, arr
      ensures Valid() && contents == if old(|contents|) < N then old(contents) + [h] else [h]
    {
      contents := if |contents| < N then contents + [h] else [h];
      arr[head] := h;
      head := (head + 1) % N;
    }

    method PopFront() returns (h: nat)
      requires Valid() && contents != []
      modifies this
      ensures Valid() && h == old(contents[0]) && contents == old(contents[1..])
    {
      h := arr[tail];
      tail := (tail + 1) % N;
      contents := contents[1..];
    }
  }

  // ---------------------------------------------------------------------------
  // Coroutines
  // ---------------------------------------------------------------------------

  datatype Phase = NotStarted | Waiting | Done(found: bool)

  /** A coroutine frame of CoroBinarySearch.  While Waiting it is suspended at the prefetch of the middle
      of v[first .. first + len]. */
  datatype Task = Task(val: int, first: nat, len: nat, phase: Phase)

  /** The coroutine is still on its way to the plain search's answer, or has given it. */
  ghost predicate TaskOk(v: seq<int>, t: Task) {
    match t.phase
    case NotStarted => true
    case Waiting => t.len > 0 && t.first + t.len <= |v| && Naive(v, t.first, t.len, t.val) == Naive(v, 0, |v|, t.val)
    case Done(b) => b == Naive(v, 0, |v|, t.val)
  }

  ghost predicate AllTasksOk(v: seq<int>, ts: seq<Task>) { forall i | 0 <= i < |ts| :: TaskOk(v, ts[i]) }

  /** Probes it can still make, plus one if it has not started. */
  ghost function Weight(v: seq<int>, t: Task): nat {
    match t.phase
    case NotStarted => |v| + 1
    case Waiting => t.len
    case Done(_) => 0
  }

  ghost function TotalWeight(v: seq<int>, ts: seq<Task>): nat {
    if ts == [] then 0 else TotalWeight(v, ts[..|ts| - 1]) + Weight(v, ts[|ts| - 1])
  }

  /** Tasks that finished with answer b. */
  ghost function Tally(ts: seq<Task>, b: bool): nat {
    if ts == [] then 0 else Tally(ts[..|ts| - 1], b) + (if ts[|ts| - 1].phase == Done(b) then 1 else 0)
  }

  lemma {:induction false} TaskUpdate(v: seq<int>, ts: seq<Task>, i: nat, t: Task)
    requires i < |ts|
    ensures TotalWeight(v, ts[i := t]) == TotalWeight(v, ts) - Weight(v, ts[i]) + Weight(v, t)
    ensures forall b :: Tally(ts[i := t], b)
              == Tally(ts, b) - (if ts[i].phase == Done(b) then 1 else 0) + (if t.phase == Done(b) then 1 else 0)
  {
    var us := ts[i := t];
    if i == |ts| - 1 {
      assert us[..|us| - 1] == ts[..|ts| - 1];
    } else {
      assert us[..|us| - 1] == ts[..|ts| - 1][i := t];
      TaskUpdate(v, ts[..|ts| - 1], i, t);
    }
  }

  /** One resumption of a coroutine, up to its next suspension or its end. */
  method Advance(v: seq<int>, t: Task) returns (u: Task)
    requires TaskOk(v, t) && !t.phase.Done?
    ensures TaskOk(v, u) && u.val == t.val && !u.phase.NotStarted? && Weight(v, u) < Weight(v, t)
  {
    var first, len := t.first, t.len;
    if t.phase == NotStarted {
      first, len := 0, |v|;
    } else {
      var half := len / 2;
      var middle := first + half;
      var x := v[middle];
      if x < t.val {
        first := middle;
        first := first + 1;
        len := len - half - 1;
      } else {
        len := half;
      }
      assert Naive(v, t.first, t.len, t.val) == (x == t.val || Naive(v, first, len, t.val));
      if x == t.val { return t.(phase := Done(true)); }
      assert Naive(v, first, len, t.val) == Naive(v, t.first, t.len, t.val);
    }
    assert Naive(v, first, len, t.val) == Naive(v, 0, |v|, t.val);
    if len > 0 { return Task(t.val, first, len, Waiting); }
    return t.(phase := Done(false));
  }

  // ---------------------------------------------------------------------------
  // throttler and CoroMultiLookup
  // ---------------------------------------------------------------------------

  /** The unfinished tasks other than `running` are queued, each once, or lost. */
  ghost predicate Queued(ts: seq<Task>, queue: seq<nat>, lost: set<nat>, running: Handle) {
    && (forall i | 0 <= i < |queue| :: queue[i] < |ts| && running != Handle(queue[i]) && queue[i] !in lost)
    && (forall i, j | 0 <= i < j < |queue| :: queue[i] != queue[j])
    && (forall h | h in lost :: h < |ts| && running != Handle(h))
    && (forall h: nat | h < |ts| :: ts[h].phase.Done? <==> h !in queue && h !in lost && running != Handle(h))
  }

  /** How many handles the ring yields after m pushes without a pop: it starts afresh after every 256. */
  function RingLength(m: nat): nat { if m == 0 then 0 else (m - 1) % N + 1 }

  lemma RingLengthNext(m: nat)
    ensures RingLength(m + 1) == if RingLength(m) < N then RingLength(m) + 1 else 1
    ensures RingLength(m) <= m && RingLength(m) <= N
    ensures RingLength(m) < N ==> m - RingLength(m) == N * (m / N)
    ensures RingLength(m) == N ==> m == N * (m / N)
  {}

  class Throttler {
    const v: seq<int>
    const streams: nat
    const q: SchedulerQueue
    var tasks: seq<Task>
    var limit: nat
    var found: nat
    var notFound: nat
    ghost var lost: set<nat>  // suspended coroutines whose handles the ring has dropped

    /** `running` is the coroutine in control, if any. */
    ghost predicate Consistent(running: Handle)
      reads this, q, q.arr
    {
      var alive := |q.contents| + |lost| + (if running.Handle? then 1 else 0);
      && 1 <= streams && q.Valid() && AllTasksOk(v, tasks)
      && Queued(tasks, q.contents, lost, running)
      && (running.Handle? ==> running.id < |tasks| && |q.contents| < N)
      && limit + alive == streams
      && found == Tally(tasks, true) && notFound == Tally(tasks, false)
      && found + notFound + alive == |tasks|
    }

    constructor (v: seq<int>, streams: nat)
      requires 1 <= streams
      ensures Consistent(Null) && this.v == v && this.streams == streams && tasks == [] && fresh(q) && fresh(q.arr)
      ensures lost == {} && q.contents == []
    {
      this.v, this.streams := v, streams;
      q := new SchedulerQueue();
      tasks, limit, found, notFound, lost := [], streams, 0, 0, {};
    }

    /** The running coroutine makes one resumption's worth of progress. */
    method StepRunning(h: nat) returns (done: bool)
      requires Consistent(Handle(h))
      modifies this
      ensures SameKeys(tasks, old(tasks)) && TotalWeight(v, tasks) < old(TotalWeight(v, tasks)) && lost == old(lost)
      ensures done ==> Consistent(Null) && limit == old(limit) + 1
      ensures !done ==> Consistent(Handle(h)) && limit == old(limit)
    {
      var u := Advance(v, tasks[h]);
      StepQueued(tasks, q.contents, lost, h, u);
      StepCounts(v, tasks, h, u);
      tasks := tasks[h := u];
      done := u.phase.Done?;
      if done {
        if u.phase.found { found := found + 1; } else { notFound := notFound + 1; }
        limit := limit + 1;
      }
    }

    /** await_suspend: queue the suspended coroutine and take the next one, possibly itself. */
    method Transfer(h: nat) returns (next: nat)
      requires Consistent(Handle(h))
      modifies q, q.arr
      ensures Consistent(Handle(next)) && |q.contents| == old(|q.contents|)
    {
      assert !tasks[h].phase.Done?;
      q.PushBack(h);
      next := q.PopFront();
      assert old(q.contents) + [h] == [next] + q.contents;
      RotateQueued(tasks, old(q.contents), lost, h, next, q.contents);
    }

    /** resume: control passes from coroutine to coroutine until one finishes. */
    method Resume(h: nat)
      requires Consistent(Handle(h))
      modifies this, q, q.arr
      ensures Consistent(Null) && |q.contents| == old(|q.contents|) && limit == old(limit) + 1
      ensures SameKeys(tasks, old(tasks)) && lost == old(lost)
    {
      var cur: nat := h;
      var done := StepRunning(cur);
      while !done
        invariant |q.contents| == old(|q.contents|) && SameKeys(tasks, old(tasks)) && lost == old(lost)
        invariant done ==> Consistent(Null) && limit == old(limit) + 1
        invariant !done ==> Consistent(Handle(cur)) && limit == old(limit)
        decreases TotalWeight(v, tasks)
      {
        cur := Transfer(cur);
        done := StepRunning(cur);
      }
    }

    method PopAndResume()
      requires Consistent(Null) && q.contents != []
      modifies this, q, q.arr
      ensures Consistent(Null) && |q.contents| == old(|q.contents|) - 1 && limit == old(limit) + 1
      ensures SameKeys(tasks, old(tasks)) && lost == old(lost)
    {
      ghost var queue := q.contents;
      var h := q.PopFront();
      assert queue == [h] + q.contents;
      HeadQueued(tasks, queue, lost, h, q.contents);
      Resume(h);
    }

    /** Queue a new coroutine; on a full ring that loses the 256 queued ones. */
    method Enqueue(key: int)
      requires Consistent(Null) && limit > 0
      modifies this, q, q.arr
      ensures Consistent(Null) && limit == old(limit) - 1
      ensures tasks == old(tasks) + [Task(key, 0, 0, NotStarted)]
      ensures q.contents == RingAfter(old(q.contents), old(|tasks|)) && lost == LostAfter(old(q.contents), old(lost))
    {
      var h := |tasks|;
      NewTask(v, tasks, q.contents, lost, Task(key, 0, 0, NotStarted));
      lost := LostAfter(q.contents, lost);
      tasks := tasks + [Task(key, 0, 0, NotStarted)];
      limit := limit - 1;
      ghost var queue := RingAfter(q.contents, h);
      assert AllTasksOk(v, tasks) && Queued(tasks, queue, lost, Null);
      assert found == Tally(tasks, true) && notFound == Tally(tasks, false);
      assert limit + |queue| + |lost| == streams && found + notFound + |queue| + |lost| == |tasks|;
      q.PushBack(h);
      assert q.contents == queue;
    }

    /** spawn: with no room left, run the queue until some coroutine finishes; then queue the new one. */
    method Spawn(key: int)
      requires Consistent(Null) && (limit == 0 ==> q.contents != [])
      modifies this, q, q.arr
      ensures Consistent(Null)
      ensures |tasks| == |old(tasks)| + 1 && tasks[|old(tasks)|].val == key
      ensures SameKeys(tasks[..|old(tasks)|], old(tasks))
      ensures old(limit) == 0 ==> limit == 0 && |q.contents| == old(|q.contents|) && lost == old(lost)
      ensures old(limit) > 0 ==> limit == old(limit) - 1
                                 && q.contents == RingAfter(old(q.contents), old(|tasks|)) && lost == LostAfter(old(q.contents), old(lost))
    {
      if limit == 0 { PopAndResume(); }
      Enqueue(key);
    }

    /** Spawning the k-th lookup. */
    method SpawnNext(key: int, ghost k: nat)
      requires Consistent(Null) && |tasks| == k && limit == streams - Min(k, streams) && RingAt(q.contents, lost, k, streams)
      modifies this, q, q.arr
      ensures Consistent(Null) && |tasks| == k + 1 && limit == streams - Min(k + 1, streams) && RingAt(q.contents, lost, k + 1, streams)
      ensures tasks[k].val == key && SameKeys(tasks[..k], old(tasks))
    {
      ghost var before, gone := q.contents, lost;
      if k >= streams { RingNotEmpty(before, gone, k, streams); }
      Spawn(key);
      RingStep(before, gone, q.contents, lost, k, streams);
    }

    /** The loop of CoroMultiLookup over the lookups. */
    method SpawnAll(keys: seq<int>)
      requires Consistent(Null) && tasks == [] && q.contents == [] && lost == {}
      modifies this, q, q.arr
      ensures Consistent(Null) && HaveKeys(tasks, keys) && RingAt(q.contents, lost, |keys|, streams)
    {
      StartRing(streams);
      for k := 0 to |keys|
        invariant Consistent(Null) && HaveKeys(tasks, keys[..k])
        invariant limit == streams - Min(k, streams) && RingAt(q.contents, lost, k, streams)
      {
        ghost var before := tasks;
        SpawnNext(keys[k], k);
        OneMoreKey(before, tasks, keys, k);
      }
      assert keys[..|keys|] == keys;
    }

    /** scheduler.run: resume until the ring reads as empty, which a full ring does too. */
    method Run()
      requires Consistent(Null)
      modifies this, q, q.arr
      ensures Consistent(Null) && SameKeys(tasks, old(tasks)) && lost == old(lost)
      ensures |q.contents| == if old(|q.contents|) == N then N else 0
    {
      while q.head != q.tail
        invariant Consistent(Null) && SameKeys(tasks, old(tasks)) && lost == old(lost)
        invariant if old(|q.contents|) == N then |q.contents| == N else |q.contents| < N
        decreases |q.contents|
      {
        PopAndResume();
      }
    }
  }

  /** What the ring yields, and which handles are gone, once h has been pushed. */
  ghost function RingAfter(contents: seq<nat>, h: nat): seq<nat> { if |contents| < N then contents + [h] else [h] }
  ghost function LostAfter(contents: seq<nat>, lost: set<nat>): set<nat> { if |contents| < N then lost else lost + Elements(contents) }

  ghost function Ids(from: nat, n: nat): (s: seq<nat>)
    ensures |s| == n && forall i | 0 <= i < n :: s[i] == from + i
  {
    seq(n, i => from + i)
  }

  /** Exactly the first n tasks. */
  ghost predicate FirstOnes(s: set<nat>, n: nat) { forall x: nat :: x in s <==> x < n }

  /** The ring after k pushes without a pop. */
  ghost predicate InitialRing(contents: seq<nat>, lost: set<nat>, k: nat) {
    RingLength(k) <= k && contents == Ids(k - RingLength(k), RingLength(k)) && FirstOnes(lost, k - RingLength(k))
  }

  lemma PushNext(contents: seq<nat>, lost: set<nat>, k: nat)
    requires InitialRing(contents, lost, k)
    ensures InitialRing(RingAfter(contents, k), LostAfter(contents, lost), k + 1)
  {
    RingLengthNext(k);
    RingLengthNext(k + 1);
    var from := k - RingLength(k);
    if RingLength(k) < N {
      assert contents + [k] == Ids(from, RingLength(k) + 1);
    } else {
      forall x: nat ensures x in Elements(contents) <==> from <= x < k {
        if from <= x < k { assert contents[x - from] == x; }
      }
      assert [k] == Ids(k, 1);
    }
  }

  /** The ring after k lookups have been spawned with the given limit. */
  ghost predicate RingAt(contents: seq<nat>, lost: set<nat>, k: nat, streams: nat) {
    && (k <= streams ==> InitialRing(contents, lost, k))
    && (k >= streams ==> |contents| == RingLength(streams) && FirstOnes(lost, streams - RingLength(streams)))
  }

  lemma StartRing(streams: nat)
    requires streams > 0
    ensures RingAt([], {}, 0, streams)
  {
    RingLengthNext(streams);
  }

  lemma RingNotEmpty(contents: seq<nat>, lost: set<nat>, k: nat, streams: nat)
    requires RingAt(contents, lost, k, streams) && streams > 0 && k >= streams
    ensures contents != []
  {}

  lemma RingStep(c0: seq<nat>, l0: set<nat>, c1: seq<nat>, l1: set<nat>, k: nat, streams: nat)
    requires RingAt(c0, l0, k, streams)
    requires k < streams ==> c1 == RingAfter(c0, k) && l1 == LostAfter(c0, l0)
    requires k >= streams ==> |c1| == |c0| && l1 == l0
    ensures RingAt(c1, l1, k + 1, streams)
  {
    if k < streams { PushNext(c0, l0, k); }
  }

  lemma RingAtEnd(contents: seq<nat>, lost: set<nat>, k: nat, streams: nat)
    requires RingAt(contents, lost, k, streams)
    ensures var m := Min(streams, k); |contents| == RingLength(m) && FirstOnes(lost, m - RingLength(m))
  {}

  ghost function Elements(s: seq<nat>): set<nat> { set x | x in s }

  lemma {:induction false} ElementsSize(s: seq<nat>)
    requires forall i, j | 0 <= i < j < |s| :: s[i] != s[j]
    ensures |Elements(s)| == |s|
  {
    if s != [] {
      var rest, last := s[..|s| - 1], s[|s| - 1];
      ElementsSize(rest);
      assert Elements(s) == Elements(rest) + {last} && last !in Elements(rest);
    }
  }

  ghost predicate HaveKeys(ts: seq<Task>, keys: seq<int>) {
    |ts| == |keys| && forall i | 0 <= i < |ts| :: ts[i].val == keys[i]
  }

  ghost predicate SameKeys(a: seq<Task>, b: seq<Task>) {
    |a| == |b| && forall i | 0 <= i < |a| :: a[i].val == b[i].val
  }

  lemma OneMoreKey(before: seq<Task>, after: seq<Task>, keys: seq<int>, k: nat)
    requires k < |keys| && HaveKeys(before, keys[..k]) && |after| == k + 1 && after[k].val == keys[k] && SameKeys(after[..k], before)
    ensures HaveKeys(after, keys[..k + 1])
  {
    forall i | 0 <= i < k ensures after[i].val == keys[i] {
      assert after[..k][i].val == before[i].val;
    }
  }

  lemma StepQueued(ts: seq<Task>, queue: seq<nat>, lost: set<nat>, h: nat, u: Task)
    requires Queued(ts, queue, lost, Handle(h)) && h < |ts| && !u.phase.NotStarted?
    ensures h !in queue && !ts[h].phase.Done?
    ensures Queued(ts[h := u], queue, lost, if u.phase.Done? then Null else Handle(h))
  {}

  lemma StepCounts(v: seq<int>, ts: seq<Task>, h: nat, u: Task)
    requires h < |ts| && AllTasksOk(v, ts) && TaskOk(v, u) && !ts[h].phase.Done? && u.val == ts[h].val
    ensures AllTasksOk(v, ts[h := u]) && SameKeys(ts[h := u], ts)
    ensures TotalWeight(v, ts[h := u]) == TotalWeight(v, ts) - Weight(v, ts[h]) + Weight(v, u)
    ensures Tally(ts[h := u], true) == Tally(ts, true) + (if u.phase == Done(true) then 1 else 0)
    ensures Tally(ts[h := u], false) == Tally(ts, false) + (if u.phase == Done(false) then 1 else 0)
  {
    TaskUpdate(v, ts, h, u);
  }

  lemma HeadQueued(ts: seq<Task>, queue: seq<nat>, lost: set<nat>, h: nat, rest: seq<nat>)
    requires Queued(ts, queue, lost, Null) && queue == [h] + rest
    ensures h < |ts| && Queued(ts, rest, lost, Handle(h))
  {
    assert forall i | 0 <= i < |rest| :: rest[i] == queue[i + 1];
    assert h == queue[0];
    forall x: nat | x < |ts| ensures ts[x].phase.Done? <==> x !in rest && x !in lost && Handle(h) != Handle(x) {
      assert x in queue <==> x in rest || x == h;
    }
  }

  lemma AppendQueued(ts: seq<Task>, queue: seq<nat>, lost: set<nat>, t: Task)
    requires Queued(ts, queue, lost, Null) && !t.phase.Done?
    ensures Queued(ts + [t], queue + [|ts|], lost, Null)
  {}

  /** Adding an unstarted task and its handle. */
  lemma NewTask(v: seq<int>, ts: seq<Task>, queue: seq<nat>, lost: set<nat>, t: Task)
    requires AllTasksOk(v, ts) && Queued(ts, queue, lost, Null) && t.phase.NotStarted? && |queue| <= N
    ensures AllTasksOk(v, ts + [t]) && Queued(ts + [t], RingAfter(queue, |ts|), LostAfter(queue, lost), Null)
    ensures |RingAfter(queue, |ts|)| + |LostAfter(queue, lost)| == |queue| + |lost| + 1
    ensures forall b :: Tally(ts + [t], b) == Tally(ts, b)
  {
    assert (ts + [t])[..|ts|] == ts;
    PushKeepsQueued(ts, queue, lost, t);
  }

  lemma PushKeepsQueued(ts: seq<Task>, queue: seq<nat>, lost: set<nat>, t: Task)
    requires Queued(ts, queue, lost, Null) && !t.phase.Done? && |queue| <= N
    ensures Queued(ts + [t], RingAfter(queue, |ts|), LostAfter(queue, lost), Null)
    ensures |RingAfter(queue, |ts|)| + |LostAfter(queue, lost)| == |queue| + |lost| + 1
  {
    if |queue| < N { AppendQueued(ts, queue, lost, t); } else { LoseQueued(ts, queue, lost, t); }
  }

  lemma LoseQueued(ts: seq<Task>, queue: seq<nat>, lost: set<nat>, t: Task)
    requires Queued(ts, queue, lost, Null) && !t.phase.Done?
    ensures Queued(ts + [t], [|ts|], lost + Elements(queue), Null)
    ensures |lost + Elements(queue)| == |lost| + |queue|
  {
    ElementsSize(queue);
    assert lost * Elements(queue) == {};
  }

  /** For any number of streams: if m = min(streams, lookups) coroutines are ever alive together, 256 * (m / 256)
      lookups never finish, because a full ring reads as empty and a push into one drops what it held; all others
      complete exactly once, with the plain search's answer.  So every lookup completes if and only if m < 256.
      Unless m is a multiple of 256, the lost ones are the first, and the count is the plain search's for the rest. */
  method CoroMultiLookup(v: seq<int>, lookups: seq<int>, streams: nat) returns (found: nat, notFound: nat)
    requires 1 <= streams
    ensures found + notFound == |lookups| - N * (Min(streams, |lookups|) / N)
    ensures Min(streams, |lookups|) == 0 || Min(streams, |lookups|) % N != 0 ==>
              N * (Min(streams, |lookups|) / N) <= |lookups| && found == CountFound(v, lookups[N * (Min(streams, |lookups|) / N)..])
    ensures Min(streams, |lookups|) < N ==> found == CountFound(v, lookups)
    ensures found <= CountFound(v, lookups) && notFound <= |lookups| - CountFound(v, lookups)
  {
    var t := new Throttler(v, streams);
    t.SpawnAll(lookups);
    RingAtEnd(t.q.contents, t.lost, |lookups|, streams);
    RingLengthNext(Min(streams, |lookups|));
    t.Run();
    found, notFound := t.found, t.notFound;
    FinalCounts(v, t.tasks, lookups, t.q.contents, t.lost, Min(streams, |lookups|));
  }

  /** Which lookups are done once the ring has been run. */
  lemma FinalCounts(v: seq<int>, ts: seq<Task>, keys: seq<int>, contents: seq<nat>, lost: set<nat>, m: nat)
    requires AllTasksOk(v, ts) && HaveKeys(ts, keys) && Queued(ts, contents, lost, Null) && m <= |keys|
    requires |contents| == (if RingLength(m) == N then N else 0) && FirstOnes(lost, m - RingLength(m))
    ensures |contents| + |lost| == N * (m / N)
    ensures Tally(ts, true) <= CountFound(v, keys) && Tally(ts, false) <= |keys| - CountFound(v, keys)
    ensures m == 0 || m % N != 0 ==> N * (m / N) <= |keys| && Tally(ts, true) == CountFound(v, keys[N * (m / N)..])
    ensures m < N ==> Tally(ts, true) == CountFound(v, keys)
  {
    RingLengthNext(m);
    FirstOnesSize(lost, m - RingLength(m));
    DoneCounts(v, ts, keys);
    if contents == [] {
      DoneFrom(v, ts, keys, N * (m / N));
      if m < N { assert keys[0..] == keys; }
    }
  }

  lemma {:induction false} FirstOnesSize(s: set<nat>, n: nat)
    requires FirstOnes(s, n)
    ensures |s| == n
  {
    if n == 0 {
      assert s == {};
    } else {
      FirstOnesSize(s - {n - 1}, n - 1);
    }
  }

  lemma {:induction false} NoneDone(ts: seq<Task>, b: bool)
    requires forall i | 0 <= i < |ts| :: !ts[i].phase.Done?
    ensures Tally(ts, b) == 0
  {
    if ts != [] { NoneDone(ts[..|ts| - 1], b); }
  }

  /** If exactly the lookups from `gone` on have finished, those found are what the plain search finds of them. */
  lemma {:induction false} DoneFrom(v: seq<int>, ts: seq<Task>, keys: seq<int>, gone: nat)
    requires AllTasksOk(v, ts) && HaveKeys(ts, keys) && gone <= |ts| && forall i | 0 <= i < |ts| :: ts[i].phase.Done? <==> i >= gone
    ensures Tally(ts, true) == CountFound(v, keys[gone..])
  {
    if |ts| == gone {
      NoneDone(ts, true);
    } else {
      var n := |ts| - 1;
      DoneFrom(v, ts[..n], keys[..n], gone);
      assert keys[gone..][..n - gone] == keys[..n][gone..];
    }
  }

  /** Finished lookups have the plain search's answers. */
  lemma {:induction false} DoneCounts(v: seq<int>, ts: seq<Task>, keys: seq<int>)
    requires AllTasksOk(v, ts) && HaveKeys(ts, keys)
    ensures Tally(ts, true) <= CountFound(v, keys) && Tally(ts, false) <= |keys| - CountFound(v, keys)
  {
    if ts != [] { DoneCounts(v, ts[..|ts| - 1], keys[..|keys| - 1]); }
  }

  lemma RotateQueued(ts: seq<Task>, queue: seq<nat>, lost: set<nat>, h: nat, next: nat, rest: seq<nat>)
    requires Queued(ts, queue, lost, Handle(h)) && h < |ts| && queue + [h] == [next] + rest
    ensures Queued(ts, rest, lost, Handle(next)) && next < |ts|
  {
    var all := queue + [h];
    assert forall i | 0 <= i < |rest| :: rest[i] == all[i + 1];
    assert next == all[0];
    forall x: nat | x < |ts| ensures ts[x].phase.Done? <==> x !in rest && x !in lost && Handle(next) != Handle(x) {
      assert x in all <==> x in queue || x == h;
      assert x in all <==> x in rest || x == next;
    }
  }
}
