/** Binary search as the reference for the interleaved lookups, and the hand-written multi-frame state
    machine.

    Both interleaved forms probe exactly as the plain search does, so they agree with it on every
    vector, sorted or not; on a sorted vector the plain search decides membership. */
module Lookup {

  /** What naive_binary_search answers on v[first .. first + len]. */
  function Naive(v: seq<int>, first: nat, len: nat, val: int): bool
    requires first + len <= |v|
    decreases len
  {
    len > 0 &&
    var half := len / 2;
    var x := v[first + half];
    x == val || (if x < val then Naive(v, first + half + 1, len - half - 1, val) else Naive(v, first, half, val))
  }

  /** naive_binary_search, with at most as many probes as |v| has binary digits. */
  method NaiveBinarySearch(v: seq<int>, val: int) returns (r: bool, ghost probes: nat)
    ensures r == Naive(v, 0, |v|, val)
    ensures probes <= BitLength(|v|)
  {
    var first, len := 0, |v|;
    probes := 0;
    while len > 0
      invariant 0 <= first && 0 <= len && first + len <= |v|
      invariant Naive(v, first, len, val) == Naive(v, 0, |v|, val)
      invariant probes + BitLength(len) <= BitLength(|v|)
      decreases len
    {
      BitLengthMonotone(len - len / 2 - 1, len / 2);
      probes := probes + 1;
      var half := len / 2;
      var middle := first + half;
      var key := v[middle];
      if key < val {
        first, len := middle + 1, len - half - 1;
      } else {
        len := half;
      }
      if key == val { return true, probes; }
    }
    return false, probes;
  }

  /** Binary digits of n: how often n can be halved. */
  function BitLength(n: nat): nat { if n == 0 then 0 else 1 + BitLength(n / 2) }

  lemma {:induction false} BitLengthMonotone(m: nat, n: nat)
    requires m <= n
    ensures BitLength(m) <= BitLength(n)
  {
    if m > 0 { BitLengthMonotone(m / 2, n / 2); }
  }

  ghost predicate Sorted(v: seq<int>) { forall i, j | 0 <= i < j < |v| :: v[i] <= v[j] }

  ghost predicate Within(v: seq<int>, first: nat, len: nat, val: int)
    requires first + len <= |v|
  {
    exists i :: first <= i < first + len && v[i] == val
  }

  /** In a sorted vector the probe at mid rules out the half that the search drops. */
  lemma DropHalf(v: seq<int>, first: nat, len: nat, mid: nat, val: int)
    requires Sorted(v) && first <= mid < first + len <= |v|
    ensures v[mid] < val ==> (Within(v, first, len, val) <==> Within(v, mid + 1, first + len - mid - 1, val))
    ensures v[mid] > val ==> (Within(v, first, len, val) <==> Within(v, first, mid - first, val))
  {
    forall i | first <= i < first + len && v[i] == val ensures v[mid] < val ==> i > mid ensures v[mid] > val ==> i < mid {
      if i < mid { assert v[i] <= v[mid]; }
      if mid < i { assert v[mid] <= v[i]; }
    }
  }

  lemma {:induction false} NaiveDecidesMembership(v: seq<int>, first: nat, len: nat, val: int)
    requires Sorted(v) && first + len <= |v|
    ensures Naive(v, first, len, val) <==> Within(v, first, len, val)
    decreases len
  {
    if len > 0 {
      var half := len / 2;
      var mid := first + half;
      if v[mid] < val {
        NaiveDecidesMembership(v, mid + 1, len - half - 1, val);
        DropHalf(v, first, len, mid, val);
      } else if v[mid] > val {
        NaiveDecidesMembership(v, first, half, val);
        DropHalf(v, first, len, mid, val);
      }
    }
  }

  /** How many of the lookups the plain search finds. */
  function CountFound(v: seq<int>, keys: seq<int>): nat {
    if keys == [] then 0
    else CountFound(v, keys[..|keys| - 1]) + (if Naive(v, 0, |v|, keys[|keys| - 1]) then 1 else 0)
  }

  ghost function CountMembers(v: seq<int>, keys: seq<int>): nat {
    if keys == [] then 0 else CountMembers(v, keys[..|keys| - 1]) + (if keys[|keys| - 1] in v then 1 else 0)
  }

  lemma {:induction false} CountFoundIsMembership(v: seq<int>, keys: seq<int>)
    requires Sorted(v)
    ensures CountFound(v, keys) == CountMembers(v, keys)
  {
    if keys != [] {
      CountFoundIsMembership(v, keys[..|keys| - 1]);
      NaiveDecidesMembership(v, 0, |v|, keys[|keys| - 1]);
      assert Within(v, 0, |v|, keys[|keys| - 1]) <==> keys[|keys| - 1] in v;
    }
  }

  // ---------------------------------------------------------------------------
  // The state-machine frame
  // ---------------------------------------------------------------------------

  datatype FrameState = KEEP_GOING | FOUND | NOT_FOUND | EMPTY

  /** The fields of a frame. */
  datatype FrameView = FrameView(first: nat, middle: nat, len: nat, half: nat, val: int, state: FrameState)

  /** A frame in mid-search is about to probe the middle of what is left. */
  ghost predicate FrameOk(v: seq<int>, f: FrameView) {
    f.state.KEEP_GOING? ==>
      f.len > 0 && f.half == f.len / 2 && f.middle == f.first + f.half && f.first + f.len <= |v|
  }

  ghost predicate Live(f: FrameView) { f.state.KEEP_GOING? }

  /** Will this frame still report a find? */
  ghost predicate WillFind(v: seq<int>, f: FrameView)
    requires FrameOk(v, f)
  {
    Live(f) && Naive(v, f.first, f.len, f.val)
  }

  class Frame {
    var first: nat
    var middle: nat
    var len: nat
    var half: nat
    var val: int
    var state: FrameState

    ghost function View(): FrameView
      reads this
    {
      FrameView(first, middle, len, half, val, state)
    }

    constructor ()
      ensures View() == FrameView(0, 0, 0, 0, 0, EMPTY)
    {
      first, middle, len, half, val, state := 0, 0, 0, 0, 0, EMPTY;
    }

    method Init(v: seq<int>, key: int)
      modifies this
      ensures FrameOk(v, View()) && WillFind(v, View()) == Naive(v, 0, |v|, key)
      ensures (|v| == 0 ==> state == NOT_FOUND) && (|v| > 0 ==> state == KEEP_GOING && len == |v|)
    {
      val, first, len := key, 0, |v|;
      if len == 0 {
        state := NOT_FOUND;
        return;
      }
      half := len / 2;
      middle := first + half;
      state := KEEP_GOING;
    }

    method Run(v: seq<int>) returns (done: bool)
      requires FrameOk(v, View()) && Live(View())
      modifies this
      ensures FrameOk(v, View()) && done == !Live(View())
      ensures !done ==> 2 * len <= old(len) && len < old(len) && WillFind(v, View()) == old(WillFind(v, View()))
      ensures done ==> (state == FOUND <==> old(WillFind(v, View())))
    {
      var x := v[middle];
      if x < val {
        first := middle;
        first := first + 1;
        len := len - half - 1;
      } else {
        len := half;
      }
      if x == val {
        state := FOUND;
        return true;
      }
      if len > 0 {
        half := len / 2;
        middle := first + half;
        return false;
      }
      state := NOT_FOUND;
      return true;
    }
  }

  method SmBinarySearch(v: seq<int>, key: int) returns (r: bool)
    ensures r == Naive(v, 0, |v|, key)
  {
    var f := new Frame();
    f.Init(v, key);
    while f.state == KEEP_GOING
      invariant FrameOk(v, f.View())
      invariant Live(f.View()) ==> WillFind(v, f.View()) == Naive(v, 0, |v|, key)
      invariant !Live(f.View()) ==> (f.state == FOUND <==> Naive(v, 0, |v|, key))
      decreases Live(f.View()), f.len
    {
      var _ := f.Run(v);
    }
    return f.state == FOUND;
  }

  // ---------------------------------------------------------------------------
  // Many frames
  // ---------------------------------------------------------------------------

  ghost predicate AllOk(v: seq<int>, s: seq<FrameView>) { forall i | 0 <= i < |s| :: FrameOk(v, s[i]) }

  /** Finds still to be reported. */
  ghost function Pending(v: seq<int>, s: seq<FrameView>): nat
    requires AllOk(v, s)
  {
    if s == [] then 0 else Pending(v, s[..|s| - 1]) + (if WillFind(v, s[|s| - 1]) then 1 else 0)
  }

  ghost function LiveLen(f: FrameView): nat { if Live(f) then f.len else 0 }

  /** Entries still under search, over all live frames. */
  ghost function TotalLen(s: seq<FrameView>): nat {
    if s == [] then 0 else TotalLen(s[..|s| - 1]) + LiveLen(s[|s| - 1])
  }

  lemma {:induction false} PendingUpdate(v: seq<int>, s: seq<FrameView>, i: nat, f: FrameView)
    requires AllOk(v, s) && i < |s| && FrameOk(v, f)
    ensures AllOk(v, s[i := f])
    ensures Pending(v, s[i := f])
            == Pending(v, s) - (if WillFind(v, s[i]) then 1 else 0) + (if WillFind(v, f) then 1 else 0)
    ensures TotalLen(s[i := f]) == TotalLen(s) - LiveLen(s[i]) + LiveLen(f)
  {
    var t := s[i := f];
    if i == |s| - 1 {
      assert t[..|t| - 1] == s[..|s| - 1];
    } else {
      assert t[..|t| - 1] == s[..|s| - 1][i := f];
      PendingUpdate(v, s[..|s| - 1], i, f);
    }
  }

  lemma {:induction false} NonePending(v: seq<int>, s: seq<FrameView>)
    requires AllOk(v, s) && forall i | 0 <= i < |s| :: !Live(s[i])
    ensures Pending(v, s) == 0
  {
    if s != [] { NonePending(v, s[..|s| - 1]); }
  }
}
