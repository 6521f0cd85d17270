/** SmMultiLookup: one binary search per frame, the frames advanced round robin. */
module SmLookup {
  import opened Lookup

  /** Frames fill from the last to the first; once one is found live they all are. */
  ghost predicate Shape(v: seq<int>, s: seq<FrameView>, i: nat) {
    && i < |s|
    && (v == [] ==> forall j | 0 <= j < |s| :: !Live(s[j]))
    && (v != [] ==> AllLive(s)
                    || ((forall j | 0 <= j <= i :: !Live(s[j])) && (forall j | i < j < |s| :: Live(s[j]))))
  }

  ghost predicate AllLive(s: seq<FrameView>) { forall j | 0 <= j < |s| :: Live(s[j]) }
  ghost predicate OthersLive(s: seq<FrameView>, i: nat) { forall j | 0 <= j < |s| && j != i :: Live(s[j]) }
  ghost predicate NoneLive(s: seq<FrameView>) { forall j | 0 <= j < |s| :: !Live(s[j]) }

  ghost function Hit(v: seq<int>, key: int): nat { if Naive(v, 0, |v|, key) then 1 else 0 }

  lemma ShapeAfterInit(v: seq<int>, s: seq<FrameView>, i: nat, f: FrameView)
    requires Shape(v, s, i) && !Live(s[i]) && (Live(f) <==> v != [])
    ensures Shape(v, s[i := f], Previous(i, |s|))
  {}

  /** The frame visited next: `if (i == 0) i = N; else --i;`. */
  function Previous(i: nat, n: nat): (r: nat)
    requires i < n
    ensures r < n
  {
    if i == 0 then n - 1 else i - 1
  }

  /** The vector of frames for lookups in v; `views` mirrors the frames' fields. */
  class FrameVector {
    const v: seq<int>
    const f: seq<Frame>
    ghost var views: seq<FrameView>

    ghost predicate Valid()
      reads this, f
    {
      && |views| == |f| && (forall i, j | 0 <= i < j < |f| :: f[i] != f[j])
      && (forall i | 0 <= i < |f| :: f[i].View() == views[i])
      && AllOk(v, views)
    }

    constructor (v: seq<int>, streams: nat)
      ensures Valid() && fresh(f) && this.v == v && |f| == streams && NoneLive(views)
    {
      var fs: seq<Frame> := [];
      while |fs| < streams
        invariant |fs| <= streams && fresh(fs)
        invariant forall i, j | 0 <= i < j < |fs| :: fs[i] != fs[j]
        invariant forall j | 0 <= j < |fs| :: fs[j].View() == FrameView(0, 0, 0, 0, 0, EMPTY)
      {
        var fr := new Frame();
        fs := fs + [fr];
      }
      this.v := v;
      f := fs;
      views := seq(streams, i => FrameView(0, 0, 0, 0, 0, EMPTY));
    }

    /** Advance frame i by one probe; `hit` counts a find that this probe completed. */
    method RunAt(i: nat) returns (done: bool, hit: nat)
      requires Valid() && i < |f| && Live(views[i])
      modifies this, f
      ensures Valid() && views == old(views)[i := views[i]] && done == !Live(views[i])
      ensures !done ==> hit == 0
      ensures Pending(v, views) + hit == old(Pending(v, views))
      ensures TotalLen(views) < old(TotalLen(views))
    {
      done := f[i].Run(v);
      hit := if done && f[i].state == FOUND then 1 else 0;
      PendingUpdate(v, views, i, f[i].View());
      views := views[i := f[i].View()];
    }

    /** Start a new search in an idle frame. */
    method InitAt(i: nat, key: int)
      requires Valid() && i < |f| && !Live(views[i])
      modifies this, f
      ensures Valid() && views == old(views)[i := views[i]] && (Live(views[i]) <==> v != [])
      ensures Pending(v, views) == old(Pending(v, views)) + Hit(v, key)
    {
      f[i].Init(v, key);
      PendingUpdate(v, views, i, f[i].View());
      views := views[i := f[i].View()];
    }

    /** One turn of the loop over the lookups: find or make room for `key`, starting at frame `at`. */
    method Feed(at: nat, key: int) returns (i: nat, hits: nat)
      requires Valid() && Shape(v, views, at)
      modifies this, f
      ensures Valid() && Shape(v, views, i)
      ensures Pending(v, views) + hits == old(Pending(v, views)) + Hit(v, key)
    {
      assert f[at].View() == views[at];
      if f[at].state != KEEP_GOING {
        InitAt(at, key);
        ShapeAfterInit(v, old(views), at, views[at]);
        i, hits := Previous(at, |f|), 0;
      } else {
        i, hits := FeedBusy(at, key);
      }
    }

    /** The inner endless loop.  It is entered only with every frame live, and it ends because each
        probe shortens some frame's search. */
    method RunUntilDone(at: nat) returns (i: nat, hits: nat)
      requires Valid() && at < |f| && AllLive(views)
      modifies this, f
      ensures Valid() && i < |f| && !Live(views[i]) && OthersLive(views, i)
      ensures Pending(v, views) + hits == old(Pending(v, views))
    {
      i := at;
      var done;
      done, hits := RunAt(i);
      while !done
        invariant Valid() && i < |f| && done == !Live(views[i]) && OthersLive(views, i)
        invariant Pending(v, views) + hits == old(Pending(v, views)) && (!done ==> hits == 0)
        decreases TotalLen(views)
      {
        i := Previous(i, |f|);
        done, hits := RunAt(i);
      }
    }

    /** A finished frame takes the key. */
    method FeedBusy(at: nat, key: int) returns (i: nat, hits: nat)
      requires Valid() && at < |f| && v != [] && AllLive(views)
      modifies this, f
      ensures Valid() && i < |f| && AllLive(views)
      ensures Pending(v, views) + hits == old(Pending(v, views)) + Hit(v, key)
    {
      i, hits := RunUntilDone(at);
      InitAt(i, key);
      i := Previous(i, |f|);
    }

    /** One pass of the draining loop over all frames. */
    method DrainPass() returns (moreWork: bool, hits: nat)
      requires Valid()
      modifies this, f
      ensures Valid() && Pending(v, views) + hits == old(Pending(v, views))
      ensures moreWork ==> TotalLen(views) < old(TotalLen(views))
      ensures !moreWork ==> NoneLive(views)
    {
      moreWork, hits := false, 0;
      var j := 0;
      while j < |f|
        invariant 0 <= j <= |f| && Valid()
        invariant Pending(v, views) + hits == old(Pending(v, views))
        invariant if moreWork then TotalLen(views) < old(TotalLen(views)) else TotalLen(views) == old(TotalLen(views))
        invariant !moreWork ==> forall k | 0 <= k < j :: !Live(views[k])
      {
        assert f[j].View() == views[j];
        if f[j].state == KEEP_GOING {
          moreWork := true;
          var _, hit := RunAt(j);
          hits := hits + hit;
        }
        j := j + 1;
      }
    }

    /** The do-while loop after the last key. */
    method Drain() returns (hits: nat)
      requires Valid()
      modifies this, f
      ensures hits == old(Pending(v, views))
    {
      hits := 0;
      var moreWork := true;
      while moreWork
        invariant Valid() && Pending(v, views) + hits == old(Pending(v, views))
        invariant !moreWork ==> NoneLive(views)
        decreases moreWork, TotalLen(views)
      {
        var more;
        moreWork, more := DrainPass();
        hits := hits + more;
      }
      NonePending(v, views);
    }
  }

  /** For any vector and any number of streams the interleaved lookup finds exactly as many keys as
      looking each one up alone. */
  method SmMultiLookup(v: seq<int>, lookups: seq<int>, streams: nat) returns (result: nat)
    requires streams >= 1
    ensures result == CountFound(v, lookups)
  {
    var fs := new FrameVector(v, streams);
    var i: nat := streams - 1;
    result := 0;
    NonePending(v, fs.views);
    for k := 0 to |lookups|
      invariant fresh(fs) && fresh(fs.f) && fs.v == v && fs.Valid() && Shape(v, fs.views, i)
      invariant result + Pending(v, fs.views) == CountFound(v, lookups[..k])
    {
      var hits;
      i, hits := fs.Feed(i, lookups[k]);
      result := result + hits;
      assert lookups[..k + 1][..k] == lookups[..k];
    }
    assert lookups[..|lookups|] == lookups;
    var rest := fs.Drain();
    result := result + rest;
  }
}
