/** The bucketed hash set and its batched lookups. */
module HashMap {
  import opened Common

  /** i % n does not repeat within a window of n. */
  lemma WindowSlots(i: nat, t: nat, n: int)
    requires i < t < i + n
    ensures t % n != i % n
  {
    var d := t / n - i / n;
    assert t - i == n * d + (t % n - i % n);
    Multiples(n, d);
  }

  lemma SmallMod(t: nat, n: nat)
    requires t < n
    ensures t % n == t
  {}

  lemma WrapSlot(i: nat, n: int)
    requires n > 0
    ensures (i + n) % n == i % n
  {
    var d := (i + n) / n - i / n - 1;
    assert n * d == i % n - (i + n) % n;
    Multiples(n, d);
  }

  ghost predicate NoDuplicates<T>(s: seq<T>) { forall i, j | 0 <= i < j < |s| :: s[i] != s[j] }

  class FastHashMap<T(==)> {
    const hash: T -> nat
    const size: nat
    var buckets: seq<seq<T>>
    ghost var contents: set<T>

    function GetEntry(x: T): (e: nat)
      requires size > 0
      ensures e < size
    {
      hash(x) % size
    }

    /** A value is in the set exactly when it is in its own bucket, and no bucket holds it twice. */
    ghost predicate Valid()
      reads this
    {
      && size > 0 && |buckets| == size
      && (forall b | 0 <= b < size :: NoDuplicates(buckets[b]))
      && (forall b, i | 0 <= b < size && 0 <= i < |buckets[b]| :: hash(buckets[b][i]) % size == b && buckets[b][i] in contents)
      && (forall x | x in contents :: x in buckets[hash(x) % size])
    }

    constructor (size: nat, hash: T -> nat)
      requires size > 0
      ensures Valid() && contents == {} && this.size == size && this.hash == hash
    {
      this.size, this.hash := size, hash;
      buckets := seq(size, i => []);
      contents := {};
    }

    /** std::find in one bucket: the first position of x, or the end. */
    method FindIn(b: nat, x: T) returns (i: nat)
      requires Valid() && b < size
      ensures i <= |buckets[b]| && x !in buckets[b][..i] && (i < |buckets[b]| ==> buckets[b][i] == x)
    {
      i := 0;
      while i < |buckets[b]| && buckets[b][i] != x
        invariant i <= |buckets[b]| && x !in buckets[b][..i]
      {
        i := i + 1;
      }
    }

    method Find(x: T) returns (r: bool)
      requires Valid()
      ensures r <==> x in contents
    {
      var b := GetEntry(x);
      r := FindBucket(b, x);
    }

    /** A find in the bucket a value hashes to decides membership. */
    method FindBucket(b: nat, x: T) returns (r: bool)
      requires Valid() && b == GetEntry(x)
      ensures r <==> x in contents
    {
      var i := FindIn(b, x);
      r := i < |buckets[b]|;
      assert !r ==> buckets[b][..i] == buckets[b];
    }

    method Insert(x: T) returns (r: bool)
      requires Valid()
      modifies this
      ensures Valid() && (r <==> x !in old(contents)) && contents == old(contents) + {x}
      ensures var b := hash(x) % size; buckets == if r then old(buckets)[b := old(buckets[b]) + [x]] else old(buckets)
    {
      var b := GetEntry(x);
      var present := FindBucket(b, x);
      if present { return false; }
      buckets := buckets[b := buckets[b] + [x]];
      contents := contents + {x};
      return true;
    }

    /** Removal swaps the value with the bucket's last one and drops that. */
    method Remove(x: T) returns (r: bool)
      requires Valid()
      modifies this
      ensures Valid() && (r <==> x in old(contents)) && contents == old(contents) - {x}
      ensures var b := hash(x) % size;
              && buckets == old(buckets)[b := buckets[b]] && |buckets[b]| == old(|buckets[b]|) - (if r then 1 else 0)
              && forall i | 0 <= i < |buckets[b]| ::
                   buckets[b][i] == if old(buckets[b])[i] == x then old(buckets[b])[old(|buckets[b]|) - 1] else old(buckets[b])[i]
    {
      var b := GetEntry(x);
      var i := FindIn(b, x);
      var values := buckets[b];
      if i == |values| {
        assert values[..i] == values;
        return false;
      }
      SwapAndPop(values, i);
      buckets := buckets[b := values[i := values[|values| - 1]][..|values| - 1]];
      contents := contents - {x};
      return true;
    }

    method FindMultipleSimple(values: seq<T>) returns (result: array<bool>)
      requires Valid()
      ensures fresh(result) && result.Length == |values|
      ensures forall i | 0 <= i < |values| :: result[i] <==> values[i] in contents
    {
      result := new bool[|values|](i => false);
      for i := 0 to |values|
        invariant forall k | 0 <= k < i :: result[k] <==> values[k] in contents
      {
        result[i] := Find(values[i]);
      }
    }

    /** The look-ahead buffer holds the buckets of the next `lookAhead` values. */
    method FindMultipleInterleave(values: seq<T>, lookAhead: nat) returns (result: array<bool>)
      requires Valid() && 0 < lookAhead <= |values|
      ensures fresh(result) && result.Length == |values|
      ensures forall i | 0 <= i < |values| :: result[i] <==> values[i] in contents
    {
      result := new bool[|values|](i => false);
      var hashes := FillBuffer(values, lookAhead);
      var i := 0;
      while i < |values| - lookAhead
        invariant 0 <= i <= |values| - lookAhead && fresh(hashes) && hashes.Length == lookAhead
        invariant forall k | 0 <= k < i :: result[k] <==> values[k] in contents
        invariant Buffered(hashes, values, i)
      {
        var entry := hashes[i % lookAhead];
        result[i] := FindBucket(entry, values[i]);
        AdvanceBuffer(hashes, values, i);
        i := i + 1;
      }
      FindRest(values, result, |values| - lookAhead);
    }

    method FillBuffer(values: seq<T>, lookAhead: nat) returns (hashes: array<nat>)
      requires size > 0 && 0 < lookAhead <= |values|
      ensures fresh(hashes) && hashes.Length == lookAhead && Buffered(hashes, values, 0)
    {
      hashes := new nat[lookAhead];
      for i := 0 to lookAhead
        invariant forall k | 0 <= k < i :: hashes[k] == GetEntry(values[k])
      {
        hashes[i] := GetEntry(values[i]);
      }
      forall t | 0 <= t < lookAhead ensures t % lookAhead == t { SmallMod(t, lookAhead); }
    }

    /** The values from `from` on, one by one. */
    method FindRest(values: seq<T>, result: array<bool>, from: nat)
      requires Valid() && result.Length == |values| && from <= |values|
      requires forall i | 0 <= i < from :: result[i] <==> values[i] in contents
      modifies result
      ensures forall i | 0 <= i < |values| :: result[i] <==> values[i] in contents
    {
      for k := from to |values|
        invariant forall l | 0 <= l < k :: result[l] <==> values[l] in contents
      {
        result[k] := Find(values[k]);
      }
    }

    ghost predicate Buffered(hashes: array<nat>, values: seq<T>, i: nat)
      requires size > 0 && hashes.Length > 0
      reads hashes
    {
      forall t | i <= t < i + hashes.Length && t < |values| :: hashes[t % hashes.Length] == GetEntry(values[t])
    }

    /** Replace the bucket of value i, no longer needed, by that of value i + look-ahead. */
    method AdvanceBuffer(hashes: array<nat>, values: seq<T>, i: nat)
      requires size > 0 && hashes.Length > 0 && i + hashes.Length < |values| && Buffered(hashes, values, i)
      modifies hashes
      ensures Buffered(hashes, values, i + 1)
    {
      var j := i + hashes.Length;
      WrapSlot(i, hashes.Length);
      hashes[j % hashes.Length] := GetEntry(values[j]);
      forall t | i + 1 <= t < j ensures t % hashes.Length != j % hashes.Length {
        WindowSlots(i, t, hashes.Length);
      }
    }

    /** Whole batches through the buffer, the remainder one by one. */
    method FindMultipleBatch(values: seq<T>, lookAhead: nat) returns (result: array<bool>)
      requires Valid() && lookAhead > 0
      ensures fresh(result) && result.Length == |values|
      ensures forall i | 0 <= i < |values| :: result[i] <==> values[i] in contents
    {
      result := new bool[|values|](i => false);
      var hashes := new nat[lookAhead];
      var len := (|values| / lookAhead) * lookAhead;
      var i, batches := 0, |values| / lookAhead;
      ghost var done := 0;
      while i < len
        invariant 0 <= done <= batches && i == done * lookAhead <= len
        invariant forall k | 0 <= k < i :: result[k] <==> values[k] in contents
      {
        assert (done + 1) * lookAhead <= batches * lookAhead by { BatchFits(done, batches, lookAhead); }
        OneBatch(values, hashes, result, i);
        i := i + lookAhead;
        done := done + 1;
      }
      FindRest(values, result, len);
    }

    /** Fill the buffer for one batch, then search it. */
    method OneBatch(values: seq<T>, hashes: array<nat>, result: array<bool>, i: nat)
      requires Valid() && result.Length == |values| && i + hashes.Length <= |values|
      modifies hashes, result
      ensures forall k | 0 <= k < i :: result[k] == old(result[k])
      ensures forall k | i <= k < i + hashes.Length :: result[k] <==> values[k] in contents
    {
      var n := hashes.Length;
      for k := 0 to n
        invariant forall l | 0 <= l < |values| :: result[l] == old(result[l])
        invariant forall l | 0 <= l < k :: hashes[l] == GetEntry(values[i + l])
      {
        hashes[k] := GetEntry(values[i + k]);
      }
      for k := 0 to n
        invariant forall l | 0 <= l < i :: result[l] == old(result[l])
        invariant forall l | 0 <= l < n :: hashes[l] == GetEntry(values[i + l])
        invariant forall l | i <= l < i + k :: result[l] <==> values[l] in contents
      {
        result[i + k] := FindBucket(hashes[k], values[i + k]);
      }
    }
  }

  lemma BatchFits(done: nat, batches: nat, n: nat)
    requires done * n < batches * n
    ensures (done + 1) * n <= batches * n
  {
    var d := batches - done;
    assert batches * n == done * n + d * n;
    assert d > 0;
    assert batches * n == (done + 1) * n + (d - 1) * n;
  }

  /** Swap-and-pop drops exactly the chosen element. */
  lemma SwapAndPop<T>(s: seq<T>, i: nat)
    requires NoDuplicates(s) && i < |s|
    ensures var r := s[i := s[|s| - 1]][..|s| - 1];
            NoDuplicates(r) && forall x :: x in r <==> x in s && x != s[i]
  {
    var n := |s| - 1;
    var r := s[i := s[n]][..n];
    forall x ensures x in r <==> x in s && x != s[i] {
      if x in s && x != s[i] {
        var k :| 0 <= k < |s| && s[k] == x;
        assert r[if k == n then i else k] == x;
      }
    }
  }
}
