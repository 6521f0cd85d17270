/** The binary logs: what the generators write and what the packed structs read back.

    A log is a 4-byte entry count followed by fixed-size records, all little-endian.  Stages walk it by
    the record size that each call returns. */
module LogRecords {
  import opened Common

  type Bytes = seq<nat>

  // ---------------------------------------------------------------------------
  // Little-endian integers
  // ---------------------------------------------------------------------------

  function Pow256(n: nat): (r: nat)
    ensures r > 0
  {
    if n == 0 then 1 else 256 * Pow256(n - 1)
  }

  function LittleEndian(x: nat, n: nat): (r: Bytes)
    ensures |r| == n
  {
    if n == 0 then [] else [x % 256] + LittleEndian(x / 256, n - 1)
  }

  function FromLittleEndian(bs: Bytes): nat {
    if bs == [] then 0 else bs[0] + 256 * FromLittleEndian(bs[1..])
  }

  lemma {:induction false} IntegerRoundTrip(x: nat, n: nat)
    requires x < Pow256(n)
    ensures FromLittleEndian(LittleEndian(x, n)) == x
  {
    if n > 0 {
      IntegerRoundTrip(x / 256, n - 1);
      assert LittleEndian(x, n)[1..] == LittleEndian(x / 256, n - 1);
    }
  }

  /** Byte i is the integer shifted right by 8 * i bits, cut to eight. */
  lemma {:induction false} ByteOf(x: nat, n: nat, i: nat)
    requires i < n
    ensures LittleEndian(x, n)[i] == x / Pow256(i) % 256
  {
    if i > 0 {
      ByteOf(x / 256, n - 1, i - 1);
      DivideTwice(x, 256, Pow256(i - 1));
    }
  }

  lemma PowValues()
    ensures Pow256(2) == 0x1_0000 && Pow256(4) == TWO32
  {
    assert Pow256(1) == 256;
    assert Pow256(2) == 256 * Pow256(1);
    assert Pow256(3) == 256 * Pow256(2);
    assert Pow256(4) == 256 * Pow256(3);
  }

  /** A field of a packed struct. */
  function Field(bs: Bytes, offset: nat, n: nat): nat
    requires offset + n <= |bs|
  {
    FromLittleEndian(bs[offset..offset + n])
  }

  function Zeros(n: nat): (r: Bytes)
    ensures |r| == n && forall i | 0 <= i < n :: r[i] == 0
  {
    seq(n, i => 0)
  }

  lemma {:induction false} ZeroField(bs: Bytes)
    requires forall i | 0 <= i < |bs| :: bs[i] == 0
    ensures FromLittleEndian(bs) == 0
  {
    if bs != [] { ZeroField(bs[1..]); }
  }

  // ---------------------------------------------------------------------------
  // Runs of 32-bit words
  // ---------------------------------------------------------------------------

  function WordBytes(ws: seq<nat>): (r: Bytes)
    ensures |r| == 4 * |ws|
  {
    if ws == [] then [] else WordBytes(ws[..|ws| - 1]) + LittleEndian(ws[|ws| - 1], 4)
  }

  lemma {:induction false} WordBytesConcat(a: seq<nat>, b: seq<nat>)
    ensures WordBytes(a + b) == WordBytes(a) + WordBytes(b)
  {
    if b == [] {
      assert a + b == a;
    } else {
      var rest, last := b[..|b| - 1], b[|b| - 1];
      assert (a + b)[..|a + b| - 1] == a + rest && (a + b)[|a + b| - 1] == last;
      WordBytesConcat(a, rest);
      assert (WordBytes(a) + WordBytes(rest)) + LittleEndian(last, 4) == WordBytes(a) + (WordBytes(rest) + LittleEndian(last, 4));
    }
  }

  lemma {:induction false} WordAt(ws: seq<nat>, j: nat)
    requires j < |ws|
    ensures WordBytes(ws)[4 * j..4 * j + 4] == LittleEndian(ws[j], 4)
  {
    var n := |ws| - 1;
    if j < n {
      WordAt(ws[..n], j);
      assert WordBytes(ws)[4 * j..4 * j + 4] == WordBytes(ws[..n])[4 * j..4 * j + 4];
    }
  }

  /** Reading word j back, wherever in a record the run of words starts. */
  lemma WordField(bs: Bytes, at: nat, ws: seq<nat>, j: nat)
    requires at + 4 * |ws| <= |bs| && bs[at..at + 4 * |ws|] == WordBytes(ws)
    requires j < |ws| && ws[j] < TWO32
    ensures Field(bs, at + 4 * j, 4) == ws[j]
  {
    var run, i, x := WordBytes(ws), 4 * j, ws[j];
    assert run[i..i + 4] == LittleEndian(x, 4) by { WordAt(ws, j); }
    assert i + 4 <= |run|;
    FieldInside(bs, at, run, i, x);
  }

  lemma FieldInside(bs: Bytes, at: nat, run: Bytes, i: nat, x: nat)
    requires at + |run| <= |bs| && bs[at..at + |run|] == run
    requires i + 4 <= |run| && run[i..i + 4] == LittleEndian(x, 4) && x < TWO32
    ensures Field(bs, at + i, 4) == x
  {
    SubSlice(bs, at, |run|, i, 4);
    FieldIsWord(bs, at + i, x);
  }

  lemma SubSlice(bs: Bytes, at: nat, len: nat, i: nat, n: nat)
    requires at + len <= |bs| && i + n <= len
    ensures bs[at..at + len][i..i + n] == bs[at + i..at + i + n]
  {
    var a, b := bs[at..at + len][i..i + n], bs[at + i..at + i + n];
    forall k | 0 <= k < n ensures a[k] == b[k] {
      assert a[k] == bs[at..at + len][i + k];
    }
  }

  lemma FieldIsWord(bs: Bytes, at: nat, x: nat)
    requires at + 4 <= |bs| && bs[at..at + 4] == LittleEndian(x, 4) && x < TWO32
    ensures Field(bs, at, 4) == x
  {
    PowValues();
    IntegerRoundTrip(x, 4);
  }

  // ---------------------------------------------------------------------------
  // YCSB records
  // ---------------------------------------------------------------------------

  const ROW_PER_TX := 10
  const YCSB_SIZE := 128

  /** gen_bin_txn: ten keys byte by byte, the write set, 86 bytes of padding. */
  function YcsbRecord(keys: seq<nat>, writeSet: nat): Bytes {
    WordBytes(keys) + LittleEndian(writeSet, 2) + Zeros(86)
  }

  method GenBinTxn(keys: seq<nat>, writeSet: nat) returns (out: Bytes)
    requires |keys| == ROW_PER_TX
    ensures out == YcsbRecord(keys, writeSet) && |out| == YCSB_SIZE
  {
    out := [];
    for k := 0 to |keys|
      invariant out == WordBytes(keys[..k])
    {
      assert keys[..k + 1][..k] == keys[..k];
      var word := PackWord(keys[k]);
      out := out + word;
    }
    assert keys[..|keys|] == keys;
    out := out + [writeSet % 256, writeSet / 256 % 256];
    assert LittleEndian(writeSet, 2) == [writeSet % 256] + LittleEndian(writeSet / 256, 1);
    for i := 0 to 86
      invariant out == WordBytes(keys) + LittleEndian(writeSet, 2) + Zeros(i)
    {
      assert Zeros(i + 1) == Zeros(i) + [0];
      out := out + [0];
    }
  }

  /** The bytes of a 32-bit word, by shifting. */
  method PackWord(x: nat) returns (out: Bytes)
    ensures out == LittleEndian(x, 4)
  {
    out := [];
    var rest := x;
    for i := 0 to 4
      invariant LittleEndian(x, 4) == out + LittleEndian(rest, 4 - i)
    {
      out := out + [rest % 256];
      rest := rest / 256;
    }
  }

  /** YCSBTransactionMarshalled reads the ten indices and the write set that were written. */
  lemma YcsbRoundTrip(keys: seq<nat>, writeSet: nat, i: nat)
    requires |keys| == ROW_PER_TX && i < ROW_PER_TX && keys[i] < TWO32 && writeSet < 0x1_0000
    ensures var r := YcsbRecord(keys, writeSet);
            |r| == YCSB_SIZE && Field(r, 4 * i, 4) == keys[i] && Field(r, 40, 2) == writeSet
  {
    var r := YcsbRecord(keys, writeSet);
    assert r[0..40] == WordBytes(keys);
    WordField(r, 0, keys, i);
    assert r[40..42] == LittleEndian(writeSet, 2);
    PowValues();
    IntegerRoundTrip(writeSet, 2);
  }

  // ---------------------------------------------------------------------------
  // TPC-C records
  // ---------------------------------------------------------------------------

  const TPCC_SIZE := 576
  const PARAMS := 65

  /** The parameter dictionary of the generator. */
  datatype Params = Params(w_id: nat, d_id: nat, c_id: nat, ol_cnt: nat, o_entry_d: nat,
                           i_ids: seq<nat>, i_w_ids: seq<nat>, i_qtys: seq<nat>,
                           h_amount: nat, c_w_id: nat, c_d_id: nat, h_date: nat)

  /** Fifteen slots, zero-filled; a longer list is cut off. */
  function Slots15(xs: seq<nat>): (r: seq<nat>)
    ensures |r| == 15 && forall i | 0 <= i < 15 :: r[i] == if i < |xs| then xs[i] else 0
  {
    seq(15, i requires 0 <= i < 15 => if i < |xs| then xs[i] else 0)
  }

  function PaymentWords(p: Params): seq<nat> {
    [p.h_amount % TWO32, p.h_amount / TWO32, p.c_w_id, p.c_d_id, 0, p.h_date]
  }

  /** The 32-bit words that generate_struct packs after the type byte.  The payment amount is packed as a
      64-bit quantity, so it takes two words and moves what follows up by one slot. */
  function TpccWords(kind: nat, p: Params): (r: seq<nat>)
    ensures |r| == if kind == 1 then 58 else 52
  {
    [p.w_id, p.d_id, p.c_id, p.ol_cnt, p.o_entry_d] + Slots15(p.i_ids) + Slots15(p.i_w_ids) + Slots15(p.i_qtys)
    + [|p.i_ids|, |p.i_ids|]
    + (if kind == 1 then PaymentWords(p) else [])
  }

  function TpccRecord(kind: nat, ws: seq<nat>): (r: Bytes)
    requires 1 + 4 * |ws| <= TPCC_SIZE
    ensures |r| == TPCC_SIZE
  {
    [kind] + WordBytes(ws) + Zeros(TPCC_SIZE - 1 - 4 * |ws|)
  }

  ghost predicate Fits(ws: seq<nat>) { forall i | 0 <= i < |ws| :: ws[i] < TWO32 }

  /** pack('I', x) for each x; struct.error on a value that does not fit. */
  method PackAll(out0: Bytes, xs: seq<nat>) returns (out: Option<Bytes>)
    ensures out == if Fits(xs) then Some(out0 + WordBytes(xs)) else None
  {
    var acc := out0;
    for i := 0 to |xs|
      invariant Fits(xs[..i]) && acc == out0 + WordBytes(xs[..i])
    {
      if xs[i] >= TWO32 { return None; }
      assert xs[..i + 1][..i] == xs[..i];
      acc := acc + LittleEndian(xs[i], 4);
    }
    assert xs[..|xs|] == xs;
    return Some(acc);
  }

  /** One of the three fifteen-slot loops. */
  method PackSlots(out0: Bytes, xs: seq<nat>) returns (out: Option<Bytes>)
    ensures out == if Fits(Slots15(xs)) then Some(out0 + WordBytes(Slots15(xs))) else None
  {
    var slots := [];
    for i := 0 to 15
      invariant slots == Slots15(xs)[..i]
    {
      slots := slots + [if i < |xs| then xs[i] else 0];
    }
    assert slots == Slots15(xs);
    out := PackAll(out0, slots);
  }

  /** Packing a 64-bit quantity is packing its low and high words. */
  lemma PackQuad(x: nat)
    ensures LittleEndian(x, 8) == WordBytes([x % TWO32, x / TWO32])
  {
    var low, high := x % TWO32, x / TWO32;
    PowValues();
    SplitBytes(x, 4, high, low);
    assert [low, high][..1] == [low] && [low][..0] == [];
    assert WordBytes([low]) == [] + LittleEndian(low, 4);
    assert WordBytes([low, high]) == WordBytes([low]) + LittleEndian(high, 4);
  }

  lemma SplitByte(x: nat, p: nat, q: nat, r: nat)
    requires x == 256 * p * q + r
    ensures x / 256 == p * q + r / 256 && x % 256 == r % 256
  {
    assert x == 256 * (p * q + r / 256) + r % 256;
  }

  /** The low n bytes of an integer are those of its remainder, the next four those of its quotient. */
  lemma {:induction false} SplitBytes(x: nat, n: nat, q: nat, r: nat)
    requires x == Pow256(n) * q + r && r < Pow256(n)
    ensures LittleEndian(x, n + 4) == LittleEndian(r, n) + LittleEndian(q, 4)
  {
    if n > 0 {
      var p := Pow256(n - 1);
      SplitByte(x, p, q, r);
      SplitBytes(x / 256, n - 1, q, r / 256);
      assert LittleEndian(x, n + 4) == [x % 256] + LittleEndian(x / 256, n + 3);
      assert LittleEndian(r, n) == [r % 256] + LittleEndian(r / 256, n - 1);
    }
  }

  /** The part of generate_struct that every record has: 52 words after the type byte. */
  method PackCommon(kind: nat, p: Params) returns (out: Option<Bytes>)
    ensures out == if Fits(TpccWords(0, p)) then Some([kind] + WordBytes(TpccWords(0, p))) else None
  {
    CommonWords(p);
    out := PackAll([kind], [p.w_id, p.d_id, p.c_id, p.ol_cnt, p.o_entry_d]);
    if out.None? { return; }
    out := PackSlots(out.value, p.i_ids);
    if out.None? { return; }
    out := PackSlots(out.value, p.i_w_ids);
    if out.None? { return; }
    out := PackSlots(out.value, p.i_qtys);
    if out.None? { return; }
    assert |out.value| == 50 * 4 + 1;
    out := PackAll(out.value, [|p.i_ids|, |p.i_ids|]);
    if out.Some? { assert out.value == [kind] + WordBytes(TpccWords(0, p)); }
  }

  /** The six words a payment adds. */
  method PackPayment(out0: Bytes, p: Params) returns (out: Option<Bytes>)
    ensures out == if Fits(PaymentWords(p)) then Some(out0 + WordBytes(PaymentWords(p))) else None
  {
    var quad := [p.h_amount % TWO32, p.h_amount / TWO32];
    var rest := [p.c_w_id, p.c_d_id, 0, p.h_date];
    assert PaymentWords(p) == quad + rest;
    WordBytesConcat(quad, rest);
    FitsConcat(quad, rest);
    PackQuad(p.h_amount);
    assert Fits(quad) <==> p.h_amount < TWO32 * TWO32;
    if p.h_amount >= TWO32 * TWO32 { return None; }
    out := PackAll(out0 + LittleEndian(p.h_amount, 8), rest);
    if out.Some? { assert out.value == out0 + WordBytes(PaymentWords(p)); }
  }

  /** generate_struct: the record, or the exception that pack raises on a value out of range. */
  method GenerateStruct(kind: nat, p: Params) returns (out: Option<Bytes>)
    requires kind < 256
    ensures out == if Fits(TpccWords(kind, p)) then Some(TpccRecord(kind, TpccWords(kind, p))) else None
  {
    ghost var ws := TpccWords(kind, p);
    out := PackCommon(kind, p);
    if kind == 1 {
      WordBytesConcat(TpccWords(0, p), PaymentWords(p));
      FitsConcat(TpccWords(0, p), PaymentWords(p));
      assert ws == TpccWords(0, p) + PaymentWords(p);
    } else {
      assert ws == TpccWords(0, p);
    }
    if out.None? { return; }
    if kind == 1 {
      out := PackPayment(out.value, p);
      if out.None? { return; }
    }
    assert out.value == [kind] + WordBytes(ws);
    var bytes := PadTo(out.value, TPCC_SIZE);
    out := Some(bytes);
  }

  method PadTo(bytes0: Bytes, size: nat) returns (bytes: Bytes)
    requires |bytes0| <= size
    ensures bytes == bytes0 + Zeros(size - |bytes0|)
  {
    bytes := bytes0;
    for i := 0 to size - |bytes0|
      invariant bytes == bytes0 + Zeros(i)
    {
      assert Zeros(i + 1) == Zeros(i) + [0];
      bytes := bytes + [0];
    }
  }

  /** The common words piece by piece, as they are packed. */
  lemma CommonWords(p: Params)
    ensures var head := [p.w_id, p.d_id, p.c_id, p.ol_cnt, p.o_entry_d];
            var counts := [|p.i_ids|, |p.i_ids|];
            && WordBytes(TpccWords(0, p))
               == WordBytes(head) + WordBytes(Slots15(p.i_ids)) + WordBytes(Slots15(p.i_w_ids))
                  + WordBytes(Slots15(p.i_qtys)) + WordBytes(counts)
            && (Fits(TpccWords(0, p)) <==>
                  Fits(head) && Fits(Slots15(p.i_ids)) && Fits(Slots15(p.i_w_ids)) && Fits(Slots15(p.i_qtys)) && Fits(counts))
  {
    var head := [p.w_id, p.d_id, p.c_id, p.ol_cnt, p.o_entry_d];
    var counts := [|p.i_ids|, |p.i_ids|];
    var a := head + Slots15(p.i_ids);
    var b := a + Slots15(p.i_w_ids);
    var c := b + Slots15(p.i_qtys);
    assert TpccWords(0, p) == c + counts;
    WordBytesConcat(c, counts);
    WordBytesConcat(b, Slots15(p.i_qtys));
    WordBytesConcat(a, Slots15(p.i_w_ids));
    WordBytesConcat(head, Slots15(p.i_ids));
    FitsConcat(c, counts);
    FitsConcat(b, Slots15(p.i_qtys));
    FitsConcat(a, Slots15(p.i_w_ids));
    FitsConcat(head, Slots15(p.i_ids));
  }

  lemma FitsConcat(a: seq<nat>, b: seq<nat>)
    ensures Fits(a + b) <==> Fits(a) && Fits(b)
  {
    assert forall i | 0 <= i < |a| :: a[i] == (a + b)[i];
    assert forall i | 0 <= i < |b| :: b[i] == (a + b)[|a| + i];
  }

  /** params[j] of TPCCTransactionMarshalled. */
  function Param(record: Bytes, j: nat): nat
    requires |record| == TPCC_SIZE && j < PARAMS
  {
    Field(record, 1 + 4 * j, 4)
  }

  /** The struct reads back every word, and zero where none was written. */
  lemma ParamRoundTrip(kind: nat, ws: seq<nat>, j: nat)
    requires |ws| <= PARAMS && Fits(ws) && j < PARAMS
    ensures Param(TpccRecord(kind, ws), j) == if j < |ws| then ws[j] else 0
  {
    var r, end := TpccRecord(kind, ws), 1 + 4 * |ws|;
    if j < |ws| {
      assert r[1..end] == WordBytes(ws);
      WordField(r, 1, ws, j);
    } else {
      assert forall i | end <= i < TPCC_SIZE :: r[i] == 0;
      ZeroField(r[1 + 4 * j..1 + 4 * j + 4]);
    }
  }

  /** What the transaction code reads back from a generated record, for any values that fit: the ids, the
      items, quantities and supply warehouses, the item count in both count slots, and the amount, which is
      zero for a NewOrder and the low word of h_amount for a Payment. */
  lemma TpccRoundTrip(kind: nat, p: Params, i: nat)
    requires kind <= 1 && Fits(TpccWords(kind, p)) && i < 15
    ensures var r := TpccRecord(kind, TpccWords(kind, p));
            && r[0] == kind
            && Param(r, 0) == p.w_id && Param(r, 1) == p.d_id && Param(r, 2) == p.c_id
            && Param(r, 3) == p.ol_cnt && Param(r, 4) == p.o_entry_d
            && Param(r, 5 + i) == (if i < |p.i_ids| then p.i_ids[i] else 0)
            && Param(r, 20 + i) == (if i < |p.i_w_ids| then p.i_w_ids[i] else 0)
            && Param(r, 35 + i) == (if i < |p.i_qtys| then p.i_qtys[i] else 0)
            && Param(r, 50) == Param(r, 51) == |p.i_ids|
            && Param(r, 52) == (if kind == 1 then p.h_amount % TWO32 else 0)
  {
    var ws := TpccWords(kind, p);
    ParamRoundTrip(kind, ws, 0);
    ParamRoundTrip(kind, ws, 1);
    ParamRoundTrip(kind, ws, 2);
    ParamRoundTrip(kind, ws, 3);
    ParamRoundTrip(kind, ws, 4);
    ParamRoundTrip(kind, ws, 5 + i);
    ParamRoundTrip(kind, ws, 20 + i);
    ParamRoundTrip(kind, ws, 35 + i);
    ParamRoundTrip(kind, ws, 50);
    ParamRoundTrip(kind, ws, 51);
    ParamRoundTrip(kind, ws, 52);
  }

  /** The comment on the record lists c_w_id, c_d_id, c_last and h_date in slots 53 to 56.  Because the amount
      takes two words, the writer puts them in 54 to 57, and slot 53 reads the amount's high word. */
  lemma PaymentSlotsAreShifted(p: Params)
    requires Fits(TpccWords(1, p))
    ensures var r := TpccRecord(1, TpccWords(1, p));
            && Param(r, 53) == p.h_amount / TWO32
            && Param(r, 54) == p.c_w_id && Param(r, 55) == p.c_d_id && Param(r, 56) == 0 && Param(r, 57) == p.h_date
  {
    var ws := TpccWords(1, p);
    ParamRoundTrip(1, ws, 53);
    ParamRoundTrip(1, ws, 54);
    ParamRoundTrip(1, ws, 55);
    ParamRoundTrip(1, ws, 56);
    ParamRoundTrip(1, ws, 57);
  }

  // ---------------------------------------------------------------------------
  // Whole logs
  // ---------------------------------------------------------------------------

  function Concat(records: seq<Bytes>): Bytes {
    if records == [] then [] else Concat(records[..|records| - 1]) + records[|records| - 1]
  }

  function LogFile(records: seq<Bytes>): Bytes { LittleEndian(|records|, 4) + Concat(records) }

  lemma {:induction false} ConcatLength(records: seq<Bytes>, size: nat)
    requires forall i | 0 <= i < |records| :: |records[i]| == size
    ensures |Concat(records)| == |records| * size
  {
    if records != [] {
      ConcatLength(records[..|records| - 1], size);
      assert |records| * size == (|records| - 1) * size + size;
    }
  }

  lemma {:induction false} RecordAt(records: seq<Bytes>, size: nat, k: nat)
    requires (forall i | 0 <= i < |records| :: |records[i]| == size) && k < |records|
    ensures k * size + size <= |Concat(records)| && Concat(records)[k * size..k * size + size] == records[k]
  {
    var n := |records| - 1;
    var before := records[..n];
    ConcatLength(records, size);
    ConcatLength(before, size);
    if k < n {
      RecordAt(before, size, k);
      PrefixSlice(Concat(before), records[n], k * size, size);
    } else {
      assert Concat(records) == Concat(before) + records[n];
      SuffixSlice(Concat(before), records[n]);
    }
  }

  lemma PrefixSlice(a: Bytes, b: Bytes, i: nat, n: nat)
    requires i + n <= |a|
    ensures (a + b)[i..i + n] == a[i..i + n]
  {
    var x, y := (a + b)[i..i + n], a[i..i + n];
    assert forall k | 0 <= k < n :: x[k] == y[k];
  }

  lemma SuffixSlice(a: Bytes, b: Bytes)
    ensures (a + b)[|a|..|a| + |b|] == b
  {
    var x := (a + b)[|a|..|a| + |b|];
    assert forall k | 0 <= k < |b| :: x[k] == b[k];
  }

  /** Position of the read head after k records, moving by the size each call returns. */
  function ReadHead(size: nat, k: nat): nat { if k == 0 then 4 else ReadHead(size, k - 1) + size }

  lemma {:induction false} ReadHeadValue(size: nat, k: nat)
    ensures ReadHead(size, k) == 4 + k * size
  {
    if k > 0 {
      ReadHeadValue(size, k - 1);
      assert k * size == (k - 1) * size + size;
    }
  }

  /** Walking the file by record size finds every record that was written, and the header its count. */
  lemma LogWalk(records: seq<Bytes>, size: nat, k: nat)
    requires (forall i | 0 <= i < |records| :: |records[i]| == size) && k < |records| < TWO32
    ensures var f := LogFile(records); var at := ReadHead(size, k);
            && 4 <= |f| && Field(f, 0, 4) == |records|
            && at + size <= |f| && f[at..at + size] == records[k]
  {
    var f, body := LogFile(records), Concat(records);
    FieldIsWord(f, 0, |records|);
    RecordAt(records, size, k);
    ReadHeadValue(size, k);
    var at := ReadHead(size, k);
    assert f[4..] == body;
    assert |f| == 4 + |body|;
    ShiftSlice(LittleEndian(|records|, 4), body, k * size, size);
  }

  lemma ShiftSlice(a: Bytes, b: Bytes, i: nat, n: nat)
    requires i + n <= |b|
    ensures (a + b)[|a| + i..|a| + i + n] == b[i..i + n]
  {
    var x, y := (a + b)[|a| + i..|a| + i + n], b[i..i + n];
    assert forall k | 0 <= k < n :: x[k] == y[k];
  }

  // ---------------------------------------------------------------------------
  // gen_keys
  // ---------------------------------------------------------------------------

  const ROW_COUNT := 10_000_000
  const CONTENTION_STRIDE := 131_072  // 1 << nr_lsb, nr_lsb = 63 - clzll(ROW_COUNT) - 6 = 17

  ghost predicate GoodKey(key: nat, i: nat, contention: bool) {
    key < ROW_COUNT && (if contention && i < 7 then key % CONTENTION_STRIDE == 0 else key % CONTENTION_STRIDE != 0)
  }

  /** The key that a draw would give slot i: the draw modulo ten million, and for the first seven slots under
      contention with its low 17 bits cleared. */
  ghost function Candidate(draw: nat, i: nat, contention: bool): nat {
    var key := draw % 10_000_000;
    if contention && i < 7 then key / 131_072 * 131_072 else key
  }

  /** A draw that slot i does not take: a repetition, or an uncontended key whose low 17 bits are clear. */
  ghost predicate Retried(draw: nat, keys: seq<nat>, i: nat, contention: bool)
    requires i <= |keys|
  {
    var key := Candidate(draw, i, contention);
    key in keys[..i] || (!(contention && i < 7) && key % 131_072 == 0)
  }

  /** Slot i took draw at[i], after retrying exactly those since the slot before it. */
  ghost predicate Took(draws: seq<nat>, at: seq<nat>, keys: seq<nat>, i: nat, contention: bool)
    requires i < |at| == |keys|
  {
    var from := if i == 0 then 0 else at[i - 1] + 1;
    && from <= at[i] < |draws| && keys[i] == Candidate(draws[at[i]], i, contention) && !Retried(draws[at[i]], keys, i, contention)
    && forall p | from <= p < at[i] :: Retried(draws[p], keys, i, contention)
  }

  lemma TakeDraw(draws: seq<nat>, at: seq<nat>, keys: seq<nat>, contention: bool, n: nat, key: nat)
    requires |at| == |keys| && (forall i: nat | i < |keys| :: Took(draws, at, keys, i, contention))
    requires var from := if |at| == 0 then 0 else at[|at| - 1] + 1;
             from <= n < |draws| && forall p | from <= p < n :: Retried(draws[p], keys, |keys|, contention)
    requires key == Candidate(draws[n], |keys|, contention) && !Retried(draws[n], keys, |keys|, contention)
    ensures forall i: nat | i < |keys| + 1 :: Took(draws, at + [n], keys + [key], i, contention)
  {
    forall i: nat | i < |keys| + 1 ensures Took(draws, at + [n], keys + [key], i, contention) {
      assert (keys + [key])[..i] == keys[..i];
      if i < |keys| { assert Took(draws, at, keys, i, contention); }
    }
  }

  /** The retry loop over an arbitrary stream of random draws; None if the draws run out first.  The keys are
      the draws at the returned positions, everything between was retried, and the ten are distinct. */
  method GenKeys(draws: seq<nat>, contention: bool) returns (keys: Option<seq<nat>>, ghost at: seq<nat>, ghost got: seq<nat>)
    ensures |at| == |got| && (forall i: nat | i < |got| :: Took(draws, at, got, i, contention))
    ensures if |got| == 10 then keys == Some(got)
            else keys.None? && |got| < 10
                 && forall p | (if |at| == 0 then 0 else at[|at| - 1] + 1) <= p < |draws| :: Retried(draws[p], got, |got|, contention)
    ensures keys.Some? ==> |keys.value| == ROW_PER_TX
    ensures keys.Some? ==> forall i, j | 0 <= i < j < ROW_PER_TX :: keys.value[i] != keys.value[j]
    ensures keys.Some? ==> forall i | 0 <= i < ROW_PER_TX :: GoodKey(keys.value[i], i, contention)
  {
    var ks: seq<nat> := [];
    var n := 0;
    at, got := [], [];
    while |ks| < ROW_PER_TX
      invariant n <= |draws| && |ks| <= ROW_PER_TX && got == ks && |at| == |ks|
      invariant forall i, j | 0 <= i < j < |ks| :: ks[i] != ks[j]
      invariant forall i | 0 <= i < |ks| :: GoodKey(ks[i], i, contention)
      invariant forall i: nat | i < |ks| :: Took(draws, at, ks, i, contention)
      invariant (if |at| == 0 then 0 else at[|at| - 1] + 1) <= n
      invariant forall p | (if |at| == 0 then 0 else at[|at| - 1] + 1) <= p < n :: Retried(draws[p], ks, |ks|, contention)
      decreases |draws| - n
    {
      if n == |draws| { return None, at, got; }
      var key := draws[n] % ROW_COUNT;
      n := n + 1;
      if contention && |ks| < 7 {
        key := key - key % CONTENTION_STRIDE;
      } else if key % CONTENTION_STRIDE == 0 {
        assert Retried(draws[n - 1], ks, |ks|, contention);
        continue;
      }
      assert ks[..|ks|] == ks && key == Candidate(draws[n - 1], |ks|, contention);
      if key !in ks {
        TakeDraw(draws, at, ks, contention, n - 1, key);
        ks, at := ks + [key], at + [n - 1];
        got := ks;
      }
    }
    return Some(ks), at, got;
  }
}
