/** Bit fields in message buffers: singleApi/byte.c, singleApi/protocol_data.c and `extractSignal` of mainwindow.cpp.

    Bytes are numbers below 256. `x & RANG_MASK_1_L[n - 1]` is then `x % Pow2(n)`, `x & RANG_MASK_0_L[n]` is
    `x - x % Pow2(n + 1)`, a left shift is a product. */
module Signals {
  type Byte = x: int | 0 <= x < 256

  function Pow2(n: nat): (r: nat)
    ensures r > 0
  {
    if n == 0 then 1 else 2 * Pow2(n - 1)
  }

  /** Bit `k` of `x`, the least significant one being bit 0. */
  predicate Bit(x: nat, k: nat)
    decreases k
  {
    if k == 0 then x % 2 == 1 else Bit(x / 2, k - 1)
  }

  /** `x` as a C `uint8_t`. */
  function ToByte(x: int): Byte {
    x % 256
  }

  // ---------------------------------------------------------------- one field of one byte

  /** What a write of `length` bits of `value` at `start` should leave, bit by bit. */
  function SetBits(t: nat, start: nat, length: nat, value: nat): nat
    decreases start + length
  {
    if start > 0 then t % 2 + 2 * SetBits(t / 2, start - 1, length, value)
    else if length > 0 then value % 2 + 2 * SetBits(t / 2, 0, length - 1, value / 2)
    else t
  }

  lemma {:induction false} BitOfSetBits(t: nat, start: nat, length: nat, value: nat, k: nat)
    ensures Bit(SetBits(t, start, length, value), k)
         == if start <= k < start + length then Bit(value, k - start) else Bit(t, k)
    decreases start + length
  {
    if start > 0 {
      if k > 0 { BitOfSetBits(t / 2, start - 1, length, value, k - 1); }
    } else if length > 0 {
      if k > 0 { BitOfSetBits(t / 2, 0, length - 1, value / 2, k - 1); }
    }
  }

  function Min(a: int, b: int): int {
    if a > b then b else a
  }

  /** The masks and the sum in `Byte_set_value`. */
  function Merge(t: nat, start: nat, end: nat, value: nat): int
    requires start <= end
  {
    var low := t % Pow2(start);
    var high := t - t % Pow2(end + 1);
    var middle := value % Pow2(end + 1 - start) * Pow2(start);
    high + middle + low
  }

  lemma MergeParts(t: nat, start: nat, end: nat, value: nat)
    requires start <= end
    ensures Merge(t, start, end, value)
         == (t - t % Pow2(end + 1)) + value % Pow2(end + 1 - start) * Pow2(start) + (if start > 0 then t % Pow2(start) else 0)
  {
    ModOne(t);
  }

  lemma {:induction false} ModStep(x: nat, n: nat)
    ensures x % Pow2(n + 1) == x % 2 + 2 * (x / 2 % Pow2(n))
  {
    var p := Pow2(n);
    var h := x / 2;
    assert h == p * (h / p) + h % p;
    assert x == 2 * p * (h / p) + (2 * (h % p) + x % 2);
    ModUnique(x, 2 * p, h / p, 2 * (h % p) + x % 2);
  }

  lemma ModUnique(x: nat, m: nat, q: nat, r: nat)
    requires 0 <= r < m && x == m * q + r
    ensures x % m == r
  {
    var d := x / m - q;
    assert m * d == r - x % m by {
      assert x == m * (x / m) + x % m;
      assert m * (x / m) - m * q == m * (x / m - q);
    }
    MulSign(m, d);
  }

  lemma MulSign(m: int, d: int)
    requires m > 0
    ensures d > 0 ==> m * d >= m
    ensures d < 0 ==> m * d <= -m
  {
  }

  lemma MergeAbove(t: nat, start: nat, end: nat, value: nat)
    requires 0 < start <= end
    ensures Merge(t, start, end, value) == t % 2 + 2 * Merge(t / 2, start - 1, end - 1, value)
  {
    ModStep(t, end);
    ModStep(t, start - 1);
    var v, p := value % Pow2(end + 1 - start), Pow2(start - 1);
    assert v * (2 * p) == 2 * (v * p);
    assert end - 1 + 1 - (start - 1) == end + 1 - start;
  }

  lemma MergeFirst(t: nat, end: nat, value: nat)
    requires 0 < end
    ensures Merge(t, 0, end, value) == value % 2 + 2 * Merge(t / 2, 0, end - 1, value / 2)
  {
    ModStep(t, end);
    ModStep(value, end);
    assert Pow2(0) == 1;
    ModOne(t);
    ModOne(t / 2);
  }

  lemma ModOne(x: nat)
    ensures x % 1 == 0
  {
  }

  lemma MergeBit(t: nat, value: nat)
    ensures Merge(t, 0, 0, value) == value % 2 + 2 * (t / 2)
  {
    assert Pow2(0) == 1 && Pow2(1) == 2;
    ModOne(t);
  }

  /** The masks select exactly the intended bits and the sum never carries. */
  lemma {:induction false} MergeIsSetBits(t: nat, start: nat, end: nat, value: nat)
    requires start <= end
    ensures Merge(t, start, end, value) == SetBits(t, start, end + 1 - start, value)
    decreases end
  {
    hide Merge;
    if start > 0 {
      MergeAbove(t, start, end, value);
      MergeIsSetBits(t / 2, start - 1, end - 1, value);
    } else if end > 0 {
      MergeFirst(t, end, value);
      MergeIsSetBits(t / 2, 0, end - 1, value / 2);
    } else {
      MergeBit(t, value);
      assert SetBits(t / 2, 0, 0, value / 2) == t / 2;
    }
  }

  lemma {:induction false} SetBitsSmall(t: nat, start: nat, length: nat, value: nat, n: nat)
    requires t < Pow2(n) && start + length <= n
    ensures SetBits(t, start, length, value) < Pow2(n)
    decreases start + length
  {
    if start > 0 {
      SetBitsSmall(t / 2, start - 1, length, value, n - 1);
    } else if length > 0 {
      SetBitsSmall(t / 2, 0, length - 1, value / 2, n - 1);
    }
  }

  /** The byte after `Byte_set_value`: arguments out of range leave it alone, a field that would leave the byte is cut. */
  function Field(t: Byte, start: int, length: int, value: Byte): (r: Byte) {
    if start > 7 || start < 0 || length < 1 then t
    else
      FieldFits(t, start, Min(start + length - 1, 7) + 1 - start, value);
      SetBits(t, start, Min(start + length - 1, 7) + 1 - start, value)
  }

  lemma FieldFits(t: Byte, start: nat, length: nat, value: Byte)
    requires start + length <= 8
    ensures SetBits(t, start, length, value) < 256
  {
    assert Pow2(8) == 256;
    SetBitsSmall(t, start, length, value, 8);
  }

  /** `Byte_set_value` on byte `at` of a buffer. */
  method ByteSetValue(value: Byte, start: int, length: int, buf: array<Byte>, at: nat)
    requires at < buf.Length
    modifies buf
    ensures buf[..] == old(buf[..])[at := Field(old(buf[at]), start, length, value)]
  {
    hide SetBits, Merge, Pow2;
    if start > 7 || start < 0 || length < 1 {
      assert buf[..][at := buf[at]] == buf[..];
      return;
    }
    var endPos := Min(start + length - 1, 7);
    var realLen := endPos + 1 - start;
    var currentLow := if start > 0 then buf[at] % Pow2(start) else 0;
    var currentHigh := buf[at] - buf[at] % Pow2(endPos + 1);
    var middle := value % Pow2(realLen);
    MergeParts(buf[at], start, endPos, value);
    MergeIsSetBits(buf[at], start, endPos, value);
    FieldFits(buf[at], start, realLen, value);
    buf[at] := currentHigh + middle * Pow2(start) + currentLow;
  }

  /** `ProtocolData_BoundedValue`, without the rounding to `float`. */
  function BoundedValue(lower: real, upper: real, val: real): (r: real)
    ensures lower <= upper ==> lower <= r <= upper && (lower <= val <= upper ==> r == val)
    ensures lower <= upper && val < lower ==> r == lower
    ensures lower <= upper && val > upper ==> r == upper
    ensures lower > upper ==> r == val
  {
    if lower > upper then val else if val < lower then lower else if val > upper then upper else val
  }

  /** An `int` through `ProtocolData_BoundedValue` and back. */
  function Clamp(lower: int, upper: int, x: int): (r: int)
    ensures lower <= upper ==> r == if x < lower then lower else if x > upper then upper else x
  {
    BoundedValue(lower as real, upper as real, x as real).Floor
  }

  lemma SmallByte(x: int)
    requires 0 <= x < 256
    ensures ToByte(x) == x
  {
  }

  // ---------------------------------------------------------------- buffers

  /** Bit `k` of a buffer in Intel order, the numbering of the signal database. */
  predicate BitAt(f: seq<Byte>, k: nat)
    requires k < 8 * |f|
  {
    Bit(f[k / 8], k % 8)
  }

  /** The number that `length` bits from `start` on spell, least significant first. */
  function Extract(f: seq<Byte>, start: nat, length: nat): nat
    requires start + length <= 8 * |f|
    decreases length
  {
    if length == 0 then 0 else (if BitAt(f, start) then 1 else 0) + 2 * Extract(f, start + 1, length - 1)
  }

  lemma {:induction false} ExtractMore(f: seq<Byte>, start: nat, length: nat)
    requires start + length < 8 * |f|
    ensures Extract(f, start, length + 1)
         == Extract(f, start, length) + (if BitAt(f, start + length) then Pow2(length) else 0)
    decreases length
  {
    hide BitAt;
    if length > 0 {
      ExtractMore(f, start + 1, length - 1);
    }
  }

  /** A `quint32` as an `int` of 32 bits. */
  function AsInt(x: nat): int {
    if x < 0x8000_0000 then x else x - 0x1_0000_0000
  }

  /** `extractSignal`; behind the 32nd bit its shift has no meaning in C++. */
  method ExtractSignal(raw: seq<Byte>, startBit: nat, length: nat) returns (value: int)
    requires startBit + length <= 8 * |raw| && length <= 32
    ensures value == AsInt(Extract(raw, startBit, length))
    ensures length <= 31 ==> value == Extract(raw, startBit, length)
  {
    hide Pow2, Bit, Extract;
    var bits: nat := 0;
    ExtractNothing(raw, startBit);
    for i := 0 to length
      invariant bits == Extract(raw, startBit, i)
    {
      var bitIndex := startBit + i;
      var byteIndex := bitIndex / 8;
      var bitInByte := bitIndex % 8;
      ExtractMore(raw, startBit, i);
      if Bit(raw[byteIndex], bitInByte) {
        bits := bits + Pow2(i);
      }
    }
    ExtractBelow(raw, startBit, length);
    SmallPowers(length);
    value := AsInt(bits);
  }

  lemma ExtractNothing(f: seq<Byte>, start: nat)
    requires start <= 8 * |f|
    ensures Extract(f, start, 0) == 0
  {
  }

  lemma SmallPowers(length: nat)
    ensures length <= 31 ==> Pow2(length) <= 0x8000_0000
  {
    PowersGrow(length, 31);
    assert Pow2(31) == 0x8000_0000 by { ThirtyOne(); }
  }

  lemma ThirtyOne()
    ensures Pow2(31) == 0x8000_0000
  {
    assert Pow2(8) == 256;
    PowersAdd(8, 8);
    PowersAdd(16, 8);
    assert Pow2(7) == 128;
    PowersAdd(24, 7);
  }

  lemma {:induction false} PowersAdd(a: nat, b: nat)
    ensures Pow2(a + b) == Pow2(a) * Pow2(b)
    decreases b
  {
    if b > 0 { PowersAdd(a, b - 1); }
  }

  lemma {:induction false} PowersGrow(a: nat, b: nat)
    ensures a <= b ==> Pow2(a) <= Pow2(b)
    decreases b
  {
    if a < b { PowersGrow(a, b - 1); }
  }

  lemma {:induction false} ExtractBelow(f: seq<Byte>, start: nat, length: nat)
    requires start + length <= 8 * |f|
    ensures Extract(f, start, length) < Pow2(length)
    decreases length
  {
    hide BitAt;
    if length > 0 { ExtractBelow(f, start + 1, length - 1); }
  }

  /** Bits that agree with those of `v` spell `v` truncated to the length. */
  lemma {:induction false} ExtractValue(f: seq<Byte>, start: nat, length: nat, v: nat)
    requires start + length <= 8 * |f|
    requires forall i :: 0 <= i < length ==> BitAt(f, start + i) == Bit(v, i)
    ensures Extract(f, start, length) == v % Pow2(length)
    decreases length
  {
    hide BitAt;
    if length > 0 {
      assert BitAt(f, start + 0) == Bit(v, 0);
      forall i | 0 <= i < length - 1 ensures BitAt(f, start + 1 + i) == Bit(v / 2, i) {
        assert BitAt(f, start + (1 + i)) == Bit(v, 1 + i);
        assert start + (1 + i) == start + 1 + i;
      }
      ExtractValue(f, start + 1, length - 1, v / 2);
      ModStep(v, length - 1);
    } else {
      ModOne(v);
    }
  }

  /** The bits of an extracted number are those of the buffer. */
  lemma {:induction false} BitOfExtract(f: seq<Byte>, start: nat, length: nat, i: nat)
    requires start + length <= 8 * |f| && i < length
    ensures Bit(Extract(f, start, length), i) == BitAt(f, start + i)
    decreases length
  {
    hide BitAt;
    if i > 0 {
      BitOfExtract(f, start + 1, length - 1, i - 1);
    }
  }

  /** Buffers with the same bits are the same. */
  lemma SameBits(f: seq<Byte>, g: seq<Byte>)
    requires |f| == |g| && forall k :: 0 <= k < 8 * |f| ==> BitAt(f, k) == BitAt(g, k)
    ensures f == g
  {
    forall b | 0 <= b < |f| ensures f[b] == g[b] {
      forall i | 0 <= i < 8 ensures Bit(f[b], i) == Bit(g[b], i) {
        assert BitAt(f, 8 * b + i) == BitAt(g, 8 * b + i);
        assert (8 * b + i) / 8 == b && (8 * b + i) % 8 == i;
      }
      SameByte(f[b], g[b], 8);
    }
  }

  lemma {:induction false} SameByte(x: nat, y: nat, n: nat)
    requires x < Pow2(n) && y < Pow2(n) && forall i :: 0 <= i < n ==> Bit(x, i) == Bit(y, i)
    ensures x == y
  {
    if n > 0 {
      assert Bit(x, 0) == Bit(y, 0);
      forall i | 0 <= i < n - 1 ensures Bit(x / 2, i) == Bit(y / 2, i) {
        assert Bit(x, i + 1) == Bit(y, i + 1);
      }
      SameByte(x / 2, y / 2, n - 1);
    }
  }

  // ---------------------------------------------------------------- sequences of writes

  /** One call of `Byte_set_value` on a message buffer. */
  datatype Write = Write(at: nat, start: nat, length: nat, value: Byte) {

    predicate Fits(size: nat) {
      at < size && 1 <= length && start + length <= 8
    }

    predicate Covers(k: nat) {
      8 * at + start <= k < 8 * at + start + length
    }

    /** The value bit that goes to position `k`. */
    predicate Puts(k: nat)
      requires Covers(k)
    {
      Bit(value, k - (8 * at + start))
    }
  }

  function Apply(f: seq<Byte>, w: Write): (r: seq<Byte>)
    requires w.at < |f|
    ensures |r| == |f|
  {
    f[w.at := Field(f[w.at], w.start, w.length, w.value)]
  }

  predicate AllFit(ws: seq<Write>, size: nat) {
    forall i :: 0 <= i < |ws| ==> ws[i].Fits(size)
  }

  function ApplyAll(f: seq<Byte>, ws: seq<Write>): (r: seq<Byte>)
    requires AllFit(ws, |f|)
    ensures |r| == |f|
  {
    if ws == [] then f else Apply(ApplyAll(f, ws[..|ws| - 1]), ws[|ws| - 1])
  }

  lemma BitOfApply(f: seq<Byte>, w: Write, k: nat)
    requires w.Fits(|f|) && k < 8 * |f|
    ensures BitAt(Apply(f, w), k) == if w.Covers(k) then w.Puts(k) else BitAt(f, k)
  {
    if k / 8 == w.at {
      BitOfSetBits(f[w.at], w.start, w.length, w.value, k % 8);
    }
  }

  /** A bit of the result belongs to the last write that covers it. */
  lemma {:induction false} BitOfLast(f: seq<Byte>, ws: seq<Write>, j: nat, k: nat)
    requires AllFit(ws, |f|) && k < 8 * |f|
    requires j < |ws| && ws[j].Covers(k) && forall i :: j < i < |ws| ==> !ws[i].Covers(k)
    ensures BitAt(ApplyAll(f, ws), k) == ws[j].Puts(k)
    decreases |ws|
  {
    var n := |ws| - 1;
    BitOfApply(ApplyAll(f, ws[..n]), ws[n], k);
    if j < n {
      BitOfLast(f, ws[..n], j, k);
    }
  }

  /** A bit that no write covers keeps its value. */
  lemma {:induction false} BitKept(f: seq<Byte>, ws: seq<Write>, k: nat)
    requires AllFit(ws, |f|) && k < 8 * |f|
    requires forall i :: 0 <= i < |ws| ==> !ws[i].Covers(k)
    ensures BitAt(ApplyAll(f, ws), k) == BitAt(f, k)
    decreases |ws|
  {
    if ws != [] {
      var n := |ws| - 1;
      BitOfApply(ApplyAll(f, ws[..n]), ws[n], k);
      BitKept(f, ws[..n], k);
    }
  }

  /** A field that no later write touches is read back as its value, cut to the field. */
  lemma FieldReadBack(f: seq<Byte>, ws: seq<Write>, j: nat)
    requires AllFit(ws, |f|) && j < |ws| && ws[j].Fits(|f|)
    requires forall i: nat, k: nat :: j < i < |ws| && ws[j].Covers(k) ==> !ws[i].Covers(k)
    ensures Extract(ApplyAll(f, ws), 8 * ws[j].at + ws[j].start, ws[j].length) == ws[j].value % Pow2(ws[j].length)
  {
    hide Bit, ApplyAll, BitAt;
    assert ws[j].Fits(|f|);
    var w, g := ws[j], ApplyAll(f, ws);
    var lo := 8 * w.at + w.start;
    forall i | 0 <= i < w.length ensures BitAt(g, lo + i) == Bit(w.value, i) {
      assert w.Covers(lo + i);
      BitOfLast(f, ws, j, lo + i);
      assert lo + i - lo == i;
    }
    ExtractValue(g, lo, w.length, w.value);
  }

  /** Two message structs written by the same sequence of setters: the second leaves nothing of the first. */
  lemma Overwrites(f: seq<Byte>, a: seq<Write>, b: seq<Write>)
    requires AllFit(a, |f|) && AllFit(b, |f|) && |a| == |b|
    requires forall j: nat, k: nat :: j < |a| ==> (a[j].Covers(k) <==> b[j].Covers(k))
    ensures ApplyAll(ApplyAll(f, a), b) == ApplyAll(f, b)
  {
    hide BitAt, ApplyAll;
    var g, h := ApplyAll(ApplyAll(f, a), b), ApplyAll(f, b);
    forall k | 0 <= k < 8 * |f| ensures BitAt(g, k) == BitAt(h, k) {
      if j :| 0 <= j < |b| && b[j].Covers(k) {
        var l := LastCover(b, k, j);
        BitOfLast(ApplyAll(f, a), b, l, k);
        BitOfLast(f, b, l, k);
      } else {
        BitKept(ApplyAll(f, a), b, k);
        BitKept(f, a, k);
        BitKept(f, b, k);
      }
    }
    SameBits(g, h);
  }

  lemma {:induction false} LastCover(ws: seq<Write>, k: nat, j: nat) returns (l: nat)
    requires j < |ws| && ws[j].Covers(k)
    ensures l < |ws| && ws[l].Covers(k) && forall i :: l < i < |ws| ==> !ws[i].Covers(k)
    decreases |ws| - j
  {
    if i :| j < i < |ws| && ws[i].Covers(k) {
      l := LastCover(ws, k, i);
    } else {
      l := j;
    }
  }
}
