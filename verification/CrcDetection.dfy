/** Which transmission errors the CRC check of ProcessExecutor.cpp cannot miss. The byte-wise computation is first shown to
    be a bit-serial one; on bits, linearity and injectivity of the shift step do the rest. */
module CrcDetection {
  import opened ModbusCrc

  function BitWord(b: bool): bv16 {
    if b then 1 else 0
  }

  function Double(p: bv16): bv16 {
    p << 1
  }

  /** Feed one bit after the other, the first one first. */
  function RunBits(c: bv16, bits: seq<bool>): bv16
    decreases |bits|
  {
    if bits == [] then c else RunBits(Shift(Xor(c, BitWord(bits[0]))), bits[1..])
  }

  predicate Has(b: Byte, mask: Byte) {
    b & mask == mask
  }

  /** The bits of a byte as they go over the line, least significant first. */
  function ByteBits(b: Byte): (bits: seq<bool>)
    ensures |bits| == 8
  {
    [Has(b, 1), Has(b, 2), Has(b, 4), Has(b, 8), Has(b, 16), Has(b, 32), Has(b, 64), Has(b, 128)]
  }

  function Bits(s: seq<Byte>): (bits: seq<bool>)
    ensures |bits| == 8 * |s|
  {
    if s == [] then [] else Bits(s[..|s| - 1]) + ByteBits(s[|s| - 1])
  }

  /** Up to 16 bits as a word. */
  function Pack(bits: seq<bool>): bv16 {
    if bits == [] then 0 else Xor(BitWord(bits[0]), Double(Pack(bits[1..])))
  }

  lemma {:induction false} BitsAt(s: seq<Byte>, k: nat)
    requires k < 8 * |s|
    ensures Bits(s)[k] == ByteBits(s[k / 8])[k % 8]
  {
    hide ByteBits;
    if k < 8 * (|s| - 1) {
      BitsAt(s[..|s| - 1], k);
    } else {
      assert k / 8 == |s| - 1 && k % 8 == k - 8 * (|s| - 1);
    }
  }

  // ---------------------------------------------------------------- packed words

  /** The `k` highest bits are zero. */
  predicate Clear(p: bv16, k: nat)
    decreases k
  {
    k == 0 || (Half(Double(p)) == p && Clear(Double(p), k - 1))
  }

  lemma DoubleXor(a: bv16, b: bv16)
    ensures Double(Xor(a, b)) == Xor(Double(a), Double(b))
  {
  }

  lemma {:induction false} ClearXor(a: bv16, b: bv16, k: nat)
    requires Clear(a, k) && Clear(b, k)
    ensures Clear(Xor(a, b), k)
    decreases k
  {
    hide Xor, Double, Half;
    if k > 0 {
      DoubleXor(a, b);
      HalfXor(Double(a), Double(b));
      ClearXor(Double(a), Double(b), k - 1);
    }
  }

  lemma {:induction false} ClearZero(k: nat)
    ensures Clear(0, k)
  {
    if k > 0 {
      ClearZero(k - 1);
    }
  }

  lemma {:induction false} ClearLess(p: bv16, j: nat, k: nat)
    requires j <= k && Clear(p, k)
    ensures Clear(p, j)
    decreases k
  {
    if j > 0 {
      ClearLess(Double(p), j - 1, k - 1);
    }
  }

  lemma ClearOne()
    ensures Clear(1, 15)
  {
    assert Clear(0x8000, 0);
    assert Clear(0x4000, 1);
    assert Clear(0x2000, 2);
    assert Clear(0x1000, 3);
    assert Clear(0x800, 4);
    assert Clear(0x400, 5);
    assert Clear(0x200, 6);
    assert Clear(0x100, 7);
    assert Clear(0x80, 8);
    assert Clear(0x40, 9);
    assert Clear(0x20, 10);
    assert Clear(0x10, 11);
    assert Clear(8, 12);
    assert Clear(4, 13);
    assert Clear(2, 14);
  }

  lemma {:induction false} PackClear(bits: seq<bool>)
    requires |bits| <= 16
    ensures Clear(Pack(bits), 16 - |bits|)
    decreases |bits|
  {
    hide Xor, Double, Half;
    if bits == [] {
      ClearZero(16);
    } else {
      var k := 16 - |bits|;
      PackClear(bits[1..]);
      ClearOne();
      ClearZero(k);
      ClearLess(1, k, 15);
      ClearXor(BitWord(bits[0]), Double(Pack(bits[1..])), k);
    }
  }

  lemma EvenDouble(p: bv16)
    ensures !Odd(Double(p))
  {
  }

  lemma ShiftDouble(p: bv16)
    requires Half(Double(p)) == p
    ensures Shift(Double(p)) == p
  {
    EvenDouble(p);
  }

  /** Feeding up to 16 bits one by one is xoring them in at once and shifting as often. */
  lemma {:induction false} PackRun(c: bv16, bits: seq<bool>)
    requires |bits| <= 16
    ensures ShiftN(Xor(c, Pack(bits)), |bits|) == RunBits(c, bits)
    decreases |bits|
  {
    hide Xor, Double, Half, Shift;
    if bits == [] {
      XorSelf(c);
    } else {
      var b, p, n := BitWord(bits[0]), Pack(bits[1..]), |bits| - 1;
      PackClear(bits[1..]);
      XorAssoc(c, b, Double(p));
      ShiftLinear(Xor(c, b), Double(p));
      ShiftDouble(p);
      PackRun(Shift(Xor(c, b)), bits[1..]);
      ShiftNAdd(Xor(c, Pack(bits)), 1, n);
      assert ShiftN(Xor(c, Pack(bits)), 1) == Shift(ShiftN(Xor(c, Pack(bits)), 0));
    }
  }

  lemma PackHead(b: bool, p: bv16)
    requires Half(Double(p)) == p
    ensures Xor(BitWord(b), Double(p)) == 0 <==> !b && p == 0
  {
  }

  lemma {:induction false} PackZero(bits: seq<bool>)
    requires |bits| <= 16
    ensures Pack(bits) == 0 <==> forall k :: 0 <= k < |bits| ==> !bits[k]
    decreases |bits|
  {
    hide Xor, Double, Half, BitWord;
    if bits != [] {
      var rest := bits[1..];
      PackClear(rest);
      PackHead(bits[0], Pack(rest));
      PackZero(rest);
      assert forall k :: 0 < k < |bits| ==> bits[k] == rest[k - 1];
      assert forall k :: 0 <= k < |rest| ==> rest[k] == bits[k + 1];
    }
  }

  // ---------------------------------------------------------------- bytes

  lemma PackByte(b: Byte)
    ensures Pack(ByteBits(b)) == b as bv16
  {
    hide Xor, Double, BitWord, Pack, Has, ByteBits;
    var t := ByteBits(b);
    ByteBitsListed(b);
    PackNothing();
    PackNext(t, 7);
    PackNext(t, 6);
    PackNext(t, 5);
    PackNext(t, 4);
    PackNext(t, 3);
    PackNext(t, 2);
    PackNext(t, 1);
    PackNext(t, 0);
    assert t[8..] == [] && t[0..] == t;
    SumByte(b);
  }

  lemma ByteBitsListed(b: Byte)
    ensures var t := ByteBits(b);
            && |t| == 8 && t[0] == Has(b, 1) && t[1] == Has(b, 2) && t[2] == Has(b, 4) && t[3] == Has(b, 8)
            && t[4] == Has(b, 16) && t[5] == Has(b, 32) && t[6] == Has(b, 64) && t[7] == Has(b, 128)
  {
  }

  lemma PackNothing()
    ensures Pack([]) == 0
  {
  }

  lemma PackNext(t: seq<bool>, i: nat)
    requires i < |t|
    ensures Pack(t[i..]) == Xor(BitWord(t[i]), Double(Pack(t[i + 1..])))
  {
    assert t[i..][1..] == t[i + 1..];
  }

  lemma SumByte(b: Byte)
    ensures var w := b as bv16;
            w == Xor(BitWord(Has(b, 1)), Double(Xor(BitWord(Has(b, 2)), Double(Xor(BitWord(Has(b, 4)), Double(
                 Xor(BitWord(Has(b, 8)), Double(Xor(BitWord(Has(b, 16)), Double(Xor(BitWord(Has(b, 32)), Double(
                 Xor(BitWord(Has(b, 64)), Double(Xor(BitWord(Has(b, 128)), Double(0))))))))))))))))
  {
  }

  lemma FeedIsBits(c: bv16, b: Byte)
    ensures Feed(c, b) == RunBits(c, ByteBits(b))
  {
    hide Xor, ShiftN, RunBits, Pack;
    PackByte(b);
    PackRun(c, ByteBits(b));
  }

  lemma {:induction false} RunJoin(c: bv16, a: seq<bool>, b: seq<bool>)
    ensures RunBits(c, a + b) == RunBits(RunBits(c, a), b)
    decreases |a|
  {
    hide Xor, Shift, BitWord;
    if a == [] {
      assert [] + b == b;
    } else {
      assert (a + b)[1..] == a[1..] + b;
      RunJoin(Shift(Xor(c, BitWord(a[0]))), a[1..], b);
    }
  }

  /** The two nested loops are one pass over the bits of the message. */
  lemma {:induction false} CrcIsBits(c: bv16, s: seq<Byte>)
    ensures CrcFrom(c, s) == RunBits(c, Bits(s))
    decreases |s|
  {
    hide Feed, RunBits;
    if s == [] {
      RunNothing(c);
    } else {
      var init, last := s[..|s| - 1], s[|s| - 1];
      CrcIsBits(c, init);
      FeedIsBits(CrcFrom(c, init), last);
      RunJoin(c, Bits(init), ByteBits(last));
    }
  }

  lemma RunNothing(c: bv16)
    ensures RunBits(c, []) == c
  {
  }

  // ---------------------------------------------------------------- the residue

  function DoubleN(p: bv16, n: nat): bv16
    decreases n
  {
    if n == 0 then p else Double(DoubleN(p, n - 1))
  }

  lemma {:induction false} PackJoin(a: seq<bool>, b: seq<bool>)
    ensures Pack(a + b) == Xor(Pack(a), DoubleN(Pack(b), |a|))
    decreases |a|
  {
    hide Xor, Double, BitWord;
    if a == [] {
      assert [] + b == b;
      XorSelf(Pack(b));
    } else {
      assert (a + b)[1..] == a[1..] + b;
      PackJoin(a[1..], b);
      DoubleXor(Pack(a[1..]), DoubleN(Pack(b), |a| - 1));
      XorAssoc(BitWord(a[0]), Double(Pack(a[1..])), DoubleN(Pack(b), |a|));
    }
  }

  lemma DoubleTwice(p: bv16, m: bv16, n: nat)
    requires DoubleN(p, n) == m
    ensures DoubleN(p, n + 2) == m << 2
  {
    assert DoubleN(p, n + 1) == m << 1;
  }

  lemma WordSum(lo: Byte, hi: Byte)
    ensures Word(lo, hi) == Xor(lo as bv16, (hi as bv16) << 2 << 2 << 2 << 2)
  {
  }

  lemma WordBits(lo: Byte, hi: Byte)
    ensures Pack(ByteBits(lo) + ByteBits(hi)) == Word(lo, hi)
  {
    hide Xor, Double, Pack, DoubleN, Word;
    PackJoin(ByteBits(lo), ByteBits(hi));
    PackByte(lo);
    PackByte(hi);
    var h := hi as bv16;
    DoubleZero(h);
    DoubleTwice(h, h, 0);
    DoubleTwice(h, h << 2, 2);
    DoubleTwice(h, h << 2 << 2, 4);
    DoubleTwice(h, h << 2 << 2 << 2, 6);
    WordSum(lo, hi);
  }

  lemma DoubleZero(p: bv16)
    ensures DoubleN(p, 0) == p
  {
  }

  /** Two more bytes bring the register to zero exactly if they are its content, low byte first. */
  lemma TwoBytesCancel(c: bv16, lo: Byte, hi: Byte)
    ensures Feed(Feed(c, lo), hi) == 0 <==> Word(lo, hi) == c
  {
    hide Feed, RunBits, Pack, Word, Xor, ShiftN;
    FeedIsBits(c, lo);
    FeedIsBits(Feed(c, lo), hi);
    RunJoin(c, ByteBits(lo), ByteBits(hi));
    WordBits(lo, hi);
    PackRun(c, ByteBits(lo) + ByteBits(hi));
    ShiftNKernel(Xor(c, Word(lo, hi)), 16);
    XorZero(c, Word(lo, hi));
  }

  /** `CheckCRC` accepts exactly the strings whose CRC over everything, check bytes included, is zero. */
  lemma AcceptsIffResidueZero(rx: seq<Byte>)
    requires |rx| >= 3
    ensures Accepts(rx) <==> Crc(rx) == 0
  {
    hide Feed, Word;
    var n := |rx|;
    assert rx[..n - 1][..n - 2] == rx[..n - 2];
    assert Crc(rx) == Feed(CrcFrom(0xFFFF, rx[..n - 1]), rx[n - 1]);
    assert CrcFrom(0xFFFF, rx[..n - 1]) == Feed(Crc(rx[..n - 2]), rx[n - 2]);
    TwoBytesCancel(Crc(rx[..n - 2]), rx[n - 2], rx[n - 1]);
  }

  lemma LowHigh(c: bv16)
    ensures Word(Low(c), High(c)) == c
  {
  }

  /** What `AppendCRC` sends is accepted, unless there was nothing to send. */
  lemma AppendedIsAccepted(cmd: seq<Byte>)
    ensures Accepts(cmd + [Low(Crc(cmd)), High(Crc(cmd))]) <==> cmd != []
  {
    var sent := cmd + [Low(Crc(cmd)), High(Crc(cmd))];
    assert sent[..|sent| - 2] == cmd;
    LowHigh(Crc(cmd));
  }

  // ---------------------------------------------------------------- differences of two messages

  function Diff(x: seq<bool>, y: seq<bool>): seq<bool>
    requires |x| == |y|
  {
    seq(|x|, i requires 0 <= i < |x| => x[i] != y[i])
  }

  lemma BitWordXor(a: bool, b: bool)
    ensures BitWord(a != b) == Xor(BitWord(a), BitWord(b))
  {
  }

  /** The registers of two messages differ by the register of their difference. */
  lemma {:induction false} RunDiff(a: bv16, b: bv16, x: seq<bool>, y: seq<bool>)
    requires |x| == |y|
    ensures RunBits(Xor(a, b), Diff(x, y)) == Xor(RunBits(a, x), RunBits(b, y))
    decreases |x|
  {
    hide Xor, Shift, BitWord;
    if x != [] {
      var u, v := BitWord(x[0]), BitWord(y[0]);
      assert Diff(x, y)[1..] == Diff(x[1..], y[1..]);
      BitWordXor(x[0], y[0]);
      XorSwap(a, b, u, v);
      ShiftLinear(Xor(a, u), Xor(b, v));
      RunDiff(Shift(Xor(a, u)), Shift(Xor(b, v)), x[1..], y[1..]);
    }
  }

  lemma {:induction false} RunFalse(c: bv16, bits: seq<bool>)
    requires forall k :: 0 <= k < |bits| ==> !bits[k]
    ensures RunBits(c, bits) == ShiftN(c, |bits|)
    decreases |bits|
  {
    hide Xor, Shift;
    if bits != [] {
      XorSelf(c);
      RunFalse(Shift(c), bits[1..]);
      ShiftNAdd(c, 1, |bits| - 1);
      assert ShiftN(c, 1) == Shift(ShiftN(c, 0));
    }
  }

  /** A difference confined to 16 consecutive bits leaves a nonzero register. */
  lemma BurstLeavesTrace(e: seq<bool>, from: nat)
    requires forall k :: 0 <= k < |e| && e[k] ==> from <= k < from + 16
    requires exists k :: 0 <= k < |e| && e[k]
    ensures RunBits(0, e) != 0
  {
    hide Xor, Shift, RunBits, ShiftN, Pack;
    var to := if from + 16 <= |e| then from + 16 else |e|;
    var k :| 0 <= k < |e| && e[k];
    var head, burst, tail := e[..from], e[from..to], e[to..];
    forall i | 0 <= i < |head| ensures !head[i] { assert head[i] == e[i]; }
    forall i | 0 <= i < |tail| ensures !tail[i] { assert tail[i] == e[to + i]; }
    assert burst[k - from] == e[k];
    ThreeRuns(head, burst, tail);
    ThreeParts(e, from, to);
  }

  lemma ThreeParts<T>(e: seq<T>, from: nat, to: nat)
    requires from <= to <= |e|
    ensures e == e[..from] + (e[from..to] + e[to..])
  {
  }

  lemma ThreeRuns(head: seq<bool>, burst: seq<bool>, tail: seq<bool>)
    requires forall k :: 0 <= k < |head| ==> !head[k]
    requires forall k :: 0 <= k < |tail| ==> !tail[k]
    requires |burst| <= 16 && exists k :: 0 <= k < |burst| && burst[k]
    ensures RunBits(0, head + (burst + tail)) != 0
  {
    hide Xor, Shift, RunBits, ShiftN, Pack;
    RunJoin(0, head, burst + tail);
    RunJoin(RunBits(0, head), burst, tail);
    RunFalse(0, head);
    ShiftNKernel(0, |head|);
    PackRun(0, burst);
    XorSelf(Pack(burst));
    PackZero(burst);
    ShiftNKernel(Pack(burst), |burst|);
    var c := RunBits(0, burst);
    RunFalse(c, tail);
    ShiftNKernel(c, |tail|);
  }

  lemma LastBits(x: seq<Byte>)
    requires x != []
    ensures var n := |x| - 1;
            |Bits(x)| == 8 * |x| && Bits(x)[..8 * n] == Bits(x[..n]) && Bits(x)[8 * n..] == ByteBits(x[n])
  {
    hide ByteBits;
  }

  lemma {:induction false} SameBitsSameBytes(x: seq<Byte>, y: seq<Byte>)
    requires |x| == |y| && Bits(x) == Bits(y)
    ensures x == y
    decreases |x|
  {
    hide ByteBits, Pack, Bits;
    if x != [] {
      var n := |x| - 1;
      LastBits(x);
      LastBits(y);
      SameBitsSameBytes(x[..n], y[..n]);
      PackByte(x[n]);
      PackByte(y[n]);
      assert x[n] == y[n];
      assert x == x[..n] + [x[n]] && y == y[..n] + [y[n]];
    }
  }

  /** Whether a changed frame is still accepted depends on the difference only. */
  lemma ChangeAccepted(x: seq<Byte>, y: seq<Byte>)
    requires |x| == |y| && Accepts(x)
    ensures Accepts(y) <==> RunBits(0, Diff(Bits(x), Bits(y))) == 0
  {
    hide Xor, Feed, RunBits, Bits;
    AcceptsIffResidueZero(x);
    AcceptsIffResidueZero(y);
    CrcIsBits(0xFFFF, x);
    CrcIsBits(0xFFFF, y);
    XorZero(0xFFFF, 0xFFFF);
    XorSelf(Crc(y));
    RunDiff(0xFFFF, 0xFFFF, Bits(x), Bits(y));
  }

  /** Every error burst of at most 16 bits is detected, in a frame of any length. */
  lemma BurstDetected(x: seq<Byte>, y: seq<Byte>, from: nat)
    requires |x| == |y| && x != y && Accepts(x)
    requires forall k :: 0 <= k < 8 * |x| && Bits(x)[k] != Bits(y)[k] ==> from <= k < from + 16
    ensures !Accepts(y)
  {
    hide RunBits, Bits, Accepts;
    var e := Diff(Bits(x), Bits(y));
    if forall k :: 0 <= k < |e| ==> !e[k] {
      assert forall k :: 0 <= k < 8 * |x| ==> Bits(x)[k] == Bits(y)[k] by {
        forall k | 0 <= k < 8 * |x| ensures Bits(x)[k] == Bits(y)[k] { assert !e[k]; }
      }
      SameBitsSameBytes(x, y);
    }
    BurstLeavesTrace(e, from);
    ChangeAccepted(x, y);
  }

  /** Sixteen is the limit: flipping the four bits of the generator, 17 bits from first to last, is never detected. */
  lemma GeneratorEscapes(x: seq<Byte>, y: seq<Byte>, from: nat)
    requires |x| == |y| && Accepts(x) && from + 17 <= 8 * |x|
    requires forall k :: 0 <= k < 8 * |x| ==> (Bits(x)[k] != Bits(y)[k] <==> k - from in {0, 1, 14, 16})
    ensures Accepts(y)
  {
    hide RunBits, Bits, Accepts, Xor, Shift, ShiftN;
    var e := Diff(Bits(x), Bits(y));
    var word := ByteBits(0x01) + ByteBits(0xA0);
    var head, burst, tail := e[..from], [true] + word, e[from + 17..];
    assert e[from..from + 17] == burst;
    assert e == head + (burst + tail);
    RunJoin(0, head, burst + tail);
    RunFalse(0, head);
    ShiftNKernel(0, from);
    RunJoin(0, burst, tail);
    GeneratorCancels();
    RunFalse(0, tail);
    ShiftNKernel(0, |tail|);
    ChangeAccepted(x, y);
  }

  lemma GeneratorCancels()
    ensures RunBits(0, [true] + (ByteBits(0x01) + ByteBits(0xA0))) == 0
  {
    var word := ByteBits(0x01) + ByteBits(0xA0);
    assert ([true] + word)[1..] == word;
    RunJoin(0, [true], word);
    FirstBit();
    WordBits(0x01, 0xA0);
    PackRun(0xA001, word);
    ShiftNKernel(0, 16);
  }

  lemma FirstBit()
    ensures RunBits(0, [true]) == 0xA001 && Word(0x01, 0xA0) == 0xA001 && Xor(0xA001, 0xA001) == 0
  {
    assert Shift(1) == 0xA001;
    assert [true][1..] == [];
  }

  // ---------------------------------------------------------------- odd numbers of errors

  /** Whether the low `n` bits contain an odd number of ones. */
  predicate OddOnes(c: bv16, n: nat)
    decreases n
  {
    n > 0 && (Odd(c) != OddOnes(Half(c), n - 1))
  }

  predicate OddTrues(bits: seq<bool>) {
    bits != [] && (bits[0] != OddTrues(bits[1..]))
  }

  function HalfN(c: bv16, n: nat): bv16
    decreases n
  {
    if n == 0 then c else HalfN(Half(c), n - 1)
  }

  lemma {:induction false} OddOnesXor(a: bv16, b: bv16, n: nat)
    ensures OddOnes(Xor(a, b), n) == (OddOnes(a, n) != OddOnes(b, n))
    decreases n
  {
    hide Xor, Odd, Half;
    if n > 0 {
      OddXor(a, b);
      HalfXor(a, b);
      OddOnesXor(Half(a), Half(b), n - 1);
    }
  }

  lemma {:induction false} OddOnesTop(c: bv16, n: nat)
    ensures OddOnes(c, n + 1) == (OddOnes(c, n) != Odd(HalfN(c, n)))
    decreases n
  {
    hide Odd, Half;
    if n > 0 {
      OddOnesTop(Half(c), n - 1);
    }
  }

  lemma FourHalves(c: bv16, n: nat)
    ensures HalfN(c, n + 4) == HalfN(c >> 4, n)
  {
    assert HalfN(c, n + 4) == HalfN(c >> 1, n + 3);
    assert HalfN(c >> 1, n + 3) == HalfN(c >> 2, n + 2);
    assert HalfN(c >> 2, n + 2) == HalfN(c >> 3, n + 1);
  }

  lemma AllHalves(c: bv16)
    ensures HalfN(c, 16) == 0
  {
    FourHalves(c, 12);
    FourHalves(c >> 4, 8);
    FourHalves(c >> 4 >> 4, 4);
    FourHalves(c >> 4 >> 4 >> 4, 0);
  }

  lemma {:induction false} OddOnesZero(n: nat)
    ensures !OddOnes(0, n)
  {
    if n > 0 {
      OddOnesZero(n - 1);
    }
  }

  lemma GeneratorOdd()
    ensures OddOnes(0xA001, 16)
  {
    OddOnesZero(0);
    assert OddOnes(1, 1);
    assert OddOnes(2, 2);
    assert !OddOnes(5, 3);
    assert !OddOnes(0xA, 4);
    assert !OddOnes(0x14, 5);
    assert !OddOnes(0x28, 6);
    assert !OddOnes(0x50, 7);
    assert !OddOnes(0xA0, 8);
    assert !OddOnes(0x140, 9);
    assert !OddOnes(0x280, 10);
    assert !OddOnes(0x500, 11);
    assert !OddOnes(0xA00, 12);
    assert !OddOnes(0x1400, 13);
    assert !OddOnes(0x2800, 14);
    assert !OddOnes(0x5000, 15);
  }

  /** The generator has an even number of terms, so a shift step keeps the parity of the register. */
  lemma ShiftKeepsParity(c: bv16)
    ensures OddOnes(Shift(c), 16) == OddOnes(c, 16)
  {
    hide Xor, Odd, Half;
    OddOnesTop(Half(c), 15);
    AllHalves(c);
    ZeroEven();
    GeneratorOdd();
    OddOnesXor(Half(c), 0xA001, 16);
  }

  lemma ZeroEven()
    ensures !Odd(0)
  {
  }

  lemma BitParity(b: bool)
    ensures OddOnes(BitWord(b), 16) == b
  {
    OddOnesZero(15);
    OddOnesZero(16);
    assert Half(1) == 0;
  }

  lemma {:induction false} RunParity(c: bv16, bits: seq<bool>)
    ensures OddOnes(RunBits(c, bits), 16) == (OddOnes(c, 16) != OddTrues(bits))
    decreases |bits|
  {
    hide Xor, Shift, OddOnes, BitWord;
    if bits != [] {
      var d := Xor(c, BitWord(bits[0]));
      OddOnesXor(c, BitWord(bits[0]), 16);
      BitParity(bits[0]);
      ShiftKeepsParity(d);
      RunParity(Shift(d), bits[1..]);
    }
  }

  /** Every change of an odd number of bits is detected, wherever they are. */
  lemma OddErrorsDetected(x: seq<Byte>, y: seq<Byte>)
    requires |x| == |y| && Accepts(x) && OddTrues(Diff(Bits(x), Bits(y)))
    ensures !Accepts(y)
  {
    hide RunBits, Bits, Accepts, OddOnes;
    RunParity(0, Diff(Bits(x), Bits(y)));
    OddOnesZero(16);
    ChangeAccepted(x, y);
  }
}
