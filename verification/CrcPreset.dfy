/** What the preset 0xFFFF of the CRC in ProcessExecutor.cpp is for: bytes lost or added at the front of a message count, and
    the sums are those of every other Modbus device. */
module CrcPreset {
  import opened ModbusCrc
  import opened CrcDetection

  lemma {:induction false} FromJoin(c: bv16, a: seq<Byte>, b: seq<Byte>)
    ensures CrcFrom(c, a + b) == CrcFrom(CrcFrom(c, a), b)
    decreases |b|
  {
    hide Feed;
    if b == [] {
      assert a + b == a;
    } else {
      assert (a + b)[..|a + b| - 1] == a + b[..|b| - 1];
      FromJoin(c, a, b[..|b| - 1]);
    }
  }

  lemma FromOne(c: bv16, b: Byte)
    ensures CrcFrom(c, [b]) == Feed(c, b)
  {
    hide Feed;
    assert [b][..0] == [];
  }

  lemma FromTwo(c: bv16, lo: Byte, hi: Byte)
    ensures CrcFrom(c, [lo, hi]) == ShiftN(Xor(c, Word(lo, hi)), 16)
  {
    hide Feed, RunBits, Pack, Word, Xor, ShiftN;
    assert [lo, hi] == [lo] + [hi];
    FromJoin(c, [lo], [hi]);
    FromOne(c, lo);
    FromOne(Feed(c, lo), hi);
    FeedIsBits(c, lo);
    FeedIsBits(Feed(c, lo), hi);
    RunJoin(c, ByteBits(lo), ByteBits(hi));
    WordBits(lo, hi);
    PackRun(c, ByteBits(lo) + ByteBits(hi));
  }

  lemma Inverted(lo: Byte, hi: Byte)
    ensures Xor(0xFFFF, Word(lo, hi)) == Xor(0, Word(lo ^ 0xFF, hi ^ 0xFF))
  {
  }

  /** The preset is the same as inverting the first 16 bits of the message and starting from zero. */
  lemma PresetInverts(s: seq<Byte>)
    requires |s| >= 2
    ensures Crc(s) == CrcFrom(0, [s[0] ^ 0xFF, s[1] ^ 0xFF] + s[2..])
  {
    hide CrcFrom, Xor, Word, ShiftN;
    assert s == [s[0], s[1]] + s[2..];
    FromJoin(0xFFFF, [s[0], s[1]], s[2..]);
    FromJoin(0, [s[0] ^ 0xFF, s[1] ^ 0xFF], s[2..]);
    FromTwo(0xFFFF, s[0], s[1]);
    FromTwo(0, s[0] ^ 0xFF, s[1] ^ 0xFF);
    Inverted(s[0], s[1]);
  }

  lemma FeedInjective(c: bv16, d: bv16, b: Byte)
    requires Feed(c, b) == Feed(d, b)
    ensures c == d
  {
    hide Xor, ShiftN;
    var w := b as bv16;
    ShiftNLinear(Xor(c, w), Xor(d, w), 8);
    XorSwap(c, w, d, w);
    XorSelf(w);
    XorSelf(Xor(c, d));
    XorSelf(Feed(c, b));
    ShiftNKernel(Xor(c, d), 8);
    XorZero(c, d);
  }

  /** Different registers stay different whatever is fed. */
  lemma {:induction false} FromInjective(c: bv16, d: bv16, s: seq<Byte>)
    requires CrcFrom(c, s) == CrcFrom(d, s)
    ensures c == d
    decreases |s|
  {
    hide Feed;
    if s != [] {
      var init, last := s[..|s| - 1], s[|s| - 1];
      FeedInjective(CrcFrom(c, init), CrcFrom(d, init), last);
      FromInjective(c, d, init);
    }
  }

  lemma EightTimes(c: bv16)
    ensures ShiftN(c, 8) == Shift(Shift(Shift(Shift(Shift(Shift(Shift(Shift(c))))))))
  {
    hide Shift;
    assert ShiftN(c, 4) == Shift(Shift(Shift(Shift(c))));
    ShiftNAdd(c, 4, 4);
    assert ShiftN(ShiftN(c, 4), 4) == Shift(Shift(Shift(Shift(ShiftN(c, 4)))));
  }

  lemma ZeroFed()
    ensures Feed(0xFFFF, 0) == 0x40BF
  {
    EightTimes(Xor(0xFFFF, 0));
  }

  /** A zero byte in front of an accepted message is always noticed. */
  lemma ZeroInFront(x: seq<Byte>)
    requires Accepts(x)
    ensures !Accepts([0] + x)
  {
    hide Feed, CrcFrom, Accepts;
    assert |x| >= 3 by { AcceptsThree(x); }
    AcceptsIffResidueZero(x);
    AcceptsIffResidueZero([0] + x);
    FromJoin(0xFFFF, [0], x);
    FromOne(0xFFFF, 0);
    ZeroFed();
    if Accepts([0] + x) { FromInjective(0xFFFF, 0x40BF, x); }
  }

  lemma AcceptsThree(x: seq<Byte>)
    requires Accepts(x)
    ensures |x| >= 3
  {
  }

  /** A byte fed, without recursion. */
  function Fed(c: bv16, b: Byte): bv16 {
    Shift(Shift(Shift(Shift(Shift(Shift(Shift(Shift(Xor(c, b as bv16)))))))))
  }

  lemma OneFed(c: bv16, b: Byte, s: seq<Byte>)
    ensures CrcFrom(c, [b] + s) == CrcFrom(Fed(c, b), s)
  {
    hide CrcFrom, ShiftN, Shift, Xor;
    FromJoin(c, [b], s);
    FromOne(c, b);
    EightTimes(Xor(c, b as bv16));
  }

  lemma NothingFed(c: bv16)
    ensures CrcFrom(c, []) == c
  {
  }

  lemma DigitsFed()
    ensures Fed(0xFFFF, 0x31) == 0x947E && Fed(0x947E, 0x32) == 0xF595 && Fed(0xF595, 0x33) == 0x7A75
    ensures Fed(0x7A75, 0x34) == 0x30BA && Fed(0x30BA, 0x35) == 0xA471 && Fed(0xA471, 0x36) == 0x32E4
    ensures Fed(0x32E4, 0x37) == 0x9D73 && Fed(0x9D73, 0x38) == 0x37DD && Fed(0x37DD, 0x39) == 0x4B37
  {
  }

  /** Three bytes fed, with what the register holds behind each. */
  lemma ThreeFed(c: bv16, x: Byte, c1: bv16, y: Byte, c2: bv16, z: Byte, c3: bv16, s: seq<Byte>)
    requires Fed(c, x) == c1 && Fed(c1, y) == c2 && Fed(c2, z) == c3
    ensures CrcFrom(c, [x, y, z] + s) == CrcFrom(c3, s)
  {
    hide CrcFrom, Fed;
    assert [x, y, z] + s == [x] + ([y] + ([z] + s));
    OneFed(c, x, [y] + ([z] + s));
    OneFed(c1, y, [z] + s);
    OneFed(c2, z, s);
  }

  /** The check value of the CRC catalogues: the sum over the digits 1 to 9 in ASCII. */
  lemma CheckValue(digits: seq<Byte>)
    requires digits == [0x31, 0x32, 0x33, 0x34, 0x35, 0x36, 0x37, 0x38, 0x39]
    ensures Crc(digits) == 0x4B37
  {
    hide CrcFrom, Fed;
    DigitsFed();
    var six, three: seq<Byte> := [0x34, 0x35, 0x36, 0x37, 0x38, 0x39], [0x37, 0x38, 0x39];
    var none: seq<Byte> := [];
    assert digits == [0x31, 0x32, 0x33] + six && six == [0x34, 0x35, 0x36] + three && three == [0x37, 0x38, 0x39] + none;
    ThreeFed(0xFFFF, 0x31, 0x947E, 0x32, 0xF595, 0x33, 0x7A75, six);
    ThreeFed(0x7A75, 0x34, 0x30BA, 0x35, 0xA471, 0x36, 0x32E4, three);
    ThreeFed(0x32E4, 0x37, 0x9D73, 0x38, 0x37DD, 0x39, 0x4B37, none);
    NothingFed(0x4B37);
  }

  lemma RequestFed()
    ensures Fed(0xFFFF, 0xFF) == 0x00FF && Fed(0x00FF, 0x03) == 0x4100 && Fed(0x4100, 0x00) == 0x0041
    ensures Fed(0x0041, 0x11) == 0x3C00 && Fed(0x3C00, 0x00) == 0x003C && Fed(0x003C, 0x0C) == 0x1400
  {
  }

  /** The sum of the request for the last result. */
  lemma RequestSum(request: seq<Byte>)
    requires request == [0xFF, 0x03, 0x00, 0x11, 0x00, 0x0C]
    ensures Crc(request) == 0x1400
  {
    hide CrcFrom, Fed;
    RequestFed();
    var three, none: seq<Byte> := [0x11, 0x00, 0x0C], [];
    assert request == [0xFF, 0x03, 0x00] + three && three == [0x11, 0x00, 0x0C] + none;
    ThreeFed(0xFFFF, 0xFF, 0x00FF, 0x03, 0x4100, 0x00, 0x0041, three);
    ThreeFed(0x0041, 0x11, 0x3C00, 0x00, 0x003C, 0x0C, 0x1400, none);
    NothingFed(0x1400);
  }
}
