/** The 0x683 valve message of singleApi/cdc_control2_683.c. The source has one setter per signal and calls them one by one;
    here the twenty valves, which it names, are numbered in its order, and one setter serves the same signal of every
    valve. */
module Frame683 {
  import opened Signals

  const VALVES := 20
  const WRITES := 104

  datatype Valve = Valve(power: int, sprayNum: int, openDrtn: real, closeDrtn: real)

  datatype Control = Control(valves: seq<Valve>, secoc: seq<int>) {
    predicate Valid() {
      |valves| == VALVES && |secoc| == 4
    }
  }

  /** A duration in units of `step`, cut to `limit` and truncated as the conversion to `int` does. */
  function Steps(limit: real, step: real, x: real): (r: int)
    requires limit >= 0.0 && step > 0.0
    ensures 0 <= r && r as real * step <= limit
    ensures 0.0 <= x <= limit ==> r as real * step <= x < (r + 1) as real * step
    ensures x < 0.0 ==> r == 0
    ensures x > limit ==> limit < (r + 1) as real * step
  {
    var b := BoundedValue(0.0, limit, x);
    DivideBack(b, step);
    (b / step).Floor
  }

  lemma DivideBack(b: real, step: real)
    requires b >= 0.0 && step > 0.0
    ensures var r := (b / step).Floor;
            b / step >= 0.0 && r as real * step <= b < (r + 1) as real * step
    ensures b == 0.0 ==> b / step == 0.0
  {
    var q := b / step;
    assert q * step == b;
    NotNegative(q, step);
    var r := q.Floor;
    Scaled(r as real, q, r as real + 1.0, step);
    assert (r + 1) as real == r as real + 1.0;
    assert b < (r as real + 1.0) * step;
    assert b < (r + 1) as real * step;
  }

  lemma Scaled(a: real, b: real, c: real, step: real)
    requires a <= b < c && step > 0.0
    ensures a * step <= b * step < c * step
  {
    assert (b - a) * step >= 0.0;
    assert (c - b) * step > 0.0;
  }

  lemma NotNegative(q: real, step: real)
    requires step > 0.0 && q * step >= 0.0
    ensures q >= 0.0
  {
  }

  /** Units of 5, up to 200. */
  function OpenSteps(v: Valve): (r: nat)
    ensures r <= 40
    ensures 0.0 <= v.openDrtn <= 200.0 ==> 5.0 * r as real <= v.openDrtn < 5.0 * (r + 1) as real
    ensures v.openDrtn < 0.0 ==> r == 0
    ensures v.openDrtn > 200.0 ==> r == 40
  {
    Steps(200.0, 5.0, v.openDrtn)
  }

  /** Units of 50, up to 2000. */
  function CloseSteps(v: Valve): (r: nat)
    ensures r <= 40
    ensures 0.0 <= v.closeDrtn <= 2000.0 ==> 50.0 * r as real <= v.closeDrtn < 50.0 * (r + 1) as real
    ensures v.closeDrtn < 0.0 ==> r == 0
    ensures v.closeDrtn > 2000.0 ==> r == 40
  {
    Steps(2000.0, 50.0, v.closeDrtn)
  }

  /** The `j`-th call of `Byte_set_value` in `Cdccontrol1683_UpdateData`. */
  function WriteOf(c: Control, j: nat): (w: Write)
    requires c.Valid() && j < WRITES
    ensures w.Fits(64)
  {
    if j < 20 then Write(2 + j / 4, 2 * (j % 4), 2, ToByte(c.valves[j].power))
    else if j < 100 then
      var i, part := (j - 20) / 4, (j - 20) % 4;
      var v := c.valves[i];
      if part == 0 then Write(7 + 2 * i, 0, 4, Clamp(0, 15, v.sprayNum))
      else if part == 1 then Write(7 + 2 * i, 4, 4, OpenSteps(v) % 16)
      else if part == 2 then Write(8 + 2 * i, 0, 2, OpenSteps(v) / 16 % 4)
      else Write(8 + 2 * i, 2, 6, CloseSteps(v))
    else Write(60 + (j - 100), 0, 8, Clamp(0, 255, c.secoc[j - 100]))
  }

  function Writes(c: Control): (ws: seq<Write>)
    requires c.Valid()
    ensures |ws| == WRITES && AllFit(ws, 64) && forall j :: 0 <= j < WRITES ==> ws[j] == WriteOf(c, j)
  {
    seq(WRITES, j requires 0 <= j < WRITES => WriteOf(c, j))
  }

  /** The buffer after the first `n` calls. */
  ghost function After(f: seq<Byte>, c: Control, n: nat): (r: seq<Byte>)
    requires c.Valid() && n <= WRITES && |f| == 64
    ensures |r| == 64
  {
    ApplyAll(f, Writes(c)[..n])
  }

  lemma AfterNone(f: seq<Byte>, c: Control)
    requires c.Valid() && |f| == 64
    ensures After(f, c, 0) == f && After(f, c, WRITES) == ApplyAll(f, Writes(c))
  {
    assert Writes(c)[..WRITES] == Writes(c);
  }

  lemma AfterMore(f: seq<Byte>, c: Control, j: nat)
    requires c.Valid() && j < WRITES && |f| == 64
    ensures After(f, c, j + 1) == Apply(After(f, c, j), WriteOf(c, j))
  {
    assert Writes(c)[..j + 1][..j] == Writes(c)[..j];
  }

  lemma AfterPower(f: seq<Byte>, c: Control, i: nat)
    requires c.Valid() && i < VALVES && |f| == 64
    ensures After(f, c, i + 1) == Apply(After(f, c, i), Write(2 + i / 4, 2 * (i % 4), 2, ToByte(c.valves[i].power)))
  {
    AfterMore(f, c, i);
  }

  lemma ValvePart(i: nat, part: nat)
    requires i < VALVES && part < 4
    ensures var j := 20 + 4 * i + part; 20 <= j < 100 && (j - 20) / 4 == i && (j - 20) % 4 == part
  {
  }

  lemma AfterValve(f: seq<Byte>, c: Control, i: nat)
    requires c.Valid() && i < VALVES && |f| == 64
    ensures var j, v := 20 + 4 * i, c.valves[i];
            var g := Apply(After(f, c, j), Write(7 + 2 * i, 0, 4, Clamp(0, 15, v.sprayNum)));
            After(f, c, j + 4)
            == Apply(Apply(Apply(g, Write(7 + 2 * i, 4, 4, OpenSteps(v) % 16)),
                           Write(8 + 2 * i, 0, 2, OpenSteps(v) / 16 % 4)),
                     Write(8 + 2 * i, 2, 6, CloseSteps(v)))
  {
    hide Apply, After;
    var j := 20 + 4 * i;
    ValvePart(i, 0);
    ValvePart(i, 1);
    ValvePart(i, 2);
    ValvePart(i, 3);
    AfterMore(f, c, j);
    AfterMore(f, c, j + 1);
    AfterMore(f, c, j + 2);
    AfterMore(f, c, j + 3);
  }

  lemma AfterSecoc(f: seq<Byte>, c: Control, i: nat)
    requires c.Valid() && i < 4 && |f| == 64
    ensures After(f, c, 101 + i) == Apply(After(f, c, 100 + i), Write(60 + i, 0, 8, Clamp(0, 255, c.secoc[i])))
  {
    AfterMore(f, c, 100 + i);
  }

  /** The static buffer `Data683`. */
  class Message {
    const data: array<Byte>

    constructor ()
      ensures data.Length == 64 && fresh(data) && forall b :: 0 <= b < 64 ==> data[b] == 0
    {
      data := new Byte[64](_ => 0);
    }

    method SetPower(i: nat, power: int)
      requires data.Length == 64 && i < VALVES
      modifies data
      ensures data[..] == Apply(old(data[..]), Write(2 + i / 4, 2 * (i % 4), 2, ToByte(power)))
    {
      ByteSetValue(ToByte(power), 2 * (i % 4), 2, data, 2 + i / 4);
    }

    method SetSprayNum(i: nat, num: int)
      requires data.Length == 64 && i < VALVES
      modifies data
      ensures data[..] == Apply(old(data[..]), Write(7 + 2 * i, 0, 4, Clamp(0, 15, num)))
    {
      hide Field;
      var x := Clamp(0, 15, num);
      SmallByte(x);
      ByteSetValue(ToByte(x), 0, 4, data, 7 + 2 * i);
    }

    /** The one signal that is split: four bits in one byte, two in the next. */
    method SetOpenDrtn(i: nat, v: Valve)
      requires data.Length == 64 && i < VALVES
      modifies data
      ensures data[..] == Apply(Apply(old(data[..]), Write(7 + 2 * i, 4, 4, OpenSteps(v) % 16)),
                                Write(8 + 2 * i, 0, 2, OpenSteps(v) / 16 % 4))
    {
      var x := OpenSteps(v);
      ByteSetValue(x % 16, 4, 4, data, 7 + 2 * i);
      x := x / 16;
      ByteSetValue(x % 4, 0, 2, data, 8 + 2 * i);
    }

    method SetCloseDrtn(i: nat, v: Valve)
      requires data.Length == 64 && i < VALVES
      modifies data
      ensures data[..] == Apply(old(data[..]), Write(8 + 2 * i, 2, 6, CloseSteps(v)))
    {
      hide Field;
      var x := CloseSteps(v);
      SmallByte(x);
      ByteSetValue(ToByte(x), 2, 6, data, 8 + 2 * i);
    }

    method SetSecoc(i: nat, code: int)
      requires data.Length == 64 && i < 4
      modifies data
      ensures data[..] == Apply(old(data[..]), Write(60 + i, 0, 8, Clamp(0, 255, code)))
    {
      hide Field;
      var x := Clamp(0, 255, code);
      SmallByte(x);
      ByteSetValue(ToByte(x), 0, 8, data, 60 + i);
    }

    method SetValve(i: nat, v: Valve)
      requires data.Length == 64 && i < VALVES
      modifies data
      ensures var g := Apply(old(data[..]), Write(7 + 2 * i, 0, 4, Clamp(0, 15, v.sprayNum)));
              data[..] == Apply(Apply(Apply(g, Write(7 + 2 * i, 4, 4, OpenSteps(v) % 16)),
                                      Write(8 + 2 * i, 0, 2, OpenSteps(v) / 16 % 4)),
                                Write(8 + 2 * i, 2, 6, CloseSteps(v)))
    {
      hide Apply;
      SetSprayNum(i, v.sprayNum);
      SetOpenDrtn(i, v);
      SetCloseDrtn(i, v);
    }

    /** `Cdccontrol1683_UpdateData`. */
    method UpdateData(c: Control)
      requires data.Length == 64 && c.Valid()
      modifies data
      ensures data[..] == ApplyAll(old(data[..]), Writes(c))
    {
      hide After, Apply, ApplyAll, Writes;
      ghost var was := data[..];
      AfterNone(was, c);
      for i := 0 to 20
        invariant data[..] == After(was, c, i)
      {
        SetPower(i, c.valves[i].power);
        AfterPower(was, c, i);
      }
      for i := 0 to 20
        invariant data[..] == After(was, c, 20 + 4 * i)
      {
        SetValve(i, c.valves[i]);
        AfterValve(was, c, i);
      }
      for i := 0 to 4
        invariant data[..] == After(was, c, 100 + i)
      {
        SetSecoc(i, c.secoc[i]);
        AfterSecoc(was, c, i);
      }
    }
  }

  // ---------------------------------------------------------------- layout

  /** The write that owns bit `k`, or `WRITES` if no signal lies there. */
  function Owner(k: nat): nat {
    if 16 <= k < 56 then (k - 16) / 2
    else if 56 <= k < 376 then
      var i, r := (k - 56) / 16, (k - 56) % 16;
      20 + 4 * i + (if r < 4 then 0 else if r < 8 then 1 else if r < 10 then 2 else 3)
    else if 480 <= k < 512 then 100 + (k - 480) / 8
    else WRITES
  }

  lemma OwnsPower(j: nat, k: nat)
    requires j < 20
    ensures Write(2 + j / 4, 2 * (j % 4), 2, 0).Covers(k) <==> Owner(k) == j
  {
  }

  lemma OwnsValve(i: nat, k: nat)
    requires i < 20
    ensures Write(7 + 2 * i, 0, 4, 0).Covers(k) <==> Owner(k) == 20 + 4 * i
    ensures Write(7 + 2 * i, 4, 4, 0).Covers(k) <==> Owner(k) == 21 + 4 * i
    ensures Write(8 + 2 * i, 0, 2, 0).Covers(k) <==> Owner(k) == 22 + 4 * i
    ensures Write(8 + 2 * i, 2, 6, 0).Covers(k) <==> Owner(k) == 23 + 4 * i
  {
    if 56 <= k < 376 {
      var m, r := (k - 56) / 16, (k - 56) % 16;
      assert k == 56 + 16 * m + r;
    }
  }

  lemma OwnsSecoc(j: nat, k: nat)
    requires 100 <= j < WRITES
    ensures Write(60 + (j - 100), 0, 8, 0).Covers(k) <==> Owner(k) == j
  {
  }

  /** Every bit of the message is written by at most one call, the one `Owner` names. */
  lemma Owns(c: Control, j: nat, k: nat)
    requires c.Valid() && j < WRITES
    ensures WriteOf(c, j).Covers(k) <==> Owner(k) == j
  {
    hide Owner;
    if j < 20 {
      OwnsPower(j, k);
    } else if j < 100 {
      OwnsValve((j - 20) / 4, k);
    } else {
      OwnsSecoc(j, k);
    }
  }

  // ---------------------------------------------------------------- what a receiver reads

  ghost function Sent(f: seq<Byte>, c: Control): (r: seq<Byte>)
    requires c.Valid() && |f| == 64
    ensures |r| == 64
  {
    ApplyAll(f, Writes(c))
  }

  /** A signal that one call writes is read back as the value of that call, cut to its length. */
  lemma ReadsBack(f: seq<Byte>, c: Control, j: nat)
    requires c.Valid() && |f| == 64 && j < WRITES
    ensures var w := WriteOf(c, j); Extract(Sent(f, c), 8 * w.at + w.start, w.length) == w.value % Pow2(w.length)
  {
    hide WriteOf, Owner, ApplyAll, Extract, Write.Covers;
    forall i: nat, k: nat | j < i < WRITES && Writes(c)[j].Covers(k) ensures !Writes(c)[i].Covers(k) {
      Owns(c, j, k);
      Owns(c, i, k);
    }
    FieldReadBack(f, Writes(c), j);
  }

  lemma BitFrom(f: seq<Byte>, c: Control, j: nat, k: nat)
    requires c.Valid() && |f| == 64 && j < WRITES && k < 512 && WriteOf(c, j).Covers(k)
    ensures BitAt(Sent(f, c), k) == WriteOf(c, j).Puts(k)
  {
    hide WriteOf, Owner, ApplyAll, BitAt, Write.Covers, Write.Puts;
    forall i | j < i < WRITES ensures !Writes(c)[i].Covers(k) {
      Owns(c, j, k);
      Owns(c, i, k);
    }
    BitOfLast(f, Writes(c), j, k);
  }

  lemma {:induction false} BitOfQuotient(x: nat, k: nat)
    ensures Bit(x / 16, k) == Bit(x, k + 4)
  {
    assert Bit(x, k + 4) == Bit(x / 2, k + 3) == Bit(x / 2 / 2, k + 2) == Bit(x / 2 / 2 / 2, k + 1);
    assert Bit(x / 2 / 2 / 2, k + 1) == Bit(x / 2 / 2 / 2 / 2, k);
    assert x / 2 / 2 / 2 / 2 == x / 16;
  }

  lemma {:induction false} BitOfRemainder(x: nat, n: nat, k: nat)
    requires k < n
    ensures Bit(x % Pow2(n), k) == Bit(x, k)
    decreases n
  {
    hide Pow2;
    HalfOfRemainder(x, n - 1);
    if k > 0 {
      BitOfRemainder(x / 2, n - 1, k - 1);
    }
  }

  lemma HalfOfRemainder(x: nat, n: nat)
    ensures var r := x % Pow2(n + 1); r % 2 == x % 2 && r / 2 == x / 2 % Pow2(n)
  {
    ModStep(x, n);
  }

  lemma PowerBits(p: int)
    ensures ToByte(p) % 4 == p % 4
  {
    var q, r := p / 256, p % 256;
    FourTimes(64 * q + r / 4, r % 4);
    assert p == 4 * (64 * q + r / 4) + r % 4;
  }

  lemma FourTimes(a: int, b: int)
    requires 0 <= b < 4
    ensures (4 * a + b) % 4 == b
  {
  }

  /** The open duration is read back whole, although its six bits are split over two bytes. */
  lemma OpenDrtnReadsBack(f: seq<Byte>, c: Control, i: nat)
    requires c.Valid() && |f| == 64 && i < VALVES
    ensures Extract(Sent(f, c), 60 + 16 * i, 6) == OpenSteps(c.valves[i])
  {
    hide Sent, BitAt, Bit, Extract, Steps, Pow2;
    var g, x := Sent(f, c), OpenSteps(c.valves[i]);
    var lo := 60 + 16 * i;
    FieldSizes();
    forall q | 0 <= q < 6 ensures BitAt(g, lo + q) == Bit(x, q) { OpenDrtnBit(f, c, i, q); }
    ExtractValue(g, lo, 6, x);
  }

  lemma FieldSizes()
    ensures Pow2(2) == 4 && Pow2(4) == 16 && Pow2(6) == 64
  {
  }

  lemma OpenDrtnBit(f: seq<Byte>, c: Control, i: nat, q: nat)
    requires c.Valid() && |f| == 64 && i < VALVES && q < 6
    ensures BitAt(Sent(f, c), 60 + 16 * i + q) == Bit(OpenSteps(c.valves[i]), q)
  {
    hide Sent, BitAt, Bit, Steps, Clamp, ToByte, Pow2;
    var x, k := OpenSteps(c.valves[i]), 60 + 16 * i + q;
    FieldSizes();
    if q < 4 {
      ValvePart(i, 1);
      BitFrom(f, c, 21 + 4 * i, k);
      BitOfRemainder(x, 4, q);
    } else {
      ValvePart(i, 2);
      BitFrom(f, c, 22 + 4 * i, k);
      BitOfRemainder(x / 16, 2, q - 4);
      BitOfQuotient(x, q - 4);
    }
  }

  /** After an update from any prior buffer, `extractSignal` returns every signal of every valve as the clamped, scaled
      value of the struct; power requests are cut to their two bits. */
  lemma ValveReadsBack(f: seq<Byte>, c: Control, i: nat)
    requires c.Valid() && |f| == 64 && i < VALVES
    ensures var g, v := Sent(f, c), c.valves[i];
            && Extract(g, 16 + 2 * i, 2) == v.power % 4
            && Extract(g, 56 + 16 * i, 4) == Clamp(0, 15, v.sprayNum)
            && Extract(g, 60 + 16 * i, 6) == OpenSteps(v)
            && Extract(g, 66 + 16 * i, 6) == CloseSteps(v)
  {
    hide Sent, Extract;
    PowerReadsBack(f, c, i);
    SprayNumReadsBack(f, c, i);
    OpenDrtnReadsBack(f, c, i);
    CloseDrtnReadsBack(f, c, i);
  }

  lemma PowerReadsBack(f: seq<Byte>, c: Control, i: nat)
    requires c.Valid() && |f| == 64 && i < VALVES
    ensures Extract(Sent(f, c), 16 + 2 * i, 2) == c.valves[i].power % 4
  {
    hide Sent, Extract, ToByte, Clamp, Steps, Pow2;
    FieldSizes();
    ReadsBack(f, c, i);
    PowerBits(c.valves[i].power);
  }

  lemma SprayNumReadsBack(f: seq<Byte>, c: Control, i: nat)
    requires c.Valid() && |f| == 64 && i < VALVES
    ensures Extract(Sent(f, c), 56 + 16 * i, 4) == Clamp(0, 15, c.valves[i].sprayNum)
  {
    hide Sent, Extract, Steps, Pow2;
    FieldSizes();
    ValvePart(i, 0);
    ReadsBack(f, c, 20 + 4 * i);
  }

  lemma CloseDrtnReadsBack(f: seq<Byte>, c: Control, i: nat)
    requires c.Valid() && |f| == 64 && i < VALVES
    ensures Extract(Sent(f, c), 66 + 16 * i, 6) == CloseSteps(c.valves[i])
  {
    hide Sent, Extract, Steps, Clamp, Pow2;
    FieldSizes();
    ValvePart(i, 3);
    ReadsBack(f, c, 23 + 4 * i);
  }

  lemma SecocReadsBack(f: seq<Byte>, c: Control, i: nat)
    requires c.Valid() && |f| == 64 && i < 4
    ensures Extract(Sent(f, c), 480 + 8 * i, 8) == Clamp(0, 255, c.secoc[i])
  {
    hide Sent, Extract;
    assert Pow2(8) == 256;
    ReadsBack(f, c, 100 + i);
  }

  /** Bits that belong to no signal keep their value. */
  lemma UnownedKept(f: seq<Byte>, c: Control, k: nat)
    requires c.Valid() && |f| == 64 && k < 512 && Owner(k) == WRITES
    ensures BitAt(Sent(f, c), k) == BitAt(f, k)
  {
    hide Owner, ApplyAll, BitAt, Write.Covers, WriteOf;
    forall j | 0 <= j < WRITES ensures !Writes(c)[j].Covers(k) {
      Owns(c, j, k);
    }
    BitKept(f, Writes(c), k);
  }

  /** Tasks that share the buffer do not leak into each other: an update hides every update before it. */
  lemma UpdateForgets(f: seq<Byte>, a: Control, b: Control)
    requires a.Valid() && b.Valid() && |f| == 64
    ensures Sent(Sent(f, a), b) == Sent(f, b)
  {
    hide Owner, ApplyAll, WriteOf, Write.Covers;
    forall j: nat, k: nat | j < WRITES ensures Writes(a)[j].Covers(k) <==> Writes(b)[j].Covers(k) {
      Owns(a, j, k);
      Owns(b, j, k);
    }
    Overwrites(f, Writes(a), Writes(b));
  }
}
