/** The 0x443 wiper message of singleApi/cdc_15_443.c: twelve wipers of six signals each, and ten single signals. */
module Frame443 {
  import opened Signals

  const WIPERS := 12
  const CALLS := 82

  /** The wipers in the order of the calls. */
  const RI_CAM := 0
  const RE_CAM := 1
  const LE_CAM := 2
  const FR_CAM := 3
  const FL_CAM := 4
  const LF_PCAM := 5
  const RI_BLID := 6
  const LE_BLID := 7
  const FR_BLID := 8
  const RRB_PCAM := 9
  const LRB_PCAM := 10
  const RE_BLID_RAC := 11

  datatype Wiper = Wiper(ctl: int, serv: int, number: int, frequency: int, travel: int, location: int)

  /** The struct; enumerations are passed on as `int`. */
  datatype Settings = Settings(
    wipers: seq<Wiper>, lmControlMove: int, lmMoveTargetPosition: int, racControlMove: int, rac5ControlMove: int,
    rac4MovetargetPosition: int, rac5MovetargetPosition: int, freshnessCounter: int, authcodeB0: int, authcodeB1: int,
    authcodeB2: int)
  {
    predicate Valid() {
      |wipers| == WIPERS
    }
  }

  /** The first of the four bytes of wiper `w`. */
  function Base(w: nat): nat {
    if w < 9 then 4 * w else 4 * w + 2
  }

  /** The number of the first setter call for wiper `w`. */
  function First(w: nat): nat {
    if w < 9 then 6 * w else 6 * w + 2
  }

  function WiperCall(base: nat, v: Wiper, part: nat): (w: Write)
    requires base <= 46
    ensures w.Fits(64)
  {
    if part == 0 then Write(base, 0, 3, ToByte(v.ctl))
    else if part == 1 then Write(base, 3, 2, ToByte(v.serv))
    else if part == 2 then Write(base, 5, 3, ToByte(v.number))
    else if part == 3 then Write(base + 1, 0, 8, ToByte(v.frequency))
    else if part == 4 then Write(base + 2, 0, 8, Clamp(0, 100, v.travel))
    else Write(base + 3, 0, 8, ToByte(v.location))
  }

  function OtherCall(c: Settings, n: nat): (w: Write)
    requires n < 10
    ensures w.Fits(64)
  {
    match n
    case 0 => Write(36, 0, 1, ToByte(c.lmControlMove))
    case 1 => Write(37, 0, 8, Clamp(0, 100, c.lmMoveTargetPosition))
    case 2 => Write(50, 0, 1, ToByte(c.racControlMove))
    case 3 => Write(50, 1, 1, ToByte(c.rac5ControlMove))
    case 4 => Write(51, 0, 8, ToByte(c.rac4MovetargetPosition))
    case 5 => Write(52, 0, 8, ToByte(c.rac5MovetargetPosition))
    case 6 => Write(60, 0, 8, Clamp(0, 255, c.freshnessCounter))
    case 7 => Write(61, 0, 8, Clamp(0, 255, c.authcodeB0))
    case 8 => Write(62, 0, 8, Clamp(0, 255, c.authcodeB1))
    case _ => Write(63, 0, 8, Clamp(0, 255, c.authcodeB2))
  }

  /** The `j`-th call of `Byte_set_value` in `Cdc15443_UpdateData`. */
  function CallOf(c: Settings, j: nat): (w: Write)
    requires c.Valid() && j < CALLS
    ensures w.Fits(64)
  {
    if j < 54 then WiperCall(Base(j / 6), c.wipers[j / 6], j % 6)
    else if j < 56 then OtherCall(c, j - 54)
    else if j < 74 then WiperCall(Base((j - 2) / 6), c.wipers[(j - 2) / 6], (j - 2) % 6)
    else OtherCall(c, j - 72)
  }

  function Calls(c: Settings): (ws: seq<Write>)
    requires c.Valid()
    ensures |ws| == CALLS && AllFit(ws, 64) && forall j :: 0 <= j < CALLS ==> ws[j] == CallOf(c, j)
  {
    seq(CALLS, j requires 0 <= j < CALLS => CallOf(c, j))
  }

  /** The buffer after `Cdc15443_UpdateData`. */
  function Sent(f: seq<Byte>, c: Settings): (r: seq<Byte>)
    requires c.Valid() && |f| == 64
    ensures |r| == 64
  {
    ApplyAll(f, Calls(c))
  }

  lemma CallMore(f: seq<Byte>, c: Settings, j: nat)
    requires c.Valid() && j < CALLS && |f| == 64
    ensures ApplyAll(f, Calls(c)[..j + 1]) == Apply(ApplyAll(f, Calls(c)[..j]), CallOf(c, j))
    ensures ApplyAll(f, Calls(c)[..0]) == f
  {
    assert Calls(c)[..j + 1][..j] == Calls(c)[..j];
  }

  lemma OneCall(f: seq<Byte>, w: Write)
    requires w.at < |f|
    ensures Apply(f, w) == f[w.at := Field(f[w.at], w.start, w.length, w.value)]
  {
  }

  /** `Cdc15443_UpdateData` on the static buffer `Data443`; the loop stands for the eighty-two calls. */
  method UpdateData(c: Settings, data: array<Byte>)
    requires c.Valid() && data.Length == 64
    modifies data
    ensures data[..] == Sent(old(data[..]), c)
  {
    hide Apply, ApplyAll, Field, CallOf;
    ghost var was := data[..];
    CallMore(was, c, 0);
    for j := 0 to CALLS
      invariant data[..] == ApplyAll(was, Calls(c)[..j])
    {
      var w := CallOf(c, j);
      ghost var now := data[..];
      ByteSetValue(w.value, w.start, w.length, data, w.at);
      OneCall(now, w);
      CallMore(was, c, j);
    }
    assert Calls(c)[..CALLS] == Calls(c);
  }

  // ---------------------------------------------------------------- layout

  function PartAt(offset: nat, bit: nat): nat {
    if offset == 0 then (if bit < 3 then 0 else if bit < 5 then 1 else 2) else 2 + offset
  }

  /** The call that owns bit `bit` of byte `at`, or `CALLS`. */
  function OwnerAt(at: nat, bit: nat): nat {
    if at < 36 then 6 * (at / 4) + PartAt(at % 4, bit)
    else if at < 38 then (if at == 36 && bit > 0 then CALLS else 54 + (at - 36))
    else if at < 50 then 56 + 6 * ((at - 38) / 4) + PartAt((at - 38) % 4, bit)
    else if at == 50 then (if bit == 0 then 74 else if bit == 1 then 75 else CALLS)
    else if at < 53 then 25 + at
    else if 60 <= at < 64 then 18 + at
    else CALLS
  }

  lemma WiperByte(w: nat, offset: nat, bit: nat)
    requires w < WIPERS && offset < 4
    ensures OwnerAt(Base(w) + offset, bit) == First(w) + PartAt(offset, bit)
  {
    hide PartAt;
    if w < 9 {
      assert (4 * w + offset) / 4 == w && (4 * w + offset) % 4 == offset;
    } else {
      var x := w - 9;
      assert (4 * x + offset) / 4 == x && (4 * x + offset) % 4 == offset;
    }
  }

  lemma WiperOwner(w: nat, v: Wiper, part: nat, k: nat)
    requires w < WIPERS && part < 6 && WiperCall(Base(w), v, part).Covers(k)
    ensures OwnerAt(k / 8, k % 8) == First(w) + part
  {
    hide Clamp, ToByte, OwnerAt, First;
    var c := WiperCall(Base(w), v, part);
    CoversByte(c, k);
    WiperByte(w, c.at - Base(w), k % 8);
    assert k / 8 == Base(w) + (c.at - Base(w));
  }

  lemma CoversByte(c: Write, k: nat)
    requires c.Fits(64) && c.Covers(k)
    ensures k / 8 == c.at && c.start <= k % 8 < c.start + c.length
  {
  }

  lemma OtherOwner(c: Settings, n: nat, k: nat)
    requires n < 10 && OtherCall(c, n).Covers(k)
    ensures OwnerAt(k / 8, k % 8) == if n < 2 then 54 + n else 72 + n
  {
    var w := OtherCall(c, n);
    assert k / 8 == w.at && k % 8 == k - 8 * w.at;
  }

  /** Every bit of the message is written by at most one call. */
  lemma Owns(c: Settings, j: nat, k: nat)
    requires c.Valid() && j < CALLS && CallOf(c, j).Covers(k)
    ensures OwnerAt(k / 8, k % 8) == j
  {
    hide OwnerAt, WiperCall, OtherCall, Write.Covers;
    if j < 54 {
      WiperOwner(j / 6, c.wipers[j / 6], j % 6, k);
    } else if j < 56 {
      OtherOwner(c, j - 54, k);
    } else if j < 74 {
      WiperOwner((j - 2) / 6, c.wipers[(j - 2) / 6], (j - 2) % 6, k);
    } else {
      OtherOwner(c, j - 72, k);
    }
  }

  lemma ReadsBack(f: seq<Byte>, c: Settings, j: nat)
    requires c.Valid() && |f| == 64 && j < CALLS
    ensures var w := CallOf(c, j); Extract(Sent(f, c), 8 * w.at + w.start, w.length) == w.value % Pow2(w.length)
  {
    hide CallOf, OwnerAt, ApplyAll, Extract, Write.Covers;
    forall i: nat, k: nat | j < i < CALLS && Calls(c)[j].Covers(k) ensures !Calls(c)[i].Covers(k) {
      Owns(c, j, k);
      if CallOf(c, i).Covers(k) {
        Owns(c, i, k);
      }
    }
    FieldReadBack(f, Calls(c), j);
  }

  /** Control, frequency and count of a wiper, as a receiver of the message reads them. */
  datatype Command = Command(ctl: int, frequency: int, number: int)

  function Read(f: seq<Byte>, w: nat): Command
    requires |f| == 64 && w < WIPERS
  {
    Command(Extract(f, 8 * Base(w), 3), Extract(f, 8 * Base(w) + 8, 8), Extract(f, 8 * Base(w) + 5, 3))
  }

  /** A command cut to the widths of its three signals. */
  function Cut(c: Command): Command {
    Command(c.ctl % 8, c.frequency % 256, c.number % 8)
  }

  function CommandOf(v: Wiper): Command {
    Command(v.ctl, v.frequency, v.number)
  }

  lemma PartOf(c: Settings, w: nat, part: nat)
    requires c.Valid() && w < WIPERS && part < 6
    ensures First(w) + part < CALLS && CallOf(c, First(w) + part) == WiperCall(Base(w), c.wipers[w], part)
  {
    hide WiperCall, OtherCall, Base;
    if w < 9 {
      assert (6 * w + part) / 6 == w && (6 * w + part) % 6 == part;
    } else {
      assert (6 * w + 2 + part - 2) / 6 == w && (6 * w + 2 + part - 2) % 6 == part;
    }
  }

  lemma LowBits(x: int)
    ensures ToByte(x) % 8 == x % 8
  {
    var q, r := x / 256, x % 256;
    EightTimes(32 * q + r / 8, r % 8);
    assert x == 8 * (32 * q + r / 8) + r % 8;
  }

  lemma EightTimes(a: int, b: int)
    requires 0 <= b < 8
    ensures (8 * a + b) % 8 == b
  {
  }

  /** The message carries the struct's command for every wiper, whatever the buffer held before. */
  lemma CommandReadsBack(f: seq<Byte>, c: Settings, w: nat)
    requires c.Valid() && |f| == 64 && w < WIPERS
    ensures Read(Sent(f, c), w) == Cut(CommandOf(c.wipers[w]))
  {
    hide Sent, Extract, CallOf, ToByte, Pow2;
    Widths();
    PartOf(c, w, 0);
    PartOf(c, w, 2);
    PartOf(c, w, 3);
    ReadsBack(f, c, First(w));
    ReadsBack(f, c, First(w) + 2);
    ReadsBack(f, c, First(w) + 3);
    LowBits(c.wipers[w].ctl);
    LowBits(c.wipers[w].number);
    WholeByte(c.wipers[w].frequency);
  }

  lemma Widths()
    ensures Pow2(1) == 2 && Pow2(2) == 4 && Pow2(3) == 8 && Pow2(8) == 256
  {
  }

  lemma WholeByte(x: int)
    ensures ToByte(x) % 256 == x % 256
  {
  }

  // ---------------------------------------------------------------- what a receiver finds where

  /** The six signals of a wiper from start bit `start` on. */
  predicate WiperAt(g: seq<Byte>, start: nat, v: Wiper)
    requires start + 32 <= 8 * |g|
  {
    && Extract(g, start, 3) == v.ctl % 8 && Extract(g, start + 3, 2) == v.serv % 4 && Extract(g, start + 5, 3) == v.number % 8
    && Extract(g, start + 8, 8) == v.frequency % 256 && Extract(g, start + 16, 8) == Clamp(0, 100, v.travel)
    && Extract(g, start + 24, 8) == v.location % 256
  }

  predicate CamerasCarried(g: seq<Byte>, wipers: seq<Wiper>)
    requires |g| == 64 && |wipers| == WIPERS
  {
    && WiperAt(g, 0, wipers[RI_CAM]) && WiperAt(g, 32, wipers[RE_CAM]) && WiperAt(g, 64, wipers[LE_CAM])
    && WiperAt(g, 96, wipers[FR_CAM]) && WiperAt(g, 128, wipers[FL_CAM]) && WiperAt(g, 160, wipers[LF_PCAM])
  }

  predicate LidarsCarried(g: seq<Byte>, wipers: seq<Wiper>)
    requires |g| == 64 && |wipers| == WIPERS
  {
    && WiperAt(g, 192, wipers[RI_BLID]) && WiperAt(g, 224, wipers[LE_BLID]) && WiperAt(g, 256, wipers[FR_BLID])
    && WiperAt(g, 304, wipers[RRB_PCAM]) && WiperAt(g, 336, wipers[LRB_PCAM]) && WiperAt(g, 368, wipers[RE_BLID_RAC])
  }

  predicate MovesCarried(g: seq<Byte>, c: Settings)
    requires |g| == 64
  {
    && Extract(g, 288, 1) == c.lmControlMove % 2
    && Extract(g, 296, 8) == Clamp(0, 100, c.lmMoveTargetPosition)
    && Extract(g, 400, 1) == c.racControlMove % 2
    && Extract(g, 401, 1) == c.rac5ControlMove % 2
    && Extract(g, 408, 8) == c.rac4MovetargetPosition % 256
    && Extract(g, 416, 8) == c.rac5MovetargetPosition % 256
  }

  predicate CodesCarried(g: seq<Byte>, c: Settings)
    requires |g| == 64
  {
    && Extract(g, 480, 8) == Clamp(0, 255, c.freshnessCounter)
    && Extract(g, 488, 8) == Clamp(0, 255, c.authcodeB0)
    && Extract(g, 496, 8) == Clamp(0, 255, c.authcodeB1)
    && Extract(g, 504, 8) == Clamp(0, 255, c.authcodeB2)
  }

  lemma FourBits(x: int)
    ensures ToByte(x) % 4 == x % 4
  {
    var q, r := x / 256, x % 256;
    FourTimes(64 * q + r / 4, r % 4);
    assert x == 4 * (64 * q + r / 4) + r % 4;
  }

  lemma OneBit(x: int)
    ensures ToByte(x) % 2 == x % 2
  {
    var q, r := x / 256, x % 256;
    TwoTimes(128 * q + r / 2, r % 2);
    assert x == 2 * (128 * q + r / 2) + r % 2;
  }

  lemma FourTimes(a: int, b: int)
    requires 0 <= b < 4
    ensures (4 * a + b) % 4 == b
  {
  }

  lemma TwoTimes(a: int, b: int)
    requires 0 <= b < 2
    ensures (2 * a + b) % 2 == b
  {
  }

  lemma PartReadsBack(f: seq<Byte>, c: Settings, w: nat, part: nat)
    requires c.Valid() && |f| == 64 && w < WIPERS && part < 6
    ensures var call := WiperCall(Base(w), c.wipers[w], part);
            Extract(Sent(f, c), 8 * call.at + call.start, call.length) == call.value % Pow2(call.length)
  {
    hide Sent, Extract, CallOf, WiperCall, Pow2, First, Base;
    PartOf(c, w, part);
    ReadsBack(f, c, First(w) + part);
  }

  lemma WiperReadsBack(f: seq<Byte>, c: Settings, w: nat)
    requires c.Valid() && |f| == 64 && w < WIPERS
    ensures WiperAt(Sent(f, c), 8 * Base(w), c.wipers[w])
  {
    hide Sent, Extract, ToByte, Clamp, Pow2, Base;
    FirstByteReadsBack(f, c, w);
    var v := c.wipers[w];
    Widths();
    PartReadsBack(f, c, w, 3);
    PartReadsBack(f, c, w, 4);
    PartReadsBack(f, c, w, 5);
    WholeByte(v.frequency);
    WholeByte(v.location);
  }

  lemma FirstByteReadsBack(f: seq<Byte>, c: Settings, w: nat)
    requires c.Valid() && |f| == 64 && w < WIPERS
    ensures var g, lo, v := Sent(f, c), 8 * Base(w), c.wipers[w];
            lo + 8 <= 512 && Extract(g, lo, 3) == v.ctl % 8 && Extract(g, lo + 3, 2) == v.serv % 4
            && Extract(g, lo + 5, 3) == v.number % 8
  {
    hide Sent, Extract, ToByte, Clamp, Pow2;
    var v := c.wipers[w];
    Widths();
    PartReadsBack(f, c, w, 0);
    PartReadsBack(f, c, w, 1);
    PartReadsBack(f, c, w, 2);
    LowBits(v.ctl);
    FourBits(v.serv);
    LowBits(v.number);
  }

  lemma OtherReadsBack(f: seq<Byte>, c: Settings, n: nat)
    requires c.Valid() && |f| == 64 && n < 10
    ensures var w := OtherCall(c, n);
            Extract(Sent(f, c), 8 * w.at + w.start, w.length) == w.value % Pow2(w.length)
  {
    hide Sent, Extract, Pow2, OtherCall, WiperCall, Base;
    ReadsBack(f, c, if n < 2 then 54 + n else 72 + n);
  }

  lemma MovesReadBack(f: seq<Byte>, c: Settings)
    requires c.Valid() && |f| == 64
    ensures MovesCarried(Sent(f, c), c)
  {
    hide Sent, Extract, ToByte, Clamp, Pow2;
    Widths();
    OtherReadsBack(f, c, 0);
    OtherReadsBack(f, c, 1);
    OtherReadsBack(f, c, 2);
    OtherReadsBack(f, c, 3);
    OtherReadsBack(f, c, 4);
    OtherReadsBack(f, c, 5);
    OneBit(c.lmControlMove);
    OneBit(c.racControlMove);
    OneBit(c.rac5ControlMove);
    WholeByte(c.rac4MovetargetPosition);
    WholeByte(c.rac5MovetargetPosition);
  }

  lemma CodesReadBack(f: seq<Byte>, c: Settings)
    requires c.Valid() && |f| == 64
    ensures CodesCarried(Sent(f, c), c)
  {
    hide Sent, Extract, ToByte, Clamp, Pow2;
    Widths();
    OtherReadsBack(f, c, 6);
    OtherReadsBack(f, c, 7);
    OtherReadsBack(f, c, 8);
    OtherReadsBack(f, c, 9);
  }

  /** A receiver that knows the start bits and lengths reads the struct, whatever the buffer held before. */
  lemma StructCarried(f: seq<Byte>, c: Settings)
    requires c.Valid() && |f| == 64
    ensures var g := Sent(f, c);
            CamerasCarried(g, c.wipers) && LidarsCarried(g, c.wipers) && MovesCarried(g, c) && CodesCarried(g, c)
  {
    hide Sent, WiperAt, MovesCarried, CodesCarried;
    MovesReadBack(f, c);
    CodesReadBack(f, c);
    forall w | 0 <= w < WIPERS ensures WiperAt(Sent(f, c), 8 * Base(w), c.wipers[w]) { WiperReadsBack(f, c, w); }
    assert Base(0) == 0 && Base(8) == 32 && Base(9) == 38 && Base(10) == 42 && Base(11) == 46;
  }

  lemma SamePlace(a: Settings, b: Settings, j: nat)
    requires a.Valid() && b.Valid() && j < CALLS
    ensures var x, y := CallOf(a, j), CallOf(b, j); x.at == y.at && x.start == y.start && x.length == y.length
  {
    hide Base;
  }

  /** Bits that belong to no signal keep their value. */
  lemma UnownedKept(f: seq<Byte>, c: Settings, k: nat)
    requires c.Valid() && |f| == 64 && k < 512 && OwnerAt(k / 8, k % 8) == CALLS
    ensures BitAt(Sent(f, c), k) == BitAt(f, k)
  {
    hide OwnerAt, CallOf, ApplyAll, BitAt, Write.Covers;
    forall j | 0 <= j < CALLS ensures !Calls(c)[j].Covers(k) {
      if CallOf(c, j).Covers(k) { Owns(c, j, k); }
    }
    BitKept(f, Calls(c), k);
  }

  /** An update hides every update before it. */
  lemma UpdateForgets(f: seq<Byte>, a: Settings, b: Settings)
    requires a.Valid() && b.Valid() && |f| == 64
    ensures Sent(Sent(f, a), b) == Sent(f, b)
  {
    hide ApplyAll, CallOf;
    forall j: nat, k: nat | j < CALLS ensures Calls(a)[j].Covers(k) <==> Calls(b)[j].Covers(k) {
      SamePlace(a, b, j);
    }
    Overwrites(f, Calls(a), Calls(b));
  }
}
