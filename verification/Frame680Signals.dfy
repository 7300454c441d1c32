/** The 0x680 control message as its receivers know it: every signal by its name, at its start bit and with its length. */
module Frame680Signals {
  import opened Signals
  import opened Frame680

  predicate InBytes0To1(g: seq<Byte>, c: Settings)
    requires |g| == 48
  {
    && Extract(g, 0, 2) == c.frontShieldPwrReq % 4
    && Extract(g, 2, 2) == c.fisheyeRCmrShieldReq % 4
    && Extract(g, 4, 2) == c.fisheyeLCmrShieldReq % 4
    && Extract(g, 6, 2) == c.fisheyeFCmrShieldReq % 4
    && Extract(g, 8, 2) == c.cleanpumpecupwr % 4
    && Extract(g, 10, 2) == c.ffisheyeledctrl % 4
    && Extract(g, 12, 2) == c.flfisheyeledctrl % 4
    && Extract(g, 14, 2) == c.frfisheyeledctrl % 4
  }

  predicate InBytes2To4(g: seq<Byte>, c: Settings)
    requires |g| == 48
  {
    && Extract(g, 16, 8) == PumpSteps(c.cleanpumpspd)
    && Extract(g, 24, 2) == c.rilidarwprpwr % 4
    && Extract(g, 26, 2) == c.lelidarwprpwr % 4
    && Extract(g, 28, 2) == c.autoLpCmrWprPwrReq % 4
    && Extract(g, 30, 2) == c.frlidarwprpwr % 4
    && Extract(g, 36, 2) == c.rilidarvalvepwr % 4
    && Extract(g, 38, 2) == c.fisheyeRCmrValvePwrReq % 4
  }

  predicate InBytes5To6(g: seq<Byte>, c: Settings)
    requires |g| == 48
  {
    && Extract(g, 40, 2) == c.frlidarvalvepwr % 4
    && Extract(g, 42, 2) == c.fisheyeFCmrValvePwrReq % 4
    && Extract(g, 44, 2) == c.lelidarvalvepwr % 4
    && Extract(g, 46, 2) == c.fisheyeLCmrValvePwrReq % 4
    && Extract(g, 48, 2) == c.autoLpCmrValvePwrReq % 4
    && Extract(g, 50, 2) == c.fisheyeLCmrHeatReq % 4
    && Extract(g, 52, 2) == c.fisheyeFCmrHeatReq % 4
    && Extract(g, 54, 2) == c.fisheyeRCmrHeatReq % 4
  }

  predicate InBytes7To8(g: seq<Byte>, c: Settings)
    requires |g| == 48
  {
    && Extract(g, 56, 2) == c.autoLpCmrHeatReq % 4
    && Extract(g, 58, 2) == c.topShieldPwrReq % 4
    && Extract(g, 60, 2) == c.mlidarshieldmove % 4
    && Extract(g, 62, 2) == c.frontCmrSreenShieldReq % 4
    && Extract(g, 64, 2) == c.autoLCmrShieldReq % 4
    && Extract(g, 66, 2) == c.autoRCmrShieldReq % 4
    && Extract(g, 68, 2) == c.autoBCmrShieldReq % 4
    && Extract(g, 70, 2) == c.autoRfCmrWprPwrReq % 4
  }

  predicate InBytes9To10(g: seq<Byte>, c: Settings)
    requires |g| == 48
  {
    && Extract(g, 72, 2) == c.autoLfCmrWprPwrReq % 4
    && Extract(g, 74, 2) == c.autoRCmrWprPwrReq % 4
    && Extract(g, 76, 2) == c.autoLCmrWprPwrReq % 4
    && Extract(g, 78, 2) == c.autoBCmrWprPwrReq % 4
    && Extract(g, 86, 2) == c.autoBCmrValvePwrReq % 4
  }

  predicate InBytes11To12(g: seq<Byte>, c: Settings)
    requires |g| == 48
  {
    && Extract(g, 88, 2) == c.mlidarvalvepwr % 4
    && Extract(g, 90, 2) == c.autoLfCmrValvePwrReq % 4
    && Extract(g, 92, 2) == c.autoRfCmrValvePwrReq % 4
    && Extract(g, 94, 2) == c.autoLCmrValvePwrReq % 4
    && Extract(g, 96, 2) == c.autoRCmrValvePwrReq % 4
    && Extract(g, 98, 2) == c.autoBCmrHeatReq % 4
    && Extract(g, 100, 2) == c.autoRCmrHeatReq % 4
    && Extract(g, 102, 2) == c.autoLCmrHeatReq % 4
  }

  predicate InBytes13To14(g: seq<Byte>, c: Settings)
    requires |g| == 48
  {
    && Extract(g, 104, 2) == c.autoRfCmrHeatReq % 4
    && Extract(g, 106, 2) == c.autoLfCmrHeatReq % 4
    && Extract(g, 108, 2) == c.rearShieldPwrReq % 4
    && Extract(g, 110, 2) == c.fisheyeBCmrShieldReq % 4
    && Extract(g, 112, 2) == c.relidarwprpwr % 4
    && Extract(g, 114, 2) == c.autoLbCmrWprPwrReq % 4
    && Extract(g, 116, 2) == c.autoRbCmrWprPwrReq % 4
    && Extract(g, 118, 2) == c.rfisheyeledctrl % 4
  }

  predicate InBytes15To16(g: seq<Byte>, c: Settings)
    requires |g| == 48
  {
    && Extract(g, 122, 2) == c.autoRlCmrValvePwrReq % 4
    && Extract(g, 124, 2) == c.autoRrCmrValvePwrReq % 4
    && Extract(g, 126, 2) == c.fisheyeBCmrValvePwrReq % 4
    && Extract(g, 128, 2) == c.relidarvalvepwr % 4
    && Extract(g, 130, 2) == c.autoRbCmrHeatReq % 4
    && Extract(g, 132, 2) == c.autoLbCmrHeatReq % 4
    && Extract(g, 134, 2) == c.fisheyeBCmrHeatReq % 4
  }

  predicate InBytes17To18(g: seq<Byte>, c: Settings)
    requires |g| == 48
  {
    && Extract(g, 136, 2) == c.rilidarwprmove % 4
    && Extract(g, 138, 2) == c.lelidarwprmove % 4
    && Extract(g, 140, 2) == c.autoLpCmrWprReq % 4
    && Extract(g, 142, 2) == c.frlidarwprmove % 4
    && Extract(g, 144, 2) == c.autoRfCmrWprReq % 4
    && Extract(g, 146, 2) == c.autoLfCmrWprReq % 4
    && Extract(g, 148, 2) == c.autoRCmrWprReq % 4
    && Extract(g, 150, 2) == c.autoLCmrWprReq % 4
  }

  predicate InBytes19To20(g: seq<Byte>, c: Settings)
    requires |g| == 48
  {
    && Extract(g, 152, 2) == c.autoBCmrWprReq % 4
    && Extract(g, 154, 2) == c.relidarwprmove % 4
    && Extract(g, 156, 2) == c.autoLbCmrWprReq % 4
    && Extract(g, 158, 2) == c.autoRbCmrWprReq % 4
    && Extract(g, 160, 2) == c.frchassisvvctrl % 4
    && Extract(g, 162, 2) == c.midchassisvvctrl % 4
    && Extract(g, 164, 2) == c.rechassisvvctrl % 4
    && Extract(g, 166, 2) == c.frchassiscmrheatpwrctrl % 4
  }

  predicate InBytes21To24(g: seq<Byte>, c: Settings)
    requires |g| == 48
  {
    && Extract(g, 168, 2) == c.michassiscmrheatpwrctrl % 4
    && Extract(g, 170, 2) == c.rechassiscmrheatpwrctrl % 4
    && Extract(g, 172, 1) == c.frchassisctrl % 2
    && Extract(g, 173, 1) == c.midchassisctrl % 2
    && Extract(g, 174, 1) == c.rechassisctrl % 2
    && Extract(g, 176, 8) == Clamp(0, 100, c.frchassistgtctrl)
    && Extract(g, 184, 8) == Clamp(0, 100, c.midchassistgtctrl)
    && Extract(g, 192, 8) == Clamp(0, 100, c.rechassistgtctrl)
  }

  predicate InBytes28To37(g: seq<Byte>, c: Settings)
    requires |g| == 48
  {
    && Extract(g, 224, 8) == Clamp(0, 255, c.secocFreshnesscounterc1)
    && Extract(g, 232, 8) == Clamp(0, 255, c.secocAuthcodec1B0Msb)
    && Extract(g, 242, 2) == c.chassisCmrLEDPwrctrl % 4
    && Extract(g, 248, 8) == Clamp(0, 255, c.secocAuthcodec1B2Lsb)
    && Extract(g, 298, 2) == c.rechsCAMLEDPwrctrl % 4
    && Extract(g, 300, 2) == c.midchsCAMLEDPwrctrl % 4
  }

  /** Every signal but the second byte of the authentication code, at its start bit and with its length. */
  predicate Carries(g: seq<Byte>, c: Settings)
    requires |g| == 48
  {
    && InBytes0To1(g, c) && InBytes2To4(g, c) && InBytes5To6(g, c) && InBytes7To8(g, c)
    && InBytes9To10(g, c) && InBytes11To12(g, c) && InBytes13To14(g, c) && InBytes15To16(g, c)
    && InBytes17To18(g, c) && InBytes19To20(g, c) && InBytes21To24(g, c) && InBytes28To37(g, c)
  }

  lemma Remainders(x: int)
    ensures ToByte(x) % 4 == x % 4 && ToByte(x) % 2 == x % 2
  {
    ModFour(x);
    ModTwo(x);
  }

  lemma ModFour(x: int)
    ensures ToByte(x) % 4 == x % 4
  {
    var q, r := x / 256, x % 256;
    FourTimes(64 * q + r / 4, r % 4);
    assert x == 4 * (64 * q + r / 4) + r % 4;
  }

  lemma ModTwo(x: int)
    ensures ToByte(x) % 2 == x % 2
  {
    var q, r := x / 256, x % 256;
    TwoTimes(128 * q + r / 2, r % 2);
    assert x == 2 * (128 * q + r / 2) + r % 2;
  }

  lemma FourTimes(a: int, b: int)
    requires 0 <= b < 4
    ensures (4 * a + b) % 4 == b
  {
  }

  lemma TwoTimes(a: int, b: int)
    requires 0 <= b < 2
    ensures (2 * a + b) % 2 == b
  {
  }

  lemma Widths()
    ensures Pow2(1) == 2 && Pow2(2) == 4 && Pow2(8) == 256
  {
  }

  /** A request of one or two bits. */
  lemma RequestCarried(f: seq<Byte>, c: Settings, j: nat, x: int)
    requires |f| == 48 && j < CALLS && j != AUTHCODE_B1 && ValueOf(c, j) == ToByte(x)
    requires 1 <= PlaceOf(j).length <= 2
    ensures var p := PlaceOf(j);
            Extract(Sent(f, c), 8 * p.at + p.start, p.length) == if p.length == 1 then x % 2 else x % 4
  {
    hide Sent, Extract, ToByte, Pow2, PlaceOf, ValueOf;
    Widths();
    Remainders(x);
    ReadsBack(f, c, j);
  }

  /** A number of eight bits. */
  lemma NumberCarried(f: seq<Byte>, c: Settings, j: nat)
    requires |f| == 48 && j < CALLS && j != AUTHCODE_B1 && PlaceOf(j).length == 8
    ensures var p := PlaceOf(j); Extract(Sent(f, c), 8 * p.at + p.start, 8) == ValueOf(c, j)
  {
    hide Sent, Extract, Pow2, PlaceOf, ValueOf;
    Widths();
    ReadsBack(f, c, j);
  }

  lemma LowRequest(f: seq<Byte>, c: Settings, j: nat, p: Place, x: int)
    requires |f| == 48 && j < 30 && PlaceLow(j) == p && ValueLow(c, j) == ToByte(x)
    requires p.at < 38 && p.start + p.length <= 8 && 1 <= p.length <= 2
    ensures Extract(Sent(f, c), 8 * p.at + p.start, p.length) == if p.length == 1 then x % 2 else x % 4
  {
    hide Sent, Extract, ToByte, Pow2, PlaceLow, ValueLow;
    RequestCarried(f, c, j, x);
  }

  lemma MiddleRequest(f: seq<Byte>, c: Settings, j: nat, p: Place, x: int)
    requires |f| == 48 && 30 <= j < 60 && PlaceMiddle(j) == p && ValueMiddle(c, j) == ToByte(x)
    requires p.at < 38 && p.start + p.length <= 8 && 1 <= p.length <= 2
    ensures Extract(Sent(f, c), 8 * p.at + p.start, p.length) == if p.length == 1 then x % 2 else x % 4
  {
    hide Sent, Extract, ToByte, Pow2, PlaceMiddle, ValueMiddle;
    RequestCarried(f, c, j, x);
  }

  lemma HighRequest(f: seq<Byte>, c: Settings, j: nat, p: Place, x: int)
    requires |f| == 48 && 60 <= j < CALLS && j != AUTHCODE_B1 && PlaceHigh(j) == p && ValueHigh(c, j) == ToByte(x)
    requires p.at < 38 && p.start + p.length <= 8 && 1 <= p.length <= 2
    ensures Extract(Sent(f, c), 8 * p.at + p.start, p.length) == if p.length == 1 then x % 2 else x % 4
  {
    hide Sent, Extract, ToByte, Pow2, PlaceHigh, ValueHigh;
    RequestCarried(f, c, j, x);
  }

  lemma LowNumber(f: seq<Byte>, c: Settings, j: nat, at: nat)
    requires |f| == 48 && j < 30 && at < 38 && PlaceLow(j) == Place(at, 0, 8)
    ensures Extract(Sent(f, c), 8 * at, 8) == ValueLow(c, j)
  {
    hide Sent, Extract, Pow2, PlaceLow, ValueLow;
    NumberCarried(f, c, j);
  }

  lemma HighNumber(f: seq<Byte>, c: Settings, j: nat, at: nat)
    requires |f| == 48 && 60 <= j < CALLS && j != AUTHCODE_B1 && at < 38 && PlaceHigh(j) == Place(at, 0, 8)
    ensures Extract(Sent(f, c), 8 * at, 8) == ValueHigh(c, j)
  {
    hide Sent, Extract, Pow2, PlaceHigh, ValueHigh;
    NumberCarried(f, c, j);
  }

  lemma InBytes0To1Is(f: seq<Byte>, c: Settings)
    requires |f| == 48
    ensures InBytes0To1(Sent(f, c), c)
  {
    hide Sent, Extract, ToByte, Clamp, PumpSteps;
    LowRequest(f, c, 6, Place(0, 0, 2), c.frontShieldPwrReq);
    LowRequest(f, c, 7, Place(0, 2, 2), c.fisheyeRCmrShieldReq);
    LowRequest(f, c, 8, Place(0, 4, 2), c.fisheyeLCmrShieldReq);
    LowRequest(f, c, 9, Place(0, 6, 2), c.fisheyeFCmrShieldReq);
    LowRequest(f, c, 10, Place(1, 0, 2), c.cleanpumpecupwr);
    HighRequest(f, c, 77, Place(1, 2, 2), c.ffisheyeledctrl);
    HighRequest(f, c, 78, Place(1, 4, 2), c.flfisheyeledctrl);
    HighRequest(f, c, 79, Place(1, 6, 2), c.frfisheyeledctrl);
  }

  lemma InBytes2To4Is(f: seq<Byte>, c: Settings)
    requires |f| == 48
    ensures InBytes2To4(Sent(f, c), c)
  {
    hide Sent, Extract, ToByte, Clamp, PumpSteps;
    LowNumber(f, c, 11, 2);
    LowRequest(f, c, 12, Place(3, 0, 2), c.rilidarwprpwr);
    LowRequest(f, c, 13, Place(3, 2, 2), c.lelidarwprpwr);
    LowRequest(f, c, 14, Place(3, 4, 2), c.autoLpCmrWprPwrReq);
    LowRequest(f, c, 15, Place(3, 6, 2), c.frlidarwprpwr);
    LowRequest(f, c, 20, Place(4, 4, 2), c.rilidarvalvepwr);
    LowRequest(f, c, 21, Place(4, 6, 2), c.fisheyeRCmrValvePwrReq);
  }

  lemma InBytes5To6Is(f: seq<Byte>, c: Settings)
    requires |f| == 48
    ensures InBytes5To6(Sent(f, c), c)
  {
    hide Sent, Extract, ToByte, Clamp, PumpSteps;
    LowRequest(f, c, 22, Place(5, 0, 2), c.frlidarvalvepwr);
    LowRequest(f, c, 23, Place(5, 2, 2), c.fisheyeFCmrValvePwrReq);
    LowRequest(f, c, 24, Place(5, 4, 2), c.lelidarvalvepwr);
    LowRequest(f, c, 25, Place(5, 6, 2), c.fisheyeLCmrValvePwrReq);
    LowRequest(f, c, 26, Place(6, 0, 2), c.autoLpCmrValvePwrReq);
    LowRequest(f, c, 27, Place(6, 2, 2), c.fisheyeLCmrHeatReq);
    LowRequest(f, c, 28, Place(6, 4, 2), c.fisheyeFCmrHeatReq);
    LowRequest(f, c, 29, Place(6, 6, 2), c.fisheyeRCmrHeatReq);
  }

  lemma InBytes7To8Is(f: seq<Byte>, c: Settings)
    requires |f| == 48
    ensures InBytes7To8(Sent(f, c), c)
  {
    hide Sent, Extract, ToByte, Clamp, PumpSteps;
    MiddleRequest(f, c, 30, Place(7, 0, 2), c.autoLpCmrHeatReq);
    MiddleRequest(f, c, 31, Place(7, 2, 2), c.topShieldPwrReq);
    MiddleRequest(f, c, 32, Place(7, 4, 2), c.mlidarshieldmove);
    MiddleRequest(f, c, 33, Place(7, 6, 2), c.frontCmrSreenShieldReq);
    MiddleRequest(f, c, 34, Place(8, 0, 2), c.autoLCmrShieldReq);
    MiddleRequest(f, c, 35, Place(8, 2, 2), c.autoRCmrShieldReq);
    MiddleRequest(f, c, 36, Place(8, 4, 2), c.autoBCmrShieldReq);
    MiddleRequest(f, c, 37, Place(8, 6, 2), c.autoRfCmrWprPwrReq);
  }

  lemma InBytes9To10Is(f: seq<Byte>, c: Settings)
    requires |f| == 48
    ensures InBytes9To10(Sent(f, c), c)
  {
    hide Sent, Extract, ToByte, Clamp, PumpSteps;
    MiddleRequest(f, c, 38, Place(9, 0, 2), c.autoLfCmrWprPwrReq);
    MiddleRequest(f, c, 39, Place(9, 2, 2), c.autoRCmrWprPwrReq);
    MiddleRequest(f, c, 40, Place(9, 4, 2), c.autoLCmrWprPwrReq);
    MiddleRequest(f, c, 41, Place(9, 6, 2), c.autoBCmrWprPwrReq);
    MiddleRequest(f, c, 47, Place(10, 6, 2), c.autoBCmrValvePwrReq);
  }

  lemma InBytes11To12Is(f: seq<Byte>, c: Settings)
    requires |f| == 48
    ensures InBytes11To12(Sent(f, c), c)
  {
    hide Sent, Extract, ToByte, Clamp, PumpSteps;
    MiddleRequest(f, c, 48, Place(11, 0, 2), c.mlidarvalvepwr);
    MiddleRequest(f, c, 49, Place(11, 2, 2), c.autoLfCmrValvePwrReq);
    MiddleRequest(f, c, 50, Place(11, 4, 2), c.autoRfCmrValvePwrReq);
    MiddleRequest(f, c, 51, Place(11, 6, 2), c.autoLCmrValvePwrReq);
    MiddleRequest(f, c, 52, Place(12, 0, 2), c.autoRCmrValvePwrReq);
    MiddleRequest(f, c, 53, Place(12, 2, 2), c.autoBCmrHeatReq);
    MiddleRequest(f, c, 54, Place(12, 4, 2), c.autoRCmrHeatReq);
    MiddleRequest(f, c, 55, Place(12, 6, 2), c.autoLCmrHeatReq);
  }

  lemma InBytes13To14Is(f: seq<Byte>, c: Settings)
    requires |f| == 48
    ensures InBytes13To14(Sent(f, c), c)
  {
    hide Sent, Extract, ToByte, Clamp, PumpSteps;
    MiddleRequest(f, c, 56, Place(13, 0, 2), c.autoRfCmrHeatReq);
    MiddleRequest(f, c, 57, Place(13, 2, 2), c.autoLfCmrHeatReq);
    MiddleRequest(f, c, 58, Place(13, 4, 2), c.rearShieldPwrReq);
    MiddleRequest(f, c, 59, Place(13, 6, 2), c.fisheyeBCmrShieldReq);
    HighRequest(f, c, 60, Place(14, 0, 2), c.relidarwprpwr);
    HighRequest(f, c, 61, Place(14, 2, 2), c.autoLbCmrWprPwrReq);
    HighRequest(f, c, 62, Place(14, 4, 2), c.autoRbCmrWprPwrReq);
    HighRequest(f, c, 80, Place(14, 6, 2), c.rfisheyeledctrl);
  }

  lemma InBytes15To16Is(f: seq<Byte>, c: Settings)
    requires |f| == 48
    ensures InBytes15To16(Sent(f, c), c)
  {
    hide Sent, Extract, ToByte, Clamp, PumpSteps;
    HighRequest(f, c, 66, Place(15, 2, 2), c.autoRlCmrValvePwrReq);
    HighRequest(f, c, 67, Place(15, 4, 2), c.autoRrCmrValvePwrReq);
    HighRequest(f, c, 68, Place(15, 6, 2), c.fisheyeBCmrValvePwrReq);
    HighRequest(f, c, 69, Place(16, 0, 2), c.relidarvalvepwr);
    HighRequest(f, c, 70, Place(16, 2, 2), c.autoRbCmrHeatReq);
    HighRequest(f, c, 71, Place(16, 4, 2), c.autoLbCmrHeatReq);
    HighRequest(f, c, 72, Place(16, 6, 2), c.fisheyeBCmrHeatReq);
  }

  lemma InBytes17To18Is(f: seq<Byte>, c: Settings)
    requires |f| == 48
    ensures InBytes17To18(Sent(f, c), c)
  {
    hide Sent, Extract, ToByte, Clamp, PumpSteps;
    LowRequest(f, c, 16, Place(17, 0, 2), c.rilidarwprmove);
    LowRequest(f, c, 17, Place(17, 2, 2), c.lelidarwprmove);
    LowRequest(f, c, 18, Place(17, 4, 2), c.autoLpCmrWprReq);
    LowRequest(f, c, 19, Place(17, 6, 2), c.frlidarwprmove);
    MiddleRequest(f, c, 42, Place(18, 0, 2), c.autoRfCmrWprReq);
    MiddleRequest(f, c, 43, Place(18, 2, 2), c.autoLfCmrWprReq);
    MiddleRequest(f, c, 44, Place(18, 4, 2), c.autoRCmrWprReq);
    MiddleRequest(f, c, 45, Place(18, 6, 2), c.autoLCmrWprReq);
  }

  lemma InBytes19To20Is(f: seq<Byte>, c: Settings)
    requires |f| == 48
    ensures InBytes19To20(Sent(f, c), c)
  {
    hide Sent, Extract, ToByte, Clamp, PumpSteps;
    MiddleRequest(f, c, 46, Place(19, 0, 2), c.autoBCmrWprReq);
    HighRequest(f, c, 63, Place(19, 2, 2), c.relidarwprmove);
    HighRequest(f, c, 64, Place(19, 4, 2), c.autoLbCmrWprReq);
    HighRequest(f, c, 65, Place(19, 6, 2), c.autoRbCmrWprReq);
    HighRequest(f, c, 81, Place(20, 0, 2), c.frchassisvvctrl);
    HighRequest(f, c, 82, Place(20, 2, 2), c.midchassisvvctrl);
    HighRequest(f, c, 83, Place(20, 4, 2), c.rechassisvvctrl);
    HighRequest(f, c, 84, Place(20, 6, 2), c.frchassiscmrheatpwrctrl);
  }

  lemma InBytes21To24Is(f: seq<Byte>, c: Settings)
    requires |f| == 48
    ensures InBytes21To24(Sent(f, c), c)
  {
    hide Sent, Extract, ToByte, Clamp, PumpSteps;
    HighRequest(f, c, 85, Place(21, 0, 2), c.michassiscmrheatpwrctrl);
    HighRequest(f, c, 86, Place(21, 2, 2), c.rechassiscmrheatpwrctrl);
    LowRequest(f, c, 5, Place(21, 4, 1), c.frchassisctrl);
    LowRequest(f, c, 3, Place(21, 5, 1), c.midchassisctrl);
    LowRequest(f, c, 1, Place(21, 6, 1), c.rechassisctrl);
    LowNumber(f, c, 4, 22);
    LowNumber(f, c, 2, 23);
    LowNumber(f, c, 0, 24);
  }

  lemma InBytes28To37Is(f: seq<Byte>, c: Settings)
    requires |f| == 48
    ensures InBytes28To37(Sent(f, c), c)
  {
    hide Sent, Extract, ToByte, Clamp, PumpSteps;
    HighNumber(f, c, 73, 28);
    HighNumber(f, c, 74, 29);
    HighRequest(f, c, 87, Place(30, 2, 2), c.chassisCmrLEDPwrctrl);
    HighNumber(f, c, 76, 31);
    HighRequest(f, c, 89, Place(37, 2, 2), c.rechsCAMLEDPwrctrl);
    HighRequest(f, c, 88, Place(37, 4, 2), c.midchsCAMLEDPwrctrl);
  }

  /** A receiver that knows the start bits and lengths reads the struct, whatever the buffer held before. */
  lemma StructCarried(f: seq<Byte>, c: Settings)
    requires |f| == 48
    ensures Carries(Sent(f, c), c)
  {
    hide Sent, InBytes0To1, InBytes2To4, InBytes5To6, InBytes7To8, InBytes9To10, InBytes11To12, InBytes13To14,
         InBytes15To16, InBytes17To18, InBytes19To20, InBytes21To24, InBytes28To37;
    InBytes0To1Is(f, c);
    InBytes2To4Is(f, c);
    InBytes5To6Is(f, c);
    InBytes7To8Is(f, c);
    InBytes9To10Is(f, c);
    InBytes11To12Is(f, c);
    InBytes13To14Is(f, c);
    InBytes15To16Is(f, c);
    InBytes17To18Is(f, c);
    InBytes19To20Is(f, c);
    InBytes21To24Is(f, c);
    InBytes28To37Is(f, c);
  }

  // ---------------------------------------------------------------- the overlapped signals

  lemma AuthPlace(c: Settings)
    ensures var a, l := CallOf(c, AUTHCODE_B1), CallOf(c, CHASSIS_LED);
            && a.at == 30 && a.start == 0 && a.length == 8 && a.value == Clamp(0, 255, c.secocAuthcodec1B1)
            && l.at == 30 && l.start == 2 && l.length == 2 && l.value == ToByte(c.chassisCmrLEDPwrctrl)
  {
  }

  lemma AuthBits(f: seq<Byte>, c: Settings, q: nat)
    requires |f| == 48 && q < 8
    ensures BitAt(Sent(f, c), 240 + q)
         == if 2 <= q < 4 then Bit(ToByte(c.chassisCmrLEDPwrctrl), q - 2) else Bit(Clamp(0, 255, c.secocAuthcodec1B1), q)
  {
    hide CallOf, ApplyAll, BitAt, Bit, Clamp, ToByte;
    AuthPlace(c);
    var j, k := if 2 <= q < 4 then CHASSIS_LED else AUTHCODE_B1, 240 + q;
    forall i | j < i < CALLS ensures !Calls(c)[i].Covers(k) {
      NotTouched(c, j, i, k);
    }
    BitOfLast(f, Calls(c), j, k);
  }

  lemma {:induction false} ExtractSplit(g: seq<Byte>, start: nat, a: nat, b: nat)
    requires start + a + b <= 8 * |g|
    ensures Extract(g, start, a + b) == Extract(g, start, a) + Pow2(a) * Extract(g, start + a, b)
    decreases a
  {
    hide BitAt, Pow2;
    PowerNext(a, Extract(g, start + a, b));
    if a > 0 { ExtractSplit(g, start + 1, a - 1, b); }
  }

  lemma PowerNext(a: nat, x: nat)
    ensures Pow2(a) * x == if a == 0 then x else 2 * (Pow2(a - 1) * x)
  {
  }

  /** What arrives in the byte of the authentication code: the code with bits 2 and 3 replaced by the chassis LED request
      that is written over them. So it reads back exactly if they happen to be the same. */
  lemma AuthCodeReadsBack(f: seq<Byte>, c: Settings)
    requires |f| == 48
    ensures var code := Clamp(0, 255, c.secocAuthcodec1B1);
            && Extract(Sent(f, c), 240, 8) == code % 4 + 4 * (c.chassisCmrLEDPwrctrl % 4) + 16 * (code / 16)
            && (Extract(Sent(f, c), 240, 8) == code <==> code / 4 % 4 == c.chassisCmrLEDPwrctrl % 4)
  {
    hide Sent, Extract, BitAt, Bit, Clamp, ToByte;
    var g, code, led := Sent(f, c), Clamp(0, 255, c.secocAuthcodec1B1), ToByte(c.chassisCmrLEDPwrctrl);
    Widths();
    assert Pow2(4) == 16;
    ExtractSplit(g, 240, 4, 4);
    ExtractSplit(g, 240, 2, 2);
    forall q | 0 <= q < 2 ensures BitAt(g, 240 + q) == Bit(code, q) { AuthBits(f, c, q); }
    forall q | 0 <= q < 2 ensures BitAt(g, 242 + q) == Bit(led, q) { AuthBits(f, c, 2 + q); }
    forall q | 0 <= q < 4 ensures BitAt(g, 244 + q) == Bit(code / 16, q) {
      AuthBits(f, c, 4 + q);
      FourFurther(code, q);
    }
    ExtractValue(g, 240, 2, code);
    ExtractValue(g, 242, 2, led);
    ExtractValue(g, 244, 4, code / 16);
    Remainders(c.chassisCmrLEDPwrctrl);
  }

  lemma FourFurther(x: nat, k: nat)
    ensures Bit(x / 16, k) == Bit(x, k + 4)
  {
    assert Bit(x, k + 4) == Bit(x / 2, k + 3) == Bit(x / 2 / 2, k + 2) == Bit(x / 2 / 2 / 2, k + 1);
    assert Bit(x / 2 / 2 / 2, k + 1) == Bit(x / 2 / 2 / 2 / 2, k);
    assert x / 2 / 2 / 2 / 2 == x / 16;
  }

  /** With an LED request of 1 an authentication byte of 0 arrives as another one. */
  lemma AuthCodeLost(f: seq<Byte>, c: Settings)
    requires |f| == 48 && c.secocAuthcodec1B1 == 0 && c.chassisCmrLEDPwrctrl == 1
    ensures Extract(Sent(f, c), 240, 8) == 4
  {
    hide Sent, Extract;
    AuthCodeReadsBack(f, c);
  }
}
