/** The 0x680 control message of singleApi/cdc_control1_680.c. The ninety setter calls of `Cdccontrol1680_UpdateData` are
    listed in call order with the byte, start bit and length that each setter uses. */
module Frame680 {
  import opened Signals

  const CALLS := 90
  const AUTHCODE_B1 := 75
  const CHASSIS_LED := 87

  /** The struct. Enumerations are passed on as `int`. */
  datatype Settings = Settings(
    rechassistgtctrl: int, rechassisctrl: int, midchassistgtctrl: int, midchassisctrl: int, frchassistgtctrl: int,
    frchassisctrl: int, frontShieldPwrReq: int, fisheyeRCmrShieldReq: int, fisheyeLCmrShieldReq: int,
    fisheyeFCmrShieldReq: int, cleanpumpecupwr: int, cleanpumpspd: real, rilidarwprpwr: int, lelidarwprpwr: int,
    autoLpCmrWprPwrReq: int, frlidarwprpwr: int, rilidarwprmove: int, lelidarwprmove: int, autoLpCmrWprReq: int,
    frlidarwprmove: int, rilidarvalvepwr: int, fisheyeRCmrValvePwrReq: int, frlidarvalvepwr: int,
    fisheyeFCmrValvePwrReq: int, lelidarvalvepwr: int, fisheyeLCmrValvePwrReq: int, autoLpCmrValvePwrReq: int,
    fisheyeLCmrHeatReq: int, fisheyeFCmrHeatReq: int, fisheyeRCmrHeatReq: int, autoLpCmrHeatReq: int,
    topShieldPwrReq: int, mlidarshieldmove: int, frontCmrSreenShieldReq: int, autoLCmrShieldReq: int,
    autoRCmrShieldReq: int, autoBCmrShieldReq: int, autoRfCmrWprPwrReq: int, autoLfCmrWprPwrReq: int,
    autoRCmrWprPwrReq: int, autoLCmrWprPwrReq: int, autoBCmrWprPwrReq: int, autoRfCmrWprReq: int,
    autoLfCmrWprReq: int, autoRCmrWprReq: int, autoLCmrWprReq: int, autoBCmrWprReq: int, autoBCmrValvePwrReq: int,
    mlidarvalvepwr: int, autoLfCmrValvePwrReq: int, autoRfCmrValvePwrReq: int, autoLCmrValvePwrReq: int,
    autoRCmrValvePwrReq: int, autoBCmrHeatReq: int, autoRCmrHeatReq: int, autoLCmrHeatReq: int,
    autoRfCmrHeatReq: int, autoLfCmrHeatReq: int, rearShieldPwrReq: int, fisheyeBCmrShieldReq: int,
    relidarwprpwr: int, autoLbCmrWprPwrReq: int, autoRbCmrWprPwrReq: int, relidarwprmove: int, autoLbCmrWprReq: int,
    autoRbCmrWprReq: int, autoRlCmrValvePwrReq: int, autoRrCmrValvePwrReq: int, fisheyeBCmrValvePwrReq: int,
    relidarvalvepwr: int, autoRbCmrHeatReq: int, autoLbCmrHeatReq: int, fisheyeBCmrHeatReq: int,
    secocFreshnesscounterc1: int, secocAuthcodec1B0Msb: int, secocAuthcodec1B1: int, secocAuthcodec1B2Lsb: int,
    ffisheyeledctrl: int, flfisheyeledctrl: int, frfisheyeledctrl: int, rfisheyeledctrl: int, frchassisvvctrl: int,
    midchassisvvctrl: int, rechassisvvctrl: int, frchassiscmrheatpwrctrl: int, michassiscmrheatpwrctrl: int,
    rechassiscmrheatpwrctrl: int, chassisCmrLEDPwrctrl: int, midchsCAMLEDPwrctrl: int, rechsCAMLEDPwrctrl: int)

  datatype Place = Place(at: nat, start: nat, length: nat)

  function PlaceOf(j: nat): (p: Place)
    requires j < CALLS
    ensures p.at < 38 && 1 <= p.length && p.start + p.length <= 8
  {
    LowFits(j);
    MiddleFits(j);
    HighFits(j);
    if j < 30 then PlaceLow(j) else if j < 60 then PlaceMiddle(j) else PlaceHigh(j)
  }

  function PlaceLow(j: nat): Place {
    match j
    case 0 => Place(24, 0, 8)  // cdc_rechassistgtctrl
    case 1 => Place(21, 6, 1)  // cdc_rechassisctrl
    case 2 => Place(23, 0, 8)  // cdc_midchassistgtctrl
    case 3 => Place(21, 5, 1)  // cdc_midchassisctrl
    case 4 => Place(22, 0, 8)  // cdc_frchassistgtctrl
    case 5 => Place(21, 4, 1)  // cdc_frchassisctrl
    case 6 => Place(0, 0, 2)  // cdc_front_shield_pwr_req
    case 7 => Place(0, 2, 2)  // cdc_fisheye_r_cmr_shield_req
    case 8 => Place(0, 4, 2)  // cdc_fisheye_l_cmr_shield_req
    case 9 => Place(0, 6, 2)  // cdc_fisheye_f_cmr_shield_req
    case 10 => Place(1, 0, 2)  // cdc_cleanpumpecupwr
    case 11 => Place(2, 0, 8)  // cdc_cleanpumpspd
    case 12 => Place(3, 0, 2)  // cdc_rilidarwprpwr
    case 13 => Place(3, 2, 2)  // cdc_lelidarwprpwr
    case 14 => Place(3, 4, 2)  // cdc_auto_lp_cmr_wpr_pwr_req
    case 15 => Place(3, 6, 2)  // cdc_frlidarwprpwr
    case 16 => Place(17, 0, 2)  // cdc_rilidarwprmove
    case 17 => Place(17, 2, 2)  // cdc_lelidarwprmove
    case 18 => Place(17, 4, 2)  // cdc_auto_lp_cmr_wpr_req
    case 19 => Place(17, 6, 2)  // cdc_frlidarwprmove
    case 20 => Place(4, 4, 2)  // cdc_rilidarvalvepwr
    case 21 => Place(4, 6, 2)  // cdc_fisheye_r_cmr_valve_pwr_req
    case 22 => Place(5, 0, 2)  // cdc_frlidarvalvepwr
    case 23 => Place(5, 2, 2)  // cdc_fisheye_f_cmr_valve_pwr_req
    case 24 => Place(5, 4, 2)  // cdc_lelidarvalvepwr
    case 25 => Place(5, 6, 2)  // cdc_fisheye_l_cmr_valve_pwr_req
    case 26 => Place(6, 0, 2)  // cdc_auto_lp_cmr_valve_pwr_req
    case 27 => Place(6, 2, 2)  // cdc_fisheye_l_cmr_heat_req
    case 28 => Place(6, 4, 2)  // cdc_fisheye_f_cmr_heat_req
    case 29 => Place(6, 6, 2)  // cdc_fisheye_r_cmr_heat_req
    case _ => Place(0, 0, 1)
  }

  function PlaceMiddle(j: nat): Place {
    match j
    case 30 => Place(7, 0, 2)  // cdc_auto_lp_cmr_heat_req
    case 31 => Place(7, 2, 2)  // cdc_top_shield_pwr_req
    case 32 => Place(7, 4, 2)  // cdc_mlidarshieldmove
    case 33 => Place(7, 6, 2)  // cdc_front_cmr_sreen_shield_req
    case 34 => Place(8, 0, 2)  // cdc_auto_l_cmr_shield_req
    case 35 => Place(8, 2, 2)  // cdc_auto_r_cmr_shield_req
    case 36 => Place(8, 4, 2)  // cdc_auto_b_cmr_shield_req
    case 37 => Place(8, 6, 2)  // cdc_auto_rf_cmr_wpr_pwr_req
    case 38 => Place(9, 0, 2)  // cdc_auto_lf_cmr_wpr_pwr_req
    case 39 => Place(9, 2, 2)  // cdc_auto_r_cmr_wpr_pwr_req
    case 40 => Place(9, 4, 2)  // cdc_auto_l_cmr_wpr_pwr_req
    case 41 => Place(9, 6, 2)  // cdc_auto_b_cmr_wpr_pwr_req
    case 42 => Place(18, 0, 2)  // cdc_auto_rf_cmr_wpr_req
    case 43 => Place(18, 2, 2)  // cdc_auto_lf_cmr_wpr_req
    case 44 => Place(18, 4, 2)  // cdc_auto_r_cmr_wpr_req
    case 45 => Place(18, 6, 2)  // cdc_auto_l_cmr_wpr_req
    case 46 => Place(19, 0, 2)  // cdc_auto_b_cmr_wpr_req
    case 47 => Place(10, 6, 2)  // cdc_auto_b_cmr_valve_pwr_req
    case 48 => Place(11, 0, 2)  // cdc_mlidarvalvepwr
    case 49 => Place(11, 2, 2)  // cdc_auto_lf_cmr_valve_pwr_req
    case 50 => Place(11, 4, 2)  // cdc_auto_rf_cmr_valve_pwr_req
    case 51 => Place(11, 6, 2)  // cdc_auto_l_cmr_valve_pwr_req
    case 52 => Place(12, 0, 2)  // cdc_auto_r_cmr_valve_pwr_req
    case 53 => Place(12, 2, 2)  // cdc_auto_b_cmr_heat_req
    case 54 => Place(12, 4, 2)  // cdc_auto_r_cmr_heat_req
    case 55 => Place(12, 6, 2)  // cdc_auto_l_cmr_heat_req
    case 56 => Place(13, 0, 2)  // cdc_auto_rf_cmr_heat_req
    case 57 => Place(13, 2, 2)  // cdc_auto_lf_cmr_heat_req
    case 58 => Place(13, 4, 2)  // cdc_rear_shield_pwr_req
    case 59 => Place(13, 6, 2)  // cdc_fisheye_b_cmr_shield_req
    case _ => Place(0, 0, 1)
  }

  function PlaceHigh(j: nat): Place {
    match j
    case 60 => Place(14, 0, 2)  // cdc_relidarwprpwr
    case 61 => Place(14, 2, 2)  // cdc_auto_lb_cmr_wpr_pwr_req
    case 62 => Place(14, 4, 2)  // cdc_auto_rb_cmr_wpr_pwr_req
    case 63 => Place(19, 2, 2)  // cdc_relidarwprmove
    case 64 => Place(19, 4, 2)  // cdc_auto_lb_cmr_wpr_req
    case 65 => Place(19, 6, 2)  // cdc_auto_rb_cmr_wpr_req
    case 66 => Place(15, 2, 2)  // cdc_auto_rl_cmr_valve_pwr_req
    case 67 => Place(15, 4, 2)  // cdc_auto_rr_cmr_valve_pwr_req
    case 68 => Place(15, 6, 2)  // cdc_fisheye_b_cmr_valve_pwr_req
    case 69 => Place(16, 0, 2)  // cdc_relidarvalvepwr
    case 70 => Place(16, 2, 2)  // cdc_auto_rb_cmr_heat_req
    case 71 => Place(16, 4, 2)  // cdc_auto_lb_cmr_heat_req
    case 72 => Place(16, 6, 2)  // cdc_fisheye_b_cmr_heat_req
    case 73 => Place(28, 0, 8)  // cdc_secoc_freshnesscounterc1
    case 74 => Place(29, 0, 8)  // cdc_secoc_authcodec1_b0_msb
    case 75 => Place(30, 0, 8)  // cdc_secoc_authcodec1_b1
    case 76 => Place(31, 0, 8)  // cdc_secoc_authcodec1_b2_lsb
    case 77 => Place(1, 2, 2)  // cdc_ffisheyeledctrl
    case 78 => Place(1, 4, 2)  // cdc_flfisheyeledctrl
    case 79 => Place(1, 6, 2)  // cdc_frfisheyeledctrl
    case 80 => Place(14, 6, 2)  // cdc_rfisheyeledctrl
    case 81 => Place(20, 0, 2)  // cdc_frchassisvvctrl
    case 82 => Place(20, 2, 2)  // cdc_midchassisvvctrl
    case 83 => Place(20, 4, 2)  // cdc_rechassisvvctrl
    case 84 => Place(20, 6, 2)  // cdc_frchassiscmrheatpwrctrl
    case 85 => Place(21, 0, 2)  // cdc_michassiscmrheatpwrctrl
    case 86 => Place(21, 2, 2)  // cdc_rechassiscmrheatpwrctrl
    case 87 => Place(30, 2, 2)  // cdc_ChassisCmrLEDPwrctrl
    case 88 => Place(37, 4, 2)  // cdc_MidchsCAMLEDPwrctrl
    case 89 => Place(37, 2, 2)  // cdc_RechsCAMLEDPwrctrl
    case _ => Place(0, 0, 1)
  }

  lemma LowFits(j: nat)
    ensures var p := PlaceLow(j); p.at < 38 && 1 <= p.length && p.start + p.length <= 8
  {
  }

  lemma MiddleFits(j: nat)
    ensures var p := PlaceMiddle(j); p.at < 38 && 1 <= p.length && p.start + p.length <= 8
  {
  }

  lemma HighFits(j: nat)
    ensures var p := PlaceHigh(j); p.at < 38 && 1 <= p.length && p.start + p.length <= 8
  {
  }

  /** What setter `j` passes to `Byte_set_value`: positions are clamped to 0..100, codes to 0..255, the pump speed to
      0..25.5 and scaled by 0.1; the others are enumerations passed on as they are. */
  function ValueOf(c: Settings, j: nat): Byte
    requires j < CALLS
  {
    if j < 30 then ValueLow(c, j) else if j < 60 then ValueMiddle(c, j) else ValueHigh(c, j)
  }

  function ValueLow(c: Settings, j: nat): Byte {
    match j
    case 0 => Clamp(0, 100, c.rechassistgtctrl)
    case 1 => ToByte(c.rechassisctrl)
    case 2 => Clamp(0, 100, c.midchassistgtctrl)
    case 3 => ToByte(c.midchassisctrl)
    case 4 => Clamp(0, 100, c.frchassistgtctrl)
    case 5 => ToByte(c.frchassisctrl)
    case 6 => ToByte(c.frontShieldPwrReq)
    case 7 => ToByte(c.fisheyeRCmrShieldReq)
    case 8 => ToByte(c.fisheyeLCmrShieldReq)
    case 9 => ToByte(c.fisheyeFCmrShieldReq)
    case 10 => ToByte(c.cleanpumpecupwr)
    case 11 => PumpSteps(c.cleanpumpspd)
    case 12 => ToByte(c.rilidarwprpwr)
    case 13 => ToByte(c.lelidarwprpwr)
    case 14 => ToByte(c.autoLpCmrWprPwrReq)
    case 15 => ToByte(c.frlidarwprpwr)
    case 16 => ToByte(c.rilidarwprmove)
    case 17 => ToByte(c.lelidarwprmove)
    case 18 => ToByte(c.autoLpCmrWprReq)
    case 19 => ToByte(c.frlidarwprmove)
    case 20 => ToByte(c.rilidarvalvepwr)
    case 21 => ToByte(c.fisheyeRCmrValvePwrReq)
    case 22 => ToByte(c.frlidarvalvepwr)
    case 23 => ToByte(c.fisheyeFCmrValvePwrReq)
    case 24 => ToByte(c.lelidarvalvepwr)
    case 25 => ToByte(c.fisheyeLCmrValvePwrReq)
    case 26 => ToByte(c.autoLpCmrValvePwrReq)
    case 27 => ToByte(c.fisheyeLCmrHeatReq)
    case 28 => ToByte(c.fisheyeFCmrHeatReq)
    case 29 => ToByte(c.fisheyeRCmrHeatReq)
    case _ => 0
  }

  function ValueMiddle(c: Settings, j: nat): Byte {
    match j
    case 30 => ToByte(c.autoLpCmrHeatReq)
    case 31 => ToByte(c.topShieldPwrReq)
    case 32 => ToByte(c.mlidarshieldmove)
    case 33 => ToByte(c.frontCmrSreenShieldReq)
    case 34 => ToByte(c.autoLCmrShieldReq)
    case 35 => ToByte(c.autoRCmrShieldReq)
    case 36 => ToByte(c.autoBCmrShieldReq)
    case 37 => ToByte(c.autoRfCmrWprPwrReq)
    case 38 => ToByte(c.autoLfCmrWprPwrReq)
    case 39 => ToByte(c.autoRCmrWprPwrReq)
    case 40 => ToByte(c.autoLCmrWprPwrReq)
    case 41 => ToByte(c.autoBCmrWprPwrReq)
    case 42 => ToByte(c.autoRfCmrWprReq)
    case 43 => ToByte(c.autoLfCmrWprReq)
    case 44 => ToByte(c.autoRCmrWprReq)
    case 45 => ToByte(c.autoLCmrWprReq)
    case 46 => ToByte(c.autoBCmrWprReq)
    case 47 => ToByte(c.autoBCmrValvePwrReq)
    case 48 => ToByte(c.mlidarvalvepwr)
    case 49 => ToByte(c.autoLfCmrValvePwrReq)
    case 50 => ToByte(c.autoRfCmrValvePwrReq)
    case 51 => ToByte(c.autoLCmrValvePwrReq)
    case 52 => ToByte(c.autoRCmrValvePwrReq)
    case 53 => ToByte(c.autoBCmrHeatReq)
    case 54 => ToByte(c.autoRCmrHeatReq)
    case 55 => ToByte(c.autoLCmrHeatReq)
    case 56 => ToByte(c.autoRfCmrHeatReq)
    case 57 => ToByte(c.autoLfCmrHeatReq)
    case 58 => ToByte(c.rearShieldPwrReq)
    case 59 => ToByte(c.fisheyeBCmrShieldReq)
    case _ => 0
  }

  function ValueHigh(c: Settings, j: nat): Byte {
    match j
    case 60 => ToByte(c.relidarwprpwr)
    case 61 => ToByte(c.autoLbCmrWprPwrReq)
    case 62 => ToByte(c.autoRbCmrWprPwrReq)
    case 63 => ToByte(c.relidarwprmove)
    case 64 => ToByte(c.autoLbCmrWprReq)
    case 65 => ToByte(c.autoRbCmrWprReq)
    case 66 => ToByte(c.autoRlCmrValvePwrReq)
    case 67 => ToByte(c.autoRrCmrValvePwrReq)
    case 68 => ToByte(c.fisheyeBCmrValvePwrReq)
    case 69 => ToByte(c.relidarvalvepwr)
    case 70 => ToByte(c.autoRbCmrHeatReq)
    case 71 => ToByte(c.autoLbCmrHeatReq)
    case 72 => ToByte(c.fisheyeBCmrHeatReq)
    case 73 => Clamp(0, 255, c.secocFreshnesscounterc1)
    case 74 => Clamp(0, 255, c.secocAuthcodec1B0Msb)
    case 75 => Clamp(0, 255, c.secocAuthcodec1B1)
    case 76 => Clamp(0, 255, c.secocAuthcodec1B2Lsb)
    case 77 => ToByte(c.ffisheyeledctrl)
    case 78 => ToByte(c.flfisheyeledctrl)
    case 79 => ToByte(c.frfisheyeledctrl)
    case 80 => ToByte(c.rfisheyeledctrl)
    case 81 => ToByte(c.frchassisvvctrl)
    case 82 => ToByte(c.midchassisvvctrl)
    case 83 => ToByte(c.rechassisvvctrl)
    case 84 => ToByte(c.frchassiscmrheatpwrctrl)
    case 85 => ToByte(c.michassiscmrheatpwrctrl)
    case 86 => ToByte(c.rechassiscmrheatpwrctrl)
    case 87 => ToByte(c.chassisCmrLEDPwrctrl)
    case 88 => ToByte(c.midchsCAMLEDPwrctrl)
    case 89 => ToByte(c.rechsCAMLEDPwrctrl)
    case _ => 0
  }

  /** The pump speed in steps of 0.1; rounding in floating point is not part of this model. */
  function PumpSteps(speed: real): (r: nat)
    ensures r <= 255
    ensures 0.0 <= speed <= 25.5 ==> r as real <= 10.0 * speed < (r + 1) as real
    ensures speed < 0.0 ==> r == 0
    ensures speed > 25.5 ==> r == 255
  {
    (BoundedValue(0.0, 25.5, speed) * 10.0).Floor
  }

  function CallOf(c: Settings, j: nat): (w: Write)
    requires j < CALLS
    ensures w.Fits(48)
  {
    var p := PlaceOf(j); Write(p.at, p.start, p.length, ValueOf(c, j))
  }

  function Calls(c: Settings): (ws: seq<Write>)
    ensures |ws| == CALLS && AllFit(ws, 48) && forall j :: 0 <= j < CALLS ==> ws[j] == CallOf(c, j)
  {
    seq(CALLS, j requires 0 <= j < CALLS => CallOf(c, j))
  }

  lemma CallMore(f: seq<Byte>, c: Settings, j: nat)
    requires j < CALLS && |f| == 48
    ensures ApplyAll(f, Calls(c)[..j + 1]) == Apply(ApplyAll(f, Calls(c)[..j]), CallOf(c, j))
  {
    assert Calls(c)[..j + 1][..j] == Calls(c)[..j];
  }

  /** `Cdccontrol1680_UpdateData` on the static buffer `Data`; the loop stands for the ninety calls. */
  method UpdateData(c: Settings, data: array<Byte>)
    requires data.Length == 48
    modifies data
    ensures data[..] == ApplyAll(old(data[..]), Calls(c))
  {
    hide Apply, ApplyAll, Field;
    ghost var was := data[..];
    Begin(was, c);
    for j := 0 to CALLS
      invariant data[..] == ApplyAll(was, Calls(c)[..j])
    {
      var w := CallOf(c, j);
      ghost var now := data[..];
      ByteSetValue(w.value, w.start, w.length, data, w.at);
      OneCall(now, w);
      CallMore(was, c, j);
    }
    assert Calls(c)[..CALLS] == Calls(c);
  }

  lemma Begin(f: seq<Byte>, c: Settings)
    requires |f| == 48
    ensures ApplyAll(f, Calls(c)[..0]) == f
  {
  }

  lemma OneCall(f: seq<Byte>, w: Write)
    requires w.at < |f|
    ensures Apply(f, w) == f[w.at := Field(f[w.at], w.start, w.length, w.value)]
  {
  }

  // ---------------------------------------------------------------- layout

  /** The call that writes bit `bit` of byte `at` last, or `CALLS`. */
  function LastAt(at: nat, bit: nat): nat {
    match at
    case 0 => if bit < 2 then 6 else if bit < 4 then 7 else if bit < 6 then 8 else 9
    case 1 => if bit < 2 then 10 else if bit < 4 then 77 else if bit < 6 then 78 else 79
    case 2 => 11
    case 3 => if bit < 2 then 12 else if bit < 4 then 13 else if bit < 6 then 14 else 15
    case 4 => if bit < 4 then CALLS else if bit < 6 then 20 else 21
    case 5 => if bit < 2 then 22 else if bit < 4 then 23 else if bit < 6 then 24 else 25
    case 6 => if bit < 2 then 26 else if bit < 4 then 27 else if bit < 6 then 28 else 29
    case 7 => if bit < 2 then 30 else if bit < 4 then 31 else if bit < 6 then 32 else 33
    case 8 => if bit < 2 then 34 else if bit < 4 then 35 else if bit < 6 then 36 else 37
    case 9 => if bit < 2 then 38 else if bit < 4 then 39 else if bit < 6 then 40 else 41
    case 10 => if bit < 6 then CALLS else 47
    case 11 => if bit < 2 then 48 else if bit < 4 then 49 else if bit < 6 then 50 else 51
    case 12 => if bit < 2 then 52 else if bit < 4 then 53 else if bit < 6 then 54 else 55
    case 13 => if bit < 2 then 56 else if bit < 4 then 57 else if bit < 6 then 58 else 59
    case 14 => if bit < 2 then 60 else if bit < 4 then 61 else if bit < 6 then 62 else 80
    case 15 => if bit < 2 then CALLS else if bit < 4 then 66 else if bit < 6 then 67 else 68
    case 16 => if bit < 2 then 69 else if bit < 4 then 70 else if bit < 6 then 71 else 72
    case 17 => if bit < 2 then 16 else if bit < 4 then 17 else if bit < 6 then 18 else 19
    case 18 => if bit < 2 then 42 else if bit < 4 then 43 else if bit < 6 then 44 else 45
    case 19 => if bit < 2 then 46 else if bit < 4 then 63 else if bit < 6 then 64 else 65
    case 20 => if bit < 2 then 81 else if bit < 4 then 82 else if bit < 6 then 83 else 84
    case 21 =>
      if bit < 2 then 85 else if bit < 4 then 86 else if bit < 5 then 5 else if bit < 6 then 3 else if bit < 7 then 1 else CALLS
    case 22 => 4
    case 23 => 2
    case 24 => 0
    case 28 => 73
    case 29 => 74
    case 30 => if bit < 2 then 75 else if bit < 4 then 87 else 75
    case 31 => 76
    case 37 => if bit < 2 then CALLS else if bit < 4 then 89 else if bit < 6 then 88 else CALLS
    case _ => CALLS
  }

  predicate Covers(j: nat, k: nat)
    requires j < CALLS
  {
    var p := PlaceOf(j); 8 * p.at + p.start <= k < 8 * p.at + p.start + p.length
  }

  function Last(k: nat): nat {
    LastAt(k / 8, k % 8)
  }

  /** Every bit has one writer, except bits 2 and 3 of byte 30: the authentication code is written first, the chassis LED
      request later. */
  lemma Layout(j: nat, k: nat)
    requires j < CALLS && Covers(j, k)
    ensures Last(k) == j || (j == AUTHCODE_B1 && 242 <= k < 244 && Last(k) == CHASSIS_LED)
  {
    hide LastAt;
    var p := PlaceOf(j);
    assert k / 8 == p.at && k % 8 == k - 8 * p.at;
    if j < 30 { LowLast(j, k % 8); } else if j < 60 { MiddleLast(j, k % 8); } else { HighLast(j, k % 8); }
  }

  lemma LowLast(j: nat, bit: nat)
    requires j < 30 && var p := PlaceLow(j); p.start <= bit < p.start + p.length
    ensures LastAt(PlaceLow(j).at, bit) == j
  {
  }

  lemma MiddleLast(j: nat, bit: nat)
    requires 30 <= j < 60 && var p := PlaceMiddle(j); p.start <= bit < p.start + p.length
    ensures LastAt(PlaceMiddle(j).at, bit) == j
  {
  }

  lemma HighLast(j: nat, bit: nat)
    requires 60 <= j < CALLS && var p := PlaceHigh(j); p.start <= bit < p.start + p.length
    ensures LastAt(PlaceHigh(j).at, bit) == j
         || (j == AUTHCODE_B1 && 2 <= bit < 4 && LastAt(PlaceHigh(j).at, bit) == CHASSIS_LED)
  {
  }

  // ---------------------------------------------------------------- what a receiver reads

  ghost function Sent(f: seq<Byte>, c: Settings): (r: seq<Byte>)
    requires |f| == 48
    ensures |r| == 48
  {
    ApplyAll(f, Calls(c))
  }

  lemma CallCovers(c: Settings, j: nat, k: nat)
    requires j < CALLS
    ensures CallOf(c, j).Covers(k) <==> Covers(j, k)
  {
  }

  /** No later call touches a signal, except for the authentication code. */
  lemma NotTouched(c: Settings, j: nat, i: nat, k: nat)
    requires j < i < CALLS && CallOf(c, j).Covers(k) && (j == AUTHCODE_B1 ==> !(242 <= k < 244))
    ensures !CallOf(c, i).Covers(k)
  {
    hide PlaceOf, Last, Covers, CallOf;
    CallCovers(c, j, k);
    CallCovers(c, i, k);
    Layout(j, k);
    if Covers(i, k) {
      Layout(i, k);
    }
  }

  /** Every signal but one is read back as what its setter passed on, cut to its length, whatever the buffer held before. */
  lemma ReadsBack(f: seq<Byte>, c: Settings, j: nat)
    requires |f| == 48 && j < CALLS && j != AUTHCODE_B1
    ensures var w := CallOf(c, j); Extract(Sent(f, c), 8 * w.at + w.start, w.length) == w.value % Pow2(w.length)
  {
    hide CallOf, ApplyAll, Extract, Write.Covers;
    forall i: nat, k: nat | j < i < CALLS && Calls(c)[j].Covers(k) ensures !Calls(c)[i].Covers(k) {
      NotTouched(c, j, i, k);
    }
    FieldReadBack(f, Calls(c), j);
  }

  /** Bits that belong to no signal keep their value. */
  lemma UnownedKept(f: seq<Byte>, c: Settings, k: nat)
    requires |f| == 48 && k < 384 && Last(k) == CALLS
    ensures BitAt(Sent(f, c), k) == BitAt(f, k)
  {
    hide PlaceOf, Last, Covers, CallOf, ApplyAll, BitAt, Write.Covers;
    forall j | 0 <= j < CALLS ensures !Calls(c)[j].Covers(k) {
      CallCovers(c, j, k);
      if Covers(j, k) { Layout(j, k); }
    }
    BitKept(f, Calls(c), k);
  }

  /** An update hides every update before it, the overlapping signals included. */
  lemma UpdateForgets(f: seq<Byte>, a: Settings, b: Settings)
    requires |f| == 48
    ensures Sent(Sent(f, a), b) == Sent(f, b)
  {
    hide ApplyAll, CallOf, Covers, Write.Covers;
    forall j: nat, k: nat | j < CALLS ensures Calls(a)[j].Covers(k) <==> Calls(b)[j].Covers(k) {
      CallCovers(a, j, k);
      CallCovers(b, j, k);
    }
    Overwrites(f, Calls(a), Calls(b));
  }
}
