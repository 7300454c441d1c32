/** The Modbus CRC of ProcessExecutor.cpp: the reflected CRC-16 with polynomial 0xA001 and preset 0xFFFF of sections 2.5.1.2
    and 6.2.2 of "MODBUS over Serial Line Specification and Implementation Guide V1.02". */
module ModbusCrc {
  type Byte = bv8

  function Xor(a: bv16, b: bv16): bv16 {
    a ^ b
  }

  predicate Odd(c: bv16) {
    c & 1 == 1
  }

  function Half(c: bv16): bv16 {
    c >> 1
  }

  /** One turn of the inner loop. */
  function Shift(c: bv16): bv16 {
    if Odd(c) then Xor(Half(c), 0xA001) else Half(c)
  }

  function ShiftN(c: bv16, n: nat): bv16
    decreases n
  {
    if n == 0 then c else Shift(ShiftN(c, n - 1))
  }

  /** One turn of the outer loop. */
  function Feed(c: bv16, b: Byte): bv16 {
    ShiftN(Xor(c, b as bv16), 8)
  }

  function CrcFrom(c: bv16, s: seq<Byte>): bv16 {
    if s == [] then c else Feed(CrcFrom(c, s[..|s| - 1]), s[|s| - 1])
  }

  function Crc(s: seq<Byte>): bv16 {
    CrcFrom(0xFFFF, s)
  }

  /** The inner loop. */
  method EightShifts(start: bv16) returns (crc: bv16)
    ensures crc == ShiftN(start, 8)
  {
    crc := start;
    for i := 0 to 8
      invariant crc == ShiftN(start, i)
    {
      if crc & 1 == 1 {
        crc := crc >> 1;
        crc := crc ^ 0xA001;
      } else {
        crc := crc >> 1;
      }
    }
  }

  /** `CRC16`. */
  method CRC16(buf: seq<Byte>) returns (crc: bv16)
    ensures crc == Crc(buf)
  {
    crc := 0xFFFF;
    for pos := 0 to |buf|
      invariant crc == Crc(buf[..pos])
    {
      crc := crc ^ (buf[pos] as bv16);
      crc := EightShifts(crc);
      assert buf[..pos + 1][..pos] == buf[..pos];
    }
    assert buf[..|buf|] == buf;
  }

  function Low(c: bv16): Byte {
    (c & 0xFF) as bv8
  }

  function High(c: bv16): Byte {
    ((c >> 8) & 0xFF) as bv8
  }

  /** The word that two received bytes form, low byte first. */
  function Word(lo: Byte, hi: Byte): bv16 {
    (lo as bv16) | ((hi as bv16) << 8)
  }

  /** `AppendCRC`, on the vector's value. */
  method AppendCRC(cmd: seq<Byte>) returns (sent: seq<Byte>)
    ensures sent == cmd + [Low(Crc(cmd)), High(Crc(cmd))]
  {
    var crc := CRC16(cmd);
    sent := cmd + [Low(crc)];
    sent := sent + [High(crc)];
  }

  predicate Accepts(rx: seq<Byte>) {
    |rx| >= 3 && Word(rx[|rx| - 2], rx[|rx| - 1]) == Crc(rx[..|rx| - 2])
  }

  /** `CheckCRC`. */
  method CheckCRC(rx: seq<Byte>) returns (ok: bool)
    ensures ok == Accepts(rx)
  {
    if |rx| < 3 {
      return false;
    }
    var recv := Word(rx[|rx| - 2], rx[|rx| - 1]);
    var computed := CRC16(rx[..|rx| - 2]);
    return recv == computed;
  }

  // ---------------------------------------------------------------- algebra of the shift step

  lemma XorComm(a: bv16, b: bv16)
    ensures Xor(a, b) == Xor(b, a)
  {
  }

  lemma XorAssoc(a: bv16, b: bv16, c: bv16)
    ensures Xor(Xor(a, b), c) == Xor(a, Xor(b, c))
  {
  }

  lemma XorSelf(a: bv16)
    ensures Xor(a, a) == 0 && Xor(0, a) == a && Xor(a, 0) == a
  {
  }

  lemma XorZero(a: bv16, b: bv16)
    ensures Xor(a, b) == 0 <==> a == b
  {
    hide Xor;
    XorSelf(a);
    XorSelf(b);
    XorAssoc(a, b, b);
  }

  lemma XorSwap(a: bv16, b: bv16, c: bv16, d: bv16)
    ensures Xor(Xor(a, b), Xor(c, d)) == Xor(Xor(a, c), Xor(b, d))
  {
    hide Xor;
    XorAssoc(a, b, Xor(c, d));
    XorAssoc(b, c, d);
    XorComm(b, c);
    XorAssoc(c, b, d);
    XorAssoc(a, c, Xor(b, d));
  }

  lemma OddXor(a: bv16, b: bv16)
    ensures Odd(Xor(a, b)) <==> Odd(a) != Odd(b)
  {
  }

  lemma HalfXor(a: bv16, b: bv16)
    ensures Half(Xor(a, b)) == Xor(Half(a), Half(b))
  {
  }

  /** The shift step is linear over GF(2). */
  lemma ShiftLinear(a: bv16, b: bv16)
    ensures Shift(Xor(a, b)) == Xor(Shift(a), Shift(b))
  {
    hide Xor, Odd, Half;
    var p: bv16 := 0xA001;
    OddXor(a, b);
    HalfXor(a, b);
    XorSwap(Half(a), p, Half(b), p);
    XorSelf(p);
    XorSelf(Xor(Half(a), Half(b)));
    XorAssoc(Half(a), Half(b), p);
    XorAssoc(Half(a), p, Half(b));
    XorComm(Half(b), p);
  }

  /** Only zero is shifted to zero. */
  lemma ShiftKernel(a: bv16)
    ensures Shift(a) == 0 <==> a == 0
  {
  }

  /** The shift step loses nothing. */
  lemma ShiftInjective(a: bv16, b: bv16)
    ensures Shift(a) == Shift(b) <==> a == b
  {
    hide Shift, Xor;
    ShiftLinear(a, b);
    XorZero(a, b);
    XorZero(Shift(a), Shift(b));
    ShiftKernel(Xor(a, b));
  }

  lemma {:induction false} ShiftNLinear(a: bv16, b: bv16, n: nat)
    ensures ShiftN(Xor(a, b), n) == Xor(ShiftN(a, n), ShiftN(b, n))
  {
    hide Shift, Xor;
    if n > 0 {
      ShiftNLinear(a, b, n - 1);
      ShiftLinear(ShiftN(a, n - 1), ShiftN(b, n - 1));
    }
  }

  lemma {:induction false} ShiftNKernel(a: bv16, n: nat)
    ensures ShiftN(a, n) == 0 <==> a == 0
  {
    hide Shift;
    if n > 0 {
      ShiftNKernel(a, n - 1);
      ShiftKernel(ShiftN(a, n - 1));
    }
  }

  lemma {:induction false} ShiftNAdd(a: bv16, m: nat, n: nat)
    ensures ShiftN(ShiftN(a, m), n) == ShiftN(a, m + n)
    decreases n
  {
    hide Shift;
    if n > 0 {
      ShiftNAdd(a, m, n - 1);
      assert m + n - 1 == m + (n - 1);
    }
  }
}
