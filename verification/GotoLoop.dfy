/** One code string from its bytes to the patched bytes: a goto that leaves a loop. */
module GotoLoop {
  import opened Wrappers
  import opened Bytecode
  import opened BytecodeUnits
  import opened GotoSites
  import opened GotoPatch
  import opened GotoRewrite

  /** `while ..: goto .x` and `label .x` behind it, in bytes: SETUP_LOOP; the goto; POP_BLOCK; the label; LOAD_CONST;
      RETURN_VALUE. */
  const LOOP: seq<Byte> := [120, 14, 116, 0, 106, 1, 1, 0, 87, 0, 116, 2, 106, 1, 1, 0, 100, 0, 83, 0]

  /** The goto has become POP_BLOCK, JUMP_ABSOLUTE behind the label, NOP; the label three NOPs. */
  const LEFT: seq<Byte> := [120, 14, 87, 0, 113, 16, 9, 0, 87, 0, 9, 0, 9, 0, 9, 0, 100, 0, 83, 0]

  const LOOP_NAMES: seq<string> := ["goto", "x", "label"]

  function LoopIns(): seq<Instr> {
    seq(10, k requires 0 <= k < 10 => Instr(LOOP[2 * k], Some(LOOP[2 * k + 1]), 2 * k))
  }

  /** A code string of ten units without prefixes. */
  lemma {:induction false} UnitsListed(code: seq<Byte>, ins: seq<Instr>, k: nat)
    requires |code| == 20 && |ins| == 10 && k <= 10
    requires forall i :: 0 <= i < 10 ==> code[2 * i] != 144 && ins[i] == Instr(code[2 * i], Some(code[2 * i + 1]), 2 * i)
    ensures Listed(CPYTHON36, code, 2 * k, ins[k..])
    decreases 10 - k
  {
    var f, rest := CPYTHON36, ins[k..];
    if k == 10 {
      assert Prefixed(f, code, 20, 0) && Behind(f, 20, 0) == |code|;
    } else {
      UnitsListed(code, ins, k + 1);
      assert rest[1..] == ins[k + 1..] && rest[0] == ins[k];
      assert Spelled(f, code, 2 * k, 0) == 0;
      assert Spelled(f, code, 2 * k, 1) == code[2 * k + 1];
      assert Stands(f, code, 2 * k, 0, code[2 * k], Some(code[2 * k + 1]), 2 * k + 2);
    }
  }

  function LoopFound(): Found {
    Found(map[1 := Label(10, 16, [])], [Goto(2, 8, 1, [1])])
  }

  function LoopListing(): Listing {
    Listing(CPYTHON36, LOOP_NAMES, LOOP, LoopIns(), LoopFound())
  }

  lemma LoopSites()
    ensures forall i: nat :: IsSite(CPYTHON36, LoopIns(), i) <==> i == 1 || i == 5
    ensures IsGoto(CPYTHON36, LOOP_NAMES, LoopIns(), 1) && Key(LoopIns(), 1) == 1
    ensures IsLabel(CPYTHON36, LOOP_NAMES, LoopIns(), 5) && Key(LoopIns(), 5) == 1
    ensures !IsLabel(CPYTHON36, LOOP_NAMES, LoopIns(), 1) && !IsGoto(CPYTHON36, LOOP_NAMES, LoopIns(), 5)
  {
    assert "label" != "goto" by { assert |"label"| == 5 && |"goto"| == 4; }
  }

  lemma LoopBlocks()
    ensures BlocksAt(CPYTHON36, LoopIns(), 1) == Blocks([1], 1) && BlocksAt(CPYTHON36, LoopIns(), 5) == Blocks([], 1)
  {
    var f, ins := CPYTHON36, LoopIns();
    assert BlocksAt(f, ins, 0) == Blocks([], 0);
    assert BlocksAt(f, ins, 1) == Blocks([] + [1], 1);
    assert BlocksAt(f, ins, 2) == BlocksAt(f, ins, 1);
    assert BlocksAt(f, ins, 3) == BlocksAt(f, ins, 2);
    assert BlocksAt(f, ins, 4) == BlocksAt(f, ins, 3);
    assert [1][..0] == [];
  }

  lemma ScanStep(f: Format, names: seq<string>, ins: seq<Instr>, n: nat, found: Found)
    requires n + 3 < |ins| && Scan(f, names, ins, n) == Success(found) && (IsSite(f, ins, n) ==> NameKnown(names, ins, n))
    ensures Scan(f, names, ins, n + 1)
         == Success(if IsLabel(f, names, ins, n) then found.(labels := found.labels[Key(ins, n) := LabelOf(f, ins, n)])
                    else if IsGoto(f, names, ins, n) then found.(gotos := found.gotos + [GotoOf(f, ins, n)])
                    else found)
  {
  }

  lemma LoopScanned()
    ensures Scan(CPYTHON36, LOOP_NAMES, LoopIns(), 7) == Success(LoopFound())
  {
    hide Scan, IsSite, IsLabel, IsGoto, BlocksAt;
    var f, names, ins := CPYTHON36, LOOP_NAMES, LoopIns();
    LoopSites();
    LoopBlocks();
    SitesOnly(f, names, ins);
    var none: Found, one := Found(map[], []), Found(map[], [Goto(2, 8, 1, [1])]);
    assert Scan(f, names, ins, 0) == Success(none) by { ScanNothing(f, names, ins); }
    ScanStep(f, names, ins, 0, none);
    ScanStep(f, names, ins, 1, none);
    assert none.gotos + [GotoOf(f, ins, 1)] == one.gotos;
    ScanStep(f, names, ins, 2, one);
    ScanStep(f, names, ins, 3, one);
    ScanStep(f, names, ins, 4, one);
    ScanStep(f, names, ins, 5, one);
    assert one.labels[1 := LabelOf(f, ins, 5)] == LoopFound().labels;
    ScanStep(f, names, ins, 6, LoopFound());
  }

  lemma ScanNothing(f: Format, names: seq<string>, ins: seq<Instr>)
    ensures Scan(f, names, ins, 0) == Success(Found(map[], []))
  {
  }

  lemma SitesOnly(f: Format, names: seq<string>, ins: seq<Instr>)
    ensures forall i: nat :: IsLabel(f, names, ins, i) || IsGoto(f, names, ins, i) ==>
              IsSite(f, ins, i) && NameKnown(names, ins, i)
  {
  }

  lemma LoopValid()
    ensures LoopListing().Valid()
  {
    hide Scan, Parse, Listed;
    UnitsListed(LOOP, LoopIns(), 0);
    assert LoopIns()[0..] == LoopIns();
    ParseReads(CPYTHON36, LOOP, 0, LoopIns());
    LoopScanned();
  }

  lemma Unit(f: Format, op: Byte, arg: nat)
    requires f.Valid() && f.argSize == 1 && arg < 256
    ensures Encode(f, op, arg) == [op, arg]
  {
  }

  lemma TwoUnits(f: Format, a: Op, b: Op)
    requires f.Valid() && f.argSize == 1 && a.arg < 256 && b.arg < 256
    ensures EncodeAll(f, [a, b]) == [a.op, a.arg, b.op, b.arg]
  {
    hide Encode;
    Unit(f, a.op, a.arg);
    Unit(f, b.op, b.arg);
    assert [a, b] == [a] + [b];
    EncodeAllMore(f, [a], b);
    EncodeAllOne(f, a);
  }

  lemma ThreeUnits(f: Format, a: Op, b: Op, c: Op)
    requires f.Valid() && f.argSize == 1 && a.arg < 256 && b.arg < 256 && c.arg < 256
    ensures EncodeAll(f, [a, b, c]) == [a.op, a.arg, b.op, b.arg, c.op, c.arg]
  {
    hide Encode, EncodeAll;
    TwoUnits(f, a, b);
    Unit(f, c.op, c.arg);
    assert [a, b, c] == [a, b] + [c];
    EncodeAllMore(f, [a, b], c);
  }

  lemma LoopReplaced()
    ensures var s := LoopListing();
            && Plan(s.f, s.found, s.found.gotos[0]) == Success([Op(87, 0), Op(113, 16), Op(9, 0)])
            && Sled(s.f, 10, 16) == [Op(9, 0), Op(9, 0), Op(9, 0)]
  {
    hide Encode, EncodeAll;
    var s := LoopListing();
    assert Jump(s.f, 1, 16) == [Op(87, 0), Op(113, 16)];
    TwoUnits(s.f, Op(87, 0), Op(113, 16));
    assert Sled(s.f, 6, 8) == [Op(9, 0)];
    assert [Op(87, 0), Op(113, 16)] + [Op(9, 0)] == [Op(87, 0), Op(113, 16), Op(9, 0)];
    assert |s.found.gotos[0].blocks| == 1 && s.found.labels[1].blocks == [];
  }

  lemma LoopLive()
    ensures var s := LoopListing();
            && (forall i: nat :: s.Live(i) <==> i == 1 || i == 5)
            && s.Replacement(1) == [Op(87, 0), Op(113, 16), Op(9, 0)]
            && s.Replacement(5) == [Op(9, 0), Op(9, 0), Op(9, 0)]
  {
    hide Plan, Sled, IsSite, IsLabel, IsGoto, GotoOf;
    var s := LoopListing();
    LoopSites();
    SitesOnly(s.f, s.names, s.ins);
    LoopReplaced();
    assert GotoOf(s.f, s.ins, 1) == s.found.gotos[0] by { LoopGoto(); }
  }

  lemma LoopGoto()
    ensures GotoOf(CPYTHON36, LoopIns(), 1) == Goto(2, 8, 1, [1])
  {
    LoopBlocks();
  }

  lemma LoopPatched(buf: seq<Byte>)
    requires LoopListing().Patched(buf)
    ensures buf == LEFT
  {
    hide EncodeAll, Listing.Live, Listing.Replacement;
    var s := LoopListing();
    LoopLive();
    ThreeUnits(s.f, Op(87, 0), Op(113, 16), Op(9, 0));
    ThreeUnits(s.f, Op(9, 0), Op(9, 0), Op(9, 0));
    assert At(buf, 2, [87, 0, 113, 16, 9, 0]) && At(buf, 10, [9, 0, 9, 0, 9, 0]);
    forall p: nat | p < 20 && !(2 <= p < 8) && !(10 <= p < 16) ensures buf[p] == LOOP[p] {
      forall i: nat | s.Live(i) ensures !s.Inside(i, p) {}
    }
    PutTogether(buf);
  }

  lemma PutTogether(buf: seq<Byte>)
    requires |buf| == 20 && At(buf, 2, [87, 0, 113, 16, 9, 0]) && At(buf, 10, [9, 0, 9, 0, 9, 0])
    requires forall p: nat :: p < 20 && !(2 <= p < 8) && !(10 <= p < 16) ==> buf[p] == LOOP[p]
    ensures buf == LEFT
  {
    forall p | 0 <= p < 20 ensures buf[p] == LEFT[p] {
      if 2 <= p < 8 {
        assert buf[p] == buf[2..8][p - 2];
      } else if 10 <= p < 16 {
        assert buf[p] == buf[10..16][p - 10];
      }
    }
  }

  /** A goto out of a loop is accepted; its code string becomes exactly `LEFT`. */
  lemma LoopLeft(r: Result<seq<Byte>, Error>)
    requires Outcome(CPYTHON36, LOOP_NAMES, LOOP, r)
    ensures r == Success(LEFT)
  {
    hide Parse, Scan, Plan, EncodeAll, Listing.Patched;
    var s := LoopListing();
    LoopValid();
    LoopReplaced();
    assert FirstError(s.f, s.found, 0) == None;
    assert FirstError(s.f, s.found, 1) == None;
    LoopPatched(r.value);
  }
}
