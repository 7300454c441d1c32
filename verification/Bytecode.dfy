/** The CPython bytecode codec of GenerateOtx/goto.py: `_parse_instructions` and `_write_instruction`.

    A `Format` holds what `_Bytecode` finds out about the running interpreter (argument size, `have_argument`,
    `jump_unit`) and the opcode numbers that `dis.opmap` gives to the names the patcher mentions. Both shapes the source
    distinguishes are covered: one-byte arguments on every instruction, and two-byte arguments from `have_argument` on. */
module Bytecode {
  import opened Wrappers

  type Byte = x: int | 0 <= x < 256

  datatype Format = Format(
    argSize: nat, haveArgument: nat, jumpUnit: nat,
    extendedArg: Byte, nop: Byte, popBlock: Byte, jumpAbsolute: Byte,
    loadGlobal: Byte, loadName: Byte, loadAttr: Byte, popTop: Byte,
    setups: set<Byte>)
  {
    ghost predicate Valid() {
      && ((argSize == 1 && haveArgument == 0 && 1 <= jumpUnit <= 2)
          || (argSize == 2 && nop < haveArgument && jumpUnit == 1))
      && extendedArg >= haveArgument && jumpAbsolute >= haveArgument
      && loadGlobal >= haveArgument && loadName >= haveArgument && loadAttr >= haveArgument
    }

    ghost predicate DistinctOpcodes() {
      && loadGlobal != loadName
      && {loadGlobal, loadName} !! {extendedArg, loadAttr, popTop, nop, popBlock, jumpAbsolute}
      && extendedArg !in {loadAttr, popTop, nop, popBlock, jumpAbsolute}
      && loadAttr !in {popTop, nop, popBlock, jumpAbsolute}
      && popTop !in {nop, popBlock, jumpAbsolute}
      && nop != popBlock && nop != jumpAbsolute && popBlock != jumpAbsolute
      && setups !! {loadGlobal, loadName, extendedArg, loadAttr, popTop, nop, popBlock, jumpAbsolute}
    }

    /** 1 << argument_bits */
    function Base(): nat {
      if argSize == 1 then 0x100 else 0x1_0000
    }

    /** n << argument_bits */
    function Shl(n: nat): nat {
      if argSize == 1 then 0x100 * n else 0x1_0000 * n
    }

    /** n >> argument_bits */
    function Shr(n: nat): (r: nat)
      ensures r <= n && (n != 0 ==> r < n)
    {
      if argSize == 1 then n / 0x100 else n / 0x1_0000
    }

    /** n & ((1 << argument_bits) - 1) */
    function Low(n: nat): (r: nat)
      ensures r < Base() && Shl(Shr(n)) + r == n
    {
      if argSize == 1 then n % 0x100 else n % 0x1_0000
    }

    function Size(op: Byte): nat {
      if op >= haveArgument then 1 + argSize else 1
    }
  }

  /** One instruction as the parser yields it: opcode, argument if it takes one, offset of its first prefix. */
  datatype Instr = Instr(op: Byte, arg: Option<nat>, offset: nat)

  datatype Error = Malformed | UnknownLabel | DifferentBlock | TooManyBlocks | OutOfBuffer

  // ---------------------------------------------------------------- reading

  function ArgAt(f: Format, code: seq<Byte>, pos: nat): nat
    requires pos + f.argSize <= |code|
  {
    if f.argSize == 1 then code[pos] as int
    else if f.argSize == 2 then code[pos] as int + 0x100 * code[pos + 1] as int
    else 0
  }

  datatype Fetched = Got(op: Byte, arg: Option<nat>, next: nat) | End | Truncated

  /** Read one instruction, prefixes included, with `ext` accumulated so far. `ext` is always a multiple of `Base`, so the
      source's bitwise or is this addition. Trailing prefixes at the end of the code are dropped, as in the source. */
  function Fetch(f: Format, code: seq<Byte>, pos: nat, ext: nat): (r: Fetched)
    ensures r.Got? ==> pos < r.next <= |code|
    decreases |code| - pos
  {
    if pos >= |code| then End
    else
      var op := code[pos];
      if op < f.haveArgument then Got(op, None, pos + 1)
      else if pos + 1 + f.argSize > |code| then Truncated
      else
        var arg := ext + ArgAt(f, code, pos + 1);
        if op == f.extendedArg then Fetch(f, code, pos + 1 + f.argSize, f.Shl(arg))
        else Got(op, Some(arg), pos + 1 + f.argSize)
  }

  function Prepend(front: seq<Instr>, r: Result<seq<Instr>, Error>): Result<seq<Instr>, Error> {
    if r.Success? then Success(front + r.value) else r
  }

  lemma PrependNothing(r: Result<seq<Instr>, Error>)
    ensures Prepend([], r) == r
  {
    if r.Success? { assert [] + r.value == r.value; }
  }

  lemma PrependTwice(a: seq<Instr>, b: seq<Instr>, r: Result<seq<Instr>, Error>)
    ensures Prepend(a, Prepend(b, r)) == Prepend(a + b, r)
  {
    if r.Success? { assert a + (b + r.value) == (a + b) + r.value; }
  }

  lemma PrependEnds(out: seq<Instr>)
    ensures Prepend(out, Success([])) == Success(out) && Prepend(out, Failure(Malformed)) == Failure(Malformed)
  {
    assert out + [] == out;
  }

  /** The instruction list from `pos` on. */
  function Parse(f: Format, code: seq<Byte>, pos: nat): Result<seq<Instr>, Error>
    decreases |code| - pos, 2
  {
    Resume(f, code, pos, Fetch(f, code, pos, 0))
  }

  function Resume(f: Format, code: seq<Byte>, offset: nat, fetched: Fetched): Result<seq<Instr>, Error>
    requires fetched.Got? ==> offset < fetched.next <= |code|
    decreases |code| - (if fetched.Got? then fetched.next else offset), if fetched.Got? then 3 else 0
  {
    match fetched
    case End => Success([])
    case Truncated => Failure(Malformed)
    case Got(op, arg, next) => Prepend([Instr(op, arg, offset)], Parse(f, code, next))
  }

  /** Fetching looks at nothing beyond the instruction it returns. */
  lemma FetchLocal(f: Format, code: seq<Byte>, other: seq<Byte>, pos: nat, ext: nat)
    requires Fetch(f, code, pos, ext).Got? && |other| == |code|
    requires forall p :: pos <= p < Fetch(f, code, pos, ext).next ==> other[p] == code[p]
    ensures Fetch(f, other, pos, ext) == Fetch(f, code, pos, ext)
    decreases |code| - pos
  {
    hide Format.Shl;
    if code[pos] == f.extendedArg && code[pos] >= f.haveArgument {
      FetchLocal(f, code, other, pos + 1 + f.argSize, f.Shl(ext + ArgAt(f, code, pos + 1)));
    }
  }

  /** With an argument on every instruction, instructions are whole code units. */
  lemma FetchAligned(f: Format, code: seq<Byte>, pos: nat, ext: nat)
    requires f.Valid() && f.haveArgument == 0 && Fetch(f, code, pos, ext).Got?
    ensures (Fetch(f, code, pos, ext).next - pos) % 2 == 0
    decreases |code| - pos
  {
    if code[pos] == f.extendedArg {
      FetchAligned(f, code, pos + 1 + f.argSize, f.Shl(ext + ArgAt(f, code, pos + 1)));
    }
  }

  /** `_parse_instructions`, with the generator's output collected in a list. */
  method ParseInstructions(f: Format, code: seq<Byte>) returns (r: Result<seq<Instr>, Error>)
    ensures r == Parse(f, code, 0)
  {
    hide Prepend, ArgAt;
    var extendedArg: nat, extendedArgOffset: Option<nat>, pos: nat := 0, None, 0;
    var out: seq<Instr> := [];
    PrependNothing(Parse(f, code, 0));
    while pos < |code|
      invariant extendedArgOffset == None ==> extendedArg == 0
      invariant 0 <= extendedArgOffset.GetOr(pos) <= pos
      invariant Parse(f, code, 0)
             == Prepend(out, Resume(f, code, extendedArgOffset.GetOr(pos), Fetch(f, code, pos, extendedArg)))
    {
      var offset := extendedArgOffset.GetOr(pos);
      var opcode := code[pos];
      ghost var start := pos;
      pos := pos + 1;
      var oparg: Option<nat> := None;
      if opcode >= f.haveArgument {
        if pos + f.argSize > |code| {
          PrependEnds(out);
          return Failure(Malformed);
        }
        var value: nat := extendedArg + ArgAt(f, code, pos);
        oparg := Some(value);
        pos := pos + f.argSize;
        if opcode == f.extendedArg {
          extendedArg := f.Shl(oparg.value);
          extendedArgOffset := Some(offset);
          continue;
        }
      }
      assert Fetch(f, code, start, extendedArg) == Got(opcode, oparg, pos);
      PrependTwice(out, [Instr(opcode, oparg, offset)], Parse(f, code, pos));
      extendedArg, extendedArgOffset := 0, None;
      out := out + [Instr(opcode, oparg, offset)];
    }
    PrependEnds(out);
    return Success(out);
  }

  // ---------------------------------------------------------------- writing

  function ArgBytes(f: Format, arg: nat): (bytes: seq<Byte>)
    requires arg < f.Base()
    ensures f.Valid() ==> |bytes| == f.argSize
  {
    if f.argSize == 1 then [arg] else [arg % 0x100, arg / 0x100]
  }

  /** One code unit: the opcode, and its argument bytes if it takes an argument. */
  function Unit(f: Format, op: Byte, low: nat): (bytes: seq<Byte>)
    requires low < f.Base()
    ensures f.Valid() ==> |bytes| == f.Size(op)
  {
    [op] + (if op >= f.haveArgument then ArgBytes(f, low) else [])
  }

  /** The EXTENDED_ARG prefixes that carry `high`. */
  function Prefixes(f: Format, high: nat): seq<Byte>
    decreases high, if high == 0 then 0 else 2
  {
    if high == 0 then [] else Encode(f, f.extendedArg, high)
  }

  /** What `_write_instruction` stores: prefixes for the high part, then one unit with the low part. */
  function Encode(f: Format, op: Byte, arg: nat): (bytes: seq<Byte>)
    ensures |bytes| > 0
    decreases arg, 1
  {
    Prefixes(f, f.Shr(arg)) + Unit(f, op, f.Low(arg))
  }

  function Splice(s: seq<Byte>, pos: nat, bytes: seq<Byte>): (r: seq<Byte>)
    requires pos + |bytes| <= |s|
    ensures |r| == |s|
  {
    s[..pos] + bytes + s[pos + |bytes|..]
  }

  lemma SpliceTwice(s: seq<Byte>, pos: nat, a: seq<Byte>, b: seq<Byte>)
    requires pos + |a| + |b| <= |s|
    ensures Splice(Splice(s, pos, a), pos + |a|, b) == Splice(s, pos, a + b)
  {
  }

  lemma SpliceNothing(s: seq<Byte>, pos: nat)
    requires pos <= |s|
    ensures Splice(s, pos, []) == s
  {
  }

  /** The tail of `_write_instruction`: `buf[pos] = opcode` and `pack_into`, each with its bounds error. */
  method WriteUnit(f: Format, buf: array<Byte>, pos: nat, op: Byte, low: nat) returns (r: Result<nat, Error>)
    requires f.Valid() && low < f.Base()
    modifies buf
    ensures r.Success? <==> pos + |Unit(f, op, low)| <= buf.Length
    ensures r.Success? ==> r.value == pos + |Unit(f, op, low)|
    ensures r.Success? ==> buf[..] == Splice(old(buf[..]), pos, Unit(f, op, low))
    ensures r.Failure? ==> r.error == OutOfBuffer
  {
    if pos >= buf.Length {
      return Failure(OutOfBuffer);
    }
    buf[pos] := op;
    var next := pos + 1;
    if op >= f.haveArgument {
      if next + f.argSize > buf.Length {
        return Failure(OutOfBuffer);
      }
      if f.argSize == 1 {
        buf[next] := low;
      } else {
        buf[next], buf[next + 1] := low % 0x100, low / 0x100;
      }
      next := next + f.argSize;
    }
    return Success(next);
  }

  /** `_write_instruction`. Running off the buffer is the source's IndexError or struct.error. */
  method WriteInstruction(f: Format, buf: array<Byte>, pos: nat, op: Byte, arg: nat)
    returns (r: Result<nat, Error>)
    requires f.Valid()
    modifies buf
    ensures r.Success? <==> pos + |Encode(f, op, arg)| <= buf.Length
    ensures r.Success? ==> r.value == pos + |Encode(f, op, arg)|
    ensures r.Success? ==> buf[..] == Splice(old(buf[..]), pos, Encode(f, op, arg))
    ensures r.Failure? ==> r.error == OutOfBuffer
    decreases arg
  {
    hide Unit, ArgBytes, Splice;
    var extendedArg, p, low := f.Shr(arg), pos, arg;
    ghost var was := buf[..];
    if extendedArg != 0 {
      p :- WriteInstruction(f, buf, pos, f.extendedArg, extendedArg);
      low := f.Low(arg);
    } else if pos <= |was| {
      SpliceNothing(was, pos);
    }
    r := WriteUnit(f, buf, p, op, low);
    if r.Success? {
      SpliceTwice(was, pos, Prefixes(f, extendedArg), Unit(f, op, low));
    }
  }

  // ---------------------------------------------------------------- round trip

  datatype Op = Op(op: Byte, arg: nat)

  /** An operation a writer may be asked for: no explicit prefix, and an operand only where one is taken. */
  predicate Writable(f: Format, o: Op) {
    o.op != f.extendedArg && (o.op < f.haveArgument ==> o.arg == 0)
  }

  function EncodeAll(f: Format, ops: seq<Op>): seq<Byte> {
    if ops == [] then [] else Encode(f, ops[0].op, ops[0].arg) + EncodeAll(f, ops[1..])
  }

  function Shown(f: Format, o: Op, offset: nat): Instr {
    Instr(o.op, if o.op >= f.haveArgument then Some(o.arg) else None, offset)
  }

  /** `ops` as the parser shows them when they are stored from `offset` on. */
  function Place(f: Format, ops: seq<Op>, offset: nat): seq<Instr> {
    if ops == [] then []
    else [Shown(f, ops[0], offset)] + Place(f, ops[1..], offset + |Encode(f, ops[0].op, ops[0].arg)|)
  }

  /** `bytes` stands at `pos`. */
  predicate At(code: seq<Byte>, pos: nat, bytes: seq<Byte>) {
    pos + |bytes| <= |code| && code[pos..pos + |bytes|] == bytes
  }

  lemma AtSplit(code: seq<Byte>, pos: nat, a: seq<Byte>, b: seq<Byte>)
    requires At(code, pos, a + b)
    ensures At(code, pos, a) && At(code, pos + |a|, b)
  {
    assert code[pos..pos + |a|] == (a + b)[..|a|] == a;
    assert code[pos + |a|..pos + |a| + |b|] == (a + b)[|a|..] == b;
  }

  lemma ArgBytesRead(f: Format, code: seq<Byte>, pos: nat, arg: nat)
    requires f.Valid() && arg < f.Base() && At(code, pos, ArgBytes(f, arg))
    ensures ArgAt(f, code, pos) == arg
  {
    var b := ArgBytes(f, arg);
    assert code[pos] == code[pos..pos + |b|][0];
    assert f.argSize == 2 ==> code[pos + 1] == code[pos..pos + |b|][1];
  }

  lemma EncodeAligned(f: Format, op: Byte, arg: nat)
    requires f.Valid() && f.haveArgument == 0
    ensures |Encode(f, op, arg)| % 2 == 0
    decreases arg
  {
    if f.Shr(arg) != 0 {
      EncodeAligned(f, f.extendedArg, f.Shr(arg));
    }
  }

  lemma {:induction false} EncodeAllJoin(f: Format, a: seq<Op>, b: seq<Op>)
    ensures EncodeAll(f, a + b) == EncodeAll(f, a) + EncodeAll(f, b)
    decreases |a|
  {
    if a == [] {
      assert [] + b == b;
    } else {
      assert (a + b)[0] == a[0] && (a + b)[1..] == a[1..] + b;
      EncodeAllJoin(f, a[1..], b);
    }
  }

  lemma EncodeAllOne(f: Format, o: Op)
    ensures EncodeAll(f, [o]) == Encode(f, o.op, o.arg)
  {
    assert [o][1..] == [];
  }

  lemma FetchUnit(f: Format, code: seq<Byte>, pos: nat, op: Byte, ext: nat, low: nat)
    requires f.Valid() && low < f.Base() && At(code, pos, Unit(f, op, low))
    ensures var next := pos + |Unit(f, op, low)|;
            Fetch(f, code, pos, ext)
            == if op < f.haveArgument then Got(op, None, next)
               else if op == f.extendedArg then Fetch(f, code, next, f.Shl(ext + low))
               else Got(op, Some(ext + low), next)
  {
    assert code[pos] == code[pos..pos + |Unit(f, op, low)|][0] == op;
    if op >= f.haveArgument {
      AtSplit(code, pos, [op], ArgBytes(f, low));
      ArgBytesRead(f, code, pos + 1, low);
    }
  }

  /** However many prefixes carry the high part, the fetch arrives behind them with that part accumulated. */
  lemma {:induction false} FetchPrefixes(f: Format, code: seq<Byte>, pos: nat, high: nat)
    requires f.Valid() && At(code, pos, Prefixes(f, high))
    ensures Fetch(f, code, pos, 0) == Fetch(f, code, pos + |Prefixes(f, high)|, f.Shl(high))
    decreases high
  {
    hide Fetch, Unit, ArgBytes, At;
    if high != 0 {
      var more, unit := Prefixes(f, f.Shr(high)), Unit(f, f.extendedArg, f.Low(high));
      assert Prefixes(f, high) == Encode(f, f.extendedArg, high) == more + unit;
      AtSplit(code, pos, more, unit);
      FetchPrefixes(f, code, pos, f.Shr(high));
      FetchUnit(f, code, pos + |more|, f.extendedArg, f.Shl(f.Shr(high)), f.Low(high));
    }
  }

  /** One written instruction is fetched back: any operand, however many prefixes it takes. */
  lemma FetchEncoded(f: Format, code: seq<Byte>, pos: nat, o: Op)
    requires f.Valid() && Writable(f, o) && At(code, pos, Encode(f, o.op, o.arg))
    ensures Fetch(f, code, pos, 0)
         == Got(o.op, if o.op >= f.haveArgument then Some(o.arg) else None, pos + |Encode(f, o.op, o.arg)|)
  {
    hide Fetch, At, Unit, Prefixes;
    var prefixes, unit := Prefixes(f, f.Shr(o.arg)), Unit(f, o.op, f.Low(o.arg));
    AtSplit(code, pos, prefixes, unit);
    FetchPrefixes(f, code, pos, f.Shr(o.arg));
    FetchUnit(f, code, pos + |prefixes|, o.op, f.Shl(f.Shr(o.arg)), f.Low(o.arg));
  }

  /** Writing any sequence of operations and parsing it back returns the same opcodes, operands and offsets, and leaves
      the parse of what follows as it was. */
  lemma {:induction false} ParseEncoded(f: Format, code: seq<Byte>, pos: nat, ops: seq<Op>)
    requires f.Valid() && At(code, pos, EncodeAll(f, ops))
    requires forall o :: o in ops ==> Writable(f, o)
    ensures Parse(f, code, pos) == Prepend(Place(f, ops, pos), Parse(f, code, pos + |EncodeAll(f, ops)|))
    decreases |ops|
  {
    hide Parse, Encode, At, Prepend;
    if ops == [] {
      PrependNothing(Parse(f, code, pos));
    } else {
      var o, rest := ops[0], ops[1..];
      var next := pos + |Encode(f, o.op, o.arg)|;
      AtSplit(code, pos, Encode(f, o.op, o.arg), EncodeAll(f, rest));
      ParseOne(f, code, pos, o);
      ParseEncoded(f, code, next, rest);
      PrependTwice([Shown(f, o, pos)], Place(f, rest, next), Parse(f, code, next + |EncodeAll(f, rest)|));
    }
  }

  lemma ParseOne(f: Format, code: seq<Byte>, pos: nat, o: Op)
    requires f.Valid() && Writable(f, o) && At(code, pos, Encode(f, o.op, o.arg))
    ensures Parse(f, code, pos) == Prepend([Shown(f, o, pos)], Parse(f, code, pos + |Encode(f, o.op, o.arg)|))
  {
    FetchEncoded(f, code, pos, o);
  }

  /** `now` is `was` with `ops` written from `start` on. */
  predicate Written(f: Format, was: seq<Byte>, now: seq<Byte>, start: nat, ops: seq<Op>) {
    start + |EncodeAll(f, ops)| <= |was| && now == Splice(was, start, EncodeAll(f, ops))
  }

  lemma WrittenNone(f: Format, was: seq<Byte>, start: nat)
    requires start <= |was|
    ensures Written(f, was, was, start, [])
  {
  }

  lemma WrittenMore(f: Format, was: seq<Byte>, now: seq<Byte>, next: seq<Byte>, start: nat, ops: seq<Op>, o: Op)
    requires Written(f, was, now, start, ops)
    requires var pos := start + |EncodeAll(f, ops)|;
             pos + |Encode(f, o.op, o.arg)| <= |was| && next == Splice(now, pos, Encode(f, o.op, o.arg))
    ensures Written(f, was, next, start, ops + [o])
  {
    EncodeAllMore(f, ops, o);
    SpliceTwice(was, start, EncodeAll(f, ops), Encode(f, o.op, o.arg));
  }

  lemma EncodeAllMore(f: Format, ops: seq<Op>, o: Op)
    ensures EncodeAll(f, ops + [o]) == EncodeAll(f, ops) + Encode(f, o.op, o.arg)
  {
    EncodeAllJoin(f, ops, [o]);
    EncodeAllOne(f, o);
  }

  /** The codec's round trip on a whole code string. */
  lemma RoundTrip(f: Format, ops: seq<Op>)
    requires f.Valid() && forall o :: o in ops ==> Writable(f, o)
    ensures Parse(f, EncodeAll(f, ops), 0) == Success(Place(f, ops, 0))
  {
    var code := EncodeAll(f, ops);
    assert At(code, 0, code);
    ParseEncoded(f, code, 0, ops);
    assert Place(f, ops, 0) + [] == Place(f, ops, 0);
  }
}
