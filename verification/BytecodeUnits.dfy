/** What the bytes of a code string say, as CPython reads them: code units of one opcode and one or two argument bytes, and in
    front of an instruction any number of EXTENDED_ARG units whose argument bytes are the more significant digits of its
    argument. Nothing here uses the shifts and masks of the codec; the codec is shown to agree. */
module BytecodeUnits {
  import opened Wrappers
  import opened Bytecode

  /** The position behind `n` units with arguments. */
  function Behind(f: Format, pos: nat, n: nat): nat {
    if f.argSize == 1 then pos + 2 * n else pos + 3 * n
  }

  /** The number that the arguments of `n` units spell, the first unit most significant: one digit of base 256 a unit, or one
      of base 65536, low byte first. */
  function Spelled(f: Format, code: seq<Byte>, pos: nat, n: nat): nat
    requires Behind(f, pos, n) <= |code|
    decreases n
  {
    if n == 0 then 0
    else if f.argSize == 1 then 256 * Spelled(f, code, pos, n - 1) + code[pos + 2 * n - 1] as int
    else 65536 * Spelled(f, code, pos, n - 1) + code[pos + 3 * n - 2] as int + 256 * code[pos + 3 * n - 1] as int
  }

  /** `n` EXTENDED_ARG units. */
  predicate Prefixed(f: Format, code: seq<Byte>, pos: nat, n: nat) {
    Behind(f, pos, n) <= |code| && forall k: nat :: k < n ==> code[Behind(f, pos, k)] == f.extendedArg
  }

  /** At `pos` stands the instruction `op` with `arg`, `n` prefixes included, and the next is at `next`. The prefixes of an
      instruction without argument are lost. */
  predicate Stands(f: Format, code: seq<Byte>, pos: nat, n: nat, op: Byte, arg: Option<nat>, next: nat) {
    && Prefixed(f, code, pos, n) && Behind(f, pos, n) < |code|
    && code[Behind(f, pos, n)] == op && op != f.extendedArg
    && if op < f.haveArgument then arg == None && next == Behind(f, pos, n) + 1
       else next == Behind(f, pos, n + 1) && next <= |code| && arg == Some(Spelled(f, code, pos, n + 1))
  }

  lemma SpelledMore(f: Format, code: seq<Byte>, pos: nat, n: nat)
    requires f.Valid() && Behind(f, pos, n + 1) <= |code|
    ensures Spelled(f, code, pos, n + 1) == f.Shl(Spelled(f, code, pos, n)) + ArgAt(f, code, Behind(f, pos, n) + 1)
  {
  }

  /** Behind its prefixes the fetch holds the number they spell, moved up by one digit. */
  lemma {:induction false} FetchBehind(f: Format, code: seq<Byte>, pos: nat, n: nat)
    requires f.Valid() && Prefixed(f, code, pos, n)
    ensures Fetch(f, code, pos, 0) == Fetch(f, code, Behind(f, pos, n), f.Shl(Spelled(f, code, pos, n)))
    decreases n
  {
    hide Spelled, Format.Shl;
    if n > 0 {
      assert code[Behind(f, pos, n - 1)] == f.extendedArg;
      assert Prefixed(f, code, pos, n - 1) by { FewerPrefixes(f, code, pos, n); }
      FetchBehind(f, code, pos, n - 1);
      SpelledMore(f, code, pos, n - 1);
    } else {
      NothingSpelled(f, code, pos);
    }
  }

  lemma NothingSpelled(f: Format, code: seq<Byte>, pos: nat)
    requires Behind(f, pos, 0) <= |code|
    ensures f.Shl(Spelled(f, code, pos, 0)) == 0
  {
  }

  lemma FewerPrefixes(f: Format, code: seq<Byte>, pos: nat, n: nat)
    requires n > 0 && Prefixed(f, code, pos, n)
    ensures Prefixed(f, code, pos, n - 1)
  {
  }

  /** All the prefixes that stand at `pos`. */
  lemma {:induction false} AllPrefixes(f: Format, code: seq<Byte>, pos: nat, n: nat) returns (m: nat)
    requires f.Valid() && Prefixed(f, code, pos, n)
    ensures Prefixed(f, code, pos, m)
    ensures var at := Behind(f, pos, m); at < |code| && code[at] == f.extendedArg ==> Behind(f, pos, m + 1) > |code|
    decreases |code| - n
  {
    var at := Behind(f, pos, n);
    if at < |code| && code[at] == f.extendedArg && Behind(f, pos, n + 1) <= |code| {
      m := AllPrefixes(f, code, pos, n + 1);
    } else {
      m := n;
    }
  }

  /** What a fetch returns, for all bytes: the instruction that stands there; the end, if only prefixes are left; or a
      truncated argument. Exactly one of the three is the case. */
  lemma FetchReads(f: Format, code: seq<Byte>, pos: nat)
    requires f.Valid() && pos <= |code|
    ensures forall op: Byte, arg: Option<nat>, next: nat ::
              Fetch(f, code, pos, 0) == Got(op, arg, next) <==> exists n: nat :: Stands(f, code, pos, n, op, arg, next)
    ensures Fetch(f, code, pos, 0).End? <==> exists n: nat :: Prefixed(f, code, pos, n) && Behind(f, pos, n) == |code|
    ensures Fetch(f, code, pos, 0).Truncated?
       <==> exists n: nat :: Prefixed(f, code, pos, n) && Behind(f, pos, n) < |code| < Behind(f, pos, n + 1)
                             && code[Behind(f, pos, n)] >= f.haveArgument
  {
    hide Spelled, Fetch, Prefixed, Format.Shl;
    assert Prefixed(f, code, pos, 0) by { NoPrefixes(f, code, pos); }
    var m := AllPrefixes(f, code, pos, 0);
    FetchHere(f, code, pos, m);
    var r := Fetch(f, code, pos, 0);
    if r.Got? { assert Stands(f, code, pos, m, r.op, r.arg, r.next); }
    forall n: nat | Prefixed(f, code, pos, n)
      ensures Behind(f, pos, n) == |code| ==> Fetch(f, code, pos, 0).End?
    {
      FetchHere(f, code, pos, n);
    }
    forall n: nat | Prefixed(f, code, pos, n)
                    && Behind(f, pos, n) < |code| < Behind(f, pos, n + 1) && code[Behind(f, pos, n)] >= f.haveArgument
      ensures Fetch(f, code, pos, 0).Truncated?
    {
      FetchHere(f, code, pos, n);
    }
    forall n: nat, op: Byte, arg: Option<nat>, next: nat | Stands(f, code, pos, n, op, arg, next)
      ensures Fetch(f, code, pos, 0) == Got(op, arg, next)
    {
      FetchHere(f, code, pos, n);
    }
  }

  lemma NoPrefixes(f: Format, code: seq<Byte>, pos: nat)
    requires pos <= |code|
    ensures Prefixed(f, code, pos, 0)
  {
  }

  /** The fetch by what stands behind `n` prefixes. */
  lemma FetchHere(f: Format, code: seq<Byte>, pos: nat, n: nat)
    requires f.Valid() && Prefixed(f, code, pos, n)
    ensures Behind(f, pos, n) <= |code|
    ensures var at := Behind(f, pos, n);
            var r := Fetch(f, code, pos, 0);
            && (at == |code| ==> r == End)
            && (at < |code| && code[at] < f.haveArgument ==> r == Got(code[at], None, at + 1))
            && (at < |code| && code[at] >= f.haveArgument && Behind(f, pos, n + 1) > |code| ==> r == Truncated)
            && (at < |code| && f.extendedArg != code[at] >= f.haveArgument && Behind(f, pos, n + 1) <= |code| ==>
                  r == Got(code[at], Some(Spelled(f, code, pos, n + 1)), Behind(f, pos, n + 1)))
  {
    hide Spelled, ArgAt, Format.Shl;
    FetchBehind(f, code, pos, n);
    if Behind(f, pos, n + 1) <= |code| { SpelledMore(f, code, pos, n); }
  }

  /** The instruction list that stands from `pos` on: each behind the one before, and nothing but prefixes behind the last. */
  ghost predicate Listed(f: Format, code: seq<Byte>, pos: nat, ins: seq<Instr>)
    decreases |ins|
  {
    if ins == [] then exists n: nat :: Prefixed(f, code, pos, n) && Behind(f, pos, n) == |code|
    else
      && ins[0].offset == pos
      && exists n: nat, next: nat ::
           Stands(f, code, pos, n, ins[0].op, ins[0].arg, next) && Listed(f, code, next, ins[1..])
  }

  /** The parser returns exactly the instruction list that stands in the code, and fails exactly if there is none. */
  lemma {:induction false} ParseReads(f: Format, code: seq<Byte>, pos: nat, ins: seq<Instr>)
    requires f.Valid() && pos <= |code|
    ensures Parse(f, code, pos) == Success(ins) <==> Listed(f, code, pos, ins)
    decreases |code| - pos
  {
    hide Stands, Prefixed, Fetch, Parse;
    FetchReads(f, code, pos);
    ParseOnce(f, code, pos);
    var r := Fetch(f, code, pos, 0);
    if ins != [] { ListedFirst(f, code, pos, ins); }
    if r.Got? {
      var first, rest := Instr(r.op, r.arg, pos), Parse(f, code, r.next);
      if ins == [] {
        if rest.Success? { assert |[first] + rest.value| > 0; }
        assert !Listed(f, code, pos, []);
      } else {
        ParseReads(f, code, r.next, ins[1..]);
        if rest.Success? { assert ([first] + rest.value)[1..] == rest.value; }
        assert ins == [ins[0]] + ins[1..];
        assert Parse(f, code, pos) == Success(ins) <==> ins[0] == first && rest == Success(ins[1..]);
      }
    }
  }

  lemma ListedFirst(f: Format, code: seq<Byte>, pos: nat, ins: seq<Instr>)
    requires f.Valid() && pos <= |code| && ins != []
    ensures var r := Fetch(f, code, pos, 0);
            Listed(f, code, pos, ins)
            <==> r.Got? && ins[0] == Instr(r.op, r.arg, pos) && Listed(f, code, r.next, ins[1..])
  {
    hide Stands, Prefixed, Fetch;
    FetchReads(f, code, pos);
    var r := Fetch(f, code, pos, 0);
    if Listed(f, code, pos, ins) {
      var n: nat, next: nat :| Stands(f, code, pos, n, ins[0].op, ins[0].arg, next) && Listed(f, code, next, ins[1..]);
      assert Fetch(f, code, pos, 0) == Got(ins[0].op, ins[0].arg, next);
    }
    if r.Got? && ins[0] == Instr(r.op, r.arg, pos) && Listed(f, code, r.next, ins[1..]) {
      var n: nat :| Stands(f, code, pos, n, r.op, r.arg, r.next);
    }
  }

  lemma ParseOnce(f: Format, code: seq<Byte>, pos: nat)
    ensures var r := Fetch(f, code, pos, 0);
            Parse(f, code, pos)
            == if r.End? then Success([]) else if r.Truncated? then Failure(Malformed)
               else Prepend([Instr(r.op, r.arg, pos)], Parse(f, code, r.next))
  {
    hide Fetch;
  }

  // ---------------------------------------------------------------- what the writer leaves

  /** The numbers below this have at most `n` digits. */
  function Limit(f: Format, n: nat): nat {
    if n == 0 then 1 else if f.argSize == 1 then 256 * Limit(f, n - 1) else 65536 * Limit(f, n - 1)
  }

  lemma LimitPositive(f: Format, n: nat)
    ensures Limit(f, n) > 0
  {
  }

  lemma LimitMore(f: Format, n: nat, arg: nat)
    requires f.Valid()
    ensures arg < Limit(f, n + 1) <==> f.Shr(arg) < Limit(f, n)
  {
  }

  /** A written instruction takes as many units as its argument has digits, at least one. */
  lemma {:induction false} EncodedSize(f: Format, op: Byte, arg: nat, n: nat)
    requires f.Valid() && op >= f.haveArgument && n > 0
    ensures |Encode(f, op, arg)| <= Behind(f, 0, n) <==> arg < Limit(f, n)
    decreases n
  {
    hide Limit, Encode, Format.Shr;
    var high := f.Shr(arg);
    LimitMore(f, n - 1, arg);
    EncodeParts(f, op, arg);
    if n > 1 {
      EncodedSize(f, f.extendedArg, high, n - 1);
      LimitPositive(f, n - 1);
    } else {
      OneDigit(f);
    }
  }

  lemma OneDigit(f: Format)
    ensures Limit(f, 0) == 1
  {
  }

  lemma EncodeParts(f: Format, op: Byte, arg: nat)
    requires f.Valid() && op >= f.haveArgument
    ensures |Encode(f, op, arg)|
         == (if f.Shr(arg) == 0 then 0 else |Encode(f, f.extendedArg, f.Shr(arg))|) + Behind(f, 0, 1)
    ensures f.Shr(arg) != 0 ==> |Encode(f, f.extendedArg, f.Shr(arg))| >= Behind(f, 0, 1)
  {
    hide Encode, Format.Shr;
    EncodeLast(f, op, arg);
    EncodeLast(f, f.extendedArg, f.Shr(arg));
  }

  lemma EncodeLast(f: Format, op: Byte, arg: nat)
    requires f.Valid() && op >= f.haveArgument
    ensures |Encode(f, op, arg)|
         == (if f.Shr(arg) == 0 then 0 else |Encode(f, f.extendedArg, f.Shr(arg))|) + Behind(f, 0, 1)
  {
  }

  /** What `_write_instruction` leaves in the buffer, in CPython's reading: the opcode behind as few prefixes as the argument
      needs, and argument bytes that spell the argument. */
  lemma WrittenSpells(f: Format, was: seq<Byte>, now: seq<Byte>, pos: nat, o: Op) returns (n: nat)
    requires f.Valid() && Writable(f, o) && pos + |Encode(f, o.op, o.arg)| <= |was|
    requires now == Splice(was, pos, Encode(f, o.op, o.arg))
    ensures o.op < f.haveArgument ==> now == was[pos := o.op]
    ensures o.op >= f.haveArgument ==>
              && Stands(f, now, pos, n, o.op, Some(o.arg), Behind(f, pos, n + 1)) && (n > 0 ==> o.arg >= Limit(f, n))
              && forall p :: 0 <= p < |was| && !(pos <= p < Behind(f, pos, n + 1)) ==> now[p] == was[p]
  {
    hide Encode, Stands, Limit, Fetch, Splice, At, Prefixed;
    var bytes := Encode(f, o.op, o.arg);
    SpliceRead(was, pos, bytes);
    FetchEncoded(f, now, pos, o);
    FetchReads(f, now, pos);
    if o.op >= f.haveArgument {
      n :| Stands(f, now, pos, n, o.op, Some(o.arg), pos + |bytes|);
      StandsEnds(f, now, pos, n, o.op, Some(o.arg), pos + |bytes|);
      if n > 0 { EncodedSize(f, o.op, o.arg, n); }
    } else {
      n := 0;
      PlainEncoded(f, o.op);
    }
  }

  lemma SpliceRead(was: seq<Byte>, pos: nat, bytes: seq<Byte>)
    requires pos + |bytes| <= |was|
    ensures var now := Splice(was, pos, bytes);
            && At(now, pos, bytes)
            && (forall p :: 0 <= p < |was| && !(pos <= p < pos + |bytes|) ==> now[p] == was[p])
            && (|bytes| == 1 ==> now == was[pos := bytes[0]])
  {
  }

  lemma StandsEnds(f: Format, code: seq<Byte>, pos: nat, n: nat, op: Byte, arg: Option<nat>, next: nat)
    requires op >= f.haveArgument && Stands(f, code, pos, n, op, arg, next)
    ensures next == Behind(f, pos, n + 1)
  {
  }

  lemma PlainEncoded(f: Format, op: Byte)
    requires f.Valid() && op < f.haveArgument
    ensures Encode(f, op, 0) == [op]
  {
  }
}
