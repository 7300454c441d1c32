/** `_inject_nop_sled` and `_patch_code` of GenerateOtx/goto.py, and what they leave in the buffer. */
module GotoPatch {
  import opened Wrappers
  import opened Bytecode
  import opened GotoSites

  // ---------------------------------------------------------------- what is written

  function Repeat(o: Op, n: nat): seq<Op> {
    seq(n, _ => o)
  }

  /** How many NOPs the sled loop writes. */
  function SledLength(f: Format, pos: nat, end: nat): nat {
    if pos >= end then 0 else if f.nop >= f.haveArgument then (end - pos + f.argSize) / (1 + f.argSize) else end - pos
  }

  function Sled(f: Format, pos: nat, end: nat): seq<Op> {
    Repeat(Op(f.nop, 0), SledLength(f, pos, end))
  }

  /** Leave `pops` blocks and jump to byte `target`. */
  function Jump(f: Format, pops: nat, target: nat): seq<Op>
    requires f.jumpUnit > 0
  {
    Repeat(Op(f.popBlock, 0), pops) + [Op(f.jumpAbsolute, target / f.jumpUnit)]
  }

  /** The instructions that replace a goto site, or the error it raises. */
  function Plan(f: Format, found: Found, g: Goto): Result<seq<Op>, Error>
    requires f.jumpUnit > 0
  {
    if g.target !in found.labels then Failure(UnknownLabel)
    else
      var to := found.labels[g.target];
      if !(to.blocks <= g.blocks) then Failure(DifferentBlock)
      else
        var jump := Jump(f, |g.blocks| - |to.blocks|, to.end);
        var stop := g.start + |EncodeAll(f, jump)|;
        if stop > g.end then Failure(TooManyBlocks) else Success(jump + Sled(f, stop, g.end))
  }

  /** The first goto among the first `n` that cannot be patched decides the error. */
  function FirstError(f: Format, found: Found, n: nat): Option<Error>
    requires f.jumpUnit > 0 && n <= |found.gotos|
  {
    if n == 0 then None
    else if FirstError(f, found, n - 1).Some? then FirstError(f, found, n - 1)
    else var plan := Plan(f, found, found.gotos[n - 1]); if plan.Failure? then Some(plan.error) else None
  }

  lemma {:induction false} SledSize(f: Format, n: nat)
    requires f.Valid()
    ensures |EncodeAll(f, Repeat(Op(f.nop, 0), n))| == if f.nop >= f.haveArgument then 2 * n else n
  {
    if n > 0 {
      var all := Repeat(Op(f.nop, 0), n);
      assert all[1..] == Repeat(Op(f.nop, 0), n - 1);
      SledSize(f, n - 1);
    }
  }

  /** `_inject_nop_sled`. */
  method InjectNopSled(f: Format, buf: array<Byte>, start: nat, end: nat) returns (r: Result<(), Error>)
    requires f.Valid() && start <= buf.Length
    modifies buf
    ensures r.Success? <==> start + |EncodeAll(f, Sled(f, start, end))| <= buf.Length
    ensures r.Success? ==> Written(f, old(buf[..]), buf[..], start, Sled(f, start, end))
  {
    hide Encode, EncodeAll, Repeat, Splice, SledLength;
    var pos := start;
    ghost var n, was, o := 0, buf[..], Op(f.nop, 0);
    WrittenNone(f, was, start);
    NoSled(f, start, end);
    while pos < end
      invariant pos == start + |EncodeAll(f, Repeat(o, n))|
      invariant Written(f, was, buf[..], start, Repeat(o, n))
      invariant n <= SledLength(f, start, end)
      invariant pos >= end ==> n == SledLength(f, start, end)
    {
      SledStep(f, start, end, n);
      ghost var now := buf[..];
      pos :- WriteInstruction(f, buf, pos, f.nop, 0);
      WrittenMore(f, was, now, buf[..], start, Repeat(o, n), o);
      n := n + 1;
    }
    return Success(());
  }

  lemma NoSled(f: Format, start: nat, end: nat)
    ensures Repeat(Op(f.nop, 0), 0) == [] && EncodeAll(f, []) == [] && (start >= end ==> SledLength(f, start, end) == 0)
  {
  }

  lemma SledStep(f: Format, start: nat, end: nat, n: nat)
    requires f.Valid() && start + |EncodeAll(f, Repeat(Op(f.nop, 0), n))| < end && n <= SledLength(f, start, end)
    ensures n < SledLength(f, start, end)
    ensures var o := Op(f.nop, 0);
            && Repeat(o, n + 1) == Repeat(o, n) + [o]
            && EncodeAll(f, Repeat(o, n + 1)) == EncodeAll(f, Repeat(o, n)) + Encode(f, f.nop, 0)
            && |EncodeAll(f, Repeat(o, n + 1))| <= |EncodeAll(f, Sled(f, start, end))|
            && (start + |EncodeAll(f, Repeat(o, n + 1))| >= end ==> n + 1 == SledLength(f, start, end))
  {
    SledSize(f, n);
    SledSize(f, n + 1);
    SledSize(f, SledLength(f, start, end));
    RepeatMore(f, Op(f.nop, 0), n);
  }

  lemma RepeatMore(f: Format, o: Op, n: nat)
    ensures Repeat(o, n + 1) == Repeat(o, n) + [o]
    ensures EncodeAll(f, Repeat(o, n + 1)) == EncodeAll(f, Repeat(o, n)) + Encode(f, o.op, o.arg)
  {
    EncodeAllMore(f, Repeat(o, n), o);
  }

  /** The `try` block of `_patch_code`: the POP_BLOCKs and the jump, or the buffer error it turns into a failure. */
  method WriteJump(f: Format, buf: array<Byte>, start: nat, pops: nat, target: nat) returns (r: Result<nat, Error>)
    requires f.Valid() && start <= buf.Length
    modifies buf
    ensures r.Success? <==> start + |EncodeAll(f, Jump(f, pops, target))| <= buf.Length
    ensures r.Success? ==> r.value == start + |EncodeAll(f, Jump(f, pops, target))|
    ensures r.Success? ==> Written(f, old(buf[..]), buf[..], start, Jump(f, pops, target))
  {
    hide Encode, Splice;
    var pos := start;
    ghost var was, now, o := buf[..], buf[..], Op(f.popBlock, 0);
    WrittenNone(f, was, start);
    assert Repeat(o, 0) == [];
    for i := 0 to pops
      invariant pos == start + |EncodeAll(f, Repeat(o, i))|
      invariant Written(f, was, buf[..], start, Repeat(o, i))
    {
      RepeatMore(f, o, i);
      JumpLonger(f, i + 1, pops, target);
      now := buf[..];
      pos :- WriteInstruction(f, buf, pos, f.popBlock, 0);
      WrittenMore(f, was, now, buf[..], start, Repeat(o, i), o);
    }
    ghost var jump := Op(f.jumpAbsolute, target / f.jumpUnit);
    EncodeAllMore(f, Repeat(o, pops), jump);
    now := buf[..];
    pos :- WriteInstruction(f, buf, pos, f.jumpAbsolute, target / f.jumpUnit);
    WrittenMore(f, was, now, buf[..], start, Repeat(o, pops), jump);
    return Success(pos);
  }

  lemma JumpLonger(f: Format, i: nat, pops: nat, target: nat)
    requires f.jumpUnit > 0 && i <= pops
    ensures |EncodeAll(f, Repeat(Op(f.popBlock, 0), i))| <= |EncodeAll(f, Jump(f, pops, target))|
  {
    var o := Op(f.popBlock, 0);
    assert Jump(f, pops, target) == Repeat(o, i) + Jump(f, pops, target)[i..];
    EncodeAllJoin(f, Repeat(o, i), Jump(f, pops, target)[i..]);
  }

  // ---------------------------------------------------------------- sites of one code object

  /** A code object together with what the parser and the finder return for it. */
  datatype Listing = Listing(f: Format, names: seq<string>, code: seq<Byte>, ins: seq<Instr>, found: Found) {

    ghost predicate Valid() {
      && f.Valid() && f.DistinctOpcodes()
      && Parse(f, code, 0) == Success(ins)
      && Scan(f, names, ins, Scanned(ins)) == Success(found)
    }

    /** A label site that the dictionary still points to: no later site has the same name. */
    predicate LiveLabel(i: nat) {
      IsLabel(f, names, ins, i) && Key(ins, i) in found.labels && found.labels[Key(ins, i)].start == ins[i].offset
    }

    predicate Live(i: nat) {
      LiveLabel(i) || IsGoto(f, names, ins, i)
    }

    predicate Inside(i: nat, p: nat) {
      i + 3 < |ins| && ins[i].offset <= p < ins[i + 3].offset
    }

    /** The instructions that replace a live site. */
    function Replacement(i: nat): seq<Op>
      requires f.jumpUnit > 0 && i + 3 < |ins|
    {
      if LiveLabel(i) then Sled(f, ins[i].offset, ins[i + 3].offset)
      else Plan(f, found, GotoOf(f, ins, i)).GetOr([])
    }

    /** `buf` is the code with the sites in `done` overwritten and nothing else changed. */
    ghost predicate PatchedAt(done: set<nat>, buf: seq<Byte>)
      requires f.jumpUnit > 0
    {
      && |buf| == |code|
      && (forall i :: i in done ==> Live(i) && At(buf, ins[i].offset, EncodeAll(f, Replacement(i))))
      && (forall p :: 0 <= p < |code| && (forall i :: i in done ==> !Inside(i, p)) ==> buf[p] == code[p])
    }

    ghost predicate Patched(buf: seq<Byte>)
      requires f.jumpUnit > 0
    {
      && |buf| == |code|
      && (forall i: nat :: Live(i) ==> At(buf, ins[i].offset, EncodeAll(f, Replacement(i))))
      && (forall p: nat :: p < |code| && (forall i: nat :: Live(i) ==> !Inside(i, p)) ==> buf[p] == code[p])
    }

    lemma {:induction false} ParseAt(i: nat)
      requires Valid() && i < |ins|
      ensures Parse(f, code, ins[i].offset) == Success(ins[i..])
      ensures i == 0 ==> ins[i].offset == 0
    {
      if i > 0 {
        ParseAt(i - 1);
        ParseHead(f, code, ins[i - 1].offset, ins[i - 1..]);
        var next := Fetch(f, code, ins[i - 1].offset, 0).next;
        assert ins[i - 1..][1..] == ins[i..];
        ParseHead(f, code, next, ins[i..]);
      } else {
        ParseHead(f, code, 0, ins);
        assert ins[0..] == ins;
      }
    }

    /** Instruction `i` is fetched at its offset and reaches up to the next one. */
    lemma FetchAt(i: nat)
      requires Valid() && i < |ins|
      ensures var g := Fetch(f, code, ins[i].offset, 0);
              && g.Got? && g.op == ins[i].op && g.arg == ins[i].arg && ins[i].offset < g.next <= |code|
              && (i + 1 < |ins| ==> g.next == ins[i + 1].offset)
              && (i + 1 == |ins| ==> Parse(f, code, g.next) == Success([]))
    {
      ParseAt(i);
      ParseHead(f, code, ins[i].offset, ins[i..]);
      var next := Fetch(f, code, ins[i].offset, 0).next;
      assert ins[i..][1..] == ins[i + 1..];
      if i + 1 < |ins| {
        ParseHead(f, code, next, ins[i + 1..]);
      }
    }

    lemma {:induction false} Increasing(i: nat, j: nat)
      requires Valid() && i < j < |ins|
      ensures ins[i].offset < ins[j].offset < |code|
      decreases j
    {
      FetchAt(j - 1);
      FetchAt(j);
      if i < j - 1 {
        Increasing(i, j - 1);
      }
    }

    lemma {:induction false} Aligned(i: nat, j: nat)
      requires Valid() && f.haveArgument == 0 && i <= j < |ins|
      ensures (ins[j].offset - ins[i].offset) % 2 == 0
      decreases j
    {
      if i < j {
        Aligned(i, j - 1);
        FetchAt(j - 1);
        FetchAligned(f, code, ins[j - 1].offset, 0);
      }
    }

    /** Sites do not overlap, because no site starts with the LOAD_ATTR or POP_TOP of another. */
    lemma Disjoint(i: nat, j: nat, p: nat)
      requires Valid() && IsSite(f, ins, i) && IsSite(f, ins, j) && i != j
      ensures !(Inside(i, p) && Inside(j, p))
    {
      var lo, hi := if i < j then i else j, if i < j then j else i;
      assert lo + 3 <= hi;
      if lo + 3 < hi { Increasing(lo + 3, hi); }
    }
  }

  // ---------------------------------------------------------------- the dictionary and the list hold exactly the sites

  function ScanOf(s: Listing, n: nat): Found
    requires s.Valid() && n <= Scanned(s.ins)
  {
    Scan(s.f, s.names, s.ins, n).GetOr(Found(map[], []))
  }

  lemma {:induction false} ScanSucceeds(s: Listing, n: nat)
    requires s.Valid() && n <= Scanned(s.ins)
    ensures Scan(s.f, s.names, s.ins, n) == Success(ScanOf(s, n))
    ensures n == Scanned(s.ins) ==> ScanOf(s, n) == s.found
  {
    if Scan(s.f, s.names, s.ins, n).Failure? {
      ScanFails(s.f, s.names, s.ins, n, Scanned(s.ins));
    }
  }

  /** Every dictionary entry comes from a label site. */
  lemma {:induction false} LabelSite(s: Listing, n: nat, key: nat) returns (i: nat)
    requires s.Valid() && n <= Scanned(s.ins) && key in ScanOf(s, n).labels
    ensures IsLabel(s.f, s.names, s.ins, i) && Key(s.ins, i) == key && i < n
    ensures ScanOf(s, n).labels[key] == LabelOf(s.f, s.ins, i)
  {
    ScanSucceeds(s, n);
    ScanSucceeds(s, n - 1);
    if IsLabel(s.f, s.names, s.ins, n - 1) && Key(s.ins, n - 1) == key {
      i := n - 1;
    } else {
      i := LabelSite(s, n - 1, key);
    }
  }

  /** Every label site has an entry under its name, its own or that of a later site. */
  lemma {:induction false} LabelListed(s: Listing, n: nat, i: nat)
    requires s.Valid() && i < n <= Scanned(s.ins) && IsLabel(s.f, s.names, s.ins, i)
    ensures Key(s.ins, i) in ScanOf(s, n).labels
  {
    ScanSucceeds(s, n);
    ScanSucceeds(s, n - 1);
    if i < n - 1 {
      LabelListed(s, n - 1, i);
    }
  }

  lemma {:induction false} GotoSite(s: Listing, n: nat, k: nat) returns (i: nat)
    requires s.Valid() && n <= Scanned(s.ins) && k < |ScanOf(s, n).gotos|
    ensures IsGoto(s.f, s.names, s.ins, i) && ScanOf(s, n).gotos[k] == GotoOf(s.f, s.ins, i)
  {
    ScanSucceeds(s, n);
    ScanSucceeds(s, n - 1);
    if IsGoto(s.f, s.names, s.ins, n - 1) && k == |ScanOf(s, n).gotos| - 1 {
      i := n - 1;
    } else {
      i := GotoSite(s, n - 1, k);
    }
  }

  lemma {:induction false} GotoListed(s: Listing, n: nat, i: nat) returns (k: nat)
    requires s.Valid() && i < n <= Scanned(s.ins) && IsGoto(s.f, s.names, s.ins, i)
    ensures k < |ScanOf(s, n).gotos| && ScanOf(s, n).gotos[k] == GotoOf(s.f, s.ins, i)
  {
    ScanSucceeds(s, n);
    ScanSucceeds(s, n - 1);
    if i < n - 1 {
      k := GotoListed(s, n - 1, i);
    } else {
      k := |ScanOf(s, n).gotos| - 1;
    }
  }

  lemma {:induction false} NoErrorBefore(s: Listing, n: nat, k: nat)
    requires s.Valid() && k < n <= |s.found.gotos| && FirstError(s.f, s.found, n) == None
    ensures Plan(s.f, s.found, s.found.gotos[k]).Success?
  {
    if k < n - 1 {
      NoErrorBefore(s, n - 1, k);
    }
  }

  lemma PlanSucceeds(s: Listing, i: nat)
    requires s.Valid() && IsGoto(s.f, s.names, s.ins, i) && FirstError(s.f, s.found, |s.found.gotos|) == None
    ensures Plan(s.f, s.found, GotoOf(s.f, s.ins, i)).Success?
  {
    ScanSucceeds(s, Scanned(s.ins));
    var k := GotoListed(s, Scanned(s.ins), i);
    NoErrorBefore(s, |s.found.gotos|, k);
  }

  // ---------------------------------------------------------------- sizes: sleds end exactly at the end of their site

  lemma SledFills(f: Format, pos: nat, end: nat)
    requires f.Valid() && pos <= end && (f.haveArgument == 0 ==> (end - pos) % 2 == 0)
    ensures |EncodeAll(f, Sled(f, pos, end))| == end - pos
  {
    SledSize(f, SledLength(f, pos, end));
  }

  lemma {:induction false} EncodeAllAligned(f: Format, ops: seq<Op>)
    requires f.Valid() && f.haveArgument == 0
    ensures |EncodeAll(f, ops)| % 2 == 0
    decreases |ops|
  {
    if ops != [] {
      EncodeAligned(f, ops[0].op, ops[0].arg);
      EncodeAllAligned(f, ops[1..]);
    }
  }

  lemma SiteAligned(s: Listing, i: nat)
    requires s.Valid() && IsSite(s.f, s.ins, i)
    ensures s.ins[i].offset < s.ins[i + 3].offset <= |s.code|
    ensures s.f.haveArgument == 0 ==> (s.ins[i + 3].offset - s.ins[i].offset) % 2 == 0
  {
    s.Increasing(i, i + 3);
    if s.f.haveArgument == 0 {
      s.Aligned(i, i + 3);
    }
  }

  /** A goto that fits leaves a gap that NOPs fill exactly. */
  lemma PlanFills(s: Listing, i: nat)
    requires s.Valid() && IsSite(s.f, s.ins, i) && Plan(s.f, s.found, GotoOf(s.f, s.ins, i)).Success?
    ensures |EncodeAll(s.f, Plan(s.f, s.found, GotoOf(s.f, s.ins, i)).value)| == s.ins[i + 3].offset - s.ins[i].offset
  {
    hide EncodeAll, SledLength;
    var g := GotoOf(s.f, s.ins, i);
    var to := s.found.labels[g.target];
    var jump := Jump(s.f, |g.blocks| - |to.blocks|, to.end);
    var stop := g.start + |EncodeAll(s.f, jump)|;
    SiteAligned(s, i);
    if s.f.haveArgument == 0 {
      EncodeAllAligned(s.f, jump);
    }
    SledFills(s.f, stop, g.end);
    EncodeAllJoin(s.f, jump, Sled(s.f, stop, g.end));
  }

  lemma ReplacementFills(s: Listing, i: nat)
    requires s.Valid() && s.Live(i)
    requires IsGoto(s.f, s.names, s.ins, i) ==> Plan(s.f, s.found, GotoOf(s.f, s.ins, i)).Success?
    ensures |EncodeAll(s.f, s.Replacement(i))| == s.ins[i + 3].offset - s.ins[i].offset
  {
    if s.LiveLabel(i) {
      SiteAligned(s, i);
      SledFills(s.f, s.ins[i].offset, s.ins[i + 3].offset);
    } else {
      PlanFills(s, i);
    }
  }

  // ---------------------------------------------------------------- the patcher

  lemma WrittenAt(f: Format, was: seq<Byte>, now: seq<Byte>, start: nat, ops: seq<Op>)
    requires Written(f, was, now, start, ops)
    ensures |now| == |was| && At(now, start, EncodeAll(f, ops))
    ensures forall p :: 0 <= p < |was| && !(start <= p < start + |EncodeAll(f, ops)|) ==> now[p] == was[p]
  {
  }

  lemma AtKept(was: seq<Byte>, now: seq<Byte>, pos: nat, bytes: seq<Byte>)
    requires At(was, pos, bytes) && |now| == |was|
    requires forall p :: pos <= p < pos + |bytes| ==> now[p] == was[p]
    ensures At(now, pos, bytes)
  {
    assert now[pos..pos + |bytes|] == was[pos..pos + |bytes|];
  }

  ghost predicate Fills(s: Listing, i: nat)
    requires s.f.jumpUnit > 0
  {
    s.Live(i) && |EncodeAll(s.f, s.Replacement(i))| == s.ins[i + 3].offset - s.ins[i].offset
  }

  /** Overwriting one live site keeps another. */
  lemma PatchKeeps(s: Listing, i: nat, j: nat, was: seq<Byte>, now: seq<Byte>)
    requires s.Valid() && Fills(s, i) && Fills(s, j) && i != j
    requires |now| == |was| && At(was, s.ins[j].offset, EncodeAll(s.f, s.Replacement(j)))
    requires forall p :: 0 <= p < |was| && !s.Inside(i, p) ==> now[p] == was[p]
    ensures At(now, s.ins[j].offset, EncodeAll(s.f, s.Replacement(j)))
  {
    var at, bytes := s.ins[j].offset, EncodeAll(s.f, s.Replacement(j));
    forall p | at <= p < at + |bytes| ensures now[p] == was[p] {
      s.Disjoint(i, j, p);
    }
    AtKept(was, now, at, bytes);
  }

  /** Overwriting one more live site keeps the others. */
  lemma PatchOne(s: Listing, done: set<nat>, i: nat, was: seq<Byte>, now: seq<Byte>)
    requires s.Valid() && s.PatchedAt(done, was) && Fills(s, i) && forall j :: j in done ==> Fills(s, j)
    requires Written(s.f, was, now, s.ins[i].offset, s.Replacement(i))
    ensures s.PatchedAt(done + {i}, now)
  {
    WrittenAt(s.f, was, now, s.ins[i].offset, s.Replacement(i));
    forall j | j in done + {i} ensures s.Live(j) && At(now, s.ins[j].offset, EncodeAll(s.f, s.Replacement(j))) {
      if j != i {
        PatchKeeps(s, i, j, was, now);
      }
    }
    forall p | 0 <= p < |s.code| && (forall j :: j in done + {i} ==> !s.Inside(j, p)) ensures now[p] == s.code[p] {
      assert i in done + {i};
      assert forall j :: j in done ==> j in done + {i};
    }
  }

  /** What `_patch_code` returns or raises. */
  ghost predicate Outcome(f: Format, names: seq<string>, code: seq<Byte>, r: Result<seq<Byte>, Error>)
    requires f.jumpUnit > 0
  {
    match Find(f, names, code)
    case Failure(e) => r == Failure(e)
    case Success(found) =>
      match FirstError(f, found, |found.gotos|)
      case Some(e) => r == Failure(e)
      case None => r.Success? && Listing(f, names, code, Parse(f, code, 0).GetOr([]), found).Patched(r.value)
  }

  lemma LabelFills(s: Listing, key: nat) returns (i: nat)
    requires s.Valid() && key in s.found.labels
    ensures s.LiveLabel(i) && Key(s.ins, i) == key && s.found.labels[key] == LabelOf(s.f, s.ins, i)
    ensures Fills(s, i) && s.Replacement(i) == Sled(s.f, s.ins[i].offset, s.ins[i + 3].offset)
    ensures s.ins[i].offset < s.ins[i + 3].offset <= |s.code|
    ensures forall j: nat :: s.LiveLabel(j) && Key(s.ins, j) == key ==> j == i
  {
    ScanSucceeds(s, Scanned(s.ins));
    i := LabelSite(s, Scanned(s.ins), key);
    ReplacementFills(s, i);
    SiteAligned(s, i);
    forall j: nat | s.LiveLabel(j) && Key(s.ins, j) == key ensures j == i {
      if i < j { s.Increasing(i, j); } else if j < i { s.Increasing(j, i); }
    }
  }

  lemma GotoFills(s: Listing, k: nat) returns (i: nat)
    requires s.Valid() && k < |s.found.gotos|
    ensures IsGotoOf(s, k, i) && s.Replacement(i) == Plan(s.f, s.found, s.found.gotos[k]).GetOr([])
    ensures s.ins[i].offset < s.ins[i + 3].offset <= |s.code|
    ensures s.f.haveArgument == 0 ==> (s.ins[i + 3].offset - s.ins[i].offset) % 2 == 0
    ensures Plan(s.f, s.found, s.found.gotos[k]).Success? ==> Fills(s, i)
    ensures forall j: nat :: IsGotoOf(s, k, j) ==> j == i
  {
    ScanSucceeds(s, Scanned(s.ins));
    i := GotoSite(s, Scanned(s.ins), k);
    SiteAligned(s, i);
    if Plan(s.f, s.found, s.found.gotos[k]).Success? {
      ReplacementFills(s, i);
    }
    forall j: nat | IsGotoOf(s, k, j) ensures j == i {
      if i < j { s.Increasing(i, j); } else if j < i { s.Increasing(j, i); }
    }
  }

  /** The loop over `labels.values()`; any order of the dictionary gives the same buffer. */
  method PatchLabels(ghost s: Listing, f: Format, labels: map<nat, Label>, buf: array<Byte>) returns (ghost done: set<nat>)
    requires s.Valid() && s.f == f && s.found.labels == labels && buf[..] == s.code
    modifies buf
    ensures s.PatchedAt(done, buf[..]) && forall j :: j in done ==> Fills(s, j)
    ensures forall j: nat :: s.LiveLabel(j) <==> j in done
  {
    hide Parse, Scan, Fills;
    done := {};
    var todo := labels.Keys;
    while todo != {}
      invariant todo <= labels.Keys
      invariant s.PatchedAt(done, buf[..]) && forall j :: j in done ==> Fills(s, j)
      invariant forall j: nat :: s.LiveLabel(j) && Key(s.ins, j) !in todo ==> j in done
      invariant forall j :: j in done ==> s.LiveLabel(j)
    {
      var key :| key in todo;
      ghost var i := LabelFills(s, key);
      ghost var was := buf[..];
      var sled := InjectNopSled(f, buf, labels[key].start, labels[key].end);
      PatchOne(s, done, i, was, buf[..]);
      done, todo := done + {i}, todo - {key};
    }
  }

  /** The loop over `gotos`, stopping at the first that raises. */
  method PatchGotos(ghost s: Listing, f: Format, found: Found, buf: array<Byte>, ghost labels: set<nat>)
    returns (e: Option<Error>)
    requires s.Valid() && s.f == f && s.found == found
    requires s.PatchedAt(labels, buf[..]) && forall j :: j in labels ==> Fills(s, j)
    requires forall j: nat :: s.LiveLabel(j) ==> j in labels
    modifies buf
    ensures e == FirstError(f, found, |found.gotos|)
    ensures e == None ==> s.Patched(buf[..])
  {
    hide Plan, Parse, Scan, Fills, IsGotoOf;
    ghost var done := labels;
    for k := 0 to |found.gotos|
      invariant FirstError(f, found, k) == None
      invariant s.PatchedAt(done, buf[..]) && forall j :: j in done ==> Fills(s, j)
      invariant labels <= done && GotosDone(s, k, done)
    {
      e, done := PatchGoto(s, f, found, k, buf, done);
      if e.Some? {
        ErrorStays(f, found, k + 1, |found.gotos|);
        return;
      }
    }
    AllPatched(s, done, buf[..]);
    return None;
  }

  /** `_patch_code` on a code string; rebuilding the code object around the bytes is not part of this model. */
  method PatchCode(f: Format, names: seq<string>, code: seq<Byte>) returns (r: Result<seq<Byte>, Error>)
    requires f.Valid() && f.DistinctOpcodes()
    ensures Outcome(f, names, code, r)
  {
    var found :- FindLabelsAndGotos(f, names, code);
    ghost var s := Listing(f, names, code, Parse(f, code, 0).value, found);
    var buf := new Byte[|code|](i requires 0 <= i < |code| => code[i]);
    assert buf[..] == code;
    ghost var done := PatchLabels(s, f, found.labels, buf);
    var e := PatchGotos(s, f, found, buf, done);
    if e.Some? {
      return Failure(e.value);
    }
    return Success(buf[..]);
  }

  /** One round of the loop over `gotos`. */
  method PatchGoto(ghost s: Listing, f: Format, found: Found, k: nat, buf: array<Byte>, ghost done: set<nat>)
    returns (e: Option<Error>, ghost done': set<nat>)
    requires s.Valid() && s.f == f && s.found == found && k < |found.gotos|
    requires s.PatchedAt(done, buf[..]) && (forall j :: j in done ==> Fills(s, j)) && GotosDone(s, k, done)
    modifies buf
    ensures var plan := Plan(f, found, found.gotos[k]); e == if plan.Success? then None else Some(plan.error)
    ensures e == None ==> s.PatchedAt(done', buf[..]) && forall j :: j in done' ==> Fills(s, j)
    ensures e == None ==> done <= done' && GotosDone(s, k + 1, done')
  {
    ghost var i := GotoFills(s, k);
    ghost var was := buf[..];
    e := OverwriteGoto(f, found, found.gotos[k], buf);
    done' := done + {i};
    if e == None {
      PatchOne(s, done, i, was, buf[..]);
      GotosDoneMore(s, k, done, i);
    }
  }

  /** The body of the loop over `gotos`. */
  method OverwriteGoto(f: Format, found: Found, g: Goto, buf: array<Byte>) returns (e: Option<Error>)
    requires f.Valid() && g.start <= g.end <= buf.Length
    requires f.haveArgument == 0 ==> (g.end - g.start) % 2 == 0
    modifies buf
    ensures var plan := Plan(f, found, g); e == if plan.Success? then None else Some(plan.error)
    ensures e == None ==> Written(f, old(buf[..]), buf[..], g.start, Plan(f, found, g).value)
  {
    hide Written, EncodeAll, SledLength;
    if g.target !in found.labels {
      return Some(UnknownLabel);
    }
    var to := found.labels[g.target];
    if !(to.blocks <= g.blocks) {
      return Some(DifferentBlock);
    }
    ghost var was := buf[..];
    var pops := |g.blocks| - |to.blocks|;
    ghost var jump := Jump(f, pops, to.end);
    var pos := WriteJump(f, buf, g.start, pops, to.end);
    if pos.Failure? || pos.value > g.end {
      return Some(TooManyBlocks);
    }
    ghost var now := buf[..];
    GapFills(f, g, jump);
    var sled := InjectNopSled(f, buf, pos.value, g.end);
    WrittenJoin(f, was, now, buf[..], g.start, jump, Sled(f, pos.value, g.end));
    return None;
  }

  lemma GapFills(f: Format, g: Goto, jump: seq<Op>)
    requires f.Valid() && g.start + |EncodeAll(f, jump)| <= g.end
    requires f.haveArgument == 0 ==> (g.end - g.start) % 2 == 0
    ensures var stop := g.start + |EncodeAll(f, jump)|;
            stop + |EncodeAll(f, Sled(f, stop, g.end))| == g.end
  {
    hide EncodeAll, Encode, Sled;
    if f.haveArgument == 0 { EncodeAllAligned(f, jump); }
    SledFills(f, g.start + |EncodeAll(f, jump)|, g.end);
  }

  lemma WrittenJoin(f: Format, was: seq<Byte>, now: seq<Byte>, next: seq<Byte>, start: nat, a: seq<Op>, b: seq<Op>)
    requires Written(f, was, now, start, a) && Written(f, now, next, start + |EncodeAll(f, a)|, b)
    ensures Written(f, was, next, start, a + b)
  {
    EncodeAllJoin(f, a, b);
    SpliceTwice(was, start, EncodeAll(f, a), EncodeAll(f, b));
  }

  lemma {:induction false} ErrorStays(f: Format, found: Found, k: nat, n: nat)
    requires f.jumpUnit > 0 && k <= n <= |found.gotos| && FirstError(f, found, k).Some?
    ensures FirstError(f, found, n) == FirstError(f, found, k)
  {
    if k < n { ErrorStays(f, found, k, n - 1); }
  }

  /** The sites of the first `k` gotos are among those overwritten. */
  ghost predicate GotosDone(s: Listing, k: nat, done: set<nat>) {
    forall m: nat, j: nat :: m < k && IsGotoOf(s, m, j) ==> j in done
  }

  /** Entry `m` of the goto list was made at instruction `j`. */
  ghost predicate IsGotoOf(s: Listing, m: nat, j: nat) {
    m < |s.found.gotos| && IsGoto(s.f, s.names, s.ins, j) && s.found.gotos[m] == GotoOf(s.f, s.ins, j)
  }

  lemma GotosDoneMore(s: Listing, k: nat, done: set<nat>, i: nat)
    requires GotosDone(s, k, done) && forall j: nat :: IsGotoOf(s, k, j) ==> j == i
    ensures GotosDone(s, k + 1, done + {i})
  {
    forall m: nat, j: nat | m < k + 1 && IsGotoOf(s, m, j) ensures j in done + {i} {
      if m < k { assert j in done; }
    }
  }

  lemma AllPatched(s: Listing, done: set<nat>, buf: seq<Byte>)
    requires s.Valid() && s.PatchedAt(done, buf)
    requires forall j: nat :: s.LiveLabel(j) ==> j in done
    requires GotosDone(s, |s.found.gotos|, done)
    ensures s.Patched(buf)
  {
    forall j: nat | s.Live(j) ensures j in done {
      if !s.LiveLabel(j) {
        ScanSucceeds(s, Scanned(s.ins));
        var k := GotoListed(s, Scanned(s.ins), j);
        assert IsGotoOf(s, k, j);
      }
    }
  }

  lemma ParseHead(f: Format, code: seq<Byte>, pos: nat, rest: seq<Instr>)
    requires Parse(f, code, pos) == Success(rest) && rest != []
    ensures var g := Fetch(f, code, pos, 0);
            g.Got? && rest[0] == Instr(g.op, g.arg, pos) && Parse(f, code, g.next) == Success(rest[1..])
  {
    var g := Fetch(f, code, pos, 0);
    if g.Got? {
      var tail := Parse(f, code, g.next);
      assert tail.Success? && rest == [Instr(g.op, g.arg, pos)] + tail.value;
    }
  }
}
