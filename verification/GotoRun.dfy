/** Running the patched bytes does what the source means by `label .x` and `goto .x`.

    The machine is CPython's loop reduced to what the patcher relies on: it fetches at a byte offset, NOP and JUMP_ABSOLUTE
    move the program counter, and POP_BLOCK leaves the innermost block with an arbitrary effect `pop` on the data, since it
    may also cut the value stack. Every other instruction is an arbitrary function of the operation, the operand, the
    offset behind it and the whole configuration. */
module GotoRun {
  import opened Wrappers
  import opened Bytecode
  import opened GotoSites
  import opened GotoPatch
  import opened GotoRewrite

  datatype Config<D> = Config(pc: nat, blocks: seq<nat>, data: D)

  datatype Semantics<!D> = Semantics(other: (Byte, Option<nat>, nat, Config<D>) -> Config<D>, pop: (seq<nat>, D) -> D)

  /** The configuration with the innermost block left. */
  function LeaveBlock<D>(sem: Semantics<D>, c: Config<D>): Config<D> {
    if c.blocks == [] then c
    else c.(blocks := c.blocks[..|c.blocks| - 1], data := sem.pop(c.blocks, c.data))
  }

  function Step<D>(f: Format, sem: Semantics<D>, code: seq<Byte>, c: Config<D>): Config<D> {
    match Fetch(f, code, c.pc, 0)
    case Got(op, arg, next) =>
      if op == f.nop then c.(pc := next)
      else if op == f.popBlock then
        if c.blocks == [] then c else LeaveBlock(sem, c).(pc := next)
      else if op == f.jumpAbsolute then c.(pc := arg.GetOr(0) * f.jumpUnit)
      else sem.other(op, arg, next, c)
    case _ => c
  }

  function Run<D>(f: Format, sem: Semantics<D>, code: seq<Byte>, n: nat, c: Config<D>): Config<D> {
    if n == 0 then c else Step(f, sem, code, Run(f, sem, code, n - 1, c))
  }

  // ---------------------------------------------------------------- the intended meaning

  ghost predicate StartsSite(s: Listing, i: nat, pc: nat) {
    s.Live(i) && s.ins[i].offset == pc
  }

  function TargetOf(s: Listing, i: nat): Label
    requires i + 3 < |s.ins|
  {
    var key := Key(s.ins, i);
    if key in s.found.labels then s.found.labels[key] else Label(0, 0, [])
  }

  /** `n` blocks left, the innermost first. */
  function Unwind<D>(sem: Semantics<D>, n: nat, c: Config<D>): (r: Config<D>)
    ensures r.pc == c.pc && (n <= |c.blocks| ==> r.blocks == c.blocks[..|c.blocks| - n])
  {
    if n == 0 then c else LeaveBlock(sem, Unwind(sem, n - 1, c))
  }

  /** One step of the original code with a label read as a no-op and a goto as "unwind to the blocks open at the label and
      continue behind it". */
  ghost function Intended<D>(s: Listing, sem: Semantics<D>, c: Config<D>): Config<D> {
    if exists i: nat :: StartsSite(s, i, c.pc) then
      var i: nat :| StartsSite(s, i, c.pc);
      if s.LiveLabel(i) then c.(pc := s.ins[i + 3].offset)
      else
        var to := TargetOf(s, i);
        Unwind(sem, if |to.blocks| <= |c.blocks| then |c.blocks| - |to.blocks| else 0, c).(pc := to.end)
    else Step(s.f, sem, s.code, c)
  }

  ghost function IntendedRun<D>(s: Listing, sem: Semantics<D>, n: nat, c: Config<D>): Config<D> {
    if n == 0 then c else Intended(s, sem, IntendedRun(s, sem, n - 1, c))
  }

  /** Fetching at `pc` looks at no byte of a live site: `pc` is not inside one, and the instruction there, wherever it
      starts, does not reach into one. */
  ghost predicate Clear(s: Listing, pc: nat) {
    var fetched := Fetch(s.f, s.code, pc, 0);
    forall j: nat, p: nat ::
      s.Live(j) && pc <= p < (if fetched.Got? then fetched.next else |s.code|) ==> !s.Inside(j, p)
  }

  /** Control is at the start of a live site or clear of all of them, and at a goto the interpreter's block stack is as deep
      as the finder's. */
  ghost predicate Regular<D>(s: Listing, c: Config<D>) {
    && ((exists i: nat :: StartsSite(s, i, c.pc)) || Clear(s, c.pc))
    && forall i: nat :: StartsSite(s, i, c.pc) && IsGoto(s.f, s.names, s.ins, i)
                        ==> |c.blocks| == |GotoOf(s.f, s.ins, i).blocks|
  }

  /** At the instructions of the original that belong to no live site, and behind the code, control is clear. */
  lemma InstructionIsClear(s: Listing, i: nat)
    requires s.Valid()
    ensures i < |s.ins| && !s.Live(i) && Reachable(s, i) ==> Clear(s, s.ins[i].offset)
    ensures i >= |s.code| ==> Clear(s, i)
  {
    hide Fetch, Parse, Scan, Listing.Live;
    if i < |s.ins| && !s.Live(i) && Reachable(s, i) {
      s.FetchAt(i);
      var next := Fetch(s.f, s.code, s.ins[i].offset, 0).next;
      forall j: nat, p: nat | s.Live(j) && s.ins[i].offset <= p < next ensures !s.Inside(j, p) {
        LiveIsSite(s, j);
        assert j != i && j != i - 1 && j != i - 2;
        OutsideSite(s, i, j, p);
      }
    }
    if i >= |s.code| {
      PastEnd(s.f, s.code, i);
    }
  }

  lemma LiveIsSite(s: Listing, j: nat)
    requires s.Live(j)
    ensures j + 3 < |s.ins|
  {
  }

  lemma PastEnd(f: Format, code: seq<Byte>, pc: nat)
    requires pc >= |code|
    ensures !Fetch(f, code, pc, 0).Got?
  {
  }

  // ---------------------------------------------------------------- running replacements

  lemma {:induction false} RunMore<D>(f: Format, sem: Semantics<D>, code: seq<Byte>, a: nat, b: nat, c: Config<D>)
    ensures Run(f, sem, code, a + b, c) == Run(f, sem, code, b, Run(f, sem, code, a, c))
    decreases b
  {
    if b > 0 {
      RunMore(f, sem, code, a, b - 1, c);
      assert a + b - 1 == a + (b - 1);
    }
  }

  /** A run of `n` NOPs takes `n` steps and only moves the program counter. */
  lemma {:induction false} RunNops<D>(f: Format, sem: Semantics<D>, code: seq<Byte>, n: nat, c: Config<D>)
    requires f.Valid() && f.DistinctOpcodes() && At(code, c.pc, EncodeAll(f, Repeat(Op(f.nop, 0), n)))
    ensures Run(f, sem, code, n, c) == c.(pc := c.pc + |EncodeAll(f, Repeat(Op(f.nop, 0), n))|)
    decreases n
  {
    hide Encode, EncodeAll, Step, At;
    var o := Op(f.nop, 0);
    if n > 0 {
      RepeatMore(f, o, n - 1);
      var bytes := EncodeAll(f, Repeat(o, n - 1));
      AtSplit(code, c.pc, bytes, Encode(f, f.nop, 0));
      RunNops(f, sem, code, n - 1, c);
      NopStep(f, sem, code, Run(f, sem, code, n - 1, c));
    } else {
      RepeatNone(f, o);
    }
  }

  lemma RepeatNone(f: Format, o: Op)
    ensures Repeat(o, 0) == [] && EncodeAll(f, Repeat(o, 0)) == []
  {
  }

  lemma NopStep<D>(f: Format, sem: Semantics<D>, code: seq<Byte>, c: Config<D>)
    requires f.Valid() && f.DistinctOpcodes() && At(code, c.pc, Encode(f, f.nop, 0))
    ensures Step(f, sem, code, c) == c.(pc := c.pc + |Encode(f, f.nop, 0)|)
  {
    hide Encode, At, Fetch;
    FetchEncoded(f, code, c.pc, Op(f.nop, 0));
  }

  /** A run of `n` POP_BLOCKs leaves the innermost `n` blocks. */
  lemma {:induction false} RunPops<D>(f: Format, sem: Semantics<D>, code: seq<Byte>, n: nat, c: Config<D>)
    requires f.Valid() && f.DistinctOpcodes() && At(code, c.pc, EncodeAll(f, Repeat(Op(f.popBlock, 0), n)))
    requires n <= |c.blocks|
    ensures Run(f, sem, code, n, c)
         == Unwind(sem, n, c).(pc := c.pc + |EncodeAll(f, Repeat(Op(f.popBlock, 0), n))|)
    decreases n
  {
    hide Encode, EncodeAll, Step, At;
    RepeatNone(f, Op(f.popBlock, 0));
    if n > 0 {
      var o := Op(f.popBlock, 0);
      RepeatMore(f, o, n - 1);
      var bytes := EncodeAll(f, Repeat(o, n - 1));
      AtSplit(code, c.pc, bytes, Encode(f, f.popBlock, 0));
      RunPops(f, sem, code, n - 1, c);
      PopStep(f, sem, code, Run(f, sem, code, n - 1, c));
    }
  }

  lemma PopStep<D>(f: Format, sem: Semantics<D>, code: seq<Byte>, c: Config<D>)
    requires f.Valid() && f.DistinctOpcodes() && At(code, c.pc, Encode(f, f.popBlock, 0)) && c.blocks != []
    ensures Step(f, sem, code, c)
         == LeaveBlock(sem, c).(pc := c.pc + |Encode(f, f.popBlock, 0)|)
  {
    hide Encode, At, Fetch, LeaveBlock;
    FetchEncoded(f, code, c.pc, Op(f.popBlock, 0));
  }

  lemma RepeatPrefix(f: Format, code: seq<Byte>, pos: nat, o: Op, m: nat, n: nat)
    requires m <= n && At(code, pos, EncodeAll(f, Repeat(o, n)))
    ensures At(code, pos, EncodeAll(f, Repeat(o, m)))
  {
    assert Repeat(o, n) == Repeat(o, m) + Repeat(o, n - m);
    EncodeAllJoin(f, Repeat(o, m), Repeat(o, n - m));
    AtSplit(code, pos, EncodeAll(f, Repeat(o, m)), EncodeAll(f, Repeat(o, n - m)));
  }

  lemma RunJump<D>(f: Format, sem: Semantics<D>, code: seq<Byte>, pops: nat, target: nat, c: Config<D>)
    requires f.Valid() && f.DistinctOpcodes() && At(code, c.pc, EncodeAll(f, Jump(f, pops, target)))
    requires pops <= |c.blocks| && target % f.jumpUnit == 0
    ensures Run(f, sem, code, pops + 1, c) == Unwind(sem, pops, c).(pc := target)
  {
    hide Encode, EncodeAll, At, Step, Unwind;
    var o, jump := Op(f.popBlock, 0), Op(f.jumpAbsolute, target / f.jumpUnit);
    var bytes := EncodeAll(f, Repeat(o, pops));
    EncodeAllMore(f, Repeat(o, pops), jump);
    AtSplit(code, c.pc, bytes, Encode(f, jump.op, jump.arg));
    RunPops(f, sem, code, pops, c);
    JumpStep(f, sem, code, target, Run(f, sem, code, pops, c));
  }

  lemma JumpStep<D>(f: Format, sem: Semantics<D>, code: seq<Byte>, target: nat, c: Config<D>)
    requires f.Valid() && f.DistinctOpcodes() && target % f.jumpUnit == 0
    requires At(code, c.pc, Encode(f, f.jumpAbsolute, target / f.jumpUnit))
    ensures Step(f, sem, code, c) == c.(pc := target)
  {
    hide Encode, At, Fetch;
    FetchEncoded(f, code, c.pc, Op(f.jumpAbsolute, target / f.jumpUnit));
    JumpUnits(f, target);
  }

  lemma JumpUnits(f: Format, target: nat)
    requires f.Valid() && target % f.jumpUnit == 0
    ensures target / f.jumpUnit * f.jumpUnit == target
  {
  }

  // ---------------------------------------------------------------- one intended step

  /** How many patched steps one intended step takes. */
  ghost function Cost<D>(s: Listing, c: Config<D>): (n: nat)
    requires s.f.jumpUnit > 0
  {
    if exists i: nat :: StartsSite(s, i, c.pc) then
      var i: nat :| StartsSite(s, i, c.pc);
      if s.LiveLabel(i) then SledLength(s.f, s.ins[i].offset, s.ins[i + 3].offset)
      else
        var open, to := |GotoOf(s.f, s.ins, i).blocks|, |TargetOf(s, i).blocks|;
        if to <= open then open - to + 1 else 1
    else 1
  }

  lemma SiteUnique(s: Listing, i: nat, j: nat, pc: nat)
    requires s.Valid() && StartsSite(s, i, pc) && StartsSite(s, j, pc)
    ensures i == j
  {
    if i < j { s.Increasing(i, j); } else if j < i { s.Increasing(j, i); }
  }

  /** The data `m` patched steps into one intended step: at a goto `m` blocks are left, otherwise nothing has happened. */
  ghost function Underway<D>(s: Listing, sem: Semantics<D>, c: Config<D>, m: nat): D {
    if exists i: nat :: StartsSite(s, i, c.pc) && !s.LiveLabel(i) then Unwind(sem, m, c).data else c.data
  }

  /** `n` patched steps from `c` give `d`, and before the last of them the data is what the intended step has made of it. */
  ghost predicate Reaches<D>(s: Listing, sem: Semantics<D>, buf: seq<Byte>, n: nat, c: Config<D>, d: Config<D>) {
    && n > 0 && Run(s.f, sem, buf, n, c) == d
    && forall m: nat :: m < n ==> Run(s.f, sem, buf, m, c).data == Underway(s, sem, c, m)
  }

  lemma LabelStep<D>(s: Listing, sem: Semantics<D>, buf: seq<Byte>, i: nat, c: Config<D>)
    requires s.Valid() && s.Patched(buf) && s.LiveLabel(i) && s.ins[i].offset == c.pc
    ensures Reaches(s, sem, buf, SledLength(s.f, c.pc, s.ins[i + 3].offset), c, c.(pc := s.ins[i + 3].offset))
  {
    var n := SledLength(s.f, c.pc, s.ins[i + 3].offset);
    assert s.Live(i) && s.Replacement(i) == Repeat(Op(s.f.nop, 0), n);
    ReplacementFills(s, i);
    SiteAligned(s, i);
    RunNops(s.f, sem, buf, n, c);
    assert StartsSite(s, i, c.pc);
    forall j: nat | StartsSite(s, j, c.pc) ensures j == i { SiteUnique(s, i, j, c.pc); }
    forall m: nat | m < n ensures Run(s.f, sem, buf, m, c).data == Underway(s, sem, c, m) {
      RepeatPrefix(s.f, buf, c.pc, Op(s.f.nop, 0), m, n);
      RunNops(s.f, sem, buf, m, c);
    }
  }

  /** Every label's continuation is a whole number of jump units. */
  lemma TargetAligned(s: Listing, key: nat)
    requires s.Valid() && key in s.found.labels
    ensures s.found.labels[key].end % s.f.jumpUnit == 0
  {
    var i := LabelFills(s, key);
    if s.f.haveArgument == 0 {
      s.ParseAt(0);
      s.Aligned(0, i + 3);
    }
  }

  /** A patched goto starts with its POP_BLOCKs and its jump. */
  lemma GotoAt(s: Listing, buf: seq<Byte>, i: nat)
    requires Patchable(s) && s.Patched(buf) && s.Live(i) && !s.LiveLabel(i)
    ensures var open, to := |GotoOf(s.f, s.ins, i).blocks|, TargetOf(s, i);
            && |to.blocks| <= open && to.end % s.f.jumpUnit == 0
            && At(buf, s.ins[i].offset, EncodeAll(s.f, Jump(s.f, open - |to.blocks|, to.end)))
  {
    hide Encode, EncodeAll, At, Parse, Scan, Sled;
    PlanSucceeds(s, i);
    var g, to := GotoOf(s.f, s.ins, i), TargetOf(s, i);
    var jump := Jump(s.f, |g.blocks| - |to.blocks|, to.end);
    var sled := Sled(s.f, g.start + |EncodeAll(s.f, jump)|, g.end);
    assert s.Replacement(i) == jump + sled;
    EncodeAllJoin(s.f, jump, sled);
    AtSplit(buf, s.ins[i].offset, EncodeAll(s.f, jump), EncodeAll(s.f, sled));
    TargetAligned(s, g.target);
  }

  lemma GotoStep<D>(s: Listing, sem: Semantics<D>, buf: seq<Byte>, i: nat, c: Config<D>)
    requires Patchable(s) && s.Patched(buf) && StartsSite(s, i, c.pc) && !s.LiveLabel(i)
    requires |c.blocks| == |GotoOf(s.f, s.ins, i).blocks|
    ensures var to := TargetOf(s, i);
            && |to.blocks| <= |c.blocks|
            && Reaches(s, sem, buf, |c.blocks| - |to.blocks| + 1, c,
                       Unwind(sem, |c.blocks| - |to.blocks|, c).(pc := to.end))
  {
    hide Encode, EncodeAll, At, Run, Step, Unwind, Parse, Scan, Listing.LiveLabel, Listing.Patched, Jump, TargetOf, GotoOf;
    GotoAt(s, buf, i);
    var to := TargetOf(s, i);
    var pops := |c.blocks| - |to.blocks|;
    RunJump(s.f, sem, buf, pops, to.end, c);
    forall m: nat | m < pops + 1 ensures Run(s.f, sem, buf, m, c).data == Underway(s, sem, c, m) {
      PopsOnly(s.f, sem, buf, m, pops, to.end, c);
    }
  }

  lemma PopsOnly<D>(f: Format, sem: Semantics<D>, code: seq<Byte>, m: nat, pops: nat, target: nat, c: Config<D>)
    requires f.Valid() && f.DistinctOpcodes() && At(code, c.pc, EncodeAll(f, Jump(f, pops, target)))
    requires m <= pops <= |c.blocks|
    ensures Run(f, sem, code, m, c).data == Unwind(sem, m, c).data
  {
    var o, jump := Op(f.popBlock, 0), Op(f.jumpAbsolute, target / f.jumpUnit);
    EncodeAllMore(f, Repeat(o, pops), jump);
    AtSplit(code, c.pc, EncodeAll(f, Repeat(o, pops)), Encode(f, jump.op, jump.arg));
    RepeatPrefix(f, code, c.pc, o, m, pops);
    RunPops(f, sem, code, m, c);
  }

  lemma ClearFetch(s: Listing, buf: seq<Byte>, pc: nat)
    requires s.f.jumpUnit > 0 && s.Patched(buf) && Clear(s, pc)
    ensures Fetch(s.f, buf, pc, 0) == Fetch(s.f, s.code, pc, 0)
  {
    hide Fetch, Listing.Live, Listing.Inside;
    var fetched := Fetch(s.f, s.code, pc, 0);
    if fetched.Got? {
      forall p | pc <= p < fetched.next ensures buf[p] == s.code[p] {}
      FetchLocal(s.f, s.code, buf, pc, 0);
    } else {
      forall p | pc <= p < |s.code| ensures buf[p] == s.code[p] {}
      FetchEndLocal(s.f, s.code, buf, pc, 0);
    }
  }

  lemma PlainStep<D>(s: Listing, sem: Semantics<D>, buf: seq<Byte>, c: Config<D>)
    requires s.Valid() && s.Patched(buf) && Regular(s, c) && forall i: nat :: !StartsSite(s, i, c.pc)
    ensures Reaches(s, sem, buf, 1, c, Step(s.f, sem, s.code, c))
  {
    ClearFetch(s, buf, c.pc);
    assert Run(s.f, sem, buf, 0, c) == c;
    assert Run(s.f, sem, buf, 1, c) == Step(s.f, sem, buf, c);
  }

  /** One intended step is `Cost` patched steps. */
  lemma OneStep<D>(s: Listing, sem: Semantics<D>, buf: seq<Byte>, c: Config<D>)
    requires Patchable(s) && s.Patched(buf) && Regular(s, c)
    ensures Reaches(s, sem, buf, Cost(s, c), c, Intended(s, sem, c))
  {
    hide Step, Run, Reaches, Parse, Scan, Listing.Patched;
    if exists i: nat :: StartsSite(s, i, c.pc) {
      var i: nat :| StartsSite(s, i, c.pc);
      forall j: nat | StartsSite(s, j, c.pc) ensures j == i {
        SiteUnique(s, i, j, c.pc);
      }
      if s.LiveLabel(i) {
        LabelStep(s, sem, buf, i, c);
      } else {
        GotoStep(s, sem, buf, i, c);
      }
    } else {
      PlainStep(s, sem, buf, c);
    }
  }

  // ---------------------------------------------------------------- whole runs

  /** The number of patched steps that `n` intended steps take. */
  ghost function Time<D>(s: Listing, sem: Semantics<D>, n: nat, c: Config<D>): nat
    requires s.f.jumpUnit > 0
  {
    if n == 0 then 0 else Time(s, sem, n - 1, c) + Cost(s, IntendedRun(s, sem, n - 1, c))
  }

  ghost predicate RegularUpTo<D>(s: Listing, sem: Semantics<D>, n: nat, c: Config<D>) {
    forall k: nat :: k < n ==> Regular(s, IntendedRun(s, sem, k, c))
  }

  /** Appending one intended step to a run that has arrived at `d`. */
  lemma Extend<D>(s: Listing, sem: Semantics<D>, buf: seq<Byte>, t: nat, n: nat, c: Config<D>, d: Config<D>, e: Config<D>)
    requires Run(s.f, sem, buf, t, c) == d && Reaches(s, sem, buf, n, d, e)
    ensures Run(s.f, sem, buf, t + n, c) == e
    ensures forall m: nat :: t <= m < t + n ==> Run(s.f, sem, buf, m, c).data == Underway(s, sem, d, m - t)
  {
    hide Underway, Step;
    RunMore(s.f, sem, buf, t, n, c);
    forall m: nat | t <= m < t + n ensures Run(s.f, sem, buf, m, c).data == Underway(s, sem, d, m - t) {
      RunMore(s.f, sem, buf, t, m - t, c);
      assert t + (m - t) == m;
    }
  }

  /** After `Time(n)` steps the patched code is exactly where the intended run is after `n`, and from there to `Time(n+1)`
      its data is that of the intended step under way. */
  lemma {:induction false} Simulates<D>(s: Listing, sem: Semantics<D>, buf: seq<Byte>, n: nat, c: Config<D>)
    requires Patchable(s) && s.Patched(buf) && RegularUpTo(s, sem, n + 1, c)
    ensures Run(s.f, sem, buf, Time(s, sem, n, c), c) == IntendedRun(s, sem, n, c)
    ensures Time(s, sem, n, c) < Time(s, sem, n + 1, c)
    ensures Run(s.f, sem, buf, Time(s, sem, n + 1, c), c) == IntendedRun(s, sem, n + 1, c)
    ensures forall m: nat :: Time(s, sem, n, c) <= m < Time(s, sem, n + 1, c)
              ==> Run(s.f, sem, buf, m, c).data == Underway(s, sem, IntendedRun(s, sem, n, c), m - Time(s, sem, n, c))
  {
    hide Cost, Run, Time, IntendedRun, Regular, Reaches, Underway, Patchable, Listing.Patched;
    PatchableUnit(s);
    if n > 0 {
      assert RegularUpTo(s, sem, n, c);
      Simulates(s, sem, buf, n - 1, c);
    } else {
      NoSteps(s, sem, buf, c);
    }
    var d := IntendedRun(s, sem, n, c);
    assert Regular(s, d);
    OneStep(s, sem, buf, d);
    ReachesMore(s, sem, buf, Cost(s, d), d, Intended(s, sem, d));
    TimeMore(s, sem, n, c);
    Extend(s, sem, buf, Time(s, sem, n, c), Cost(s, d), c, d, IntendedRun(s, sem, n + 1, c));
  }

  lemma PatchableUnit(s: Listing)
    requires Patchable(s)
    ensures s.f.jumpUnit > 0
  {
  }

  lemma ReachesMore<D>(s: Listing, sem: Semantics<D>, buf: seq<Byte>, n: nat, c: Config<D>, d: Config<D>)
    requires Reaches(s, sem, buf, n, c, d)
    ensures n > 0
  {
  }

  lemma NoSteps<D>(s: Listing, sem: Semantics<D>, buf: seq<Byte>, c: Config<D>)
    requires s.f.jumpUnit > 0
    ensures Run(s.f, sem, buf, 0, c) == c && Time(s, sem, 0, c) == 0 && IntendedRun(s, sem, 0, c) == c
  {
  }

  lemma TimeMore<D>(s: Listing, sem: Semantics<D>, n: nat, c: Config<D>)
    requires s.f.jumpUnit > 0
    ensures Time(s, sem, n + 1, c) == Time(s, sem, n, c) + Cost(s, IntendedRun(s, sem, n, c))
    ensures IntendedRun(s, sem, n + 1, c) == Intended(s, sem, IntendedRun(s, sem, n, c))
  {
  }

  /** Which intended step the patched code is in after `m` steps. */
  lemma {:induction false} StepBefore<D>(s: Listing, sem: Semantics<D>, m: nat, top: nat, c: Config<D>) returns (n: nat)
    requires s.f.jumpUnit > 0 && m < Time(s, sem, top, c)
    ensures n < top && Time(s, sem, n, c) <= m < Time(s, sem, n + 1, c)
  {
    hide Cost, Intended;
    if Time(s, sem, top - 1, c) <= m {
      n := top - 1;
    } else {
      n := StepBefore(s, sem, m, top - 1, c);
    }
  }

  lemma {:induction false} TimePasses<D>(s: Listing, sem: Semantics<D>, buf: seq<Byte>, n: nat, c: Config<D>)
    requires Patchable(s) && s.Patched(buf) && forall k: nat :: Regular(s, IntendedRun(s, sem, k, c))
    ensures Time(s, sem, n, c) >= n
  {
    hide Intended, Cost, Step, Fetch, Parse, Scan, Listing.Patched;
    if n > 0 {
      TimePasses(s, sem, buf, n - 1, c);
      Simulates(s, sem, buf, n - 1, c);
    }
  }

  /** Every run of the patched code, of any length `m`, is a run of the intended code: after some `n <= m` steps the
      intended run holds the same data, or is at a goto of which the patched code has left `into` blocks; and finishing
      the site the patched code may be in reaches the intended run's next configuration. */
  lemma PatchedRunIsIntended<D>(s: Listing, sem: Semantics<D>, buf: seq<Byte>, m: nat, c: Config<D>)
    returns (n: nat, into: nat, rest: nat)
    requires Patchable(s) && s.Patched(buf) && forall k: nat :: Regular(s, IntendedRun(s, sem, k, c))
    ensures n + into <= m && Run(s.f, sem, buf, m, c).data == Underway(s, sem, IntendedRun(s, sem, n, c), into)
    ensures Run(s.f, sem, buf, m - into, c) == IntendedRun(s, sem, n, c)
    ensures Run(s.f, sem, buf, m + rest, c) == IntendedRun(s, sem, n + 1, c)
  {
    hide Intended, Cost, Step, Underway, Fetch, Parse, Scan, Listing.Patched;
    TimePasses(s, sem, buf, m + 1, c);
    n := StepBefore(s, sem, m, m + 1, c);
    Simulates(s, sem, buf, n, c);
    TimePasses(s, sem, buf, n, c);
    into := m - Time(s, sem, n, c);
    rest := Time(s, sem, n + 1, c) - m;
  }
}
