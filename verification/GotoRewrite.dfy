/** What a patched code string means to the parser: the original instruction list with each live site replaced, and when
    patching a second time changes nothing. */
module GotoRewrite {
  import opened Wrappers
  import opened Bytecode
  import opened GotoSites
  import opened GotoPatch

  /** A listing whose gotos can all be patched. */
  ghost predicate Patchable(s: Listing) {
    s.Valid() && FirstError(s.f, s.found, |s.found.gotos|) == None
  }

  /** What stands for instruction `i`: its replacement if a live site starts there, itself otherwise. */
  function Front(s: Listing, i: nat): seq<Instr>
    requires s.f.jumpUnit > 0 && i < |s.ins|
  {
    if s.Live(i) then Place(s.f, s.Replacement(i), s.ins[i].offset) else [s.ins[i]]
  }

  function Skip(s: Listing, i: nat): nat {
    if s.Live(i) then i + 3 else i + 1
  }

  /** The instruction list from instruction `i` on with live sites replaced. */
  function Rewrite(s: Listing, i: nat): seq<Instr>
    requires s.f.jumpUnit > 0
    decreases |s.ins| - i
  {
    if i >= |s.ins| then [] else Front(s, i) + Rewrite(s, Skip(s, i))
  }

  /** `i` is not the second or third instruction of a live site. */
  predicate Reachable(s: Listing, i: nat) {
    (i >= 1 ==> !s.Live(i - 1)) && (i >= 2 ==> !s.Live(i - 2))
  }

  lemma ReplacementOps(s: Listing, i: nat)
    requires Patchable(s) && s.Live(i)
    ensures s.Replacement(i) != []
    ensures forall o :: o in s.Replacement(i) ==> Writable(s.f, o) && o.op in {s.f.nop, s.f.popBlock, s.f.jumpAbsolute}
  {
    hide Encode, Parse, Scan, SledLength;
    if !s.LiveLabel(i) {
      PlanSucceeds(s, i);
    }
    ReplacementFills(s, i);
    SiteAligned(s, i);
  }

  lemma OutsideSite(s: Listing, i: nat, j: nat, p: nat)
    requires s.Valid() && i < |s.ins| && j + 3 < |s.ins| && (j + 3 <= i || i < j)
    requires s.ins[i].offset <= p && (i + 1 < |s.ins| ==> p < s.ins[i + 1].offset)
    ensures !s.Inside(j, p)
  {
    if j + 3 < i {
      s.Increasing(j + 3, i);
    } else if i + 1 < j {
      s.Increasing(i + 1, j);
    }
  }

  lemma UnchangedAt(s: Listing, buf: seq<Byte>, i: nat, p: nat)
    requires s.Valid() && s.Patched(buf) && i < |s.ins| && !s.Live(i) && Reachable(s, i)
    requires s.ins[i].offset <= p < |s.code| && (i + 1 < |s.ins| ==> p < s.ins[i + 1].offset)
    ensures buf[p] == s.code[p]
  {
    forall j: nat | s.Live(j) ensures !s.Inside(j, p) {
      assert j != i && j != i - 1 && j != i - 2;
      OutsideSite(s, i, j, p);
    }
  }

  lemma FetchUnchanged(s: Listing, buf: seq<Byte>, i: nat)
    requires s.Valid() && s.Patched(buf) && i < |s.ins| && !s.Live(i) && Reachable(s, i)
    ensures Fetch(s.f, buf, s.ins[i].offset, 0) == Fetch(s.f, s.code, s.ins[i].offset, 0)
  {
    s.FetchAt(i);
    forall p | s.ins[i].offset <= p < Fetch(s.f, s.code, s.ins[i].offset, 0).next ensures buf[p] == s.code[p] {
      UnchangedAt(s, buf, i, p);
    }
    FetchLocal(s.f, s.code, buf, s.ins[i].offset, 0);
  }

  lemma {:induction false} FetchEndLocal(f: Format, code: seq<Byte>, other: seq<Byte>, pos: nat, ext: nat)
    requires |other| == |code| && forall p :: pos <= p < |code| ==> other[p] == code[p]
    ensures Fetch(f, other, pos, ext) == Fetch(f, code, pos, ext)
    decreases |code| - pos
  {
    if pos < |code| && code[pos] == f.extendedArg && code[pos] >= f.haveArgument && pos + 1 + f.argSize <= |code| {
      FetchEndLocal(f, code, other, pos + 1 + f.argSize, f.Shl(ext + ArgAt(f, code, pos + 1)));
    }
  }

  lemma EndUnchanged(s: Listing, buf: seq<Byte>, i: nat)
    requires s.Valid() && s.Patched(buf) && i + 1 == |s.ins| && !s.Live(i) && Reachable(s, i)
    ensures var g := Fetch(s.f, s.code, s.ins[i].offset, 0);
            g.Got? && Parse(s.f, buf, g.next) == Success([])
  {
    s.FetchAt(i);
    var next := Fetch(s.f, s.code, s.ins[i].offset, 0).next;
    forall p | next <= p < |s.code| ensures buf[p] == s.code[p] {
      UnchangedAt(s, buf, i, p);
    }
    FetchEndLocal(s.f, s.code, buf, next, 0);
    ParseNothing(s.f, s.code, next);
  }

  lemma ParseNothing(f: Format, code: seq<Byte>, pos: nat)
    requires Parse(f, code, pos) == Success([])
    ensures Fetch(f, code, pos, 0) == End
  {
    GotIsSomething(f, code, pos);
  }

  lemma GotIsSomething(f: Format, code: seq<Byte>, pos: nat)
    ensures Fetch(f, code, pos, 0).Got? ==> Parse(f, code, pos) != Success([])
  {
    var g := Fetch(f, code, pos, 0);
    if g.Got? {
      var tail := Parse(f, code, g.next);
      if tail.Success? {
        assert |[Instr(g.op, g.arg, pos)] + tail.value| > 0;
      }
    }
  }

  lemma ParseReplacement(s: Listing, buf: seq<Byte>, i: nat)
    requires Patchable(s) && s.Patched(buf) && s.Live(i)
    ensures Parse(s.f, buf, s.ins[i].offset)
         == Prepend(Place(s.f, s.Replacement(i), s.ins[i].offset), Parse(s.f, buf, s.ins[i + 3].offset))
  {
    hide Parse, Scan, Plan, EncodeAll, Place;
    ReplacementOps(s, i);
    if IsGoto(s.f, s.names, s.ins, i) { PlanSucceeds(s, i); }
    ReplacementFills(s, i);
    ParseEncoded(s.f, buf, s.ins[i].offset, s.Replacement(i));
  }

  lemma ParseKept(s: Listing, buf: seq<Byte>, i: nat)
    requires Patchable(s) && s.Patched(buf) && i < |s.ins| && !s.Live(i) && Reachable(s, i)
    ensures Parse(s.f, buf, s.ins[i].offset)
         == Prepend([s.ins[i]], if i + 1 < |s.ins| then Parse(s.f, buf, s.ins[i + 1].offset) else Success([]))
  {
    s.ParseAt(i);
    ParseHead(s.f, s.code, s.ins[i].offset, s.ins[i..]);
    s.FetchAt(i);
    FetchUnchanged(s, buf, i);
    if i + 1 == |s.ins| {
      EndUnchanged(s, buf, i);
    }
  }

  lemma AfterLive(s: Listing, i: nat)
    requires s.Valid() && s.Live(i)
    ensures i + 3 < |s.ins| && Reachable(s, i + 3) && !s.Live(i + 1) && !s.Live(i + 2)
  {
  }

  /** Parsing the patched bytes gives the rewritten instruction list. */
  lemma {:induction false} ParsePatched(s: Listing, buf: seq<Byte>, i: nat)
    requires Patchable(s) && s.Patched(buf) && i < |s.ins| && Reachable(s, i)
    ensures Parse(s.f, buf, s.ins[i].offset) == Success(Rewrite(s, i))
    decreases |s.ins| - i
  {
    hide Parse, Scan, Listing.Patched;
    var next := Skip(s, i);
    if s.Live(i) {
      AfterLive(s, i);
      ParseReplacement(s, buf, i);
    } else {
      ParseKept(s, buf, i);
    }
    if next < |s.ins| {
      ParsePatched(s, buf, next);
    } else {
      assert Rewrite(s, next) == [];
    }
  }

  /** The whole patched code string: same length, nothing outside the live sites touched (that is `Patched`), and parsed
      as the rewritten list. */
  lemma PatchedMeaning(s: Listing, buf: seq<Byte>)
    requires Patchable(s) && s.Patched(buf)
    ensures |buf| == |s.code| && Parse(s.f, buf, 0) == Success(Rewrite(s, 0))
  {
    if s.ins != [] {
      s.ParseAt(0);
      ParsePatched(s, buf, 0);
    } else {
      forall p: nat | p < |s.code| ensures buf[p] == s.code[p] {}
      ParseNothing(s.f, s.code, 0);
      FetchEndLocal(s.f, s.code, buf, 0, 0);
    }
  }

  // ---------------------------------------------------------------- patching twice

  /** No two label sites carry the same name. */
  ghost predicate DistinctLabels(s: Listing) {
    forall i: nat, j: nat | IsLabel(s.f, s.names, s.ins, i) && IsLabel(s.f, s.names, s.ins, j) ::
      Key(s.ins, i) == Key(s.ins, j) ==> i == j
  }

  /** The patched code as a listing of its own. */
  function Again(s: Listing, buf: seq<Byte>): Listing
    requires s.f.jumpUnit > 0
  {
    var ins := Rewrite(s, 0);
    Listing(s.f, s.names, buf, ins, Scan(s.f, s.names, ins, Scanned(ins)).GetOr(Found(map[], [])))
  }

  lemma {:induction false} PlaceOps(f: Format, ops: seq<Op>, offset: nat)
    ensures |Place(f, ops, offset)| == |ops|
    ensures forall k :: 0 <= k < |ops| ==> Place(f, ops, offset)[k].op == ops[k].op
    decreases |ops|
  {
    if ops != [] {
      PlaceOps(f, ops[1..], offset + |Encode(f, ops[0].op, ops[0].arg)|);
    }
  }

  /** Instruction `a` of the rewritten tail at `i` is `x`, which no replacement contains. */
  ghost predicate Shows(s: Listing, i: nat, a: nat, x: Instr)
    requires s.f.jumpUnit > 0
  {
    a < |Rewrite(s, i)| && Rewrite(s, i)[a] == x && x.op !in {s.f.nop, s.f.popBlock, s.f.jumpAbsolute}
  }

  lemma FrontShows(s: Listing, i: nat)
    requires Patchable(s) && i < |s.ins|
    ensures |Front(s, i)| > 0
    ensures s.Live(i) ==> forall k :: 0 <= k < |Front(s, i)| ==>
              Front(s, i)[k].op in {s.f.nop, s.f.popBlock, s.f.jumpAbsolute}
  {
    if s.Live(i) {
      ReplacementOps(s, i);
      PlaceOps(s.f, s.Replacement(i), s.ins[i].offset);
    }
  }

  /** The first rewritten instruction comes from `i`, unless it belongs to a replacement. */
  lemma HeadShows(s: Listing, i: nat, x: Instr)
    requires Patchable(s) && Shows(s, i, 0, x)
    ensures i < |s.ins| && !s.Live(i) && x == s.ins[i] && Rewrite(s, i) == [x] + Rewrite(s, i + 1)
  {
    if i < |s.ins| {
      FrontShows(s, i);
      assert Rewrite(s, i)[0] == Front(s, i)[0];
    }
  }

  /** Three given instructions at position `a`, and one more behind them. */
  predicate Window(r: seq<Instr>, a: nat, x: Instr, y: Instr, z: Instr) {
    a + 3 < |r| && r[a] == x && r[a + 1] == y && r[a + 2] == z
  }

  lemma WindowShift(r: seq<Instr>, n: nat, a: nat, x: Instr, y: Instr, z: Instr)
    requires n <= |r|
    ensures Window(r, n + a, x, y, z) == Window(r[n..], a, x, y, z)
  {
  }

  /** The ops of a window that is a site. */
  predicate SiteOps(f: Format, x: Instr, y: Instr, z: Instr) {
    IsLoad(f, x.op) && y.op == f.loadAttr && z.op == f.popTop
  }

  lemma WindowHead(s: Listing, i: nat, x: Instr, y: Instr, z: Instr)
    requires Patchable(s) && SiteOps(s.f, x, y, z) && Window(Rewrite(s, i), 0, x, y, z)
    ensures i + 3 < |s.ins| && !s.Live(i) && x == s.ins[i] && y == s.ins[i + 1] && z == s.ins[i + 2]
  {
    hide Rewrite, Front, Parse, Scan;
    HeadShows(s, i, x);
    HeadShows(s, i + 1, y);
    HeadShows(s, i + 2, z);
    RewriteBehind(s, i + 3);
  }

  lemma RewriteBehind(s: Listing, i: nat)
    requires s.f.jumpUnit > 0
    ensures i >= |s.ins| ==> Rewrite(s, i) == []
  {
  }

  /** Windows behind `Front(i)` are windows of the rest. */
  lemma WindowBehind(s: Listing, i: nat, a: nat, x: Instr, y: Instr, z: Instr)
    requires Patchable(s) && i < |s.ins|
    ensures Window(Rewrite(s, i), |Front(s, i)| + a, x, y, z) == Window(Rewrite(s, Skip(s, i)), a, x, y, z)
  {
    assert Rewrite(s, i)[|Front(s, i)|..] == Rewrite(s, Skip(s, i));
    WindowShift(Rewrite(s, i), |Front(s, i)|, a, x, y, z);
  }

  /** A window that starts with a load is behind `Front(i)`, or starts at the unreplaced instruction `i`. */
  lemma WindowWhere(s: Listing, i: nat, a: nat, x: Instr, y: Instr, z: Instr)
    requires Patchable(s) && SiteOps(s.f, x, y, z) && Window(Rewrite(s, i), a, x, y, z)
    ensures i < |s.ins| && (a < |Front(s, i)| ==> a == 0)
  {
    FrontShows(s, i);
    if a < |Front(s, i)| {
      assert Rewrite(s, i)[a] == Front(s, i)[a];
    }
  }

  /** A site of the rewritten list is a site of the original that was not live, with the same instructions. */
  lemma {:induction false} SiteFrom(s: Listing, i: nat, a: nat, x: Instr, y: Instr, z: Instr) returns (k: nat)
    requires Patchable(s) && SiteOps(s.f, x, y, z) && Window(Rewrite(s, i), a, x, y, z)
    ensures k + 3 < |s.ins| && !s.Live(k) && x == s.ins[k] && y == s.ins[k + 1] && z == s.ins[k + 2]
    decreases |s.ins| - i
  {
    hide Rewrite, Front, Window, Parse, Scan;
    WindowWhere(s, i, a, x, y, z);
    if a >= |Front(s, i)| {
      WindowBehind(s, i, a - |Front(s, i)|, x, y, z);
      k := SiteFrom(s, Skip(s, i), a - |Front(s, i)|, x, y, z);
    } else {
      k := i;
      WindowHead(s, i, x, y, z);
    }
  }

  lemma WindowKept(s: Listing, k: nat)
    requires Patchable(s) && IsSite(s.f, s.ins, k) && !s.Live(k)
    ensures Window(Rewrite(s, k), 0, s.ins[k], s.ins[k + 1], s.ins[k + 2])
  {
    hide Rewrite, Front, Parse, Scan;
    RewriteKept(s, k);
    RewriteKept(s, k + 1);
    RewriteKept(s, k + 2);
    RewriteMore(s, k + 3);
  }

  lemma RewriteKept(s: Listing, i: nat)
    requires s.f.jumpUnit > 0 && i < |s.ins| && !s.Live(i)
    ensures Rewrite(s, i) == [s.ins[i]] + Rewrite(s, i + 1)
  {
  }

  lemma RewriteMore(s: Listing, i: nat)
    requires Patchable(s) && i < |s.ins|
    ensures |Rewrite(s, i)| > 0
  {
    FrontShows(s, i);
  }

  lemma SkipStays(s: Listing, i: nat, k: nat)
    requires s.Valid() && i < k && IsSite(s.f, s.ins, k) && Reachable(s, i)
    ensures Skip(s, i) <= k && Reachable(s, Skip(s, i))
  {
  }

  /** A site that is not live is still there after patching. */
  lemma {:induction false} SiteStays(s: Listing, i: nat, k: nat) returns (a: nat)
    requires Patchable(s) && i <= k && IsSite(s.f, s.ins, k) && !s.Live(k) && Reachable(s, i)
    ensures Window(Rewrite(s, i), a, s.ins[k], s.ins[k + 1], s.ins[k + 2])
    decreases |s.ins| - i
  {
    hide Rewrite, Front, Window, Parse, Scan, Reachable;
    if i < k {
      SkipStays(s, i, k);
      var b := SiteStays(s, Skip(s, i), k);
      a := |Front(s, i)| + b;
      WindowBehind(s, i, b, s.ins[k], s.ins[k + 1], s.ins[k + 2]);
    } else {
      a := 0;
      WindowKept(s, k);
    }
  }

  /** Every site the second pass sees was a site of the first that stayed as it was. */
  lemma OldSite(s: Listing, buf: seq<Byte>, a: nat) returns (k: nat)
    requires Patchable(s) && IsSite(s.f, Again(s, buf).ins, a)
    ensures IsSite(s.f, s.ins, k) && !s.Live(k)
    ensures s.ins[k] == Again(s, buf).ins[a] && s.ins[k + 1] == Again(s, buf).ins[a + 1]
  {
    var r := Rewrite(s, 0);
    k := SiteFrom(s, 0, a, r[a], r[a + 1], r[a + 2]);
  }

  /** The second pass succeeds in finding its sites, and finds no goto. */
  lemma SecondScan(s: Listing, buf: seq<Byte>)
    requires Patchable(s) && s.Patched(buf)
    ensures Again(s, buf).Valid() && Again(s, buf).found.gotos == []
    ensures Find(s.f, s.names, buf) == Success(Again(s, buf).found)
  {
    var t := Again(s, buf);
    PatchedMeaning(s, buf);
    forall a: nat | a < Scanned(t.ins) && IsSite(s.f, t.ins, a) ensures NameKnown(s.names, t.ins, a) {
      var k := OldSite(s, buf, a);
      ScanKnown(s.f, s.names, s.ins, Scanned(s.ins));
    }
    ScanKnown(s.f, s.names, t.ins, Scanned(t.ins));
    if t.found.gotos != [] {
      ScanSucceeds(t, Scanned(t.ins));
      var a := GotoSite(t, Scanned(t.ins), 0);
      var k := OldSite(s, buf, a);
      assert false;
    }
  }

  /** With distinct labels every label site is live, so none is left for the second pass. */
  lemma NothingLeft(s: Listing, buf: seq<Byte>)
    requires Patchable(s) && s.Patched(buf) && DistinctLabels(s)
    ensures forall a: nat :: !Again(s, buf).Live(a)
  {
    var t := Again(s, buf);
    forall a: nat ensures !t.Live(a) {
      if t.Live(a) {
        var k := OldSite(s, buf, a);
        AllLive(s, k);
      }
    }
  }

  lemma AllLive(s: Listing, k: nat)
    requires s.Valid() && DistinctLabels(s)
    ensures IsLabel(s.f, s.names, s.ins, k) || IsGoto(s.f, s.names, s.ins, k) ==> s.Live(k)
  {
    if IsLabel(s.f, s.names, s.ins, k) {
      ScanSucceeds(s, Scanned(s.ins));
      LabelListed(s, Scanned(s.ins), k);
      var i := LabelSite(s, Scanned(s.ins), Key(s.ins, k));
    }
  }

  lemma DeadLabel(s: Listing) returns (k: nat)
    requires Patchable(s) && !DistinctLabels(s)
    ensures IsLabel(s.f, s.names, s.ins, k) && !s.Live(k)
  {
    var i: nat, j: nat :| IsLabel(s.f, s.names, s.ins, i) && IsLabel(s.f, s.names, s.ins, j)
                          && Key(s.ins, i) == Key(s.ins, j) && i != j;
    if i < j { s.Increasing(i, j); } else { s.Increasing(j, i); }
    k := if s.LiveLabel(i) then j else i;
  }

  lemma LabelIsLive(t: Listing, b: nat) returns (a: nat)
    requires t.Valid() && IsLabel(t.f, t.names, t.ins, b)
    ensures t.LiveLabel(a)
  {
    ScanSucceeds(t, Scanned(t.ins));
    LabelListed(t, Scanned(t.ins), b);
    a := LabelFills(t, Key(t.ins, b));
  }

  /** Two label sites of one name: the one that is not live is patched only by the second pass. */
  lemma SomethingLeft(s: Listing, buf: seq<Byte>) returns (a: nat)
    requires Patchable(s) && s.Patched(buf) && !DistinctLabels(s)
    ensures Again(s, buf).LiveLabel(a)
  {
    var k := DeadLabel(s);
    var b := SiteStays(s, 0, k);
    SecondScan(s, buf);
    a := LabelIsLive(Again(s, buf), b);
  }

  /** A live label site is changed by patching: its first byte was no NOP. */
  lemma LiveLabelChanges(s: Listing, buf: seq<Byte>, i: nat)
    requires s.Valid() && s.LiveLabel(i) && s.Patched(buf)
    ensures buf != s.code
  {
    hide Parse, Scan, Encode, Fetch, At;
    s.FetchAt(i);
    var sled, at := s.Replacement(i), s.ins[i].offset;
    SiteAligned(s, i);
    var first, rest := Encode(s.f, s.f.nop, 0), EncodeAll(s.f, sled[1..]);
    assert s.Live(i) && sled[0] == Op(s.f.nop, 0);
    assert EncodeAll(s.f, sled) == first + rest;
    AtSplit(buf, at, first, rest);
    FetchEncoded(s.f, buf, at, Op(s.f.nop, 0));
  }

  /** Patching an already patched code string succeeds, and returns it unchanged exactly if label names are distinct. */
  lemma PatchTwice(s: Listing, buf: seq<Byte>, r: Result<seq<Byte>, Error>)
    requires Patchable(s) && s.Patched(buf) && Outcome(s.f, s.names, buf, r)
    ensures r.Success?
    ensures r == Success(buf) <==> DistinctLabels(s)
  {
    SecondOutcome(s, buf, r);
    if DistinctLabels(s) {
      NothingLeft(s, buf);
      assert r.value == buf;
    } else {
      var a := SomethingLeft(s, buf);
      SecondScan(s, buf);
      LiveLabelChanges(Again(s, buf), r.value, a);
    }
  }

  lemma SecondOutcome(s: Listing, buf: seq<Byte>, r: Result<seq<Byte>, Error>)
    requires Patchable(s) && s.Patched(buf) && Outcome(s.f, s.names, buf, r)
    ensures r.Success? && Again(s, buf).Patched(r.value)
  {
    SecondScan(s, buf);
    PatchedMeaning(s, buf);
  }

  // ---------------------------------------------------------------- two labels of one name

  /** CPython 3.6, with the opcodes of its `opcode` module. */
  const CPYTHON36 := Format(1, 0, 1, 144, 9, 87, 113, 116, 101, 106, 1, {120, 121, 122, 143, 154})

  /** `label .x` twice, and one more instruction. */
  function TwoLabels(): seq<Op> {
    [Op(116, 0), Op(106, 1), Op(1, 0), Op(116, 0), Op(106, 1), Op(1, 0), Op(9, 0)]
  }

  function TwoLabelsListing(): Listing {
    var names, ins := ["label", "x"], Place(CPYTHON36, TwoLabels(), 0);
    Listing(CPYTHON36, names, EncodeAll(CPYTHON36, TwoLabels()), ins,
            Scan(CPYTHON36, names, ins, Scanned(ins)).GetOr(Found(map[], [])))
  }

  lemma {:induction false} PlaceAt(f: Format, ops: seq<Op>, offset: nat, k: nat)
    requires k < |ops|
    ensures k < |Place(f, ops, offset)|
    ensures var x := Place(f, ops, offset)[k];
            x.op == ops[k].op && x.arg == if ops[k].op >= f.haveArgument then Some(ops[k].arg) else None
    decreases k
  {
    hide Encode;
    PlaceOps(f, ops, offset);
    if k > 0 { PlaceAt(f, ops[1..], offset + |Encode(f, ops[0].op, ops[0].arg)|, k - 1); }
  }

  lemma TwoLabelsSites()
    ensures var s := TwoLabelsListing();
            && |s.ins| == 7
            && (forall i: nat :: IsSite(s.f, s.ins, i) <==> i == 0 || i == 3)
            && (forall i: nat :: IsSite(s.f, s.ins, i) ==>
                  IsLabel(s.f, s.names, s.ins, i) && !IsGoto(s.f, s.names, s.ins, i) && Key(s.ins, i) == 1)
  {
    hide Place, Scan, Encode, EncodeAll;
    var f, ops, s := CPYTHON36, TwoLabels(), TwoLabelsListing();
    PlaceOps(f, ops, 0);
    forall k: nat | k < 7
      ensures s.ins[k].op == ops[k].op && s.ins[k].arg == Some(ops[k].arg)
    {
      PlaceAt(f, ops, 0, k);
    }
    assert "label" != "goto" by { assert |"label"| == 5 && |"goto"| == 4; }
  }

  /** The code with two labels of one name can be patched, and a second pass changes it again. */
  lemma TwoLabelsPatchedAgain(buf: seq<Byte>, r: Result<seq<Byte>, Error>)
    requires TwoLabelsListing().Patched(buf) && Outcome(CPYTHON36, ["label", "x"], buf, r)
    ensures Patchable(TwoLabelsListing()) && r.Success? && r.value != buf
  {
    hide Place, Scan, Encode, EncodeAll, Listing.Patched, Outcome, IsSite, IsLabel, IsGoto, Parse;
    var s := TwoLabelsListing();
    TwoLabelsSites();
    TwoLabelsValid();
    assert IsLabel(s.f, s.names, s.ins, 0) && IsLabel(s.f, s.names, s.ins, 3);
    PatchTwice(s, buf, r);
  }

  lemma TwoLabelsValid()
    ensures Patchable(TwoLabelsListing())
  {
    hide Place, Scan, Encode, EncodeAll, Parse, IsSite;
    var f, s := CPYTHON36, TwoLabelsListing();
    assert f.Valid() && f.DistinctOpcodes();
    TwoLabelsSites();
    RoundTrip(f, TwoLabels());
    forall i: nat | i < Scanned(s.ins) && IsSite(f, s.ins, i) ensures NameKnown(s.names, s.ins, i) {
      LabelKnown(s, i);
    }
    ScanKnown(f, s.names, s.ins, Scanned(s.ins));
    if s.found.gotos != [] {
      ScanSucceeds(s, Scanned(s.ins));
      var i := GotoSite(s, Scanned(s.ins), 0);
      GotoIsSite(s, i);
      assert false;
    }
  }

  lemma LabelKnown(s: Listing, i: nat)
    requires IsLabel(s.f, s.names, s.ins, i)
    ensures IsSite(s.f, s.ins, i) && NameKnown(s.names, s.ins, i)
  {
  }

  lemma GotoIsSite(s: Listing, i: nat)
    requires IsGoto(s.f, s.names, s.ins, i)
    ensures IsSite(s.f, s.ins, i)
  {
  }
}
