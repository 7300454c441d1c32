/** When `_patch_code` accepts a code string, and which error it raises otherwise, said of the instruction list: of label and
    goto sites, of block instances opened and not closed, and of bytes. */
module GotoAccept {
  import opened Wrappers
  import opened Bytecode
  import opened BytecodeUnits
  import opened GotoSites
  import opened GotoBlocks
  import opened GotoPatch
  import opened GotoRewrite

  predicate LabelNamed(s: Listing, l: nat, key: nat) {
    IsLabel(s.f, s.names, s.ins, l) && Key(s.ins, l) == key
  }

  predicate GotoHere(s: Listing, g: nat) {
    IsGoto(s.f, s.names, s.ins, g)
  }

  /** The label that a name stands for: its last one. */
  ghost predicate Target(s: Listing, l: nat, key: nat) {
    LabelNamed(s, l, key) && forall j: nat :: LabelNamed(s, j, key) ==> j <= l
  }

  /** Every block instance open at the label is still open at the goto. */
  ghost predicate StaysOpen(s: Listing, l: nat, g: nat) {
    forall b: nat :: Unclosed(s.f, s.ins, b, l) ==> Unclosed(s.f, s.ins, b, g)
  }

  /** The block instances that the goto leaves. */
  ghost function BlocksLeft(s: Listing, l: nat, g: nat): set<nat> {
    set b: nat | b < g && Unclosed(s.f, s.ins, b, g) && !Unclosed(s.f, s.ins, b, l)
  }

  function PopBytes(f: Format, n: nat): nat {
    if f.popBlock < f.haveArgument then n else Behind(f, 0, n)
  }

  /** The site has room for one POP_BLOCK a block left, and for a jump behind the label. */
  ghost predicate Fits(s: Listing, l: nat, g: nat)
    requires s.f.jumpUnit > 0 && l + 3 < |s.ins| && g + 3 < |s.ins|
  {
    exists n: nat ::
      && n > 0 && s.ins[l + 3].offset / s.f.jumpUnit < Limit(s.f, n)
      && s.ins[g].offset + PopBytes(s.f, |BlocksLeft(s, l, g)|) + Behind(s.f, 0, n) <= s.ins[g + 3].offset
  }

  ghost predicate Accepts(s: Listing, g: nat)
    requires s.f.jumpUnit > 0 && g + 3 < |s.ins|
  {
    exists l: nat :: Target(s, l, Key(s.ins, g)) && StaysOpen(s, l, g) && Fits(s, l, g)
  }

  /** What is wrong with a goto. */
  ghost predicate Wrong(s: Listing, g: nat, e: Error)
    requires s.f.jumpUnit > 0 && g + 3 < |s.ins|
  {
    match e
    case UnknownLabel => forall l: nat :: !LabelNamed(s, l, Key(s.ins, g))
    case DifferentBlock => exists l: nat :: Target(s, l, Key(s.ins, g)) && !StaysOpen(s, l, g)
    case TooManyBlocks => exists l: nat :: Target(s, l, Key(s.ins, g)) && StaysOpen(s, l, g) && !Fits(s, l, g)
    case _ => false
  }

  // ---------------------------------------------------------------- one goto

  lemma OpenEverywhere(s: Listing, i: nat)
    requires s.Valid() && i <= |s.ins|
    ensures forall b: nat :: OpenSince(s.f, s.ins, b, i) <==> Unclosed(s.f, s.ins, b, i)
  {
    hide OpenSince, Unclosed, Parse, Scan;
    forall b: nat ensures OpenSince(s.f, s.ins, b, i) <==> Unclosed(s.f, s.ins, b, i) {
      OpenIsUnclosed(s.f, s.ins, b, i);
    }
  }

  lemma UnclosedEarlier(s: Listing, b: nat, i: nat)
    requires Unclosed(s.f, s.ins, b, i)
    ensures b < i
  {
  }

  /** The prefix test and the number of POP_BLOCKs, without stacks. */
  lemma BlocksCounted(s: Listing, l: nat, g: nat)
    requires s.Valid() && l <= |s.ins| && g <= |s.ins|
    ensures Stack(s.f, s.ins, l) <= Stack(s.f, s.ins, g) <==> StaysOpen(s, l, g)
    ensures StaysOpen(s, l, g) ==> |BlocksLeft(s, l, g)| == |Stack(s.f, s.ins, g)| - |Stack(s.f, s.ins, l)|
  {
    hide OpenSince, Unclosed, Parse, Scan, Stack;
    OpenEverywhere(s, l);
    OpenEverywhere(s, g);
    PrefixTestExact(s.f, s.ins, l, g);
    if StaysOpen(s, l, g) {
      StackCounts(s.f, s.ins, l);
      StackCounts(s.f, s.ins, g);
      var at, here := OpenAt(s.f, s.ins, l), OpenAt(s.f, s.ins, g);
      forall b | b in at ensures b in here { UnclosedEarlier(s, b, g); }
      forall b | b in here - at ensures b in BlocksLeft(s, l, g) {
        if Unclosed(s.f, s.ins, b, l) { UnclosedEarlier(s, b, l); }
      }
      forall b | b in BlocksLeft(s, l, g) ensures b in here - at {}
      assert BlocksLeft(s, l, g) == here - at;
    }
  }

  lemma {:induction false} PopsSize(f: Format, n: nat)
    requires f.Valid()
    ensures |EncodeAll(f, Repeat(Op(f.popBlock, 0), n))| == PopBytes(f, n)
  {
    if n > 0 {
      var all := Repeat(Op(f.popBlock, 0), n);
      assert all[1..] == Repeat(Op(f.popBlock, 0), n - 1);
      PopsSize(f, n - 1);
    }
  }

  lemma JumpSize(f: Format, pops: nat, target: nat)
    requires f.Valid()
    ensures |EncodeAll(f, Jump(f, pops, target))|
         == PopBytes(f, pops) + |Encode(f, f.jumpAbsolute, target / f.jumpUnit)|
  {
    hide Encode, EncodeAll, PopBytes, Repeat;
    EncodeAllMore(f, Repeat(Op(f.popBlock, 0), pops), Op(f.jumpAbsolute, target / f.jumpUnit));
    PopsSize(f, pops);
  }

  /** Written instructions are whole units. */
  lemma {:induction false} EncodedUnits(f: Format, op: Byte, arg: nat) returns (n: nat)
    requires f.Valid() && op >= f.haveArgument
    ensures n > 0 && |Encode(f, op, arg)| == Behind(f, 0, n)
    decreases arg
  {
    hide Encode;
    EncodeParts(f, op, arg);
    if f.Shr(arg) == 0 {
      n := 1;
    } else {
      var m := EncodedUnits(f, f.extendedArg, f.Shr(arg));
      n := m + 1;
    }
  }

  lemma FitsIsSize(s: Listing, l: nat, g: nat)
    requires s.Valid() && l + 3 < |s.ins| && g + 3 < |s.ins|
    ensures Fits(s, l, g)
       <==> s.ins[g].offset + |EncodeAll(s.f, Jump(s.f, |BlocksLeft(s, l, g)|, s.ins[l + 3].offset))| <= s.ins[g + 3].offset
  {
    hide Encode, EncodeAll, Jump, BlocksLeft, PopBytes, Limit, Parse, Scan;
    var f, arg := s.f, s.ins[l + 3].offset / s.f.jumpUnit;
    JumpSize(f, |BlocksLeft(s, l, g)|, s.ins[l + 3].offset);
    var n := EncodedUnits(f, f.jumpAbsolute, arg);
    EncodedSize(f, f.jumpAbsolute, arg, n);
    if Fits(s, l, g) {
      var m: nat :| m > 0 && arg < Limit(f, m)
                    && s.ins[g].offset + PopBytes(f, |BlocksLeft(s, l, g)|) + Behind(f, 0, m) <= s.ins[g + 3].offset;
      EncodedSize(f, f.jumpAbsolute, arg, m);
    }
  }

  /** The dictionary holds the last label of each name. */
  lemma TargetListed(s: Listing, key: nat) returns (l: nat)
    requires s.Valid()
    ensures key !in s.found.labels <==> forall j: nat :: !LabelNamed(s, j, key)
    ensures key in s.found.labels ==>
              l + 3 < |s.ins| && Target(s, l, key) && s.found.labels[key] == LabelOf(s.f, s.ins, l)
  {
    hide Parse, Scan, IsLabel, LabelOf;
    l := 0;
    if key in s.found.labels {
      l := LabelFills(s, key);
      LiveIsLabel(s, l);
      LabelIsScanned(s, l);
      assert LabelNamed(s, l, key);
      ScanSucceeds(s, Scanned(s.ins));
      LastWins(s, Scanned(s.ins), key, l);
      forall j: nat | LabelNamed(s, j, key) ensures j <= l { LabelIsScanned(s, j); }
    }
    forall j: nat | LabelNamed(s, j, key) ensures key in s.found.labels {
      LabelIsScanned(s, j);
      ScanSucceeds(s, Scanned(s.ins));
      LabelListed(s, Scanned(s.ins), j);
    }
  }

  lemma LiveIsLabel(s: Listing, l: nat)
    requires s.LiveLabel(l)
    ensures IsLabel(s.f, s.names, s.ins, l) && Key(s.ins, l) in s.found.labels
    ensures s.found.labels[Key(s.ins, l)].start == s.ins[l].offset
  {
  }

  lemma LabelIsScanned(s: Listing, l: nat)
    requires IsLabel(s.f, s.names, s.ins, l)
    ensures l < Scanned(s.ins) && l + 3 < |s.ins|
  {
  }

  lemma {:induction false} LastWins(s: Listing, n: nat, key: nat, l: nat)
    requires s.Valid() && n <= Scanned(s.ins) && key in ScanOf(s, n).labels
    requires IsLabel(s.f, s.names, s.ins, l) && ScanOf(s, n).labels[key].start == s.ins[l].offset
    ensures forall j: nat :: j < n && LabelNamed(s, j, key) ==> j <= l
  {
    ScanSucceeds(s, n);
    ScanSucceeds(s, n - 1);
    if LabelNamed(s, n - 1, key) {
      if n - 1 < l { s.Increasing(n - 1, l); } else if l < n - 1 { s.Increasing(l, n - 1); }
    } else {
      LastWins(s, n - 1, key, l);
    }
  }

  lemma TargetUnique(s: Listing, l: nat, m: nat, key: nat)
    requires Target(s, l, key) && Target(s, m, key)
    ensures l == m
  {
  }

  /** One goto, without its plan. */
  lemma PlanIs(s: Listing, g: nat)
    requires s.Valid() && GotoHere(s, g)
    ensures g + 3 < |s.ins|
    ensures var plan := Plan(s.f, s.found, GotoOf(s.f, s.ins, g));
            && (plan.Success? <==> Accepts(s, g))
            && forall e: Error :: plan == Failure(e) <==> Wrong(s, g, e)
  {
    hide Parse, Scan, Target, StaysOpen, Fits, EncodeAll, LabelNamed, Stack, Sled, Jump;
    var key := Key(s.ins, g);
    var l := TargetListed(s, key);
    if key in s.found.labels {
      TargetIsLabel(s, l, key);
      BlocksCounted(s, l, g);
      FitsIsSize(s, l, g);
      StacksAre(s, l, g);
      forall m: nat | Target(s, m, key) ensures m == l { TargetUnique(s, l, m, key); }
    } else {
      forall l: nat ensures !Target(s, l, key) {
        if Target(s, l, key) { TargetIsLabel(s, l, key); }
      }
    }
  }

  lemma TargetIsLabel(s: Listing, l: nat, key: nat)
    requires Target(s, l, key)
    ensures LabelNamed(s, l, key) && l + 3 < |s.ins|
  {
  }

  lemma StacksAre(s: Listing, l: nat, g: nat)
    requires l + 3 < |s.ins| && g + 3 < |s.ins|
    ensures LabelOf(s.f, s.ins, l).blocks == Stack(s.f, s.ins, l) && LabelOf(s.f, s.ins, l).end == s.ins[l + 3].offset
    ensures var h := GotoOf(s.f, s.ins, g);
            h.blocks == Stack(s.f, s.ins, g) && h.start == s.ins[g].offset && h.end == s.ins[g + 3].offset
            && h.target == Key(s.ins, g)
  {
  }

  // ---------------------------------------------------------------- the whole code

  lemma GotoIsScanned(s: Listing, g: nat)
    requires GotoHere(s, g)
    ensures g < Scanned(s.ins) && g + 3 < |s.ins|
  {
  }

  lemma {:induction false} GotosGrow(s: Listing, m: nat, n: nat)
    requires s.Valid() && m <= n <= Scanned(s.ins)
    ensures ScanOf(s, m).gotos <= ScanOf(s, n).gotos
    decreases n
  {
    if m < n {
      ScanSucceeds(s, n);
      ScanSucceeds(s, n - 1);
      GotosGrow(s, m, n - 1);
    }
  }

  /** Of the gotos among the first `n` instructions the first that cannot be patched has error `e`. */
  ghost predicate FirstWrong(s: Listing, n: nat, e: Error)
    requires s.f.jumpUnit > 0
  {
    exists g: nat :: g < n && WrongHere(s, g, e) && AcceptsBefore(s, g)
  }

  ghost predicate WrongHere(s: Listing, g: nat, e: Error)
    requires s.f.jumpUnit > 0
  {
    GotoHere(s, g) && Wrong(s, g, e)
  }

  ghost predicate AcceptsBefore(s: Listing, n: nat)
    requires s.f.jumpUnit > 0
  {
    forall g: nat :: g < n && GotoHere(s, g) ==> Accepts(s, g)
  }

  lemma AcceptsMore(s: Listing, n: nat)
    requires s.f.jumpUnit > 0
    ensures AcceptsBefore(s, n + 1) <==> AcceptsBefore(s, n) && (GotoHere(s, n) ==> Accepts(s, n))
  {
    hide Accepts;
    if AcceptsBefore(s, n) && (GotoHere(s, n) ==> Accepts(s, n)) {
      forall g: nat | g < n + 1 && GotoHere(s, g) ensures Accepts(s, g) {
        if g < n { assert Accepts(s, g); }
      }
    }
  }

  lemma WrongMore(s: Listing, n: nat, e: Error)
    requires s.Valid()
    ensures FirstWrong(s, n + 1, e) <==> FirstWrong(s, n, e) || (WrongHere(s, n, e) && AcceptsBefore(s, n))
  {
    hide WrongHere, AcceptsBefore;
  }

  /** A goto that is wrong stops the acceptance there. */
  lemma WrongIsNotAccepted(s: Listing, n: nat, e: Error)
    requires s.Valid() && FirstWrong(s, n, e)
    ensures !AcceptsBefore(s, n)
  {
    hide Accepts, Wrong, Plan;
    var g: nat :| g < n && WrongHere(s, g, e) && AcceptsBefore(s, g);
    PlanIs(s, g);
  }

  lemma {:induction false} FirstErrorIs(s: Listing, n: nat)
    requires s.Valid() && n <= Scanned(s.ins)
    ensures |ScanOf(s, n).gotos| <= |s.found.gotos|
    ensures var first := FirstError(s.f, s.found, |ScanOf(s, n).gotos|);
            && (first == None <==> AcceptsBefore(s, n))
            && forall e: Error :: first == Some(e) <==> FirstWrong(s, n, e)
    decreases n
  {
    hide Parse, Plan, Accepts, Wrong, FirstWrong, AcceptsBefore, GotoHere, WrongHere;
    GotosGrow(s, n, Scanned(s.ins));
    ScanSucceeds(s, Scanned(s.ins));
    if n == 0 {
      NothingWrong(s);
    } else {
      FirstErrorIs(s, n - 1);
      AcceptsMore(s, n - 1);
      forall e: Error
        ensures FirstWrong(s, n, e) <==> FirstWrong(s, n - 1, e) || (WrongHere(s, n - 1, e) && AcceptsBefore(s, n - 1))
        ensures FirstWrong(s, n - 1, e) ==> !AcceptsBefore(s, n - 1)
      {
        WrongMore(s, n - 1, e);
        if FirstWrong(s, n - 1, e) { WrongIsNotAccepted(s, n - 1, e); }
      }
      ScanOneMore(s, n);
      if GotoHere(s, n - 1) { PlanIs(s, n - 1); }
      WrongIsHere(s, n - 1);
      NextError(s.f, s.found, |ScanOf(s, n).gotos|);
    }
  }

  lemma WrongIsHere(s: Listing, g: nat)
    requires s.f.jumpUnit > 0
    ensures forall e: Error :: WrongHere(s, g, e) <==> GotoHere(s, g) && g + 3 < |s.ins| && Wrong(s, g, e)
  {
    hide Wrong;
  }

  lemma NextError(f: Format, found: Found, n: nat)
    requires f.jumpUnit > 0 && n <= |found.gotos|
    ensures n > 0 ==>
              FirstError(f, found, n)
              == if FirstError(f, found, n - 1).Some? then FirstError(f, found, n - 1)
                 else var plan := Plan(f, found, found.gotos[n - 1]); if plan.Failure? then Some(plan.error) else None
  {
    hide Plan;
  }

  lemma NothingWrong(s: Listing)
    requires s.Valid()
    ensures ScanOf(s, 0).gotos == [] && AcceptsBefore(s, 0) && forall e: Error :: !FirstWrong(s, 0, e)
  {
    ScanSucceeds(s, 0);
  }

  /** The list of gotos grows by the goto that leaves the window, if it is one. */
  lemma ScanOneMore(s: Listing, n: nat)
    requires s.Valid() && 0 < n <= Scanned(s.ins)
    ensures ScanOf(s, n).gotos
         == ScanOf(s, n - 1).gotos + if GotoHere(s, n - 1) then [GotoOf(s.f, s.ins, n - 1)] else []
    ensures ScanOf(s, n).gotos <= s.found.gotos
  {
    ScanSucceeds(s, n);
    ScanSucceeds(s, n - 1);
    ScanSucceeds(s, Scanned(s.ins));
    GotosGrow(s, n, Scanned(s.ins));
    LabelIsNoGoto(s, n - 1);
  }

  lemma LabelIsNoGoto(s: Listing, i: nat)
    ensures !(IsLabel(s.f, s.names, s.ins, i) && GotoHere(s, i))
  {
    assert "label" != "goto" by { assert |"label"| == 5 && |"goto"| == 4; }
  }

  /** A code string whose sites have known names is patched exactly if every goto in it is accepted: some label has its name,
      every block instance open at the last such label is still open at the goto, and the site has room for a POP_BLOCK a
      block left and the jump. Otherwise the first goto that is not accepted gives the error, and which one says what is
      missing. */
  lemma AcceptedIff(s: Listing, r: Result<seq<Byte>, Error>)
    requires s.Valid() && Outcome(s.f, s.names, s.code, r)
    ensures r.Success? <==> forall g: nat :: GotoHere(s, g) ==> Accepts(s, g)
    ensures forall e: Error :: r == Failure(e) <==> FirstWrong(s, |s.ins|, e)
  {
    hide Parse, Scan, FirstError, Accepts, Wrong, FirstWrong, Listing.Patched, GotoHere, WrongHere;
    FirstErrorIs(s, Scanned(s.ins));
    ScanSucceeds(s, Scanned(s.ins));
    forall g: nat | GotoHere(s, g) ensures g < Scanned(s.ins) && g + 3 < |s.ins| { GotoIsScanned(s, g); }
    forall e: Error ensures FirstWrong(s, |s.ins|, e) <==> FirstWrong(s, Scanned(s.ins), e) { AllScanned(s, e); }
    OutcomeIs(s, r);
  }

  lemma AllScanned(s: Listing, e: Error)
    requires s.Valid()
    ensures FirstWrong(s, |s.ins|, e) <==> FirstWrong(s, Scanned(s.ins), e)
  {
    hide Parse, Scan, Wrong, AcceptsBefore;
  }

  lemma OutcomeIs(s: Listing, r: Result<seq<Byte>, Error>)
    requires s.Valid() && Outcome(s.f, s.names, s.code, r)
    ensures var first := FirstError(s.f, s.found, |s.found.gotos|);
            if first.Some? then r == Failure(first.value) else r.Success?
  {
    hide Parse, Scan, FirstError, Listing.Patched;
  }

  /** A code string that can be scanned: it is a list of instructions, and the name in front of every attribute that is loaded
      and dropped is known. */
  ghost predicate Scannable(f: Format, names: seq<string>, code: seq<Byte>) {
    exists ins: seq<Instr> ::
      Listed(f, code, 0, ins) && forall i: nat :: IsSite(f, ins, i) ==> NameKnown(names, ins, i)
  }

  /** Every other code string is malformed. */
  lemma MalformedIff(f: Format, names: seq<string>, code: seq<Byte>, r: Result<seq<Byte>, Error>)
    requires f.Valid() && f.DistinctOpcodes() && Outcome(f, names, code, r)
    ensures r == Failure(Malformed) <==> !Scannable(f, names, code)
  {
    hide Parse, Scan, Listed, FirstWrong, Listing.Patched, FirstError;
    var parsed := Parse(f, code, 0);
    forall ins: seq<Instr> ensures parsed == Success(ins) <==> Listed(f, code, 0, ins) { ParseReads(f, code, 0, ins); }
    if parsed.Success? {
      var ins := parsed.value;
      ScanKnown(f, names, ins, Scanned(ins));
      assert (forall i: nat :: i < Scanned(ins) && IsSite(f, ins, i) ==> NameKnown(names, ins, i))
        <==> forall i: nat :: IsSite(f, ins, i) ==> NameKnown(names, ins, i);
      var scan := Scan(f, names, ins, Scanned(ins));
      if scan.Success? {
        var s := Listing(f, names, code, ins, scan.value);
        AcceptedIff(s, r);
        NeverMalformed(s);
      }
    } else {
      ParseFails(f, code, 0);
    }
  }

  lemma NeverMalformed(s: Listing)
    requires s.Valid()
    ensures !FirstWrong(s, |s.ins|, Malformed)
  {
  }

  lemma {:induction false} ParseFails(f: Format, code: seq<Byte>, pos: nat)
    ensures Parse(f, code, pos).Failure? ==> Parse(f, code, pos) == Failure(Malformed)
    decreases |code| - pos
  {
    hide Fetch;
    var r := Fetch(f, code, pos, 0);
    if r.Got? { ParseFails(f, code, r.next); }
  }

  /** The gotos whose rewriting `GotoRewrite` and `GotoRun` describe are those of accepted code strings. */
  lemma PatchableIff(s: Listing)
    requires s.Valid()
    ensures Patchable(s) <==> forall g: nat :: GotoHere(s, g) ==> Accepts(s, g)
  {
    hide Parse, Scan, FirstError, Accepts, Wrong, FirstWrong, GotoHere;
    FirstErrorIs(s, Scanned(s.ins));
    ScanSucceeds(s, Scanned(s.ins));
    forall g: nat | GotoHere(s, g) ensures g < Scanned(s.ins) && g + 3 < |s.ins| { GotoIsScanned(s, g); }
  }
}
