/** What the text of `main` means to Python: the step tree itself. */
module GeneratorMeaning {
  import opened Strings
  import opened Wrappers
  import opened Indentation
  import opened Generator

  // ---------------------------------------------------------------- conditions as nested headers

  /** The header of a condition that writes one. */
  function Header(ctx: Context, c: Condition): string {
    match c
    case Las(_, id) => "if(Evaluate('" + LasExpression(ctx.locals, id.GetOr(""), "") + "')):"
    case Programtic(_, at, expression) => Prefix(at) + ExpressionTest(expression) + "):"
    case Previous(_, at, value) => Prefix(at) + PreviousTest(value) + "):"
    case Unknown(_) => ""
  }

  predicate WritesHeader(c: Condition) {
    match c
    case Las(_, id) => id.Some?
    case Programtic(_, at, _) => at != Always
    case Previous(_, at, _) => at != Always
    case Unknown(_) => false
  }

  /** The order in which the texts of the three kinds are put together. */
  function Rank(c: Condition): nat {
    match c
    case Las(_, _) => 0
    case Previous(_, _, _) => 1
    case Programtic(_, _, _) => 2
    case Unknown(_) => 3
  }

  function Active(cs: seq<Condition>): seq<Condition> {
    if cs == [] then [] else Active(cs[..|cs| - 1]) + (if cs[|cs| - 1].active then [cs[|cs| - 1]] else [])
  }

  /** The active conditions come in the order LAS, previous result, programmatic, at most one each, and all write a
      header. */
  predicate Canonical(cs: seq<Condition>) {
    var a := Active(cs);
    && (forall i :: 0 <= i < |a| ==> WritesHeader(a[i]))
    && (forall i, j :: 0 <= i < j < |a| ==> Rank(a[i]) < Rank(a[j]))
  }

  function HeaderLines(hs: seq<string>, d: nat): seq<Line> {
    seq(|hs|, i requires 0 <= i < |hs| => Line(d + i, hs[i]))
  }

  /** Only active conditions count. */
  lemma {:induction false} ConditionsActive(ctx: Context, t: Texts, cs: seq<Condition>)
    ensures Conditions(ctx, t, cs) == Conditions(ctx, t, Active(cs))
    ensures forall i :: 0 <= i < |Active(cs)| ==> Active(cs)[i].active
    decreases |cs|
  {
    if cs != [] {
      var init, last := cs[..|cs| - 1], cs[|cs| - 1];
      ConditionsActive(ctx, t, init);
      if last.active {
        assert (Active(init) + [last])[..|Active(init)|] == Active(init);
      } else {
        assert Active(init) + [] == Active(init);
      }
    }
  }

  /** The text that the last condition of a rank leaves, if there is one. */
  function Slot(ctx: Context, a: seq<Condition>, d: nat, rank: nat): string {
    if a == [] then ""
    else if Rank(a[|a| - 1]) == rank then LineText(Line(d + |a| - 1, Header(ctx, a[|a| - 1])))
    else Slot(ctx, a[..|a| - 1], d, rank)
  }

  predicate Ordered(a: seq<Condition>) {
    && (forall i :: 0 <= i < |a| ==> a[i].active && WritesHeader(a[i]))
    && (forall i, j :: 0 <= i < j < |a| ==> Rank(a[i]) < Rank(a[j]))
  }

  lemma {:induction false} SlotEmpty(ctx: Context, a: seq<Condition>, d: nat, rank: nat)
    requires forall i :: 0 <= i < |a| ==> Rank(a[i]) != rank
    ensures Slot(ctx, a, d, rank) == ""
    decreases |a|
  {
    if a != [] {
      SlotEmpty(ctx, a[..|a| - 1], d, rank);
    }
  }

  lemma {:induction false} SlotsFilled(ctx: Context, a: seq<Condition>, d: nat)
    requires Ordered(a)
    ensures Conditions(ctx, Texts("", "", "", d), a)
         == Texts(Slot(ctx, a, d, 0), Slot(ctx, a, d, 1), Slot(ctx, a, d, 2), d + |a|)
    decreases |a|
  {
    hide OneCondition, LineText, Header;
    if a != [] {
      var init, last := a[..|a| - 1], a[|a| - 1];
      SlotsFilled(ctx, init, d);
      SlotEmpty(ctx, init, d, Rank(last));
      OneHeader(ctx, Conditions(ctx, Texts("", "", "", d), init), last);
    }
  }

  lemma OneHeader(ctx: Context, t: Texts, c: Condition)
    requires c.active && WritesHeader(c) && (c.Las? ==> t.las == "")
    ensures var text := LineText(Line(t.spaceNum, Header(ctx, c)));
            OneCondition(ctx, t, c)
            == Texts(if Rank(c) == 0 then text else t.las, if Rank(c) == 1 then text else t.previous,
                     if Rank(c) == 2 then text else t.expression, t.spaceNum + 1)
  {
    hide LineText, LasExpression, Prefix, ExpressionTest, PreviousTest;
  }

  function HeadersOf(ctx: Context, a: seq<Condition>): seq<string> {
    seq(|a|, i requires 0 <= i < |a| => Header(ctx, a[i]))
  }

  lemma SlotLast(ctx: Context, a: seq<Condition>, d: nat, rank: nat)
    requires a != []
    ensures var last := a[|a| - 1];
            Slot(ctx, a, d, rank)
            == if Rank(last) == rank then LineText(Line(d + |a| - 1, Header(ctx, last)))
               else Slot(ctx, a[..|a| - 1], d, rank)
  {
  }

  lemma {:induction false} SlotsInOrder(ctx: Context, a: seq<Condition>, d: nat)
    requires Ordered(a)
    ensures Slot(ctx, a, d, 0) + Slot(ctx, a, d, 1) + Slot(ctx, a, d, 2) == Render(HeaderLines(HeadersOf(ctx, a), d))
    decreases |a|
  {
    hide LineText, Header, Slot, Render, HeadersOf, HeaderLines;
    if a == [] {
      NoHeaders(ctx, d);
      SlotEmpty(ctx, a, d, 0);
      SlotEmpty(ctx, a, d, 1);
      SlotEmpty(ctx, a, d, 2);
    } else {
      var init, last := a[..|a| - 1], a[|a| - 1];
      SlotsInOrder(ctx, init, d);
      HeaderMore(ctx, a, d);
      SlotLast(ctx, a, d, 0);
      SlotLast(ctx, a, d, 1);
      SlotLast(ctx, a, d, 2);
      SlotEmpty(ctx, init, d, Rank(last));
      if Rank(last) <= 1 { SlotEmpty(ctx, init, d, 2); }
      if Rank(last) == 0 { SlotEmpty(ctx, init, d, 1); }
    }
  }

  lemma NoHeaders(ctx: Context, d: nat)
    ensures Render(HeaderLines(HeadersOf(ctx, []), d)) == ""
  {
  }

  lemma HeaderMore(ctx: Context, a: seq<Condition>, d: nat)
    requires a != []
    ensures var init, last := a[..|a| - 1], a[|a| - 1];
            Render(HeaderLines(HeadersOf(ctx, a), d))
            == Render(HeaderLines(HeadersOf(ctx, init), d)) + LineText(Line(d + |init|, Header(ctx, last)))
  {
    hide LineText, Header;
    var init, last := a[..|a| - 1], a[|a| - 1];
    var line := Line(d + |init|, Header(ctx, last));
    assert HeaderLines(HeadersOf(ctx, a), d) == HeaderLines(HeadersOf(ctx, init), d) + [line];
    RenderJoin(HeaderLines(HeadersOf(ctx, init), d), [line]);
    RenderOne(line);
  }

  lemma {:induction false} ActiveAreActive(cs: seq<Condition>)
    ensures forall i :: 0 <= i < |Active(cs)| ==> Active(cs)[i].active
    decreases |cs|
  {
    if cs != [] { ActiveAreActive(cs[..|cs| - 1]); }
  }

  function Headers(ctx: Context, cs: seq<Condition>): seq<string> {
    HeadersOf(ctx, Active(cs))
  }

  /** In canonical order the texts put together are one header per active condition, each one tab further in. */
  lemma CanonicalText(ctx: Context, cs: seq<Condition>, d: nat)
    requires Canonical(cs)
    ensures var t, hs := ConditionTexts(ctx, cs, d), Headers(ctx, cs);
            t.spaceNum == d + |hs| && HeaderText(t) == Render(HeaderLines(hs, d))
  {
    ConditionsActive(ctx, Texts("", "", "", d), cs);
    ActiveAreActive(cs);
    SlotsFilled(ctx, Active(cs), d);
    SlotsInOrder(ctx, Active(cs), d);
  }

  // ---------------------------------------------------------------- the step tree as a program

  /** The conditions of a step, the first outermost, around a body. */
  function Nest(hs: seq<string>, body: seq<Stmt>): seq<Stmt> {
    if hs == [] then body else [Compound(hs[0], Nest(hs[1..], body))]
  }

  /** The program a step list stands for: each active step runs its own statements and then its children, all of them under
      its conditions; inactive steps are left out with everything below them. */
  function Program(ctx: Context, steps: seq<Step>, d: Dict): (seq<Stmt>, Dict)
    decreases steps
  {
    if steps == [] then ([], d)
    else if !steps[0].active then Program(ctx, steps[1..], d)
    else
      var first := ProgramOf(ctx, steps[0], d);
      var rest := Program(ctx, steps[1..], first.1);
      (first.0 + rest.0, rest.1)
  }

  function ProgramOf(ctx: Context, s: Step, d: Dict): (seq<Stmt>, Dict)
    decreases s
  {
    var kids := Program(ctx, s.steps, OwnDict(s, d));
    (Nest(Headers(ctx, s.conditions), Own(ctx, d, s) + kids.0), kids.1)
  }

  predicate AllCanonical(steps: seq<Step>)
    decreases steps
  {
    forall s :: s in steps && s.active ==> Canonical(s.conditions) && AllCanonical(s.steps)
  }

  lemma {:induction false} NestLines(hs: seq<string>, body: seq<Stmt>, d: nat)
    ensures Lines(Nest(hs, body), d) == HeaderLines(hs, d) + Lines(body, d + |hs|)
    decreases |hs|
  {
    if hs == [] {
      assert HeaderLines(hs, d) == [];
      assert [] + Lines(body, d) == Lines(body, d);
    } else {
      NestLines(hs[1..], body, d + 1);
      assert HeaderLines(hs, d) == [Line(d, hs[0])] + HeaderLines(hs[1..], d + 1);
      var c := Compound(hs[0], Nest(hs[1..], body));
      assert Lines([c], d) == LinesOf(c, d) + [];
    }
  }

  /** The generator writes exactly the program, one tab per level. */
  lemma {:induction false} TextIsProgram(ctx: Context, steps: seq<Step>, spaceNum: nat, d: Dict)
    requires AllCanonical(steps)
    ensures StepsText(ctx, steps, spaceNum, d)
         == (Render(Lines(Program(ctx, steps, d).0, spaceNum)), Program(ctx, steps, d).1)
    decreases steps
  {
    if steps != [] {
      var rest := steps[1..];
      assert forall s :: s in rest ==> s in steps;
      if steps[0].active {
        StepIsProgram(ctx, steps[0], spaceNum, d);
        var first := ProgramOf(ctx, steps[0], d);
        TextIsProgram(ctx, rest, spaceNum, first.1);
        ProgramJoin(first.0, Program(ctx, rest, first.1).0, spaceNum);
      } else {
        TextIsProgram(ctx, rest, spaceNum, d);
      }
    }
  }

  lemma ProgramJoin(a: seq<Stmt>, b: seq<Stmt>, d: nat)
    ensures Render(Lines(a + b, d)) == Render(Lines(a, d)) + Render(Lines(b, d))
  {
    LinesJoin(a, b, d);
    RenderJoin(Lines(a, d), Lines(b, d));
  }

  lemma {:induction false} StepIsProgram(ctx: Context, s: Step, spaceNum: nat, d: Dict)
    requires Canonical(s.conditions) && AllCanonical(s.steps)
    ensures StepText(ctx, s, spaceNum, d)
         == (Render(Lines(ProgramOf(ctx, s, d).0, spaceNum)), ProgramOf(ctx, s, d).1)
    decreases s
  {
    hide Own, OwnDict, ConditionTexts, HeaderText, Headers, HeaderLines, Canonical, Render, Lines;
    var hs, own := Headers(ctx, s.conditions), Own(ctx, d, s);
    var inner := spaceNum + |hs|;
    var kids := Program(ctx, s.steps, OwnDict(s, d)).0;
    CanonicalText(ctx, s.conditions, spaceNum);
    TextIsProgram(ctx, s.steps, inner, OwnDict(s, d));
    NestLines(hs, own + kids, spaceNum);
    RenderJoin(HeaderLines(hs, spaceNum), Lines(own + kids, inner));
    ProgramJoin(own, kids, inner);
    Associative(Render(HeaderLines(hs, spaceNum)), Render(Lines(own, inner)), Render(Lines(kids, inner)));
  }

  // ---------------------------------------------------------------- the text is read back as the program

  /** What the XML must provide for the text to be a program: no line break inside a line, an existing procedure behind
      every procedure call, and at least one line under every condition. */
  predicate Fits(ctx: Context, steps: seq<Step>, d: Dict)
    decreases steps
  {
    steps == [] ||
    (if !steps[0].active then Fits(ctx, steps[1..], d)
     else FitsOne(ctx, steps[0], d) && Fits(ctx, steps[1..], ProgramOf(ctx, steps[0], d).1))
  }

  predicate FitsOne(ctx: Context, s: Step, d: Dict)
    decreases s
  {
    && Canonical(s.conditions) && AllCanonical(s.steps) && Fits(ctx, s.steps, OwnDict(s, d))
    && (forall i :: 0 <= i < |Headers(ctx, s.conditions)| ==> Unbroken(Headers(ctx, s.conditions)[i]))
    && (Active(s.conditions) != [] ==> Own(ctx, d, s) + Program(ctx, s.steps, OwnDict(s, d)).0 != [])
    && OwnFits(ctx, d, s)
  }

  predicate OwnFits(ctx: Context, d: Dict, s: Step) {
    && Unbroken(CallText(ctx, d, s, s.variables.GetOr([])))
    && Unbroken(CallText(ctx, CallDict(s, d), s, s.variables.GetOr([])))
    && (s.variables.Some? && CallsProcedure(s) ==>
          ProcedureText(ctx, s.variables.value) != "" && Unbroken(ProcedureText(ctx, s.variables.value)))
    && (s.assessment.Some? ==> Unbroken(s.assessment.value.programatic))
  }

  lemma HeaderWellFormed(ctx: Context, c: Condition)
    requires WritesHeader(c) && Unbroken(Header(ctx, c))
    ensures Plain(Header(ctx, c)) && OpensBlock(Header(ctx, c))
  {
    var h := Header(ctx, c);
    assert h[0] == 'i' || h[0] == 'w';
    assert h[|h| - 1] == ':';
  }

  lemma CallWellFormed(ctx: Context, d: Dict, s: Step, vs: seq<Variable>)
    requires Unbroken(CallText(ctx, d, s, vs))
    ensures WellFormed(Simple(CallText(ctx, d, s, vs)))
  {
    var t := CallText(ctx, d, s, vs);
    assert t[0] == '[' && t[|t| - 1] == ')';
  }

  lemma ProcedureWellFormed(ctx: Context, vs: seq<Variable>)
    requires ProcedureText(ctx, vs) != "" && Unbroken(ProcedureText(ctx, vs))
    ensures WellFormed(Simple(ProcedureText(ctx, vs)))
  {
    var t := ProcedureText(ctx, vs);
    assert t[0] == 'o' && t[|t| - 1] == ')';
  }

  lemma RepeatWellFormed(a: Assessment)
    requires Unbroken(a.programatic)
    ensures Plain(RepeatHeader(a)) && OpensBlock(RepeatHeader(a))
  {
    var h := RepeatHeader(a);
    assert h[0] == 'w' && h[|h| - 1] == ':';
  }

  lemma CancelWellFormed()
    ensures Plain(CancelHeader()) && OpensBlock(CancelHeader())
  {
    TwoParts("if(StpResult==StepResult.Ok or ", "StpResult==StepResult.Nok):");
  }

  lemma TerminateWellFormed()
    ensures Plain(TerminateHeader()) && OpensBlock(TerminateHeader())
  {
    TwoParts("if(StpResult==StepResult.Ok or ", "StpResult==StepResult.Abort):");
  }

  lemma TwoParts(a: string, b: string)
    requires Plain(a) && Unbroken(b) && OpensBlock(b)
    ensures Plain(a + b) && OpensBlock(a + b)
  {
    assert (a + b)[0] == a[0] && (a + b)[|a + b| - 1] == b[|b| - 1];
  }

  lemma ShortWellFormed()
    ensures WellFormed(Simple("return StpResult")) && WellFormed(Simple("exit()"))
  {
  }

  lemma BlockWellFormed(header: string, s: Stmt)
    requires Plain(header) && OpensBlock(header) && WellFormed(s)
    ensures AllWellFormed([Compound(header, [s])])
  {
    assert WellFormed(Compound(header, [s]));
  }

  lemma AssessmentWellFormed(a: Assessment, again: string)
    requires Unbroken(a.programatic) && WellFormed(Simple(again))
    ensures AllWellFormed(AssessmentStmts(a, again))
  {
    hide WellFormed, CancelHeader, RepeatHeader, TerminateHeader, Plain, OpensBlock, Unbroken;
    RepeatWellFormed(a);
    CancelWellFormed();
    TerminateWellFormed();
    ShortWellFormed();
    BlockWellFormed(CancelHeader(), Simple("return StpResult"));
    BlockWellFormed(RepeatHeader(a), Simple(again));
    BlockWellFormed(TerminateHeader(), Simple("exit()"));
  }

  /** An assessment has one action, so at most one block. */
  function OneAction(a: Assessment, again: string): seq<Stmt> {
    if a.action == "Cancel" && a.atOk && a.atNok then [Compound(CancelHeader(), [Simple("return StpResult")])]
    else if Repeats(a) then [Compound(RepeatHeader(a), [Simple(again)])]
    else if a.action == "Terminate" && a.atOk && a.atAbort then [Compound(TerminateHeader(), [Simple("exit()")])]
    else []
  }

  lemma ActionsDiffer(a: Assessment)
    ensures a.action == "Cancel" ==> a.action != "Repeat" && a.action != "Terminate"
    ensures a.action == "Repeat" ==> a.action != "Terminate"
  {
    assert "Cancel"[0] == 'C' && "Repeat"[0] == 'R' && "Terminate"[0] == 'T';
  }

  lemma ActionIs(a: Assessment, again: string)
    ensures AssessmentStmts(a, again) == OneAction(a, again)
  {
    hide CancelHeader, TerminateHeader, RepeatHeader;
    ActionsDiffer(a);
  }

  lemma OwnWellFormed(ctx: Context, d: Dict, s: Step)
    requires OwnFits(ctx, d, s)
    ensures AllWellFormed(Own(ctx, d, s))
  {
    hide WellFormed, CallText, ProcedureText, AssessmentStmts;
    CallWellFormed(ctx, d, s, s.variables.GetOr([]));
    CallWellFormed(ctx, CallDict(s, d), s, s.variables.GetOr([]));
    if s.variables.Some? && CallsProcedure(s) {
      ProcedureWellFormed(ctx, s.variables.value);
    }
    if s.assessment.Some? {
      AssessmentWellFormed(s.assessment.value, CallText(ctx, CallDict(s, d), s, s.variables.GetOr([])));
    }
  }

  lemma {:induction false} NestWellFormed(hs: seq<string>, body: seq<Stmt>)
    requires AllWellFormed(body) && (hs != [] ==> body != [])
    requires forall i :: 0 <= i < |hs| ==> Plain(hs[i]) && OpensBlock(hs[i])
    ensures AllWellFormed(Nest(hs, body))
    decreases |hs|
  {
    hide Plain, OpensBlock;
    if hs != [] {
      NestWellFormed(hs[1..], body);
      assert forall b :: b in Nest(hs[1..], body) ==> WellFormed(b);
      assert WellFormed(Compound(hs[0], Nest(hs[1..], body)));
    }
  }

  lemma JoinWellFormed(a: seq<Stmt>, b: seq<Stmt>)
    requires AllWellFormed(a) && AllWellFormed(b)
    ensures AllWellFormed(a + b)
  {
    hide WellFormed;
  }

  lemma {:induction false} ProgramWellFormed(ctx: Context, steps: seq<Step>, d: Dict)
    requires Fits(ctx, steps, d)
    ensures AllWellFormed(Program(ctx, steps, d).0)
    decreases steps
  {
    hide AllWellFormed, FitsOne, ProgramOf;
    if steps == [] {
      NothingWellFormed();
    } else if steps[0].active {
      StepWellFormed(ctx, steps[0], d);
      var first := ProgramOf(ctx, steps[0], d);
      ProgramWellFormed(ctx, steps[1..], first.1);
      JoinWellFormed(first.0, Program(ctx, steps[1..], first.1).0);
    } else {
      ProgramWellFormed(ctx, steps[1..], d);
    }
  }

  lemma NothingWellFormed()
    ensures AllWellFormed([])
  {
  }

  lemma {:induction false} StepWellFormed(ctx: Context, s: Step, d: Dict)
    requires FitsOne(ctx, s, d)
    ensures AllWellFormed(ProgramOf(ctx, s, d).0)
    decreases s
  {
    hide AllWellFormed, WellFormed, Own, Header, OwnFits, Unbroken, Plain, OpensBlock;
    var own, kids := Own(ctx, d, s), Program(ctx, s.steps, OwnDict(s, d)).0;
    OwnWellFormed(ctx, d, s);
    ProgramWellFormed(ctx, s.steps, OwnDict(s, d));
    JoinWellFormed(own, kids);
    var hs := Headers(ctx, s.conditions);
    forall i | 0 <= i < |hs| ensures Plain(hs[i]) && OpensBlock(hs[i]) {
      assert hs[i] == Header(ctx, Active(s.conditions)[i]);
      HeaderWellFormed(ctx, Active(s.conditions)[i]);
    }
    NestWellFormed(hs, own + kids);
  }

  function Begin(): seq<Stmt> {
    [Simple(SignalLine()), Simple(RecordLine())]
  }

  function Finish(): seq<Stmt> {
    [Simple(EndLine())]
  }

  /** The program of the whole `main`. */
  function MainProgram(ctx: Context, steps: seq<Step>, d: Dict): Stmt {
    Compound(MainHeader(), Begin() + Program(ctx, steps, d).0 + Finish())
  }

  lemma SignalWellFormed()
    ensures WellFormed(Simple(SignalLine()))
  {
    var a, b := "signal.signal(", "signal.SIGUSR1,SignalHandler)";
    assert Unbroken(a);
    assert Unbroken(b);
    assert (a + b)[0] == a[0] && (a + b)[|a + b| - 1] == b[|b| - 1] == ')';
  }

  lemma RecordWellFormed()
    ensures WellFormed(Simple(RecordLine()))
  {
  }

  lemma EndWellFormed()
    ensures WellFormed(Simple(EndLine()))
    ensures Plain(MainHeader()) && OpensBlock(MainHeader())
  {
  }

  lemma FixedWellFormed()
    ensures AllWellFormed(Begin()) && AllWellFormed(Finish())
  {
    hide WellFormed, SignalLine, RecordLine, EndLine;
    SignalWellFormed();
    RecordWellFormed();
    EndWellFormed();
  }

  lemma FixedText()
    ensures Render(Lines(Begin(), 1)) == "\t" + SignalLine() + "\n" + "\t" + RecordLine() + "\n"
    ensures Render(Lines(Finish(), 1)) == "\t" + EndLine() + "\n"
  {
    hide SignalLine, RecordLine, EndLine, Render, Lines, LineText;
    OneLine(SignalLine(), 1);
    OneLine(RecordLine(), 1);
    OneLine(EndLine(), 1);
    ProgramJoin([Simple(SignalLine())], [Simple(RecordLine())], 1);
    assert Begin() == [Simple(SignalLine())] + [Simple(RecordLine())];
    Associative("\t" + SignalLine() + "\n", "\t" + RecordLine(), "\n");
    Associative("\t" + SignalLine() + "\n", "\t", RecordLine());
  }

  lemma MainWellFormed(ctx: Context, steps: seq<Step>, d: Dict)
    requires Fits(ctx, steps, d)
    ensures AllWellFormed([MainProgram(ctx, steps, d)])
  {
    hide Program, Fits, Plain, OpensBlock, MainHeader;
    var middle := Program(ctx, steps, d).0;
    ProgramWellFormed(ctx, steps, d);
    FixedWellFormed();
    EndWellFormed();
    JoinWellFormed(Begin(), middle);
    JoinWellFormed(Begin() + middle, Finish());
    var body := Begin() + middle + Finish();
    assert forall b :: b in body ==> WellFormed(b);
    assert WellFormed(MainProgram(ctx, steps, d));
  }

  lemma MainTextIsProgram(ctx: Context, steps: seq<Step>, d: Dict)
    requires AllCanonical(steps)
    ensures MainText(ctx, steps, d) == Render(Lines([MainProgram(ctx, steps, d)], 0))
  {
    hide Program, StepsText, AllCanonical, Render, Lines, MainHeader, SignalLine, RecordLine, EndLine, Begin, Finish;
    var middle := Program(ctx, steps, d).0;
    TextIsProgram(ctx, steps, 1, d);
    ProgramJoin(Begin(), middle, 1);
    ProgramJoin(Begin() + middle, Finish(), 1);
    FixedText();
    BlockText(MainHeader(), Begin() + middle + Finish(), 0);
    OneLine(MainHeader(), 0);
    Regroup(MainHeader() + "\n", "\t" + SignalLine() + "\n", "\t" + RecordLine() + "\n",
            Render(Lines(middle, 1)), "\t" + EndLine() + "\n");
  }

  lemma Regroup(a: string, b: string, c: string, m: string, e: string)
    ensures a + b + c + m + e == a + (b + c + m + e)
  {
  }

  /** Python reads the generated `main` as the step tree: the same statements in the same order, nested under the same
      conditions. */
  lemma MainMeansTree(ctx: Context, steps: seq<Step>, d: Dict)
    requires AllCanonical(steps) && Fits(ctx, steps, d)
    ensures ParseText(MainText(ctx, steps, d)) == Success([MainProgram(ctx, steps, d)])
  {
    hide MainText, MainProgram, AllWellFormed, ParseText;
    MainTextIsProgram(ctx, steps, d);
    MainWellFormed(ctx, steps, d);
    TextParsed([MainProgram(ctx, steps, d)]);
  }

  // ---------------------------------------------------------------- the same as a walk

  /** A statement, and the headers of the blocks it stands in, outermost first. */
  datatype Visit = Visit(under: seq<string>, text: string)

  function Visits(stmts: seq<Stmt>, under: seq<string>): seq<Visit> {
    if stmts == [] then []
    else
      (match stmts[0]
       case Simple(text) => [Visit(under, text)]
       case Compound(header, body) => Visits(body, under + [header]))
      + Visits(stmts[1..], under)
  }

  /** A direct preorder walk of the active steps. */
  function Walk(ctx: Context, steps: seq<Step>, under: seq<string>, d: Dict): (seq<Visit>, Dict)
    decreases steps
  {
    if steps == [] then ([], d)
    else if !steps[0].active then Walk(ctx, steps[1..], under, d)
    else
      var first := WalkOne(ctx, steps[0], under, d);
      var rest := Walk(ctx, steps[1..], under, first.1);
      (first.0 + rest.0, rest.1)
  }

  function WalkOne(ctx: Context, s: Step, under: seq<string>, d: Dict): (seq<Visit>, Dict)
    decreases s
  {
    var inner := under + Headers(ctx, s.conditions);
    var kids := Walk(ctx, s.steps, inner, OwnDict(s, d));
    (Visits(Own(ctx, d, s), inner) + kids.0, kids.1)
  }

  lemma {:induction false} VisitsJoin(a: seq<Stmt>, b: seq<Stmt>, under: seq<string>)
    ensures Visits(a + b, under) == Visits(a, under) + Visits(b, under)
    decreases |a|
  {
    if a == [] {
      assert [] + b == b;
    } else {
      assert (a + b)[1..] == a[1..] + b;
      VisitsJoin(a[1..], b, under);
    }
  }

  lemma VisitsBlock(header: string, body: seq<Stmt>, under: seq<string>)
    ensures Visits([Compound(header, body)], under) == Visits(body, under + [header])
  {
    assert [Compound(header, body)][1..] == [];
    assert Visits(body, under + [header]) + [] == Visits(body, under + [header]);
  }

  lemma {:induction false} VisitsNest(hs: seq<string>, body: seq<Stmt>, under: seq<string>)
    ensures Visits(Nest(hs, body), under) == Visits(body, under + hs)
    decreases |hs|
  {
    if hs == [] {
      assert under + hs == under;
    } else {
      VisitsNest(hs[1..], body, under + [hs[0]]);
      assert under + [hs[0]] + hs[1..] == under + hs;
      VisitsBlock(hs[0], Nest(hs[1..], body), under);
    }
  }

  /** The program visits what the walk visits. */
  lemma {:induction false} ProgramIsWalk(ctx: Context, steps: seq<Step>, under: seq<string>, d: Dict)
    ensures (Visits(Program(ctx, steps, d).0, under), Program(ctx, steps, d).1) == Walk(ctx, steps, under, d)
    decreases steps
  {
    if steps != [] {
      if steps[0].active {
        StepIsWalk(ctx, steps[0], under, d);
        var first := ProgramOf(ctx, steps[0], d);
        ProgramIsWalk(ctx, steps[1..], under, first.1);
        VisitsJoin(first.0, Program(ctx, steps[1..], first.1).0, under);
      } else {
        ProgramIsWalk(ctx, steps[1..], under, d);
      }
    }
  }

  lemma {:induction false} StepIsWalk(ctx: Context, s: Step, under: seq<string>, d: Dict)
    ensures (Visits(ProgramOf(ctx, s, d).0, under), ProgramOf(ctx, s, d).1) == WalkOne(ctx, s, under, d)
    decreases s
  {
    hide Own, OwnDict, Headers;
    var hs := Headers(ctx, s.conditions);
    var kids := Program(ctx, s.steps, OwnDict(s, d));
    VisitsNest(hs, Own(ctx, d, s) + kids.0, under);
    VisitsJoin(Own(ctx, d, s), kids.0, under + hs);
    ProgramIsWalk(ctx, s.steps, under + hs, OwnDict(s, d));
  }
}
