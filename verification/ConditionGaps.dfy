/** Conditions that write no header although they count as an indentation: the generated `main` is no Python, or another
    program. */
module ConditionGaps {
  import opened Strings
  import opened Wrappers
  import opened Indentation
  import opened Generator
  import opened GeneratorMeaning
  import opened GeneratorWriter

  /** Two lines of a block, and a third that is indented further without a header in front of it. */
  lemma TooDeep(header: string, a: string, b: string, c: Line, rest: seq<Line>)
    requires OpensBlock(header) && !OpensBlock(a) && !OpensBlock(b) && c.indent > 1
    ensures ParseBlock([Line(0, header), Line(1, a), Line(1, b), c] + rest, 0) == Failure(IndentationError)
  {
    var lines := [Line(0, header), Line(1, a), Line(1, b), c] + rest;
    var third := lines[3..];
    assert third[0] == c && ParseBlock(third, 1) == Failure(IndentationError);
    assert lines[2..][1..] == third && lines[2..][0] == Line(1, b);
    assert ParseBlock(lines[2..], 1) == Failure(IndentationError);
    assert lines[1..][1..] == lines[2..] && lines[1..][0] == Line(1, a);
    assert ParseBlock(lines[1..], 1) == Failure(IndentationError);
  }

  lemma FirstStep(ctx: Context, steps: seq<Step>, d: Dict) returns (rest: string)
    requires steps != [] && steps[0].active
    requires var t := ConditionTexts(ctx, steps[0].conditions, 1);
             HeaderText(t) == "" && Own(ctx, d, steps[0]) != []
    ensures var t := ConditionTexts(ctx, steps[0].conditions, 1);
            StepsText(ctx, steps, 1, d).0 == Render(Lines(Own(ctx, d, steps[0]), t.spaceNum)) + rest
  {
    hide Own, OwnDict, ConditionTexts, HeaderText, Render, Lines;
    var s, t := steps[0], ConditionTexts(ctx, steps[0].conditions, 1);
    var own, kids := Render(Lines(Own(ctx, d, s), t.spaceNum)), StepsText(ctx, s.steps, t.spaceNum, OwnDict(s, d));
    var more := StepsText(ctx, steps[1..], 1, kids.1);
    rest := kids.0 + more.0;
    assert "" + own == own;
    Associative(own, kids.0, more.0);
  }

  lemma FourParts(a: string, b: string, c: string, own: string, rest: string, e: string)
    ensures a + "\n" + "\t" + b + "\n" + "\t" + c + "\n" + (own + rest) + "\t" + e + "\n"
         == (a + "\n" + ("\t" + b + "\n" + ("\t" + c + "\n" + own))) + (rest + ("\t" + e + "\n"))
  {
  }

  lemma RenderMore(l: Line, more: seq<Line>)
    ensures Render([l] + more) == LineText(l) + Render(more)
  {
    hide LineText;
    assert ([l] + more)[1..] == more;
  }

  lemma LinesRead(a: string, b: string, c: string, own: seq<Line>, rest: string)
    requires Plain(a) && Plain(b) && Plain(c) && AllPlain(own)
    ensures ReadLines((a + "\n" + ("\t" + b + "\n" + ("\t" + c + "\n" + Render(own)))) + rest)
         == [Line(0, a), Line(1, b), Line(1, c)] + own + ReadLines(rest)
  {
    hide Plain, ReadLines, LineText;
    var all := [Line(0, a), Line(1, b), Line(1, c)] + own;
    OneLine(a, 0);
    OneLine(b, 1);
    OneLine(c, 1);
    var two, one := [Line(1, b), Line(1, c)] + own, [Line(1, c)] + own;
    assert all == [Line(0, a)] + two && two == [Line(1, b)] + one;
    RenderMore(Line(0, a), two);
    RenderMore(Line(1, b), one);
    RenderMore(Line(1, c), own);
    RenderedIsRead(all, rest);
  }

  /** If the first step's conditions indent it and write nothing, Python refuses `main`, whatever the other steps
      are. */
  lemma GapIsNoPython(ctx: Context, steps: seq<Step>, d: Dict)
    requires steps != [] && steps[0].active && Own(ctx, d, steps[0]) != [] && AllWellFormed(Own(ctx, d, steps[0]))
    requires var t := ConditionTexts(ctx, steps[0].conditions, 1); HeaderText(t) == "" && t.spaceNum > 1
    ensures ParseText(MainText(ctx, steps, d)) == Failure(IndentationError)
  {
    hide Own, StepsText, ConditionTexts, HeaderText, Render, Lines, ReadLines, ParseBlock, MainHeader, SignalLine, RecordLine,
         EndLine, WellFormed, Plain, OpensBlock, AllPlain;
    var own := Own(ctx, d, steps[0]);
    var n := ConditionTexts(ctx, steps[0].conditions, 1).spaceNum;
    var rest := FirstStep(ctx, steps, d);
    var lines, tail := Lines(own, n), rest + ("\t" + EndLine() + "\n");
    FourParts(MainHeader(), SignalLine(), RecordLine(), Render(lines), rest, EndLine());
    LinesPlain(own, n);
    FixedLines();
    LinesRead(MainHeader(), SignalLine(), RecordLine(), lines, tail);
    FirstLine(own, n);
    var behind := lines[1..] + ReadLines(tail);
    assert [Line(0, MainHeader()), Line(1, SignalLine()), Line(1, RecordLine())] + lines + ReadLines(tail)
        == [Line(0, MainHeader()), Line(1, SignalLine()), Line(1, RecordLine()), lines[0]] + behind;
    TooDeep(MainHeader(), SignalLine(), RecordLine(), lines[0], behind);
  }

  lemma FixedLines()
    ensures Plain(MainHeader()) && OpensBlock(MainHeader())
    ensures Plain(SignalLine()) && !OpensBlock(SignalLine()) && Plain(RecordLine()) && !OpensBlock(RecordLine())
  {
    EndWellFormed();
    SignalWellFormed();
    RecordWellFormed();
  }

  lemma OneOnly(ctx: Context, t: Texts, c: Condition)
    ensures Conditions(ctx, t, [c]) == OneCondition(ctx, t, c)
  {
    hide OneCondition;
    assert [c][..0] == [];
    assert Conditions(ctx, t, []) == t;
  }

  /** An active previous-result condition at "Always" does that. */
  lemma AlwaysIndents(ctx: Context, value: string, n: nat)
    ensures var t := ConditionTexts(ctx, [Previous(true, Always, value)], n);
            HeaderText(t) == "" && t.spaceNum == n + 1
  {
    var c := Previous(true, Always, value);
    OneOnly(ctx, Texts("", "", "", n), c);
  }

  /** Behind a step whose conditions indent it by one, a step at "Always" is written exactly as a child of that step: it runs
      only when that one does. */
  lemma AlwaysBecomesChild(ctx: Context, a: Step, b: Step, value: string, n: nat, d: Dict)
    requires a.active && b.active && ConditionTexts(ctx, a.conditions, n).spaceNum == n + 1
    requires b.conditions == [Previous(true, Always, value)]
    ensures StepsText(ctx, [a, b], n, d) == StepsText(ctx, [a.(steps := a.steps + [b.(conditions := [])])], n, d)
  {
    hide ConditionTexts, HeaderText, Own, OwnDict, Render, Lines, StepsText, StepText;
    var child := b.(conditions := []);
    var t := ConditionTexts(ctx, a.conditions, n);
    AlwaysIndents(ctx, value, n);
    NoConditions(ctx, n + 1);
    TwoSteps(ctx, a, b, n, d);
    OneStep(ctx, a.(steps := a.steps + [child]), n, d);
    OwnTexts(ctx, a, n, d);
    OwnTexts(ctx, a.(steps := a.steps + [child]), n, d);
    SameOwn(ctx, a, a.steps + [child], d);
    StepsTextJoin(ctx, a.steps, child, n + 1, OwnDict(a, d));
    var kids := StepsText(ctx, a.steps, n + 1, OwnDict(a, d));
    OwnTexts(ctx, b, n, kids.1);
    OwnTexts(ctx, child, n + 1, kids.1);
    SameAs(ctx, b, kids.1);
    Associative(HeaderText(t) + Render(Lines(Own(ctx, d, a), n + 1)), kids.0, StepText(ctx, child, n + 1, kids.1).0);
  }

  lemma NoConditions(ctx: Context, n: nat)
    ensures ConditionTexts(ctx, [], n).spaceNum == n && HeaderText(ConditionTexts(ctx, [], n)) == ""
  {
  }

  lemma TwoSteps(ctx: Context, a: Step, b: Step, n: nat, d: Dict)
    requires a.active && b.active
    ensures var first := StepText(ctx, a, n, d);
            var second := StepText(ctx, b, n, first.1);
            StepsText(ctx, [a, b], n, d) == (first.0 + second.0, second.1)
  {
    hide StepText;
    assert [a, b][1..] == [b];
    OneStep(ctx, b, n, StepText(ctx, a, n, d).1);
  }

  lemma OneStep(ctx: Context, a: Step, n: nat, d: Dict)
    requires a.active
    ensures StepsText(ctx, [a], n, d) == StepText(ctx, a, n, d)
  {
    hide StepText;
    assert [a][1..] == [];
    var first := StepText(ctx, a, n, d);
    assert StepsText(ctx, [], n, first.1) == ("", first.1);
    assert first.0 + "" == first.0;
  }

  lemma OwnTexts(ctx: Context, s: Step, n: nat, d: Dict)
    ensures var t := ConditionTexts(ctx, s.conditions, n);
            var kids := StepsText(ctx, s.steps, t.spaceNum, OwnDict(s, d));
            StepText(ctx, s, n, d) == (HeaderText(t) + Render(Lines(Own(ctx, d, s), t.spaceNum)) + kids.0, kids.1)
  {
    hide ConditionTexts, HeaderText, Own, OwnDict, Render, Lines, StepsText;
  }

  lemma SameOwn(ctx: Context, s: Step, steps: seq<Step>, d: Dict)
    ensures var u := s.(steps := steps); Own(ctx, d, u) == Own(ctx, d, s) && OwnDict(u, d) == OwnDict(s, d)
  {
    hide AssessmentStmts, PutAll, Inputs, CallOf, InputArgs, OutputArgs, ArgTexts, ProcedureText, Repeats;
  }

  lemma SameAs(ctx: Context, s: Step, d: Dict)
    ensures var u := s.(conditions := []); Own(ctx, d, u) == Own(ctx, d, s) && OwnDict(u, d) == OwnDict(s, d)
  {
    hide AssessmentStmts, PutAll, Inputs, CallOf, InputArgs, OutputArgs, ArgTexts, ProcedureText, Repeats;
  }

  /** A LAS condition without an id leaves a bare `True` on the line of whatever comes next, and no indentation. */
  lemma MissingIdLeavesTrue(ctx: Context, n: nat)
    ensures var t := ConditionTexts(ctx, [Las(true, None)], n);
            HeaderText(t) == "True" && t.spaceNum == n
  {
    var c := Las(true, None);
    OneOnly(ctx, Texts("", "", "", n), c);
  }
}
