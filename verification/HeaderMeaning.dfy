/** What Python makes of the headers that generatedCode.py writes: a reader of their text that knows only the names of
    `StepResult` (log_info.py:14), comparison and `or`. */
module HeaderMeaning {
  import opened Strings
  import opened Wrappers
  import opened Generator
  import opened GeneratorMeaning

  datatype StepResult = Ok | Nok | Cancel | NoResult | Abort

  // ---------------------------------------------------------------- the reader

  function ResultNamed(name: string): Option<StepResult> {
    if name == "Ok" then Some(Ok)
    else if name == "Nok" then Some(Nok)
    else if name == "Cancel" then Some(Cancel)
    else if name == "None" then Some(NoResult)
    else if name == "Abort" then Some(Abort)
    else None
  }

  /** `True`, or a comparison of `StpResult` with a member of `StepResult`. */
  function Atom(text: string, now: StepResult): Option<bool> {
    if text == "True" then Some(true)
    else if !("StpResult==StepResult." <= text) then None
    else
      var r := ResultNamed(text[22..]);
      if r.Some? then Some(now == r.value) else None
  }

  /** One or more of these, joined by `or`. Anything else is not decided by the result alone. */
  function Verdict(text: string, now: StepResult): Option<bool>
    decreases |text|
  {
    var n := UpTo(text, ' ');
    if n == |text| then Atom(text, now)
    else if !(" or " <= text[n..]) then None
    else
      var first, rest := Atom(text[..n], now), Verdict(text[n + 4..], now);
      if first.Some? && rest.Some? then Some(first.value || rest.value) else None
  }

  /** The expression between `if(` or `while(` and `):`. */
  function Inside(header: string): Option<string> {
    if |header| >= 5 && "if(" <= header && header[|header| - 2..] == "):" then Some(header[3..|header| - 2])
    else if |header| >= 8 && "while(" <= header && header[|header| - 2..] == "):" then Some(header[6..|header| - 2])
    else None
  }

  function HeaderVerdict(header: string, now: StepResult): Option<bool> {
    var inside := Inside(header);
    if inside.Some? then Verdict(inside.value, now) else None
  }

  // ---------------------------------------------------------------- what the conditions mean

  /** Whether a previous-result condition lets the step run. */
  predicate PreviousMet(value: string, now: StepResult) {
    (value == "OK" ==> now == Ok) && (value == "NOK" ==> now == Nok) && (value == "ABORT" ==> now == Abort)
  }

  lemma InsideIf(text: string)
    ensures Inside("if(" + text + "):") == Some(text) && Inside("while(" + text + "):") == Some(text)
  {
    var a, b := "if(" + text + "):", "while(" + text + "):";
    assert a[|a| - 2..] == "):" && b[|b| - 2..] == "):";
    assert a[3..|a| - 2] == text && b[6..|b| - 2] == text;
    assert b[0] == 'w' && "if("[0] == 'i';
  }

  lemma OneAtom(text: string, now: StepResult)
    requires ' ' !in text
    ensures Verdict(text, now) == Atom(text, now)
  {
    hide Atom;
    NotFound(text, ' ');
  }

  lemma {:induction false} NotFound(text: string, c: char)
    requires c !in text
    ensures UpTo(text, c) == |text|
    decreases |text|
  {
    if text != "" {
      assert text[0] in text;
      NotFound(text[1..], c);
    }
  }

  lemma OrRead(first: string, rest: string, now: StepResult)
    requires ' ' !in first
    ensures var a, b := Atom(first, now), Verdict(rest, now);
            Verdict(first + " or " + rest, now)
            == if a.Some? && b.Some? then Some(a.value || b.value) else None
  {
    hide Atom, UpTo;
    var text := first + " or " + rest;
    assert text == first + [' '] + ("or " + rest);
    UpToFound(first, ' ', "or " + rest);
    assert text[..|first|] == first && text[|first|..] == " or " + rest && text[|first| + 4..] == rest;
  }

  /** The comparison with the member called `name`. */
  function Compared(name: string): string {
    "StpResult==StepResult." + name
  }

  lemma ComparedRead(name: string, now: StepResult)
    requires name in {"Ok", "Nok", "Cancel", "None", "Abort"}
    ensures ' ' !in Compared(name)
    ensures Atom(Compared(name), now) == Some(now == ResultNamed(name).value)
  {
    var text := Compared(name);
    assert text[22..] == name;
    assert text[0] == 'S';
    assert ' ' !in "StpResult==StepResult.";
  }

  /** The header of a previous-result condition holds exactly at the result that the condition names, and always if it names
      none. */
  lemma PreviousHolds(ctx: Context, c: Condition, now: StepResult)
    requires c.Previous? && c.at != Always
    ensures HeaderVerdict(Header(ctx, c), now) == Some(PreviousMet(c.value, now))
  {
    hide Inside, Verdict, Atom;
    var test := PreviousTest(c.value);
    TestRead(c.value, now);
    InsideIf(test);
    assert Header(ctx, c) == "if(" + test + "):" || Header(ctx, c) == "while(" + test + "):";
  }

  lemma TestRead(value: string, now: StepResult)
    ensures Verdict(PreviousTest(value), now) == Some(PreviousMet(value, now))
  {
    hide Verdict, UpTo;
    ComparedRead("Ok", now);
    ComparedRead("Nok", now);
    ComparedRead("Abort", now);
    assert "StpResult==StepResult.Ok" == Compared("Ok");
    assert "StpResult==StepResult.Nok" == Compared("Nok");
    assert "StpResult==StepResult.Abort" == Compared("Abort");
    OneAtom(PreviousTest(value), now);
    assert |"OK"| == 2 && |"NOK"| == 3 && |"ABORT"| == 5;
  }

  /** An empty programmatic expression, or the XML's `true`, always holds. */
  lemma EmptyExpressionHolds(ctx: Context, c: Condition, now: StepResult)
    requires c.Programtic? && c.at != Always && c.expression in {"", "true"}
    ensures HeaderVerdict(Header(ctx, c), now) == Some(true)
  {
    hide Inside, Verdict;
    OneAtom("True", now);
    InsideIf("True");
    assert Header(ctx, c) == "if(" + "True" + "):" || Header(ctx, c) == "while(" + "True" + "):";
  }

  /** The blocks of an assessment: cancelled after Ok or Nok, terminated after Ok or Abort. */
  lemma AssessmentHolds(now: StepResult)
    ensures HeaderVerdict(CancelHeader(), now) == Some(now == Ok || now == Nok)
    ensures HeaderVerdict(TerminateHeader(), now) == Some(now == Ok || now == Abort)
  {
    hide Inside, Verdict, Atom, Compared;
    TwoResults("Nok", now);
    TwoResults("Abort", now);
    HeadersAre();
  }

  lemma TwoResults(name: string, now: StepResult)
    requires name in {"Nok", "Abort"}
    ensures HeaderVerdict("if(" + (Compared("Ok") + " or " + Compared(name)) + "):", now)
         == Some(now == Ok || now == ResultNamed(name).value)
  {
    hide Inside, Verdict, Atom, Compared;
    ComparedRead("Ok", now);
    ComparedRead(name, now);
    OneAtom(Compared(name), now);
    OrRead(Compared("Ok"), Compared(name), now);
    InsideIf(Compared("Ok") + " or " + Compared(name));
  }

  lemma HeadersAre()
    ensures CancelHeader() == "if(" + (Compared("Ok") + " or " + Compared("Nok")) + "):"
    ensures TerminateHeader() == "if(" + (Compared("Ok") + " or " + Compared("Abort")) + "):"
  {
    hide Compared;
    FirstHalf();
    SecondHalves();
    Regroup(Compared("Ok"), Compared("Nok"));
    Regroup(Compared("Ok"), Compared("Abort"));
  }

  lemma FirstHalf()
    ensures "if(StpResult==StepResult.Ok or " == "if(" + Compared("Ok") + " or "
  {
  }

  lemma SecondHalves()
    ensures "StpResult==StepResult.Nok):" == Compared("Nok") + "):"
    ensures "StpResult==StepResult.Abort):" == Compared("Abort") + "):"
  {
  }

  lemma Regroup(a: string, b: string)
    ensures "if(" + a + " or " + (b + "):") == "if(" + (a + " or " + b) + "):"
  {
  }

  /** A repeated step runs again after Ok, or when its expression holds. */
  lemma RepeatHolds(a: Assessment, now: StepResult)
    requires Verdict(a.programatic, now).Some?
    ensures HeaderVerdict(RepeatHeader(a), now) == Some(now == Ok || Verdict(a.programatic, now).value)
  {
    hide Inside, Verdict, Atom, Compared;
    ComparedRead("Ok", now);
    OrRead(Compared("Ok"), a.programatic, now);
    InsideIf(Compared("Ok") + " or " + a.programatic);
    WhileHalf();
    RegroupWhile(Compared("Ok"), a.programatic);
  }

  lemma WhileHalf()
    ensures "while(StpResult==StepResult.Ok or " == "while(" + Compared("Ok") + " or "
  {
  }

  lemma RegroupWhile(a: string, b: string)
    ensures "while(" + a + " or " + b + "):" == "while(" + (a + " or " + b) + "):"
  {
  }

  // ---------------------------------------------------------------- LAS expressions

  /** A LAS condition asks for the expression of the last LAS variable with its id, without its first character. */
  lemma {:induction false} LasExpressionIs(locals: seq<LocalVariable>, id: string, k: nat)
    requires k < |locals| && locals[k].isLas && locals[k].guid == id && locals[k].expression.Some?
    requires forall i :: k < i < |locals| ==> !(locals[i].isLas && locals[i].guid == id && locals[i].expression.Some?)
    ensures locals[k].expression.value != "" ==>
              locals[k].expression.value == [locals[k].expression.value[0]] + LasExpression(locals, id, "")
    ensures locals[k].expression.value == "" ==> LasExpression(locals, id, "") == ""
    decreases |locals|
  {
    if k < |locals| - 1 { LasExpressionIs(locals[..|locals| - 1], id, k); }
  }

  /** Without such a variable it asks for the empty expression. */
  lemma {:induction false} LasExpressionNone(locals: seq<LocalVariable>, id: string)
    requires forall i :: 0 <= i < |locals| ==> !(locals[i].isLas && locals[i].guid == id && locals[i].expression.Some?)
    ensures LasExpression(locals, id, "") == ""
    decreases |locals|
  {
    if locals != [] { LasExpressionNone(locals[..|locals| - 1], id); }
  }
}
