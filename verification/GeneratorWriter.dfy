/** The functions of generatedCode.py that append to the output file, with the module-level state they share. */
module GeneratorWriter {
  import opened Strings
  import opened Wrappers
  import opened Indentation
  import opened Generator
  import opened GeneratorCalls
  import opened GeneratorMeaning
  import opened CallArity
  import opened CallsServed

  /** The procedures that the active steps call, in the order in which `callProcedureStepList` receives them. */
  function Calls(steps: seq<Step>): seq<string>
    decreases steps
  {
    if steps == [] then []
    else (if steps[0].active then OwnCalls(steps[0]) + Calls(steps[0].steps) else []) + Calls(steps[1..])
  }

  function OwnCalls(s: Step): seq<string> {
    if CallsProcedure(s) && s.variables.Some? then Values(Inputs(s.variables.value)) else []
  }

  function Values(vs: seq<Variable>): (r: seq<string>)
    ensures |r| == |vs|
  {
    seq(|vs|, i requires 0 <= i < |vs| => vs[i].value)
  }

  /** What the generator needs not to raise: called procedures exist, and only steps with variables are repeated. */
  predicate Generable(ctx: Context, steps: seq<Step>)
    decreases steps
  {
    forall s :: s in steps && s.active ==> GenerableOne(ctx, s) && Generable(ctx, s.steps)
  }

  predicate GenerableOne(ctx: Context, s: Step) {
    && (CallsProcedure(s) && s.variables.Some? ==>
          Inputs(s.variables.value) != [] &&
          forall v :: v in Inputs(s.variables.value) ==> v.value in ctx.titles)
    && (s.assessment.Some? && s.assessment.value.active && Repeats(s.assessment.value) ==> s.variables.Some?)
  }

  lemma InputsMore(vs: seq<Variable>, v: Variable)
    ensures Inputs(vs + [v]) == Inputs(vs) + (if IsInput(v) then [v] else [])
    ensures Outputs(vs + [v]) == Outputs(vs) + (if IsOutput(v) then [v] else [])
  {
    InputsJoin(vs, v);
    OutputsJoin(vs, v);
  }

  lemma {:induction false} InputsJoin(vs: seq<Variable>, v: Variable)
    ensures Inputs(vs + [v]) == Inputs(vs) + (if IsInput(v) then [v] else [])
    decreases |vs|
  {
    hide IsInput;
    if vs == [] {
      assert [] + [v] == [v] && [v][1..] == [];
    } else {
      assert (vs + [v])[1..] == vs[1..] + [v] && (vs + [v])[0] == vs[0];
      InputsJoin(vs[1..], v);
      Associative(if IsInput(vs[0]) then [vs[0]] else [], Inputs(vs[1..]), if IsInput(v) then [v] else []);
    }
  }

  lemma {:induction false} OutputsJoin(vs: seq<Variable>, v: Variable)
    ensures Outputs(vs + [v]) == Outputs(vs) + (if IsOutput(v) then [v] else [])
    decreases |vs|
  {
    hide IsOutput;
    if vs == [] {
      assert [] + [v] == [v] && [v][1..] == [];
    } else {
      assert (vs + [v])[1..] == vs[1..] + [v] && (vs + [v])[0] == vs[0];
      OutputsJoin(vs[1..], v);
      Associative(if IsOutput(vs[0]) then [vs[0]] else [], Outputs(vs[1..]), if IsOutput(v) then [v] else []);
    }
  }

  class Writer {
    const ctx: Context
    /** The file behind `writeToFile`. */
    var file: string
    var setValueDict: Dict
    var callProcedureStepList: seq<string>

    constructor (ctx: Context)
      ensures this.ctx == ctx && file == "" && setValueDict == [] && callProcedureStepList == []
    {
      this.ctx := ctx;
      file, setValueDict, callProcedureStepList := "", [], [];
    }

    /** `getStepMainFun`; Python reads a file that holds nothing else as the definitions and then the step tree. */
    method GetStepMainFun(steps: seq<Step>)
      requires Generable(ctx, steps)
      modifies this
      ensures old(file) == "" && AllCanonical(steps) && Fits(ctx, steps, old(setValueDict)) && AllDefFit(Defined(steps)) ==>
                ParseText(file) == Success(DefStmts(Defined(steps)) + [MainProgram(ctx, steps, old(setValueDict))])
      ensures file == old(file) + FileText(ctx, steps, old(setValueDict))
      ensures setValueDict == StepsText(ctx, steps, 1, old(setValueDict)).1
      ensures callProcedureStepList == old(callProcedureStepList) + Calls(steps)
    {
      hide StepsText, Generable, DefTexts, Defined, MainHeader, SignalLine, RecordLine, EndLine, Calls, AllCanonical, Fits,
           ParseText, AllDefFit, MainProgram;
      if AllCanonical(steps) && Fits(ctx, steps, setValueDict) && AllDefFit(Defined(steps)) {
        FreshFile(ctx, steps, setValueDict);
      }
      StepsDefGenerated(steps);
      var opening := MainHeader() + "\n" + "\t" + SignalLine() + "\n" + "\t" + RecordLine() + "\n";
      file := file + opening;
      StepsLabelGenerated(steps, 1);
      var closing := "\t" + EndLine() + "\n";
      file := file + closing;
      ghost var middle := StepsText(ctx, steps, 1, old(setValueDict)).0;
      MainParts(ctx, steps, old(setValueDict));
      FiveTexts(old(file), DefTexts(Defined(steps)), opening, middle, closing);
    }

    /** `stepsDefGenerated`. */
    method StepsDefGenerated(steps: seq<Step>)
      modifies this`file
      ensures file == old(file) + DefTexts(Defined(steps))
      decreases steps
    {
      hide DefText;
      DefTextsNone(file);
      for i := 0 to |steps|
        invariant file == old(file) + DefTexts(Defined(steps[..i]))
      {
        var s := steps[i];
        ghost var was := file;
        assert steps[..i + 1] == steps[..i] + [s];
        DefinedMore(steps[..i], s);
        if s.variables.Some? {
          BaseVariablesDefGenerated(s, s.variables.value);
        }
        StepsDefGenerated(s.steps);
        DefTextsStep(s);
        Associative(old(file), DefTexts(Defined(steps[..i])), DefTexts(DefinedBy(s)));
        OptionalText(was, s.variables.Some?, DefText(s, s.variables.GetOr([])), DefTexts(Defined(s.steps)));
      }
      assert steps[..|steps|] == steps;
    }

    /** `baseVariablesDefGenerated`. */
    method BaseVariablesDefGenerated(s: Step, vs: seq<Variable>)
      modifies this`file
      ensures file == old(file) + DefText(s, vs)
    {
      hide CommaList, Split, Typed, DefHeader, LogLine, Spaced, LogParts, Trimmed, Inputs, Outputs;
      var inputs, outputs, logged: seq<string> := [], [], [];
      NamesNone();
      for i := 0 to |vs|
        invariant inputs == Names(Inputs(vs[..i])) && outputs == Names(Outputs(vs[..i]))
        invariant logged == TypedAll(Names(Inputs(vs[..i]))) && file == old(file)
      {
        assert vs[..i + 1] == vs[..i] + [vs[i]];
        InputsMore(vs[..i], vs[i]);
        NamesMore(Inputs(vs[..i]), vs[i]);
        NamesMore(Outputs(vs[..i]), vs[i]);
        if IsInput(vs[i]) {
          logged := logged + [Typed(vs[i].name)];
          inputs := inputs + [vs[i].name];
        }
        if IsOutput(vs[i]) {
          outputs := outputs + [vs[i].name];
        }
      }
      assert vs[..|vs|] == vs;
      outputs := outputs + ["StpResult"];
      var params := JoinByIndex(inputs);
      var log := JoinByIndex(logged);
      var results := JoinByIndex(outputs);
      results := "[" + results + "]";
      var text := DefHeader(FunctionOf(s), params) + "\n"
                  + "\t" + LogLine(FunctionOf(s),
                                   if inputs == [] then "" else " + " + Trimmed(Spaced(LogParts(Split(log, ','))))) + "\n"
                  + "\t" + (results + "=" + s.functionName + "(" + params + ")") + "\n"
                  + "\t" + ("return " + results) + "\n"
                  + "\n";
      assert text == DefText(s, vs);
      file := file + text;
    }

    /** `conditionsGenerated`: returns the indentation of what stands under the conditions. */
    method ConditionsGenerated(conditions: seq<Condition>, spaceNum: nat) returns (childSpaceNum: nat)
      modifies this`file
      ensures file == old(file) + HeaderText(ConditionTexts(ctx, conditions, spaceNum))
      ensures childSpaceNum == ConditionTexts(ctx, conditions, spaceNum).spaceNum
      ensures Canonical(conditions) ==>
                var hs := Headers(ctx, conditions);
                file == old(file) + Render(HeaderLines(hs, spaceNum)) && childSpaceNum == spaceNum + |hs|
    {
      hide OneCondition, Canonical, Headers, HeaderLines;
      var texts := Texts("", "", "", spaceNum);
      for i := 0 to |conditions|
        invariant texts == ConditionTexts(ctx, conditions[..i], spaceNum)
      {
        texts := OneCondition(ctx, texts, conditions[i]);
        assert conditions[..i + 1][..i] == conditions[..i];
      }
      assert conditions[..|conditions|] == conditions;
      if Canonical(conditions) { CanonicalText(ctx, conditions, spaceNum); }
      file := file + (texts.las + texts.previous + texts.expression);
      childSpaceNum := texts.spaceNum;
    }

    /** `stepsLabelGenerated`; for conditions in canonical order it appends the lines of the step tree's program. */
    method StepsLabelGenerated(steps: seq<Step>, spaceNum: nat)
      requires Generable(ctx, steps)
      modifies this
      ensures AllCanonical(steps) ==>
                file == old(file) + Render(Lines(Program(ctx, steps, old(setValueDict)).0, spaceNum))
      ensures file == old(file) + StepsText(ctx, steps, spaceNum, old(setValueDict)).0
      ensures setValueDict == StepsText(ctx, steps, spaceNum, old(setValueDict)).1
      ensures callProcedureStepList == old(callProcedureStepList) + Calls(steps)
      decreases steps
    {
      hide StepsText, StepText, Calls, OwnCalls, GenerableOne, Program, AllCanonical, Lines, Render;
      if AllCanonical(steps) { TextIsProgram(ctx, steps, spaceNum, setValueDict); }
      ghost var file0, dict0, list0 := file, setValueDict, callProcedureStepList;
      StepsTextNone(ctx, spaceNum, dict0, file0, list0);
      for i := 0 to |steps|
        invariant file == file0 + StepsText(ctx, steps[..i], spaceNum, dict0).0
        invariant setValueDict == StepsText(ctx, steps[..i], spaceNum, dict0).1
        invariant callProcedureStepList == list0 + Calls(steps[..i])
      {
        var s := steps[i];
        assert s in steps;
        assert steps[..i + 1] == steps[..i] + [s];
        StepsTextJoin(ctx, steps[..i], s, spaceNum, dict0);
        CallsJoin(steps[..i], s);
        if s.active {
          ghost var front := StepsText(ctx, steps[..i], spaceNum, dict0);
          StepGenerated(s, spaceNum);
          Associative(file0, front.0, StepText(ctx, s, spaceNum, front.1).0);
          Associative(list0, Calls(steps[..i]), OwnCalls(s) + Calls(s.steps));
        } else {
          assert Calls(steps[..i]) + [] == Calls(steps[..i]);
        }
      }
      assert steps[..|steps|] == steps;
    }

    /** The body of that loop for an active step. */
    method StepGenerated(s: Step, spaceNum: nat)
      requires GenerableOne(ctx, s) && Generable(ctx, s.steps)
      modifies this
      ensures file == old(file) + StepText(ctx, s, spaceNum, old(setValueDict)).0
      ensures setValueDict == StepText(ctx, s, spaceNum, old(setValueDict)).1
      ensures callProcedureStepList == old(callProcedureStepList) + (OwnCalls(s) + Calls(s.steps))
      decreases s
    {
      hide StepsText, ConditionTexts, HeaderText, Calls, Own, OwnDict;
      ghost var d := setValueDict;
      var childSpaceNum := ConditionsGenerated(s.conditions, spaceNum);
      OwnGenerated(s, childSpaceNum);
      StepsLabelGenerated(s.steps, childSpaceNum);
      ghost var header := HeaderText(ConditionTexts(ctx, s.conditions, spaceNum));
      ghost var own := Render(Lines(Own(ctx, d, s), childSpaceNum));
      FourTexts(old(file), header, own, StepsText(ctx, s.steps, childSpaceNum, OwnDict(s, d)).0);
      Associative(old(callProcedureStepList), OwnCalls(s), Calls(s.steps));
    }

    /** Its call and its assessment. */
    method OwnGenerated(s: Step, spaceNum: nat)
      requires GenerableOne(ctx, s)
      modifies this
      ensures file == old(file) + Render(Lines(Own(ctx, old(setValueDict), s), spaceNum))
      ensures setValueDict == OwnDict(s, old(setValueDict))
      ensures callProcedureStepList == old(callProcedureStepList) + OwnCalls(s)
    {
      hide CallText, ProcedureText, AssessmentStmts, DictAfter, LineText, Own, OwnCalls, Render, Lines, CallDict, WrittenCall;
      ghost var d := setValueDict;
      OwnText(ctx, d, s, spaceNum);
      CallGenerated(s, spaceNum);
      if s.assessment.Some? && s.assessment.value.active {
        ghost var was := file;
        AssementGenerated(s.assessment.value, spaceNum, s);
        Associative(old(file), WrittenCall(ctx, d, s, spaceNum),
                    Render(Lines(AssessmentStmts(s.assessment.value, CallText(ctx, CallDict(s, d), s, s.variables.GetOr([]))),
                                 spaceNum)));
      } else {
        NothingMore(old(file), WrittenCall(ctx, d, s, spaceNum));
      }
    }

    /** Its call. */
    method CallGenerated(s: Step, spaceNum: nat)
      requires GenerableOne(ctx, s)
      modifies this
      ensures file == old(file) + WrittenCall(ctx, old(setValueDict), s, spaceNum)
      ensures setValueDict == CallDict(s, old(setValueDict))
      ensures callProcedureStepList == old(callProcedureStepList) + OwnCalls(s)
    {
      hide CallText, ProcedureText, PutAll, LineText;
      if s.variables.Some? {
        if CallsProcedure(s) {
          CallProcedureStepGenerated(s.variables.value, spaceNum);
        } else {
          BaseVariablesLabelGenerated(s, s.variables.value, spaceNum);
        }
      }
    }

    /** The loop of `baseVariablesLabelGenerated`. */
    method CollectParameters(s: Step, vs: seq<Variable>) returns (inputs: seq<Arg>, outputs: seq<string>)
      modifies this`setValueDict
      ensures inputs == InputArgs(ctx, Inputs(vs)) && outputs == OutputArgs(ctx, Outputs(vs))
      ensures setValueDict
           == if s.functionName == "SetValue" then PutAll(old(setValueDict), Inputs(vs)) else old(setValueDict)
    {
      hide InputArg, OutputArg, Inputs, Outputs, PutAll, Put, IsInput, IsOutput;
      inputs, outputs := [], [];
      ghost var was := setValueDict;
      CollectNone(ctx, was);
      for i := 0 to |vs|
        invariant inputs == InputArgs(ctx, Inputs(vs[..i])) && outputs == OutputArgs(ctx, Outputs(vs[..i]))
        invariant setValueDict == if s.functionName == "SetValue" then PutAll(was, Inputs(vs[..i])) else was
      {
        assert vs[..i + 1] == vs[..i] + [vs[i]];
        InputsMore(vs[..i], vs[i]);
        PutMore(was, Inputs(vs[..i]), vs[i]);
        if IsInput(vs[i]) {
          inputs := inputs + [InputArg(ctx, vs[i])];
          if s.functionName == "SetValue" {
            setValueDict := Put(setValueDict, vs[i].name, vs[i].value);
          }
        }
        if IsOutput(vs[i]) {
          outputs := outputs + [OutputArg(ctx, vs[i])];
        }
      }
      assert vs[..|vs|] == vs;
    }

    /** `baseVariablesLabelGenerated`: collects arguments and targets, records `SetValue` pairs, writes the call. */
    method BaseVariablesLabelGenerated(s: Step, vs: seq<Variable>, spaceNum: nat)
      requires s.variables == Some(vs)
      modifies this`file, this`setValueDict
      ensures file == old(file) + LineText(Line(spaceNum, CallText(ctx, old(setValueDict), s, vs)))
      ensures setValueDict == DictAfter(s, old(setValueDict))
    {
      var inputs, outputs := CollectParameters(s, vs);
      outputs := outputs + ["StpResult"];
      file := file + LineText(Line(spaceNum, CallOf(FunctionOf(s), setValueDict, inputs, outputs)));
    }

    /** `callProcedureStepGenerated`: queues every called procedure, writes the call of the last. */
    method CallProcedureStepGenerated(vs: seq<Variable>, spaceNum: nat)
      requires Inputs(vs) != [] && forall v :: v in Inputs(vs) ==> v.value in ctx.titles
      modifies this`file, this`callProcedureStepList
      ensures file == old(file) + LineText(Line(spaceNum, ProcedureText(ctx, vs)))
      ensures callProcedureStepList == old(callProcedureStepList) + Values(Inputs(vs))
    {
      hide LineText, Inputs, Values, IsInput;
      var uuid := "";
      ghost var was := callProcedureStepList;
      QueueNone(was);
      for i := 0 to |vs|
        invariant callProcedureStepList == was + Values(Inputs(vs[..i])) && file == old(file)
        invariant Inputs(vs[..i]) != [] ==> uuid == Inputs(vs[..i])[|Inputs(vs[..i])| - 1].value
      {
        assert vs[..i + 1] == vs[..i] + [vs[i]];
        InputsMore(vs[..i], vs[i]);
        assert Inputs(vs[..i]) + [] == Inputs(vs[..i]);
        if IsInput(vs[i]) {
          uuid := vs[i].value;
          callProcedureStepList := callProcedureStepList + [uuid];
          QueueMore(was, Inputs(vs[..i]), vs[i]);
        }
      }
      assert vs[..|vs|] == vs;
      LastIn(Inputs(vs));
      var text := "os.popen('" + ctx.titles[uuid] + "_" + uuid + ".py')";
      assert text == ProcedureText(ctx, vs);
      file := file + LineText(Line(spaceNum, text));
    }

    /** `assementGenerated`; a repeated step writes its call once more, under the loop header. */
    method AssementGenerated(a: Assessment, spaceNum: nat, s: Step)
      requires Repeats(a) ==> s.variables.Some?
      modifies this`file, this`setValueDict
      ensures file == old(file)
                      + Render(Lines(AssessmentStmts(a, CallText(ctx, old(setValueDict), s, s.variables.GetOr([]))), spaceNum))
      ensures setValueDict == if Repeats(a) then DictAfter(s, old(setValueDict)) else old(setValueDict)
    {
      hide CallText, DictAfter, CancelHeader, TerminateHeader, RepeatHeader, LineText;
      ghost var again := CallText(ctx, setValueDict, s, s.variables.GetOr([]));
      AssessmentText(a, again, spaceNum);
      if a.action == "Cancel" {
        if a.atOk && a.atNok {
          file := file + (LineText(Line(spaceNum, CancelHeader())) + LineText(Line(spaceNum + 1, "return StpResult")));
        }
      }
      if a.action == "Repeat" {
        if a.atOk && a.atProgramatic {
          file := file + LineText(Line(spaceNum, RepeatHeader(a)));
          BaseVariablesLabelGenerated(s, s.variables.value, spaceNum + 1);
        }
      }
      if a.action == "Terminate" {
        if a.atOk && a.atAbort {
          file := file + (LineText(Line(spaceNum, TerminateHeader())) + LineText(Line(spaceNum + 1, "exit()")));
        }
      }
    }
  }

  /** Steps one after the other. */
  lemma {:induction false} StepsTextJoin(ctx: Context, a: seq<Step>, s: Step, spaceNum: nat, d: Dict)
    ensures var front := StepsText(ctx, a, spaceNum, d);
            StepsText(ctx, a + [s], spaceNum, d)
            == if s.active then
                 var one := StepText(ctx, s, spaceNum, front.1); (front.0 + one.0, one.1)
               else front
    decreases |a|
  {
    hide StepText;
    if a == [] {
      assert [] + [s] == [s] && [s][1..] == [];
      if s.active {
        var one := StepText(ctx, s, spaceNum, d);
        assert one.0 + "" == one.0 && "" + one.0 == one.0;
      }
    } else {
      assert (a + [s])[1..] == a[1..] + [s];
      if a[0].active {
        var first := StepText(ctx, a[0], spaceNum, d);
        StepsTextJoin(ctx, a[1..], s, spaceNum, first.1);
        var rest := StepsText(ctx, a[1..], spaceNum, first.1);
        Associative(first.0, rest.0, if s.active then StepText(ctx, s, spaceNum, rest.1).0 else "");
      } else {
        StepsTextJoin(ctx, a[1..], s, spaceNum, d);
      }
    }
  }

  lemma {:induction false} CallsJoin(a: seq<Step>, s: Step)
    ensures Calls(a + [s]) == Calls(a) + (if s.active then OwnCalls(s) + Calls(s.steps) else [])
    decreases |a|
  {
    hide OwnCalls;
    if a == [] {
      assert [] + [s] == [s] && [s][1..] == [];
    } else {
      assert (a + [s])[1..] == a[1..] + [s] && (a + [s])[0] == a[0];
      CallsJoin(a[1..], s);
      Associative(if a[0].active then OwnCalls(a[0]) + Calls(a[0].steps) else [], Calls(a[1..]),
                  if s.active then OwnCalls(s) + Calls(s.steps) else []);
    }
  }

  lemma StepsTextNone(ctx: Context, spaceNum: nat, d: Dict, file: string, list: seq<string>)
    ensures StepsText(ctx, [], spaceNum, d) == ("", d) && Calls([]) == [] && file + "" == file && list + [] == list
  {
  }

  function WrittenCall(ctx: Context, d: Dict, s: Step, n: nat): string {
    if s.variables.None? then ""
    else LineText(Line(n, if CallsProcedure(s) then ProcedureText(ctx, s.variables.value)
                          else CallText(ctx, d, s, s.variables.value)))
  }

  lemma NothingMore(file: string, text: string)
    ensures file + text == file + (text + "")
  {
  }

  lemma OwnText(ctx: Context, d: Dict, s: Step, n: nat)
    ensures Render(Lines(Own(ctx, d, s), n))
         == WrittenCall(ctx, d, s, n)
          + (if s.assessment.Some? && s.assessment.value.active then
               Render(Lines(AssessmentStmts(s.assessment.value, CallText(ctx, CallDict(s, d), s, s.variables.GetOr([]))), n))
             else "")
  {
    hide CallText, ProcedureText, AssessmentStmts, LineText, Lines, Render, CallDict;
    NoText(n);
    if s.variables.Some? {
      OneLine(if CallsProcedure(s) then ProcedureText(ctx, s.variables.value)
              else CallText(ctx, d, s, s.variables.value), n);
    }
    var call := if s.variables.None? then []
                else [Simple(if CallsProcedure(s) then ProcedureText(ctx, s.variables.value)
                             else CallText(ctx, d, s, s.variables.value))];
    var rest := if s.assessment.Some? && s.assessment.value.active then
                  AssessmentStmts(s.assessment.value, CallText(ctx, CallDict(s, d), s, s.variables.GetOr([])))
                else [];
    LinesJoin(call, rest, n);
    RenderJoin(Lines(call, n), Lines(rest, n));
  }

  lemma CollectNone(ctx: Context, d: Dict)
    ensures InputArgs(ctx, Inputs([])) == [] && OutputArgs(ctx, Outputs([])) == [] && PutAll(d, Inputs([])) == d
  {
  }

  lemma PutMore(d: Dict, vs: seq<Variable>, v: Variable)
    ensures PutAll(d, vs + [v]) == Put(PutAll(d, vs), v.name, v.value)
    ensures vs + [] == vs
  {
    assert (vs + [v])[..|vs|] == vs;
  }

  lemma QueueNone(was: seq<string>)
    ensures was + Values(Inputs([])) == was && Inputs([]) == []
  {
  }

  lemma QueueMore(was: seq<string>, vs: seq<Variable>, v: Variable)
    ensures was + Values(vs + [v]) == was + Values(vs) + [v.value]
  {
  }

  lemma LastIn(vs: seq<Variable>)
    requires vs != []
    ensures vs[|vs| - 1] in vs
  {
  }

  lemma BlockLines(header: string, text: string, d: nat)
    ensures Render(Lines([Compound(header, [Simple(text)])], d)) == LineText(Line(d, header)) + LineText(Line(d + 1, text))
  {
    BlockText(header, [Simple(text)], d);
    OneLine(text, d + 1);
  }

  /** An assessment has one action, so at most one block. */
  lemma AssessmentText(a: Assessment, again: string, d: nat)
    ensures Render(Lines(AssessmentStmts(a, again), d))
         == if a.action == "Cancel" && a.atOk && a.atNok then
              LineText(Line(d, CancelHeader())) + LineText(Line(d + 1, "return StpResult"))
            else if Repeats(a) then LineText(Line(d, RepeatHeader(a))) + LineText(Line(d + 1, again))
            else if a.action == "Terminate" && a.atOk && a.atAbort then
              LineText(Line(d, TerminateHeader())) + LineText(Line(d + 1, "exit()"))
            else ""
  {
    hide CancelHeader, TerminateHeader, RepeatHeader, LineText, Lines, Render;
    ActionIs(a, again);
    BlockLines(CancelHeader(), "return StpResult", d);
    BlockLines(RepeatHeader(a), again, d);
    BlockLines(TerminateHeader(), "exit()", d);
    NoText(d);
  }

  lemma NoText(d: nat)
    ensures Render(Lines([], d)) == ""
  {
  }

  lemma FourTexts(a: string, b: string, c: string, e: string)
    ensures a + b + c + e == a + (b + c + e)
  {
  }

  predicate AllDefFit(defined: seq<Step>) {
    forall s :: s in defined ==> DefFits(s) && Distinct(InputNames(s.variables.value))
  }

  lemma FreshFile(ctx: Context, steps: seq<Step>, d: Dict)
    requires AllCanonical(steps) && Fits(ctx, steps, d) && AllDefFit(Defined(steps))
    ensures ParseText(FileText(ctx, steps, d)) == Success(DefStmts(Defined(steps)) + [MainProgram(ctx, steps, d)])
    ensures "" + FileText(ctx, steps, d) == FileText(ctx, steps, d)
  {
    hide AllCanonical, Fits, ParseText, FileText, MainProgram, Defined;
    FileIsProgram(ctx, steps, d);
  }

  lemma FiveTexts(a: string, b: string, c: string, m: string, e: string)
    ensures a + b + c + m + e == a + (b + (c + m + e))
  {
  }

  lemma MainParts(ctx: Context, steps: seq<Step>, d: Dict)
    ensures MainText(ctx, steps, d)
         == MainHeader() + "\n" + "\t" + SignalLine() + "\n" + "\t" + RecordLine() + "\n"
            + StepsText(ctx, steps, 1, d).0 + ("\t" + EndLine() + "\n")
  {
    hide StepsText, MainHeader, SignalLine, RecordLine, EndLine;
    var front := MainHeader() + "\n" + "\t" + SignalLine() + "\n" + "\t" + RecordLine() + "\n"
                 + StepsText(ctx, steps, 1, d).0;
    Associative(front, "\t", EndLine());
    Associative(front, "\t" + EndLine(), "\n");
  }

  function DefinedBy(s: Step): seq<Step> {
    (if s.variables.Some? then [s] else []) + Defined(s.steps)
  }

  lemma {:induction false} DefinedMore(a: seq<Step>, s: Step)
    ensures Defined(a + [s]) == Defined(a) + DefinedBy(s)
    ensures DefTexts(Defined(a + [s])) == DefTexts(Defined(a)) + DefTexts(DefinedBy(s))
    decreases |a|
  {
    hide DefTexts;
    if a == [] {
      assert [] + [s] == [s] && [s][1..] == [];
      assert DefinedBy(s) + [] == DefinedBy(s);
    } else {
      assert (a + [s])[1..] == a[1..] + [s] && (a + [s])[0] == a[0];
      DefinedMore(a[1..], s);
      Associative(DefinedBy(a[0]), Defined(a[1..]), DefinedBy(s));
    }
    DefTextsJoin(Defined(a), DefinedBy(s));
  }

  lemma {:induction false} DefTextsJoin(a: seq<Step>, b: seq<Step>)
    ensures DefTexts(a + b) == DefTexts(a) + DefTexts(b)
    decreases |a|
  {
    hide DefText;
    if a == [] {
      assert [] + b == b && "" + DefTexts(b) == DefTexts(b);
    } else {
      assert (a + b)[1..] == a[1..] + b && (a + b)[0] == a[0];
      DefTextsJoin(a[1..], b);
      Associative(DefText(a[0], a[0].variables.GetOr([])), DefTexts(a[1..]), DefTexts(b));
    }
  }

  lemma DefTextsNone(file: string)
    ensures Defined([]) == [] && DefTexts([]) == "" && file + "" == file
  {
  }

  lemma DefTextsStep(s: Step)
    ensures DefTexts(DefinedBy(s))
         == (if s.variables.Some? then DefText(s, s.variables.GetOr([])) else "") + DefTexts(Defined(s.steps))
  {
    hide DefText;
    var text := DefText(s, s.variables.GetOr([]));
    assert [s][1..] == [] && text + "" == text;
    DefTextsJoin([s], Defined(s.steps));
    assert [] + Defined(s.steps) == Defined(s.steps) && "" + DefTexts(Defined(s.steps)) == DefTexts(Defined(s.steps));
  }

  lemma OptionalText(was: string, present: bool, one: string, more: string)
    ensures (if present then was + one else was) + more == was + ((if present then one else "") + more)
  {
    assert "" + more == more;
  }

  lemma NamesNone()
    ensures Names(Inputs([])) == [] && Names(Outputs([])) == [] && TypedAll(Names(Inputs([]))) == []
  {
  }

  lemma NamesMore(vs: seq<Variable>, v: Variable)
    ensures Names(vs + [v]) == Names(vs) + [v.name] && vs + [] == vs
    ensures TypedAll(Names(vs + [v])) == TypedAll(Names(vs)) + [Typed(v.name)]
  {
    hide Typed;
  }
}
