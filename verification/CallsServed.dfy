/** The generated file as a whole: definitions, then `main`, and every call in `main` served by one of the definitions. */
module CallsServed {
  import opened Strings
  import opened Wrappers
  import opened ArgumentList
  import opened Indentation
  import opened Generator
  import opened GeneratorMeaning
  import opened GeneratorCalls
  import opened CallArity

  // ---------------------------------------------------------------- the file is a program

  function DefStmts(defined: seq<Step>): (r: seq<Stmt>)
    ensures |r| == |defined|
  {
    seq(|defined|, i requires 0 <= i < |defined| => DefStmt(defined[i]))
  }

  lemma UnbrokenJoin(a: string, b: string)
    requires Unbroken(a) && Unbroken(b)
    ensures Unbroken(a + b)
  {
  }

  lemma WordUnbroken(s: string)
    requires IsWord(s)
    ensures Unbroken(s)
  {
  }

  lemma {:induction false} CommaListUnbroken(names: seq<string>)
    requires AllWords(names)
    ensures Unbroken(CommaList(names))
    decreases |names|
  {
    JoinUnbroken(names);
  }

  lemma {:induction false} JoinUnbroken(names: seq<string>)
    requires AllWords(names)
    ensures Unbroken(Join(names))
    decreases |names|
  {
    hide IsWord;
    if names != [] {
      WordUnbroken(names[0]);
      if |names| > 1 { JoinUnbroken(names[1..]); }
    }
  }

  lemma BodyUnbroken(name: string)
    requires IsWord(name)
    ensures Unbroken(LogBody(name))
  {
    hide IsWord;
    WordUnbroken(name);
    assert Unbroken(TYPED);
    UnbrokenJoin(TYPED + "(" + name, ")");
    UnbrokenJoin(name, " = \" + ");
    UnbrokenJoin(name + " = \" + ", Typed(name));
  }

  lemma {:induction false} BodiesUnbroken(names: seq<string>)
    requires AllWords(names)
    ensures Unbroken(LogBodies(names))
    decreases |names|
  {
    hide IsWord, LogBody, Unbroken;
    if names != [] {
      BodyUnbroken(names[0]);
      if |names| > 1 {
        BodiesUnbroken(names[1..]);
        assert Unbroken(" + \", ") by { FixedUnbroken(); }
        UnbrokenJoin(" + \", ", LogBodies(names[1..]));
        UnbrokenJoin(LogBody(names[0]), " + \", " + LogBodies(names[1..]));
      } else {
        assert LogBodies(names) == LogBody(names[0]);
      }
    } else {
      FixedUnbroken();
    }
  }

  lemma FixedUnbroken()
    ensures Unbroken("") && Unbroken(" + \", ") && Unbroken("\" ") && Unbroken(" + ") && Unbroken(")") && Unbroken("\"")
    ensures Unbroken("MSGLogger.debug(\"Excute ")
  {
  }

  lemma LogWellFormed(s: Step)
    requires DefFits(s) && Distinct(InputNames(s.variables.value))
    ensures WellFormed(LogStmt(s))
  {
    hide IsWord, Unbroken, LogText, LogBodies, InputNames, FunctionOf, DefFits;
    HasVariables(s);
    var ins := InputNames(s.variables.value);
    var log := if ins == [] then "" else " + " + LogText(ins);
    assert IsWord(FunctionOf(s)) by { FunctionIsWord(s); }
    FixedUnbroken();
    NamesAreWords(s);
    if ins != [] {
      NoCommas(ins);
      LogIs(ins);
      BodiesUnbroken(ins);
      UnbrokenJoin("\" ", LogBodies(ins));
      UnbrokenJoin(" + ", LogText(ins));
    }
    WordUnbroken(FunctionOf(s));
    LogLineWellFormed(FunctionOf(s), log);
  }

  lemma HasVariables(s: Step)
    requires DefFits(s)
    ensures s.variables.Some?
  {
  }

  lemma FunctionIsWord(s: Step)
    requires DefFits(s)
    ensures IsWord(FunctionOf(s)) && IsWord(s.functionName)
  {
  }

  lemma NoCommas(names: seq<string>)
    requires AllWords(names)
    ensures forall i :: 0 <= i < |names| ==> ',' !in names[i]
  {
    hide IsWord;
    forall i | 0 <= i < |names| ensures ',' !in names[i] { WordHasNo(names[i], ','); }
  }

  lemma LogLineWellFormed(name: string, log: string)
    requires Unbroken(name) && Unbroken(log)
    ensures WellFormed(Simple(LogLine(name, log)))
  {
    var t := LogLine(name, log);
    FixedUnbroken();
    assert t[0] == 'M' && t[|t| - 1] == ')';
  }

  lemma BodyWellFormed(name: string, params: string, outs: string)
    requires Unbroken(name) && Unbroken(params) && Unbroken(outs)
    ensures WellFormed(Simple("[" + outs + "]" + "=" + name + "(" + params + ")"))
  {
    var t := "[" + outs + "]" + "=" + name + "(" + params + ")";
    assert t[0] == '[' && t[|t| - 1] == ')';
  }

  lemma ReturnWellFormed(outs: string)
    requires Unbroken(outs)
    ensures WellFormed(Simple("return " + ("[" + outs + "]")))
  {
    var t := "return " + ("[" + outs + "]");
    assert t[0] == 'r' && t[|t| - 1] == ']';
  }

  lemma SignatureWellFormed(name: string, params: string)
    requires Unbroken(name) && Unbroken(params)
    ensures Plain(DefHeader(name, params)) && OpensBlock(DefHeader(name, params))
  {
    var t := DefHeader(name, params);
    assert t[0] == 'd' && t[|t| - 1] == ':';
  }

  lemma DefWellFormed(s: Step)
    requires DefFits(s) && Distinct(InputNames(s.variables.value))
    ensures WellFormed(DefStmt(s))
  {
    hide IsWord, Unbroken, Plain, OpensBlock, InputNames, OutputNames, FunctionOf, DefFits, LogLine, DefHeader, CommaList;
    HasVariables(s);
    var params, outs := CommaList(InputNames(s.variables.value)), CommaList(OutputNames(s.variables.value));
    FunctionIsWord(s);
    NamesAreWords(s);
    WordUnbroken(FunctionOf(s));
    WordUnbroken(s.functionName);
    CommaListUnbroken(InputNames(s.variables.value));
    CommaListUnbroken(OutputNames(s.variables.value));
    LogWellFormed(s);
    BodyWellFormed(s.functionName, params, outs);
    ReturnWellFormed(outs);
    SignatureWellFormed(FunctionOf(s), params);
    assert SignatureText(s) == DefHeader(FunctionOf(s), params);
    assert BodyStmt(s) == Simple("[" + outs + "]" + "=" + s.functionName + "(" + params + ")");
    assert ReturnStmt(s) == Simple("return " + ("[" + outs + "]"));
    ThreeWellFormed(SignatureText(s), LogStmt(s), BodyStmt(s), ReturnStmt(s));
  }

  lemma ThreeWellFormed(header: string, a: Stmt, b: Stmt, c: Stmt)
    requires Plain(header) && OpensBlock(header) && WellFormed(a) && WellFormed(b) && WellFormed(c)
    ensures WellFormed(Compound(header, [a, b, c]))
  {
  }

  lemma OneDefRead(s: Step, behind: string)
    requires DefFits(s) && Distinct(InputNames(s.variables.value))
    ensures ReadLines(DefText(s, s.variables.GetOr([])) + behind) == Lines([DefStmt(s)], 0) + ReadLines(behind)
  {
    hide ReadLines, DefText, Render, Lines, DefStmt, DefFits, Distinct, InputNames, WellFormed;
    DefWellFormed(s);
    LinesPlain([DefStmt(s)], 0);
    DefTextIsStmt(s);
    var text := Render(Lines([DefStmt(s)], 0));
    Associative(text, "\n", behind);
    RenderedIsRead(Lines([DefStmt(s)], 0), "\n" + behind);
    BlankSkipped(behind);
  }

  lemma {:induction false} DefsRead(defined: seq<Step>, rest: string)
    requires forall s :: s in defined ==> DefFits(s) && Distinct(InputNames(s.variables.value))
    ensures ReadLines(DefTexts(defined) + rest) == Lines(DefStmts(defined), 0) + ReadLines(rest)
    decreases |defined|
  {
    hide ReadLines, DefText, Render, Lines, DefStmt, DefFits, Distinct, InputNames, WellFormed;
    if defined == [] {
      assert "" + rest == rest;
      LinesEmpty();
      assert [] + ReadLines(rest) == ReadLines(rest);
    } else {
      var s, more := defined[0], defined[1..];
      assert s in defined;
      OneDefRead(s, DefTexts(more) + rest);
      DefsRead(more, rest);
      Associative(DefText(s, s.variables.GetOr([])), DefTexts(more), rest);
      assert DefStmts(defined) == [DefStmt(s)] + DefStmts(more);
      LinesJoin([DefStmt(s)], DefStmts(more), 0);
      Associative(Lines([DefStmt(s)], 0), Lines(DefStmts(more), 0), ReadLines(rest));
    }
  }

  lemma LinesEmpty()
    ensures Lines([], 0) == []
  {
  }

  /** The file is the definitions, then `main` with the step tree in it. */
  lemma FileIsProgram(ctx: Context, steps: seq<Step>, d: Dict)
    requires AllCanonical(steps) && Fits(ctx, steps, d)
    requires forall s :: s in Defined(steps) ==> DefFits(s) && Distinct(InputNames(s.variables.value))
    ensures ParseText(FileText(ctx, steps, d)) == Success(DefStmts(Defined(steps)) + [MainProgram(ctx, steps, d)])
  {
    hide ReadLines, Render, Lines, DefFits, Distinct, InputNames, WellFormed, MainText, DefTexts, Defined, Fits, AllCanonical,
         MainProgram, DefStmt, ParseBlock;
    var defs, main := DefStmts(Defined(steps)), [MainProgram(ctx, steps, d)];
    MainTextIsProgram(ctx, steps, d);
    MainWellFormed(ctx, steps, d);
    DefsRead(Defined(steps), MainText(ctx, steps, d));
    LinesPlain(main, 0);
    RenderedIsRead(Lines(main, 0), "");
    NoLines();
    assert Render(Lines(main, 0)) + "" == Render(Lines(main, 0));
    assert Lines(main, 0) + [] == Lines(main, 0);
    LinesJoin(defs, main, 0);
    forall i | 0 <= i < |defs| ensures WellFormed(defs[i]) {
      assert Defined(steps)[i] in Defined(steps);
      DefWellFormed(Defined(steps)[i]);
    }
    JoinWellFormed(defs, main);
    LinesParsed(defs + main, 0, []);
    assert Lines(defs + main, 0) + [] == Lines(defs + main, 0);
  }

  // ---------------------------------------------------------------- one call

  function CalleeOf(s: Step): Callee {
    Callee(FunctionOf(s), InputNames(s.variables.GetOr([])), OutputNames(s.variables.GetOr([])))
  }

  function Callees(all: seq<Step>): (r: seq<Callee>)
    ensures |r| == |all|
  {
    seq(|all|, i requires 0 <= i < |all| => CalleeOf(all[i]))
  }

  predicate Takes(c: Callee, call: Call) {
    |call.args| == |c.params| && |call.targets| == |c.results|
  }

  /** A statement that starts like a call is one, of a function that is defined, and whatever definition of that name Python
      keeps takes its arguments and returns its targets. */
  predicate Served(defs: seq<Callee>, text: string) {
    "[" <= text ==>
      && var call := ReadCall(text);
      && call.Some?
      && (exists k :: 0 <= k < |defs| && defs[k].name == call.value.name)
      && (forall k :: 0 <= k < |defs| && defs[k].name == call.value.name ==> Takes(defs[k], call.value))
  }

  /** The form of step GUIDs that the schema demands. */
  predicate IsStepGuid(guid: string) {
    |guid| == 36 && guid[..4] == "Stp_"
  }

  /** Function names tell steps apart. */
  lemma NamesIdentify(s: Step, t: Step)
    requires IsStepGuid(s.guid) && IsStepGuid(t.guid) && FunctionOf(s) == FunctionOf(t)
    ensures s.guid == t.guid
  {
    var a, b := FunctionOf(s), FunctionOf(t);
    assert a[|a| - 33..] == s.guid[3..] && b[|b| - 33..] == t.guid[3..];
    assert s.guid == s.guid[..3] + s.guid[3..] && t.guid == t.guid[..3] + t.guid[3..];
    assert s.guid[..3] == s.guid[..4][..3] && t.guid[..3] == t.guid[..4][..3];
  }

  predicate AllFit(all: seq<Step>) {
    && (forall i :: 0 <= i < |all| ==> DefFits(all[i]) && IsStepGuid(all[i].guid))
    && (forall i, j :: 0 <= i < j < |all| ==> all[i].guid != all[j].guid)
  }

  predicate NoEmptyArg(ctx: Context, vs: seq<Variable>) {
    forall i :: 0 <= i < |Inputs(vs)| ==> InputArg(ctx, Inputs(vs)[i]) != Text("")
  }

  /** Which variables give an empty argument: an empty value that is neither bound nor of a type with a default. */
  lemma EmptyArg(ctx: Context, v: Variable)
    requires LocalsFit(ctx)
    ensures InputArg(ctx, v) == Text("")
       <==> && Bound(ctx.locals, v).None? && v.value == ""
            && v.varType !in {"bool", "int", "ecuDtObj", "vciResult", "StatStep", "Dict"}
  {
    hide IsWord, IsDigits, Bound;
    BoundIsWord(ctx.locals, v);
    var bound := Bound(ctx.locals, v);
    if bound.Some? { WordNotEmpty(bound.value); }
    assert |"False"| == 5 && |"True"| == 4 && |"0"| == 1 && |"None"| == 4;
    assert IsDigits(v.value) ==> v.value != "" by { DigitsNotEmpty(v.value); }
  }

  lemma DigitsNotEmpty(s: string)
    ensures IsDigits(s) ==> s != ""
  {
  }

  lemma ArgsEmpty(ctx: Context, d: Dict, vs: seq<Variable>)
    ensures "" !in ArgTexts(d, InputArgs(ctx, Inputs(vs))) <==> NoEmptyArg(ctx, vs)
  {
    hide InputArg, Inputs, Join, Pairs;
    var ins := Inputs(vs);
    var args := ArgTexts(d, InputArgs(ctx, ins));
    forall i | 0 <= i < |ins| ensures args[i] == "" <==> InputArg(ctx, ins[i]) == Text("") {
      assert args[i] == ArgText(d, InputArg(ctx, ins[i]));
    }
  }

  lemma OneFunction(all: seq<Step>, i: nat, k: nat)
    requires AllFit(all) && i < |all| && k < |all| && FunctionOf(all[k]) == FunctionOf(all[i])
    ensures k == i
  {
    hide DefFits, IsStepGuid, FunctionOf;
    NamesIdentify(all[i], all[k]);
  }

  /** The call of a step is served exactly when no argument is empty. */
  lemma CallServed(ctx: Context, d: Dict, s: Step, all: seq<Step>)
    requires AllFit(all) && s in all && LocalsFit(ctx) && DictFits(DictAfter(s, d)) && ValuesFit(s.variables.GetOr([]))
    ensures Served(Callees(all), CallText(ctx, d, s, s.variables.GetOr([]))) <==> NoEmptyArg(ctx, s.variables.GetOr([]))
  {
    hide ReadCall, DictAfter, FunctionOf, LocalsFit, DictFits, ValuesFit, Inputs, Outputs, InputArgs, OutputArgs, ArgTexts,
         IsWord, IsStepGuid, NoEmptyArg, CallText;
    var vs, defs := s.variables.GetOr([]), Callees(all);
    var i :| 0 <= i < |all| && all[i] == s;
    FunctionIsWord(s);
    CallRead(ctx, d, s, vs);
    ArgsEmpty(ctx, DictAfter(s, d), vs);
    CallStarts(ctx, d, s, vs);
    assert defs[i].name == FunctionOf(s);
    forall k | 0 <= k < |all| && defs[k].name == FunctionOf(s) ensures k == i { OneFunction(all, i, k); }
    Counts(ctx, s, DictAfter(s, d));
  }

  lemma CallStarts(ctx: Context, d: Dict, s: Step, vs: seq<Variable>)
    ensures "[" <= CallText(ctx, d, s, vs)
  {
  }

  lemma Counts(ctx: Context, s: Step, d: Dict)
    ensures var vs := s.variables.GetOr([]);
            && |ArgTexts(d, InputArgs(ctx, Inputs(vs)))| == |CalleeOf(s).params|
            && |OutputArgs(ctx, Outputs(vs)) + ["StpResult"]| == |CalleeOf(s).results|
  {
  }

  // ---------------------------------------------------------------- the step tree

  predicate StepValuesFit(s: Step) {
    && (s.variables.Some? ==>
          && ValuesFit(s.variables.value)
          && (s.functionName == "SetValue" ==>
                forall v :: v in s.variables.value && IsInput(v) ==> Quotable(v.value)))
    && (s.assessment.Some? && s.assessment.value.active && Repeats(s.assessment.value) ==> s.variables.Some?)
  }

  /** Values are Python expressions; what goes into the dictionary can be quoted; only steps with variables repeat. */
  predicate TreeValuesFit(steps: seq<Step>)
    decreases steps
  {
    forall s :: s in steps && s.active ==> StepValuesFit(s) && TreeValuesFit(s.steps)
  }

  predicate RepeatsCall(s: Step) {
    s.assessment.Some? && s.assessment.value.active && Repeats(s.assessment.value)
  }

  predicate WritesCall(s: Step) {
    s.variables.Some? && (!CallsProcedure(s) || RepeatsCall(s))
  }

  /** No active call has an empty argument: a condition on the XML. */
  predicate NoEmptyArgs(ctx: Context, steps: seq<Step>)
    decreases steps
  {
    forall s :: s in steps && s.active ==>
      (WritesCall(s) ==> NoEmptyArg(ctx, s.variables.value)) && NoEmptyArgs(ctx, s.steps)
  }

  predicate AllServed(defs: seq<Callee>, visits: seq<Visit>) {
    forall i :: 0 <= i < |visits| ==> Served(defs, visits[i].text)
  }

  lemma ServedJoin(defs: seq<Callee>, a: seq<Visit>, b: seq<Visit>)
    ensures AllServed(defs, a + b) <==> AllServed(defs, a) && AllServed(defs, b)
  {
    hide Served;
    if AllServed(defs, a + b) {
      forall i | 0 <= i < |a| ensures Served(defs, a[i].text) { assert (a + b)[i] == a[i]; }
      forall i | 0 <= i < |b| ensures Served(defs, b[i].text) { assert (a + b)[|a| + i] == b[i]; }
    }
  }

  lemma {:induction false} PutFits(d: Dict, key: string, value: string)
    requires DictFits(d) && Quotable(key) && Quotable(value)
    ensures DictFits(Put(d, key, value))
    decreases |d|
  {
    hide Quotable;
    if d != [] && d[0].0 != key { PutFits(d[1..], key, value); }
  }

  lemma {:induction false} PutAllFits(d: Dict, vs: seq<Variable>)
    requires DictFits(d) && forall v :: v in vs ==> Quotable(v.name) && Quotable(v.value)
    ensures DictFits(PutAll(d, vs))
    decreases |vs|
  {
    hide Quotable, DictFits;
    if vs != [] {
      var last := vs[|vs| - 1];
      assert last in vs;
      PutAllFits(d, vs[..|vs| - 1]);
      PutFits(PutAll(d, vs[..|vs| - 1]), last.name, last.value);
    }
  }

  lemma WordQuotable(s: string)
    requires IsWord(s)
    ensures Quotable(s)
  {
  }

  lemma DictKept(s: Step, d: Dict)
    requires DictFits(d) && StepValuesFit(s) && (s.variables.Some? ==> DefFits(s))
    ensures DictFits(DictAfter(s, d))
  {
    hide Quotable, DictFits, IsWord, Inputs, PutAll, ValuesFit, IsInput, FunctionOf;
    if s.functionName == "SetValue" && s.variables.Some? {
      var vs := s.variables.value;
      InputsFrom(vs);
      forall v | v in Inputs(vs) ensures Quotable(v.name) && Quotable(v.value) {
        assert v in vs;
        WordQuotable(v.name);
      }
      PutAllFits(d, Inputs(vs));
    }
  }

  lemma OwnDictKept(s: Step, d: Dict)
    requires DictFits(d) && StepValuesFit(s) && (s.variables.Some? ==> DefFits(s))
    ensures DictFits(DictAfter(s, d)) && DictFits(CallDict(s, d)) && DictFits(OwnDict(s, d))
    ensures DictFits(DictAfter(s, CallDict(s, d)))
  {
    hide DictFits, StepValuesFit, DictAfter, DefFits;
    DictKept(s, d);
    DictKept(s, CallDict(s, d));
  }

  lemma NotACall(defs: seq<Callee>, text: string)
    requires text == "" || text[0] != '['
    ensures Served(defs, text)
  {
  }

  lemma OneVisit(defs: seq<Callee>, under: seq<string>, text: string)
    ensures Visits([Simple(text)], under) == [Visit(under, text)]
    ensures AllServed(defs, Visits([Simple(text)], under)) <==> Served(defs, text)
  {
    hide Served;
    assert [Simple(text)][1..] == [];
    assert [Visit(under, text)][0].text == text;
    assert Visits([Simple(text)], under) == [Visit(under, text)];
  }

  lemma BlockVisit(defs: seq<Callee>, under: seq<string>, header: string, text: string)
    ensures AllServed(defs, Visits([Compound(header, [Simple(text)])], under)) <==> Served(defs, text)
  {
    hide Served;
    VisitsBlock(header, [Simple(text)], under);
    OneVisit(defs, under + [header], text);
  }

  lemma NoVisit(defs: seq<Callee>, under: seq<string>)
    ensures Visits([], under) == [] && AllServed(defs, [])
  {
  }

  lemma AssessmentServed(defs: seq<Callee>, a: Assessment, again: string, under: seq<string>)
    ensures AllServed(defs, Visits(AssessmentStmts(a, again), under)) <==> (Repeats(a) ==> Served(defs, again))
  {
    hide Served, AllServed, Visits, CancelHeader, RepeatHeader, TerminateHeader;
    NotACall(defs, "return StpResult");
    NotACall(defs, "exit()");
    BlockVisit(defs, under, CancelHeader(), "return StpResult");
    BlockVisit(defs, under, RepeatHeader(a), again);
    BlockVisit(defs, under, TerminateHeader(), "exit()");
    NoVisit(defs, under);
    var x := if a.action == "Cancel" && a.atOk && a.atNok then [Compound(CancelHeader(), [Simple("return StpResult")])]
             else [];
    var y := if Repeats(a) then [Compound(RepeatHeader(a), [Simple(again)])] else [];
    var z := if a.action == "Terminate" && a.atOk && a.atAbort then [Compound(TerminateHeader(), [Simple("exit()")])]
             else [];
    assert AssessmentStmts(a, again) == x + y + z;
    VisitsJoin(x + y, z, under);
    VisitsJoin(x, y, under);
    ServedJoin(defs, Visits(x + y, under), Visits(z, under));
    ServedJoin(defs, Visits(x, under), Visits(y, under));
  }

  lemma ProcedureServed(defs: seq<Callee>, ctx: Context, vs: seq<Variable>)
    ensures Served(defs, ProcedureText(ctx, vs))
  {
    hide Inputs;
    var text := ProcedureText(ctx, vs);
    if text != "" { assert text[0] == 'o'; }
    NotACall(defs, text);
  }

  lemma OwnServed(ctx: Context, d: Dict, s: Step, all: seq<Step>, under: seq<string>)
    requires AllFit(all) && (s.variables.Some? ==> s in all) && LocalsFit(ctx) && DictFits(d) && StepValuesFit(s)
    ensures AllServed(Callees(all), Visits(Own(ctx, d, s), under))
       <==> (WritesCall(s) ==> NoEmptyArg(ctx, s.variables.value))
  {
    hide Served, AllServed, Visits, CallText, ProcedureText, AssessmentStmts, DictFits, LocalsFit, DictAfter, NoEmptyArg, DefFits,
         IsStepGuid, ValuesFit, Callees;
    var defs, vs := Callees(all), s.variables.GetOr([]);
    OwnDictKept(s, d);
    if s.variables.Some? {
      CallServed(ctx, d, s, all);
      CallServed(ctx, CallDict(s, d), s, all);
    }
    ProcedureServed(defs, ctx, vs);
    NoVisit(defs, under);
    var text := if CallsProcedure(s) then ProcedureText(ctx, vs) else CallText(ctx, d, s, vs);
    var x := if s.variables.None? then [] else [Simple(text)];
    var y := if s.assessment.Some? && s.assessment.value.active
             then AssessmentStmts(s.assessment.value, CallText(ctx, CallDict(s, d), s, vs)) else [];
    assert Own(ctx, d, s) == x + y;
    VisitsJoin(x, y, under);
    ServedJoin(defs, Visits(x, under), Visits(y, under));
    OneVisit(defs, under, text);
    if s.assessment.Some? {
      AssessmentServed(defs, s.assessment.value, CallText(ctx, CallDict(s, d), s, vs), under);
    }
  }

  lemma DefinedHere(steps: seq<Step>)
    requires steps != []
    ensures steps[0].variables.Some? ==> steps[0] in Defined(steps)
    ensures forall s :: s in Defined(steps[0].steps) ==> s in Defined(steps)
    ensures forall s :: s in Defined(steps[1..]) ==> s in Defined(steps)
  {
  }

  lemma {:induction false} WalkServed(ctx: Context, steps: seq<Step>, under: seq<string>, d: Dict, all: seq<Step>)
    requires AllFit(all) && LocalsFit(ctx) && DictFits(d) && TreeValuesFit(steps)
    requires forall s :: s in Defined(steps) ==> s in all
    ensures AllServed(Callees(all), Walk(ctx, steps, under, d).0) <==> NoEmptyArgs(ctx, steps)
    ensures DictFits(Walk(ctx, steps, under, d).1)
    decreases steps
  {
    hide AllFit, LocalsFit, DictFits, AllServed, NoEmptyArg, StepValuesFit, Callees, WritesCall, Defined;
    if steps == [] {
      NoVisit(Callees(all), under);
    } else {
      DefinedHere(steps);
      var s, rest := steps[0], steps[1..];
      assert forall t :: t in steps <==> t == s || t in rest;
      if s.active {
        StepServed(ctx, s, under, d, all);
        var first := WalkOne(ctx, s, under, d);
        WalkServed(ctx, rest, under, first.1, all);
        ServedJoin(Callees(all), first.0, Walk(ctx, rest, under, first.1).0);
      } else {
        WalkServed(ctx, rest, under, d, all);
      }
    }
  }

  lemma {:induction false} StepServed(ctx: Context, s: Step, under: seq<string>, d: Dict, all: seq<Step>)
    requires AllFit(all) && LocalsFit(ctx) && DictFits(d) && StepValuesFit(s) && TreeValuesFit(s.steps)
    requires (s.variables.Some? ==> s in all) && forall t :: t in Defined(s.steps) ==> t in all
    ensures AllServed(Callees(all), WalkOne(ctx, s, under, d).0)
       <==> (WritesCall(s) ==> NoEmptyArg(ctx, s.variables.value)) && NoEmptyArgs(ctx, s.steps)
    ensures DictFits(WalkOne(ctx, s, under, d).1)
    decreases s
  {
    hide LocalsFit, DictFits, AllServed, NoEmptyArg, StepValuesFit, Callees, WritesCall, DefFits, IsStepGuid, Own, OwnDict,
         Headers, Visits, Defined, CallDict;
    var inner := under + Headers(ctx, s.conditions);
    OwnServed(ctx, d, s, all, inner);
    OwnDictKept(s, d);
    WalkServed(ctx, s.steps, inner, OwnDict(s, d), all);
    ServedJoin(Callees(all), Visits(Own(ctx, d, s), inner), Walk(ctx, s.steps, inner, OwnDict(s, d)).0);
  }

  // ---------------------------------------------------------------- main

  lemma FixedServed(defs: seq<Callee>)
    ensures AllServed(defs, Visits(Begin(), [])) && AllServed(defs, Visits(Finish(), []))
  {
    hide Served, AllServed, Visits, SignalLine, RecordLine, EndLine;
    assert SignalLine()[0] == 's' && RecordLine()[0] == 'R' && EndLine()[0] == 'E' by { FixedStarts(); }
    NotACall(defs, SignalLine());
    NotACall(defs, RecordLine());
    NotACall(defs, EndLine());
    OneVisit(defs, [], SignalLine());
    OneVisit(defs, [], RecordLine());
    OneVisit(defs, [], EndLine());
    assert Begin() == [Simple(SignalLine())] + [Simple(RecordLine())];
    VisitsJoin([Simple(SignalLine())], [Simple(RecordLine())], []);
    ServedJoin(defs, Visits([Simple(SignalLine())], []), Visits([Simple(RecordLine())], []));
  }

  lemma FixedStarts()
    ensures "s" <= SignalLine() && "R" <= RecordLine() && "E" <= EndLine()
  {
  }

  /** The statements of `main` are served exactly when no active call has an empty argument. */
  lemma MainServed(ctx: Context, steps: seq<Step>, d: Dict)
    requires AllFit(Defined(steps)) && LocalsFit(ctx) && DictFits(d) && TreeValuesFit(steps)
    ensures AllServed(Callees(Defined(steps)), Visits(MainProgram(ctx, steps, d).body, [])) <==> NoEmptyArgs(ctx, steps)
  {
    hide AllFit, LocalsFit, DictFits, AllServed, TreeValuesFit, NoEmptyArgs, Callees, Defined, Visits, Begin, Finish, Walk,
         Program;
    var defs := Callees(Defined(steps));
    var middle := Program(ctx, steps, d).0;
    FixedServed(defs);
    ProgramIsWalk(ctx, steps, [], d);
    WalkServed(ctx, steps, [], d, Defined(steps));
    VisitsJoin(Begin() + middle, Finish(), []);
    VisitsJoin(Begin(), middle, []);
    ServedJoin(defs, Visits(Begin() + middle, []), Visits(Finish(), []));
    ServedJoin(defs, Visits(Begin(), []), Visits(middle, []));
  }

  /** Python reads the file as definitions followed by `main`; every call in `main` is a call of exactly one of the functions
      defined in front of it, with as many arguments as that has parameters and as many targets as that returns results, if
      and only if no active call has an empty argument. */
  lemma CallsMatchDefinitions(ctx: Context, steps: seq<Step>, d: Dict)
    requires AllCanonical(steps) && Fits(ctx, steps, d)
    requires AllFit(Defined(steps)) && LocalsFit(ctx) && DictFits(d) && TreeValuesFit(steps)
    requires forall s :: s in Defined(steps) ==> Distinct(InputNames(s.variables.GetOr([])))
    ensures var defined, main := Defined(steps), MainProgram(ctx, steps, d);
            && ParseText(FileText(ctx, steps, d)) == Success(DefStmts(defined) + [main])
            && (forall i :: 0 <= i < |defined| ==> ReadDef(DefStmts(defined)[i]) == Some(Callees(defined)[i]))
            && (AllServed(Callees(defined), Visits(main.body, [])) <==> NoEmptyArgs(ctx, steps))
  {
    hide LocalsFit, DictFits, AllServed, TreeValuesFit, NoEmptyArgs, Defined, Visits, MainProgram, AllCanonical, Fits, DefFits,
         IsStepGuid, Distinct, InputNames, OutputNames, FunctionOf, ParseText, FileText, ReadDef, DefStmt;
    var defined := Defined(steps);
    forall s | s in defined ensures DefFits(s) && s.variables.Some? && Distinct(InputNames(s.variables.value)) {
      var i :| 0 <= i < |defined| && defined[i] == s;
      HasVariables(s);
    }
    FileIsProgram(ctx, steps, d);
    forall i | 0 <= i < |defined| ensures ReadDef(DefStmts(defined)[i]) == Some(Callees(defined)[i]) {
      assert defined[i] in defined;
      DefRead(defined[i]);
    }
    MainServed(ctx, steps, d);
  }

  // ---------------------------------------------------------------- one empty value

  /** A step with one input of string type, without a value. */
  function EmptyInput(): Step {
    var v := Variable("text", 0, "string", "", false, "", false);
    Step("Say", "Stp_" + seq(32, _ => '0'), true, [], Some([v]), None, [])
  }

  /** Its call passes nothing to a function with one parameter. */
  lemma EmptyInputFails(ctx: Context, d: Dict)
    ensures var s := EmptyInput();
            var read := ReadCall(CallText(ctx, d, s, s.variables.value));
            && read.Some? && read.value.args == [] && |CalleeOf(s).params| == 1
            && !Served(Callees([s]), CallText(ctx, d, s, s.variables.value))
  {
    hide ReadCall, CallText, CalleeOf, EmptyInput;
    var s := EmptyInput();
    var text := CallText(ctx, d, s, s.variables.value);
    EmptyInputRead(ctx, d);
    CallStarts(ctx, d, s, s.variables.value);
    assert Callees([s])[0] == CalleeOf(s);
  }

  lemma EmptyInputRead(ctx: Context, d: Dict)
    ensures var s := EmptyInput();
            && s.variables.Some? && CalleeOf(s).name == FunctionOf(s) && |CalleeOf(s).params| == 1
            && ReadCall(CallText(ctx, d, s, s.variables.value)) == Some(Call(["StpResult"], FunctionOf(s), []))
  {
    hide ReadCall, ReadItems, Join, FunctionOf, CallText, Balanced, IsWord;
    var s := EmptyInput();
    OneInput(ctx, d, s);
    EmptyInputName();
    FixedBalanced();
    CallShape(FunctionOf(s), ["StpResult"], "");
    NoItems();
  }

  lemma NoItems()
    ensures ReadItems("" + (")" + ""), ')') == Success(([], ""))
  {
    var none: seq<string> := [];
    EmptyBalanced();
    ItemsRead(none, ')', "");
    assert Join(none) + ([')'] + "") == "" + (")" + "");
  }

  lemma EmptyInputName()
    ensures IsWord(FunctionOf(EmptyInput()))
  {
    var zeros := seq(32, _ => '0');
    assert ("Stp_" + zeros)[3..] == "_" + zeros;
    assert FunctionOf(EmptyInput()) == "Say" + ("_" + zeros);
  }

  lemma OneInput(ctx: Context, d: Dict, s: Step)
    requires s == EmptyInput()
    ensures var vs := s.variables.value;
            && |Inputs(vs)| == 1 && Outputs(vs) == []
            && CallText(ctx, d, s, vs) == "[" + Join(["StpResult"]) + "]= " + FunctionOf(s) + "(" + "" + ")"
  {
    hide FunctionOf;
    var vs := s.variables.value;
    assert vs[1..] == [];
    assert Inputs(vs) == [vs[0]] + [] && Outputs(vs) == [] + [];
    assert Bound(ctx.locals, vs[0]) == None;
    var args := ArgTexts(DictAfter(s, d), InputArgs(ctx, Inputs(vs)));
    assert args == [""] && Join(args) == "";
    assert OutputArgs(ctx, Outputs(vs)) + ["StpResult"] == ["StpResult"];
  }
}
