/** Every call in a generated `main` names exactly one function of the file and agrees with it on the number of arguments
    and of results, as read back from the text. */
module CallArity {
  import opened Strings
  import opened Wrappers
  import opened ArgumentList
  import opened Indentation
  import opened Generator
  import opened GeneratorMeaning
  import opened GeneratorCalls

  // ---------------------------------------------------------------- reading calls and definitions

  datatype Callee = Callee(name: string, params: seq<string>, results: seq<string>)

  datatype Call = Call(targets: seq<string>, name: string, args: seq<string>)

  function Named(name: string, read: Result<(seq<string>, string), ArgumentList.Error>)
    : Option<(string, seq<string>, string)>
  {
    if read.Success? then Some((name, read.value.0, read.value.1)) else None
  }

  /** `name(item, ...)` and what is behind it. */
  function ReadApplication(text: string): Option<(string, seq<string>, string)> {
    var n := UpTo(text, '(');
    if n == |text| then None else Named(text[..n], ReadItems(text[n + 1..], ')'))
  }

  /** `[target, ...]= name(item, ...)`. */
  function ReadCall(text: string): Option<Call> {
    if !("[" <= text) then None
    else
      var t := ReadItems(text[1..], ']');
      if t.Failure? || !("= " <= t.value.1) then None
      else
        var app := ReadApplication(t.value.1[2..]);
        if app.None? || app.value.2 != "" then None else Some(Call(t.value.0, app.value.0, app.value.1))
  }

  function ReadReturn(s: Stmt): Option<seq<string>> {
    if s.Compound? || !("return [" <= s.text) then None
    else
      var r := ReadItems(s.text[8..], ']');
      if r.Success? && r.value.1 == "" then Some(r.value.0) else None
  }

  /** A function definition: distinct parameters, and a list returned in the last statement. */
  function ReadDef(s: Stmt): Option<Callee> {
    if s.Simple? || !("def " <= s.header) || s.body == [] then None
    else
      var app, results := ReadApplication(s.header[4..]), ReadReturn(s.body[|s.body| - 1]);
      if app.None? || results.None? || app.value.2 != ":" || !Distinct(app.value.1) then None
      else Some(Callee(app.value.0, app.value.1, results.value))
  }

  lemma WordHasNo(s: string, c: char)
    requires IsWord(s) && !IsWordChar(c)
    ensures c !in s
  {
  }

  lemma ApplicationRead(name: string, body: string)
    requires IsWord(name)
    ensures ReadApplication(name + "(" + body) == Named(name, ReadItems(body, ')'))
  {
    hide ReadItems;
    WordHasNo(name, '(');
    UpToFound(name, '(', body);
    var text := name + "(" + body;
    assert text[..|name|] == name && text[|name| + 1..] == body;
  }

  // ---------------------------------------------------------------- definitions

  function SignatureText(s: Step): string {
    DefHeader(FunctionOf(s), CommaList(InputNames(s.variables.GetOr([]))))
  }

  function ResultsText(s: Step): string {
    "[" + CommaList(OutputNames(s.variables.GetOr([]))) + "]"
  }

  function LogStmt(s: Step): Stmt {
    var ins := InputNames(s.variables.GetOr([]));
    Simple(LogLine(FunctionOf(s), if ins == [] then "" else " + " + LogText(ins)))
  }

  function BodyStmt(s: Step): Stmt {
    Simple(ResultsText(s) + "=" + s.functionName + "(" + CommaList(InputNames(s.variables.GetOr([]))) + ")")
  }

  function ReturnStmt(s: Step): Stmt {
    Simple("return " + ResultsText(s))
  }

  /** The definition of a step as a statement. */
  function DefStmt(s: Step): Stmt {
    Compound(SignatureText(s), [LogStmt(s), BodyStmt(s), ReturnStmt(s)])
  }

  lemma ThreeLines(a: string, b: string, c: string)
    ensures Render(Lines([Simple(a), Simple(b), Simple(c)], 1)) == "\t" + a + "\n" + ("\t" + b + "\n") + ("\t" + c + "\n")
  {
    hide Render, Lines, LineText;
    OneLine(a, 1);
    OneLine(b, 1);
    OneLine(c, 1);
    assert [Simple(a), Simple(b), Simple(c)] == [Simple(a)] + [Simple(b)] + [Simple(c)];
    ProgramJoin([Simple(a)] + [Simple(b)], [Simple(c)], 1);
    ProgramJoin([Simple(a)], [Simple(b)], 1);
  }

  lemma DefRegroup(h: string, a: string, b: string, c: string)
    ensures h + "\n" + "\t" + a + "\n" + "\t" + b + "\n" + "\t" + c + "\n" + "\n"
         == (h + "\n" + ("\t" + a + "\n" + ("\t" + b + "\n") + ("\t" + c + "\n"))) + "\n"
  {
  }

  lemma DefTextIsStmt(s: Step)
    ensures DefText(s, s.variables.GetOr([])) == Render(Lines([DefStmt(s)], 0)) + "\n"
  {
    hide Render, Lines, LineText, LogText, CommaList, InputNames, OutputNames, DefHeader, LogLine;
    var a, b, c := LogStmt(s).text, BodyStmt(s).text, ReturnStmt(s).text;
    ThreeLines(a, b, c);
    BlockText(SignatureText(s), [Simple(a), Simple(b), Simple(c)], 0);
    OneLine(SignatureText(s), 0);
    DefRegroup(SignatureText(s), a, b, c);
  }

  /** What the XML must provide for a definition: names that are Python names. */
  predicate DefFits(s: Step) {
    && s.variables.Some?
    && IsWord(FunctionOf(s)) && IsWord(s.functionName)
    && forall v :: v in s.variables.value ==> IsWord(v.name)
  }

  lemma {:induction false} InputsFrom(vs: seq<Variable>)
    ensures forall v :: v in Inputs(vs) ==> v in vs && IsInput(v)
    ensures forall v :: v in Outputs(vs) ==> v in vs && IsOutput(v)
    decreases |vs|
  {
    hide IsInput, IsOutput;
    if vs != [] { InputsFrom(vs[1..]); }
  }

  predicate AllWords(names: seq<string>) {
    forall i :: 0 <= i < |names| ==> IsWord(names[i])
  }

  lemma NamesAreWords(s: Step)
    requires DefFits(s)
    ensures AllWords(InputNames(s.variables.value)) && AllWords(OutputNames(s.variables.value))
  {
    var vs := s.variables.value;
    InputsFrom(vs);
    forall i | 0 <= i < |Inputs(vs)| ensures IsWord(InputNames(vs)[i]) { assert Inputs(vs)[i] in vs; }
    forall i | 0 <= i < |Outputs(vs)| ensures IsWord(OutputNames(vs)[i]) { assert Outputs(vs)[i] in vs; }
    assert IsWord("StpResult");
  }

  lemma WordsBalanced(names: seq<string>)
    requires AllWords(names)
    ensures AllBalanced(names) && "" !in names
  {
    forall i | 0 <= i < |names| ensures Balanced(names[i]) {
      assert IsWord(names[i]);
      WordRun(names[i]);
    }
  }

  /** Joined by index or not, a list of names is read back. */
  lemma NamesRead(names: seq<string>, close: char, rest: string)
    requires AllWords(names) && Closes(close)
    ensures ReadItems(CommaList(names) + ([close] + rest), close) == Success((names, rest))
  {
    hide ReadItems, Join, AllBalanced, AllWords;
    WordsBalanced(names);
    ItemsRead(names, close, rest);
    if ExtraComma(names) == "" {
      assert Join(names) + "" == Join(names);
    } else {
      TrailingComma(names, close, rest);
    }
  }

  lemma ReturnRead(s: Step)
    requires DefFits(s)
    ensures ReadReturn(ReturnStmt(s)) == Some(OutputNames(s.variables.value))
  {
    hide ReadItems, CommaList, IsWord;
    var outs := OutputNames(s.variables.value);
    NamesAreWords(s);
    NamesRead(outs, ']', "");
    var text := ReturnStmt(s).text;
    assert text == "return [" + (CommaList(outs) + ("]" + "")) by { ReturnRegroup(CommaList(outs)); }
    assert text[8..] == CommaList(outs) + ("]" + "");
  }

  lemma ReturnRegroup(list: string)
    ensures "return " + ("[" + list + "]") == "return [" + (list + ("]" + ""))
  {
  }

  /** A definition is read back, with its parameters and results, exactly when no two inputs have the same name. */
  lemma DefRead(s: Step)
    requires DefFits(s)
    ensures var vs := s.variables.value;
            ReadDef(DefStmt(s))
            == if Distinct(InputNames(vs)) then Some(Callee(FunctionOf(s), InputNames(vs), OutputNames(vs))) else None
  {
    hide ReadItems, CommaList, IsWord, ReadReturn, ReadApplication, OutputNames, InputNames, FunctionOf, LogStmt, BodyStmt,
         ReturnStmt;
    var ins := InputNames(s.variables.value);
    NamesAreWords(s);
    NamesRead(ins, ')', ":");
    ReturnRead(s);
    ApplicationRead(FunctionOf(s), CommaList(ins) + (")" + ":"));
    SignatureRegroup(FunctionOf(s), CommaList(ins));
  }

  lemma SignatureRegroup(name: string, list: string)
    ensures "def " <= DefHeader(name, list)
    ensures DefHeader(name, list)[4..] == name + "(" + (list + (")" + ":"))
  {
  }

  // ---------------------------------------------------------------- calls

  predicate LocalsFit(ctx: Context) {
    forall v :: v in ctx.locals ==> IsWord(v.name)
  }

  predicate DictFits(d: Dict) {
    forall i :: 0 <= i < |d| ==> Quotable(d[i].0) && Quotable(d[i].1)
  }

  predicate ValuesFit(vs: seq<Variable>) {
    forall v :: v in vs ==> Balanced(v.value)
  }

  lemma {:induction false} BoundIsWord(locals: seq<LocalVariable>, v: Variable)
    requires forall l :: l in locals ==> IsWord(l.name)
    ensures Bound(locals, v).Some? ==> IsWord(Bound(locals, v).value)
    decreases |locals|
  {
    if locals != [] { BoundIsWord(locals[1..], v); }
  }

  lemma WordBalanced(s: string)
    requires IsWord(s)
    ensures Balanced(s)
  {
    WordRun(s);
  }

  lemma FixedBalanced()
    ensures Balanced("False") && Balanced("True") && Balanced("0") && Balanced("None")
    ensures Balanced("outParamDict") && Balanced("UnneededOutParam") && Balanced("EmptyOutParam") && Balanced("StpResult")
  {
    hide Balanced;
    WordBalanced("False");
    WordBalanced("True");
    WordBalanced("0");
    WordBalanced("None");
    WordBalanced("outParamDict");
    WordBalanced("UnneededOutParam");
    WordBalanced("EmptyOutParam");
    WordBalanced("StpResult");
  }

  lemma InputFits(ctx: Context, v: Variable)
    requires LocalsFit(ctx) && Balanced(v.value)
    ensures var a := InputArg(ctx, v); a.Text? ==> Balanced(a.s)
  {
    hide Balanced, Bound, IsWord, IsDigits;
    FixedBalanced();
    BoundIsWord(ctx.locals, v);
    var bound := Bound(ctx.locals, v);
    if bound.Some? { WordBalanced(bound.value); }
  }

  lemma OutputFits(ctx: Context, v: Variable)
    requires LocalsFit(ctx) && Balanced(v.value)
    ensures var t := OutputArg(ctx, v); Balanced(t) && t != ""
  {
    hide Balanced, Bound, IsWord;
    FixedBalanced();
    BoundIsWord(ctx.locals, v);
    var bound := Bound(ctx.locals, v);
    if bound.Some? {
      WordBalanced(bound.value);
      WordNotEmpty(bound.value);
    }
  }

  lemma WordNotEmpty(s: string)
    requires IsWord(s)
    ensures s != ""
  {
  }

  const INSIDE := Mode("}", None, false)

  lemma PairRun(key: string, value: string)
    requires Quotable(key) && Quotable(value)
    ensures Run(INSIDE, "'" + key + "':'" + value + "'") == Some(INSIDE)
  {
    hide Run;
    var k, v := "'" + key + "'", "'" + value + "'";
    QuoteRun(INSIDE, key);
    QuoteRun(INSIDE, value);
    OneChar(INSIDE, ':');
    RunJoin(INSIDE, k, ":");
    RunJoin(INSIDE, k + ":", v);
    PairRegroup(key, value);
  }

  lemma PairRegroup(key: string, value: string)
    ensures "'" + key + "':'" + value + "'" == "'" + key + "'" + ":" + ("'" + value + "'")
  {
  }

  lemma {:induction false} PairsRun(d: Dict)
    requires DictFits(d)
    ensures forall i :: 0 <= i < |Pairs(d)| ==> Run(INSIDE, Pairs(d)[i]) == Some(INSIDE)
    decreases |d|
  {
    hide Run, Quotable;
    if d != [] {
      PairRun(d[0].0, d[0].1);
      PairsRun(d[1..]);
    }
  }

  /** A dictionary display is one argument. */
  lemma DictBalanced(d: Dict)
    requires DictFits(d)
    ensures Balanced("{" + Join(Pairs(d)) + "}")
  {
    hide Run, Balanced, Join, Pairs;
    PairsRun(d);
    JoinRun(INSIDE, Pairs(d));
    BracketBalanced('{', Join(Pairs(d)));
  }

  lemma ArgsFit(ctx: Context, d: Dict, vs: seq<Variable>)
    requires LocalsFit(ctx) && DictFits(d) && ValuesFit(vs)
    ensures AllBalanced(ArgTexts(d, InputArgs(ctx, Inputs(vs))))
    ensures AllBalanced(OutputArgs(ctx, Outputs(vs)) + ["StpResult"])
    ensures "" !in OutputArgs(ctx, Outputs(vs)) + ["StpResult"]
  {
    hide Balanced, InputArg, OutputArg, LocalsFit, DictFits, Join, Pairs, Inputs, Outputs;
    InputsFrom(vs);
    DictBalanced(d);
    FixedBalanced();
    var ins, outs := Inputs(vs), Outputs(vs);
    var targets := OutputArgs(ctx, outs) + ["StpResult"];
    forall i | 0 <= i < |ins| ensures Balanced(ArgTexts(d, InputArgs(ctx, ins))[i]) {
      assert ins[i] in vs;
      InputFits(ctx, ins[i]);
    }
    forall i | 0 <= i < |targets| ensures Balanced(targets[i]) && targets[i] != "" {
      if i < |outs| {
        assert outs[i] in vs;
        OutputFits(ctx, outs[i]);
      }
    }
  }

  lemma CallRegroup(name: string, targets: string, args: string)
    ensures "[" + targets + "]= " + name + "(" + args + ")"
         == "[" + (targets + ("]" + ("= " + (name + "(" + (args + (")" + ""))))))
  {
  }

  /** Which calls are read back, whatever stands in the argument list. */
  lemma CallShape(name: string, targets: seq<string>, args: string)
    requires IsWord(name) && AllBalanced(targets) && "" !in targets
    ensures ReadCall("[" + Join(targets) + "]= " + name + "(" + args + ")")
         == var r := ReadItems(args + (")" + ""), ')');
            if r.Success? && r.value.1 == "" then Some(Call(targets, name, r.value.0)) else None
  {
    hide ReadItems, ReadApplication, Join, AllBalanced, IsWord;
    var call := name + "(" + (args + (")" + ""));
    CallRegroup(name, Join(targets), args);
    var tail := Join(targets) + ("]" + ("= " + call));
    assert ("[" + tail)[1..] == tail;
    ItemsRead(targets, ']', "= " + call);
    assert ("= " + call)[2..] == call;
    ApplicationRead(name, args + (")" + ""));
  }

  /** A call is read back exactly when no argument is empty; with an empty one it is an error or has another number of
      arguments. */
  lemma CallRead(ctx: Context, d: Dict, s: Step, vs: seq<Variable>)
    requires LocalsFit(ctx) && DictFits(DictAfter(s, d)) && ValuesFit(vs) && IsWord(FunctionOf(s))
    ensures var args := ArgTexts(DictAfter(s, d), InputArgs(ctx, Inputs(vs)));
            var read := ReadCall(CallText(ctx, d, s, vs));
            && ("" !in args ==> read == Some(Call(OutputArgs(ctx, Outputs(vs)) + ["StpResult"], FunctionOf(s), args)))
            && ("" in args && read.Some? ==> read.value.name == FunctionOf(s) && |read.value.args| != |args|)
  {
    hide ReadItems, Join, AllBalanced, IsWord, InputArgs, OutputArgs, ArgTexts, DictAfter, FunctionOf, ReadCall, LocalsFit,
         DictFits, ValuesFit, Inputs, Outputs;
    var args := ArgTexts(DictAfter(s, d), InputArgs(ctx, Inputs(vs)));
    var targets := OutputArgs(ctx, Outputs(vs)) + ["StpResult"];
    ArgsFit(ctx, DictAfter(s, d), vs);
    CallShape(FunctionOf(s), targets, Join(args));
    ItemsRead(args, ')', "");
  }
}
