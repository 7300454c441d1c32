/** What a call in the generated file passes on: the XML's values as Python reads them, in their order, to a function that
    hands them to the library function of the step and returns its results. */
module CallMeaning {
  import opened Strings
  import opened Wrappers
  import opened ArgumentList
  import opened Indentation
  import opened Generator
  import opened GeneratorCalls
  import opened CallArity

  // ---------------------------------------------------------------- single arguments

  function ReadBool(text: string): Option<bool> {
    if text == "True" then Some(true) else if text == "False" then Some(false) else None
  }

  function Digit(c: char): nat {
    if '0' <= c <= '9' then c as int - '0' as int else 0
  }

  function Decimal(text: string): nat {
    if text == "" then 0 else 10 * Decimal(text[..|text| - 1]) + Digit(text[|text| - 1])
  }

  /** A decimal literal of Python: digits, with a zero in front only if there are nothing but zeros. */
  predicate IsLiteral(text: string) {
    IsDigits(text) && (text[0] == '0' ==> forall i :: 0 <= i < |text| ==> text[i] == '0')
  }

  /** The local variable that a bound variable stands for: the first with the guid it is bound to. */
  lemma {:induction false} BoundIs(locals: seq<LocalVariable>, v: Variable, k: nat)
    requires v.byBinding && k < |locals| && locals[k].guid == v.bindGuid
    requires forall i :: 0 <= i < k ==> locals[i].guid != v.bindGuid
    ensures Bound(locals, v) == Some(locals[k].name)
    decreases k
  {
    if k > 0 { BoundIs(locals[1..], v, k - 1); }
  }

  lemma {:induction false} NotBound(locals: seq<LocalVariable>, v: Variable)
    requires !v.byBinding || forall i :: 0 <= i < |locals| ==> locals[i].guid != v.bindGuid
    ensures Bound(locals, v) == None
    decreases |locals|
  {
    if v.byBinding && locals != [] { NotBound(locals[1..], v); }
  }

  /** What an input is to Python: a bound variable is the local variable; a bool has the XML's truth value; an int has the
      XML's number, or 0 if that is none; objects without a value are None. An int is a Python literal exactly if the XML's
      number has no needless zero in front. */
  lemma InputMeans(ctx: Context, d: Dict, v: Variable)
    ensures var bound, text := Bound(ctx.locals, v), ArgText(d, InputArg(ctx, v));
            && (bound.Some? ==> text == bound.value)
            && (bound.None? && v.varType == "bool" ==> ReadBool(text) == Some(v.value == "true"))
            && (bound.None? && v.varType == "int" ==>
                  && Decimal(text) == (if IsDigits(v.value) then Decimal(v.value) else 0)
                  && (IsLiteral(text) <==> (IsDigits(v.value) && v.value[0] == '0' ==>
                                              forall i :: 0 <= i < |v.value| ==> v.value[i] == '0')))
            && (bound.None? && v.varType in {"ecuDtObj", "vciResult", "StatStep"} ==>
                  text == if v.value == "" then "None" else v.value)
            && (bound.None? && v.varType !in {"bool", "int", "ecuDtObj", "vciResult", "StatStep", "Dict"} ==> text == v.value)
  {
    hide Bound, Join, Pairs;
    assert Decimal("0") == 0 by { assert "0"[..0] == ""; }
  }

  /** What an output is assigned to. */
  lemma OutputMeans(ctx: Context, v: Variable)
    ensures var bound, text := Bound(ctx.locals, v), OutputArg(ctx, v);
            && (bound.Some? ==> text == bound.value)
            && (bound.None? && v.varType == "Dict" ==> text == "outParamDict")
            && (bound.None? && v.varType != "Dict" && v.value != "" ==> text == v.value)
            && (bound.None? && v.varType != "Dict" && v.value == "" ==>
                  text == if v.isOptional then "UnneededOutParam" else "EmptyOutParam")
  {
    hide Bound;
  }

  // ---------------------------------------------------------------- the dictionary

  function Lookup(d: Dict, key: string): Option<string> {
    if d == [] then None else if d[0].0 == key then Some(d[0].1) else Lookup(d[1..], key)
  }

  /** `update` with one pair changes the value of its key and of no other. */
  lemma {:induction false} PutLookedUp(d: Dict, key: string, value: string, other: string)
    ensures Lookup(Put(d, key, value), other) == if other == key then Some(value) else Lookup(d, other)
    decreases |d|
  {
    if d != [] && d[0].0 != key { PutLookedUp(d[1..], key, value, other); }
  }

  predicate KeysOnce(d: Dict) {
    forall i, j :: 0 <= i < j < |d| ==> d[i].0 != d[j].0
  }

  lemma {:induction false} PutKeys(d: Dict, key: string, value: string)
    requires KeysOnce(d)
    ensures KeysOnce(Put(d, key, value))
    ensures forall i :: 0 <= i < |Put(d, key, value)| ==>
              Put(d, key, value)[i].0 == key || exists j :: 0 <= j < |d| && d[j].0 == Put(d, key, value)[i].0
    decreases |d|
  {
    if d != [] && d[0].0 != key {
      var rest := d[1..];
      assert forall j :: 0 <= j < |rest| ==> rest[j] == d[j + 1];
      PutKeys(rest, key, value);
    }
  }

  /** The inputs of a `SetValue` step give each name the value of the last of them that has it, and leave other keys alone. */
  lemma {:induction false} SetValueSets(d: Dict, vs: seq<Variable>, name: string, k: nat)
    requires k <= |vs| && (k < |vs| ==> vs[k].name == name) && forall i :: k < i < |vs| ==> vs[i].name != name
    requires k == |vs| ==> forall i :: 0 <= i < |vs| ==> vs[i].name != name
    ensures Lookup(PutAll(d, vs), name) == if k < |vs| then Some(vs[k].value) else Lookup(d, name)
    decreases |vs|
  {
    hide Put, Lookup;
    if vs != [] {
      var n := |vs| - 1;
      PutLookedUp(PutAll(d, vs[..n]), vs[n].name, vs[n].value, name);
      if k < n {
        SetValueSets(d, vs[..n], name, k);
      } else if k == |vs| {
        SetValueSets(d, vs[..n], name, n);
      }
    }
  }

  /** `'key':'value'`. */
  function ReadPair(text: string): Option<(string, string)> {
    if !("'" <= text) then None
    else
      var n := UpTo(text[1..], '\'');
      if n == |text| - 1 || !("':'" <= text[n + 1..]) || text[|text| - 1] != '\'' || n + 4 >= |text| then None
      else Some((text[1..n + 1], text[n + 4..|text| - 1]))
  }

  lemma PairRead(key: string, value: string)
    requires Quotable(key)
    ensures ReadPair("'" + key + "':'" + value + "'") == Some((key, value))
  {
    var text := "'" + key + "':'" + value + "'";
    QuotableUnquoted(key);
    UpToFound(key, '\'', ":'" + value + "'");
    assert text[1..] == key + ['\''] + (":'" + value + "'");
    assert text[|key| + 1..] == "':'" + value + "'";
    assert text[1..|key| + 1] == key && text[|key| + 4..|text| - 1] == value;
  }

  lemma QuotableUnquoted(s: string)
    requires Quotable(s)
    ensures '\'' !in s
  {
  }

  /** The dictionary in an argument is read back pair by pair. */
  lemma DictRead(d: Dict, rest: string)
    requires DictFits(d)
    ensures ReadItems(Join(Pairs(d)) + "}" + rest, '}') == Success((Pairs(d), rest))
    ensures |Pairs(d)| == |d| && forall i :: 0 <= i < |d| ==> ReadPair(Pairs(d)[i]) == Some(d[i])
  {
    hide ReadItems, Join, Quotable, ReadPair, Balanced;
    PairsAre(d);
    ItemsRead(Pairs(d), '}', rest);
    assert Join(Pairs(d)) + "}" + rest == Join(Pairs(d)) + (['}'] + rest);
  }

  lemma PairBalanced(key: string, value: string)
    requires Quotable(key) && Quotable(value)
    ensures Balanced("'" + key + "':'" + value + "'")
  {
    hide Run;
    var k, v := "'" + key + "'", "'" + value + "'";
    QuoteRun(TOP, key);
    QuoteRun(TOP, value);
    OneChar(TOP, ':');
    RunJoin(TOP, k, ":");
    RunJoin(TOP, k + ":", v);
    PairRegroup(key, value);
  }

  lemma {:induction false} PairsAre(d: Dict)
    requires DictFits(d)
    ensures |Pairs(d)| == |d| && "" !in Pairs(d) && AllBalanced(Pairs(d))
    ensures forall i :: 0 <= i < |d| ==> ReadPair(Pairs(d)[i]) == Some(d[i])
    decreases |d|
  {
    hide Quotable, ReadPair, Balanced;
    if d != [] {
      PairBalanced(d[0].0, d[0].1);
      PairRead(d[0].0, d[0].1);
      PairsAre(d[1..]);
      var rest := Pairs(d[1..]);
      assert Pairs(d)[1..] == rest && |Pairs(d)[0]| > 0;
      forall i | 0 <= i < |d| ensures ReadPair(Pairs(d)[i]) == Some(d[i]) && Balanced(Pairs(d)[i]) {
        if i > 0 { assert Pairs(d)[i] == rest[i - 1] && d[i] == d[1..][i - 1]; }
      }
    }
  }

  // ---------------------------------------------------------------- whole calls

  lemma {:induction false} InputsUpTo(vs: seq<Variable>, i: nat)
    requires i < |vs|
    ensures vs[i].inOut in {0, 2} ==> |Inputs(vs[..i])| < |Inputs(vs)| && Inputs(vs)[|Inputs(vs[..i])|] == vs[i]
    ensures vs[i].inOut in {1, 2} ==> |Outputs(vs[..i])| < |Outputs(vs)| && Outputs(vs)[|Outputs(vs[..i])|] == vs[i]
    decreases i
  {
    if i == 0 {
      assert vs[..0] == [];
    } else {
      InputsUpTo(vs[1..], i - 1);
      assert vs[..i][1..] == vs[1..][..i - 1] && vs[..i][0] == vs[0];
    }
  }

  lemma {:induction false} InputsCount(vs: seq<Variable>)
    ensures forall v :: v in Inputs(vs) ==> v.inOut in {0, 2}
    ensures forall v :: v in Outputs(vs) ==> v.inOut in {1, 2}
    decreases |vs|
  {
    if vs != [] { InputsCount(vs[1..]); }
  }

  /** A call passes its variables of kind 0 (in) and 2 (both) in their order, receives those of kind 1 (out) and 2 in their
      order, and the result of the step behind them. */
  lemma CallPasses(ctx: Context, d: Dict, s: Step, vs: seq<Variable>, i: nat)
    requires LocalsFit(ctx) && DictFits(DictAfter(s, d)) && ValuesFit(vs) && IsWord(FunctionOf(s)) && i < |vs|
    requires "" !in ArgTexts(DictAfter(s, d), InputArgs(ctx, Inputs(vs)))
    ensures var read := ReadCall(CallText(ctx, d, s, vs));
            && read.Some? && read.value.targets != [] && read.value.targets[|read.value.targets| - 1] == "StpResult"
            && (vs[i].inOut in {0, 2} ==>
                  |Inputs(vs[..i])| < |read.value.args|
                  && read.value.args[|Inputs(vs[..i])|] == ArgText(DictAfter(s, d), InputArg(ctx, vs[i])))
            && (vs[i].inOut in {1, 2} ==>
                  |Outputs(vs[..i])| < |read.value.targets| - 1
                  && read.value.targets[|Outputs(vs[..i])|] == OutputArg(ctx, vs[i]))
  {
    hide ReadCall, CallText, DictAfter, ArgText, InputArg, OutputArg, Inputs, Outputs, LocalsFit, DictFits, ValuesFit, IsWord;
    CallRead(ctx, d, s, vs);
    InputsUpTo(vs, i);
  }

  // ---------------------------------------------------------------- definitions

  /** `[result, ...]=name(item, ...)`. */
  function ReadAssignment(s: Stmt): Option<Call> {
    if s.Compound? || !("[" <= s.text) then None
    else
      var t := ReadItems(s.text[1..], ']');
      if t.Failure? || !("=" <= t.value.1) then None
      else
        var app := ReadApplication(t.value.1[1..]);
        if app.None? || app.value.2 != "" then None else Some(Call(t.value.0, app.value.0, app.value.1))
  }

  lemma AssignmentRegroup(outs: string, name: string, ins: string)
    ensures "[" + outs + "]" + "=" + name + "(" + ins + ")" == "[" + (outs + ("]" + ("=" + (name + "(" + (ins + (")" + ""))))))
  {
  }

  /** The second statement of a definition calls the library function of the step with the definition's own parameters, and
      assigns exactly the names that the last statement returns. */
  lemma DefForwards(s: Step)
    requires DefFits(s)
    ensures var vs, body := s.variables.value, DefStmt(s).body;
            && |body| == 3 && ReadReturn(body[2]) == Some(OutputNames(vs))
            && ReadAssignment(body[1]) == Some(Call(OutputNames(vs), s.functionName, InputNames(vs)))
  {
    hide ReadItems, ReadApplication, CommaList, IsWord, ReadReturn, OutputNames, InputNames, FunctionOf, LogStmt, ReturnStmt;
    var ins, outs := InputNames(s.variables.value), OutputNames(s.variables.value);
    NamesAreWords(s);
    ReturnRead(s);
    var call := s.functionName + "(" + (CommaList(ins) + (")" + ""));
    NamesRead(ins, ')', "");
    NamesRead(outs, ']', "=" + call);
    ApplicationRead(s.functionName, CommaList(ins) + (")" + ""));
    AssignmentRegroup(CommaList(outs), s.functionName, CommaList(ins));
    var tail := CommaList(outs) + ("]" + ("=" + call));
    assert BodyStmt(s).text == "[" + tail;
    assert ("[" + tail)[1..] == tail && ("=" + call)[1..] == call;
  }
}
