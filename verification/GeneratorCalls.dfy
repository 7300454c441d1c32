/** The function definitions that generatedCode.py writes in front of `main`, and the calls in `main` that they serve. */
module GeneratorCalls {
  import opened Strings
  import opened Wrappers
  import opened ArgumentList
  import opened Indentation
  import opened Generator
  import opened GeneratorMeaning

  // ---------------------------------------------------------------- the text of a definition

  function Names(vs: seq<Variable>): (r: seq<string>)
    ensures |r| == |vs|
  {
    seq(|vs|, i requires 0 <= i < |vs| => vs[i].name)
  }

  /** The comma decided by the first index of an item: one too many when the last item also stands further in front. */
  function ExtraComma(parts: seq<string>): string {
    if parts != [] && parts[|parts| - 1] in parts[..|parts| - 1] then "," else ""
  }

  function CommaList(parts: seq<string>): string {
    Join(parts) + ExtraComma(parts)
  }

  /** The position of the first `x`: Python's `list.index`. */
  function FirstIndex(parts: seq<string>, x: string): (i: nat)
    requires x in parts
    ensures i < |parts| && parts[i] == x && x !in parts[..i]
  {
    if parts[0] == x then 0
    else
      assert x in parts[1..];
      1 + FirstIndex(parts[1..], x)
  }

  lemma JoinFront(parts: seq<string>, i: nat)
    requires i + 1 < |parts|
    ensures Join(parts[i..]) == parts[i] + "," + Join(parts[i + 1..])
  {
    assert parts[i..][1..] == parts[i + 1..];
  }

  /** The loop that joins parameters: a comma behind an item whose first index is not the last. */
  method JoinByIndex(parts: seq<string>) returns (text: string)
    ensures text == CommaList(parts)
  {
    hide Join, FirstIndex, ExtraComma;
    text := "";
    JoinStart(parts);
    for i := 0 to |parts|
      invariant i < |parts| ==> text + Join(parts[i..]) == Join(parts)
      invariant i == |parts| ==> text == CommaList(parts)
    {
      ghost var was := text;
      text := text + parts[i];
      if i + 1 < |parts| {
        JoinMore(parts, i, was);
      } else {
        JoinEnd(parts, was);
      }
      if FirstIndex(parts, parts[i]) + 1 < |parts| {
        text := text + ",";
      }
    }
  }

  lemma JoinStart(parts: seq<string>)
    ensures "" + Join(parts[0..]) == Join(parts) && (parts == [] ==> CommaList(parts) == "")
  {
    assert parts[0..] == parts;
  }

  lemma JoinMore(parts: seq<string>, i: nat, text: string)
    requires i + 1 < |parts|
    ensures FirstIndex(parts, parts[i]) + 1 < |parts|
    ensures text + parts[i] + "," + Join(parts[i + 1..]) == text + Join(parts[i..])
  {
    hide Join;
    JoinFront(parts, i);
    FirstNotBehind(parts, i);
    FourParts(text, parts[i], ",", Join(parts[i + 1..]));
  }

  lemma {:induction false} FirstNotBehind(parts: seq<string>, i: nat)
    requires i < |parts|
    ensures FirstIndex(parts, parts[i]) <= i
    decreases i
  {
    if i > 0 && parts[0] != parts[i] {
      assert parts[1..][i - 1] == parts[i];
      FirstNotBehind(parts[1..], i - 1);
    }
  }

  lemma FourParts(a: string, b: string, c: string, e: string)
    ensures a + b + c + e == a + (b + c + e)
  {
  }

  lemma JoinEnd(parts: seq<string>, text: string)
    requires parts != [] && text + Join(parts[|parts| - 1..]) == Join(parts)
    ensures var last := parts[|parts| - 1];
            text + last + (if FirstIndex(parts, last) + 1 < |parts| then "," else "") == CommaList(parts)
  {
    hide FirstIndex;
    var n := |parts| - 1;
    assert parts[n..] == [parts[n]];
    assert Join([parts[n]]) == parts[n];
    LastIndex(parts);
  }

  lemma LastIndex(parts: seq<string>)
    requires parts != []
    ensures var last := parts[|parts| - 1];
            FirstIndex(parts, last) + 1 < |parts| <==> last in parts[..|parts| - 1]
  {
    var last := parts[|parts| - 1];
    var i := FirstIndex(parts, last);
    if i + 1 < |parts| { assert parts[..|parts| - 1][i] == last; }
  }

  const TYPED := "GeneratedParameterType"

  function Typed(name: string): string {
    TYPED + "(" + name + ")"
  }

  function TypedAll(names: seq<string>): (r: seq<string>)
    ensures |r| == |names|
  {
    seq(|names|, i requires 0 <= i < |names| => Typed(names[i]))
  }

  /** Python's `" ".join`. */
  function Spaced(parts: seq<string>): string {
    if parts == [] then "" else if |parts| == 1 then parts[0] else parts[0] + " " + Spaced(parts[1..])
  }

  /** One element of the list that the log line is built of. */
  function LogPart(x: string): string {
    var inner := if |x| <= |TYPED| + 1 then "" else x[|TYPED| + 1..|x| - 1];
    "\", " + inner + " = \" + " + x + " +"
  }

  function LogParts(xs: seq<string>): (r: seq<string>)
    ensures |r| == |xs|
  {
    seq(|xs|, i requires 0 <= i < |xs| => LogPart(xs[i]))
  }

  /** `s[0] + s[2:-2]`. */
  function Trimmed(s: string): string {
    if s == "" then "" else [s[0]] + (if |s| <= 4 then "" else s[2..|s| - 2])
  }

  /** What the debug line logs about the parameters. */
  function LogText(names: seq<string>): string {
    Trimmed(Spaced(LogParts(Split(CommaList(TypedAll(names)), ','))))
  }

  function DefHeader(name: string, params: string): string {
    "def " + name + "(" + params + "):"
  }

  function LogLine(name: string, log: string): string {
    "MSGLogger.debug(\"Excute " + name + "\"" + log + ")"
  }

  function InputNames(vs: seq<Variable>): seq<string> {
    Names(Inputs(vs))
  }

  function OutputNames(vs: seq<Variable>): (r: seq<string>)
    ensures r != []
  {
    Names(Outputs(vs)) + ["StpResult"]
  }

  /** What `baseVariablesDefGenerated` writes. */
  function DefText(s: Step, vs: seq<Variable>): string {
    var ins, outs := InputNames(vs), OutputNames(vs);
    var params, results := CommaList(ins), "[" + CommaList(outs) + "]";
    DefHeader(FunctionOf(s), params) + "\n"
    + "\t" + LogLine(FunctionOf(s), if ins == [] then "" else " + " + LogText(ins)) + "\n"
    + "\t" + (results + "=" + s.functionName + "(" + params + ")") + "\n"
    + "\t" + ("return " + results) + "\n"
    + "\n"
  }

  /** The steps that get a definition: all with variables, active or not, in preorder. */
  function Defined(steps: seq<Step>): seq<Step>
    decreases steps
  {
    if steps == [] then []
    else (if steps[0].variables.Some? then [steps[0]] else []) + Defined(steps[0].steps) + Defined(steps[1..])
  }

  function DefTexts(defined: seq<Step>): string {
    if defined == [] then ""
    else DefText(defined[0], defined[0].variables.GetOr([])) + DefTexts(defined[1..])
  }

  /** What `getStepMainFun` writes. */
  function FileText(ctx: Context, steps: seq<Step>, d: Dict): string {
    DefTexts(Defined(steps)) + MainText(ctx, steps, d)
  }

  // ---------------------------------------------------------------- the log line

  /** Splitting at commas undoes joining with commas. */
  lemma {:induction false} SplitJoin(parts: seq<string>)
    requires parts != [] && forall i :: 0 <= i < |parts| ==> ',' !in parts[i]
    ensures Split(Join(parts), ',') == parts
    decreases |parts|
  {
    hide Split;
    if |parts| == 1 {
      SplitLast(parts[0], ',');
      assert [parts[0]] == parts;
    } else {
      SplitJoin(parts[1..]);
      SplitItem(parts[0], ',', Join(parts[1..]));
      assert [parts[0]] + parts[1..] == parts;
    }
  }

  function LogBody(name: string): string {
    name + " = \" + GeneratedParameterType(" + name + ")"
  }

  function LogBodies(names: seq<string>): string {
    if names == [] then "" else if |names| == 1 then LogBody(names[0])
    else LogBody(names[0]) + (" + \", " + LogBodies(names[1..]))
  }

  lemma PartOfTyped(name: string)
    ensures LogPart(Typed(name)) == "\", " + LogBody(name) + " +"
  {
    hide LogBody, Typed;
    var x := Typed(name);
    TypedInner(name);
    BodyIs(name);
    Associative(name, " = \" + ", x);
    Associative("\", ", name, " = \" + ");
    Associative("\", ", name + " = \" + ", x);
  }

  lemma TypedInner(name: string)
    ensures var x := Typed(name); |x| == |name| + |TYPED| + 2 && x[|TYPED| + 1..|x| - 1] == name
  {
  }

  lemma BodyIs(name: string)
    ensures LogBody(name) == name + " = \" + " + Typed(name)
  {
    assert " = \" + GeneratedParameterType(" == " = \" + " + (TYPED + "(");
  }

  lemma {:induction false} PartsSpaced(names: seq<string>)
    requires names != []
    ensures Spaced(LogParts(TypedAll(names))) == "\", " + LogBodies(names) + " +"
    decreases |names|
  {
    hide LogPart, LogBody, Typed;
    PartOfTyped(names[0]);
    var parts := LogParts(TypedAll(names));
    if |names| > 1 {
      PartsSpaced(names[1..]);
      assert parts[1..] == LogParts(TypedAll(names[1..]));
      PartsRegroup(LogBody(names[0]), LogBodies(names[1..]));
    }
  }

  lemma PartsRegroup(a: string, b: string)
    ensures ("\", " + a + " +") + " " + ("\", " + b + " +") == "\", " + (a + (" + \", " + b)) + " +"
  {
    assert " +" + " " + "\", " == " + \", ";
  }

  predicate Distinct<T(==)>(s: seq<T>) {
    forall i, j :: 0 <= i < j < |s| ==> s[i] != s[j]
  }

  lemma DistinctNoExtra(parts: seq<string>)
    requires Distinct(parts)
    ensures CommaList(parts) == Join(parts)
  {
  }

  lemma TypedDistinct(names: seq<string>)
    requires Distinct(names)
    ensures Distinct(TypedAll(names))
  {
    hide Typed;
    forall i, j | 0 <= i < j < |names| ensures Typed(names[i]) != Typed(names[j]) {
      if Typed(names[i]) == Typed(names[j]) { TypedInjective(names[i], names[j]); }
    }
  }

  lemma TypedInjective(a: string, b: string)
    requires Typed(a) == Typed(b)
    ensures a == b
  {
    var n := |TYPED| + 1;
    assert |a| == |b|;
    assert Typed(a)[n..n + |a|] == a && Typed(b)[n..n + |b|] == b;
  }

  lemma TypedNoComma(name: string)
    requires ',' !in name
    ensures ',' !in Typed(name)
  {
    assert ',' !in TYPED;
  }

  /** The string slicing of the log line amounts to `" a = " + f(a) + ", b = " + f(b)`. */
  lemma LogIs(names: seq<string>)
    requires names != [] && Distinct(names) && forall i :: 0 <= i < |names| ==> ',' !in names[i]
    ensures LogText(names) == "\" " + LogBodies(names)
  {
    hide Split, Join, Typed, TypedAll, LogParts, Spaced, LogBodies, Trimmed, CommaList;
    TypedDistinct(names);
    DistinctNoExtra(TypedAll(names));
    forall i | 0 <= i < |names| ensures ',' !in TypedAll(names)[i] {
      TypedAt(names, i);
      TypedNoComma(names[i]);
    }
    SplitJoin(TypedAll(names));
    PartsSpaced(names);
    Trim(LogBodies(names));
  }

  lemma TypedAt(names: seq<string>, i: nat)
    requires i < |names|
    ensures TypedAll(names)[i] == Typed(names[i])
  {
  }

  lemma Trim(b: string)
    ensures Trimmed("\", " + b + " +") == "\" " + b
  {
    var s := "\", " + b + " +";
    assert |"\", "| == 3 && |" +"| == 2;
    assert s[0] == '"';
    assert s[2..|s| - 2] == " " + b;
  }
}
