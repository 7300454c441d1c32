/** The generator of GenerateOtx/generatedCode.py: from the step tree of a procedure to the text of its `main`. */
module Generator {
  import opened Wrappers
  import opened ArgumentList
  import opened Indentation

  // ---------------------------------------------------------------- the parsed procedure

  datatype When = Always | If | While

  datatype Condition =
    | Las(active: bool, lasId: Option<string>)
    | Previous(active: bool, at: When, value: string)
    | Programtic(active: bool, at: When, expression: string)
    | Unknown(active: bool)

  datatype Variable = Variable(name: string, inOut: int, varType: string, value: string, byBinding: bool,
                               bindGuid: string, isOptional: bool)

  datatype Assessment = Assessment(active: bool, action: string, atOk: bool, atNok: bool, atProgramatic: bool,
                                   atAbort: bool, programatic: string)

  datatype Step = Step(functionName: string, guid: string, active: bool, conditions: seq<Condition>,
                       variables: Option<seq<Variable>>, assessment: Option<Assessment>, steps: seq<Step>)

  datatype LocalVariable = LocalVariable(guid: string, name: string, isLas: bool, expression: Option<string>)

  /** The module-level lists while one procedure is generated, and the titles of the other procedures. */
  datatype Context = Context(locals: seq<LocalVariable>, titles: map<string, string>)

  /** `setValueDict`, in insertion order. */
  type Dict = seq<(string, string)>

  // ---------------------------------------------------------------- conditions

  datatype Texts = Texts(las: string, previous: string, expression: string, spaceNum: nat)

  function AfterFirst(s: string): string {
    if s == "" then "" else s[1..]
  }

  /** The expression of the last LAS variable with the given id, or what was there before. */
  function LasExpression(locals: seq<LocalVariable>, id: string, current: string): string {
    if locals == [] then current
    else
      var v := locals[|locals| - 1];
      if v.isLas && v.guid == id && v.expression.Some? then AfterFirst(v.expression.value)
      else LasExpression(locals[..|locals| - 1], id, current)
  }

  function Prefix(at: When): string {
    match at
    case Always => ""
    case If => "if("
    case While => "while("
  }

  function PreviousTest(value: string): string {
    if value == "OK" then "StpResult==StepResult.Ok"
    else if value == "NOK" then "StpResult==StepResult.Nok"
    else if value == "ABORT" then "StpResult==StepResult.Abort"
    else "True"
  }

  function ExpressionTest(expression: string): string {
    if expression == "" || expression == "true" then "True" else expression
  }

  /** One turn of the loop in `conditionsGenerated`. An active LAS condition without id is skipped with `continue`. */
  function OneCondition(ctx: Context, t: Texts, c: Condition): Texts {
    if !c.active then t
    else
      match c
      case Las(_, None) => t.(las := "True")
      case Las(_, Some(id)) =>
        t.(las := LineText(Line(t.spaceNum, "if(Evaluate('" + LasExpression(ctx.locals, id, t.las) + "')):")),
           spaceNum := t.spaceNum + 1)
      case Programtic(_, at, expression) =>
        t.(expression := if at == Always then ""
                         else LineText(Line(t.spaceNum, Prefix(at) + ExpressionTest(expression) + "):")),
           spaceNum := t.spaceNum + 1)
      case Previous(_, at, value) =>
        t.(previous := if at == Always then ""
                       else LineText(Line(t.spaceNum, Prefix(at) + PreviousTest(value) + "):")),
           spaceNum := t.spaceNum + 1)
      case Unknown(_) => t.(spaceNum := t.spaceNum + 1)
  }

  function Conditions(ctx: Context, t: Texts, cs: seq<Condition>): Texts {
    if cs == [] then t else OneCondition(ctx, Conditions(ctx, t, cs[..|cs| - 1]), cs[|cs| - 1])
  }

  function ConditionTexts(ctx: Context, cs: seq<Condition>, spaceNum: nat): Texts {
    Conditions(ctx, Texts("", "", "", spaceNum), cs)
  }

  function HeaderText(t: Texts): string {
    t.las + t.previous + t.expression
  }

  // ---------------------------------------------------------------- calls

  datatype Arg = Text(s: string) | SharedDict

  predicate IsInput(v: Variable) {
    v.inOut == 0 || v.inOut == 2
  }

  predicate IsOutput(v: Variable) {
    v.inOut == 1 || v.inOut == 2
  }

  /** The name of the first local variable a variable is bound to. */
  function Bound(locals: seq<LocalVariable>, v: Variable): Option<string> {
    if !v.byBinding || locals == [] then None
    else if locals[0].guid == v.bindGuid then Some(locals[0].name)
    else Bound(locals[1..], v)
  }

  predicate IsDigits(s: string) {
    s != "" && forall i :: 0 <= i < |s| ==> '0' <= s[i] <= '9'
  }

  /** `checkInputValueType`. */
  function InputArg(ctx: Context, v: Variable): Arg {
    var bound := Bound(ctx.locals, v);
    if bound.Some? then Text(bound.value)
    else if v.varType == "bool" then Text(if v.value != "true" then "False" else "True")
    else if v.varType == "int" then Text(if IsDigits(v.value) then v.value else "0")
    else if v.varType == "string" then Text(v.value)
    else if v.varType == "ecuDtObj" || v.varType == "vciResult" || v.varType == "StatStep" then
      Text(if v.value == "" then "None" else v.value)
    else if v.varType == "Dict" then SharedDict
    else Text(v.value)
  }

  /** `checkOutputValueType`. */
  function OutputArg(ctx: Context, v: Variable): string {
    var bound := Bound(ctx.locals, v);
    if bound.Some? then bound.value
    else if v.varType == "Dict" then "outParamDict"
    else if v.value == "" then (if v.isOptional then "UnneededOutParam" else "EmptyOutParam")
    else v.value
  }

  function Inputs(vs: seq<Variable>): seq<Variable> {
    if vs == [] then [] else (if IsInput(vs[0]) then [vs[0]] else []) + Inputs(vs[1..])
  }

  function Outputs(vs: seq<Variable>): seq<Variable> {
    if vs == [] then [] else (if IsOutput(vs[0]) then [vs[0]] else []) + Outputs(vs[1..])
  }

  /** `dict.update` with one pair. */
  function Put(d: Dict, key: string, value: string): Dict {
    if d == [] then [(key, value)]
    else if d[0].0 == key then [(key, value)] + d[1..]
    else [d[0]] + Put(d[1..], key, value)
  }

  /** The dictionary after the inputs of a `SetValue` step. */
  function PutAll(d: Dict, vs: seq<Variable>): Dict {
    if vs == [] then d else Put(PutAll(d, vs[..|vs| - 1]), vs[|vs| - 1].name, vs[|vs| - 1].value)
  }

  function DictAfter(s: Step, d: Dict): Dict {
    if s.functionName == "SetValue" && s.variables.Some? then PutAll(d, Inputs(s.variables.value)) else d
  }

  function Pairs(d: Dict): seq<string> {
    if d == [] then [] else ["'" + d[0].0 + "':'" + d[0].1 + "'"] + Pairs(d[1..])
  }

  function ArgText(d: Dict, a: Arg): string {
    match a
    case Text(s) => s
    case SharedDict => "{" + Join(Pairs(d)) + "}"
  }

  function InputArgs(ctx: Context, vs: seq<Variable>): (r: seq<Arg>)
    ensures |r| == |vs|
  {
    seq(|vs|, i requires 0 <= i < |vs| => InputArg(ctx, vs[i]))
  }

  function OutputArgs(ctx: Context, vs: seq<Variable>): (r: seq<string>)
    ensures |r| == |vs|
  {
    seq(|vs|, i requires 0 <= i < |vs| => OutputArg(ctx, vs[i]))
  }

  function ArgTexts(d: Dict, args: seq<Arg>): (r: seq<string>)
    ensures |r| == |args|
  {
    seq(|args|, i requires 0 <= i < |args| => ArgText(d, args[i]))
  }

  function CallOf(name: string, d: Dict, args: seq<Arg>, targets: seq<string>): string {
    "[" + Join(targets) + "]= " + name + "(" + Join(ArgTexts(d, args)) + ")"
  }

  function FunctionOf(s: Step): string {
    s.functionName + (if |s.guid| < 3 then "" else s.guid[3..])
  }

  /** The statement `baseVariablesLabelGenerated` writes; the dictionary is passed by reference, so it shows the pairs that
      the step itself adds. */
  function CallText(ctx: Context, d: Dict, s: Step, vs: seq<Variable>): string {
    CallOf(FunctionOf(s), DictAfter(s, d), InputArgs(ctx, Inputs(vs)), OutputArgs(ctx, Outputs(vs)) + ["StpResult"])
  }

  predicate CallsProcedure(s: Step) {
    s.functionName == "CallProcedureStep"
  }

  /** The statement `callProcedureStepGenerated` writes, for the last input; a missing input or procedure is an exception in
      the source, and no text here. */
  function ProcedureText(ctx: Context, vs: seq<Variable>): string {
    var ins := Inputs(vs);
    if ins == [] then "" else
    var uuid := ins[|ins| - 1].value;
    if uuid in ctx.titles then "os.popen('" + ctx.titles[uuid] + "_" + uuid + ".py')" else ""
  }

  function CancelHeader(): string {
    "if(StpResult==StepResult.Ok or " + "StpResult==StepResult.Nok):"
  }

  function RepeatHeader(a: Assessment): string {
    "while(StpResult==StepResult.Ok or " + a.programatic + "):"
  }

  function TerminateHeader(): string {
    "if(StpResult==StepResult.Ok or " + "StpResult==StepResult.Abort):"
  }

  /** `assementGenerated`. */
  function AssessmentStmts(a: Assessment, callAgain: string): seq<Stmt> {
    (if a.action == "Cancel" && a.atOk && a.atNok then
       [Compound(CancelHeader(), [Simple("return StpResult")])]
     else [])
    + (if Repeats(a) then
         [Compound(RepeatHeader(a), [Simple(callAgain)])]
       else [])
    + (if a.action == "Terminate" && a.atOk && a.atAbort then
         [Compound(TerminateHeader(), [Simple("exit()")])]
       else [])
  }

  predicate Repeats(a: Assessment) {
    a.action == "Repeat" && a.atOk && a.atProgramatic
  }

  /** The dictionary after the step's call is written, and after everything of its own is. */
  function CallDict(s: Step, d: Dict): Dict {
    if CallsProcedure(s) then d else DictAfter(s, d)
  }

  function OwnDict(s: Step, d: Dict): Dict {
    if s.assessment.Some? && s.assessment.value.active && Repeats(s.assessment.value)
    then DictAfter(s, CallDict(s, d))
    else CallDict(s, d)
  }

  /** What an active step itself contributes, under its conditions and before its children. */
  function Own(ctx: Context, d: Dict, s: Step): seq<Stmt> {
    (if s.variables.None? then []
     else [Simple(if CallsProcedure(s) then ProcedureText(ctx, s.variables.value)
                  else CallText(ctx, d, s, s.variables.value))])
    + (if s.assessment.Some? && s.assessment.value.active then
         AssessmentStmts(s.assessment.value, CallText(ctx, CallDict(s, d), s, s.variables.GetOr([])))
       else [])
  }

  // ---------------------------------------------------------------- the text

  /** What `stepsLabelGenerated` appends to the file, and the dictionary it leaves. */
  function StepsText(ctx: Context, steps: seq<Step>, spaceNum: nat, d: Dict): (string, Dict)
    decreases steps
  {
    if steps == [] then ("", d)
    else if !steps[0].active then StepsText(ctx, steps[1..], spaceNum, d)
    else
      var first := StepText(ctx, steps[0], spaceNum, d);
      var rest := StepsText(ctx, steps[1..], spaceNum, first.1);
      (first.0 + rest.0, rest.1)
  }

  function StepText(ctx: Context, s: Step, spaceNum: nat, d: Dict): (string, Dict)
    decreases s
  {
    var t := ConditionTexts(ctx, s.conditions, spaceNum);
    var kids := StepsText(ctx, s.steps, t.spaceNum, OwnDict(s, d));
    (HeaderText(t) + Render(Lines(Own(ctx, d, s), t.spaceNum)) + kids.0, kids.1)
  }

  function MainHeader(): string {
    "def main():"
  }

  function SignalLine(): string {
    "signal.signal(" + "signal.SIGUSR1,SignalHandler)"
  }

  function RecordLine(): string {
    "RecordStatblock_(statblockobj)"
  }

  function EndLine(): string {
    "EndCollectInfos_()"
  }

  /** What `getStepMainFun` writes behind the function definitions. */
  function MainText(ctx: Context, steps: seq<Step>, d: Dict): string {
    MainHeader() + "\n"
    + "\t" + SignalLine() + "\n"
    + "\t" + RecordLine() + "\n"
    + StepsText(ctx, steps, 1, d).0
    + "\t" + EndLine() + "\n"
  }
}
