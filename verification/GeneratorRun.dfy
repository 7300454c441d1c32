/** Running the generated `main`: the text does what the step tree says.

    Expressions in headers and the statements themselves are Python calls into libraries, so they are arbitrary functions of
    the program's state; a statement may also end the run, as `return` and `exit()` do. Headers that only ask for the
    result of the last step hold as Python has it, and `if` and `while` mean what they mean in Python. `fuel` bounds the
    turns of loops that are under way, so that the meaning is a function; with enough of it a run that ends has ended. */
module GeneratorRun {
  import opened Wrappers
  import opened Indentation
  import opened Generator
  import opened GeneratorMeaning
  import opened HeaderMeaning

  datatype Outcome<S> = Running(state: S) | Ended(state: S) | OutOfFuel

  /** `result` is the value of `StpResult`. */
  datatype Machine<!S> = Machine(result: S -> StepResult, holds: (string, S) -> bool, exec: (string, S) -> Outcome<S>)

  /** Headers that the result decides are decided by it. */
  ghost predicate Faithful<S(!new)>(m: Machine<S>) {
    forall header: string, s: S ::
      HeaderVerdict(header, m.result(s)).Some? ==> m.holds(header, s) == HeaderVerdict(header, m.result(s)).value
  }

  predicate IsLoop(header: string) {
    "while" <= header
  }

  // ---------------------------------------------------------------- programs

  function RunAll<S>(m: Machine<S>, stmts: seq<Stmt>, s: S, fuel: nat): Outcome<S>
    decreases fuel, stmts
  {
    if stmts == [] then Running(s)
    else
      match RunOne(m, stmts[0], s, fuel)
      case Running(next) => RunAll(m, stmts[1..], next, fuel)
      case Ended(last) => Ended(last)
      case OutOfFuel => OutOfFuel
  }

  function RunOne<S>(m: Machine<S>, stmt: Stmt, s: S, fuel: nat): Outcome<S>
    decreases fuel, stmt
  {
    match stmt
    case Simple(text) => m.exec(text, s)
    case Compound(header, body) =>
      if !m.holds(header, s) then Running(s)
      else if !IsLoop(header) then RunAll(m, body, s, fuel)
      else if fuel == 0 then OutOfFuel
      else
        match RunAll(m, body, s, fuel - 1)
        case Running(next) => RunOne(m, stmt, next, fuel - 1)
        case Ended(last) => Ended(last)
        case OutOfFuel => OutOfFuel
  }

  // ---------------------------------------------------------------- step trees

  /** Whether a condition is asked again after the step. */
  predicate AsksAgain(c: Condition) {
    (c.Previous? || c.Programtic?) && c.at == While
  }

  /** Whether a condition lets the step run: at the result it names; always, if its expression is empty; otherwise as the
      expression says. */
  predicate Met<S>(ctx: Context, m: Machine<S>, c: Condition, s: S) {
    match c
    case Las(_, id) => m.holds("if(Evaluate('" + LasExpression(ctx.locals, id.GetOr(""), "") + "')):", s)
    case Previous(_, _, value) => PreviousMet(value, m.result(s))
    case Programtic(_, at, expression) =>
      expression in {"", "true"} || m.holds((if at == While then "while(" else "if(") + expression + "):", s)
    case Unknown(_) => true
  }

  /** What a step does itself: its statement, then what its assessment asks for. */
  function RunOwn<S>(ctx: Context, m: Machine<S>, d: Dict, step: Step, s: S, fuel: nat): Outcome<S> {
    var first := if step.variables.None? then Running(s)
                 else if CallsProcedure(step) then m.exec(ProcedureText(ctx, step.variables.value), s)
                 else m.exec(CallText(ctx, d, step, step.variables.value), s);
    if first.Running? && step.assessment.Some? && step.assessment.value.active
    then Assess(m, step.assessment.value, CallText(ctx, CallDict(step, d), step, step.variables.GetOr([])), first.state, fuel)
    else first
  }

  /** Cancel after Ok or Nok, repeat the call while Ok or as the expression says, terminate after Ok or Abort; each only if
      both of its switches are on. */
  function Assess<S>(m: Machine<S>, a: Assessment, again: string, s: S, fuel: nat): Outcome<S> {
    if a.action == "Cancel" && a.atOk && a.atNok then
      if m.result(s) in {Ok, Nok} then m.exec("return StpResult", s) else Running(s)
    else if a.action == "Repeat" && a.atOk && a.atProgramatic then RepeatCall(m, a.programatic, again, s, fuel)
    else if a.action == "Terminate" && a.atOk && a.atAbort then
      if m.result(s) in {Ok, Abort} then m.exec("exit()", s) else Running(s)
    else Running(s)
  }

  function RepeatCall<S>(m: Machine<S>, expression: string, again: string, s: S, fuel: nat): Outcome<S>
    decreases fuel
  {
    if !m.holds("while(StpResult==StepResult.Ok or " + expression + "):", s) then Running(s)
    else if fuel == 0 then OutOfFuel
    else
      match m.exec(again, s)
      case Running(next) => RepeatCall(m, expression, again, next, fuel - 1)
      case Ended(last) => Ended(last)
      case OutOfFuel => OutOfFuel
  }

  /** The active steps in order. */
  function RunSteps<S>(ctx: Context, m: Machine<S>, steps: seq<Step>, d: Dict, s: S, fuel: nat): Outcome<S>
    decreases fuel, steps
  {
    if steps == [] then Running(s)
    else if !steps[0].active then RunSteps(ctx, m, steps[1..], d, s, fuel)
    else
      match RunStep(ctx, m, steps[0], Active(steps[0].conditions), d, s, fuel)
      case Running(next) => RunSteps(ctx, m, steps[1..], ProgramOf(ctx, steps[0], d).1, next, fuel)
      case Ended(last) => Ended(last)
      case OutOfFuel => OutOfFuel
  }

  /** A step under the conditions that are still to be asked; behind the last one its own statements and its children. */
  function RunStep<S>(ctx: Context, m: Machine<S>, step: Step, cs: seq<Condition>, d: Dict, s: S, fuel: nat): Outcome<S>
    decreases fuel, step, |cs|
  {
    if cs == [] then
      match RunOwn(ctx, m, d, step, s, fuel)
      case Running(next) => RunSteps(ctx, m, step.steps, OwnDict(step, d), next, fuel)
      case Ended(last) => Ended(last)
      case OutOfFuel => OutOfFuel
    else if !Met(ctx, m, cs[0], s) then Running(s)
    else if !AsksAgain(cs[0]) then RunStep(ctx, m, step, cs[1..], d, s, fuel)
    else if fuel == 0 then OutOfFuel
    else
      match RunStep(ctx, m, step, cs[1..], d, s, fuel - 1)
      case Running(next) => RunStep(ctx, m, step, cs, d, next, fuel - 1)
      case Ended(last) => Ended(last)
      case OutOfFuel => OutOfFuel
  }

  // ---------------------------------------------------------------- the two agree

  lemma {:induction false} RunJoin<S>(m: Machine<S>, a: seq<Stmt>, b: seq<Stmt>, s: S, fuel: nat)
    ensures RunAll(m, a + b, s, fuel)
         == var first := RunAll(m, a, s, fuel); if first.Running? then RunAll(m, b, first.state, fuel) else first
    decreases |a|
  {
    hide RunOne;
    if a == [] {
      assert a + b == b;
    } else {
      assert (a + b)[1..] == a[1..] + b && (a + b)[0] == a[0];
      var one := RunOne(m, a[0], s, fuel);
      if one.Running? { RunJoin(m, a[1..], b, one.state, fuel); }
    }
  }

  lemma RunBlock<S>(m: Machine<S>, stmt: Stmt, s: S, fuel: nat)
    ensures RunAll(m, [stmt], s, fuel) == RunOne(m, stmt, s, fuel)
  {
    hide RunOne;
    assert [stmt][1..] == [];
  }

  /** A header is that of a loop exactly if its condition asks again. */
  lemma HeaderLoops(ctx: Context, c: Condition)
    requires WritesHeader(c)
    ensures IsLoop(Header(ctx, c)) <==> AsksAgain(c)
  {
    hide LasExpression, ExpressionTest, PreviousTest;
    var h := Header(ctx, c);
    assert h[0] == if AsksAgain(c) then 'w' else 'i';
    if AsksAgain(c) { assert "while" <= Prefix(While) <= h; }
  }

  /** A header holds exactly if its condition is met. */
  lemma HeaderMet<S(!new)>(ctx: Context, m: Machine<S>, c: Condition, s: S)
    requires Faithful(m) && WritesHeader(c)
    ensures m.holds(Header(ctx, c), s) == Met(ctx, m, c, s)
  {
    hide HeaderVerdict, LasExpression, PreviousTest, PreviousMet;
    if c.Previous? {
      PreviousHolds(ctx, c, m.result(s));
    } else if c.Programtic? && c.expression in {"", "true"} {
      EmptyExpressionHolds(ctx, c, m.result(s));
    }
  }

  lemma RunNothing<S>(m: Machine<S>, s: S, fuel: nat)
    ensures RunAll(m, [], s, fuel) == Running(s)
  {
  }

  lemma RunSimple<S>(m: Machine<S>, text: string, s: S, fuel: nat)
    ensures RunAll(m, [Simple(text)], s, fuel) == m.exec(text, s)
  {
    RunBlock(m, Simple(text), s, fuel);
  }

  /** One statement in a block. */
  lemma RunGuarded<S>(m: Machine<S>, header: string, text: string, s: S, fuel: nat)
    requires !IsLoop(header)
    ensures RunAll(m, [Compound(header, [Simple(text)])], s, fuel)
         == if m.holds(header, s) then m.exec(text, s) else Running(s)
  {
    hide RunAll, IsLoop;
    RunBlock(m, Compound(header, [Simple(text)]), s, fuel);
    RunSimple(m, text, s, fuel);
  }

  lemma {:induction false} RunRepeat<S>(m: Machine<S>, a: Assessment, again: string, s: S, fuel: nat)
    ensures RunAll(m, [Compound(RepeatHeader(a), [Simple(again)])], s, fuel) == RepeatCall(m, a.programatic, again, s, fuel)
    decreases fuel
  {
    hide RunAll;
    var loop := Compound(RepeatHeader(a), [Simple(again)]);
    assert IsLoop(RepeatHeader(a)) by { RepeatLoops(a); }
    RunBlock(m, loop, s, fuel);
    if m.holds(RepeatHeader(a), s) && fuel > 0 {
      RunSimple(m, again, s, fuel - 1);
      var turn := m.exec(again, s);
      if turn.Running? {
        RunRepeat(m, a, again, turn.state, fuel - 1);
        RunBlock(m, loop, turn.state, fuel - 1);
      }
    }
  }

  lemma RepeatLoops(a: Assessment)
    ensures IsLoop(RepeatHeader(a))
  {
    assert "while" <= "while(StpResult==StepResult.Ok or " <= RepeatHeader(a);
  }

  lemma OthersDoNotLoop()
    ensures !IsLoop(CancelHeader()) && !IsLoop(TerminateHeader())
  {
    assert CancelHeader()[0] == 'i' && TerminateHeader()[0] == 'i' && "while"[0] == 'w';
  }

  /** The blocks written for an assessment do what it asks for. */
  lemma AssessmentRuns<S(!new)>(m: Machine<S>, a: Assessment, again: string, s: S, fuel: nat)
    requires Faithful(m)
    ensures RunAll(m, AssessmentStmts(a, again), s, fuel) == Assess(m, a, again, s, fuel)
  {
    hide RunAll, RepeatCall, CancelHeader, TerminateHeader, RepeatHeader, IsLoop, HeaderVerdict;
    AssessmentHolds(m.result(s));
    OthersDoNotLoop();
    RunGuarded(m, CancelHeader(), "return StpResult", s, fuel);
    RunGuarded(m, TerminateHeader(), "exit()", s, fuel);
    RunRepeat(m, a, again, s, fuel);
    RunNothing(m, s, fuel);
    ActionIs(a, again);
    ActionsDiffer(a);
  }

  /** A step's own lines do what the step asks for. */
  lemma OwnRuns<S(!new)>(ctx: Context, m: Machine<S>, d: Dict, step: Step, s: S, fuel: nat)
    requires Faithful(m)
    ensures RunAll(m, Own(ctx, d, step), s, fuel) == RunOwn(ctx, m, d, step, s, fuel)
  {
    hide RunAll, Assess, AssessmentStmts, CallText, ProcedureText, CallDict, CallsProcedure, Faithful;
    var call := if step.variables.None? then []
                else [Simple(if CallsProcedure(step) then ProcedureText(ctx, step.variables.value)
                             else CallText(ctx, d, step, step.variables.value))];
    var again := CallText(ctx, CallDict(step, d), step, step.variables.GetOr([]));
    var rest := if step.assessment.Some? && step.assessment.value.active then AssessmentStmts(step.assessment.value, again)
                else [];
    assert Own(ctx, d, step) == call + rest;
    RunJoin(m, call, rest, s, fuel);
    RunNothing(m, s, fuel);
    if step.variables.Some? {
      RunSimple(m, if CallsProcedure(step) then ProcedureText(ctx, step.variables.value)
                   else CallText(ctx, d, step, step.variables.value), s, fuel);
    }
    var first := RunAll(m, call, s, fuel);
    if first.Running? {
      RunNothing(m, first.state, fuel);
      if step.assessment.Some? { AssessmentRuns(m, step.assessment.value, again, first.state, fuel); }
    }
  }

  predicate AllWrite(cs: seq<Condition>) {
    forall i :: 0 <= i < |cs| ==> WritesHeader(cs[i])
  }

  lemma HeadersFirst(ctx: Context, cs: seq<Condition>)
    requires cs != []
    ensures HeadersOf(ctx, cs) == [Header(ctx, cs[0])] + HeadersOf(ctx, cs[1..])
  {
    hide Header;
  }

  lemma {:induction false} StepRuns<S(!new)>(ctx: Context, m: Machine<S>, step: Step, cs: seq<Condition>, d: Dict, s: S, fuel: nat)
    requires Faithful(m) && AllWrite(cs) && AllCanonical(step.steps)
    ensures RunAll(m, Nest(HeadersOf(ctx, cs), Own(ctx, d, step) + Program(ctx, step.steps, OwnDict(step, d)).0), s, fuel)
         == RunStep(ctx, m, step, cs, d, s, fuel)
    decreases fuel, step, |cs|
  {
    hide Own, OwnDict, Header, WritesHeader, IsLoop, AsksAgain, Program, AllCanonical, Met, RunOwn, Faithful;
    var body := Own(ctx, d, step) + Program(ctx, step.steps, OwnDict(step, d)).0;
    if cs == [] {
      assert HeadersOf(ctx, cs) == [];
      RunJoin(m, Own(ctx, d, step), Program(ctx, step.steps, OwnDict(step, d)).0, s, fuel);
      OwnRuns(ctx, m, d, step, s, fuel);
      var own := RunOwn(ctx, m, d, step, s, fuel);
      if own.Running? { StepsRun(ctx, m, step.steps, OwnDict(step, d), own.state, fuel); }
    } else {
      HeadersFirst(ctx, cs);
      HeaderLoops(ctx, cs[0]);
      HeaderMet(ctx, m, cs[0], s);
      var hs := HeadersOf(ctx, cs);
      assert hs[1..] == HeadersOf(ctx, cs[1..]) && hs[0] == Header(ctx, cs[0]);
      var loop := Compound(hs[0], Nest(hs[1..], body));
      RunBlock(m, loop, s, fuel);
      assert AllWrite(cs[1..]);
      if m.holds(hs[0], s) {
        if !IsLoop(hs[0]) {
          StepRuns(ctx, m, step, cs[1..], d, s, fuel);
        } else if fuel > 0 {
          StepRuns(ctx, m, step, cs[1..], d, s, fuel - 1);
          var turn := RunStep(ctx, m, step, cs[1..], d, s, fuel - 1);
          if turn.Running? {
            RunBlock(m, loop, turn.state, fuel - 1);
            StepRuns(ctx, m, step, cs, d, turn.state, fuel - 1);
          }
        }
      }
    }
  }

  /** Running the program of a step list is running the steps. */
  lemma {:induction false} StepsRun<S(!new)>(ctx: Context, m: Machine<S>, steps: seq<Step>, d: Dict, s: S, fuel: nat)
    requires Faithful(m) && AllCanonical(steps)
    ensures RunAll(m, Program(ctx, steps, d).0, s, fuel) == RunSteps(ctx, m, steps, d, s, fuel)
    decreases fuel, steps
  {
    hide RunStep, Nest, Own, OwnDict, Canonical, AllWrite, Faithful;
    if steps != [] {
      var rest := steps[1..];
      assert steps[0] in steps && forall t :: t in rest ==> t in steps;
      if steps[0].active {
        var first := ProgramOf(ctx, steps[0], d);
        CanonicalWrites(steps[0].conditions);
        StepRuns(ctx, m, steps[0], Active(steps[0].conditions), d, s, fuel);
        RunJoin(m, first.0, Program(ctx, rest, first.1).0, s, fuel);
        var one := RunAll(m, first.0, s, fuel);
        if one.Running? { StepsRun(ctx, m, rest, first.1, one.state, fuel); }
      } else {
        StepsRun(ctx, m, rest, d, s, fuel);
      }
    }
  }

  lemma CanonicalWrites(cs: seq<Condition>)
    requires Canonical(cs)
    ensures AllWrite(Active(cs))
  {
  }

  /** The generated text of `main`, read as Python reads it and run, executes exactly the active steps of the tree, in order,
      each as often as its conditions hold: whatever the statements do, whatever the state. */
  lemma MainRunsTree<S(!new)>(ctx: Context, m: Machine<S>, steps: seq<Step>, d: Dict, s: S, fuel: nat)
    requires Faithful(m) && AllCanonical(steps) && Fits(ctx, steps, d)
    ensures var main := ParseText(MainText(ctx, steps, d));
            && main.Success? && |main.value| == 1 && main.value[0].Compound?
            && RunAll(m, main.value[0].body, s, fuel)
               == var begun := RunAll(m, Begin(), s, fuel);
                  if !begun.Running? then begun
                  else
                    var done := RunSteps(ctx, m, steps, d, begun.state, fuel);
                    if !done.Running? then done else RunAll(m, Finish(), done.state, fuel)
  {
    hide RunAll, RunSteps, ParseText, MainText, Program, Fits, AllCanonical, Begin, Finish, Faithful;
    var middle := Program(ctx, steps, d).0;
    MainMeansTree(ctx, steps, d);
    RunJoin(m, Begin() + middle, Finish(), s, fuel);
    RunJoin(m, Begin(), middle, s, fuel);
    var begun := RunAll(m, Begin(), s, fuel);
    if begun.Running? { StepsRun(ctx, m, steps, d, begun.state, fuel); }
  }

  // ---------------------------------------------------------------- fuel

  /** More fuel changes nothing once there is enough. */
  lemma {:induction false} FuelEnough<S>(m: Machine<S>, stmts: seq<Stmt>, s: S, fuel: nat, more: nat)
    requires fuel <= more && !RunAll(m, stmts, s, fuel).OutOfFuel?
    ensures RunAll(m, stmts, s, more) == RunAll(m, stmts, s, fuel)
    decreases fuel, stmts
  {
    if stmts != [] {
      FuelEnoughForOne(m, stmts[0], s, fuel, more);
      var one := RunOne(m, stmts[0], s, fuel);
      if one.Running? { FuelEnough(m, stmts[1..], one.state, fuel, more); }
    }
  }

  lemma {:induction false} FuelEnoughForOne<S>(m: Machine<S>, stmt: Stmt, s: S, fuel: nat, more: nat)
    requires fuel <= more && !RunOne(m, stmt, s, fuel).OutOfFuel?
    ensures RunOne(m, stmt, s, more) == RunOne(m, stmt, s, fuel)
    decreases fuel, stmt
  {
    if stmt.Compound? && m.holds(stmt.header, s) {
      if !IsLoop(stmt.header) {
        FuelEnough(m, stmt.body, s, fuel, more);
      } else {
        FuelEnough(m, stmt.body, s, fuel - 1, more - 1);
        var turn := RunAll(m, stmt.body, s, fuel - 1);
        if turn.Running? { FuelEnoughForOne(m, stmt, turn.state, fuel - 1, more - 1); }
      }
    }
  }
}
