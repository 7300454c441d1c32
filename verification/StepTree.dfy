/** Which steps of a tree get a definition, and which procedures it calls, said of the steps that occur in it. */
module StepTree {
  import opened Wrappers
  import opened Generator
  import opened GeneratorCalls
  import opened GeneratorWriter

  /** `s` is a step of the tree, at any depth. */
  predicate Occurs(s: Step, steps: seq<Step>)
    decreases steps
  {
    exists t :: t in steps && (t == s || Occurs(s, t.steps))
  }

  /** The same, with every step on the way to it active. */
  predicate Runs(s: Step, steps: seq<Step>)
    decreases steps
  {
    exists t :: t in steps && t.active && (t == s || Runs(s, t.steps))
  }

  lemma OccursFirst(s: Step, steps: seq<Step>)
    requires steps != []
    ensures Occurs(s, steps) <==> s == steps[0] || Occurs(s, steps[0].steps) || Occurs(s, steps[1..])
    ensures Runs(s, steps) <==> (steps[0].active && (s == steps[0] || Runs(s, steps[0].steps))) || Runs(s, steps[1..])
  {
    assert forall t :: t in steps <==> t == steps[0] || t in steps[1..];
  }

  /** A definition is written for every step that has variables, active or not. */
  lemma {:induction false} DefinedIff(s: Step, steps: seq<Step>)
    ensures s in Defined(steps) <==> Occurs(s, steps) && s.variables.Some?
    decreases steps
  {
    hide Occurs;
    if steps == [] {
      NothingOccurs(s);
    } else {
      OccursFirst(s, steps);
      DefinedIff(s, steps[0].steps);
      DefinedIff(s, steps[1..]);
    }
  }

  lemma NothingOccurs(s: Step)
    ensures !Occurs(s, []) && !Runs(s, [])
  {
  }

  predicate Names(s: Step, id: string) {
    && s.functionName == "CallProcedureStep" && s.variables.Some?
    && exists v :: v in s.variables.value && v.inOut in {0, 2} && v.value == id
  }

  lemma {:induction false} InputsAre(vs: seq<Variable>, v: Variable)
    ensures v in Inputs(vs) <==> v in vs && v.inOut in {0, 2}
    decreases |vs|
  {
    if vs != [] { InputsAre(vs[1..], v); }
  }

  lemma OwnCallsAre(s: Step, id: string)
    ensures id in OwnCalls(s) <==> Names(s, id)
  {
    if s.variables.Some? {
      var vs := s.variables.value;
      forall v: Variable ensures v in Inputs(vs) <==> v in vs && v.inOut in {0, 2} { InputsAre(vs, v); }
      var values := Values(Inputs(vs));
      assert forall i :: 0 <= i < |values| ==> values[i] == Inputs(vs)[i].value;
      if Names(s, id) && CallsProcedure(s) {
        var v :| v in vs && v.inOut in {0, 2} && v.value == id;
        var i :| 0 <= i < |Inputs(vs)| && Inputs(vs)[i] == v;
        assert values[i] == id;
      }
    }
  }

  ghost predicate Calling(steps: seq<Step>, id: string) {
    exists s: Step :: Runs(s, steps) && Names(s, id)
  }

  lemma CallingFirst(steps: seq<Step>, id: string)
    requires steps != []
    ensures Calling(steps, id)
       <==> (steps[0].active && (Names(steps[0], id) || Calling(steps[0].steps, id))) || Calling(steps[1..], id)
  {
    hide Runs, Names;
    forall s: Step
      ensures Runs(s, steps) <==> (steps[0].active && (s == steps[0] || Runs(s, steps[0].steps))) || Runs(s, steps[1..])
    {
      OccursFirst(s, steps);
    }
  }

  /** The procedures queued are exactly those that an input of a running `CallProcedureStep` names. */
  lemma {:induction false} CallsIff(steps: seq<Step>, id: string)
    ensures id in Calls(steps) <==> Calling(steps, id)
    decreases steps
  {
    hide Calling, OwnCalls, Names;
    if steps == [] {
      NothingCalls(id);
    } else {
      CallingFirst(steps, id);
      OwnCallsAre(steps[0], id);
      CallsIff(steps[0].steps, id);
      CallsIff(steps[1..], id);
    }
  }

  lemma NothingCalls(id: string)
    ensures !Calling([], id)
  {
  }
}
