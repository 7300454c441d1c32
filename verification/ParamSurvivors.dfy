/** Which parameters the expansion loop removes, which it skips, and what the list becomes position by position. */
module ParamSurvivors {
  import opened Wrappers
  import opened ParamExpansion

  /** Whether the parameter at `i` is removed: it is a table key reference and its turn is not skipped. */
  predicate Removed(list: seq<Param>, i: nat)
    requires i < |list|
    decreases i, 1
  {
    IsKey(list[i]) && !Skipped(list, i)
  }

  predicate Skipped(list: seq<Param>, i: nat)
    requires i <= |list|
    decreases i, 0
  {
    i > 0 && Removed(list, i - 1)
  }

  /** How many table key references stand directly in front of `i`. */
  function KeysInFront(list: seq<Param>, i: nat): nat
    requires i <= |list|
  {
    if i > 0 && IsKey(list[i - 1]) then 1 + KeysInFront(list, i - 1) else 0
  }

  /** Of neighbouring table key references every second one survives. */
  lemma {:induction false} EverySecondSurvives(list: seq<Param>, i: nat)
    requires i < |list| && IsKey(list[i])
    ensures Removed(list, i) <==> KeysInFront(list, i) % 2 == 0
    decreases i
  {
    hide IsKey;
    if i > 0 && IsKey(list[i - 1]) {
      EverySecondSurvives(list, i - 1);
      assert Skipped(list, i) == Removed(list, i - 1);
    } else {
      assert !Skipped(list, i);
    }
  }

  /** The positions of the parameters that stay, from `i` on. */
  function Survivors(list: seq<Param>, i: nat): (r: seq<nat>)
    requires i <= |list|
    ensures forall k :: 0 <= k < |r| ==> i <= r[k] < |list| && !Removed(list, r[k])
    ensures forall j, k :: 0 <= j < k < |r| ==> r[j] < r[k]
    ensures forall x :: i <= x < |list| && !Removed(list, x) ==> x in r
    decreases |list| - i
  {
    if i == |list| then [] else (if Removed(list, i) then [] else [i]) + Survivors(list, i + 1)
  }

  /** The structure known when the loop comes to `i`. */
  function RefBefore(env: Env, list: seq<Param>, i: nat): string
    requires i <= |list|
  {
    if i == 0 then ""
    else if IsKey(list[i - 1]) || Skipped(list, i - 1) then RefBefore(env, list, i - 1)
    else Turned(env, list[i - 1], RefBefore(env, list, i - 1)).1
  }

  /** What the parameter at `i` becomes if it stays: itself, when its turn is skipped. */
  function Becomes(env: Env, list: seq<Param>, i: nat): Param
    requires i < |list| && !Removed(list, i)
  {
    if Skipped(list, i) then list[i] else Turned(env, list[i], RefBefore(env, list, i)).0
  }

  /** The parameters that replace the removed ones from `i` on, in the order of those. */
  function Replacements(env: Env, list: seq<Param>, i: nat): seq<Param>
    requires i <= |list|
    decreases |list| - i
  {
    if i == |list| then []
    else
      (if Removed(list, i) then Added(env.structures, RefBefore(env, list, i), list[i]).GetOr([]) else [])
      + Replacements(env, list, i + 1)
  }

  /** The parameters that stay from `i` on. */
  function Staying(env: Env, list: seq<Param>, i: nat): seq<Param>
    requires i <= |list|
    decreases |list| - i
  {
    if i == |list| then [] else (if Removed(list, i) then [] else [Becomes(env, list, i)]) + Staying(env, list, i + 1)
  }

  predicate AllStay(list: seq<Param>, stay: seq<nat>) {
    forall k :: 0 <= k < |stay| ==> stay[k] < |list| && !Removed(list, stay[k])
  }

  function BecomeAll(env: Env, list: seq<Param>, stay: seq<nat>): (r: seq<Param>)
    requires AllStay(list, stay)
    ensures |r| == |stay|
  {
    seq(|stay|, k requires 0 <= k < |stay| => Becomes(env, list, stay[k]))
  }

  lemma BecomeFirst(env: Env, list: seq<Param>, i: nat, rest: seq<nat>)
    requires i < |list| && !Removed(list, i) && AllStay(list, rest)
    ensures AllStay(list, [i] + rest)
    ensures BecomeAll(env, list, [i] + rest) == [Becomes(env, list, i)] + BecomeAll(env, list, rest)
  {
    hide Becomes, Removed;
  }

  lemma SurvivorsFrom(list: seq<Param>, i: nat)
    requires i <= |list|
    ensures AllStay(list, Survivors(list, i))
    ensures i == |list| ==> Survivors(list, i) == []
    ensures i < |list| && Removed(list, i) ==> Survivors(list, i) == Survivors(list, i + 1)
    ensures i < |list| && !Removed(list, i) ==> Survivors(list, i) == [i] + Survivors(list, i + 1)
  {
    hide Removed;
  }

  lemma StayingFrom(env: Env, list: seq<Param>, i: nat)
    requires i < |list|
    ensures Removed(list, i) ==> Staying(env, list, i) == Staying(env, list, i + 1)
    ensures !Removed(list, i) ==> Staying(env, list, i) == [Becomes(env, list, i)] + Staying(env, list, i + 1)
  {
    hide Removed, Becomes;
  }

  lemma NoneBecome(env: Env, list: seq<Param>)
    ensures AllStay(list, []) && BecomeAll(env, list, []) == [] && Staying(env, list, |list|) == []
  {
  }

  lemma {:induction false} StayingAt(env: Env, list: seq<Param>, i: nat)
    requires i <= |list|
    ensures AllStay(list, Survivors(list, i)) && Staying(env, list, i) == BecomeAll(env, list, Survivors(list, i))
    decreases |list| - i
  {
    hide Becomes, Removed, Survivors, BecomeAll, AllStay, Staying;
    SurvivorsFrom(list, i);
    if i == |list| {
      NoneBecome(env, list);
    } else {
      StayingAt(env, list, i + 1);
      StayingFrom(env, list, i);
      if !Removed(list, i) { BecomeFirst(env, list, i, Survivors(list, i + 1)); }
    }
  }

  lemma {:induction false} ExpandedTo(env: Env, list: seq<Param>, i: nat)
    requires i <= |list|
    requires Expand(env, list[i..], RefBefore(env, list, i), Skipped(list, i)).Success?
    ensures Expand(env, list[i..], RefBefore(env, list, i), Skipped(list, i))
         == Success(Outcome(Staying(env, list, i), Replacements(env, list, i)))
    decreases |list| - i
  {
    hide Added, Turned, IsKey, Expand, Behind, Becomes, Removed, Skipped, RefBefore;
    if i == |list| {
      assert list[i..] == [];
      ExpandNothing(env, RefBefore(env, list, i), Skipped(list, i));
    } else {
      ExpandNext(env, list, i);
      ExpandedTo(env, list, i + 1);
      BehindSuccess(if Removed(list, i) then [] else [Becomes(env, list, i)],
                    if Removed(list, i) then Added(env.structures, RefBefore(env, list, i), list[i]).GetOr([]) else [],
                    Outcome(Staying(env, list, i + 1), Replacements(env, list, i + 1)));
    }
  }

  lemma ExpandNext(env: Env, list: seq<Param>, i: nat)
    requires i < |list|
    requires Expand(env, list[i..], RefBefore(env, list, i), Skipped(list, i)).Success?
    ensures var rest := Expand(env, list[i + 1..], RefBefore(env, list, i + 1), Skipped(list, i + 1));
            && rest.Success?
            && Expand(env, list[i..], RefBefore(env, list, i), Skipped(list, i))
               == Behind(if Removed(list, i) then [] else [Becomes(env, list, i)],
                         if Removed(list, i) then Added(env.structures, RefBefore(env, list, i), list[i]).GetOr([]) else [],
                         rest)
  {
    hide Added, Turned, IsKey, Expand, RefBefore;
    var ref, rest := RefBefore(env, list, i), list[i + 1..];
    assert list[i..] == [list[i]] + rest;
    NextTurn(env, list, i);
    if Skipped(list, i) {
      ExpandSkipped(env, list[i..], ref);
      assert list[i..][1..] == rest;
    } else if IsKey(list[i]) {
      ExpandKey(env, list[i], rest, ref);
    } else {
      ExpandOther(env, list[i], rest, ref);
    }
  }

  lemma NextTurn(env: Env, list: seq<Param>, i: nat)
    requires i < |list|
    ensures Skipped(list, i) ==> !Removed(list, i) && RefBefore(env, list, i + 1) == RefBefore(env, list, i)
    ensures Removed(list, i) ==>
              IsKey(list[i]) && Skipped(list, i + 1) && RefBefore(env, list, i + 1) == RefBefore(env, list, i)
    ensures !Removed(list, i) ==> !Skipped(list, i + 1)
    ensures !Removed(list, i) && !Skipped(list, i) ==>
              !IsKey(list[i]) && RefBefore(env, list, i + 1) == Turned(env, list[i], RefBefore(env, list, i)).1
  {
    hide Turned, IsKey;
  }

  /** Position by position: what stays, in its old order and with its new references, and behind it what was put in for each
      removed parameter. */
  lemma ExpansionIs(env: Env, list: seq<Param>)
    requires Expand(env, list, "", false).Success?
    ensures var r, stay := Expand(env, list, "", false).value, Survivors(list, 0);
            && AllStay(list, stay) && r.kept == BecomeAll(env, list, stay)
            && r.appended == Replacements(env, list, 0)
  {
    hide Expand, Replacements, Becomes;
    assert list[0..] == list && !Skipped(list, 0) && RefBefore(env, list, 0) == "";
    ExpandedTo(env, list, 0);
    StayingAt(env, list, 0);
  }

  lemma {:induction false} ReplacementsHaveNoRef(env: Env, list: seq<Param>, i: nat)
    requires i <= |list|
    ensures NoRefs(Replacements(env, list, i))
    decreases |list| - i
  {
    hide Added, HasNoRef, Removed, Skipped;
    if i < |list| {
      ReplacementsHaveNoRef(env, list, i + 1);
      AddedHaveNoRef(env.structures, RefBefore(env, list, i), list[i]);
    }
  }

  lemma BecomesKey(env: Env, list: seq<Param>, i: nat)
    requires i < |list| && !Removed(list, i)
    ensures IsKey(Becomes(env, list, i)) <==> IsKey(list[i])
    ensures IsKey(list[i]) ==> Skipped(list, i)
  {
    hide Turned;
    if !Skipped(list, i) { TurnedIsNoKey(env, list[i], RefBefore(env, list, i)); }
  }

  /** The expansion is complete if and only if no two table key references stand next to each other. */
  lemma CompleteUnlessNeighbours(env: Env, list: seq<Param>)
    requires Expand(env, list, "", false).Success?
    ensures var r := Expand(env, list, "", false).value;
            (forall p :: p in r.kept + r.appended ==> !IsKey(p))
            <==> forall i :: 0 <= i < |list| - 1 ==> !(IsKey(list[i]) && IsKey(list[i + 1]))
  {
    hide Expand, Replacements, Becomes, IsKey, HasNoRef, RefBefore;
    ExpansionIs(env, list);
    ReplacementsHaveNoRef(env, list, 0);
    var r, stay := Expand(env, list, "", false).value, Survivors(list, 0);
    forall p | p in r.appended ensures !IsKey(p) { NoRefIsNoKey(p); }
    forall k | 0 <= k < |stay|
      ensures IsKey(r.kept[k]) <==> IsKey(list[stay[k]])
      ensures IsKey(list[stay[k]]) ==> stay[k] > 0 && IsKey(list[stay[k] - 1])
    {
      BecomesKey(env, list, stay[k]);
    }
    if i :| 0 <= i < |list| - 1 && IsKey(list[i]) && IsKey(list[i + 1]) {
      var x: nat := if Removed(list, i) then i + 1 else i;
      assert !Removed(list, x);
      var k :| 0 <= k < |stay| && stay[k] == x;
      assert r.kept[k] in r.kept + r.appended;
    } else {
      forall k | 0 <= k < |stay| ensures !IsKey(r.kept[k]) {
        assert stay[k] > 0 ==> !(IsKey(list[stay[k] - 1]) && IsKey(list[stay[k] - 1 + 1]));
      }
    }
  }

  /** With one structure of the id, its parameters come in, in their order. */
  lemma {:induction false} AddedOne(structures: seq<Structure>, i: nat, p: Param)
    requires i < |structures| && forall j :: 0 <= j < |structures| && j != i ==> structures[j].id != structures[i].id
    ensures Added(structures, structures[i].id, p) == PlacedAll(structures[i].params, p)
    decreases i
  {
    hide PlacedAll;
    if i == 0 {
      AddedNone(structures[1..], structures[0].id, p);
      var r := PlacedAll(structures[0].params, p);
      if r.Success? { assert r.value + [] == r.value; }
    } else {
      AddedOne(structures[1..], i - 1, p);
      var r := PlacedAll(structures[i].params, p);
      if r.Success? { assert [] + r.value == r.value; }
    }
  }

  /** Without a structure of the id, the parameter is removed and nothing comes in. */
  lemma {:induction false} AddedNone(structures: seq<Structure>, id: string, p: Param)
    requires forall j :: 0 <= j < |structures| ==> structures[j].id != id
    ensures Added(structures, id, p) == Success([])
    decreases |structures|
  {
    if structures != [] {
      AddedNone(structures[1..], id, p);
      var nothing: seq<Param> := [];
      assert nothing + nothing == nothing;
    }
  }

  function KeyParam(name: string, key: string): Param {
    Param(name, Some(0), None, Some(key), None, map[])
  }

  /** Two neighbouring references: the second stays, unexpanded. */
  lemma SecondStays(env: Env)
    requires env.structures == []
    ensures var a, b := KeyParam("a", "k"), KeyParam("b", "k");
            Expand(env, [a, b], "", false) == Success(Outcome([b], []))
  {
    var a, b := KeyParam("a", "k"), KeyParam("b", "k");
    assert [a, b] == [a] + [b] && [b][1..] == [];
    ExpandKey(env, a, [b], "");
    ExpandSkipped(env, [b], "");
    ExpandNothing(env, "", false);
    Gathered([b], []);
    Gathered([], [b]);
  }
}
