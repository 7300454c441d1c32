/** What the expansion loop does when a table key reference equals one that stayed: `list.remove` takes the wrong one of the
    two, which moves it, and changes nothing else. */
module EqualParams {
  import opened Wrappers
  import opened ParamExpansion

  /** For distinct parameters nothing that stayed is ever removed. */
  lemma {:induction false} DistinctLoop(env: Env, params: seq<Param>, ref: string, skip: bool, kept: seq<Param>)
    requires KeysDistinct(params) && forall p :: p in params && IsKey(p) ==> p !in kept
    ensures Loop(env, params, ref, skip, kept) == Behind(kept, [], Expand(env, params, ref, skip))
    decreases |params|
  {
    hide Added, Turned, IsKey, Behind, Loop, Expand, Dropped;
    if params == [] {
      LoopNothing(env, ref, skip, kept);
    } else {
      var p, rest := params[0], params[1..];
      assert params == [p] + rest;
      RestDistinct(params);
      if skip {
        LoopSkipped(env, params, ref, kept);
        ExpandSkipped(env, params, ref);
        DistinctLoop(env, rest, ref, false, kept + [p]);
        BehindOne(kept, p, Expand(env, rest, ref, false));
      } else if IsKey(p) {
        LoopKey(env, p, rest, ref, kept);
        ExpandKey(env, p, rest, ref);
        assert Dropped(kept, p) == kept by { NotDropped(kept, p); }
        DistinctLoop(env, rest, ref, true, kept);
        var added := Added(env.structures, ref, p);
        if added.Success? { BehindSwap(kept, added.value, Expand(env, rest, ref, true)); } else { BehindFailure(kept, [], added.error); }
      } else {
        var t := Turned(env, p, ref);
        LoopOther(env, p, rest, ref, kept);
        ExpandOther(env, p, rest, ref);
        TurnedIsNoKey(env, p, ref);
        DistinctLoop(env, rest, t.1, false, kept + [t.0]);
        BehindOne(kept, t.0, Expand(env, rest, t.1, false));
      }
    }
  }

  lemma LoopNothing(env: Env, ref: string, skip: bool, kept: seq<Param>)
    ensures Loop(env, [], ref, skip, kept) == Behind(kept, [], Expand(env, [], ref, skip))
  {
    var nothing: seq<Param> := [];
    assert kept + [] == kept && nothing + nothing == nothing;
  }

  lemma RestDistinct(params: seq<Param>)
    requires params != [] && KeysDistinct(params)
    ensures KeysDistinct(params[1..]) && forall p :: p in params[1..] ==> p in params && (IsKey(p) ==> p != params[0])
  {
    hide IsKey;
    var rest := params[1..];
    forall i, j | 0 <= i < j < |rest| && IsKey(rest[j]) ensures rest[i] != rest[j] {
      assert rest[i] == params[i + 1] && rest[j] == params[j + 1];
    }
  }

  lemma NotDropped(kept: seq<Param>, p: Param)
    requires p !in kept
    ensures Dropped(kept, p) == kept
  {
  }

  lemma BehindOne(kept: seq<Param>, p: Param, r: Result<Outcome, Error>)
    ensures Behind(kept + [p], [], r) == Behind(kept, [], Behind([p], [], r))
  {
    var nothing: seq<Param> := [];
    assert nothing + nothing == nothing;
    BehindTwice(kept, [], [p], [], r);
  }

  lemma BehindSwap(kept: seq<Param>, added: seq<Param>, r: Result<Outcome, Error>)
    ensures Behind([], added, Behind(kept, [], r)) == Behind(kept, [], Behind([], added, r))
  {
    BehindTwice([], added, kept, [], r);
    BehindTwice(kept, [], [], added, r);
    assert [] + kept == kept && kept + [] == kept && added + [] == added && [] + added == added;
  }

  lemma LoopIsExpand(env: Env, list: seq<Param>)
    requires KeysDistinct(list)
    ensures Loop(env, list, "", false, []) == Expand(env, list, "", false)
  {
    hide Loop, Expand;
    DistinctLoop(env, list, "", false, []);
    BehindNothing(Expand(env, list, "", false));
  }

  /** The parameters other than table key references. */
  function Others(list: seq<Param>): seq<Param> {
    if list == [] then [] else (if IsKey(list[0]) then [] else [list[0]]) + Others(list[1..])
  }

  lemma {:induction false} OthersJoin(a: seq<Param>, b: seq<Param>)
    ensures Others(a + b) == Others(a) + Others(b)
    decreases |a|
  {
    hide IsKey;
    if a == [] {
      assert a + b == b;
    } else {
      assert (a + b)[1..] == a[1..] + b && (a + b)[0] == a[0];
      OthersJoin(a[1..], b);
      Regroup(if IsKey(a[0]) then [] else [a[0]], Others(a[1..]), Others(b));
    }
  }

  lemma Regroup(a: seq<Param>, b: seq<Param>, c: seq<Param>)
    ensures (a + b) + c == a + (b + c)
  {
  }

  lemma {:induction false} RemovedOthers(list: seq<Param>, p: Param)
    requires p in list && IsKey(p)
    ensures Others(RemoveFirst(list, p)) == Others(list)
    ensures multiset(RemoveFirst(list, p)) + multiset{p} == multiset(list)
    decreases |list|
  {
    hide IsKey;
    assert list == [list[0]] + list[1..];
    if list[0] != p {
      assert p in list[1..];
      RemovedOthers(list[1..], p);
      assert ([list[0]] + RemoveFirst(list[1..], p))[1..] == RemoveFirst(list[1..], p);
    }
  }

  /** The same parameters, and those that are no table key references in the same order. */
  predicate Alike(a: seq<Param>, b: seq<Param>) {
    multiset(a) == multiset(b) && Others(a) == Others(b)
  }

  lemma DroppedAlike(kept: seq<Param>, p: Param)
    requires IsKey(p)
    ensures Alike(Dropped(kept, p), kept)
  {
    hide IsKey, RemoveFirst;
    if p in kept {
      RemovedOthers(kept, p);
      OthersJoin(RemoveFirst(kept, p), [p]);
      assert [p][1..] == [];
      assert Others([p]) == [];
    }
  }

  lemma AlikeJoin(a: seq<Param>, b: seq<Param>, c: seq<Param>)
    requires Alike(a, b)
    ensures Alike(a + c, b + c)
  {
    OthersJoin(a, c);
    OthersJoin(b, c);
  }

  predicate AlikeOutcomes(a: Result<Outcome, Error>, b: Result<Outcome, Error>) {
    && (a.Failure? <==> b.Failure?)
    && (a.Success? ==> Alike(a.value.kept, b.value.kept) && a.value.appended == b.value.appended)
  }

  /** Equal parameters change where a table key reference stays, and nothing else. */
  lemma {:induction false} EqualKeysMove(env: Env, params: seq<Param>, ref: string, skip: bool, kept: seq<Param>,
                                         expected: seq<Param>)
    requires Alike(kept, expected)
    ensures AlikeOutcomes(Loop(env, params, ref, skip, kept), Behind(expected, [], Expand(env, params, ref, skip)))
    decreases |params|
  {
    hide Added, Turned, IsKey, Behind, Loop, Expand, Dropped, Alike;
    if params == [] {
      LoopNothing(env, ref, skip, kept);
      ExpandNothing(env, ref, skip);
      BehindSuccess(kept, [], Outcome([], []));
      BehindSuccess(expected, [], Outcome([], []));
      assert kept + [] == kept && expected + [] == expected;
    } else {
      var p, rest := params[0], params[1..];
      assert params == [p] + rest;
      if skip {
        LoopSkipped(env, params, ref, kept);
        ExpandSkipped(env, params, ref);
        AlikeJoin(kept, expected, [p]);
        EqualKeysMove(env, rest, ref, false, kept + [p], expected + [p]);
        BehindOne(expected, p, Expand(env, rest, ref, false));
      } else if IsKey(p) {
        LoopKey(env, p, rest, ref, kept);
        ExpandKey(env, p, rest, ref);
        DroppedAlike(kept, p);
        AlikeTwice(Dropped(kept, p), kept, expected);
        EqualKeysMove(env, rest, ref, true, Dropped(kept, p), expected);
        var added := Added(env.structures, ref, p);
        if added.Success? {
          var loop, plain := Loop(env, rest, ref, true, Dropped(kept, p)), Expand(env, rest, ref, true);
          BehindSwap(expected, added.value, plain);
          AlikeBehind(added.value, loop, Behind(expected, [], plain));
        } else {
          BehindFailure(expected, [], added.error);
        }
      } else {
        var t := Turned(env, p, ref);
        LoopOther(env, p, rest, ref, kept);
        ExpandOther(env, p, rest, ref);
        AlikeJoin(kept, expected, [t.0]);
        EqualKeysMove(env, rest, t.1, false, kept + [t.0], expected + [t.0]);
        BehindOne(expected, t.0, Expand(env, rest, t.1, false));
      }
    }
  }

  lemma AlikeTwice(a: seq<Param>, b: seq<Param>, c: seq<Param>)
    requires Alike(a, b) && Alike(b, c)
    ensures Alike(a, c)
  {
  }

  lemma AlikeBehind(added: seq<Param>, a: Result<Outcome, Error>, b: Result<Outcome, Error>)
    requires AlikeOutcomes(a, b)
    ensures AlikeOutcomes(Behind([], added, a), Behind([], added, b))
  {
    hide Alike;
    if a.Success? {
      assert [] + a.value.kept == a.value.kept && [] + b.value.kept == b.value.kept;
    }
  }

  /** For every list: the loop fails exactly when the plain expansion does, appends the same parameters in the same order,
      and keeps the same parameters, only a table key reference that has an equal may stand further behind. */
  lemma LoopKeepsTheSame(env: Env, list: seq<Param>)
    ensures AlikeOutcomes(Loop(env, list, "", false, []), Expand(env, list, "", false))
  {
    hide Loop, Expand;
    EqualKeysMove(env, list, "", false, [], []);
    BehindNothing(Expand(env, list, "", false));
  }

  /** With an equal reference behind it, the one that stays does so further behind. */
  lemma EqualStaysBehind(env: Env, k: Param, x: Param, y: Param)
    requires env.structures == [] && IsKey(k) && HasNoRef(x) && HasNoRef(y)
    ensures Expand(env, [k, k, x, k, y], "", false) == Success(Outcome([k, x, y], []))
    ensures Loop(env, [k, k, x, k, y], "", false, []) == Success(Outcome([x, k, y], []))
  {
    PlainFive(env, k, x, y);
    LoopFive(env, k, x, y);
  }

  lemma PlainFive(env: Env, k: Param, x: Param, y: Param)
    requires env.structures == [] && IsKey(k) && HasNoRef(x) && HasNoRef(y)
    ensures Expand(env, [k, k, x, k, y], "", false) == Success(Outcome([k, x, y], []))
  {
    hide Turned, Expand, Behind, IsKey, HasNoRef;
    TurnedIsNoKeyOf(env, x);
    FiveParts(k, x, y);
    assert Added(env.structures, "", k) == Success([]);
    ExpandKey(env, k, [k, x, k, y], "");
    ExpandSkipped(env, [k, x, k, y], "");
    ExpandOther(env, x, [k, y], "");
    ExpandKey(env, k, [y], "");
    ExpandSkipped(env, [y], "");
    ExpandNothing(env, "", false);
    Gathered([y], []);
    Gathered([], [y]);
    Gathered([x], [y]);
    Gathered([k], [x, y]);
    Gathered([], [k, x, y]);
  }

  lemma FiveParts(k: Param, x: Param, y: Param)
    ensures [k, k, x, k, y] == [k] + [k, x, k, y] && [k, x, k, y][1..] == [x, k, y] && [x, k, y] == [x] + [k, y]
    ensures [k, y] == [k] + [y] && [y][1..] == [] && [x] + [y] == [x, y] && [k] + [x, y] == [k, x, y]
    ensures [k] + [x] == [k, x] && [x, k] + [y] == [x, k, y] && [] + [k] == [k]
  {
  }

  lemma TurnedIsNoKeyOf(env: Env, p: Param)
    requires HasNoRef(p)
    ensures !IsKey(p) && Turned(env, p, "") == (p, "")
  {
    NoRefIsNoKey(p);
    TurnedNot(env, p, "");
  }

  lemma LoopFive(env: Env, k: Param, x: Param, y: Param)
    requires env.structures == [] && IsKey(k) && HasNoRef(x) && HasNoRef(y)
    ensures Loop(env, [k, k, x, k, y], "", false, []) == Success(Outcome([x, k, y], []))
  {
    hide Turned, Loop, Behind, IsKey, HasNoRef, Dropped;
    TurnedIsNoKeyOf(env, x);
    FiveParts(k, x, y);
    assert Added(env.structures, "", k) == Success([]);
    MovedBehind(k, x);
    LoopKey(env, k, [k, x, k, y], "", []);
    LoopSkipped(env, [k, x, k, y], "", []);
    LoopOther(env, x, [k, y], "", [k]);
    LoopKey(env, k, [y], "", [k, x]);
    LoopSkipped(env, [y], "", [x, k]);
    LoopEnd(env, "", [x, k, y]);
    Gathered([], [x, k, y]);
  }

  lemma LoopEnd(env: Env, ref: string, kept: seq<Param>)
    ensures Loop(env, [], ref, false, kept) == Success(Outcome(kept, []))
  {
  }

  lemma MovedBehind(k: Param, x: Param)
    ensures Dropped([k, x], k) == [x, k] && Dropped([], k) == []
  {
    assert [k, x][0] == k && [k, x][1..] == [x];
  }
}
