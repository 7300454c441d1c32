/** The expansion of a positive response in odx2json/main.py: a loop that replaces table references by the parameters of
    structures while it walks the list it removes from and appends to. */
module ParamExpansion {
  import opened Wrappers

  /** A parameter dictionary: the entries the loop looks at, and the others, which it only copies. */
  datatype Param = Param(name: string, position: Option<int>, tableRef: Option<string>, tableKeyRef: Option<string>,
                         tableRowRef: Option<string>, others: map<string, string>)

  datatype StructureParam = StructureParam(name: string, position: Option<int>, others: map<string, string>)

  datatype Structure = Structure(id: string, params: seq<StructureParam>)

  datatype TableRow = TableRow(id: string, key: string, structureRef: Option<string>)

  datatype Table = Table(id: string, rows: seq<TableRow>)

  /** What the loop reads: the row references of the request, if there is one, and the data dictionary. */
  datatype Env = Env(request: Option<seq<Option<string>>>, tables: seq<Table>, structures: seq<Structure>)

  datatype Error = KeyError

  // ---------------------------------------------------------------- look-ups

  /** The structure of the last row with the key, or what it was before. */
  function RowStructure(rows: seq<TableRow>, key: string, current: string): string {
    if rows == [] then current
    else RowStructure(rows[1..], key, if rows[0].key == key then rows[0].structureRef.GetOr(current) else current)
  }

  function TableStructure(tables: seq<Table>, id: string, key: string, current: string): string {
    if tables == [] then current
    else TableStructure(tables[1..], id, key,
                        if tables[0].id == id then RowStructure(tables[0].rows, key, current) else current)
  }

  datatype Refs = Refs(table: string, structure: string)

  /** Each row reference of the request is looked up in the table that the parameter names by then, and renames it. */
  function ApplyRequest(tables: seq<Table>, request: seq<Option<string>>, r: Refs): Refs {
    if request == [] then r
    else
      match request[0]
      case None => ApplyRequest(tables, request[1..], r)
      case Some(key) => ApplyRequest(tables, request[1..], Refs(key, TableStructure(tables, r.table, key, r.structure)))
  }

  function RowKeyIn(rows: seq<TableRow>, ref: string): string {
    if rows == [] then ref else RowKeyIn(rows[1..], if rows[0].id == ref then rows[0].key else ref)
  }

  function RowKey(tables: seq<Table>, ref: string): string {
    if tables == [] then ref else RowKey(tables[1..], RowKeyIn(tables[0].rows, ref))
  }

  /** A structure parameter, at its offset behind the position of the parameter it replaces. */
  function Placed(sp: StructureParam, p: Param): Result<Param, Error> {
    if sp.position.None? || p.position.None? then Failure(KeyError)
    else Success(Param(sp.name, Some(sp.position.value + p.position.value), None, None, None, sp.others))
  }

  function PlacedAll(sps: seq<StructureParam>, p: Param): (r: Result<seq<Param>, Error>)
    ensures r.Success? ==> |r.value| == |sps|
    ensures r.Success? ==> forall i :: 0 <= i < |sps| ==> Placed(sps[i], p) == Success(r.value[i])
    ensures r.Failure? ==> exists i :: 0 <= i < |sps| && Placed(sps[i], p).Failure?
  {
    if sps == [] then Success([])
    else
      var first := Placed(sps[0], p);
      if first.Failure? then
        Failure(first.error)
      else
        var rest := PlacedAll(sps[1..], p);
        if rest.Failure? then
          var i :| 0 <= i < |sps[1..]| && Placed(sps[1..][i], p).Failure?;
          assert Placed(sps[i + 1], p).Failure?;
          Failure(rest.error)
        else Success([first.value] + rest.value)
  }

  /** What replaces a table key reference: the parameters of every structure with the id. */
  function Added(structures: seq<Structure>, id: string, p: Param): Result<seq<Param>, Error> {
    if structures == [] then Success([])
    else
      var here :- if structures[0].id == id then PlacedAll(structures[0].params, p) else Success([]);
      var rest :- Added(structures[1..], id, p);
      Success(here + rest)
  }

  // ---------------------------------------------------------------- what the loop amounts to

  /** A table key reference, unless the parameter also is a table reference. */
  predicate IsKey(p: Param) {
    p.tableRef.None? && p.tableKeyRef.Some?
  }

  predicate HasNoRef(p: Param) {
    p.tableRef.None? && p.tableKeyRef.None? && p.tableRowRef.None?
  }

  datatype Outcome = Outcome(kept: seq<Param>, appended: seq<Param>)

  function RefsAfter(env: Env, p: Param, ref: string): Refs
    requires p.tableRef.Some?
  {
    match env.request
    case None => Refs(p.tableRef.value, ref)
    case Some(request) => ApplyRequest(env.tables, request, Refs(p.tableRef.value, ref))
  }

  /** A parameter that is not removed, after its turn, and the structure known then. */
  function Turned(env: Env, p: Param, ref: string): (Param, string)
    requires !IsKey(p)
  {
    if p.tableRef.Some? then
      var r := RefsAfter(env, p, ref);
      (p.(tableRef := Some(r.table)), r.structure)
    else if p.tableRowRef.Some? then (p.(tableRowRef := Some(RowKey(env.tables, p.tableRowRef.value))), ref)
    else (p, ref)
  }

  /** The parameters that stay and those that are appended. A removed parameter makes the loop skip the next. */
  function Expand(env: Env, params: seq<Param>, ref: string, skip: bool): Result<Outcome, Error> {
    if params == [] then Success(Outcome([], []))
    else if skip then
      var rest :- Expand(env, params[1..], ref, false);
      Success(Outcome([params[0]] + rest.kept, rest.appended))
    else if IsKey(params[0]) then
      var added :- Added(env.structures, ref, params[0]);
      var rest :- Expand(env, params[1..], ref, true);
      Success(Outcome(rest.kept, added + rest.appended))
    else
      var t := Turned(env, params[0], ref);
      var rest :- Expand(env, params[1..], t.1, false);
      Success(Outcome([t.0] + rest.kept, rest.appended))
  }

  /** An outcome with what is already decided in front. */
  function Behind(kept: seq<Param>, appended: seq<Param>, r: Result<Outcome, Error>): Result<Outcome, Error> {
    if r.Failure? then r else Success(Outcome(kept + r.value.kept, appended + r.value.appended))
  }

  /** The same for every list. If a table key reference equals one that stayed, `list.remove` takes that one, and the
      reference itself stays in its place behind the others. `kept` is what stayed so far. */
  function Loop(env: Env, params: seq<Param>, ref: string, skip: bool, kept: seq<Param>): Result<Outcome, Error> {
    if params == [] then Success(Outcome(kept, []))
    else if skip then Loop(env, params[1..], ref, false, kept + [params[0]])
    else if IsKey(params[0]) then
      var added :- Added(env.structures, ref, params[0]);
      var rest :- Loop(env, params[1..], ref, true, Dropped(kept, params[0]));
      Success(Outcome(rest.kept, added + rest.appended))
    else
      var t := Turned(env, params[0], ref);
      Loop(env, params[1..], t.1, false, kept + [t.0])
  }

  /** `kept`, with `p` moved to its end if it is there. */
  function Dropped(kept: seq<Param>, p: Param): seq<Param> {
    if p in kept then RemoveFirst(kept, p) + [p] else kept
  }

  /** Python's `list.remove`. */
  function RemoveFirst(list: seq<Param>, p: Param): seq<Param> {
    if list == [] then [] else if list[0] == p then list[1..] else [list[0]] + RemoveFirst(list[1..], p)
  }

  function Keys(list: seq<Param>): nat {
    if list == [] then 0 else (if IsKey(list[0]) then 1 else 0) + Keys(list[1..])
  }

  lemma {:induction false} KeysJoin(a: seq<Param>, b: seq<Param>)
    ensures Keys(a + b) == Keys(a) + Keys(b)
    decreases |a|
  {
    if a == [] {
      assert a + b == b;
    } else {
      assert (a + b)[1..] == a[1..] + b && (a + b)[0] == a[0];
      KeysJoin(a[1..], b);
    }
  }

  lemma {:induction false} NoKeys(list: seq<Param>)
    requires forall p :: p in list ==> !IsKey(p)
    ensures Keys(list) == 0
    decreases |list|
  {
    if list != [] { NoKeys(list[1..]); }
  }

  lemma {:induction false} RemovedFewer(list: seq<Param>, p: Param)
    requires p in list && IsKey(p)
    ensures Keys(RemoveFirst(list, p)) == Keys(list) - 1
    decreases |list|
  {
    if list[0] != p {
      assert p in list[1..];
      RemovedFewer(list[1..], p);
      assert ([list[0]] + RemoveFirst(list[1..], p))[1..] == RemoveFirst(list[1..], p);
    }
  }

  lemma {:induction false} RemovedHere(front: seq<Param>, p: Param, rest: seq<Param>)
    requires p !in front
    ensures RemoveFirst(front + ([p] + rest), p) == front + rest
    decreases |front|
  {
    var list := front + ([p] + rest);
    if front == [] {
      assert list == [p] + rest && list[1..] == rest && front + rest == rest;
    } else {
      assert list[1..] == front[1..] + ([p] + rest) && list[0] == front[0];
      RemovedHere(front[1..], p, rest);
      assert [front[0]] + (front[1..] + rest) == front + rest;
    }
  }

  lemma {:induction false} AddedHaveNoRef(structures: seq<Structure>, id: string, p: Param)
    ensures var r := Added(structures, id, p); r.Success? ==> forall a :: a in r.value ==> HasNoRef(a)
    decreases |structures|
  {
    if structures != [] {
      AddedHaveNoRef(structures[1..], id, p);
      var here := PlacedAll(structures[0].params, p);
      if here.Success? {
        forall a | a in here.value ensures HasNoRef(a) {
          var i :| 0 <= i < |here.value| && here.value[i] == a;
          assert Placed(structures[0].params[i], p) == Success(a);
        }
      }
    }
  }

  /** Distinct parameters, as far as the loop can tell them apart when it removes one. */
  predicate KeysDistinct(params: seq<Param>) {
    forall i, j :: 0 <= i < j < |params| && IsKey(params[j]) ==> params[i] != params[j]
  }

  // ---------------------------------------------------------------- one turn of the loop

  /** How far the loop is: what stays and what was appended so far, and how many of the original parameters are dealt with. */
  datatype Turn = Turn(kept: seq<Param>, appended: seq<Param>, done: nat)

  predicate NoRefs(list: seq<Param>) {
    forall p :: p in list ==> HasNoRef(p)
  }

  /** The list is what stays, then the originals still to come, then what was appended; the index is at the first of those to
      come, or among the appended. */
  predicate At(env: Env, list: seq<Param>, params: seq<Param>, pos: nat, ref: string, t: Turn) {
    && t.done <= |list|
    && params == t.kept + (list[t.done..] + t.appended)
    && (if t.done < |list| then pos == |t.kept| else pos >= |t.kept|)
    && NoRefs(t.appended)
    && Loop(env, list, "", false, []) == Behind([], t.appended, Loop(env, list[t.done..], ref, false, t.kept))
  }

  /** Behind a removed parameter the next one is skipped. */
  function AfterKey(list: seq<Param>, t: Turn, added: seq<Param>): Turn {
    var kept := if t.done < |list| then Dropped(t.kept, list[t.done]) else t.kept;
    if t.done + 1 < |list| then Turn(kept + [list[t.done + 1]], t.appended + added, t.done + 2)
    else Turn(kept, t.appended + added, t.done + 1)
  }

  function AfterOther(list: seq<Param>, t: Turn, q: Param): Turn {
    if t.done < |list| then Turn(t.kept + [q], t.appended, t.done + 1) else t
  }

  lemma AtStart(env: Env, list: seq<Param>)
    ensures At(env, list, list, 0, "", Turn([], [], 0))
  {
    hide Loop;
    assert [] + (list[0..] + []) == list && list[0..] == list;
    BehindNothing(Loop(env, list, "", false, []));
  }

  lemma BehindNothing(r: Result<Outcome, Error>)
    ensures Behind([], [], r) == r
  {
    if r.Success? {
      assert [] + r.value.kept == r.value.kept && [] + r.value.appended == r.value.appended;
    }
  }

  lemma BehindTwice(a: seq<Param>, b: seq<Param>, c: seq<Param>, d: seq<Param>, r: Result<Outcome, Error>)
    ensures Behind(a, b, Behind(c, d, r)) == Behind(a + c, b + d, r)
  {
    if r.Success? {
      assert a + (c + r.value.kept) == a + c + r.value.kept;
      assert b + (d + r.value.appended) == b + d + r.value.appended;
    }
  }

  lemma AtEnd(env: Env, list: seq<Param>, params: seq<Param>, pos: nat, ref: string, t: Turn)
    requires At(env, list, params, pos, ref, t) && pos >= |params|
    ensures Loop(env, list, "", false, []) == Success(Outcome(t.kept, t.appended)) && params == t.kept + t.appended
  {
    assert list[t.done..] == [];
    assert [] + t.kept == t.kept && t.appended + [] == t.appended && [] + t.appended == t.appended;
  }

  lemma ExpandKey(env: Env, p: Param, rest: seq<Param>, ref: string)
    requires IsKey(p)
    ensures var added := Added(env.structures, ref, p);
            Expand(env, [p] + rest, ref, false)
            == if added.Failure? then Failure(added.error) else Behind([], added.value, Expand(env, rest, ref, true))
  {
    assert ([p] + rest)[1..] == rest;
    var r := Expand(env, rest, ref, true);
    if r.Success? { assert [] + r.value.kept == r.value.kept; }
  }

  lemma ExpandOther(env: Env, p: Param, rest: seq<Param>, ref: string)
    requires !IsKey(p)
    ensures var t := Turned(env, p, ref);
            Expand(env, [p] + rest, ref, false) == Behind([t.0], [], Expand(env, rest, t.1, false))
  {
    hide Turned;
    assert ([p] + rest)[1..] == rest;
    var r := Expand(env, rest, Turned(env, p, ref).1, false);
    if r.Success? { assert [] + r.value.appended == r.value.appended; }
  }

  lemma ExpandSkipped(env: Env, params: seq<Param>, ref: string)
    ensures Expand(env, params, ref, true)
         == if params == [] then Expand(env, [], ref, false)
            else Behind([params[0]], [], Expand(env, params[1..], ref, false))
  {
    if params != [] {
      var r := Expand(env, params[1..], ref, false);
      if r.Success? { assert [] + r.value.appended == r.value.appended; }
    }
  }

  lemma ExpandNothing(env: Env, ref: string, skip: bool)
    ensures Expand(env, [], ref, skip) == Success(Outcome([], []))
  {
  }

  lemma BehindSuccess(a: seq<Param>, b: seq<Param>, o: Outcome)
    ensures Behind(a, b, Success(o)) == Success(Outcome(a + o.kept, b + o.appended))
  {
  }

  /** Nothing is appended to what stays. */
  lemma Gathered(first: seq<Param>, rest: seq<Param>)
    ensures Behind(first, [], Success(Outcome(rest, []))) == Success(Outcome(first + rest, []))
    ensures first + [] == first && [] + rest == rest
  {
    var nothing: seq<Param> := [];
    assert nothing + nothing == nothing;
  }

  /** Where the index is while originals are still to come. */
  lemma Here(env: Env, list: seq<Param>, params: seq<Param>, pos: nat, ref: string, t: Turn)
    requires At(env, list, params, pos, ref, t) && pos < |params|
    ensures if t.done < |list| then params[pos] == list[t.done] && pos == |t.kept| else HasNoRef(params[pos])
    ensures t.done < |list| ==> list[t.done..] == [list[t.done]] + list[t.done + 1..]
  {
    hide Loop;
    if t.done == |list| {
      assert list[t.done..] == [];
      assert params == t.kept + t.appended;
      assert params[pos] == t.appended[pos - |t.kept|];
      assert params[pos] in t.appended;
    } else {
      assert params[pos] == (list[t.done..] + t.appended)[0];
    }
  }

  lemma NoRefIsNoKey(p: Param)
    requires HasNoRef(p)
    ensures !IsKey(p)
  {
  }

  /** Removing the parameter in hand, or an equal one in front of it. */
  lemma KeyGone(list: seq<Param>, params: seq<Param>, t: Turn)
    requires t.done < |list| && params == t.kept + (list[t.done..] + t.appended)
    ensures RemoveFirst(params, list[t.done]) == Dropped(t.kept, list[t.done]) + (list[t.done + 1..] + t.appended)
    ensures |Dropped(t.kept, list[t.done])| == |t.kept|
  {
    hide RemoveFirst;
    var p, rest := list[t.done], list[t.done + 1..] + t.appended;
    assert list[t.done..] == [p] + list[t.done + 1..];
    assert list[t.done..] + t.appended == [p] + rest;
    if p in t.kept {
      RemovedInFront(t.kept, p, [p] + rest);
      assert RemoveFirst(t.kept, p) + ([p] + rest) == RemoveFirst(t.kept, p) + [p] + rest;
    } else {
      RemovedHere(t.kept, p, rest);
    }
  }

  lemma {:induction false} RemovedInFront(front: seq<Param>, p: Param, rest: seq<Param>)
    requires p in front
    ensures RemoveFirst(front + rest, p) == RemoveFirst(front, p) + rest
    ensures |RemoveFirst(front, p)| == |front| - 1
    decreases |front|
  {
    assert (front + rest)[0] == front[0] && (front + rest)[1..] == front[1..] + rest;
    if front[0] != p {
      RemovedInFront(front[1..], p, rest);
      assert [front[0]] + (RemoveFirst(front[1..], p) + rest) == [front[0]] + RemoveFirst(front[1..], p) + rest;
    }
  }

  lemma ListAfterKey(list: seq<Param>, t: Turn, added: seq<Param>)
    requires t.done < |list|
    ensures var u := AfterKey(list, t, added);
            Dropped(t.kept, list[t.done]) + (list[t.done + 1..] + t.appended) + added
            == u.kept + (list[u.done..] + u.appended)
  {
    hide Dropped;
    var rest, kept := list[t.done + 1..], Dropped(t.kept, list[t.done]);
    assert kept + (rest + t.appended) + added == kept + (rest + (t.appended + added));
    if t.done + 1 < |list| {
      assert rest == [list[t.done + 1]] + list[t.done + 2..];
      assert kept + ([list[t.done + 1]] + list[t.done + 2..] + (t.appended + added))
          == kept + [list[t.done + 1]] + (list[t.done + 2..] + (t.appended + added));
    }
  }

  lemma LoopKey(env: Env, p: Param, rest: seq<Param>, ref: string, kept: seq<Param>)
    requires IsKey(p)
    ensures var added := Added(env.structures, ref, p);
            Loop(env, [p] + rest, ref, false, kept)
            == if added.Failure? then Failure(added.error)
               else Behind([], added.value, Loop(env, rest, ref, true, Dropped(kept, p)))
  {
    hide Added, Dropped;
    assert ([p] + rest)[1..] == rest;
    var r := Loop(env, rest, ref, true, Dropped(kept, p));
    if r.Success? { assert [] + r.value.kept == r.value.kept; }
  }

  lemma LoopSkipped(env: Env, params: seq<Param>, ref: string, kept: seq<Param>)
    ensures Loop(env, params, ref, true, kept)
         == if params == [] then Loop(env, [], ref, false, kept)
            else Loop(env, params[1..], ref, false, kept + [params[0]])
  {
  }

  lemma LoopOther(env: Env, p: Param, rest: seq<Param>, ref: string, kept: seq<Param>)
    requires !IsKey(p)
    ensures var t := Turned(env, p, ref); Loop(env, [p] + rest, ref, false, kept) == Loop(env, rest, t.1, false, kept + [t.0])
  {
    hide Turned;
    assert ([p] + rest)[1..] == rest;
  }

  lemma LoopAfterKey(env: Env, list: seq<Param>, ref: string, t: Turn)
    requires t.done < |list| && IsKey(list[t.done]) && Added(env.structures, ref, list[t.done]).Success?
    ensures var u := AfterKey(list, t, Added(env.structures, ref, list[t.done]).value);
            Behind([], t.appended, Loop(env, list[t.done..], ref, false, t.kept))
            == Behind([], u.appended, Loop(env, list[u.done..], ref, false, u.kept))
  {
    hide Loop, Added, IsKey, Behind, Dropped;
    var p, rest := list[t.done], list[t.done + 1..];
    var added, kept := Added(env.structures, ref, p).value, Dropped(t.kept, p);
    var nothing: seq<Param> := [];
    assert list[t.done..] == [p] + rest && nothing + nothing == nothing;
    LoopKey(env, p, rest, ref, t.kept);
    BehindTwice([], t.appended, [], added, Loop(env, rest, ref, true, kept));
    LoopSkipped(env, rest, ref, kept);
    if t.done + 1 < |list| {
      assert rest[0] == list[t.done + 1] && rest[1..] == list[t.done + 2..];
    } else {
      assert rest == [];
    }
  }

  /** The turn of a table key reference. */
  lemma KeyTurn(env: Env, list: seq<Param>, params: seq<Param>, pos: nat, ref: string, t: Turn)
    requires At(env, list, params, pos, ref, t) && pos < |params| && IsKey(params[pos])
    ensures var added := Added(env.structures, ref, params[pos]);
            if added.Failure? then Loop(env, list, "", false, []) == Failure(added.error)
            else
              var after := RemoveFirst(params, params[pos]) + added.value;
              At(env, list, after, pos + 1, ref, AfterKey(list, t, added.value))
  {
    hide Loop, Added, IsKey, RemoveFirst, Behind, Dropped, HasNoRef;
    var p := params[pos];
    Here(env, list, params, pos, ref, t);
    if t.done == |list| { NoRefIsNoKey(p); }
    LoopKey(env, p, list[t.done + 1..], ref, t.kept);
    var added := Added(env.structures, ref, p);
    if added.Failure? {
      BehindFailure([], t.appended, added.error);
    } else {
      KeyGone(list, params, t);
      AddedHaveNoRef(env.structures, ref, p);
      ListAfterKey(list, t, added.value);
      LoopAfterKey(env, list, ref, t);
    }
  }

  /** It leaves one table key reference fewer. */
  lemma FewerKeys(env: Env, params: seq<Param>, pos: nat, ref: string)
    requires pos < |params| && IsKey(params[pos])
    ensures var added := Added(env.structures, ref, params[pos]);
            added.Success? ==> Keys(RemoveFirst(params, params[pos]) + added.value) < Keys(params)
  {
    hide Added, IsKey, RemoveFirst, Keys, HasNoRef;
    var p := params[pos];
    var added := Added(env.structures, ref, p);
    if added.Success? {
      AddedHaveNoRef(env.structures, ref, p);
      RemovedFewer(params, p);
      KeysJoin(RemoveFirst(params, p), added.value);
      forall a | a in added.value ensures !IsKey(a) { NoRefIsNoKey(a); }
      NoKeys(added.value);
    }
  }

  lemma BehindFailure(a: seq<Param>, b: seq<Param>, e: Error)
    ensures Behind(a, b, Failure(e)) == Failure(e)
  {
  }

  lemma {:induction false} KeysSame(list: seq<Param>, pos: nat, q: Param)
    requires pos < |list| && !IsKey(list[pos]) && !IsKey(q)
    ensures Keys(list[pos := q]) == Keys(list)
    decreases |list|
  {
    var after := list[pos := q];
    if pos == 0 {
      assert after[1..] == list[1..];
    } else {
      assert after[1..] == list[1..][pos - 1 := q] && after[0] == list[0];
      KeysSame(list[1..], pos - 1, q);
    }
  }

  lemma TurnedIsNoKey(env: Env, p: Param, ref: string)
    requires !IsKey(p)
    ensures !IsKey(Turned(env, p, ref).0)
    ensures HasNoRef(p) ==> Turned(env, p, ref) == (p, ref)
  {
    hide RefsAfter, RowKey;
  }

  lemma ListAfterOther(list: seq<Param>, params: seq<Param>, pos: nat, t: Turn, q: Param)
    requires t.done < |list| && params == t.kept + (list[t.done..] + t.appended) && pos == |t.kept|
    ensures var u := AfterOther(list, t, q); params[pos := q] == u.kept + (list[u.done..] + u.appended)
  {
    var rest := list[t.done + 1..];
    assert list[t.done..] == [list[t.done]] + rest;
    assert params == t.kept + [list[t.done]] + (rest + t.appended);
    assert params[pos := q] == t.kept + [q] + (rest + t.appended);
  }

  /** The turn of any other parameter. */
  lemma OtherTurn(env: Env, list: seq<Param>, params: seq<Param>, pos: nat, ref: string, t: Turn)
    requires At(env, list, params, pos, ref, t) && pos < |params| && !IsKey(params[pos])
    ensures var q := Turned(env, params[pos], ref);
            At(env, list, params[pos := q.0], pos + 1, q.1, AfterOther(list, t, q.0))
  {
    hide Loop, IsKey, Behind, HasNoRef, Turned;
    var p := params[pos];
    var q := Turned(env, p, ref);
    Here(env, list, params, pos, ref, t);
    TurnedIsNoKey(env, p, ref);
    if t.done < |list| {
      var rest := list[t.done + 1..];
      ListAfterOther(list, params, pos, t, q.0);
      LoopOther(env, p, rest, ref, t.kept);
    } else {
      assert params[pos := p] == params;
    }
  }

  lemma TurnedRow(env: Env, p: Param, ref: string)
    requires !IsKey(p) && p.tableRef.None? && p.tableRowRef.Some?
    ensures Turned(env, p, ref) == (p.(tableRowRef := Some(RowKey(env.tables, p.tableRowRef.value))), ref)
  {
  }

  lemma TurnedNot(env: Env, p: Param, ref: string)
    requires !IsKey(p) && p.tableRef.None? && p.tableRowRef.None?
    ensures Turned(env, p, ref) == (p, ref)
  {
  }

  // ---------------------------------------------------------------- the loop

  method FindRowStructure(rows: seq<TableRow>, key: string, current: string) returns (ref: string)
    ensures ref == RowStructure(rows, key, current)
  {
    ref := current;
    assert rows[0..] == rows;
    for i := 0 to |rows|
      invariant RowStructure(rows[i..], key, ref) == RowStructure(rows, key, current)
    {
      assert rows[i..][1..] == rows[i + 1..];
      if key == rows[i].key {
        if rows[i].structureRef.Some? {
          ref := rows[i].structureRef.value;
        }
      }
    }
  }

  method FindStructure(tables: seq<Table>, id: string, key: string, current: string) returns (ref: string)
    ensures ref == TableStructure(tables, id, key, current)
  {
    hide RowStructure;
    ref := current;
    assert tables[0..] == tables;
    for i := 0 to |tables|
      invariant TableStructure(tables[i..], id, key, ref) == TableStructure(tables, id, key, current)
    {
      assert tables[i..][1..] == tables[i + 1..];
      if tables[i].id == id {
        ref := FindRowStructure(tables[i].rows, key, ref);
      }
    }
  }

  /** The branch of a table reference. */
  method FollowRequest(env: Env, p: Param, ref: string) returns (q: Param, structureRef: string)
    requires p.tableRef.Some?
    ensures (q, structureRef) == Turned(env, p, ref)
  {
    hide TableStructure;
    q, structureRef := p, ref;
    if env.request.Some? {
      var request := env.request.value;
      ghost var start := Refs(p.tableRef.value, ref);
      assert request[0..] == request;
      for i := 0 to |request|
        invariant q.tableRef.Some? && q == p.(tableRef := q.tableRef)
        invariant ApplyRequest(env.tables, request[i..], Refs(q.tableRef.value, structureRef))
               == ApplyRequest(env.tables, request, start)
      {
        assert request[i..][1..] == request[i + 1..];
        if request[i].Some? {
          structureRef := FindStructure(env.tables, q.tableRef.value, request[i].value, structureRef);
          q := q.(tableRef := request[i]);
        }
      }
    }
  }

  /** The branch of a table row reference. */
  method ResolveRow(tables: seq<Table>, ref: string) returns (key: string)
    ensures key == RowKey(tables, ref)
  {
    key := ref;
    assert tables[0..] == tables;
    for i := 0 to |tables|
      invariant RowKey(tables[i..], key) == RowKey(tables, ref)
    {
      assert tables[i..][1..] == tables[i + 1..];
      var rows := tables[i].rows;
      ghost var before := key;
      assert rows[0..] == rows;
      for j := 0 to |rows|
        invariant RowKeyIn(rows[j..], key) == RowKeyIn(rows, before)
      {
        assert rows[j..][1..] == rows[j + 1..];
        if rows[j].id == key {
          key := rows[j].key;
        }
      }
    }
  }

  function InFront(list: seq<Param>, r: Result<seq<Param>, Error>): Result<seq<Param>, Error> {
    if r.Failure? then r else Success(list + r.value)
  }

  lemma InFrontTwice(a: seq<Param>, b: seq<Param>, r: Result<seq<Param>, Error>)
    ensures InFront(a, InFront(b, r)) == InFront(a + b, r) && InFront([], r) == r
  {
    if r.Success? { assert a + (b + r.value) == a + b + r.value && [] + r.value == r.value; }
  }

  lemma PlacedFirst(sps: seq<StructureParam>, p: Param)
    requires sps != []
    ensures PlacedAll(sps, p)
         == var first := Placed(sps[0], p);
            if first.Failure? then Failure(first.error) else InFront([first.value], PlacedAll(sps[1..], p))
  {
    hide Placed;
  }

  lemma AddedFirst(structures: seq<Structure>, id: string, p: Param)
    requires structures != []
    ensures var here := if structures[0].id == id then PlacedAll(structures[0].params, p) else Success([]);
            Added(structures, id, p)
            == if here.Failure? then Failure(here.error) else InFront(here.value, Added(structures[1..], id, p))
  {
    hide PlacedAll;
  }

  /** Collecting `tableKeyRefList`. */
  method CollectAdded(structures: seq<Structure>, id: string, p: Param) returns (r: Result<seq<Param>, Error>)
    ensures r == Added(structures, id, p)
  {
    hide Added, PlacedAll, Placed, InFront;
    var list := [];
    assert structures[0..] == structures;
    InFrontTwice([], [], Added(structures, id, p));
    for i := 0 to |structures|
      invariant Added(structures, id, p) == InFront(list, Added(structures[i..], id, p))
    {
      assert structures[i..][1..] == structures[i + 1..] && structures[i..][0] == structures[i];
      AddedFirst(structures[i..], id, p);
      var sps := structures[i].params;
      if structures[i].id == id {
        ghost var before, more := list, Added(structures[i + 1..], id, p);
        ghost var here: seq<Param> := [];
        assert sps[0..] == sps && before + [] == before;
        InFrontTwice([], [], PlacedAll(sps, p));
        for j := 0 to |sps|
          invariant list == before + here && PlacedAll(sps, p) == InFront(here, PlacedAll(sps[j..], p))
        {
          assert sps[j..][1..] == sps[j + 1..] && sps[j..][0] == sps[j];
          PlacedFirst(sps[j..], p);
          var placed := Placed(sps[j], p);
          if placed.Failure? {
            InFrontFails(here, placed.error);
            InFrontFails(before, placed.error);
            return Failure(placed.error);
          }
          list := list + [placed.value];
          assert before + here + [placed.value] == before + (here + [placed.value]);
          InFrontTwice(here, [placed.value], PlacedAll(sps[j + 1..], p));
          here := here + [placed.value];
        }
        PlacedNothing(sps, here, p);
        InFrontTwice(before, here, more);
      } else {
        InFrontTwice(list, [], Added(structures[i + 1..], id, p));
      }
    }
    AddedNothing(structures, list, id, p);
    r := Success(list);
  }

  lemma InFrontFails(list: seq<Param>, e: Error)
    ensures InFront(list, Failure(e)) == Failure(e)
  {
  }

  lemma PlacedNothing(sps: seq<StructureParam>, list: seq<Param>, p: Param)
    ensures InFront(list, PlacedAll(sps[|sps|..], p)) == Success(list)
  {
    assert sps[|sps|..] == [] && list + [] == list;
  }

  lemma AddedNothing(structures: seq<Structure>, list: seq<Param>, id: string, p: Param)
    ensures InFront(list, Added(structures[|structures|..], id, p)) == Success(list)
  {
    assert structures[|structures|..] == [] && list + [] == list;
  }

  class Response {
    /** `value['PARAMS']`. */
    var params: seq<Param>

    constructor (params: seq<Param>)
      ensures this.params == params
    {
      this.params := params;
    }

    /** The body of the loop for a table key reference at `pos`. */
    method ReplaceKey(env: Env, pos: nat, ref: string) returns (r: Result<(), Error>)
      requires pos < |params| && IsKey(params[pos])
      modifies this
      ensures var added := Added(env.structures, ref, old(params[pos]));
              if added.Failure? then r == Failure(added.error) && params == old(params)
              else r == Success(()) && params == RemoveFirst(old(params), old(params[pos])) + added.value
    {
      var param := params[pos];
      var added := CollectAdded(env.structures, ref, param);
      if added.Failure? { return Failure(added.error); }
      params := RemoveFirst(params, param);
      params := params + added.value;
      r := Success(());
    }

    /** The loop: an index over a list that shrinks and grows under it. */
    method ExpandAll(env: Env) returns (r: Result<(), Error>)
      modifies this
      ensures var outcome := Loop(env, old(params), "", false, []);
              if outcome.Failure? then r == Failure(outcome.error)
              else r == Success(()) && params == outcome.value.kept + outcome.value.appended
    {
      hide Loop, Added, Turned, RemoveFirst, IsKey, Keys, At;
      ghost var list := params;
      ghost var turn := Turn([], [], 0);
      var structureRef, pos := "", 0;
      AtStart(env, list);
      while pos < |params|
        invariant At(env, list, params, pos, structureRef, turn)
        decreases Keys(params), |params| - pos
      {
        var param := params[pos];
        if IsKey(param) {
          KeyTurn(env, list, params, pos, structureRef, turn);
          FewerKeys(env, params, pos, structureRef);
          var replaced := ReplaceKey(env, pos, structureRef);
          if replaced.Failure? { return Failure(replaced.error); }
          turn := AfterKey(list, turn, Added(env.structures, structureRef, param).value);
        } else {
          OtherTurn(env, list, params, pos, structureRef, turn);
          TurnedIsNoKey(env, param, structureRef);
          KeysSame(params, pos, Turned(env, param, structureRef).0);
          turn := AfterOther(list, turn, Turned(env, param, structureRef).0);
          if param.tableRef.Some? {
            var q, s := FollowRequest(env, param, structureRef);
            params := params[pos := q];
            structureRef := s;
          } else if param.tableRowRef.Some? {
            var key := ResolveRow(env.tables, param.tableRowRef.value);
            TurnedRow(env, param, structureRef);
            params := params[pos := param.(tableRowRef := Some(key))];
          } else {
            TurnedNot(env, param, structureRef);
            assert params[pos := param] == params;
          }
        }
        pos := pos + 1;
      }
      AtEnd(env, list, params, pos, structureRef, turn);
      r := Success(());
    }
  }
}
