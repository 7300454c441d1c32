/** Which rows the expansion loop finds: the nested searches of odx2json/main.py, said of flat row lists. */
module ParamLookups {
  import opened Wrappers
  import opened ParamExpansion
  import ParamSurvivors

  // ---------------------------------------------------------------- the structure of a row

  /** The rows of all tables with the id, one table behind the other. */
  function RowsOf(tables: seq<Table>, id: string): seq<TableRow> {
    if tables == [] then [] else (if tables[0].id == id then tables[0].rows else []) + RowsOf(tables[1..], id)
  }

  predicate Refers(row: TableRow, key: string) {
    row.key == key && row.structureRef.Some?
  }

  lemma {:induction false} RowsInTurn(a: seq<TableRow>, b: seq<TableRow>, key: string, current: string)
    ensures RowStructure(a + b, key, current) == RowStructure(b, key, RowStructure(a, key, current))
    decreases |a|
  {
    if a == [] {
      assert a + b == b;
    } else {
      assert (a + b)[1..] == a[1..] + b && (a + b)[0] == a[0];
      RowsInTurn(a[1..], b, key, if a[0].key == key then a[0].structureRef.GetOr(current) else current);
    }
  }

  lemma {:induction false} TablesFlat(tables: seq<Table>, id: string, key: string, current: string)
    ensures TableStructure(tables, id, key, current) == RowStructure(RowsOf(tables, id), key, current)
    decreases |tables|
  {
    if tables != [] {
      var here := if tables[0].id == id then tables[0].rows else [];
      RowsInTurn(here, RowsOf(tables[1..], id), key, current);
      TablesFlat(tables[1..], id, key, RowStructure(here, key, current));
    }
  }

  lemma {:induction false} NoneRefers(rows: seq<TableRow>, key: string, current: string)
    requires forall k :: 0 <= k < |rows| ==> !Refers(rows[k], key)
    ensures RowStructure(rows, key, current) == current
    decreases |rows|
  {
    if rows != [] {
      assert !Refers(rows[0], key);
      NoneRefers(rows[1..], key, current);
    }
  }

  /** Of the rows with the key, in any table with the id, the last one that names a structure decides. */
  lemma LastRowDecides(tables: seq<Table>, id: string, key: string, current: string, k: nat)
    requires k < |RowsOf(tables, id)| && Refers(RowsOf(tables, id)[k], key)
    requires forall i :: k < i < |RowsOf(tables, id)| ==> !Refers(RowsOf(tables, id)[i], key)
    ensures TableStructure(tables, id, key, current) == RowsOf(tables, id)[k].structureRef.value
  {
    var rows := RowsOf(tables, id);
    var front, rest := rows[..k], rows[k + 1..];
    assert rows == front + ([rows[k]] + rest);
    TablesFlat(tables, id, key, current);
    RowsInTurn(front, [rows[k]] + rest, key, current);
    assert ([rows[k]] + rest)[1..] == rest;
    NoneRefers(rest, key, rows[k].structureRef.value);
  }

  /** Without one, what was known before stays. */
  lemma NoRowDecides(tables: seq<Table>, id: string, key: string, current: string)
    requires forall i :: 0 <= i < |RowsOf(tables, id)| ==> !Refers(RowsOf(tables, id)[i], key)
    ensures TableStructure(tables, id, key, current) == current
  {
    TablesFlat(tables, id, key, current);
    NoneRefers(RowsOf(tables, id), key, current);
  }

  // ---------------------------------------------------------------- the row references of a request

  function References(request: seq<Option<string>>): seq<string> {
    if request == [] then []
    else (if request[0].Some? then [request[0].value] else []) + References(request[1..])
  }

  lemma {:induction false} RequestFlat(tables: seq<Table>, request: seq<Option<string>>, r: Refs)
    ensures ApplyRequest(tables, request, r) == ApplyRequest(tables, Wrapped(References(request)), r)
    decreases |request|
  {
    hide TableStructure;
    if request != [] {
      var rest := References(request[1..]);
      if request[0].Some? {
        var key := request[0].value;
        assert References(request) == [key] + rest && References(request)[1..] == rest;
        assert Wrapped(References(request))[1..] == Wrapped(rest);
        RequestFlat(tables, request[1..], Refs(key, TableStructure(tables, r.table, key, r.structure)));
      } else {
        assert References(request) == rest;
        RequestFlat(tables, request[1..], r);
      }
    }
  }

  function Wrapped(keys: seq<string>): (r: seq<Option<string>>)
    ensures |r| == |keys|
  {
    seq(|keys|, i requires 0 <= i < |keys| => Some(keys[i]))
  }

  /** The first reference is looked up in the table of the parameter, each further one in a table whose id is the reference
      before it. Where no table is called like a row, only the first one finds a structure. */
  lemma OnlyTheFirst(tables: seq<Table>, request: seq<Option<string>>, r: Refs)
    requires forall t, k :: t in tables && 0 <= k < |References(request)| ==> t.id != References(request)[k]
    ensures var keys := References(request);
            ApplyRequest(tables, request, r)
            == if keys == [] then r
               else Refs(keys[|keys| - 1], TableStructure(tables, r.table, keys[0], r.structure))
  {
    hide TableStructure, ApplyRequest;
    var keys := References(request);
    RequestFlat(tables, request, r);
    RequestStep(tables, keys, r);
    if keys != [] {
      RestFindsNothing(tables, keys[1..], Refs(keys[0], TableStructure(tables, r.table, keys[0], r.structure)));
    }
  }

  lemma RequestStep(tables: seq<Table>, keys: seq<string>, r: Refs)
    ensures ApplyRequest(tables, Wrapped(keys), r)
         == if keys == [] then r
            else ApplyRequest(tables, Wrapped(keys[1..]), Refs(keys[0], TableStructure(tables, r.table, keys[0], r.structure)))
  {
    hide TableStructure;
    if keys != [] { assert Wrapped(keys)[1..] == Wrapped(keys[1..]); }
  }

  lemma {:induction false} RestFindsNothing(tables: seq<Table>, keys: seq<string>, r: Refs)
    requires forall t :: t in tables ==> t.id != r.table && t.id !in keys
    ensures ApplyRequest(tables, Wrapped(keys), r) == Refs(if keys == [] then r.table else keys[|keys| - 1], r.structure)
    decreases |keys|
  {
    hide TableStructure, ApplyRequest;
    RequestStep(tables, keys, r);
    if keys != [] {
      NoRowsOf(tables, r.table);
      NoRowDecides(tables, r.table, keys[0], r.structure);
      RestFindsNothing(tables, keys[1..], Refs(keys[0], r.structure));
    }
  }

  lemma {:induction false} NoRowsOf(tables: seq<Table>, id: string)
    requires forall t :: t in tables ==> t.id != id
    ensures RowsOf(tables, id) == []
    decreases |tables|
  {
    if tables != [] {
      assert tables[0] in tables;
      NoRowsOf(tables[1..], id);
    }
  }

  // ---------------------------------------------------------------- the key of a row

  function AllRows(tables: seq<Table>): seq<TableRow> {
    if tables == [] then [] else tables[0].rows + AllRows(tables[1..])
  }

  lemma {:induction false} KeysInTurn(a: seq<TableRow>, b: seq<TableRow>, ref: string)
    ensures RowKeyIn(a + b, ref) == RowKeyIn(b, RowKeyIn(a, ref))
    decreases |a|
  {
    if a == [] {
      assert a + b == b;
    } else {
      assert (a + b)[1..] == a[1..] + b && (a + b)[0] == a[0];
      KeysInTurn(a[1..], b, if a[0].id == ref then a[0].key else ref);
    }
  }

  lemma {:induction false} KeysFlat(tables: seq<Table>, ref: string)
    ensures RowKey(tables, ref) == RowKeyIn(AllRows(tables), ref)
    decreases |tables|
  {
    if tables != [] {
      KeysInTurn(tables[0].rows, AllRows(tables[1..]), ref);
      KeysFlat(tables[1..], RowKeyIn(tables[0].rows, ref));
    }
  }

  lemma {:induction false} NoneIsCalled(rows: seq<TableRow>, ref: string)
    requires forall k :: 0 <= k < |rows| ==> rows[k].id != ref
    ensures RowKeyIn(rows, ref) == ref
    decreases |rows|
  {
    if rows != [] { NoneIsCalled(rows[1..], ref); }
  }

  /** The first row with the id gives its key, and if no row behind it is called like that key, that is the result. */
  lemma FirstRowNames(tables: seq<Table>, ref: string, k: nat)
    requires k < |AllRows(tables)| && AllRows(tables)[k].id == ref
    requires forall i :: 0 <= i < k ==> AllRows(tables)[i].id != ref
    ensures RowKey(tables, ref) == RowKeyIn(AllRows(tables)[k + 1..], AllRows(tables)[k].key)
    ensures (forall i :: k < i < |AllRows(tables)| ==> AllRows(tables)[i].id != AllRows(tables)[k].key) ==>
              RowKey(tables, ref) == AllRows(tables)[k].key
  {
    hide RowKey;
    var rows := AllRows(tables);
    var front, rest := rows[..k], rows[k + 1..];
    assert rows == front + ([rows[k]] + rest);
    KeysFlat(tables, ref);
    KeysInTurn(front, [rows[k]] + rest, ref);
    NoneIsCalled(front, ref);
    assert ([rows[k]] + rest)[1..] == rest;
    if forall i :: k < i < |rows| ==> rows[i].id != rows[k].key { NoneIsCalled(rest, rows[k].key); }
  }

  /** A reference that no row is called like stays as it is. */
  lemma NoRowNames(tables: seq<Table>, ref: string)
    requires forall i :: 0 <= i < |AllRows(tables)| ==> AllRows(tables)[i].id != ref
    ensures RowKey(tables, ref) == ref
  {
    KeysFlat(tables, ref);
    NoneIsCalled(AllRows(tables), ref);
  }

  // ---------------------------------------------------------------- what comes in for a table key reference

  /** The parameters of a structure come in exactly if they all have a position and so has the parameter they replace; each
      then starts at the sum of the two, refers to nothing, and keeps everything else. */
  lemma {:induction false} PlacedAre(sps: seq<StructureParam>, p: Param)
    ensures var r := PlacedAll(sps, p);
            && (r.Success? <==> sps == [] || (p.position.Some? && forall i :: 0 <= i < |sps| ==> sps[i].position.Some?))
            && (r.Success? ==>
                  && |r.value| == |sps|
                  && (forall i :: 0 <= i < |sps| ==>
                        && r.value[i].name == sps[i].name && r.value[i].others == sps[i].others && HasNoRef(r.value[i])
                        && r.value[i].position == Some(sps[i].position.value + p.position.value)))
    decreases |sps|
  {
    if sps != [] { PlacedAre(sps[1..], p); }
  }

  // ---------------------------------------------------------------- one parameter

  /** What the loop leaves of a list of one: a table reference is renamed, whatever else it refers to; a table key reference is
      replaced, here by nothing, as no structure is known yet; a table row reference gets the row's key. */
  lemma OneParameter(env: Env, p: Param)
    requires forall s :: s in env.structures ==> s.id != ""
    ensures var r := Loop(env, [p], "", false, []);
            && (p.tableRef.Some? ==>
                  var keys := References(env.request.GetOr([]));
                  r == Success(Outcome([if keys == [] then p else p.(tableRef := Some(keys[|keys| - 1]))], [])))
            && (p.tableRef.None? && p.tableKeyRef.Some? ==> r == Success(Outcome([], [])))
            && (p.tableRef.None? && p.tableKeyRef.None? && p.tableRowRef.Some? ==>
                  r == Success(Outcome([p.(tableRowRef := Some(RowKey(env.tables, p.tableRowRef.value)))], [])))
            && (p.tableRef.None? && p.tableKeyRef.None? && p.tableRowRef.None? ==> r == Success(Outcome([p], [])))
  {
    hide ApplyRequest, RowKey, Added, Loop;
    var nothing: seq<Param> := [];
    assert [p] == [p] + nothing && nothing + [p] == [p] && nothing + nothing == nothing;
    LoopEnds(env, "", true, []);
    if IsKey(p) {
      LoopKey(env, p, [], "", []);
      ParamSurvivors.AddedNone(env.structures, "", p);
    } else {
      var t := Turned(env, p, "");
      LoopOther(env, p, [], "", []);
      assert nothing + [t.0] == [t.0];
      LoopEnds(env, t.1, false, [t.0]);
      if p.tableRef.Some? { LastReferenceNames(env.tables, env.request.GetOr([]), Refs(p.tableRef.value, "")); }
    }
  }

  lemma LoopEnds(env: Env, ref: string, skip: bool, kept: seq<Param>)
    ensures Loop(env, [], ref, skip, kept) == Success(Outcome(kept, []))
  {
  }

  lemma {:induction false} LastReferenceNames(tables: seq<Table>, request: seq<Option<string>>, r: Refs)
    ensures var keys := References(request);
            ApplyRequest(tables, request, r).table == if keys == [] then r.table else keys[|keys| - 1]
    decreases |request|
  {
    hide TableStructure;
    if request != [] {
      var next := if request[0].Some?
                  then Refs(request[0].value, TableStructure(tables, r.table, request[0].value, r.structure)) else r;
      LastReferenceNames(tables, request[1..], next);
    }
  }
}
