/** `generateProcedure`: from one procedure to the files of all procedures it calls, through a global list of pending calls
    that every nested run appends to, removes from and iterates over. */
module Worklist {
  import opened Wrappers
  import opened Generator
  import opened GeneratorCalls
  import opened GeneratorWriter

  datatype Procedure = Procedure(title: string, locals: seq<LocalVariable>, steps: seq<Step>)

  type Procedures = map<string, Procedure>

  // ---------------------------------------------------------------- the unfolded call tree

  datatype Tree = Node(id: string, kids: seq<Tree>)

  function Titles(ps: Procedures): map<string, string> {
    map p | p in ps :: ps[p].title
  }

  function CallsOf(ps: Procedures, p: string): seq<string>
    requires p in ps
  {
    Calls(ps[p].steps)
  }

  /** Every procedure can be generated, whatever local variables are known. */
  predicate AllGenerable(ps: Procedures) {
    forall p :: p in ps ==> Generable(Context([], Titles(ps)), ps[p].steps)
  }

  /** No procedure calls itself, directly or through others. */
  ghost predicate Acyclic(ps: Procedures, rank: string -> nat) {
    forall p :: p in ps ==> forall i :: 0 <= i < |CallsOf(ps, p)| ==>
      CallsOf(ps, p)[i] in ps && rank(CallsOf(ps, p)[i]) < rank(p)
  }

  ghost function Unfold(ps: Procedures, rank: string -> nat, p: string): Tree
    requires Acyclic(ps, rank) && p in ps
    decreases rank(p)
  {
    Node(p, seq(|CallsOf(ps, p)|, i requires 0 <= i < |CallsOf(ps, p)| => Unfold(ps, rank, CallsOf(ps, p)[i])))
  }

  predicate Known(ps: Procedures, queue: seq<string>) {
    forall i :: 0 <= i < |queue| ==> queue[i] in ps
  }

  ghost function Trees(ps: Procedures, rank: string -> nat, queue: seq<string>): (r: seq<Tree>)
    requires Acyclic(ps, rank) && Known(ps, queue)
    ensures |r| == |queue|
  {
    seq(|queue|, i requires 0 <= i < |queue| => Unfold(ps, rank, queue[i]))
  }

  function Size(t: Tree): nat
    decreases t, 0
  {
    1 + Sizes(t.kids)
  }

  function Sizes(ts: seq<Tree>): nat
    decreases ts, |ts|
  {
    if ts == [] then 0 else Size(ts[0]) + Sizes(ts[1..])
  }

  lemma {:induction false} SizesJoin(a: seq<Tree>, b: seq<Tree>)
    ensures Sizes(a + b) == Sizes(a) + Sizes(b)
    decreases |a|
  {
    if a == [] {
      assert a + b == b;
    } else {
      assert (a + b)[1..] == a[1..] + b && (a + b)[0] == a[0];
      SizesJoin(a[1..], b);
    }
  }

  /** Taking the first tree and queueing its children behind the others. */
  function Next(queue: seq<Tree>): seq<Tree>
    requires queue != []
  {
    queue[1..] + queue[0].kids
  }

  lemma NextSmaller(queue: seq<Tree>)
    requires queue != []
    ensures Sizes(Next(queue)) < Sizes(queue)
  {
    SizesJoin(queue[1..], queue[0].kids);
  }

  function BreadthFirst(queue: seq<Tree>): seq<Tree>
    decreases Sizes(queue)
  {
    if queue == [] then []
    else
      NextSmaller(queue);
      [queue[0]] + BreadthFirst(Next(queue))
  }

  // ---------------------------------------------------------------- once per call path

  /** A call path from the root: at each procedure, which of its active calls to follow. */
  type Path = seq<nat>

  function At(t: Tree, path: Path): Option<Tree>
    decreases |path|
  {
    if path == [] then Some(t)
    else if path[0] < |t.kids| then At(t.kids[path[0]], path[1..])
    else None
  }

  datatype Entry = Entry(path: Path, tree: Tree)

  function Children(e: Entry): (r: seq<Entry>)
    ensures |r| == |e.tree.kids|
  {
    seq(|e.tree.kids|, i requires 0 <= i < |e.tree.kids| => Entry(e.path + [i], e.tree.kids[i]))
  }

  function TreesOf(queue: seq<Entry>): (r: seq<Tree>)
    ensures |r| == |queue|
  {
    seq(|queue|, i requires 0 <= i < |queue| => queue[i].tree)
  }

  lemma NextEntries(queue: seq<Entry>)
    requires queue != []
    ensures TreesOf(queue[1..] + Children(queue[0])) == Next(TreesOf(queue))
  {
  }

  /** The same traversal with the path to each tree. */
  function WithPaths(queue: seq<Entry>): seq<Entry>
    decreases Sizes(TreesOf(queue))
  {
    if queue == [] then []
    else
      NextEntries(queue);
      NextSmaller(TreesOf(queue));
      [queue[0]] + WithPaths(queue[1..] + Children(queue[0]))
  }

  lemma {:induction false} SameTrees(queue: seq<Entry>)
    ensures TreesOf(WithPaths(queue)) == BreadthFirst(TreesOf(queue))
    decreases Sizes(TreesOf(queue))
  {
    hide Sizes;
    if queue != [] {
      NextEntries(queue);
      NextSmaller(TreesOf(queue));
      var more := queue[1..] + Children(queue[0]);
      SameTrees(more);
      assert TreesOf([queue[0]] + WithPaths(more)) == [queue[0].tree] + TreesOf(WithPaths(more));
    }
  }

  lemma {:induction false} AtChild(t: Tree, path: Path, i: nat)
    requires At(t, path).Some?
    ensures var here := At(t, path).value;
            At(t, path + [i]) == if i < |here.kids| then Some(here.kids[i]) else None
    decreases |path|
  {
    if path == [] {
      assert (path + [i])[1..] == [];
    } else {
      assert (path + [i])[1..] == path[1..] + [i];
      AtChild(t.kids[path[0]], path[1..], i);
    }
  }

  predicate Genuine(root: Tree, queue: seq<Entry>) {
    forall i :: 0 <= i < |queue| ==> At(root, queue[i].path) == Some(queue[i].tree)
  }

  lemma GenuineNext(root: Tree, queue: seq<Entry>)
    requires queue != [] && Genuine(root, queue)
    ensures Genuine(root, queue[1..] + Children(queue[0]))
  {
    hide At;
    var e := queue[0];
    forall i | 0 <= i < |e.tree.kids| ensures At(root, e.path + [i]) == Some(e.tree.kids[i]) {
      AtChild(root, e.path, i);
    }
  }

  lemma {:induction false} AllGenuine(root: Tree, queue: seq<Entry>)
    requires Genuine(root, queue)
    ensures Genuine(root, WithPaths(queue))
    decreases Sizes(TreesOf(queue))
  {
    hide At, Sizes;
    if queue != [] {
      NextEntries(queue);
      NextSmaller(TreesOf(queue));
      GenuineNext(root, queue);
      AllGenuine(root, queue[1..] + Children(queue[0]));
    }
  }

  function Times(path: Path, queue: seq<Entry>): nat {
    if queue == [] then 0 else (if queue[0].path == path then 1 else 0) + Times(path, queue[1..])
  }

  /** How many of the queued paths the given one goes through. */
  function Through(path: Path, queue: seq<Entry>): nat {
    if queue == [] then 0 else (if queue[0].path <= path then 1 else 0) + Through(path, queue[1..])
  }

  lemma {:induction false} ThroughJoin(path: Path, a: seq<Entry>, b: seq<Entry>)
    ensures Through(path, a + b) == Through(path, a) + Through(path, b)
    decreases |a|
  {
    if a == [] {
      assert a + b == b;
    } else {
      assert (a + b)[1..] == a[1..] + b && (a + b)[0] == a[0];
      ThroughJoin(path, a[1..], b);
    }
  }

  lemma {:induction false} ThroughChildren(path: Path, e: Entry, k: nat)
    requires k <= |e.tree.kids|
    ensures Through(path, Children(e)[..k]) == if e.path < path && path[|e.path|] < k then 1 else 0
    decreases k
  {
    if k > 0 {
      ThroughChildren(path, e, k - 1);
      var last := Children(e)[k - 1];
      assert Children(e)[..k] == Children(e)[..k - 1] + [last];
      ThroughJoin(path, Children(e)[..k - 1], [last]);
      assert [last][1..] == [];
      assert last.path <= path <==> e.path < path && path[|e.path|] == k - 1;
    }
  }

  /** A path that goes properly through a node goes on through one of its children. */
  lemma {:induction false} GoesOn(root: Tree, path: Path, e: Entry)
    requires At(root, path).Some? && At(root, e.path) == Some(e.tree) && e.path < path
    ensures path[|e.path|] < |e.tree.kids|
    decreases |e.path|
  {
    if e.path != [] {
      assert e.path[0] == path[0] && e.path[1..] < path[1..];
      GoesOn(root.kids[path[0]], path[1..], Entry(e.path[1..], e.tree));
      assert path[1..][|e.path| - 1] == path[|e.path|];
    }
  }

  lemma ThroughNext(root: Tree, path: Path, queue: seq<Entry>)
    requires queue != [] && Genuine(root, queue) && At(root, path).Some?
    ensures (if queue[0].path == path then 1 else 0) + Through(path, queue[1..] + Children(queue[0]))
         == Through(path, queue)
  {
    hide At;
    var e := queue[0];
    ThroughJoin(path, queue[1..], Children(e));
    ThroughChildren(path, e, |e.tree.kids|);
    assert Children(e)[..|e.tree.kids|] == Children(e);
    if e.path < path { GoesOn(root, path, e); }
  }

  lemma {:induction false} TimesIsThrough(root: Tree, path: Path, queue: seq<Entry>)
    requires Genuine(root, queue) && At(root, path).Some?
    ensures Times(path, WithPaths(queue)) == Through(path, queue)
    decreases Sizes(TreesOf(queue))
  {
    hide At, Sizes, Genuine;
    if queue != [] {
      NextEntries(queue);
      NextSmaller(TreesOf(queue));
      GenuineNext(root, queue);
      var more := queue[1..] + Children(queue[0]);
      TimesIsThrough(root, path, more);
      ThroughNext(root, path, queue);
      assert ([queue[0]] + WithPaths(more))[1..] == WithPaths(more);
    }
  }

  lemma {:induction false} NeverTimes(path: Path, queue: seq<Entry>)
    requires forall i :: 0 <= i < |queue| ==> queue[i].path != path
    ensures Times(path, queue) == 0
    decreases |queue|
  {
    if queue != [] { NeverTimes(path, queue[1..]); }
  }

  predicate ByDepth(queue: seq<Entry>) {
    forall i, j :: 0 <= i < j < |queue| ==> |queue[i].path| <= |queue[j].path|
  }

  lemma {:induction false} DepthOrder(queue: seq<Entry>)
    requires ByDepth(queue)
    requires forall i :: 0 <= i < |queue| ==> |queue[i].path| <= |queue[0].path| + 1
    ensures ByDepth(WithPaths(queue))
    ensures forall e :: e in WithPaths(queue) ==> |e.path| >= |queue[0].path|
    decreases Sizes(TreesOf(queue))
  {
    hide Sizes;
    if queue != [] {
      NextEntries(queue);
      NextSmaller(TreesOf(queue));
      var more := queue[1..] + Children(queue[0]);
      NextByDepth(queue);
      DepthOrder(more);
      ConsByDepth(queue[0], WithPaths(more));
    }
  }

  lemma NextByDepth(queue: seq<Entry>)
    requires queue != [] && ByDepth(queue)
    requires forall i :: 0 <= i < |queue| ==> |queue[i].path| <= |queue[0].path| + 1
    ensures var more := queue[1..] + Children(queue[0]);
            && ByDepth(more)
            && (forall i :: 0 <= i < |more| ==> |more[i].path| <= |more[0].path| + 1)
            && (more != [] ==> |more[0].path| >= |queue[0].path|)
  {
    var front, kids := queue[1..], Children(queue[0]);
    assert forall i :: 0 <= i < |kids| ==> |kids[i].path| == |queue[0].path| + 1;
    assert forall i :: 0 <= i < |front| ==> front[i] == queue[i + 1];
  }

  lemma ConsByDepth(e: Entry, rest: seq<Entry>)
    requires ByDepth(rest) && forall r :: r in rest ==> |r.path| >= |e.path|
    ensures ByDepth([e] + rest)
  {
    var all := [e] + rest;
    forall i, j | 0 <= i < j < |all| ensures |all[i].path| <= |all[j].path| {
      assert rest[j - 1] in rest;
    }
  }

  /** From one root, the traversal meets every call path exactly once, at the procedure the path leads to, and shorter paths
      before longer ones. */
  lemma OncePerPath(root: Tree)
    ensures var met := WithPaths([Entry([], root)]);
            && TreesOf(met) == BreadthFirst([root])
            && (forall i :: 0 <= i < |met| ==> At(root, met[i].path) == Some(met[i].tree))
            && (forall path: Path :: Times(path, met) == if At(root, path).Some? then 1 else 0)
            && ByDepth(met)
  {
    hide Times, WithPaths, BreadthFirst;
    var start := [Entry([], root)];
    assert TreesOf(start) == [root];
    SameTrees(start);
    assert Genuine(root, start);
    AllGenuine(root, start);
    DepthOrder(start);
    forall path: Path ensures Times(path, WithPaths(start)) == if At(root, path).Some? then 1 else 0 {
      if At(root, path).Some? {
        TimesIsThrough(root, path, start);
        assert start[1..] == [] && [] <= path;
      } else {
        NeverTimes(path, WithPaths(start));
      }
    }
  }

  // ---------------------------------------------------------------- the driver

  /** What one run of the generator leaves behind for the next: the local variables and the `SetValue` pairs. */
  datatype Globals = Globals(locals: seq<LocalVariable>, dict: Dict)

  function Get(ps: Procedures, p: string): Procedure {
    if p in ps then ps[p] else Procedure("", [], [])
  }

  function ContextOf(ps: Procedures, p: string, g: Globals): Context {
    Context(g.locals + Get(ps, p).locals, Titles(ps))
  }

  function TextOf(ps: Procedures, p: string, g: Globals): string {
    FileText(ContextOf(ps, p, g), Get(ps, p).steps, g.dict)
  }

  function After(ps: Procedures, p: string, g: Globals): Globals {
    Globals(g.locals + Get(ps, p).locals, StepsText(ContextOf(ps, p, g), Get(ps, p).steps, 1, g.dict).1)
  }

  /** Generating procedures one after the other: what is written for which, and what is left behind. */
  function Written(ps: Procedures, order: seq<string>, g: Globals): seq<(string, string)> {
    if order == [] then []
    else [(order[0], TextOf(ps, order[0], g))] + Written(ps, order[1..], After(ps, order[0], g))
  }

  function Left(ps: Procedures, order: seq<string>, g: Globals): Globals {
    if order == [] then g else Left(ps, order[1..], After(ps, order[0], g))
  }

  function Ids(trees: seq<Tree>): (r: seq<string>)
    ensures |r| == |trees|
  {
    seq(|trees|, i requires 0 <= i < |trees| => trees[i].id)
  }

  /** The order in which a procedure and everything pending is generated. */
  ghost function Order(ps: Procedures, rank: string -> nat, p: string, pending: seq<string>): seq<string>
    requires Acyclic(ps, rank) && p in ps && Known(ps, pending)
  {
    Ids(BreadthFirst([Unfold(ps, rank, p)] + Trees(ps, rank, pending)))
  }

  /** Python's `list.remove`. */
  function RemoveFirst(list: seq<string>, x: string): seq<string> {
    if list == [] then [] else if list[0] == x then list[1..] else [list[0]] + RemoveFirst(list[1..], x)
  }

  /** The local variables of the procedures, in the order in which they are generated. */
  function AllLocals(ps: Procedures, order: seq<string>): seq<LocalVariable> {
    if order == [] then [] else Get(ps, order[0]).locals + AllLocals(ps, order[1..])
  }

  lemma {:induction false} LocalsLeft(ps: Procedures, order: seq<string>, g: Globals)
    ensures Left(ps, order, g).locals == g.locals + AllLocals(ps, order)
    decreases |order|
  {
    hide StepsText, FileText;
    if order == [] {
      assert g.locals + [] == g.locals;
    } else {
      LocalsLeft(ps, order[1..], After(ps, order[0], g));
      Gathered(g.locals, Get(ps, order[0]).locals, AllLocals(ps, order[1..]));
    }
  }

  lemma Gathered<T>(a: seq<T>, b: seq<T>, c: seq<T>)
    ensures (a + b) + c == a + (b + c)
  {
  }

  /** The `k`-th file knows, in front of its own, the local variables of every procedure generated before it, and the
      `SetValue` pairs they left: nothing is cleared between procedures. */
  lemma {:induction false} NothingCleared(ps: Procedures, order: seq<string>, g: Globals, k: nat)
    requires k < |order|
    ensures |Written(ps, order, g)| == |order| && Written(ps, order, g)[k].0 == order[k]
    ensures Written(ps, order, g)[k].1
         == FileText(Context(g.locals + AllLocals(ps, order[..k]) + Get(ps, order[k]).locals, Titles(ps)),
                     Get(ps, order[k]).steps, Left(ps, order[..k], g).dict)
    decreases k
  {
    hide StepsText, FileText, Titles;
    WrittenLength(ps, order, g);
    if k == 0 {
      assert order[..0] == [] && g.locals + [] == g.locals;
    } else {
      var next := After(ps, order[0], g);
      NothingCleared(ps, order[1..], next, k - 1);
      assert order[..k][1..] == order[1..][..k - 1] && order[..k][0] == order[0];
      Gathered(g.locals, Get(ps, order[0]).locals, AllLocals(ps, order[1..][..k - 1]));
    }
  }

  lemma {:induction false} WrittenLength(ps: Procedures, order: seq<string>, g: Globals)
    ensures |Written(ps, order, g)| == |order|
    decreases |order|
  {
    hide TextOf, After;
    if order != [] { WrittenLength(ps, order[1..], After(ps, order[0], g)); }
  }

  /** The file of a procedure. */
  function FileName(ps: Procedures, p: string): string {
    Get(ps, p).title + "_" + p + ".py"
  }

  /** The statement of a procedure call opens the file of the last procedure the step names, which the generator has queued. */
  lemma CallOpensFile(ps: Procedures, locals: seq<LocalVariable>, s: Step)
    requires CallsProcedure(s) && s.variables.Some? && GenerableOne(Context(locals, Titles(ps)), s)
    ensures var calls := OwnCalls(s);
            && calls != [] && (forall i :: 0 <= i < |calls| ==> calls[i] in ps)
            && ProcedureText(Context(locals, Titles(ps)), s.variables.value)
               == "os.popen('" + FileName(ps, calls[|calls| - 1]) + "')"
  {
    var ins := Inputs(s.variables.value);
    var last := ins[|ins| - 1];
    assert last in ins;
    forall i | 0 <= i < |ins| ensures ins[i].value in ps { assert ins[i] in ins; }
    OpenRegroup(ps[last.value].title, last.value);
  }

  lemma OpenRegroup(title: string, id: string)
    ensures "os.popen('" + title + "_" + id + ".py')" == "os.popen('" + (title + "_" + id + ".py") + "')"
  {
    assert ".py')" == ".py" + "')";
  }

  /** Where a call path leads in the procedures themselves. */
  function Follow(ps: Procedures, p: string, path: Path): Option<string>
    decreases |path|
  {
    if p !in ps then None
    else if path == [] then Some(p)
    else if path[0] < |CallsOf(ps, p)| then Follow(ps, CallsOf(ps, p)[path[0]], path[1..])
    else None
  }

  lemma {:induction false} FollowIsAt(ps: Procedures, rank: string -> nat, p: string, path: Path)
    requires Acyclic(ps, rank) && p in ps
    ensures var here := At(Unfold(ps, rank, p), path);
            Follow(ps, p, path) == if here.Some? then Some(here.value.id) else None
    decreases |path|
  {
    hide CallsOf;
    if path != [] && path[0] < |CallsOf(ps, p)| {
      FollowIsAt(ps, rank, CallsOf(ps, p)[path[0]], path[1..]);
    }
  }

  ghost function PathsMet(ps: Procedures, rank: string -> nat, p: string): seq<Entry>
    requires Acyclic(ps, rank) && p in ps
  {
    WithPaths([Entry([], Unfold(ps, rank, p))])
  }

  /** Started on one procedure with nothing pending, the generator generates once for every call path from it, at the
      procedure the path leads to, shorter paths first. */
  lemma GeneratedOncePerPath(ps: Procedures, rank: string -> nat, p: string)
    requires Acyclic(ps, rank) && p in ps
    ensures var order, met := Order(ps, rank, p, []), PathsMet(ps, rank, p);
            && |order| == |met|
            && (forall i :: 0 <= i < |met| ==> Follow(ps, p, met[i].path) == Some(order[i]))
            && (forall path: Path :: Times(path, met) == if Follow(ps, p, path).Some? then 1 else 0)
            && ByDepth(met)
  {
    hide Acyclic, WithPaths, BreadthFirst, At, Follow, Times, Unfold;
    var root := Unfold(ps, rank, p);
    OncePerPath(root);
    assert [root] + Trees(ps, rank, []) == [root];
    var order, met := Order(ps, rank, p, []), PathsMet(ps, rank, p);
    forall i | 0 <= i < |met| ensures Follow(ps, p, met[i].path) == Some(order[i]) {
      FollowIsAt(ps, rank, p, met[i].path);
      assert TreesOf(met)[i] == met[i].tree;
    }
    forall path: Path ensures Times(path, met) == if Follow(ps, p, path).Some? then 1 else 0 {
      FollowIsAt(ps, rank, p, path);
    }
  }

  lemma OrderStart(ps: Procedures, rank: string -> nat, p: string, pending: seq<string>)
    requires Acyclic(ps, rank) && p in ps && Known(ps, pending)
    ensures var more := pending + CallsOf(ps, p);
            && Known(ps, more)
            && Order(ps, rank, p, pending) == [p] + (if more == [] then [] else Order(ps, rank, more[0], more[1..]))
            && (more != [] ==> Sizes([Unfold(ps, rank, more[0])] + Trees(ps, rank, more[1..]))
                               < Sizes([Unfold(ps, rank, p)] + Trees(ps, rank, pending)))
  {
    hide Sizes, CallsOf, Unfold, Trees, BreadthFirst, Ids, Acyclic, Next;
    var more := pending + CallsOf(ps, p);
    var queue := [Unfold(ps, rank, p)] + Trees(ps, rank, pending);
    QueueNext(ps, rank, p, pending);
    NextSmaller(queue);
    FirstId(queue);
    if more == [] {
      NoTrees(ps, rank);
    } else {
      TreesFirst(ps, rank, more);
    }
  }

  lemma QueueNext(ps: Procedures, rank: string -> nat, p: string, pending: seq<string>)
    requires Acyclic(ps, rank) && p in ps && Known(ps, pending)
    ensures Known(ps, pending + CallsOf(ps, p)) && Unfold(ps, rank, p).id == p
    ensures Next([Unfold(ps, rank, p)] + Trees(ps, rank, pending)) == Trees(ps, rank, pending + CallsOf(ps, p))
  {
    hide Calls, CallsOf;
  }

  lemma FirstId(queue: seq<Tree>)
    requires queue != []
    ensures Ids(BreadthFirst(queue)) == [queue[0].id] + Ids(BreadthFirst(Next(queue)))
  {
    hide Sizes, Next;
    assert BreadthFirst(queue) == [queue[0]] + BreadthFirst(Next(queue));
  }

  lemma NoTrees(ps: Procedures, rank: string -> nat)
    requires Acyclic(ps, rank)
    ensures Ids(BreadthFirst(Trees(ps, rank, []))) == []
  {
  }

  lemma TreesFirst(ps: Procedures, rank: string -> nat, queue: seq<string>)
    requires Acyclic(ps, rank) && Known(ps, queue) && queue != []
    ensures Known(ps, queue[1..]) && Trees(ps, rank, queue) == [Unfold(ps, rank, queue[0])] + Trees(ps, rank, queue[1..])
  {
    hide Unfold;
  }

  lemma WrittenStart(ps: Procedures, p: string, rest: seq<string>, g: Globals)
    ensures Written(ps, [p] + rest, g) == [(p, TextOf(ps, p, g))] + Written(ps, rest, After(ps, p, g))
    ensures Left(ps, [p] + rest, g) == Left(ps, rest, After(ps, p, g))
    ensures Written(ps, [p], g) == [(p, TextOf(ps, p, g))] && Left(ps, [p], g) == After(ps, p, g)
  {
    hide TextOf, After;
    assert ([p] + rest)[1..] == rest && [p][1..] == [];
  }

  lemma {:induction false} GenerableAny(a: Context, b: Context, steps: seq<Step>)
    requires a.titles == b.titles && Generable(a, steps)
    ensures Generable(b, steps)
    decreases steps
  {
    forall s | s in steps && s.active ensures GenerableOne(b, s) && Generable(b, s.steps) {
      GenerableAny(a, b, s.steps);
    }
  }

  class Driver {
    const procedures: Procedures
    var locals: seq<LocalVariable>
    var setValueDict: Dict
    var callProcedureStepList: seq<string>
    /** Per call of `generateProcedure`, the procedure and the text appended to its file. */
    var written: seq<(string, string)>

    constructor (procedures: Procedures)
      ensures this.procedures == procedures && locals == [] && setValueDict == []
      ensures callProcedureStepList == [] && written == []
    {
      this.procedures := procedures;
      locals, setValueDict, callProcedureStepList, written := [], [], [], [];
    }

    function State(): Globals
      reads this
    {
      Globals(locals, setValueDict)
    }

    /** Writes the file of one procedure; its calls go behind the pending ones. */
    method GenerateOne(p: string)
      requires AllGenerable(procedures) && p in procedures
      modifies this
      ensures written == old(written) + [(p, TextOf(procedures, p, old(State())))]
      ensures State() == After(procedures, p, old(State()))
      ensures callProcedureStepList == old(callProcedureStepList) + CallsOf(procedures, p)
    {
      hide FileText, StepsText, Calls, Generable;
      locals := locals + procedures[p].locals;
      var writer := new Writer(Context(locals, Titles(procedures)));
      writer.setValueDict := setValueDict;
      writer.callProcedureStepList := callProcedureStepList;
      GenerableAny(Context([], Titles(procedures)), writer.ctx, procedures[p].steps);
      writer.GetStepMainFun(procedures[p].steps);
      assert "" + FileText(writer.ctx, procedures[p].steps, setValueDict)
          == FileText(writer.ctx, procedures[p].steps, setValueDict);
      setValueDict := writer.setValueDict;
      callProcedureStepList := writer.callProcedureStepList;
      written := written + [(p, writer.file)];
    }

    /** `generateProcedure`. The `for` statement of Python walks an index over the list that the body shortens: the first turn
        takes the head, the nested run empties the list, and there is no second turn. */
    method GenerateProcedure(p: string, ghost rank: string -> nat)
      requires AllGenerable(procedures) && Acyclic(procedures, rank)
      requires p in procedures && Known(procedures, callProcedureStepList)
      modifies this
      ensures callProcedureStepList == []
      ensures var order := old(Order(procedures, rank, p, callProcedureStepList));
              && written == old(written) + Written(procedures, order, old(State()))
              && State() == Left(procedures, order, old(State()))
      decreases Sizes([Unfold(procedures, rank, p)] + Trees(procedures, rank, callProcedureStepList))
    {
      hide FileText, StepsText, Calls, Generable, AllGenerable, Acyclic, Written, Left, Order, Sizes, CallsOf, Unfold, Trees,
           TextOf, After;
      ghost var g, list := State(), callProcedureStepList;
      OrderStart(procedures, rank, p, list);
      GenerateOne(p);
      ghost var more := callProcedureStepList;
      ghost var rest := if more == [] then [] else Order(procedures, rank, more[0], more[1..]);
      WrittenStart(procedures, p, rest, g);
      assert [p] + [] == [p];
      var i := 0;
      while i < |callProcedureStepList|
        invariant i == 0 || (i == 1 && callProcedureStepList == [])
        invariant i == 0 ==> callProcedureStepList == more && State() == After(procedures, p, g)
                             && written == old(written) + [(p, TextOf(procedures, p, g))]
        invariant i == 1 ==> written == old(written) + Written(procedures, [p] + rest, g)
                             && State() == Left(procedures, [p] + rest, g)
        decreases 1 - i
      {
        var called := callProcedureStepList[i];
        i := i + 1;
        callProcedureStepList := RemoveFirst(callProcedureStepList, called);
        GenerateProcedure(called, rank);
      }
    }
  }
}
