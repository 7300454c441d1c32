/** `_find_labels_and_gotos` of GenerateOtx/goto.py: the four-instruction window and the static block stack. */
module GotoSites {
  import opened Wrappers
  import opened Bytecode

  /** `tuple(block_stack)` with `block_counter`: the identities of the open blocks, outermost first. */
  datatype Blocks = Blocks(stack: seq<nat>, counter: nat)

  datatype Label = Label(start: nat, end: nat, blocks: seq<nat>)
  datatype Goto = Goto(start: nat, end: nat, target: nat, blocks: seq<nat>)
  datatype Found = Found(labels: map<nat, Label>, gotos: seq<Goto>)

  predicate IsLoad(f: Format, op: Byte) {
    op == f.loadGlobal || op == f.loadName
  }

  /** The effect on the block stack of the instruction leaving the window. */
  function After(f: Format, b: Blocks, op: Byte): Blocks {
    if IsLoad(f, op) then b
    else if op in f.setups then Blocks(b.stack + [b.counter + 1], b.counter + 1)
    else if op == f.popBlock && b.stack != [] then Blocks(b.stack[..|b.stack| - 1], b.counter)
    else b
  }

  /** The block stack on entry to instruction `i`. */
  function BlocksAt(f: Format, ins: seq<Instr>, i: nat): Blocks
    requires i <= |ins|
  {
    if i == 0 then Blocks([], 0) else After(f, BlocksAt(f, ins, i - 1), ins[i - 1].op)
  }

  /** `LOAD x; LOAD_ATTR y; POP_TOP` with a following instruction. */
  predicate IsSite(f: Format, ins: seq<Instr>, i: nat) {
    i + 3 < |ins| && IsLoad(f, ins[i].op) && ins[i + 1].op == f.loadAttr && ins[i + 2].op == f.popTop
  }

  predicate NameKnown(names: seq<string>, ins: seq<Instr>, i: nat)
    requires i < |ins|
  {
    ins[i].arg.Some? && ins[i].arg.value < |names|
  }

  predicate IsNamed(f: Format, names: seq<string>, ins: seq<Instr>, i: nat, name: string) {
    IsSite(f, ins, i) && NameKnown(names, ins, i) && names[ins[i].arg.value] == name
  }

  predicate IsLabel(f: Format, names: seq<string>, ins: seq<Instr>, i: nat) {
    IsNamed(f, names, ins, i, "label")
  }

  predicate IsGoto(f: Format, names: seq<string>, ins: seq<Instr>, i: nat) {
    IsNamed(f, names, ins, i, "goto")
  }

  function Key(ins: seq<Instr>, i: nat): nat
    requires i + 1 < |ins|
  {
    ins[i + 1].arg.GetOr(0)
  }

  function LabelOf(f: Format, ins: seq<Instr>, i: nat): Label
    requires i + 3 < |ins|
  {
    Label(ins[i].offset, ins[i + 3].offset, BlocksAt(f, ins, i).stack)
  }

  function GotoOf(f: Format, ins: seq<Instr>, i: nat): Goto
    requires i + 3 < |ins|
  {
    Goto(ins[i].offset, ins[i + 3].offset, Key(ins, i), BlocksAt(f, ins, i).stack)
  }

  /** What the finder has collected once instructions 0..n-1 have left the window. */
  function Scan(f: Format, names: seq<string>, ins: seq<Instr>, n: nat): Result<Found, Error>
    requires n == 0 || n + 2 < |ins|
  {
    if n == 0 then Success(Found(map[], []))
    else
      var found :- Scan(f, names, ins, n - 1);
      var i := n - 1;
      if !IsSite(f, ins, i) then Success(found)
      else if !NameKnown(names, ins, i) then Failure(Malformed)
      else if IsLabel(f, names, ins, i) then
        Success(found.(labels := found.labels[Key(ins, i) := LabelOf(f, ins, i)]))
      else if IsGoto(f, names, ins, i) then Success(found.(gotos := found.gotos + [GotoOf(f, ins, i)]))
      else Success(found)
  }

  /** The number of instructions that have left the window when the parser is done. */
  function Scanned(ins: seq<Instr>): nat {
    if |ins| < 3 then 0 else |ins| - 3
  }

  function Find(f: Format, names: seq<string>, code: seq<Byte>): Result<Found, Error> {
    var ins :- Parse(f, code, 0);
    Scan(f, names, ins, Scanned(ins))
  }

  /** `_find_labels_and_gotos`. */
  method FindLabelsAndGotos(f: Format, names: seq<string>, code: seq<Byte>) returns (r: Result<Found, Error>)
    requires f.Valid() && f.DistinctOpcodes()
    ensures r == Find(f, names, code)
  {
    var ins :- ParseInstructions(f, code);
    var labels: map<nat, Label>, gotos: seq<Goto> := map[], [];
    var blockStack: seq<nat>, blockCounter: nat := [], 0;
    var i1: Option<Instr>, i2: Option<Instr>, i3: Option<Instr> := None, None, None;
    for j := 0 to |ins|
      invariant i1 == (if j >= 3 then Some(ins[j - 3]) else None)
      invariant i2 == (if j >= 2 then Some(ins[j - 2]) else None)
      invariant i3 == (if j >= 1 then Some(ins[j - 1]) else None)
      invariant Blocks(blockStack, blockCounter) == BlocksAt(f, ins, if j >= 3 then j - 3 else 0)
      invariant Scan(f, names, ins, if j >= 3 then j - 3 else 0) == Success(Found(labels, gotos))
    {
      if i1.Some? {
        var op1 := i1.value.op;
        if IsLoad(f, op1) {
          if i2.value.op == f.loadAttr && i3.value.op == f.popTop {
            if !(i1.value.arg.Some? && i1.value.arg.value < |names|) {
              ScanFails(f, names, ins, j - 2, Scanned(ins));
              return Failure(Malformed);
            }
            var name := names[i1.value.arg.value];
            if name == "label" {
              labels := labels[i2.value.arg.GetOr(0) := Label(i1.value.offset, ins[j].offset, blockStack)];
            } else if name == "goto" {
              gotos := gotos + [Goto(i1.value.offset, ins[j].offset, i2.value.arg.GetOr(0), blockStack)];
            }
          }
        } else if op1 in f.setups {
          blockCounter := blockCounter + 1;
          blockStack := blockStack + [blockCounter];
        } else if op1 == f.popBlock && blockStack != [] {
          blockStack := blockStack[..|blockStack| - 1];
        }
      }
      i1, i2, i3 := i2, i3, Some(ins[j]);
    }
    return Success(Found(labels, gotos));
  }

  lemma {:induction false} ScanFails(f: Format, names: seq<string>, ins: seq<Instr>, m: nat, n: nat)
    requires m <= n && (n == 0 || n + 2 < |ins|) && Scan(f, names, ins, m).Failure?
    ensures Scan(f, names, ins, n) == Failure(Malformed)
    decreases n
  {
    if m < n {
      ScanFails(f, names, ins, m, n - 1);
    } else if n > 0 && Scan(f, names, ins, n - 1).Failure? {
      ScanFails(f, names, ins, n - 1, n - 1);
    }
  }

  /** The scan fails exactly if some site has an unknown name. */
  lemma {:induction false} ScanKnown(f: Format, names: seq<string>, ins: seq<Instr>, n: nat)
    requires n == 0 || n + 2 < |ins|
    ensures Scan(f, names, ins, n).Failure? ==> Scan(f, names, ins, n) == Failure(Malformed)
    ensures Scan(f, names, ins, n).Success? <==> forall i: nat :: i < n && IsSite(f, ins, i) ==> NameKnown(names, ins, i)
  {
    if n > 0 {
      ScanKnown(f, names, ins, n - 1);
    }
  }
}
