/** Why comparing block numbers is enough: the prefix test of `_patch_code` accepts a goto exactly when every block open
    at the label is still open, in the same instance, at the goto. */
module GotoBlocks {
  import opened Bytecode
  import opened GotoSites

  function Stack(f: Format, ins: seq<Instr>, i: nat): seq<nat>
    requires i <= |ins|
  {
    BlocksAt(f, ins, i).stack
  }

  predicate IsSetup(f: Format, ins: seq<Instr>, s: nat) {
    s < |ins| && ins[s].op in f.setups && !IsLoad(f, ins[s].op)
  }

  /** The block opened by the setup instruction `s` has not been closed when `i` is reached: the nesting has stayed
      deeper than it was before `s`. This speaks of instructions only, not of block numbers. */
  ghost predicate OpenSince(f: Format, ins: seq<Instr>, s: nat, i: nat) {
    s < i <= |ins| && IsSetup(f, ins, s)
    && forall k :: s < k <= i ==> |Stack(f, ins, k)| > |Stack(f, ins, s)|
  }

  /** The number the setup instruction `s` gives to its block. */
  function Id(f: Format, ins: seq<Instr>, s: nat): nat
    requires s <= |ins|
  {
    BlocksAt(f, ins, s).counter + 1
  }

  lemma {:induction false} CounterGrows(f: Format, ins: seq<Instr>, i: nat, j: nat)
    requires i <= j <= |ins|
    ensures BlocksAt(f, ins, i).counter <= BlocksAt(f, ins, j).counter
    decreases j
  {
    if i < j {
      CounterGrows(f, ins, i, j - 1);
    }
  }

  /** Numbers are never reused. */
  lemma IdsDiffer(f: Format, ins: seq<Instr>, s: nat, t: nat)
    requires s < t && IsSetup(f, ins, s) && IsSetup(f, ins, t)
    ensures Id(f, ins, s) < Id(f, ins, t)
  {
    CounterGrows(f, ins, s + 1, t);
  }

  predicate Ordered(b: Blocks) {
    && (forall p, q :: 0 <= p < q < |b.stack| ==> b.stack[p] < b.stack[q])
    && (forall p :: 0 <= p < |b.stack| ==> 0 < b.stack[p] <= b.counter)
  }

  lemma AfterOrdered(f: Format, b: Blocks, op: Byte)
    requires Ordered(b)
    ensures Ordered(After(f, b, op))
  {
  }

  /** The stack is strictly increasing and holds only numbers already given out. */
  lemma {:induction false} StackOrdered(f: Format, ins: seq<Instr>, i: nat)
    requires i <= |ins|
    ensures Ordered(BlocksAt(f, ins, i))
  {
    if i > 0 {
      StackOrdered(f, ins, i - 1);
      AfterOrdered(f, BlocksAt(f, ins, i - 1), ins[i - 1].op);
    }
  }

  /** A block that is still open is on the stack, above exactly the blocks it was opened in. */
  lemma {:induction false} OpenIsListed(f: Format, ins: seq<Instr>, s: nat, i: nat)
    requires OpenSince(f, ins, s, i)
    ensures var d := |Stack(f, ins, s)|;
            d < |Stack(f, ins, i)| && Stack(f, ins, i)[..d + 1] == Stack(f, ins, s) + [Id(f, ins, s)]
    decreases i
  {
    if i > s + 1 {
      assert OpenSince(f, ins, s, i - 1);
      OpenIsListed(f, ins, s, i - 1);
    }
  }

  /** Every number on the stack belongs to a block that is still open. */
  lemma {:induction false} ListedIsOpen(f: Format, ins: seq<Instr>, i: nat, p: nat) returns (s: nat)
    requires i <= |ins| && p < |Stack(f, ins, i)|
    ensures OpenSince(f, ins, s, i) && |Stack(f, ins, s)| == p && Id(f, ins, s) == Stack(f, ins, i)[p]
    decreases i
  {
    if p < |Stack(f, ins, i - 1)| {
      s := ListedIsOpen(f, ins, i - 1, p);
      forall k | s < k <= i ensures |Stack(f, ins, k)| > |Stack(f, ins, s)| {
        if k < i {
          assert OpenSince(f, ins, s, i - 1);
        }
      }
    } else {
      s := i - 1;
    }
  }

  /** The prefix test, for a label at instruction `l` and a goto at instruction `g`. */
  lemma PrefixTestExact(f: Format, ins: seq<Instr>, l: nat, g: nat)
    requires l <= |ins| && g <= |ins|
    ensures Stack(f, ins, l) <= Stack(f, ins, g)
       <==> forall s: nat :: OpenSince(f, ins, s, l) ==> OpenSince(f, ins, s, g)
  {
    if Stack(f, ins, l) <= Stack(f, ins, g) {
      forall s: nat | OpenSince(f, ins, s, l) ensures OpenSince(f, ins, s, g) {
        PrefixKeepsOpen(f, ins, l, g, s);
      }
    }
    if (forall s: nat :: OpenSince(f, ins, s, l) ==> OpenSince(f, ins, s, g)) && Stack(f, ins, l) != [] {
      var s := ListedIsOpen(f, ins, l, |Stack(f, ins, l)| - 1);
      OpenIsListed(f, ins, s, l);
      OpenIsListed(f, ins, s, g);
      assert Stack(f, ins, l)[..|Stack(f, ins, s)| + 1] == Stack(f, ins, l);
    }
  }

  lemma PrefixKeepsOpen(f: Format, ins: seq<Instr>, l: nat, g: nat, s: nat)
    requires l <= |ins| && g <= |ins| && Stack(f, ins, l) <= Stack(f, ins, g) && OpenSince(f, ins, s, l)
    ensures OpenSince(f, ins, s, g)
  {
    OpenIsListed(f, ins, s, l);
    var d := |Stack(f, ins, s)|;
    assert Stack(f, ins, l)[d] == Stack(f, ins, l)[..d + 1][d] == Id(f, ins, s);
    var t := ListedIsOpen(f, ins, g, d);
    if s < t { IdsDiffer(f, ins, s, t); } else if t < s { IdsDiffer(f, ins, t, s); }
  }

  // ---------------------------------------------------------------- open blocks without a stack

  /** Blocks opened less blocks closed by the instructions from `a` up to `b`. */
  function Balance(f: Format, ins: seq<Instr>, a: nat, b: nat): int
    requires a <= b <= |ins|
    decreases b
  {
    if a == b then 0
    else Balance(f, ins, a, b - 1)
         + (if ins[b - 1].op in f.setups then 1 else if ins[b - 1].op == f.popBlock then -1 else 0)
  }

  lemma {:induction false} BalanceIsDepth(f: Format, ins: seq<Instr>, s: nat, i: nat)
    requires f.DistinctOpcodes() && s <= i <= |ins| && forall k :: s < k < i ==> Balance(f, ins, s, k) > 0
    requires i > s ==> IsSetup(f, ins, s)
    ensures |Stack(f, ins, i)| - |Stack(f, ins, s)| == Balance(f, ins, s, i)
    decreases i
  {
    if s < i {
      BalanceIsDepth(f, ins, s, i - 1);
    }
  }

  /** The block opened at `s` has not been closed before `i`: up to there, more have always been opened than closed. */
  ghost predicate Unclosed(f: Format, ins: seq<Instr>, s: nat, i: nat) {
    s < i <= |ins| && ins[s].op in f.setups && forall k: nat :: s < k <= i ==> Balance(f, ins, s, k) > 0
  }

  lemma OpenIsUnclosed(f: Format, ins: seq<Instr>, s: nat, i: nat)
    requires f.DistinctOpcodes() && i <= |ins|
    ensures OpenSince(f, ins, s, i) <==> Unclosed(f, ins, s, i)
  {
    if OpenSince(f, ins, s, i) {
      AllBalanced(f, ins, s, i);
    }
    if Unclosed(f, ins, s, i) {
      SetupsAreNoLoads(f, ins, s);
      forall k | s < k <= i ensures |Stack(f, ins, k)| > |Stack(f, ins, s)| { BalanceIsDepth(f, ins, s, k); }
    }
  }

  lemma SetupsAreNoLoads(f: Format, ins: seq<Instr>, s: nat)
    requires f.DistinctOpcodes() && s < |ins| && ins[s].op in f.setups
    ensures IsSetup(f, ins, s)
  {
  }

  lemma {:induction false} AllBalanced(f: Format, ins: seq<Instr>, s: nat, i: nat)
    requires f.DistinctOpcodes() && OpenSince(f, ins, s, i)
    ensures Unclosed(f, ins, s, i)
    decreases i
  {
    if i > s + 1 {
      assert OpenSince(f, ins, s, i - 1);
      AllBalanced(f, ins, s, i - 1);
    }
    BalanceIsDepth(f, ins, s, i);
  }

  // ---------------------------------------------------------------- how many are open

  /** The setup instructions whose blocks are open at `i`. */
  ghost function OpenAt(f: Format, ins: seq<Instr>, i: nat): set<nat> {
    set s: nat | s < i && OpenSince(f, ins, s, i)
  }

  ghost function OpenBelow(f: Format, ins: seq<Instr>, i: nat, d: nat): set<nat>
    requires i <= |ins|
  {
    set s: nat | s < i && OpenSince(f, ins, s, i) && |Stack(f, ins, s)| < d
  }

  /** One block per depth. */
  lemma SameDepth(f: Format, ins: seq<Instr>, s: nat, t: nat, i: nat)
    requires OpenSince(f, ins, s, i) && OpenSince(f, ins, t, i) && |Stack(f, ins, s)| == |Stack(f, ins, t)|
    ensures s == t
  {
  }

  lemma {:induction false} CountBelow(f: Format, ins: seq<Instr>, i: nat, d: nat)
    requires i <= |ins| && d <= |Stack(f, ins, i)|
    ensures |OpenBelow(f, ins, i, d)| == d
    decreases d
  {
    hide OpenSince, Stack;
    if d == 0 {
      assert OpenBelow(f, ins, i, 0) == {};
    } else {
      CountBelow(f, ins, i, d - 1);
      var s := ListedIsOpen(f, ins, i, d - 1);
      OpenEarlier(f, ins, s, i);
      forall t: nat | t < i && OpenSince(f, ins, t, i) && |Stack(f, ins, t)| == d - 1 ensures t == s {
        SameDepth(f, ins, s, t, i);
      }
      assert OpenBelow(f, ins, i, d) == OpenBelow(f, ins, i, d - 1) + {s};
    }
  }

  lemma OpenEarlier(f: Format, ins: seq<Instr>, s: nat, i: nat)
    requires OpenSince(f, ins, s, i)
    ensures s < i <= |ins| && |Stack(f, ins, s)| < |Stack(f, ins, i)|
  {
  }

  /** The stack is as high as there are open blocks. */
  lemma StackCounts(f: Format, ins: seq<Instr>, i: nat)
    requires i <= |ins|
    ensures |OpenAt(f, ins, i)| == |Stack(f, ins, i)|
  {
    hide OpenSince, Stack;
    CountBelow(f, ins, i, |Stack(f, ins, i)|);
    forall s: nat | s < i && OpenSince(f, ins, s, i) ensures |Stack(f, ins, s)| < |Stack(f, ins, i)| {
      OpenEarlier(f, ins, s, i);
    }
    assert OpenAt(f, ins, i) == OpenBelow(f, ins, i, |Stack(f, ins, i)|);
  }
}
