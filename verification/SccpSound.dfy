module SccpSound {
  /** Any table closed under the transfer functions is right about every run, and
      folding by it changes no run's outcome. */

  import opened Ir
  import opened Options
  import opened Lattice

  /** The tables are closed: in every reachable block each value's element is at
      least what its transfer function gives, every block a terminator can go to
      is reachable, and a branch is mapped to a constant only if its condition is. */
  ghost predicate Closed(g: Graph, t: Table, live: set<BlockRef>) {
    && 0 in live
    && forall b | b in live && 0 <= b < |g| :: forall i <- g[b] :: ClosedAt(i, t, live)
  }

  ghost predicate ClosedAt(i: Instr, t: Table, live: set<BlockRef>) {
    && (Computes(i.op) || i.op.Load? ==> Leq(Transfer(i.op, t, live), Find(t, i.id)))
    && Targets(i.op, t) <= live
    && (i.op.CondBr? && Find(t, i.id).Known? ==> OfValue(i.op.a, t) == Find(t, i.id))
  }

  predicate IsSuffix(s: seq<Instr>, whole: seq<Instr>) {
    |s| <= |whole| && s == whole[|whole| - |s|..]
  }

  /** The first block has no phi (control enters it from no block). */
  predicate EntryHasNoPhi(g: Graph) {
    g != [] ==> forall i <- g[0] :: !i.op.Phi?
  }

  /** What holds of every configuration that a run reaches. */
  ghost predicate Right(g: Graph, c: Config, t: Table, live: set<BlockRef>) {
    c.Running? ==>
      && 0 <= c.blk < |g| && c.blk in live && IsSuffix(c.rest, g[c.blk])
      && (c.prev in live || c.blk == 0)
      && Covered(c.regs, t)
  }

  lemma {:induction false} SuffixTail(s: seq<Instr>, whole: seq<Instr>)
    requires IsSuffix(s, whole) && s != []
    ensures s[0] in whole && IsSuffix(s[1..], whole)
  {
    assert s[0] == whole[|whole| - |s|];
  }

  lemma {:induction false} StepRight(g: Graph, c: Config, t: Table, live: set<BlockRef>)
    requires Closed(g, t, live) && Right(g, c, t, live) && EntryHasNoPhi(g)
    ensures Right(g, Step(g, c), t, live)
  {
    if c.Running? && c.rest != [] {
      var i := c.rest[0];
      SuffixTail(c.rest, g[c.blk]);
      assert ClosedAt(i, t, live);
      if i.op.CondBr? && Operand(i.op.a, c.args, c.regs).Some? {
        OperandCovered(i.op.a, c.args, c.regs, t);
      } else if Computes(i.op) && Compute(i.op, c.prev, c.args, c.regs).Some? {
        TransferCovers(i.op, c.prev, c.args, c.regs, t, live);
      }
    }
  }

  /** Soundness: in any number of steps, every block executed is marked reachable
      and every value computed is the constant the table gives it, if it gives one. */
  lemma {:induction false} RunRight(g: Graph, c: Config, t: Table, live: set<BlockRef>, k: nat)
    requires Closed(g, t, live) && Right(g, c, t, live) && EntryHasNoPhi(g)
    ensures Right(g, Run(g, c, k), t, live)
    decreases k
  {
    if k > 0 {
      StepRight(g, c, t, live);
      RunRight(g, Step(g, c), t, live, k - 1);
    }
  }

  lemma {:induction false} StartRight(g: Graph, args: seq<i32>, w: World, t: Table, live: set<BlockRef>)
    requires |g| > 0 && Closed(g, t, live)
    ensures Right(g, Start(g, args, w), t, live)
  {
  }

  // ----- folding -----

  function FoldValue(v: Value, t: Table): Value {
    if v.Reg? && Find(t, v.id).Known? then Const(Find(t, v.id).n) else v
  }

  function FoldIncoming(incoming: seq<(Value, BlockRef)>, t: Table, live: set<BlockRef>): seq<(Value, BlockRef)> {
    if incoming == [] then []
    else
      (if incoming[0].1 in live then [(FoldValue(incoming[0].0, t), incoming[0].1)] else [])
      + FoldIncoming(incoming[1..], t, live)
  }

  function FoldOp(i: Instr, t: Table, live: set<BlockRef>): Op {
    match i.op
    case Binary(o, a, b) => Binary(o, FoldValue(a, t), FoldValue(b, t))
    case ICmp(p, a, b) => ICmp(p, FoldValue(a, t), FoldValue(b, t))
    case ZExt(a) => ZExt(FoldValue(a, t))
    case Store(a, x) => Store(FoldValue(a, t), x)
    case Phi(incoming) => Phi(FoldIncoming(incoming, t, live))
    case CondBr(a, ifTrue, ifFalse) =>
      (match Find(t, i.id)
       case Known(n) => Br(if n == 0 then ifFalse else ifTrue)
       case _ => CondBr(FoldValue(a, t), ifTrue, ifFalse))
    case Ret(a) => Ret(FoldValue(a, t))
    case _ => i.op
  }

  /** An instruction goes when its entry says it is a constant or never runs. */
  predicate Dropped(i: Instr, t: Table) {
    Computes(i.op) && i.id in t && !t[i.id].Top?
  }

  function FoldInstrs(s: seq<Instr>, t: Table, live: set<BlockRef>): seq<Instr> {
    if s == [] then []
    else (if Dropped(s[0], t) then [] else [Instr(s[0].id, FoldOp(s[0], t, live))]) + FoldInstrs(s[1..], t, live)
  }

  /** The function after the pass: instructions replaced, branches folded, the code
      of unreachable blocks gone. */
  function Fold(g: Graph, t: Table, live: set<BlockRef>): (r: Graph)
    ensures |r| == |g|
  {
    seq(|g|, b requires 0 <= b < |g| => if b in live then FoldInstrs(g[b], t, live) else [])
  }

  /** The folded run is where the original one is; it lacks only the values that
      became constants. */
  ghost predicate Same(g: Graph, c: Config, c': Config, t: Table, live: set<BlockRef>) {
    match c
    case Running(blk, prev, rest, args, regs, w) =>
      && c'.Running? && c'.blk == blk && c'.prev == prev && c'.args == args && c'.w == w
      && c'.rest == FoldInstrs(rest, t, live)
      && (forall id <- regs :: Find(t, id).Top? ==> id in c'.regs && c'.regs[id] == regs[id])
    case Halted(r, w) => c' == c
    case Stuck => false
  }

  lemma {:induction false} FoldValueSame(g: Graph, v: Value, c: Config, c': Config, t: Table, live: set<BlockRef>)
    requires c.Running? && Same(g, c, c', t, live) && Covered(c.regs, t) && Operand(v, c.args, c.regs).Some?
    ensures Operand(FoldValue(v, t), c'.args, c'.regs) == Operand(v, c.args, c.regs)
  {
  }

  lemma {:induction false} FoldSelect(incoming: seq<(Value, BlockRef)>, prev: BlockRef, t: Table, live: set<BlockRef>)
    requires prev in live && Select(incoming, prev).Some?
    ensures Select(FoldIncoming(incoming, t, live), prev) == Some(FoldValue(Select(incoming, prev).value, t))
    decreases incoming
  {
    var rest := FoldIncoming(incoming[1..], t, live);
    if incoming[0].1 in live {
      var head := (FoldValue(incoming[0].0, t), incoming[0].1);
      assert ([head] + rest)[1..] == rest;
    } else {
      assert [] + rest == rest;
    }
    if incoming[0].1 != prev {
      FoldSelect(incoming[1..], prev, t, live);
    }
  }

  lemma {:induction false} FoldComputeSame(g: Graph, i: Instr, c: Config, c': Config, t: Table, live: set<BlockRef>)
    requires c.Running? && Same(g, c, c', t, live) && Covered(c.regs, t)
    requires Computes(i.op) && Compute(i.op, c.prev, c.args, c.regs).Some? && (i.op.Phi? ==> c.prev in live)
    ensures Compute(FoldOp(i, t, live), c'.prev, c'.args, c'.regs) == Compute(i.op, c.prev, c.args, c.regs)
  {
    match i.op
    case Binary(_, a, b) => FoldValueSame(g, a, c, c', t, live); FoldValueSame(g, b, c, c', t, live);
    case ICmp(_, a, b) => FoldValueSame(g, a, c, c', t, live); FoldValueSame(g, b, c, c', t, live);
    case ZExt(a) => FoldValueSame(g, a, c, c', t, live);
    case Phi(incoming) =>
      FoldSelect(incoming, c.prev, t, live);
      FoldValueSame(g, Select(incoming, c.prev).value, c, c', t, live);
  }

  /** A kept instruction does the same in the folded run. */
  lemma {:induction false} KeptStepSame(g: Graph, c: Config, c': Config, t: Table, live: set<BlockRef>)
    requires c.Running? && c.rest != [] && Same(g, c, c', t, live) && Covered(c.regs, t) && Step(g, c) != Stuck
    requires !Dropped(c.rest[0], t) && ClosedAt(c.rest[0], t, live) && (c.rest[0].op.Phi? ==> c.prev in live)
    ensures Same(g, Step(g, c), Step(Fold(g, t, live), c'), t, live)
  {
    hide Transfer, Apply, Compare;
    var i := c.rest[0];
    var j := Instr(i.id, FoldOp(i, t, live));
    assert c'.rest == [j] + FoldInstrs(c.rest[1..], t, live);
    assert c'.rest[0] == j && c'.rest[1..] == FoldInstrs(c.rest[1..], t, live);
    if Computes(i.op) {
      FoldComputeSame(g, i, c, c', t, live);
      FoldStaysComputing(i, t, live);
    } else {
      match i.op
      case Store(a, _) => FoldValueSame(g, a, c, c', t, live);
      case Ret(a) => FoldValueSame(g, a, c, c', t, live);
      case CondBr(a, _, _) =>
        FoldValueSame(g, a, c, c', t, live);
        OperandCovered(a, c.args, c.regs, t);
      case _ =>
    }
  }

  lemma {:induction false} FoldStaysComputing(i: Instr, t: Table, live: set<BlockRef>)
    requires Computes(i.op)
    ensures Computes(FoldOp(i, t, live))
  {
  }

  /** One step of the original is one step of the folded run, or none when its
      instruction is gone. */
  lemma {:induction false} StepSame(g: Graph, c: Config, c': Config, t: Table, live: set<BlockRef>)
    requires Closed(g, t, live) && EntryHasNoPhi(g) && Right(g, c, t, live) && Same(g, c, c', t, live)
    requires c.Running? && Step(g, c) != Stuck
    ensures if Dropped(c.rest[0], t)
            then Same(g, Step(g, c), c', t, live) && Step(g, c).Running? && |Step(g, c).rest| < |c.rest|
            else Same(g, Step(g, c), Step(Fold(g, t, live), c'), t, live)
  {
    hide Transfer, Fold, FoldOp, Apply, Compare;
    var i := c.rest[0];
    SuffixTail(c.rest, g[c.blk]);
    assert ClosedAt(i, t, live);
    if Dropped(i, t) {
      TransferCovers(i.op, c.prev, c.args, c.regs, t, live);
    } else {
      KeptStepSame(g, c, c', t, live);
    }
  }

  ghost predicate NeverStuck(g: Graph, c: Config) {
    forall k: nat :: Run(g, c, k) != Stuck
  }

  lemma {:induction false} NeverStuckStep(g: Graph, c: Config)
    requires NeverStuck(g, c)
    ensures NeverStuck(g, Step(g, c)) && Step(g, c) != Stuck && c != Stuck
  {
    assert Run(g, c, 0) == c;
    assert Run(g, c, 1) == Run(g, Step(g, c), 0);
    forall k: nat
      ensures Run(g, Step(g, c), k) != Stuck
    {
      assert Run(g, c, k + 1) == Run(g, Step(g, c), k);
    }
  }

  lemma {:induction false} OriginalToFolded(g: Graph, c: Config, c': Config, t: Table, live: set<BlockRef>, k: nat)
    requires Closed(g, t, live) && EntryHasNoPhi(g) && Right(g, c, t, live) && Same(g, c, c', t, live) && NeverStuck(g, c)
    requires Run(g, c, k).Halted?
    ensures Finishes(Fold(g, t, live), c', Run(g, c, k).result, Run(g, c, k).w)
    decreases k
  {
    var g' := Fold(g, t, live);
    if c.Running? {
      NeverStuckStep(g, c);
      StepSame(g, c, c', t, live);
      StepRight(g, c, t, live);
      var c1' := if Dropped(c.rest[0], t) then c' else Step(g', c');
      OriginalToFolded(g, Step(g, c), c1', t, live, k - 1);
      var r := Run(g, c, k);
      var k': nat :| Run(g', c1', k') == Halted(r.result, r.w);
      if c1' != c' {
        assert Run(g', c', k' + 1) == Run(g', c1', k');
      }
    } else {
      RunHalted(g, c, k);
      assert Run(g', c', 0) == c';
    }
  }

  lemma {:induction false} FoldedToOriginal(g: Graph, c: Config, c': Config, t: Table, live: set<BlockRef>, k: nat) returns (j: nat)
    requires Closed(g, t, live) && EntryHasNoPhi(g) && Right(g, c, t, live) && Same(g, c, c', t, live) && NeverStuck(g, c)
    requires Run(Fold(g, t, live), c', k).Halted?
    ensures Run(g, c, j) == Run(Fold(g, t, live), c', k)
    decreases k, if c.Running? then |c.rest| else 0
  {
    var g' := Fold(g, t, live);
    if c.Running? {
      NeverStuckStep(g, c);
      StepSame(g, c, c', t, live);
      StepRight(g, c, t, live);
      if Dropped(c.rest[0], t) {
        j := FoldedToOriginal(g, Step(g, c), c', t, live, k);
      } else {
        j := FoldedToOriginal(g, Step(g, c), Step(g', c'), t, live, k - 1);
      }
      j := j + 1;
    } else {
      j := 0;
      RunHalted(g', c', k);
    }
  }

  /** Folding by closed tables keeps the meaning: the folded function stops with a
      result and a world exactly when the original does. */
  lemma {:induction false} FoldKeepsMeaning(
    g: Graph, args: seq<i32>, w: World, t: Table, live: set<BlockRef>, r: Option<i32>, w': World)
    requires |g| > 0 && Closed(g, t, live) && EntryHasNoPhi(g) && NeverStuck(g, Start(g, args, w))
    ensures var g' := Fold(g, t, live);
      Finishes(g, Start(g, args, w), r, w') <==> Finishes(g', Start(g', args, w), r, w')
  {
    var g' := Fold(g, t, live);
    var c, c' := Start(g, args, w), Start(g', args, w);
    StartRight(g, args, w, t, live);
    assert Same(g, c, c', t, live);
    if Finishes(g, c, r, w') {
      var k: nat :| Run(g, c, k) == Halted(r, w');
      OriginalToFolded(g, c, c', t, live, k);
    }
    if Finishes(g', c', r, w') {
      var k: nat :| Run(g', c', k) == Halted(r, w');
      var j := FoldedToOriginal(g, c, c', t, live, k);
    }
  }
}
