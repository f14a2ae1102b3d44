/** What every step of code generation keeps about the graph: terminators stand
    only at the end of a block, and the blocks without one are exactly the
    current block and those still waiting for their code. */
module GraphShape {
  import opened Ir
  import opened Ast
  import opened Creator
  import opened Codegen

  predicate IsOpen(b: seq<Instr>) {
    forall i <- b :: !IsTerminator(i)
  }

  predicate IsClosed(b: seq<Instr>) {
    b != [] && IsTerminator(b[|b| - 1]) && IsOpen(b[..|b| - 1])
  }

  /** Branch targets are among the first n blocks; the null block counts as one
      when `nulls` is set. */
  predicate TargetsIn(op: Op, n: nat, nulls: bool) {
    forall t <- Successors(op) :: IsTarget(t, n, nulls)
  }

  predicate IsTarget(t: BlockRef, n: nat, nulls: bool) {
    t < n && (0 <= t || (nulls && t == NO_BLOCK))
  }

  /** Block `open` can take more code (-1: no block can), the blocks in `waiting`
      are empty, every other block is complete, and branches have targets. */
  ghost predicate Shape(g: Gen, waiting: set<int>, open: int, nulls: bool) {
    && g.Ok()
    && (forall b :: 0 <= b < |g.blocks| ==> forall i <- g.blocks[b] :: TargetsIn(i.op, |g.blocks|, nulls))
    && open !in waiting
    && (forall p <- waiting :: 0 <= p < |g.blocks|)
    && (forall b :: 0 <= b < |g.blocks| ==>
          if b == open then IsOpen(g.blocks[b])
          else if b in waiting then g.blocks[b] == []
          else IsClosed(g.blocks[b]))
  }

  /** g' was reached from g by adding blocks, instructions and labels only. */
  ghost predicate Grows(g: Gen, g': Gen) {
    && |g.blocks| <= |g'.blocks|
    && g.next <= g'.next
    && (forall b :: 0 <= b < |g.blocks| ==> g.blocks[b] <= g'.blocks[b])
    && (forall l <- g.labels :: l in g'.labels && g'.labels[l] == g.labels[l])
  }

  /** g' was reached from g by adding blocks and instructions only. */
  ghost predicate Builds(g: Gen, g': Gen) {
    && Grows(g, g')
    && g'.labels == g.labels
    && g'.breakPoint == g.breakPoint
    && g'.continuePoint == g.continuePoint
  }

  /** A value that code generated so far can have computed. */
  predicate Known(v: Value, g: Gen) {
    v.Const? || (v.Reg? && v.id < g.next)
  }

  // ----- the creator's own steps -----

  lemma {:induction false} GrowsTrans(g: Gen, g1: Gen, g2: Gen)
    requires Grows(g, g1) && Grows(g1, g2)
    ensures Grows(g, g2)
  {
    forall b | 0 <= b < |g.blocks|
      ensures g.blocks[b] <= g2.blocks[b]
    {
      assert g.blocks[b] <= g1.blocks[b] <= g2.blocks[b];
    }
  }

  /** Moving the insert point in between does not matter. */
  lemma {:induction false} GrowsAt(g: Gen, g1: Gen, b: nat, g2: Gen)
    requires Grows(g, g1) && b < |g1.blocks| && Grows(g1.At(b), g2)
    ensures Grows(g, g2)
  {
    GrowsTrans(g, g1, g2);
  }

  lemma {:induction false} BuildsTrans(g: Gen, g1: Gen, g2: Gen)
    requires Builds(g, g1) && Builds(g1, g2)
    ensures Builds(g, g2)
  {
    GrowsTrans(g, g1, g2);
  }

  lemma {:induction false} BuildsAt(g: Gen, g1: Gen, b: nat, g2: Gen)
    requires Builds(g, g1) && b < |g1.blocks| && Builds(g1.At(b), g2)
    ensures Builds(g, g2)
  {
    GrowsTrans(g, g1, g2);
  }

  lemma {:induction false} BlockShape(g: Gen, waiting: set<int>, open: int, nulls: bool)
    requires Shape(g, waiting, open, nulls) && open < |g.blocks|
    ensures Shape(g.WithBlock(), waiting + {|g.blocks|}, open, nulls) && Builds(g, g.WithBlock())
  {
  }

  lemma {:induction false} AddShape(g: Gen, waiting: set<int>, b: nat, op: Op, nulls: bool)
    requires Shape(g, waiting, b, nulls) && b < |g.blocks| && TargetsIn(op, |g.blocks|, nulls)
    ensures Shape(g.Add(b, op), waiting, if IsTerminator(Instr(0, op)) then -1 else b, nulls)
    ensures Builds(g, g.Add(b, op))
  {
    var g' := g.Add(b, op);
    var before := g.blocks[b];
    assert g'.blocks[b][..|before|] == before;
  }

  lemma {:induction false} AppendShape(g: Gen, waiting: set<int>, op: Op, nulls: bool)
    requires Shape(g, waiting, g.cur, nulls) && TargetsIn(op, |g.blocks|, nulls)
    ensures Shape(g.Append(op), waiting, if IsTerminator(Instr(0, op)) then -1 else g.cur, nulls)
    ensures Builds(g, g.Append(op))
  {
    AddShape(g, waiting, g.cur, op, nulls);
  }

  /** The insert point moves to a waiting block; `rest` are the others. */
  lemma {:induction false} AtShape(g: Gen, waiting: set<int>, b: nat, rest: set<int>, nulls: bool)
    requires Shape(g, waiting, -1, nulls) && waiting == rest + {b} && b !in rest
    ensures b < |g.blocks| && g.blocks[b] == []
    ensures Shape(g.At(b), rest, b, nulls)
  {
  }

  /** A new block that the insert point branches to and moves to. */
  lemma {:induction false} ConnectedShape(g: Gen, waiting: set<int>, nulls: bool)
    requires Shape(g, waiting, g.cur, nulls)
    ensures Shape(g.WithConnectedBlock(), waiting, |g.blocks|, nulls)
    ensures Builds(g, g.WithConnectedBlock())
  {
    var n := |g.blocks|;
    BlockShape(g, waiting, g.cur, nulls);
    AppendShape(g.WithBlock(), waiting + {n}, Br(n), nulls);
    AtShape(g.WithBlock().Append(Br(n)), waiting + {n}, n, waiting, nulls);
  }

  // ----- expressions -----

  lemma {:induction false} CombineShape(op: BinaryOperator, g: Gen, waiting: set<int>, a: Value, b: Value, nulls: bool)
    requires Shape(g, waiting, g.cur, nulls) && Known(a, g) && Known(b, g)
    ensures var (g', v) := Combine(op, g, a, b);
      Shape(g', waiting, g'.cur, nulls) && Builds(g, g') && Known(v, g')
  {
    match op
    case PLUS => AppendShape(g, waiting, Op.Binary(Add, a, b), nulls);
    case MINUS => AppendShape(g, waiting, Op.Binary(Sub, a, b), nulls);
    case STAR => AppendShape(g, waiting, Op.Binary(Mul, a, b), nulls);
    case LAND => AppendShape(g, waiting, Op.Binary(And, a, b), nulls);
    case LOR => AppendShape(g, waiting, Op.Binary(Or, a, b), nulls);
    case LESS => CompareShape(g, waiting, SLT, a, b, nulls);
    case EQUAL => CompareShape(g, waiting, EQ, a, b, nulls);
    case NEQUAL => CompareShape(g, waiting, NE, a, b, nulls);
  }

  lemma {:induction false} CompareShape(g: Gen, waiting: set<int>, p: Predicate, a: Value, b: Value, nulls: bool)
    requires Shape(g, waiting, g.cur, nulls)
    ensures var g' := g.Append(ICmp(p, a, b)).Append(ZExt(Reg(g.next)));
      Shape(g', waiting, g'.cur, nulls) && Builds(g, g')
  {
    AppendShape(g, waiting, ICmp(p, a, b), nulls);
    AppendShape(g.Append(ICmp(p, a, b)), waiting, ZExt(Reg(g.next)), nulls);
  }

  /** Generating an expression leaves one open block, the current one. */
  lemma {:induction false} RvalueShape(e: Expr, g: Gen, waiting: set<int>, nulls: bool)
    requires Shape(g, waiting, g.cur, nulls)
    ensures var (g', v) := Rvalue(e, g);
      Shape(g', waiting, g'.cur, nulls) && Builds(g, g') && Known(v, g')
    decreases e, 1
  {
    assert g.Ok() && Builds(g, g);
    hide Shape, Builds, Gen.Ok, Gen.Add, Gen.Append;
    match e
    case Constant(n) =>
    case Variable(x) => AppendShape(g, waiting, Load(x), nulls);
    case Assign(x, a) => ThenShape(a, g, waiting, Store(Rvalue(a, g).1, x), nulls);
    case Negate(a) => ThenShape(a, g, waiting, Op.Binary(Sub, Const(0), Rvalue(a, g).1), nulls);
    case Not(a) => ThenShape(a, g, waiting, Op.Binary(Xor, Rvalue(a, g).1, Const(-1)), nulls);
    case Binary(op, a, b) =>
      RvalueShape(a, g, waiting, nulls);
      var (g1, v1) := Rvalue(a, g);
      RvalueShape(b, g1, waiting, nulls);
      var (g2, v2) := Rvalue(b, g1);
      KnownLater(v1, g1, g2);
      CombineShape(op, g2, waiting, v1, v2, nulls);
      BuildsTrans(g, g1, g2);
      BuildsTrans(g, g2, Combine(op, g2, v1, v2).0);
    case Ternary(_, _, _) => TernaryShape(e, g, waiting, nulls);
  }

  lemma {:induction false} KnownLater(v: Value, g: Gen, g': Gen)
    requires Known(v, g) && Builds(g, g')
    ensures Known(v, g')
  {
  }

  /** An operand's code followed by one instruction that is not a terminator. */
  lemma {:induction false} ThenShape(e: Expr, g: Gen, waiting: set<int>, op: Op, nulls: bool)
    requires Shape(g, waiting, g.cur, nulls) && !IsTerminator(Instr(0, op))
    ensures var (g1, v) := Rvalue(e, g);
      && Shape(g1, waiting, g1.cur, nulls) && Builds(g, g1) && Known(v, g1)
      && Shape(g1.Append(op), waiting, g1.cur, nulls) && Builds(g, g1.Append(op)) && Known(v, g1.Append(op))
    decreases e, 4
  {
    RvalueShape(e, g, waiting, nulls);
    var (g1, v) := Rvalue(e, g);
    AppendShape(g1, waiting, op, nulls);
    BuildsTrans(g, g1, g1.Append(op));
  }

  lemma {:induction false} TernaryShape(e: Expr, g: Gen, waiting: set<int>, nulls: bool)
    requires Shape(g, waiting, g.cur, nulls) && e.Ternary?
    ensures var (g', v) := Rvalue(e, g);
      Shape(g', waiting, g'.cur, nulls) && Builds(g, g') && Known(v, g')
    decreases e, 0
  {
    hide Shape, Builds, Gen.Ok, Gen.WithBlock, Gen.Add, Gen.Append, Gen.At, Rvalue, Condition, Arm;
    var Ternary(c, a, b) := e;
    var n := |g.blocks|;
    BlocksShape(g, waiting, nulls);
    var g0 := g.WithBlock().WithBlock().WithBlock();
    var g1 := Condition(c, g0, n, n + 1);
    var (g2, v2, b2) := Arm(a, g1, n, n + 2);
    var (g3, v3, b3) := Arm(b, g2, n + 1, n + 2);
    var phi := Phi([(v2, b2), (v3, b3)]);
    var g4 := g3.At(n + 2).Append(phi);
    RvalueOfTernary(e, g);
    ConditionShape(c, g0, waiting + {n, n + 1, n + 2}, n, n + 1, nulls);
    ArmShape(a, g1, n, n + 2, waiting + {n, n + 1, n + 2}, waiting + {n + 1, n + 2}, nulls);
    ArmShape(b, g2, n + 1, n + 2, waiting + {n + 1, n + 2}, waiting + {n + 2}, nulls);
    AtShape(g3, waiting + {n + 2}, n + 2, waiting, nulls);
    AppendShape(g3.At(n + 2), waiting, phi, nulls);
    BuildsTrans(g, g0, g1);
    BuildsTrans(g, g1, g2);
    BuildsTrans(g, g2, g3);
    BuildsAt(g, g3, n + 2, g4);
  }

  lemma {:induction false} ArmShape(e: Expr, g: Gen, b: nat, end: nat, waiting: set<int>, rest: set<int>, nulls: bool)
    requires Shape(g, waiting, -1, nulls) && waiting == rest + {b} && b !in rest && end < |g.blocks|
    ensures b < |g.blocks|
    ensures var (g1, v, from) := Arm(e, g, b, end);
      Shape(g1, rest, -1, nulls) && Builds(g, g1) && Known(v, g1) && from < |g1.blocks|
    decreases e, 3
  {
    AtShape(g, waiting, b, rest, nulls);
    var (g1, v) := Rvalue(e, g.At(b));
    RvalueShape(e, g.At(b), rest, nulls);
    AppendShape(g1, rest, Br(end), nulls);
    BuildsAt(g, g, b, g1);
    BuildsTrans(g, g1, g1.Append(Br(end)));
  }

  lemma {:induction false} BlocksShape(g: Gen, waiting: set<int>, nulls: bool)
    requires Shape(g, waiting, g.cur, nulls)
    ensures var n := |g.blocks|;
      var g2 := g.WithBlock().WithBlock();
      && g.Ok() && n !in waiting && n + 1 !in waiting && n + 2 !in waiting
      && Shape(g2, waiting + {n, n + 1}, g.cur, nulls) && Builds(g, g2)
      && Shape(g2.WithBlock(), waiting + {n, n + 1, n + 2}, g.cur, nulls) && Builds(g, g2.WithBlock())
  {
    var n := |g.blocks|;
    BlockShape(g, waiting, g.cur, nulls);
    BlockShape(g.WithBlock(), waiting + {n}, g.cur, nulls);
    assert waiting + {n} + {n + 1} == waiting + {n, n + 1};
    BlockShape(g.WithBlock().WithBlock(), waiting + {n, n + 1}, g.cur, nulls);
    assert waiting + {n, n + 1} + {n + 2} == waiting + {n, n + 1, n + 2};
  }

  /** Generating a condition leaves no block open: control has jumped away. */
  lemma {:induction false} ConditionShape(e: Expr, g: Gen, waiting: set<int>, t: BlockRef, f: BlockRef, nulls: bool)
    requires IsTarget(t, |g.blocks|, nulls) && IsTarget(f, |g.blocks|, nulls)
    requires Shape(g, waiting, g.cur, nulls)
    ensures var g' := Condition(e, g, t, f);
      Shape(g', waiting, -1, nulls) && Builds(g, g')
    decreases e, 5
  {
    if e.Binary? && (e.op.LAND? || e.op.LOR?) {
      LogicalShape(e, g, waiting, t, f, nulls);
    } else if e.Not? {
      hide Rvalue, Condition;
      ConditionOfNot(e, g, t, f);
      ConditionShape(e.operand, g, waiting, f, t, nulls);
    } else if e.Ternary? {
      TernaryConditionShape(e, g, waiting, t, f, nulls);
    } else {
      assert g.Ok();
      hide Shape, Builds, Gen.Ok, Gen.Add, Gen.Append, Rvalue, Condition;
      ConditionOfLeaf(e, g, t, f);
      var (g1, v) := Rvalue(e, g);
      ThenShape(e, g, waiting, ICmp(NE, v, Const(0)), nulls);
      var g2 := g1.Append(ICmp(NE, v, Const(0)));
      AppendShape(g2, waiting, CondBr(Reg(g1.next), t, f), nulls);
      BuildsTrans(g, g2, g2.Append(CondBr(Reg(g1.next), t, f)));
    }
  }

  /** `&&` and `||`: the right operand is tested in a block of its own. */
  lemma {:induction false} LogicalShape(
    e: Expr, g: Gen, waiting: set<int>, t: BlockRef, f: BlockRef, nulls: bool)
    requires IsTarget(t, |g.blocks|, nulls) && IsTarget(f, |g.blocks|, nulls)
    requires Shape(g, waiting, g.cur, nulls) && e.Binary? && (e.op.LAND? || e.op.LOR?)
    ensures var g' := Condition(e, g, t, f);
      Shape(g', waiting, -1, nulls) && Builds(g, g')
    decreases e, 0
  {
    BlocksShape(g, waiting, nulls);
    BlockShape(g, waiting, g.cur, nulls);
    hide Shape, Builds, Gen.Ok, Gen.WithBlock, Gen.Add, Gen.Append, Gen.At, Rvalue, Condition;
    var n := |g.blocks|;
    var (t1, f1) := if e.op.LAND? then (n, f) else (t, n);
    var g1 := Condition(e.lhs, g.WithBlock(), t1, f1);
    ConditionOfLogical(e, g, t, f);
    ConditionShape(e.lhs, g.WithBlock(), waiting + {n}, t1, f1, nulls);
    AtShape(g1, waiting + {n}, n, waiting, nulls);
    ConditionShape(e.rhs, g1.At(n), waiting, t, f, nulls);
    BuildsTrans(g, g.WithBlock(), g1);
    BuildsAt(g, g1, n, Condition(e.rhs, g1.At(n), t, f));
  }

  lemma {:induction false} TernaryConditionShape(
    e: Expr, g: Gen, waiting: set<int>, t: BlockRef, f: BlockRef, nulls: bool)
    requires IsTarget(t, |g.blocks|, nulls) && IsTarget(f, |g.blocks|, nulls)
    requires Shape(g, waiting, g.cur, nulls) && e.Ternary?
    ensures var g' := Condition(e, g, t, f);
      Shape(g', waiting, -1, nulls) && Builds(g, g')
    decreases e, 0
  {
    hide Shape, Builds, Gen.Ok, Gen.WithBlock, Gen.Add, Gen.Append, Gen.At, Rvalue, Condition;
    var n := |g.blocks|;
    BlocksShape(g, waiting, nulls);
    var g0 := g.WithBlock().WithBlock();
    var g1 := Condition(e.condition, g0, n, n + 1);
    var g2 := Condition(e.lhs, g1.At(n), t, f);
    var g3 := Condition(e.rhs, g2.At(n + 1), t, f);
    ConditionOfTernary(e, g, t, f);
    ConditionShape(e.condition, g0, waiting + {n, n + 1}, n, n + 1, nulls);
    AtShape(g1, waiting + {n, n + 1}, n, waiting + {n + 1}, nulls);
    ConditionShape(e.lhs, g1.At(n), waiting + {n + 1}, t, f, nulls);
    AtShape(g2, waiting + {n + 1}, n + 1, waiting, nulls);
    ConditionShape(e.rhs, g2.At(n + 1), waiting, t, f, nulls);
    BuildsTrans(g, g0, g1);
    BuildsAt(g, g1, n, g2);
    BuildsAt(g, g2, n + 1, g3);
  }
}
