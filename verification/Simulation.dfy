/** Running the code of an expression computes its value, and running the code of
    a condition jumps the right way, with the same loads and stores in the same
    order. G is the finished graph, of which g is an earlier stage. */
module Simulation {
  import opened Ir
  import opened Options
  import opened Ast
  import opened CSemantics
  import opened Creator
  import opened Codegen
  import opened GraphShape

  /** G has everything that g has. */
  ghost predicate Within(g: Gen, G: Graph) {
    && |g.blocks| <= |G|
    && forall b :: 0 <= b < |g.blocks| ==> g.blocks[b] <= G[b]
  }

  lemma {:induction false} WithinTrans(g: Gen, g': Gen, G: Graph)
    requires Grows(g, g') && Within(g', G)
    ensures Within(g, G)
  {
    forall b | 0 <= b < |g.blocks|
      ensures g.blocks[b] <= G[b]
    {
      assert g.blocks[b] <= g'.blocks[b] <= G[b];
    }
  }

  /** Control is where code is about to be added to g. */
  ghost predicate AtEnd(c: Config, g: Gen, G: Graph) {
    && g.cur < |g.blocks| && Within(g, G)
    && c.Running? && c.blk == g.cur
    && c.rest == G[g.cur][|g.blocks[g.cur]|..]
  }

  /** Control is at the beginning of block b. */
  ghost predicate AtStart(c: Config, b: BlockRef, G: Graph) {
    0 <= b < |G| && c.Running? && c.blk == b && c.rest == G[b]
  }

  lemma {:induction false} StartIsEnd(c: Config, g: Gen, b: nat, G: Graph)
    requires Within(g, G) && b < |g.blocks| && g.blocks[b] == []
    requires AtStart(c, b, G)
    ensures AtEnd(c, g.At(b), G)
  {
  }

  /** The arguments and the values with identities below n are the same. */
  ghost predicate Keeps(c: Config, c': Config, n: nat) {
    && c.Running? && c'.Running? && c'.args == c.args
    && forall r | r in c.regs && r < n :: r in c'.regs && c'.regs[r] == c.regs[r]
  }

  lemma {:induction false} KeepsTrans(c: Config, c1: Config, c2: Config, n: nat, m: nat)
    requires Keeps(c, c1, n) && Keeps(c1, c2, m) && n <= m
    ensures Keeps(c, c2, n)
  {
  }

  lemma {:induction false} KeepsOperand(v: Value, g: Gen, c: Config, c': Config)
    requires Keeps(c, c', g.next) && Known(v, g) && Operand(v, c.args, c.regs).Some?
    ensures Operand(v, c'.args, c'.regs) == Operand(v, c.args, c.regs)
  {
  }

  /** The next instruction is the one appended at the insert point. */
  lemma {:induction false} NextIs(c: Config, g: Gen, op: Op, G: Graph)
    requires g.cur < |g.blocks| && Within(g.Append(op), G)
    requires c.Running? && c.blk == g.cur && c.rest == G[g.cur][|g.blocks[g.cur]|..]
    ensures c.rest != [] && c.rest[0] == Instr(g.next, op)
    ensures c.rest[1..] == G[g.cur][|g.Append(op).blocks[g.cur]|..]
  {
    var b := g.Append(op).blocks[g.cur];
    assert b <= G[g.cur];
    assert b[|g.blocks[g.cur]|] == Instr(g.next, op);
  }

  /** One instruction that computes a value. */
  lemma {:induction false} StepComputes(c: Config, g: Gen, op: Op, G: Graph, v: i32)
    requires AtEnd(c, g, G) && Within(g.Append(op), G)
    requires Computes(op) && Compute(op, c.prev, c.args, c.regs) == Some(v)
    ensures var c' := Step(G, c);
      && AtEnd(c', g.Append(op), G) && c'.w == c.w && Keeps(c, c', g.next)
      && Operand(Reg(g.next), c'.args, c'.regs) == Some(v)
  {
    NextIs(c, g, op, G);
  }

  /** A branch on a value. */
  lemma {:induction false} StepBranches(c: Config, g: Gen, a: Value, v: i32, t: BlockRef, f: BlockRef, G: Graph)
    requires AtEnd(c, g, G) && Within(g.Append(CondBr(a, t, f)), G)
    requires 0 <= t < |G| && 0 <= f < |G| && Operand(a, c.args, c.regs) == Some(v)
    ensures var c' := Step(G, c);
      AtStart(c', if v != 0 then t else f, G) && c'.w == c.w && Keeps(c, c', g.next)
  {
    NextIs(c, g, CondBr(a, t, f), G);
  }

  /** A branch. */
  lemma {:induction false} StepJumps(c: Config, g: Gen, t: BlockRef, G: Graph)
    requires AtEnd(c, g, G) && Within(g.Append(Br(t)), G) && 0 <= t < |G|
    ensures var c' := Step(G, c);
      AtStart(c', t, G) && c'.w == c.w && Keeps(c, c', g.next) && c'.prev == g.cur
  {
    NextIs(c, g, Br(t), G);
  }

  // ----- expressions -----

  lemma {:induction false} RunTwo(G: Graph, c: Config, j: nat, k: nat)
    ensures Run(G, c, j + k) == Run(G, Run(G, c, j), k)
    ensures Run(G, c, 1) == Step(G, c)
    ensures Run(G, c, j + 1) == Step(G, Run(G, c, j))
  {
    RunAdd(G, c, j, k);
    RunAdd(G, c, j, 1);
    assert Run(G, c, 1) == Run(G, Step(G, c), 0);
    assert Run(G, Run(G, c, j), 1) == Run(G, Step(G, Run(G, c, j)), 0);
  }

  /** The value of a binary operator, given those of its operands. */
  function Combined(op: BinaryOperator, x: i32, y: i32): i32 {
    match op
    case LAND => BitAnd(x, y)
    case LOR => BitOr(x, y)
    case _ => Arithmetic(op, x, y)
  }

  lemma {:induction false} SimCombine(op: BinaryOperator, g: Gen, a: Value, b: Value, x: i32, y: i32, G: Graph, c: Config)
    returns (k: nat, c': Config)
    requires g.Ok() && AtEnd(c, g, G) && Within(Combine(op, g, a, b).0, G)
    requires Operand(a, c.args, c.regs) == Some(x) && Operand(b, c.args, c.regs) == Some(y)
    ensures var (g', v) := Combine(op, g, a, b);
      && c' == Run(G, c, k) && AtEnd(c', g', G) && c'.w == c.w && Keeps(c, c', g.next)
      && Operand(v, c'.args, c'.regs) == Some(Combined(op, x, y))
  {
    hide Run, Step, BitAnd, BitOr, Wrap, Gen.Append, AtEnd, Within, Keeps;
    RunTwo(G, c, 1, 0);
    match op
    case PLUS => StepComputes(c, g, Op.Binary(Add, a, b), G, Wrap(x + y)); k, c' := 1, Step(G, c);
    case MINUS => StepComputes(c, g, Op.Binary(Sub, a, b), G, Wrap(x - y)); k, c' := 1, Step(G, c);
    case STAR => StepComputes(c, g, Op.Binary(Mul, a, b), G, Wrap(x * y)); k, c' := 1, Step(G, c);
    case LAND => StepComputes(c, g, Op.Binary(And, a, b), G, BitAnd(x, y)); k, c' := 1, Step(G, c);
    case LOR => StepComputes(c, g, Op.Binary(Or, a, b), G, BitOr(x, y)); k, c' := 1, Step(G, c);
    case LESS => k, c' := SimCompare(SLT, g, a, b, x, y, G, c);
    case EQUAL => k, c' := SimCompare(EQ, g, a, b, x, y, G, c);
    case NEQUAL => k, c' := SimCompare(NE, g, a, b, x, y, G, c);
  }

  lemma {:induction false} SimCompare(p: Predicate, g: Gen, a: Value, b: Value, x: i32, y: i32, G: Graph, c: Config)
    returns (k: nat, c': Config)
    requires g.Ok() && AtEnd(c, g, G) && Within(g.Append(ICmp(p, a, b)).Append(ZExt(Reg(g.next))), G)
    requires Operand(a, c.args, c.regs) == Some(x) && Operand(b, c.args, c.regs) == Some(y)
    ensures var g' := g.Append(ICmp(p, a, b)).Append(ZExt(Reg(g.next)));
      && c' == Run(G, c, k) && AtEnd(c', g', G) && c'.w == c.w && Keeps(c, c', g.next)
      && Operand(Reg(g.next + 1), c'.args, c'.regs) == Some(Compare(p, x, y))
  {
    var g1 := g.Append(ICmp(p, a, b));
    AppendWithin(g1, ZExt(Reg(g.next)), G);
    StepComputes(c, g, ICmp(p, a, b), G, Compare(p, x, y));
    var c1 := Step(G, c);
    StepComputes(c1, g1, ZExt(Reg(g.next)), G, Compare(p, x, y));
    k, c' := 2, Step(G, c1);
    RunTwo(G, c, 1, 0);
  }

  lemma {:induction false} AppendWithin(g: Gen, op: Op, G: Graph)
    requires g.cur < |g.blocks| && Within(g.Append(op), G)
    ensures Within(g, G)
  {
    forall b | 0 <= b < |g.blocks|
      ensures g.blocks[b] <= G[b]
    {
      assert g.blocks[b] <= g.Append(op).blocks[b] <= G[b];
    }
  }

  /** Running the code of e leaves its value in the result. */
  lemma {:induction false} SimRvalue(e: Expr, g: Gen, waiting: set<int>, nulls: bool, G: Graph, c: Config)
    returns (k: nat, c': Config)
    requires Shape(g, waiting, g.cur, nulls) && AtEnd(c, g, G) && Within(Rvalue(e, g).0, G)
    ensures var (g', v) := Rvalue(e, g);
      var (x, w) := Eval(AsBuilt, e, c.w);
      && c' == Run(G, c, k) && AtEnd(c', g', G) && c'.w == w && Keeps(c, c', g.next)
      && Operand(v, c'.args, c'.regs) == Some(x)
    decreases e, 1
  {
    match e
    case Constant(n) => k, c' := 0, c;
    case Variable(x) =>
      NextIs(c, g, Load(x), G);
      RunTwo(G, c, 0, 0);
      k, c' := 1, Step(G, c);
    case Assign(x, a) => k, c' := SimAssign(e, g, waiting, nulls, G, c);
    case Negate(a) => k, c' := SimUnary(e, a, g, Op.Binary(Sub, Const(0), Rvalue(a, g).1), waiting, nulls, G, c);
    case Not(a) => k, c' := SimUnary(e, a, g, Op.Binary(Xor, Rvalue(a, g).1, Const(-1)), waiting, nulls, G, c);
    case Binary(op, a, b) => k, c' := SimBinary(e, g, waiting, nulls, G, c);
    case Ternary(_, _, _) => k, c' := SimTernary(e, g, waiting, nulls, G, c);
  }

  lemma {:induction false} SimAssign(e: Expr, g: Gen, waiting: set<int>, nulls: bool, G: Graph, c: Config)
    returns (k: nat, c': Config)
    requires Shape(g, waiting, g.cur, nulls) && AtEnd(c, g, G) && e.Assign? && Within(Rvalue(e, g).0, G)
    ensures var (g', v) := Rvalue(e, g);
      var (x, w) := Eval(AsBuilt, e, c.w);
      && c' == Run(G, c, k) && AtEnd(c', g', G) && c'.w == w && Keeps(c, c', g.next)
      && Operand(v, c'.args, c'.regs) == Some(x)
    decreases e, 0
  {
    var (g1, v) := Rvalue(e.rhs, g);
    AppendWithin(g1, Store(v, e.x), G);
    var k1, c1 := SimRvalue(e.rhs, g, waiting, nulls, G, c);
    NextIs(c1, g1, Store(v, e.x), G);
    RunTwo(G, c, k1, 0);
    k, c' := k1 + 1, Step(G, c1);
  }

  /** An operand, then one instruction that computes from it. */
  lemma {:induction false} UnaryParts(e: Expr, a: Expr, g: Gen, w: World)
    requires g.Ok() && (e == Negate(a) || e == Not(a))
    ensures var (g1, v) := Rvalue(a, g);
      var op := if e.Negate? then Op.Binary(Sub, Const(0), v) else Op.Binary(Xor, v, Const(-1));
      Rvalue(e, g) == (g1.Append(op), Reg(g1.next))
    ensures var (x, w1) := Eval(AsBuilt, a, w);
      Eval(AsBuilt, e, w) == (if e.Negate? then Wrap(0 - x as int) else BitXor(x, -1), w1)
  {
    hide Condition, Arm, Combine, BitXor, Wrap, Gen.Append;
  }

  lemma {:induction false} SimUnary(e: Expr, a: Expr, g: Gen, op: Op, waiting: set<int>, nulls: bool, G: Graph, c: Config)
    returns (k: nat, c': Config)
    requires Shape(g, waiting, g.cur, nulls) && AtEnd(c, g, G)
    requires (e == Negate(a) && op == Op.Binary(Sub, Const(0), Rvalue(a, g).1)) || (e == Not(a) && op == Op.Binary(Xor, Rvalue(a, g).1, Const(-1)))
    requires Within(Rvalue(e, g).0, G)
    ensures var (g', v) := Rvalue(e, g);
      var (x, w) := Eval(AsBuilt, e, c.w);
      && c' == Run(G, c, k) && AtEnd(c', g', G) && c'.w == w && Keeps(c, c', g.next)
      && Operand(v, c'.args, c'.regs) == Some(x)
    decreases a, 2
  {
    hide Step, Run, BitXor, Wrap, Rvalue, Condition, Shape, Eval, Gen.Append, Arm, Combine;
    ShapeOk(g, waiting, nulls);
    var (g1, v) := Rvalue(a, g);
    UnaryParts(e, a, g, c.w);
    AppendWithin(g1, op, G);
    var k1, c1 := SimRvalue(a, g, waiting, nulls, G, c);
    RvalueShape(a, g, waiting, nulls);
    var x := Eval(AsBuilt, a, c.w).0;
    if e.Negate? {
      StepComputes(c1, g1, op, G, Wrap(0 - x as int));
    } else {
      StepComputes(c1, g1, op, G, BitXor(x, -1));
    }
    RunTwo(G, c, k1, 0);
    k, c' := k1 + 1, Step(G, c1);
    KeepsTrans(c, c1, c', g.next, g1.next);
  }

  lemma {:induction false} EvalOfBinary(e: Expr, w: World)
    requires e.Binary?
    ensures var (x, w1) := Eval(AsBuilt, e.lhs, w);
      var (y, w2) := Eval(AsBuilt, e.rhs, w1);
      Eval(AsBuilt, e, w) == (Combined(e.op, x, y), w2)
  {
    hide BitAnd, BitOr;
  }

  lemma {:induction false} EvalOfTernary(e: Expr, w: World)
    requires e.Ternary?
    ensures var (b, w1) := Test(AsBuilt, e.condition, w);
      Eval(AsBuilt, e, w) == if b then Eval(AsBuilt, e.lhs, w1) else Eval(AsBuilt, e.rhs, w1)
  {
    hide Test;
  }

  lemma {:induction false} SimBinary(e: Expr, g: Gen, waiting: set<int>, nulls: bool, G: Graph, c: Config)
    returns (k: nat, c': Config)
    requires c.Running? && Shape(g, waiting, g.cur, nulls) && AtEnd(c, g, G) && e.Binary? && Within(Rvalue(e, g).0, G)
    ensures var (g', v) := Rvalue(e, g);
      var (x, w) := Eval(AsBuilt, e, c.w);
      && c' == Run(G, c, k) && AtEnd(c', g', G) && c'.w == w && Keeps(c, c', g.next)
      && Operand(v, c'.args, c'.regs) == Some(x)
    decreases e, 0
  {
    hide Shape, Builds, Within, Keeps, Rvalue, Combine, Eval, Run, Step, Combined, Gen.Ok, AtEnd;
    ShapeOk(g, waiting, nulls);
    EvalOfBinary(e, c.w);
    RvalueOfBinary(e, g);
    var Binary(op, a, b) := e;
    var (g1, v1) := Rvalue(a, g);
    var (g2, v2) := Rvalue(b, g1);
    RvalueShape(a, g, waiting, nulls);
    RvalueShape(b, g1, waiting, nulls);
    KnownLater(v1, g1, g2);
    CombineShape(op, g2, waiting, v1, v2, nulls);
    WithinBuilds(g2, Rvalue(e, g).0, G);
    WithinBuilds(g1, g2, G);
    GrowsNext(g, g1);
    GrowsNext(g1, g2);
    var k1, c1 := SimRvalue(a, g, waiting, nulls, G, c);
    var k2, c2 := SimRvalue(b, g1, waiting, nulls, G, c1);
    KeepsOperand(v1, g1, c1, c2);
    var x, y := Eval(AsBuilt, a, c.w).0, Eval(AsBuilt, b, c1.w).0;
    var k3, c3 := SimCombine(op, g2, v1, v2, x, y, G, c2);
    RunTwo(G, c, k1, k2);
    RunTwo(G, c, k1 + k2, k3);
    KeepsTrans(c, c1, c2, g.next, g1.next);
    KeepsTrans(c, c2, c3, g.next, g2.next);
    k, c' := k1 + k2 + k3, c3;
  }

  lemma {:induction false} SimArm(
    e: Expr, g: Gen, b: nat, end: nat, waiting: set<int>, rest: set<int>, nulls: bool, G: Graph, c: Config)
    returns (k: nat, c': Config)
    requires Shape(g, waiting, -1, nulls) && waiting == rest + {b} && b !in rest
    requires b < |g.blocks| && end < |g.blocks| && AtStart(c, b, G) && Within(Arm(e, g, b, end).0, G)
    ensures var (g', v, from) := Arm(e, g, b, end);
      var (x, w) := Eval(AsBuilt, e, c.w);
      && c' == Run(G, c, k) && AtStart(c', end, G) && c'.w == w && Keeps(c, c', g.next) && c'.prev == from
      && Operand(v, c'.args, c'.regs) == Some(x)
    decreases e, 2
  {
    hide Rvalue, Eval, Within;
    var (g1, v) := Rvalue(e, g.At(b));
    AppendWithin(g1, Br(end), G);
    AtShape(g, waiting, b, rest, nulls);
    RvalueShape(e, g.At(b), rest, nulls);
    WithinTrans(g.At(b), g1, G);
    StartIsEnd(c, g, b, G);
    var k1, c1 := SimRvalue(e, g.At(b), rest, nulls, G, c);
    NextIs(c1, g1, Br(end), G);
    RunTwo(G, c, k1, 0);
    k, c' := k1 + 1, Step(G, c1);
  }

  /** The two arms of a ternary arrive from different blocks. */
  lemma {:induction false} ArmsDiffer(a: Expr, b: Expr, g: Gen, n: nat, end: nat, waiting: set<int>, nulls: bool)
    requires Shape(g, waiting + {n, n + 1}, -1, nulls) && n !in waiting && n + 1 !in waiting && end < |g.blocks|
    ensures n + 1 < |g.blocks|
    ensures var (g1, v1, from1) := Arm(a, g, n, end);
      var (g2, v2, from2) := Arm(b, g1, n + 1, end);
      from1 != from2
  {
    hide Shape, Builds, Arm, Rvalue;
    WaitingIsBlock(g, waiting + {n, n + 1}, n + 1, nulls);
    ArmShape(a, g, n, end, waiting + {n, n + 1}, waiting + {n + 1}, nulls);
    var (g1, v1, from1) := Arm(a, g, n, end);
    AtShape(g1, waiting + {n + 1}, n + 1, waiting, nulls);
    ArmEnds(a, g, n, end);
    ShapeOk(g1.At(n + 1), waiting, nulls);
    RvalueShape(b, g1.At(n + 1), waiting, nulls);
    ClosedIsNotOpen(g1.At(n + 1), Rvalue(b, g1.At(n + 1)).0, from1, waiting, nulls);
    ArmEnds(b, g1, n + 1, end);
  }

  lemma {:induction false} WaitingIsBlock(g: Gen, waiting: set<int>, b: int, nulls: bool)
    requires Shape(g, waiting, -1, nulls) && b in waiting
    ensures g.Ok() && 0 <= b < |g.blocks|
  {
  }

  /** An arm leaves the block that its value's code ends in, with a branch. */
  lemma {:induction false} ArmEnds(e: Expr, g: Gen, b: nat, end: nat)
    requires g.Ok() && b < |g.blocks|
    ensures var (g1, v, from) := Arm(e, g, b, end);
      && from == Rvalue(e, g.At(b)).0.cur && from < |g1.blocks|
      && g1.blocks[from] != [] && g1.blocks[from][|g1.blocks[from]| - 1].op == Br(end)
  {
    hide Rvalue;
  }

  lemma {:induction false} ClosedIsNotOpen(g: Gen, g': Gen, b: nat, waiting: set<int>, nulls: bool)
    requires Shape(g', waiting, g'.cur, nulls) && Builds(g, g') && b < |g.blocks|
    requires g.blocks[b] != [] && IsTerminator(g.blocks[b][|g.blocks[b]| - 1])
    ensures b != g'.cur
  {
    var i := |g.blocks[b]| - 1;
    assert g.blocks[b] <= g'.blocks[b];
    assert g'.blocks[b][i] == g.blocks[b][i] && g'.blocks[b][i] in g'.blocks[b];
  }

  lemma {:induction false} SimTernary(e: Expr, g: Gen, waiting: set<int>, nulls: bool, G: Graph, c: Config)
    returns (k: nat, c': Config)
    requires c.Running? && Shape(g, waiting, g.cur, nulls) && AtEnd(c, g, G) && e.Ternary? && Within(Rvalue(e, g).0, G)
    ensures var (g', v) := Rvalue(e, g);
      var (x, w) := Eval(AsBuilt, e, c.w);
      && c' == Run(G, c, k) && AtEnd(c', g', G) && c'.w == w && Keeps(c, c', g.next)
      && Operand(v, c'.args, c'.regs) == Some(x)
    decreases e, 0
  {
    hide Shape, Builds, Within, Keeps, Gen.Ok, Gen.WithBlock, Gen.Add, Gen.Append, Rvalue, Condition, Arm, AtEnd, AtStart,
      Eval, Test, Run, Step;
    EvalOfTernary(e, c.w);
    var Ternary(cond, a, b) := e;
    var n := |g.blocks|;
    BlocksShape(g, waiting, nulls);
    var g0 := g.WithBlock().WithBlock().WithBlock();
    RvalueOfTernary(e, g);
    var g1 := Condition(cond, g0, n, n + 1);
    var (g2, v2, b2) := Arm(a, g1, n, n + 2);
    var (g3, v3, b3) := Arm(b, g2, n + 1, n + 2);
    var phi := Phi([(v2, b2), (v3, b3)]);
    var all := waiting + {n, n + 1, n + 2};
    ConditionShape(cond, g0, all, n, n + 1, nulls);
    ArmShape(a, g1, n, n + 2, all, waiting + {n + 1, n + 2}, nulls);
    ArmShape(b, g2, n + 1, n + 2, waiting + {n + 1, n + 2}, waiting + {n + 2}, nulls);
    AtShape(g3, waiting + {n + 2}, n + 2, waiting, nulls);
    assert all == waiting + {n + 2} + {n, n + 1};
    ArmsDiffer(a, b, g1, n, n + 2, waiting + {n + 2}, nulls);
    AppendWithin(g3.At(n + 2), phi, G);
    WithinAt(g3, n + 2, G);
    WithinBuilds(g2, g3, G);
    WithinBuilds(g1, g2, G);
    BlocksAtEnd(c, g, G);
    var k1, c1 := SimCondition(cond, g0, all, nulls, n, n + 1, G, c);
    RvalueOfTernaryKeeps(g, g0, g1, g2);
    var k2, c2;
    if Test(AsBuilt, cond, c.w).0 {
      k2, c2 := SimArm(a, g1, n, n + 2, all, waiting + {n + 1, n + 2}, nulls, G, c1);
      KeepsTrans(c, c1, c2, g.next, g1.next);
    } else {
      k2, c2 := SimArm(b, g2, n + 1, n + 2, waiting + {n + 1, n + 2}, waiting + {n + 2}, nulls, G, c1);
      KeepsTrans(c, c1, c2, g.next, g2.next);
    }
    RunTwo(G, c, k1, k2);
    RunTwo(G, c, k1 + k2, 0);
    StartIsEnd(c2, g3, n + 2, G);
    var x := Eval(AsBuilt, e, c.w).0;
    SelectOfTwo(v2, b2, v3, b3);
    StepComputes(c2, g3.At(n + 2), phi, G, x);
    k, c' := k1 + k2 + 1, Step(G, c2);
    GrowsNext(g2, g3);
    KeepsTrans(c, c2, c', g.next, g3.next);
  }

  lemma {:induction false} SelectOfTwo(v1: Value, b1: BlockRef, v2: Value, b2: BlockRef)
    requires b1 != b2
    ensures Select([(v1, b1), (v2, b2)], b1) == Some(v1) && Select([(v1, b1), (v2, b2)], b2) == Some(v2)
  {
    assert [(v1, b1), (v2, b2)][1..] == [(v2, b2)];
  }

  lemma {:induction false} WithinAt(g: Gen, b: nat, G: Graph)
    requires b < |g.blocks| && Within(g.At(b), G)
    ensures Within(g, G)
  {
  }

  lemma {:induction false} WithinBuilds(g: Gen, g': Gen, G: Graph)
    requires Builds(g, g') && Within(g', G)
    ensures Within(g, G)
  {
    WithinTrans(g, g', G);
  }

  lemma {:induction false} GrowsNext(g: Gen, g': Gen)
    requires Builds(g, g')
    ensures g.next <= g'.next
  {
  }

  lemma {:induction false} RvalueOfTernaryKeeps(g: Gen, g0: Gen, g1: Gen, g2: Gen)
    requires Builds(g, g0) && Builds(g0, g1) && Builds(g1, g2)
    ensures g.next <= g0.next <= g1.next <= g2.next
  {
  }

  lemma {:induction false} BlocksAtEnd(c: Config, g: Gen, G: Graph)
    requires AtEnd(c, g, G)
    ensures |g.blocks| + 1 <= |G| ==> AtEnd(c, g.WithBlock(), G)
    ensures |g.blocks| + 2 <= |G| ==> AtEnd(c, g.WithBlock().WithBlock(), G)
    ensures |g.blocks| + 3 <= |G| ==> AtEnd(c, g.WithBlock().WithBlock().WithBlock(), G)
  {
  }

  // ----- conditions -----

  /** Running the code of a condition enters block t if the condition holds and
      block f if not. */
  lemma {:induction false} SimCondition(
    e: Expr, g: Gen, waiting: set<int>, nulls: bool, t: BlockRef, f: BlockRef, G: Graph, c: Config)
    returns (k: nat, c': Config)
    requires Shape(g, waiting, g.cur, nulls) && AtEnd(c, g, G)
    requires 0 <= t < |g.blocks| && 0 <= f < |g.blocks| && Within(Condition(e, g, t, f), G)
    ensures var (b, w) := Test(AsBuilt, e, c.w);
      && k > 0 && c' == Run(G, c, k) && AtStart(c', if b then t else f, G) && c'.w == w && Keeps(c, c', g.next)
    decreases e, 4
  {
    hide Shape, Builds, Keeps, Gen.Ok, Gen.WithBlock, Rvalue, Condition;
    if e.Binary? && (e.op.LAND? || e.op.LOR?) {
      k, c' := SimLogical(e, g, waiting, nulls, t, f, G, c);
    } else if e.Not? {
      ShapeOk(g, waiting, nulls);
      ConditionOfNot(e, g, t, f);
      k, c' := SimCondition(e.operand, g, waiting, nulls, f, t, G, c);
    } else if e.Ternary? {
      k, c' := SimTernaryCondition(e, g, waiting, nulls, t, f, G, c);
    } else {
      k, c' := SimLeaf(e, g, waiting, nulls, t, f, G, c);
    }
  }

  lemma {:induction false} ShapeOk(g: Gen, waiting: set<int>, nulls: bool)
    requires Shape(g, waiting, g.cur, nulls)
    ensures g.Ok() && g.cur < |g.blocks|
  {
  }

  lemma {:induction false} SimLeaf(
    e: Expr, g: Gen, waiting: set<int>, nulls: bool, t: BlockRef, f: BlockRef, G: Graph, c: Config)
    returns (k: nat, c': Config)
    requires c.Running? && Shape(g, waiting, g.cur, nulls) && AtEnd(c, g, G)
    requires 0 <= t < |g.blocks| && 0 <= f < |g.blocks| && Within(Condition(e, g, t, f), G)
    requires !(e.Binary? && (e.op.LAND? || e.op.LOR?)) && !e.Not? && !e.Ternary?
    ensures var (b, w) := Test(AsBuilt, e, c.w);
      && k > 0 && c' == Run(G, c, k) && AtStart(c', if b then t else f, G) && c'.w == w && Keeps(c, c', g.next)
    decreases e, 3
  {
    hide Shape, Builds, Rvalue, Condition, Eval, Run, Step, Gen.Append, Gen.Ok, Keeps, AtEnd, AtStart, Within;
    ShapeOk(g, waiting, nulls);
    ConditionOfLeaf(e, g, t, f);
    var (g1, v) := Rvalue(e, g);
    RvalueShape(e, g, waiting, nulls);
    ShapeOk(g1, waiting, nulls);
    var g2 := g1.Append(ICmp(NE, v, Const(0)));
    var jump := CondBr(Reg(g1.next), t, f);
    AppendWithin(g2, jump, G);
    AppendWithin(g1, ICmp(NE, v, Const(0)), G);
    WithinSize(g1, G);
    GrowsNext(g, g1);
    var k1, c1 := SimRvalue(e, g, waiting, nulls, G, c);
    var x := Eval(AsBuilt, e, c.w).0;
    StepComputes(c1, g1, ICmp(NE, v, Const(0)), G, Compare(NE, x, 0));
    var c2 := Step(G, c1);
    StepBranches(c2, g2, Reg(g1.next), Compare(NE, x, 0), t, f, G);
    RunTwo(G, c, k1, 0);
    RunTwo(G, c, k1 + 1, 0);
    k, c' := k1 + 2, Step(G, c2);
    KeepsTrans(c, c1, c2, g.next, g1.next);
    KeepsTrans(c, c2, c', g.next, g2.next);
  }

  /** `&&` and `||` evaluate the right operand only when C does. */
  lemma {:induction false} SimLogical(
    e: Expr, g: Gen, waiting: set<int>, nulls: bool, t: BlockRef, f: BlockRef, G: Graph, c: Config)
    returns (k: nat, c': Config)
    requires Shape(g, waiting, g.cur, nulls) && AtEnd(c, g, G)
    requires 0 <= t < |g.blocks| && 0 <= f < |g.blocks| && Within(Condition(e, g, t, f), G)
    requires e.Binary? && (e.op.LAND? || e.op.LOR?)
    ensures var (b, w) := Test(AsBuilt, e, c.w);
      && k > 0 && c' == Run(G, c, k) && AtStart(c', if b then t else f, G) && c'.w == w && Keeps(c, c', g.next)
    decreases e, 0
  {
    hide Shape, Builds, Within, Keeps, Gen.Ok, Gen.WithBlock, Gen.Add, Gen.Append, Rvalue, Condition, AtEnd, AtStart, Run, Step, Eval;
    var n := |g.blocks|;
    BlocksShape(g, waiting, nulls);
    OneBlockShape(g, waiting, nulls);
    var (t1, f1) := if e.op.LAND? then (n, f) else (t, n);
    var g0 := g.WithBlock();
    var g1 := Condition(e.lhs, g0, t1, f1);
    ConditionOfLogical(e, g, t, f);
    ConditionShape(e.lhs, g0, waiting + {n}, t1, f1, nulls);
    AtShape(g1, waiting + {n}, n, waiting, nulls);
    ConditionShape(e.rhs, g1.At(n), waiting, t, f, nulls);
    WithinBuilds(g1.At(n), Condition(e, g, t, f), G);
    WithinAt(g1, n, G);
    BlocksAtEnd(c, g, G);
    WithinSize(g1, G);
    RvalueOfTernaryKeeps(g, g0, g1, g1);
    var k1, c1 := SimCondition(e.lhs, g0, waiting + {n}, nulls, t1, f1, G, c);
    k, c' := k1, c1;
    if Test(AsBuilt, e.lhs, c.w).0 == e.op.LAND? {
      StartIsEnd(c1, g1, n, G);
      var k2, c2 := SimCondition(e.rhs, g1.At(n), waiting, nulls, t, f, G, c1);
      RunTwo(G, c, k1, k2);
      k, c' := k1 + k2, c2;
      KeepsTrans(c, c1, c2, g.next, g1.next);
    }
  }

  lemma {:induction false} OneBlockShape(g: Gen, waiting: set<int>, nulls: bool)
    requires Shape(g, waiting, g.cur, nulls)
    ensures Shape(g.WithBlock(), waiting + {|g.blocks|}, g.cur, nulls) && Builds(g, g.WithBlock()) && Builds(g, g)
  {
    BlockShape(g, waiting, g.cur, nulls);
  }

  lemma {:induction false} WithinSize(g: Gen, G: Graph)
    requires Within(g, G)
    ensures |g.blocks| <= |G|
  {
  }

  lemma {:induction false} SimTernaryCondition(
    e: Expr, g: Gen, waiting: set<int>, nulls: bool, t: BlockRef, f: BlockRef, G: Graph, c: Config)
    returns (k: nat, c': Config)
    requires Shape(g, waiting, g.cur, nulls) && AtEnd(c, g, G) && e.Ternary?
    requires 0 <= t < |g.blocks| && 0 <= f < |g.blocks| && Within(Condition(e, g, t, f), G)
    ensures var (b, w) := Test(AsBuilt, e, c.w);
      && k > 0 && c' == Run(G, c, k) && AtStart(c', if b then t else f, G) && c'.w == w && Keeps(c, c', g.next)
    decreases e, 0
  {
    hide Shape, Builds, Within, Keeps, Gen.Ok, Gen.WithBlock, Gen.Add, Gen.Append, Rvalue, Condition, AtEnd, AtStart;
    var n := |g.blocks|;
    BlocksShape(g, waiting, nulls);
    var g0 := g.WithBlock().WithBlock();
    var g1 := Condition(e.condition, g0, n, n + 1);
    var g2 := Condition(e.lhs, g1.At(n), t, f);
    ConditionOfTernary(e, g, t, f);
    ConditionShape(e.condition, g0, waiting + {n, n + 1}, n, n + 1, nulls);
    AtShape(g1, waiting + {n, n + 1}, n, waiting + {n + 1}, nulls);
    ConditionShape(e.lhs, g1.At(n), waiting + {n + 1}, t, f, nulls);
    AtShape(g2, waiting + {n + 1}, n + 1, waiting, nulls);
    ConditionShape(e.rhs, g2.At(n + 1), waiting, t, f, nulls);
    WithinBuilds(g2.At(n + 1), Condition(e, g, t, f), G);
    WithinAt(g2, n + 1, G);
    WithinBuilds(g1.At(n), g2, G);
    WithinAt(g1, n, G);
    BlocksAtEnd(c, g, G);
    WithinSize(g1, G);
    GrowsNext(g, g0);
    GrowsNext(g0, g1);
    GrowsNext(g1.At(n), g2);
    var k1, c1 := SimCondition(e.condition, g0, waiting + {n, n + 1}, nulls, n, n + 1, G, c);
    var k2, c2;
    if Test(AsBuilt, e.condition, c.w).0 {
      StartIsEnd(c1, g1, n, G);
      k2, c2 := SimCondition(e.lhs, g1.At(n), waiting + {n + 1}, nulls, t, f, G, c1);
      KeepsTrans(c, c1, c2, g.next, g1.next);
    } else {
      StartIsEnd(c1, g2, n + 1, G);
      k2, c2 := SimCondition(e.rhs, g2.At(n + 1), waiting, nulls, t, f, G, c1);
      KeepsTrans(c, c1, c2, g.next, g2.next);
    }
    RunTwo(G, c, k1, k2);
    k, c' := k1 + k2, c2;
  }
}
