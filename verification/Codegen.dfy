/** Code generation. Each `emit` method walks the tree and drives the creator;
    the function beside it says which state the creator ends in. */
module Codegen {
  import opened Ir
  import opened Options
  import opened Ast
  import opened Creator

  // ----- what the emit methods produce, as functions -----

  /** The instruction sequence that combines two operand values. */
  function Combine(op: BinaryOperator, g: Gen, a: Value, b: Value): (r: (Gen, Value))
    requires g.Ok()
    ensures r.0.Ok() && |r.0.blocks| == |g.blocks|
  {
    match op
    case PLUS => (g.Append(Op.Binary(Add, a, b)), Reg(g.next))
    case MINUS => (g.Append(Op.Binary(Sub, a, b)), Reg(g.next))
    case STAR => (g.Append(Op.Binary(Mul, a, b)), Reg(g.next))
    case LAND => (g.Append(Op.Binary(And, a, b)), Reg(g.next))
    case LOR => (g.Append(Op.Binary(Or, a, b)), Reg(g.next))
    case LESS => (g.Append(ICmp(SLT, a, b)).Append(ZExt(Reg(g.next))), Reg(g.next + 1))
    case EQUAL => (g.Append(ICmp(EQ, a, b)).Append(ZExt(Reg(g.next))), Reg(g.next + 1))
    case NEQUAL => (g.Append(ICmp(NE, a, b)).Append(ZExt(Reg(g.next))), Reg(g.next + 1))
  }

  function Rvalue(e: Expr, g: Gen): (r: (Gen, Value))
    requires g.Ok()
    ensures r.0.Ok() && |g.blocks| <= |r.0.blocks|
    decreases e, 0
  {
    match e
    case Constant(n) => (g, Const(n))
    case Variable(x) => (g.Append(Load(x)), Reg(g.next))
    case Assign(x, a) =>
      var (g1, v) := Rvalue(a, g);
      (g1.Append(Store(v, x)), v)
    case Negate(a) =>
      var (g1, v) := Rvalue(a, g);
      (g1.Append(Op.Binary(Sub, Const(0), v)), Reg(g1.next))
    case Not(a) =>
      var (g1, v) := Rvalue(a, g);
      (g1.Append(Op.Binary(Xor, v, Const(-1))), Reg(g1.next))
    case Binary(op, a, b) =>
      var (g1, v1) := Rvalue(a, g);
      var (g2, v2) := Rvalue(b, g1);
      Combine(op, g2, v1, v2)
    case Ternary(c, a, b) =>
      var n := |g.blocks|;
      var g1 := Condition(c, g.WithBlock().WithBlock().WithBlock(), n, n + 1);
      var (g2, v2, b2) := Arm(a, g1, n, n + 2);
      var (g3, v3, b3) := Arm(b, g2, n + 1, n + 2);
      (g3.At(n + 2).Append(Phi([(v2, b2), (v3, b3)])), Reg(g3.next))
  }

  /** One arm of a ternary: its value is computed from block b on, then control
      joins at `end`. The third result is the block it comes from. */
  function Arm(e: Expr, g: Gen, b: nat, end: nat): (r: (Gen, Value, nat))
    requires g.Ok() && b < |g.blocks|
    ensures r.0.Ok() && |g.blocks| <= |r.0.blocks|
    decreases e, 2
  {
    var (g1, v) := Rvalue(e, g.At(b));
    (g1.Append(Br(end)), v, g1.cur)
  }

  /** Code that jumps to t or to f. */
  function Condition(e: Expr, g: Gen, t: BlockRef, f: BlockRef): (g': Gen)
    requires g.Ok()
    ensures g'.Ok() && |g.blocks| <= |g'.blocks|
    decreases e, 1
  {
    var n := |g.blocks|;
    if e.Binary? && e.op.LAND? then
      Condition(e.rhs, Condition(e.lhs, g.WithBlock(), n, f).At(n), t, f)
    else if e.Binary? && e.op.LOR? then
      Condition(e.rhs, Condition(e.lhs, g.WithBlock(), t, n).At(n), t, f)
    else if e.Not? then
      Condition(e.operand, g, f, t)
    else if e.Ternary? then
      var g1 := Condition(e.condition, g.WithBlock().WithBlock(), n, n + 1);
      Condition(e.rhs, Condition(e.lhs, g1.At(n), t, f).At(n + 1), t, f)
    else
      var (g1, v) := Rvalue(e, g);
      g1.Append(ICmp(NE, v, Const(0))).Append(CondBr(Reg(g1.next), t, f))
  }

  /** The header of a while, current, its body's block and its exit. */
  function WhileEntry(g: Gen): (g': Gen)
    requires g.Ok()
    ensures g'.Ok() && |g'.blocks| == |g.blocks| + 3 && g'.cur == |g.blocks|
  {
    var h := |g.blocks|;
    g.WithConnectedBlock().WithBlock().WithBlock().WithLoopPoints(h + 2, h + 1)
  }

  /** A while loop up to its body: the header tests the condition, the body's
      block is current. Its exit is block |g.blocks| + 2. */
  function WhileHead(c: Expr, g: Gen): (g': Gen)
    requires g.Ok()
    ensures g'.Ok() && |g.blocks| + 3 <= |g'.blocks|
  {
    var h := |g.blocks|;
    Condition(c, WhileEntry(g), h + 1, h + 2).At(h + 1)
  }

  /** The test block of a do loop, current, and its exit. */
  function DoEntry(g: Gen, content: nat): (g': Gen)
    requires g.Ok()
    ensures g'.Ok() && |g'.blocks| == |g.blocks| + 2 && g'.cur == |g.blocks|
  {
    var t := |g.blocks|;
    g.WithConnectedBlock().WithBlock().WithLoopPoints(t + 1, content).At(t)
  }

  /** A do loop from its body's end, with the body's block `content`. */
  function DoTail(c: Expr, g: Gen, content: nat): (g': Gen)
    requires g.Ok()
    ensures g'.Ok() && |g.blocks| + 2 <= |g'.blocks|
  {
    var t := |g.blocks|;
    Condition(c, DoEntry(g, content), content, t + 1).At(t + 1)
  }

  /** The header of an if, current, its consequence, its alternative and its end. */
  function IfEntry(g: Gen): (g': Gen)
    requires g.Ok()
    ensures g'.Ok() && |g'.blocks| == |g.blocks| + 4 && g'.cur == |g.blocks|
  {
    g.WithConnectedBlock().WithBlock().WithBlock().WithBlock()
  }

  /** An if up to its consequence: blocks |g.blocks| + 1, + 2 and + 3 are the
      consequence, which is current, the alternative and the end. */
  function IfHead(c: Expr, g: Gen): (g': Gen)
    requires g.Ok()
    ensures g'.Ok() && |g.blocks| + 4 <= |g'.blocks|
  {
    var h := |g.blocks|;
    Condition(c, IfEntry(g), h + 1, h + 2).At(h + 1)
  }

  function Emit(s: Stmt, g: Gen): (g': Gen)
    requires g.Ok()
    ensures g'.Ok() && |g.blocks| <= |g'.blocks|
    decreases s
  {
    var n := |g.blocks|;
    match s
    case Expression(e) => if e.Some? then Rvalue(e.value, g).0 else g
    case Compound(items) => EmitAll(items, g)
    case Selection(c, a, b) =>
      EmitElse(b, Emit(a, IfHead(c, g)).Append(Br(n + 3)), n + 2)
    case While(c, b) =>
      Emit(b, WhileHead(c, g)).Append(Br(n)).At(n + 2)
    case DoWhile(c, b) =>
      DoTail(c, Emit(b, g.WithConnectedBlock()), n)
    case Return(e) =>
      var (g1, v) := if e.Some? then var r := Rvalue(e.value, g); (r.0, Some(r.1)) else (g, None);
      g1.Append(if v.Some? then Ret(v.value) else RetVoid).WithBlock().At(|g1.blocks|)
    case Break => g.WithBlock().Append(Br(g.breakPoint)).At(n)
    case Continue => g.WithBlock().Append(Br(g.continuePoint)).At(n)
    case Goto(l) =>
      g.WithBlock().Jump(l).At(n)
    case Labeled(l, t) =>
      Emit(t, g.Jump(l).AtLabel(l))
  }

  /** An if from the end of its consequence, with its alternative's block. */
  function EmitElse(b: Option<Stmt>, g: Gen, alternative: nat): (g': Gen)
    requires g.Ok() && alternative + 1 < |g.blocks|
    ensures g'.Ok() && |g.blocks| <= |g'.blocks|
    decreases b
  {
    var g1 :=
      if b.Some? then Emit(b.value, g.At(alternative)).Append(Br(alternative + 1))
      else g.Add(alternative, Br(alternative + 1));
    g1.At(alternative + 1)
  }

  function EmitAll(ss: seq<Stmt>, g: Gen): (g': Gen)
    requires g.Ok()
    ensures g'.Ok() && |g.blocks| <= |g'.blocks|
    decreases ss
  {
    if ss == [] then g else EmitAll(ss[1..], Emit(ss[0], g))
  }

  /** The arguments are stored to their slots before the body. */
  function Prologue(params: seq<string>, k: nat, g: Gen): (g': Gen)
    requires g.Ok() && k <= |params|
    ensures g'.Ok() && |g'.blocks| == |g.blocks|
    decreases |params| - k
  {
    if k == |params| then g else Prologue(params, k + 1, g.Append(Store(Arg(k), params[k])))
  }

  predicate EndsBlock(instrs: seq<Instr>) {
    instrs != [] && IsTerminator(instrs[|instrs| - 1])
  }

  function Finish(isVoid: bool, g: Gen): (g': Gen)
    requires g.Ok()
    ensures g'.Ok() && |g'.blocks| == |g.blocks|
  {
    if EndsBlock(g.blocks[g.cur]) then g else g.Append(if isVoid then RetVoid else Ret(Const(0)))
  }

  /** The creator's state when the body of f begins. */
  function BodyStart(f: Function): (g: Gen)
    ensures g.Ok()
  {
    assert STARTED.Ok();
    Prologue(f.params, 0, STARTED)
  }

  /** The creator's state after a whole function definition. */
  function EmitFunction(f: Function): (g: Gen)
    ensures g.Ok()
  {
    Finish(f.isVoid, Emit(f.body, BodyStart(f)))
  }

  // ----- the defining equations, one case at a time -----

  lemma {:induction false} RvalueOfTernary(e: Expr, g: Gen)
    requires g.Ok() && e.Ternary?
    ensures var n := |g.blocks|;
      var g1 := Condition(e.condition, g.WithBlock().WithBlock().WithBlock(), n, n + 1);
      var (g2, v2, b2) := Arm(e.lhs, g1, n, n + 2);
      var (g3, v3, b3) := Arm(e.rhs, g2, n + 1, n + 2);
      Rvalue(e, g) == (g3.At(n + 2).Append(Phi([(v2, b2), (v3, b3)])), Reg(g3.next))
  {
    hide Arm, Condition, Gen.Append, Gen.Add, Gen.At;
  }

  lemma {:induction false} RvalueOfBinary(e: Expr, g: Gen)
    requires g.Ok() && e.Binary?
    ensures var (g1, v1) := Rvalue(e.lhs, g);
      var (g2, v2) := Rvalue(e.rhs, g1);
      Rvalue(e, g) == Combine(e.op, g2, v1, v2)
  {
    hide Combine, Condition, Arm;
  }

  lemma {:induction false} ConditionOfLogical(e: Expr, g: Gen, t: BlockRef, f: BlockRef)
    requires g.Ok() && e.Binary? && (e.op.LAND? || e.op.LOR?)
    ensures var n := |g.blocks|;
      var g1 := if e.op.LAND? then Condition(e.lhs, g.WithBlock(), n, f) else Condition(e.lhs, g.WithBlock(), t, n);
      Condition(e, g, t, f) == Condition(e.rhs, g1.At(n), t, f)
  {
    hide Gen.WithBlock, Gen.At, Rvalue;
  }

  lemma {:induction false} ConditionOfLeaf(e: Expr, g: Gen, t: BlockRef, f: BlockRef)
    requires g.Ok() && !(e.Binary? && (e.op.LAND? || e.op.LOR?)) && !e.Not? && !e.Ternary?
    ensures var (g1, v) := Rvalue(e, g);
      Condition(e, g, t, f) == g1.Append(ICmp(NE, v, Const(0))).Append(CondBr(Reg(g1.next), t, f))
  {
    hide Gen.Append, Rvalue;
  }

  lemma {:induction false} ConditionOfNot(e: Expr, g: Gen, t: BlockRef, f: BlockRef)
    requires g.Ok() && e.Not?
    ensures Condition(e, g, t, f) == Condition(e.operand, g, f, t)
  {
    hide Rvalue;
  }

  lemma {:induction false} ConditionOfTernary(e: Expr, g: Gen, t: BlockRef, f: BlockRef)
    requires g.Ok() && e.Ternary?
    ensures var n := |g.blocks|;
      var g1 := Condition(e.condition, g.WithBlock().WithBlock(), n, n + 1);
      Condition(e, g, t, f) == Condition(e.rhs, Condition(e.lhs, g1.At(n), t, f).At(n + 1), t, f)
  {
    hide Gen.WithBlock, Gen.At, Rvalue;
  }

  lemma {:induction false} EmitSelectionIs(s: Stmt, g: Gen)
    requires g.Ok() && s.Selection?
    ensures var n := |g.blocks|;
      Emit(s, g) == EmitElse(s.elseStatement, Emit(s.ifStatement, IfHead(s.condition, g)).Append(Br(n + 3)), n + 2)
  {
    hide Rvalue, Condition, EmitAll, EmitElse, WhileHead, IfHead, DoTail, Gen.Append, Gen.Add, Gen.At,
      Gen.Jump, Gen.WithLabel, Gen.WithBlock, Gen.WithConnectedBlock;
  }

  lemma {:induction false} EmitElseIs(b: Option<Stmt>, g: Gen, alternative: nat)
    requires g.Ok() && alternative + 1 < |g.blocks|
    ensures var end := alternative + 1;
      EmitElse(b, g, alternative) ==
        if b.Some? then Emit(b.value, g.At(alternative)).Append(Br(end)).At(end)
        else g.At(alternative).Append(Br(end)).At(end)
  {
    hide Rvalue, Condition, EmitAll, WhileHead, IfHead, DoTail,
      Gen.Jump, Gen.WithLabel, Gen.WithBlock, Gen.WithConnectedBlock;
  }

  lemma {:induction false} EmitWhileIs(s: Stmt, g: Gen)
    requires g.Ok() && s.While?
    ensures var n := |g.blocks|;
      Emit(s, g) == Emit(s.body, WhileHead(s.condition, g)).Append(Br(n)).At(n + 2)
  {
    hide Rvalue, Condition, EmitAll, EmitElse, WhileHead, IfHead, DoTail, Gen.Append, Gen.Add, Gen.At,
      Gen.Jump, Gen.WithLabel, Gen.WithBlock, Gen.WithConnectedBlock;
  }

  lemma {:induction false} EmitDoIs(s: Stmt, g: Gen)
    requires g.Ok() && s.DoWhile?
    ensures Emit(s, g) == DoTail(s.condition, Emit(s.body, g.WithConnectedBlock()), |g.blocks|)
  {
    hide Rvalue, Condition, EmitAll, EmitElse, WhileHead, IfHead, DoTail, Gen.Append, Gen.Add, Gen.At,
      Gen.Jump, Gen.WithLabel, Gen.WithBlock, Gen.WithConnectedBlock;
  }

  lemma {:induction false} EmitLabeledIs(s: Stmt, g: Gen)
    requires g.Ok() && s.Labeled?
    ensures Emit(s, g) == Emit(s.statement, g.Jump(s.name).AtLabel(s.name))
  {
    hide Rvalue, Condition, EmitAll, EmitElse, WhileHead, IfHead, DoTail, Gen.Append, Gen.Add, Gen.At,
      Gen.Jump, Gen.AtLabel, Gen.WithLabel, Gen.WithBlock, Gen.WithConnectedBlock;
  }

  lemma {:induction false} EmitGotoIs(l: string, g: Gen)
    requires g.Ok()
    ensures Emit(Goto(l), g) == g.WithBlock().Jump(l).At(|g.blocks|)
  {
    hide Rvalue, Condition, EmitAll, EmitElse, WhileHead, IfHead, DoTail, Gen.Append, Gen.Add, Gen.At,
      Gen.Jump, Gen.WithLabel, Gen.WithBlock, Gen.WithConnectedBlock;
  }

  lemma {:induction false} EmitSimpleIs(s: Stmt, g: Gen)
    requires g.Ok()
    ensures s.Expression? ==> Emit(s, g) == if s.e.Some? then Rvalue(s.e.value, g).0 else g
    ensures s.Compound? ==> Emit(s, g) == EmitAll(s.items, g)
    ensures s.Break? ==> Emit(s, g) == g.WithBlock().Append(Br(g.breakPoint)).At(|g.blocks|)
    ensures s.Continue? ==> Emit(s, g) == g.WithBlock().Append(Br(g.continuePoint)).At(|g.blocks|)
    ensures s.Return? ==>
      var g1 := if s.e.Some? then Rvalue(s.e.value, g).0 else g;
      Emit(s, g) == g1.Append(if s.e.Some? then Ret(Rvalue(s.e.value, g).1) else RetVoid).WithBlock().At(|g1.blocks|)
  {
    hide Rvalue, Condition, EmitAll, EmitElse, WhileHead, IfHead, DoTail, Gen.Append, Gen.Add, Gen.At,
      Gen.Jump, Gen.WithLabel, Gen.WithBlock, Gen.WithConnectedBlock;
  }

  // ----- the emit methods -----

  method EmitRvalue(creator: IRCreator, e: Expr) returns (v: Value)
    requires creator.Valid()
    modifies creator
    ensures creator.Valid() && (creator.State(), v) == Rvalue(e, old(creator.State()))
    decreases e, 1
  {
    match e
    case Constant(n) => v := Const(n);
    case Variable(x) => v := creator.Insert(Load(x));
    case Assign(x, a) =>
      v := EmitRvalue(creator, a);
      var _ := creator.Insert(Store(v, x));
    case Negate(a) =>
      v := EmitRvalue(creator, a);
      v := creator.Insert(Op.Binary(Sub, Const(0), v));
    case Not(a) =>
      v := EmitRvalue(creator, a);
      v := creator.Insert(Op.Binary(Xor, v, Const(-1)));
    case Binary(op, a, b) =>
      var v1 := EmitRvalue(creator, a);
      var v2 := EmitRvalue(creator, b);
      v := CreateBinary(creator, op, v1, v2);
    case Ternary(_, _, _) => v := EmitTernary(creator, e);
  }

  method EmitTernary(creator: IRCreator, e: Expr) returns (v: Value)
    requires creator.Valid() && e.Ternary?
    modifies creator
    ensures creator.Valid() && (creator.State(), v) == Rvalue(e, old(creator.State()))
    decreases e, 0
  {
    hide Rvalue, Condition, Arm;
    RvalueOfTernary(e, creator.State());
    var consequence := creator.MakeBlock(false);
    var alternative := creator.MakeBlock(false);
    var end := creator.MakeBlock(false);
    EmitCondition(creator, e.condition, consequence, alternative);
    var v1, v2;
    v1, consequence := EmitArm(creator, e.lhs, consequence, end);
    v2, alternative := EmitArm(creator, e.rhs, alternative, end);
    creator.SetCurrentBasicBlock(end);
    v := creator.MakePhi(v1, consequence, v2, alternative);
  }

  method EmitArm(creator: IRCreator, e: Expr, b: nat, end: nat) returns (v: Value, from: nat)
    requires creator.Valid() && b < |creator.blocks|
    modifies creator
    ensures creator.Valid() && (creator.State(), v, from) == Arm(e, old(creator.State()), b, end)
    decreases e, 2
  {
    creator.SetCurrentBasicBlock(b);
    v := EmitRvalue(creator, e);
    from := creator.ConnectFrom(None, end);
  }

  method CreateBinary(creator: IRCreator, op: BinaryOperator, a: Value, b: Value) returns (v: Value)
    requires creator.Valid()
    modifies creator
    ensures creator.Valid() && (creator.State(), v) == Combine(op, old(creator.State()), a, b)
  {
    match op
    case PLUS => v := creator.Insert(Op.Binary(Add, a, b));
    case MINUS => v := creator.Insert(Op.Binary(Sub, a, b));
    case STAR => v := creator.Insert(Op.Binary(Mul, a, b));
    case LAND => v := creator.Insert(Op.Binary(And, a, b));
    case LOR => v := creator.Insert(Op.Binary(Or, a, b));
    case LESS => v := creator.Insert(ICmp(SLT, a, b)); v := creator.Insert(ZExt(v));
    case EQUAL => v := creator.Insert(ICmp(EQ, a, b)); v := creator.Insert(ZExt(v));
    case NEQUAL => v := creator.Insert(ICmp(NE, a, b)); v := creator.Insert(ZExt(v));
  }

  method EmitCondition(creator: IRCreator, e: Expr, t: BlockRef, f: BlockRef)
    requires creator.Valid()
    modifies creator
    ensures creator.Valid() && creator.State() == Condition(e, old(creator.State()), t, f)
    decreases e, 3
  {
    ghost var g := creator.State();
    if e.Binary? && (e.op.LAND? || e.op.LOR?) {
      EmitLogicalCondition(creator, e, t, f);
    } else if e.Not? {
      ConditionOfNot(e, g, t, f);
      EmitCondition(creator, e.operand, f, t);
    } else if e.Ternary? {
      EmitTernaryCondition(creator, e, t, f);
    } else {
      hide Rvalue, Condition;
      ConditionOfLeaf(e, g, t, f);
      var v := EmitRvalue(creator, e);
      creator.MakeConditionalBranch(v, t, f);
    }
  }

  method EmitLogicalCondition(creator: IRCreator, e: Expr, t: BlockRef, f: BlockRef)
    requires creator.Valid() && e.Binary? && (e.op.LAND? || e.op.LOR?)
    modifies creator
    ensures creator.Valid() && creator.State() == Condition(e, old(creator.State()), t, f)
    decreases e, 0
  {
    hide Rvalue, Condition;
    ConditionOfLogical(e, creator.State(), t, f);
    var next := creator.GetControlFlowBlock();
    if e.op.LAND? {
      EmitCondition(creator, e.lhs, next, f);
    } else {
      EmitCondition(creator, e.lhs, t, next);
    }
    creator.SetCurrentBasicBlock(next);
    EmitCondition(creator, e.rhs, t, f);
  }

  method EmitTernaryCondition(creator: IRCreator, e: Expr, t: BlockRef, f: BlockRef)
    requires creator.Valid() && e.Ternary?
    modifies creator
    ensures creator.Valid() && creator.State() == Condition(e, old(creator.State()), t, f)
    decreases e, 0
  {
    hide Rvalue, Condition;
    ConditionOfTernary(e, creator.State(), t, f);
    var trueBlock := creator.GetControlFlowBlock();
    var falseBlock := creator.GetControlFlowBlock();
    EmitCondition(creator, e.condition, trueBlock, falseBlock);
    creator.SetCurrentBasicBlock(trueBlock);
    EmitCondition(creator, e.lhs, t, f);
    creator.SetCurrentBasicBlock(falseBlock);
    EmitCondition(creator, e.rhs, t, f);
  }

  method EmitWhileHead(creator: IRCreator, c: Expr) returns (header: nat, end: nat)
    requires creator.Valid()
    modifies creator
    ensures creator.Valid() && creator.State() == WhileHead(c, old(creator.State()))
    ensures header == |old(creator.blocks)| && end == header + 2
  {
    header := creator.MakeBlock();
    var content := creator.MakeBlock(false);
    end := creator.MakeBlock(false);
    creator.SetLoopPoints(end, content);
    EmitCondition(creator, c, content, end);
    creator.SetCurrentBasicBlock(content);
  }

  method EmitWhile(creator: IRCreator, c: Expr, body: Stmt)
    requires creator.Valid()
    modifies creator
    ensures creator.Valid() && creator.State() == Emit(While(c, body), old(creator.State()))
    decreases While(c, body), 0
  {
    ghost var g := creator.State();
    var header, end := EmitWhileHead(creator, c);
    EmitIR(creator, body);
    assert creator.State() == Emit(body, WhileHead(c, g));
    creator.Connect(header);
    creator.SetCurrentBasicBlock(end);
  }

  method EmitDoTail(creator: IRCreator, c: Expr, content: nat)
    requires creator.Valid()
    modifies creator
    ensures creator.Valid() && creator.State() == DoTail(c, old(creator.State()), content)
  {
    var test := creator.MakeBlock();
    var end := creator.MakeBlock(false);
    creator.SetLoopPoints(end, content);
    creator.SetCurrentBasicBlock(test);
    EmitCondition(creator, c, content, end);
    creator.SetCurrentBasicBlock(end);
  }

  method EmitDo(creator: IRCreator, c: Expr, body: Stmt)
    requires creator.Valid()
    modifies creator
    ensures creator.Valid() && creator.State() == Emit(DoWhile(c, body), old(creator.State()))
    decreases DoWhile(c, body), 0
  {
    ghost var g := creator.State();
    var content := creator.MakeBlock();
    EmitIR(creator, body);
    assert creator.State() == Emit(body, g.WithConnectedBlock());
    EmitDoTail(creator, c, content);
  }

  method EmitIfHead(creator: IRCreator, c: Expr) returns (consequence: nat, alternative: nat, end: nat)
    requires creator.Valid()
    modifies creator
    ensures creator.Valid() && creator.State() == IfHead(c, old(creator.State()))
    ensures consequence == |old(creator.blocks)| + 1 && alternative == consequence + 1 && end == consequence + 2
  {
    var _ := creator.MakeBlock();
    consequence := creator.MakeBlock(false);
    alternative := creator.MakeBlock(false);
    end := creator.MakeBlock(false);
    EmitCondition(creator, c, consequence, alternative);
    creator.SetCurrentBasicBlock(consequence);
  }

  method EmitSelection(creator: IRCreator, c: Expr, a: Stmt, b: Option<Stmt>)
    requires creator.Valid()
    modifies creator
    ensures creator.Valid() && creator.State() == Emit(Selection(c, a, b), old(creator.State()))
    decreases Selection(c, a, b), 0
  {
    hide IfHead, EmitElse, Emit, EmitAll, Gen.Add, Gen.Append, Rvalue, Condition;
    ghost var g := creator.State();
    EmitSelectionIs(Selection(c, a, b), g);
    var consequence, alternative, end := EmitIfHead(creator, c);
    EmitIR(creator, a);
    ghost var g1 := Emit(a, IfHead(c, g));
    assert creator.State() == g1;
    AddAtCurrent(g1, Br(end));
    var _ := creator.ConnectFrom(None, end);
    EmitElseBranch(creator, b, alternative, end);
  }

  lemma AddAtCurrent(g: Gen, op: Op)
    requires g.Ok()
    ensures g.cur < |g.blocks| && g.Add(g.cur, op) == g.Append(op)
  {
  }

  method EmitElseBranch(creator: IRCreator, b: Option<Stmt>, alternative: nat, end: nat)
    requires creator.Valid() && end < |creator.blocks| && end == alternative + 1
    modifies creator
    ensures creator.Valid() && creator.State() == EmitElse(b, old(creator.State()), alternative)
    decreases b
  {
    if b.Some? {
      creator.SetCurrentBasicBlock(alternative);
      EmitIR(creator, b.value);
      var _ := creator.ConnectFrom(None, end);
    } else {
      var _ := creator.ConnectFrom(Some(alternative), end);
    }
    creator.SetCurrentBasicBlock(end);
  }

  method EmitIR(creator: IRCreator, s: Stmt)
    requires creator.Valid()
    modifies creator
    ensures creator.Valid() && creator.State() == Emit(s, old(creator.State()))
    decreases s, 1
  {
    match s
    case Expression(e) =>
      if e.Some? {
        var _ := EmitRvalue(creator, e.value);
      }
    case Compound(items) =>
      ghost var start := creator.State();
      for i := 0 to |items|
        invariant creator.Valid() && EmitAll(items[i..], creator.State()) == EmitAll(items, start)
      {
        assert items[i..][1..] == items[i + 1..];
        EmitIR(creator, items[i]);
      }
    case Selection(c, a, b) => EmitSelection(creator, c, a, b);
    case While(c, b) => EmitWhile(creator, c, b);
    case DoWhile(c, b) => EmitDo(creator, c, b);
    case Return(e) =>
      if e.Some? {
        var v := EmitRvalue(creator, e.value);
        creator.MakeReturn(Some(v));
      } else {
        creator.MakeReturn(None);
      }
    case Break =>
      var dead := creator.MakeBlock(false);
      creator.Connect(creator.currentBreakPoint);
      creator.SetCurrentBasicBlock(dead);
    case Continue =>
      var dead := creator.MakeBlock(false);
      creator.Connect(creator.currentContinuePoint);
      creator.SetCurrentBasicBlock(dead);
    case Goto(l) =>
      var dead := creator.MakeBlock(false);
      var _ := creator.JumpToLabel(l);
      creator.SetCurrentBasicBlock(dead);
    case Labeled(l, t) =>
      var target := creator.JumpToLabel(l);
      creator.SetCurrentBasicBlock(target);
      EmitIR(creator, t);
  }

  method EmitFunctionDefinition(f: Function) returns (creator: IRCreator)
    ensures fresh(creator) && creator.State() == EmitFunction(f)
  {
    creator := new IRCreator();
    for k := 0 to |f.params|
      invariant creator.Valid() && fresh(creator)
      invariant Prologue(f.params, k, creator.State()) == Prologue(f.params, 0, STARTED)
    {
      var _ := creator.Insert(Store(Arg(k), f.params[k]));
    }
    EmitIR(creator, f.body);
    creator.FinishFunction(f.isVoid);
  }
}
