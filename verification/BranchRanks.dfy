module BranchRanks {
  /** The conditional branches of a generated function can be ranked upwards: every
      cycle of its graph has an unconditional branch. Together with the identities of
      its instructions this makes the constant propagation end on it. */

  import opened Ir
  import opened Options
  import opened Ast
  import opened Creator
  import opened Codegen
  import opened GraphShape
  import opened BodyShape
  import opened WellFormed
  import opened Faithful
  import opened SccpRun
  import opened SccpPass
  import opened Ssa
  import opened SccpEnds

  // ----- the invariant -----

  /** An instruction at one place in the graph under construction. With `arith` set,
      and, or and xor do not occur. */
  ghost predicate NeatAt(g: Gen, rank: seq<int>, arith: bool, b: nat, i: Instr) {
    && i.id < g.next
    && (i.op.CondBr? ==> LeadsUp(b, i.op, rank))
    && (arith ==> Readable(i.op))
    && (forall v <- Operands(i.op) :: v.Reg? ==> v.id < g.next)
  }

  ghost predicate Neat(g: Gen, rank: seq<int>, arith: bool) {
    && g.Ok() && |rank| == |g.blocks|
    && (forall b, k | Has(g.blocks, b, k) :: NeatAt(g, rank, arith, b, g.blocks[b][k]))
    && Unshared(g.blocks) && UsesFit(g.blocks)
  }

  /** The value of an expression: a constant, a parameter, or that of an instruction
      which is no branch and no comparison. */
  ghost predicate Valued(g: Gen, v: Value) {
    v.Reg? ==> v.id < g.next && forall c, l | Has(g.blocks, c, l) && g.blocks[c][l].id == v.id ::
      !Terminates(g.blocks[c][l].op) && !g.blocks[c][l].op.ICmp?
  }

  /** An operand for the next instruction of block b. */
  ghost predicate Usable(g: Gen, v: Value, b: nat) {
    v.Reg? ==> v.id < g.next && forall c, l | Has(g.blocks, c, l) && g.blocks[c][l].id == v.id ::
      !Terminates(g.blocks[c][l].op) && (g.blocks[c][l].op.ICmp? ==> c == b)
  }

  ghost predicate KeepsValues(g: Gen, g': Gen) {
    forall v | Valued(g, v) :: Valued(g', v)
  }

  // ----- the creator's steps -----

  lemma {:induction false} AppendAt(g: Gen, op: Op, b: int, k: int)
    requires g.cur < |g.blocks| && Has(g.Append(op).blocks, b, k)
    ensures var i := g.Append(op).blocks[b][k];
      if b == g.cur && k == |g.blocks[b]| then i == Instr(g.next, op)
      else Has(g.blocks, b, k) && i == g.blocks[b][k]
  {
  }

  lemma {:induction false} NeatAppend(g: Gen, rank: seq<int>, arith: bool, op: Op)
    requires Neat(g, rank, arith) && (forall v <- Operands(op) :: Usable(g, v, g.cur))
    requires (op.CondBr? ==> LeadsUp(g.cur, op, rank)) && (arith ==> Readable(op))
    ensures g.cur < |g.blocks| && Neat(g.Append(op), rank, arith)
  {
    hide Operands, LeadsUp, Readable, Terminates, Gen.Append;
    var g' := g.Append(op);
    assert g'.next == g.next + 1;
    forall b, k | Has(g'.blocks, b, k)
      ensures NeatAt(g', rank, arith, b, g'.blocks[b][k])
    {
      AppendAt(g, op, b, k);
    }
    forall b, k, c, l | Has(g'.blocks, b, k) && Has(g'.blocks, c, l)
      ensures g'.blocks[b][k].id == g'.blocks[c][l].id ==> b == c && k == l
      ensures MayUse(g'.blocks[b][k], b, k, g'.blocks[c][l], c, l)
    {
      AppendAt(g, op, b, k);
      AppendAt(g, op, c, l);
    }
  }

  lemma {:induction false} AppendKeepsValues(g: Gen, op: Op)
    requires g.cur < |g.blocks|
    ensures KeepsValues(g, g.Append(op))
    ensures !Terminates(op) && !op.ICmp? && (forall b, k | Has(g.blocks, b, k) :: g.blocks[b][k].id < g.next) ==>
      Valued(g.Append(op), Reg(g.next))
  {
    hide Gen.Append, Terminates;
    var g' := g.Append(op);
    assert g'.next == g.next + 1;
    forall c, l | Has(g'.blocks, c, l)
      ensures g'.blocks[c][l] == Instr(g.next, op) || (Has(g.blocks, c, l) && g'.blocks[c][l] == g.blocks[c][l])
    {
      AppendAt(g, op, c, l);
    }
  }

  lemma {:induction false} NeatBlock(g: Gen, rank: seq<int>, arith: bool, r: int)
    requires Neat(g, rank, arith)
    ensures Neat(g.WithBlock(), rank + [r], arith) && KeepsValues(g, g.WithBlock())
  {
    hide Operands, Readable, MayUse;
    var g' := g.WithBlock();
    assert g'.next == g.next;
    forall b, k | Has(g'.blocks, b, k)
      ensures Has(g.blocks, b, k) && g'.blocks[b][k] == g.blocks[b][k]
      ensures NeatAt(g', rank + [r], arith, b, g'.blocks[b][k])
    {
    }
    forall b, k, c, l | Has(g'.blocks, b, k) && Has(g'.blocks, c, l)
      ensures g'.blocks[b][k].id == g'.blocks[c][l].id ==> b == c && k == l
      ensures MayUse(g'.blocks[b][k], b, k, g'.blocks[c][l], c, l)
    {
    }
  }

  lemma {:induction false} NeatMove(g: Gen, rank: seq<int>, arith: bool, b: nat)
    requires Neat(g, rank, arith) && b < |g.blocks|
    ensures Neat(g.At(b), rank, arith) && KeepsValues(g, g.At(b))
  {
    hide Operands, Readable, MayUse, Terminates;
  }

  lemma ValuedIsUsable(g: Gen, v: Value, b: nat)
    requires Valued(g, v)
    ensures Usable(g, v, b)
  {
    hide Terminates;
  }

  /** Appending an instruction whose operands are values. */
  lemma {:induction false} NeatAdd(g: Gen, rank: seq<int>, arith: bool, op: Op)
    requires Neat(g, rank, arith) && (forall v <- Operands(op) :: Valued(g, v))
    requires !op.CondBr? && (arith ==> Readable(op))
    ensures g.cur < |g.blocks| && Neat(g.Append(op), rank, arith) && KeepsValues(g, g.Append(op))
    ensures !Terminates(op) && !op.ICmp? ==> Valued(g.Append(op), Reg(g.next))
  {
    hide Operands, Readable, Terminates, Valued, Usable, Gen.Append, KeepsValues, MayUse;
    forall v | v in Operands(op)
      ensures Usable(g, v, g.cur)
    {
      ValuedIsUsable(g, v, g.cur);
    }
    NeatAppend(g, rank, arith, op);
    AppendKeepsValues(g, op);
  }

  /** A comparison, of which the next instruction may use the value. */
  lemma {:induction false} NeatCompare(g: Gen, rank: seq<int>, arith: bool, p: Predicate, a: Value, b: Value)
    requires Neat(g, rank, arith) && Valued(g, a) && Valued(g, b)
    ensures g.cur < |g.blocks|
    ensures var g' := g.Append(ICmp(p, a, b));
      Neat(g', rank, arith) && KeepsValues(g, g') && g'.cur == g.cur && Usable(g', Reg(g.next), g.cur)
  {
    hide Valued, KeepsValues, MayUse, NeatAt, Gen.Append;
    var op := ICmp(p, a, b);
    NeatAdd(g, rank, arith, op);
    IdsBelow(g, rank, arith);
    var g' := g.Append(op);
    assert g'.next == g.next + 1 && g'.cur == g.cur;
    forall c, l | Has(g'.blocks, c, l) && g'.blocks[c][l].id == g.next
      ensures !Terminates(g'.blocks[c][l].op) && c == g.cur
    {
      AppendAt(g, op, c, l);
    }
  }

  lemma {:induction false} NeatFlag(g: Gen, rank: seq<int>, arith: bool, p: Predicate, a: Value, b: Value)
    requires Neat(g, rank, arith) && Valued(g, a) && Valued(g, b)
    ensures g.cur < |g.blocks|
    ensures var g' := g.Append(ICmp(p, a, b)).Append(ZExt(Reg(g.next)));
      Neat(g', rank, arith) && KeepsValues(g, g') && Valued(g', Reg(g.next + 1)) && g'.cur == g.cur
  {
    hide Valued, Usable, MayUse, NeatAt, Gen.Append;
    NeatCompare(g, rank, arith, p, a, b);
    var g1 := g.Append(ICmp(p, a, b));
    assert g1.next == g.next + 1;
    NeatAppend(g1, rank, arith, ZExt(Reg(g.next)));
    IdsBelow(g1, rank, arith);
    AppendKeepsValues(g1, ZExt(Reg(g.next)));
  }

  lemma IdsBelow(g: Gen, rank: seq<int>, arith: bool)
    requires Neat(g, rank, arith)
    ensures forall b, k | Has(g.blocks, b, k) :: g.blocks[b][k].id < g.next
  {
    hide MayUse, Operands, Readable, LeadsUp;
    forall b, k | Has(g.blocks, b, k)
      ensures g.blocks[b][k].id < g.next
    {
      assert NeatAt(g, rank, arith, b, g.blocks[b][k]);
    }
  }

  lemma {:induction false} NeatTest(g: Gen, rank: seq<int>, arith: bool, v: Value, t: BlockRef, f: BlockRef)
    requires Neat(g, rank, arith) && Valued(g, v)
    requires g.cur < |rank| && 0 <= t < |rank| && 0 <= f < |rank| && rank[g.cur] < rank[t] && rank[g.cur] < rank[f]
    ensures g.cur < |g.blocks|
    ensures var g' := g.Append(ICmp(NE, v, Const(0))).Append(CondBr(Reg(g.next), t, f));
      Neat(g', rank, arith) && KeepsValues(g, g')
  {
    hide Valued, Usable, MayUse, NeatAt, Gen.Append;
    assert Valued(g, Const(0)) by { ConstIsValue(g, 0); }
    NeatCompare(g, rank, arith, NE, v, Const(0));
    var g1 := g.Append(ICmp(NE, v, Const(0)));
    NeatAppend(g1, rank, arith, CondBr(Reg(g.next), t, f));
    AppendKeepsValues(g1, CondBr(Reg(g.next), t, f));
  }

  lemma ConstIsValue(g: Gen, n: i32)
    ensures Valued(g, Const(n))
  {
  }

  // ----- expressions and conditions -----

  /** How many ranks the code of a condition takes up. */
  function Tests(e: Expr): nat {
    match e
    case Binary(op, a, b) => if op.LAND? || op.LOR? then Tests(a) + Tests(b) + 1 else 0
    case Not(a) => Tests(a)
    case Ternary(c, a, b) => Tests(c) + Tests(a) + Tests(b) + 1
    case _ => 0
  }

  lemma {:induction false} NeatRvalue(e: Expr, g: Gen, rank: seq<int>, arith: bool) returns (rank': seq<int>)
    requires Neat(g, rank, arith) && (arith ==> PlainValue(e))
    ensures g.Ok() && rank <= rank'
    ensures var (g', v) := Rvalue(e, g);
      Neat(g', rank', arith) && Valued(g', v) && KeepsValues(g, g') && rank'[g'.cur] == rank[g.cur]
    decreases e, 1
  {
    hide Neat, Valued, Condition, Arm, Combine, Gen.Append, PlainTest;
    NeatOk(g, rank, arith);
    rank' := rank;
    match e
    case Constant(n) =>
      ConstIsValue(g, n);
    case Variable(x) => NeatAdd(g, rank, arith, Load(x));
    case Assign(x, a) =>
      rank' := NeatRvalue(a, g, rank, arith);
      NeatAdd(Rvalue(a, g).0, rank', arith, Store(Rvalue(a, g).1, x));
    case Negate(a) =>
      rank' := NeatRvalue(a, g, rank, arith);
      ConstIsValue(Rvalue(a, g).0, 0);
      NeatAdd(Rvalue(a, g).0, rank', arith, Op.Binary(Sub, Const(0), Rvalue(a, g).1));
    case Not(a) =>
      rank' := NeatRvalue(a, g, rank, arith);
      ConstIsValue(Rvalue(a, g).0, -1);
      NeatAdd(Rvalue(a, g).0, rank', arith, Op.Binary(Xor, Rvalue(a, g).1, Const(-1)));
    case Binary(op, a, b) =>
      var (g1, v1) := Rvalue(a, g);
      var (g2, v2) := Rvalue(b, g1);
      rank' := NeatRvalue(a, g, rank, arith);
      rank' := NeatRvalue(b, g1, rank', arith);
      NeatCombine(op, g2, rank', arith, v1, v2);
    case Ternary(_, _, _) => rank' := NeatTernary(e, g, rank, arith);
  }

  lemma NeatOk(g: Gen, rank: seq<int>, arith: bool)
    requires Neat(g, rank, arith)
    ensures g.Ok() && |rank| == |g.blocks|
  {
    hide NeatAt, MayUse;
  }

  lemma {:induction false} NeatCombine(op: BinaryOperator, g: Gen, rank: seq<int>, arith: bool, a: Value, b: Value)
    requires Neat(g, rank, arith) && Valued(g, a) && Valued(g, b) && (arith ==> !op.LAND? && !op.LOR?)
    ensures g.Ok()
    ensures var (g', v) := Combine(op, g, a, b);
      Neat(g', rank, arith) && Valued(g', v) && KeepsValues(g, g') && g'.cur == g.cur
  {
    hide Neat, Valued, KeepsValues, Gen.Append;
    NeatOk(g, rank, arith);
    match op
    case PLUS => NeatAdd(g, rank, arith, Op.Binary(Add, a, b));
    case MINUS => NeatAdd(g, rank, arith, Op.Binary(Sub, a, b));
    case STAR => NeatAdd(g, rank, arith, Op.Binary(Mul, a, b));
    case LAND => NeatAdd(g, rank, arith, Op.Binary(And, a, b));
    case LOR => NeatAdd(g, rank, arith, Op.Binary(Or, a, b));
    case LESS => NeatFlag(g, rank, arith, SLT, a, b);
    case EQUAL => NeatFlag(g, rank, arith, EQ, a, b);
    case NEQUAL => NeatFlag(g, rank, arith, NE, a, b);
  }

  lemma KeepsTrans(g: Gen, g1: Gen, g2: Gen)
    requires KeepsValues(g, g1) && KeepsValues(g1, g2)
    ensures KeepsValues(g, g2)
  {
    hide Valued;
  }

  lemma {:induction false} NeatTernary(e: Expr, g: Gen, rank: seq<int>, arith: bool) returns (rank': seq<int>)
    requires Neat(g, rank, arith) && (arith ==> PlainValue(e)) && e.Ternary?
    ensures g.Ok() && rank <= rank'
    ensures var (g', v) := Rvalue(e, g);
      Neat(g', rank', arith) && Valued(g', v) && KeepsValues(g, g') && rank'[g'.cur] == rank[g.cur]
    decreases e, 0
  {
    hide Neat, Valued, KeepsValues, Rvalue, Condition, Arm, Gen.Append, Gen.WithBlock, PlainTest;
    NeatOk(g, rank, arith);
    RvalueOfTernary(e, g);
    var n := |g.blocks|;
    var (low, high) := (rank[g.cur], rank[g.cur] + Tests(e.condition) + 1);
    NeatBlock(g, rank, arith, high);
    NeatBlock(g.WithBlock(), rank + [high], arith, high);
    NeatBlock(g.WithBlock().WithBlock(), rank + [high] + [high], arith, low);
    var g0 := g.WithBlock().WithBlock().WithBlock();
    KeepsTrans(g, g.WithBlock(), g.WithBlock().WithBlock());
    KeepsTrans(g, g.WithBlock().WithBlock(), g0);
    rank' := NeatCondition(e.condition, g0, n, n + 1, rank + [high] + [high] + [low], arith);
    var g1 := Condition(e.condition, g0, n, n + 1);
    KeepsTrans(g, g0, g1);
    assert rank'[n] == high && rank'[n + 2] == low;
    rank' := NeatArm(e.lhs, g1, n, n + 2, rank', arith);
    var (g2, v2, b2) := Arm(e.lhs, g1, n, n + 2);
    KeepsTrans(g, g1, g2);
    rank' := NeatArm(e.rhs, g2, n + 1, n + 2, rank', arith);
    var (g3, v3, b3) := Arm(e.rhs, g2, n + 1, n + 2);
    KeepsTrans(g, g2, g3);
    KeptValue(g2, g3, v2);
    NeatJoin(g3, rank', arith, n + 2, v2, b2, v3, b3);
    KeepsTrans(g, g3, Rvalue(e, g).0);
  }

  lemma KeptValue(g: Gen, g': Gen, v: Value)
    requires KeepsValues(g, g') && Valued(g, v)
    ensures Valued(g', v)
  {
    hide Valued;
  }

  /** The insert point moves to the join, which starts with the phi. */
  lemma {:induction false} NeatJoin(g: Gen, rank: seq<int>, arith: bool, b: nat, v: Value, from: BlockRef, v': Value, from': BlockRef)
    requires Neat(g, rank, arith) && b < |g.blocks| && Valued(g, v) && Valued(g, v')
    ensures var g' := g.At(b).Append(Phi([(v, from), (v', from')]));
      Neat(g', rank, arith) && Valued(g', Reg(g.next)) && KeepsValues(g, g') && g'.cur == b
  {
    hide Neat, Valued, KeepsValues, Gen.Append;
    NeatMove(g, rank, arith, b);
    KeptValue(g, g.At(b), v);
    KeptValue(g, g.At(b), v');
    NeatAdd(g.At(b), rank, arith, Phi([(v, from), (v', from')]));
    KeepsTrans(g, g.At(b), g.At(b).Append(Phi([(v, from), (v', from')])));
  }

  lemma {:induction false} NeatArm(e: Expr, g: Gen, b: nat, end: nat, rank: seq<int>, arith: bool) returns (rank': seq<int>)
    requires Neat(g, rank, arith) && (arith ==> PlainValue(e)) && b < |g.blocks|
    ensures g.Ok() && rank <= rank'
    ensures var (g', v, _) := Arm(e, g, b, end);
      Neat(g', rank', arith) && Valued(g', v) && KeepsValues(g, g')
    decreases e, 2
  {
    hide Neat, Valued, KeepsValues, Rvalue, Gen.Append;
    NeatOk(g, rank, arith);
    NeatMove(g, rank, arith, b);
    rank' := NeatRvalue(e, g.At(b), rank, arith);
    var (g1, v) := Rvalue(e, g.At(b));
    NeatAdd(g1, rank', arith, Br(end));
    KeptValue(g1, g1.Append(Br(end)), v);
    KeepsTrans(g, g.At(b), g1);
    KeepsTrans(g, g1, g1.Append(Br(end)));
  }

  /** A condition whose two targets rank high enough above the current block. */
  lemma {:induction false} NeatCondition(e: Expr, g: Gen, t: BlockRef, f: BlockRef, rank: seq<int>, arith: bool)
    returns (rank': seq<int>)
    requires Neat(g, rank, arith) && (arith ==> PlainTest(e)) && g.cur < |rank|
    requires 0 <= t < |rank| && 0 <= f < |rank|
    requires rank[g.cur] + Tests(e) < rank[t] && rank[g.cur] + Tests(e) < rank[f]
    ensures g.Ok() && rank <= rank'
    ensures var g' := Condition(e, g, t, f); Neat(g', rank', arith) && KeepsValues(g, g')
    decreases e, 3
  {
    hide Neat, Valued, KeepsValues, Rvalue, Condition, Gen.Append, Gen.WithBlock;
    NeatOk(g, rank, arith);
    if e.Binary? && (e.op.LAND? || e.op.LOR?) {
      rank' := NeatLogical(e, g, t, f, rank, arith);
    } else if e.Not? {
      ConditionOfNot(e, g, t, f);
      rank' := NeatCondition(e.operand, g, f, t, rank, arith);
    } else if e.Ternary? {
      rank' := NeatChoice(e, g, t, f, rank, arith);
    } else {
      ConditionOfLeaf(e, g, t, f);
      rank' := NeatRvalue(e, g, rank, arith);
      var (g1, v) := Rvalue(e, g);
      NeatOk(g1, rank', arith);
      NeatTest(g1, rank', arith, v, t, f);
      KeepsTrans(g, g1, Condition(e, g, t, f));
    }
  }

  lemma {:induction false} NeatLogical(e: Expr, g: Gen, t: BlockRef, f: BlockRef, rank: seq<int>, arith: bool)
    returns (rank': seq<int>)
    requires Neat(g, rank, arith) && (arith ==> PlainTest(e)) && g.cur < |rank|
    requires 0 <= t < |rank| && 0 <= f < |rank| && e.Binary? && (e.op.LAND? || e.op.LOR?)
    requires rank[g.cur] + Tests(e) < rank[t] && rank[g.cur] + Tests(e) < rank[f]
    ensures g.Ok() && rank <= rank'
    ensures var g' := Condition(e, g, t, f); Neat(g', rank', arith) && KeepsValues(g, g')
    decreases e, 0
  {
    hide Neat, Valued, KeepsValues, Rvalue, Condition, Gen.Append, Gen.WithBlock;
    NeatOk(g, rank, arith);
    ConditionOfLogical(e, g, t, f);
    var n := |g.blocks|;
    var r := rank[g.cur] + Tests(e.lhs) + 1;
    NeatBlock(g, rank, arith, r);
    var g0 := g.WithBlock();
    var (t1, f1) := if e.op.LAND? then (n, f) else (t, n);
    rank' := NeatCondition(e.lhs, g0, t1, f1, rank + [r], arith);
    var g1 := Condition(e.lhs, g0, t1, f1);
    NeatMove(g1, rank', arith, n);
    assert rank'[n] == r;
    rank' := NeatCondition(e.rhs, g1.At(n), t, f, rank', arith);
    KeepsTrans(g, g0, g1);
    KeepsTrans(g, g1, g1.At(n));
    KeepsTrans(g, g1.At(n), Condition(e, g, t, f));
  }

  lemma {:induction false} NeatChoice(e: Expr, g: Gen, t: BlockRef, f: BlockRef, rank: seq<int>, arith: bool)
    returns (rank': seq<int>)
    requires Neat(g, rank, arith) && (arith ==> PlainTest(e)) && g.cur < |rank|
    requires 0 <= t < |rank| && 0 <= f < |rank| && e.Ternary?
    requires rank[g.cur] + Tests(e) < rank[t] && rank[g.cur] + Tests(e) < rank[f]
    ensures g.Ok() && rank <= rank'
    ensures var g' := Condition(e, g, t, f); Neat(g', rank', arith) && KeepsValues(g, g')
    decreases e, 0
  {
    hide Neat, Valued, KeepsValues, Rvalue, Condition, Gen.Append, Gen.WithBlock;
    NeatOk(g, rank, arith);
    ConditionOfTernary(e, g, t, f);
    var n := |g.blocks|;
    var r := rank[g.cur] + Tests(e.condition) + 1;
    NeatBlock(g, rank, arith, r);
    NeatBlock(g.WithBlock(), rank + [r], arith, r);
    var g0 := g.WithBlock().WithBlock();
    rank' := NeatCondition(e.condition, g0, n, n + 1, rank + [r] + [r], arith);
    var g1 := Condition(e.condition, g0, n, n + 1);
    NeatMove(g1, rank', arith, n);
    assert rank'[n] == rank'[n + 1] == r;
    rank' := NeatCondition(e.lhs, g1.At(n), t, f, rank', arith);
    var g2 := Condition(e.lhs, g1.At(n), t, f);
    NeatMove(g2, rank', arith, n + 1);
    rank' := NeatCondition(e.rhs, g2.At(n + 1), t, f, rank', arith);
    KeepsTrans(g, g.WithBlock(), g0);
    KeepsTrans(g, g0, g1);
    KeepsTrans(g, g1, g1.At(n));
    KeepsTrans(g, g1.At(n), g2);
    KeepsTrans(g, g2, g2.At(n + 1));
    KeepsTrans(g, g2.At(n + 1), Condition(e, g, t, f));
  }

  // ----- statements -----

  lemma {:induction false} NeatConnected(g: Gen, rank: seq<int>, arith: bool, r: int)
    requires Neat(g, rank, arith)
    ensures g.cur < |g.blocks| && Neat(g.WithConnectedBlock(), rank + [r], arith)
  {
    hide Neat, Valued, KeepsValues, Gen.Append, Gen.WithBlock;
    NeatOk(g, rank, arith);
    NeatBlock(g, rank, arith, r);
    NeatAdd(g.WithBlock(), rank + [r], arith, Br(|g.blocks|));
    NeatMove(g.WithBlock().Append(Br(|g.blocks|)), rank + [r], arith, |g.blocks|);
  }

  lemma NeatPoints(g: Gen, rank: seq<int>, arith: bool, breakTo: BlockRef, continueTo: BlockRef)
    requires Neat(g, rank, arith)
    ensures Neat(g.WithLoopPoints(breakTo, continueTo), rank, arith)
  {
    hide Operands, Readable, MayUse;
    var g' := g.WithLoopPoints(breakTo, continueTo);
    forall b, k | Has(g'.blocks, b, k)
      ensures NeatAt(g', rank, arith, b, g'.blocks[b][k])
    {
      assert NeatAt(g, rank, arith, b, g.blocks[b][k]);
    }
  }

  /** A jump to a label, whose block may be new. */
  lemma {:induction false} NeatJump(g: Gen, rank: seq<int>, arith: bool, l: string) returns (rank': seq<int>)
    requires Neat(g, rank, arith)
    ensures g.Ok() && rank <= rank' && Neat(g.Jump(l), rank', arith)
  {
    hide Neat, Valued, KeepsValues, Gen.Append, Gen.WithBlock;
    NeatOk(g, rank, arith);
    rank' := rank;
    if l !in g.labels {
      rank' := rank + [0];
      NeatBlock(g, rank, arith, 0);
      NeatLabels(g.WithBlock(), rank', arith, g.labels[l := |g.blocks|]);
    }
    NeatAdd(g.WithLabel(l), rank', arith, Br(g.WithLabel(l).labels[l]));
  }

  lemma NeatLabels(g: Gen, rank: seq<int>, arith: bool, labels: map<string, nat>)
    requires Neat(g, rank, arith) && forall l <- labels :: labels[l] < |g.blocks|
    ensures Neat(g.(labels := labels), rank, arith)
  {
    hide Operands, Readable, MayUse;
    var g' := g.(labels := labels);
    forall b, k | Has(g'.blocks, b, k)
      ensures NeatAt(g', rank, arith, b, g'.blocks[b][k])
    {
      assert NeatAt(g, rank, arith, b, g.blocks[b][k]);
    }
  }

  lemma {:induction false} NeatEmit(s: Stmt, g: Gen, rank: seq<int>, arith: bool) returns (rank': seq<int>)
    requires Neat(g, rank, arith) && (arith ==> TestsOnly(s))
    ensures g.Ok() && rank <= rank' && Neat(Emit(s, g), rank', arith)
    decreases s, 1
  {
    hide Neat, Valued, KeepsValues, Rvalue, Condition, Emit, EmitAll, EmitElse, Gen.Append, Gen.WithBlock, Gen.Jump, Gen.WithConnectedBlock;
    NeatOk(g, rank, arith);
    EmitSimpleIs(s, g);
    rank' := rank;
    match s
    case Expression(e) =>
      if e.Some? {
        rank' := NeatRvalue(e.value, g, rank, arith);
      }
    case Compound(items) => rank' := NeatEmitAll(items, g, rank, arith);
    case Selection(_, _, _) => rank' := NeatSelection(s, g, rank, arith);
    case While(_, _) => rank' := NeatWhile(s, g, rank, arith);
    case DoWhile(_, _) => rank' := NeatDo(s, g, rank, arith);
    case Return(e) => rank' := NeatReturn(s, g, rank, arith);
    case Break => rank' := NeatAway(g, rank, arith, g.breakPoint);
    case Continue => rank' := NeatAway(g, rank, arith, g.continuePoint);
    case Goto(l) =>
      EmitGotoIs(l, g);
      NeatBlock(g, rank, arith, 0);
      rank' := NeatJump(g.WithBlock(), rank + [0], arith, l);
      NeatMove(g.WithBlock().Jump(l), rank', arith, |g.blocks|);
    case Labeled(l, t) =>
      EmitLabeledIs(s, g);
      rank' := NeatJump(g, rank, arith, l);
      NeatMove(g.Jump(l), rank', arith, g.Jump(l).labels[l]);
      rank' := NeatEmit(t, g.Jump(l).AtLabel(l), rank', arith);
  }

  lemma {:induction false} NeatAway(g: Gen, rank: seq<int>, arith: bool, t: BlockRef) returns (rank': seq<int>)
    requires Neat(g, rank, arith)
    ensures g.Ok() && rank <= rank' && Neat(g.WithBlock().Append(Br(t)).At(|g.blocks|), rank', arith)
  {
    hide Neat, Valued, KeepsValues, Gen.Append, Gen.WithBlock;
    NeatOk(g, rank, arith);
    rank' := rank + [0];
    NeatBlock(g, rank, arith, 0);
    NeatAdd(g.WithBlock(), rank', arith, Br(t));
    NeatMove(g.WithBlock().Append(Br(t)), rank', arith, |g.blocks|);
  }

  lemma {:induction false} NeatReturn(s: Stmt, g: Gen, rank: seq<int>, arith: bool) returns (rank': seq<int>)
    requires Neat(g, rank, arith) && (arith ==> TestsOnly(s)) && s.Return?
    ensures g.Ok() && rank <= rank' && Neat(Emit(s, g), rank', arith)
    decreases s, 0
  {
    hide Neat, Valued, KeepsValues, Rvalue, Emit, Gen.Append, Gen.WithBlock;
    NeatOk(g, rank, arith);
    EmitSimpleIs(s, g);
    rank' := rank;
    var g1, op := g, RetVoid;
    if s.e.Some? {
      rank' := NeatRvalue(s.e.value, g, rank, arith);
      g1, op := Rvalue(s.e.value, g).0, Ret(Rvalue(s.e.value, g).1);
    }
    NeatOk(g1, rank', arith);
    NeatAdd(g1, rank', arith, op);
    NeatBlock(g1.Append(op), rank', arith, 0);
    rank' := rank' + [0];
    NeatMove(g1.Append(op).WithBlock(), rank', arith, |g1.blocks|);
  }

  lemma {:induction false} NeatIfHead(c: Expr, g: Gen, rank: seq<int>, arith: bool) returns (rank': seq<int>)
    requires Neat(g, rank, arith) && (arith ==> PlainTest(c))
    ensures g.Ok() && rank <= rank' && Neat(IfHead(c, g), rank', arith)
  {
    hide Neat, Valued, KeepsValues, Condition, Gen.Append, Gen.WithBlock, Gen.WithConnectedBlock;
    NeatOk(g, rank, arith);
    var h := |g.blocks|;
    var high := Tests(c) + 1;
    NeatConnected(g, rank, arith, 0);
    var g1 := g.WithConnectedBlock();
    NeatBlock(g1, rank + [0], arith, high);
    NeatBlock(g1.WithBlock(), rank + [0] + [high], arith, high);
    NeatBlock(g1.WithBlock().WithBlock(), rank + [0] + [high] + [high], arith, 0);
    rank' := NeatCondition(c, IfEntry(g), h + 1, h + 2, rank + [0] + [high] + [high] + [0], arith);
    NeatMove(Condition(c, IfEntry(g), h + 1, h + 2), rank', arith, h + 1);
  }

  lemma {:induction false} NeatSelection(s: Stmt, g: Gen, rank: seq<int>, arith: bool) returns (rank': seq<int>)
    requires Neat(g, rank, arith) && (arith ==> TestsOnly(s)) && s.Selection?
    ensures g.Ok() && rank <= rank' && Neat(Emit(s, g), rank', arith)
    decreases s, 0
  {
    hide Neat, Valued, KeepsValues, Emit, EmitElse, IfHead, Gen.Append;
    NeatOk(g, rank, arith);
    EmitSelectionIs(s, g);
    var n := |g.blocks|;
    rank' := NeatIfHead(s.condition, g, rank, arith);
    rank' := NeatEmit(s.ifStatement, IfHead(s.condition, g), rank', arith);
    var g1 := Emit(s.ifStatement, IfHead(s.condition, g));
    NeatOk(g1, rank', arith);
    NeatAdd(g1, rank', arith, Br(n + 3));
    rank' := NeatElse(s.elseStatement, g1.Append(Br(n + 3)), n + 2, rank', arith);
  }

  lemma {:induction false} NeatElse(b: Option<Stmt>, g: Gen, alternative: nat, rank: seq<int>, arith: bool) returns (rank': seq<int>)
    requires Neat(g, rank, arith) && (arith && b.Some? ==> TestsOnly(b.value)) && alternative + 1 < |g.blocks|
    ensures g.Ok() && rank <= rank' && Neat(EmitElse(b, g, alternative), rank', arith)
    decreases b, 0
  {
    hide Neat, Valued, KeepsValues, Emit, EmitElse, Gen.Append;
    NeatOk(g, rank, arith);
    EmitElseIs(b, g, alternative);
    var end := alternative + 1;
    NeatMove(g, rank, arith, alternative);
    var g1 := g.At(alternative);
    rank' := rank;
    if b.Some? {
      rank' := NeatEmit(b.value, g.At(alternative), rank, arith);
      g1 := Emit(b.value, g.At(alternative));
    }
    NeatOk(g1, rank', arith);
    NeatAdd(g1, rank', arith, Br(end));
    NeatMove(g1.Append(Br(end)), rank', arith, end);
  }

  lemma {:induction false} NeatWhile(s: Stmt, g: Gen, rank: seq<int>, arith: bool) returns (rank': seq<int>)
    requires Neat(g, rank, arith) && (arith ==> TestsOnly(s)) && s.While?
    ensures g.Ok() && rank <= rank' && Neat(Emit(s, g), rank', arith)
    decreases s, 0
  {
    hide Neat, Valued, KeepsValues, Condition, Emit, WhileHead, Gen.Append, Gen.WithBlock, Gen.WithConnectedBlock;
    NeatOk(g, rank, arith);
    EmitWhileIs(s, g);
    var h := |g.blocks|;
    rank' := NeatWhileHead(s.condition, g, rank, arith);
    rank' := NeatEmit(s.body, WhileHead(s.condition, g), rank', arith);
    var g2 := Emit(s.body, WhileHead(s.condition, g));
    NeatOk(g2, rank', arith);
    NeatAdd(g2, rank', arith, Br(h));
    NeatMove(g2.Append(Br(h)), rank', arith, h + 2);
  }

  lemma {:induction false} NeatWhileHead(c: Expr, g: Gen, rank: seq<int>, arith: bool) returns (rank': seq<int>)
    requires Neat(g, rank, arith) && (arith ==> PlainTest(c))
    ensures g.Ok() && rank <= rank' && Neat(WhileHead(c, g), rank', arith)
  {
    hide Neat, Valued, KeepsValues, Condition, Gen.Append, Gen.WithBlock, Gen.WithConnectedBlock;
    NeatOk(g, rank, arith);
    var h := |g.blocks|;
    var high := Tests(c) + 1;
    NeatConnected(g, rank, arith, 0);
    var g1 := g.WithConnectedBlock();
    NeatBlock(g1, rank + [0], arith, high);
    NeatBlock(g1.WithBlock(), rank + [0] + [high], arith, high);
    rank' := rank + [0] + [high] + [high];
    NeatPoints(g1.WithBlock().WithBlock(), rank', arith, h + 2, h + 1);
    rank' := NeatCondition(c, WhileEntry(g), h + 1, h + 2, rank', arith);
    NeatMove(Condition(c, WhileEntry(g), h + 1, h + 2), rank', arith, h + 1);
  }

  lemma {:induction false} NeatDo(s: Stmt, g: Gen, rank: seq<int>, arith: bool) returns (rank': seq<int>)
    requires Neat(g, rank, arith) && (arith ==> TestsOnly(s)) && s.DoWhile?
    ensures g.Ok() && rank <= rank' && Neat(Emit(s, g), rank', arith)
    decreases s, 0
  {
    hide Neat, Valued, KeepsValues, Emit, DoTail, Gen.Append, Gen.WithBlock, Gen.WithConnectedBlock;
    NeatOk(g, rank, arith);
    EmitDoIs(s, g);
    NeatConnected(g, rank, arith, 0);
    rank' := NeatEmit(s.body, g.WithConnectedBlock(), rank + [0], arith);
    rank' := NeatDoTail(s.condition, Emit(s.body, g.WithConnectedBlock()), |g.blocks|, rank', arith);
  }

  /** The test of a do loop ranks below the body, which only branches to it. */
  lemma {:induction false} NeatDoTail(c: Expr, g: Gen, content: nat, rank: seq<int>, arith: bool) returns (rank': seq<int>)
    requires Neat(g, rank, arith) && (arith ==> PlainTest(c)) && content < |g.blocks|
    ensures g.Ok() && rank <= rank' && Neat(DoTail(c, g, content), rank', arith)
  {
    hide Neat, Valued, KeepsValues, Condition, Gen.Append, Gen.WithBlock, Gen.WithConnectedBlock;
    NeatOk(g, rank, arith);
    var t := |g.blocks|;
    var high := rank[content];
    var low := high - Tests(c) - 1;
    NeatConnected(g, rank, arith, low);
    var g1 := g.WithConnectedBlock();
    NeatBlock(g1, rank + [low], arith, high);
    rank' := rank + [low] + [high];
    NeatPoints(g1.WithBlock(), rank', arith, t + 1, content);
    NeatMove(g1.WithBlock().WithLoopPoints(t + 1, content), rank', arith, t);
    rank' := NeatCondition(c, DoEntry(g, content), content, t + 1, rank', arith);
    NeatMove(Condition(c, DoEntry(g, content), content, t + 1), rank', arith, t + 1);
  }

  lemma {:induction false} NeatEmitAll(ss: seq<Stmt>, g: Gen, rank: seq<int>, arith: bool) returns (rank': seq<int>)
    requires Neat(g, rank, arith) && (arith ==> TestsOnlyAll(ss))
    ensures g.Ok() && rank <= rank' && Neat(EmitAll(ss, g), rank', arith)
    decreases ss, 0
  {
    hide Neat, Emit;
    NeatOk(g, rank, arith);
    rank' := rank;
    if ss != [] {
      rank' := NeatEmit(ss[0], g, rank, arith);
      rank' := NeatEmitAll(ss[1..], Emit(ss[0], g), rank', arith);
    }
  }

  lemma {:induction false} NeatPrologue(params: seq<string>, k: nat, g: Gen, rank: seq<int>, arith: bool)
    requires k <= |params| && Neat(g, rank, arith)
    ensures g.Ok() && Neat(Prologue(params, k, g), rank, arith)
    decreases |params| - k
  {
    hide Neat, KeepsValues, Gen.Append;
    NeatOk(g, rank, arith);
    if k < |params| {
      NeatAdd(g, rank, arith, Store(Arg(k), params[k]));
      NeatPrologue(params, k + 1, g.Append(Store(Arg(k), params[k])), rank, arith);
    }
  }

  lemma {:induction false} NeatFunction(f: Function, arith: bool) returns (rank: seq<int>)
    requires arith ==> TestsOnly(f.body)
    ensures Neat(EmitFunction(f), rank, arith)
  {
    hide Neat, Emit, Prologue, Valued, KeepsValues, Gen.Append;
    assert Neat(STARTED, [0], arith) by { NeatStart(arith); }
    NeatPrologue(f.params, 0, STARTED, [0], arith);
    rank := NeatEmit(f.body, BodyStart(f), [0], arith);
    var g := Emit(f.body, BodyStart(f));
    NeatOk(g, rank, arith);
    var op := if f.isVoid then RetVoid else Ret(Const(0));
    ConstIsValue(g, 0);
    NeatAdd(g, rank, arith, op);
  }

  lemma NeatStart(arith: bool)
    ensures Neat(STARTED, [0], arith)
  {
  }

  // ----- the pass ends on what the compiler makes -----

  /** No cycle of a generated function consists of conditional branches, whatever its
      body is. */
  lemma {:induction false} BranchesRise(f: Function) returns (rank: seq<int>)
    ensures Upward(EmitFunction(f).blocks, rank)
  {
    hide EmitFunction, MayUse, Operands, LeadsUp;
    rank := NeatFunction(f, false);
    var g := EmitFunction(f).blocks;
    forall b, i: Instr | 0 <= b < |g| && i in g[b] && i.op.CondBr?
      ensures LeadsUp(b, i.op, rank)
    {
      var k :| 0 <= k < |g[b]| && g[b][k] == i;
      assert Has(g, b, k);
      assert NeatAt(EmitFunction(f), rank, false, b, g[b][k]);
    }
  }

  lemma {:induction false} NeatIsReady(g: Gen, rank: seq<int>)
    requires Neat(g, rank, true) && IsWellFormed(g.blocks)
    ensures Ready(g.blocks) && BranchesLast(g.blocks) && Unshared(g.blocks) && UsesFit(g.blocks)
  {
    hide Operands, Readable, LeadsUp, MayUse;
    forall b, i | 0 <= b < |g.blocks| && i in g.blocks[b]
      ensures Readable(i.op) && forall t <- Successors(i.op) :: 0 <= t < |g.blocks|
    {
      var k :| 0 <= k < |g.blocks[b]| && g.blocks[b][k] == i;
      assert Has(g.blocks, b, k) && NeatAt(g, rank, true, b, g.blocks[b][k]);
      assert g.blocks[b] in g.blocks && TargetsIn(i.op, |g.blocks|, false);
    }
    UnsharedIds(g.blocks);
    forall b, k | 0 <= b < |g.blocks| && 0 <= k < |g.blocks[b]| - 1
      ensures !Terminates(g.blocks[b][k].op)
    {
      assert g.blocks[b] in g.blocks && IsClosed(g.blocks[b]);
      var init := g.blocks[b][..|g.blocks[b]| - 1];
      assert init[k] == g.blocks[b][k] && init[k] in init && !IsTerminator(init[k]);
    }
    forall b, i | 0 <= b < |g.blocks| && i in g.blocks[b] && Terminates(i.op)
      ensures Uses(g.blocks, 0, i.id) == []
    {
      var k :| 0 <= k < |g.blocks[b]| && g.blocks[b][k] == i;
      BranchIsUnused(g.blocks, b, k, 0);
    }
  }

  lemma {:induction false} FunctionIsReady(f: Function)
    requires UniqueLabels(f.body) && Gotos(f.body) <= Labels(f.body) && JumpsLand(f.body, false) && TestsOnly(f.body)
    ensures var g := EmitFunction(f).blocks; Ready(g) && BranchesLast(g) && Unshared(g) && UsesFit(g)
  {
    hide EmitFunction, Neat, IsWellFormed;
    WellFormedExactlyWhen(f);
    var rank := NeatFunction(f, true);
    NeatIsReady(EmitFunction(f), rank);
  }

  /** The constant propagation ends on every function that the compiler makes, if its
      body uses logical operators as conditions only. */
  lemma {:induction false} PassEndsOnFunction(f: Function)
    requires UniqueLabels(f.body) && Gotos(f.body) <= Labels(f.body) && JumpsLand(f.body, false) && TestsOnly(f.body)
    ensures var g := EmitFunction(f).blocks;
      Ready(g) && Inside(g, Initial(g)) && exists n: nat :: Ended(Rounds(g, Initial(g), n))
  {
    hide EmitFunction, Upward, BranchesLast, Ready;
    FunctionIsReady(f);
    var rank' := BranchesRise(f);
    EndsWhenRanked(EmitFunction(f).blocks, rank');
  }

  /** Each conditional branch of g' is one of g, in the same block. */
  ghost predicate SameBranches(g: Graph, g': Graph) {
    && |g'| == |g|
    && forall b, i' | 0 <= b < |g| && i' in g'[b] && i'.op.CondBr? ::
      exists i :: i in g[b] && i.op.CondBr? && i.op.ifTrue == i'.op.ifTrue && i.op.ifFalse == i'.op.ifFalse
  }

  /** It ends too after a transformation that keeps the branches, as promoting
      memory to registers does, whatever the other instructions are then. */
  lemma {:induction false} PassEndsOnSameBranches(f: Function, g: Graph)
    requires SameBranches(EmitFunction(f).blocks, g) && Ready(g) && BranchesLast(g)
    ensures Inside(g, Initial(g)) && exists n: nat :: Ended(Rounds(g, Initial(g), n))
  {
    hide EmitFunction, BranchesLast, Ready;
    var rank := BranchesRise(f);
    var g0 := EmitFunction(f).blocks;
    forall b, i | 0 <= b < |g| && i in g[b] && i.op.CondBr?
      ensures LeadsUp(b, i.op, rank)
    {
      var i0: Instr :| i0 in g0[b] && i0.op.CondBr? && i0.op.ifTrue == i.op.ifTrue && i0.op.ifFalse == i.op.ifFalse;
      assert LeadsUp(b, i0.op, rank);
    }
    EndsWhenRanked(g, rank);
  }
}
