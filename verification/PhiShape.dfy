/** Joins: every phi that code generation makes stands at the head of its block and
    names exactly the blocks that branch to it, each once. */
module PhiShape {
  import opened Ir
  import opened Ast
  import opened Creator
  import opened Codegen
  import opened GraphShape
  import opened BodyShape
  import opened WellFormed
  import Simulation

  predicate HasPhi(blocks: Graph, b: int) {
    0 <= b < |blocks| && exists i <- blocks[b] :: i.op.Phi?
  }

  ghost predicate JumpsTo(blocks: Graph, p: int, b: BlockRef) {
    0 <= p < |blocks| && exists i <- blocks[p] :: b in Successors(i.op)
  }

  ghost predicate Unreached(blocks: Graph, b: BlockRef) {
    forall p, i | 0 <= p < |blocks| && i in blocks[p] :: b !in Successors(i.op)
  }

  /** Block b is a join of two blocks: its first instruction is its only phi, which
      pairs a value with each block that jumps to b, and these jump to b only. */
  ghost predicate IsJoin(blocks: Graph, b: int) {
    && 0 <= b < |blocks| && blocks[b] != []
    && blocks[b][0].op.Phi? && |blocks[b][0].op.incoming| == 2
    && (forall i <- blocks[b][1..] :: !i.op.Phi?)
    && var from, from' := blocks[b][0].op.incoming[0].1, blocks[b][0].op.incoming[1].1;
      && from != from'
      && (forall p :: JumpsTo(blocks, p, b) <==> p == from || p == from')
      && (forall p, i | 0 <= p < |blocks| && i in blocks[p] && b in Successors(i.op) :: i.op == Br(b))
  }

  ghost predicate PhisAreJoins(blocks: Graph) {
    forall b | HasPhi(blocks, b) :: IsJoin(blocks, b)
  }

  // ----- what code for an expression adds -----

  /** An instruction of g' that g does not have. */
  ghost predicate New(g: Graph, g': Graph, p: int, i: Instr) {
    0 <= p < |g'| && i in g'[p] && !(p < |g| && i in g[p])
  }

  /** What was added targets new blocks, or those allowed; phis were added to new
      blocks only, and those are joins. */
  ghost predicate Quietly(g: Graph, g': Graph, allowed: set<BlockRef>) {
    && |g| <= |g'| && (forall b | 0 <= b < |g| :: g[b] <= g'[b])
    && (forall b, i | 0 <= b < |g| && i in g'[b][|g[b]|..] :: !i.op.Phi?)
    && (forall p, i, t | New(g, g', p, i) && t in Successors(i.op) :: |g| <= t || t in allowed)
    && (forall b | |g| <= b && HasPhi(g', b) :: IsJoin(g', b))
  }

  lemma {:induction false} QuietRefl(g: Graph, allowed: set<BlockRef>)
    ensures Quietly(g, g, allowed)
  {
  }

  /** No phi is added to a block that is there already. */
  lemma {:induction false} PhisStay(g: Graph, g': Graph, allowed: set<BlockRef>, b: int)
    requires Quietly(g, g', allowed) && 0 <= b < |g|
    ensures HasPhi(g', b) <==> HasPhi(g, b)
  {
    assert g'[b] == g[b] + g'[b][|g[b]|..];
  }

  lemma {:induction false} JumpsStay(g: Graph, g': Graph, allowed: set<BlockRef>, p: int, b: BlockRef)
    requires Quietly(g, g', allowed) && b < |g| && b !in allowed
    ensures JumpsTo(g', p, b) <==> JumpsTo(g, p, b)
  {
    if JumpsTo(g', p, b) {
      var i :| i in g'[p] && b in Successors(i.op);
      assert !New(g, g', p, i);
    }
    if JumpsTo(g, p, b) {
      var i :| i in g[p] && b in Successors(i.op);
      assert g[p] <= g'[p];
      assert i in g'[p];
    }
  }

  /** A join that no new jump may reach stays one. */
  lemma {:induction false} JoinStays(g: Graph, g': Graph, allowed: set<BlockRef>, b: int)
    requires Quietly(g, g', allowed) && IsJoin(g, b) && b !in allowed
    ensures IsJoin(g', b)
  {
    assert g'[b] == g[b] + g'[b][|g[b]|..];
    assert g'[b][0] == g[b][0];
    assert g'[b][1..] == g[b][1..] + g'[b][|g[b]|..];
    forall p
      ensures JumpsTo(g', p, b) <==> JumpsTo(g, p, b)
    {
      JumpsStay(g, g', allowed, p, b);
    }
    forall p, i | 0 <= p < |g'| && i in g'[p] && b in Successors(i.op)
      ensures i.op == Br(b)
    {
      assert !New(g, g', p, i);
    }
  }

  lemma {:induction false} QuietTrans(g: Graph, g1: Graph, g2: Graph, a: set<BlockRef>, a1: set<BlockRef>)
    requires Quietly(g, g1, a) && Quietly(g1, g2, a1)
    requires forall b <- a :: b < |g|
    requires forall b <- a1 :: b in a || (|g| <= b < |g1| && !HasPhi(g1, b))
    ensures Quietly(g, g2, a)
  {
    forall b | 0 <= b < |g|
      ensures g[b] <= g2[b] && forall i <- g2[b][|g[b]|..] :: !i.op.Phi?
    {
      assert g[b] <= g1[b] <= g2[b];
      assert g2[b][|g[b]|..] == g1[b][|g[b]|..] + g2[b][|g1[b]|..];
    }
    forall p, i, t | New(g, g2, p, i) && t in Successors(i.op)
      ensures |g| <= t || t in a
    {
      if !New(g1, g2, p, i) {
        assert New(g, g1, p, i);
      }
    }
    forall b | |g| <= b && HasPhi(g2, b)
      ensures IsJoin(g2, b)
    {
      if b < |g1| {
        PhisStay(g1, g2, a1, b);
        JoinStays(g1, g2, a1, b);
      }
    }
  }

  lemma {:induction false} AddQuiet(g: Gen, b: nat, op: Op)
    requires b < |g.blocks| && !op.Phi?
    ensures Quietly(g.blocks, g.Add(b, op).blocks, Successors(op))
  {
    var after := g.Add(b, op).blocks;
    forall c: int, i: Instr | 0 <= c < |g.blocks| && i in after[c][|g.blocks[c]|..]
      ensures !i.op.Phi?
    {
      if c == b {
        assert after[c][|g.blocks[c]|..] == [Instr(g.next, op)];
      }
    }
  }

  lemma {:induction false} AppendQuiet(g: Gen, op: Op)
    requires g.cur < |g.blocks| && !op.Phi?
    ensures Quietly(g.blocks, g.Append(op).blocks, Successors(op))
  {
    AddQuiet(g, g.cur, op);
  }

  lemma {:induction false} BlockQuiet(g: Gen)
    ensures Quietly(g.blocks, g.WithBlock().blocks, {})
    ensures var n := |g.blocks|; !HasPhi(g.WithBlock().blocks, n)
  {
  }

  /** Appending something that does not jump. */
  lemma {:induction false} AppendOnQuiet(g: Gen, g1: Gen, op: Op, allowed: set<BlockRef>)
    requires Quietly(g.blocks, g1.blocks, allowed) && forall b <- allowed :: b < |g.blocks|
    requires g1.cur < |g1.blocks| && !op.Phi? && Successors(op) == {}
    ensures Quietly(g.blocks, g1.Append(op).blocks, allowed)
  {
    AppendQuiet(g1, op);
    QuietTrans(g.blocks, g1.blocks, g1.Append(op).blocks, allowed, {});
  }

  // ----- expressions -----

  lemma {:induction false} RvalueQuiet(e: Expr, g: Gen, waiting: set<int>, nulls: bool)
    requires Shape(g, waiting, g.cur, nulls)
    ensures g.Ok() && Quietly(g.blocks, Rvalue(e, g).0.blocks, {})
    decreases e, 2
  {
    hide Shape, Quietly, Gen.Add, Gen.Append, Rvalue, Condition, Arm, Combine;
    ShapeIsOk(g, waiting, g.cur, nulls);
    QuietRefl(g.blocks, {});
    RvalueParts(e, g);
    match e
    case Constant(n) =>
    case Variable(x) => AppendOnQuiet(g, g, Load(x), {});
    case Assign(x, a) =>
      RvalueQuiet(a, g, waiting, nulls);
      AppendOnQuiet(g, Rvalue(a, g).0, Store(Rvalue(a, g).1, x), {});
    case Negate(a) =>
      RvalueQuiet(a, g, waiting, nulls);
      AppendOnQuiet(g, Rvalue(a, g).0, Op.Binary(Sub, Const(0), Rvalue(a, g).1), {});
    case Not(a) =>
      RvalueQuiet(a, g, waiting, nulls);
      AppendOnQuiet(g, Rvalue(a, g).0, Op.Binary(Xor, Rvalue(a, g).1, Const(-1)), {});
    case Binary(op, a, b) =>
      RvalueOfBinary(e, g);
      var (g1, v1) := Rvalue(a, g);
      var (g2, v2) := Rvalue(b, g1);
      RvalueQuiet(a, g, waiting, nulls);
      RvalueShape(a, g, waiting, nulls);
      RvalueQuiet(b, g1, waiting, nulls);
      QuietTrans(g.blocks, g1.blocks, g2.blocks, {}, {});
      CombineQuiet(g, op, g2, v1, v2);
    case Ternary(_, _, _) => TernaryQuiet(e, g, waiting, nulls);
  }

  lemma {:induction false} ShapeIsOk(g: Gen, waiting: set<int>, open: int, nulls: bool)
    requires Shape(g, waiting, open, nulls)
    ensures g.Ok() && g.cur < |g.blocks|
    ensures forall p, i, b | 0 <= p < |g.blocks| && i in g.blocks[p] && b in Successors(i.op) :: b < |g.blocks|
  {
  }

  lemma {:induction false} RvalueParts(e: Expr, g: Gen)
    requires g.Ok()
    ensures e.Constant? ==> Rvalue(e, g).0 == g
    ensures e.Variable? ==> Rvalue(e, g).0 == g.Append(Load(e.x))
    ensures e.Assign? ==> var (g1, v) := Rvalue(e.rhs, g); Rvalue(e, g).0 == g1.Append(Store(v, e.x))
    ensures e.Negate? ==>
      var (g1, v) := Rvalue(e.operand, g); Rvalue(e, g).0 == g1.Append(Op.Binary(Sub, Const(0), v))
    ensures e.Not? ==>
      var (g1, v) := Rvalue(e.operand, g); Rvalue(e, g).0 == g1.Append(Op.Binary(Xor, v, Const(-1)))
  {
    hide Condition, Arm, Combine, Gen.Append;
  }

  lemma {:induction false} CombineQuiet(g: Gen, op: BinaryOperator, g1: Gen, a: Value, b: Value)
    requires g1.Ok() && Quietly(g.blocks, g1.blocks, {})
    ensures Quietly(g.blocks, Combine(op, g1, a, b).0.blocks, {})
  {
    hide Quietly, Gen.Add, Gen.Append;
    match op
    case PLUS => AppendOnQuiet(g, g1, Op.Binary(Add, a, b), {});
    case MINUS => AppendOnQuiet(g, g1, Op.Binary(Sub, a, b), {});
    case STAR => AppendOnQuiet(g, g1, Op.Binary(Mul, a, b), {});
    case LAND => AppendOnQuiet(g, g1, Op.Binary(And, a, b), {});
    case LOR => AppendOnQuiet(g, g1, Op.Binary(Or, a, b), {});
    case LESS =>
      AppendOnQuiet(g, g1, ICmp(SLT, a, b), {});
      AppendOnQuiet(g, g1.Append(ICmp(SLT, a, b)), ZExt(Reg(g1.next)), {});
    case EQUAL =>
      AppendOnQuiet(g, g1, ICmp(EQ, a, b), {});
      AppendOnQuiet(g, g1.Append(ICmp(EQ, a, b)), ZExt(Reg(g1.next)), {});
    case NEQUAL =>
      AppendOnQuiet(g, g1, ICmp(NE, a, b), {});
      AppendOnQuiet(g, g1.Append(ICmp(NE, a, b)), ZExt(Reg(g1.next)), {});
  }

  /** An arm of a ternary adds its last block to those that jump to the end. */
  lemma {:induction false} ArmQuiet(e: Expr, g: Gen, b: nat, end: nat, waiting: set<int>, rest: set<int>, nulls: bool)
    requires Shape(g, waiting, -1, nulls) && waiting == rest + {b} && b !in rest && end < |g.blocks| && !HasPhi(g.blocks, end)
    ensures g.Ok() && b < |g.blocks|
    ensures var (g1, v, from) := Arm(e, g, b, end);
      && Quietly(g.blocks, g1.blocks, {end})
      && (forall p :: JumpsTo(g1.blocks, p, end) <==> JumpsTo(g.blocks, p, end) || p == from)
      && ((forall p, i | 0 <= p < |g.blocks| && i in g.blocks[p] && end in Successors(i.op) :: i.op == Br(end)) ==>
          forall p, i | 0 <= p < |g1.blocks| && i in g1.blocks[p] && end in Successors(i.op) :: i.op == Br(end))
    decreases e, 4
  {
    hide Shape, Rvalue;
    ShapeIsOk(g, waiting, -1, nulls);
    AtShape(g, waiting, b, rest, nulls);
    RvalueQuiet(e, g.At(b), rest, nulls);
    var (g1, v) := Rvalue(e, g.At(b));
    var g2 := g1.Append(Br(end));
    AppendQuiet(g1, Br(end));
    PhisStay(g.blocks, g1.blocks, {}, end);
    JumpAdded(g.blocks, g1, end);
    ArmJoins(g, g1, end);
  }

  /** A jump that may be added to a block without a phi. */
  lemma {:induction false} JumpAdded(g: Graph, g1: Gen, end: nat)
    requires Quietly(g, g1.blocks, {}) && g1.cur < |g1.blocks| && end < |g| && !HasPhi(g1.blocks, end)
    ensures Quietly(g, g1.Append(Br(end)).blocks, {end})
  {
    hide HasPhi, IsJoin, Gen.Append;
    AppendQuiet(g1, Br(end));
    QuietWider(g, g1.blocks, {}, {end});
    QuietTrans(g, g1.blocks, g1.Append(Br(end)).blocks, {end}, {end});
  }

  lemma {:induction false} QuietWider(g: Graph, g': Graph, a: set<BlockRef>, a': set<BlockRef>)
    requires Quietly(g, g', a) && a <= a'
    ensures Quietly(g, g', a')
  {
  }

  lemma {:induction false} ArmJoins(g: Gen, g1: Gen, end: nat)
    requires Quietly(g.blocks, g1.blocks, {}) && g1.cur < |g1.blocks| && end < |g.blocks|
    ensures var g2 := g1.Append(Br(end));
      && (forall p :: JumpsTo(g2.blocks, p, end) <==> JumpsTo(g.blocks, p, end) || p == g1.cur)
      && ((forall p, i | 0 <= p < |g.blocks| && i in g.blocks[p] && end in Successors(i.op) :: i.op == Br(end)) ==>
          forall p, i | 0 <= p < |g2.blocks| && i in g2.blocks[p] && end in Successors(i.op) :: i.op == Br(end))
  {
    hide IsJoin, HasPhi;
    var g2 := g1.Append(Br(end));
    var j := Instr(g1.next, Br(end));
    assert forall p | 0 <= p < |g1.blocks| :: g2.blocks[p] == if p == g1.cur then g1.blocks[p] + [j] else g1.blocks[p];
    forall p
      ensures JumpsTo(g2.blocks, p, end) <==> JumpsTo(g.blocks, p, end) || p == g1.cur
    {
      JumpsStay(g.blocks, g1.blocks, {}, p, end);
      if p == g1.cur {
        assert j in g2.blocks[p] && end in Successors(j.op);
      }
    }
    forall p, i | 0 <= p < |g2.blocks| && i in g2.blocks[p] && end in Successors(i.op)
      ensures i == j || (0 <= p < |g.blocks| && i in g.blocks[p])
    {
      if i != j {
        assert i in g1.blocks[p];
        assert !New(g.blocks, g1.blocks, p, i);
      }
    }
  }

  /** The three blocks of a ternary, on which nothing depends yet. */
  lemma {:induction false} BlocksQuiet(g: Gen, waiting: set<int>, nulls: bool)
    requires Shape(g, waiting, g.cur, nulls)
    ensures var (n, g2) := (|g.blocks|, g.WithBlock().WithBlock());
      && Quietly(g.blocks, g2.blocks, {}) && Quietly(g.blocks, g2.WithBlock().blocks, {})
      && (forall b | n <= b :: !HasPhi(g2.WithBlock().blocks, b) && !HasPhi(g2.blocks, b))
      && Unreached(g2.WithBlock().blocks, n + 2)
  {
    hide Shape, IsJoin, Successors;
    var n, g1 := |g.blocks|, g.WithBlock();
    var g2 := g1.WithBlock();
    var g3 := g2.WithBlock();
    ShapeIsOk(g, waiting, g.cur, nulls);
    forall p, i | 0 <= p < |g3.blocks| && i in g3.blocks[p]
      ensures n + 2 !in Successors(i.op)
    {
      assert p < n && i in g.blocks[p];
    }
  }

  lemma {:induction false} TernaryQuiet(e: Expr, g: Gen, waiting: set<int>, nulls: bool)
    requires Shape(g, waiting, g.cur, nulls) && e.Ternary?
    ensures g.Ok() && Quietly(g.blocks, Rvalue(e, g).0.blocks, {})
    decreases e, 1
  {
    hide Shape, Quietly, IsJoin, HasPhi, JumpsTo, Successors, Gen.Ok, Gen.WithBlock, Gen.Add, Gen.Append, Gen.At, Rvalue, Condition, Arm;
    ShapeIsOk(g, waiting, g.cur, nulls);
    var Ternary(c, a, b) := e;
    var n := |g.blocks|;
    BlocksShape(g, waiting, nulls);
    BlocksQuiet(g, waiting, nulls);
    var g0 := g.WithBlock().WithBlock().WithBlock();
    var g1 := Condition(c, g0, n, n + 1);
    ConditionShape(c, g0, waiting + {n, n + 1, n + 2}, n, n + 1, nulls);
    ConditionQuiet(c, g0, waiting + {n, n + 1, n + 2}, n, n + 1, nulls);
    StillEmpty(g0, g1, n, {n, n + 1});
    QuietTrans(g.blocks, g0.blocks, g1.blocks, {}, {n, n + 1});
    TernaryArms(e, g, g1, waiting, nulls);
    RvalueOfTernary(e, g);
  }

  /** The blocks of a ternary keep having no phi, and its end no jump to it. */
  lemma {:induction false} StillEmpty(g: Gen, g1: Gen, n: nat, allowed: set<BlockRef>)
    requires Quietly(g.blocks, g1.blocks, allowed) && n + 2 < |g.blocks| && n + 2 !in allowed
    requires forall b | n <= b :: !HasPhi(g.blocks, b)
    requires Unreached(g.blocks, n + 2)
    ensures !HasPhi(g1.blocks, n) && !HasPhi(g1.blocks, n + 1) && !HasPhi(g1.blocks, n + 2)
    ensures Unreached(g1.blocks, n + 2)
  {
    hide HasPhi, IsJoin;
    PhisStay(g.blocks, g1.blocks, allowed, n);
    PhisStay(g.blocks, g1.blocks, allowed, n + 1);
    PhisStay(g.blocks, g1.blocks, allowed, n + 2);
    forall p, i | 0 <= p < |g1.blocks| && i in g1.blocks[p]
      ensures n + 2 !in Successors(i.op)
    {
      assert New(g.blocks, g1.blocks, p, i) || i in g.blocks[p];
    }
  }

  lemma {:induction false} TernaryArms(e: Expr, g: Gen, g1: Gen, waiting: set<int>, nulls: bool)
    requires e.Ternary? && Quietly(g.blocks, g1.blocks, {})
    requires var n := |g.blocks|;
      && Shape(g1, waiting + {n, n + 1, n + 2}, -1, nulls) && n !in waiting && n + 1 !in waiting && n + 2 !in waiting
      && n + 2 < |g1.blocks| && !HasPhi(g1.blocks, n) && !HasPhi(g1.blocks, n + 1) && !HasPhi(g1.blocks, n + 2)
      && Unreached(g1.blocks, n + 2)
    ensures g1.Ok()
    ensures var n := |g.blocks|;
      var (g2, v2, b2) := Arm(e.lhs, g1, n, n + 2);
      var (g3, v3, b3) := Arm(e.rhs, g2, n + 1, n + 2);
      Quietly(g.blocks, g3.At(n + 2).Append(Phi([(v2, b2), (v3, b3)])).blocks, {})
    decreases e, 0
  {
    hide Shape, Quietly, IsJoin, HasPhi, JumpsTo, Gen.Ok, Gen.WithBlock, Gen.Add, Gen.Append, Gen.At, Rvalue, Condition, Arm;
    var n := |g.blocks|;
    var all := waiting + {n, n + 1, n + 2};
    ShapeIsOk(g1, all, -1, nulls);
    var (g2, v2, b2) := Arm(e.lhs, g1, n, n + 2);
    var (g3, v3, b3) := Arm(e.rhs, g2, n + 1, n + 2);
    NoneJumps(g1.blocks, n + 2);
    ArmQuiet(e.lhs, g1, n, n + 2, all, waiting + {n + 1, n + 2}, nulls);
    ArmShape(e.lhs, g1, n, n + 2, all, waiting + {n + 1, n + 2}, nulls);
    PhisStay(g1.blocks, g2.blocks, {n + 2}, n + 2);
    ArmQuiet(e.rhs, g2, n + 1, n + 2, waiting + {n + 1, n + 2}, waiting + {n + 2}, nulls);
    ArmShape(e.rhs, g2, n + 1, n + 2, waiting + {n + 1, n + 2}, waiting + {n + 2}, nulls);
    assert all == waiting + {n + 2} + {n, n + 1};
    Simulation.ArmsDiffer(e.lhs, e.rhs, g1, n, n + 2, waiting + {n + 2}, nulls);
    AtShape(g3, waiting + {n + 2}, n + 2, waiting, nulls);
    QuietTrans(g.blocks, g1.blocks, g2.blocks, {}, {n + 2});
    QuietTrans(g.blocks, g2.blocks, g3.blocks, {}, {n + 2});
    JoinMade(g.blocks, g3, n + 2, v2, b2, v3, b3);
  }

  lemma {:induction false} NoneJumps(g: Graph, b: nat)
    requires Unreached(g, b)
    ensures forall p: int :: JumpsTo(g, p, b) == false
    ensures forall p, i | 0 <= p < |g| && i in g[p] && b in Successors(i.op) :: i.op == Br(b)
  {
  }

  /** The phi goes into the empty end block, whose predecessors are the two arms. */
  lemma {:induction false} JoinMade(g: Graph, g3: Gen, b: nat, v: Value, from: nat, v': Value, from': nat)
    requires Quietly(g, g3.blocks, {}) && |g| <= b < |g3.blocks| && g3.blocks[b] == [] && from != from'
    requires forall p :: JumpsTo(g3.blocks, p, b) <==> p == from || p == from'
    requires forall p, i | 0 <= p < |g3.blocks| && i in g3.blocks[p] && b in Successors(i.op) :: i.op == Br(b)
    ensures Quietly(g, g3.At(b).Append(Phi([(v, from), (v', from')])).blocks, {})
  {
    var before := g3.blocks;
    var phi := Instr(g3.next, Phi([(v, from), (v', from')]));
    var after := before[b := [phi]];
    assert before[b] + [phi] == [phi];
    assert g3.At(b).Append(phi.op).blocks == after;
    forall p, t
      ensures JumpsTo(after, p, t) <==> JumpsTo(before, p, t)
    {
    }
    assert IsJoin(after, b) by {
      assert after[b][0] == phi && after[b][1..] == [];
    }
    forall c | |g| <= c && HasPhi(after, c)
      ensures IsJoin(after, c)
    {
      if c != b {
        assert after[c] == before[c];
        assert HasPhi(before, c);
        JoinSame(before, after, c);
      }
    }
    forall p, i, t | New(g, after, p, i) && t in Successors(i.op)
      ensures |g| <= t || t in {}
    {
      assert i != phi;
      assert New(g, before, p, i);
    }
  }

  lemma {:induction false} JoinSame(before: Graph, after: Graph, c: int)
    requires IsJoin(before, c) && c < |after| && after[c] == before[c]
    requires forall p, t :: JumpsTo(after, p, t) <==> JumpsTo(before, p, t)
    requires |after| == |before|
    requires forall p, i | 0 <= p < |after| && i in after[p] && Successors(i.op) != {} :: i in before[p]
    ensures IsJoin(after, c)
  {
  }

  /** A condition jumps to its two targets, and otherwise to its own blocks. */
  lemma {:induction false} ConditionQuiet(e: Expr, g: Gen, waiting: set<int>, t: BlockRef, f: BlockRef, nulls: bool)
    requires IsTarget(t, |g.blocks|, nulls) && IsTarget(f, |g.blocks|, nulls)
    requires Shape(g, waiting, g.cur, nulls)
    ensures g.Ok() && Quietly(g.blocks, Condition(e, g, t, f).blocks, {t, f})
    decreases e, 3
  {
    hide Shape, Quietly, Gen.Ok, Gen.WithBlock, Gen.Add, Gen.Append, Gen.At, Rvalue, Condition;
    ShapeIsOk(g, waiting, g.cur, nulls);
    if e.Binary? && (e.op.LAND? || e.op.LOR?) {
      LogicalQuiet(e, g, waiting, t, f, nulls);
    } else if e.Not? {
      ConditionOfNot(e, g, t, f);
      ConditionQuiet(e.operand, g, waiting, f, t, nulls);
      assert {t, f} == {f, t};
    } else if e.Ternary? {
      TernaryConditionQuiet(e, g, waiting, t, f, nulls);
    } else {
      ConditionOfLeaf(e, g, t, f);
      RvalueQuiet(e, g, waiting, nulls);
      RvalueShape(e, g, waiting, nulls);
      var (g1, v) := Rvalue(e, g);
      ShapeIsOk(g1, waiting, g1.cur, nulls);
      AppendOnQuiet(g, g1, ICmp(NE, v, Const(0)), {});
      var g2 := g1.Append(ICmp(NE, v, Const(0)));
      AppendQuiet(g2, CondBr(Reg(g1.next), t, f));
      QuietWider(g.blocks, g2.blocks, {}, {t, f});
      QuietTrans(g.blocks, g2.blocks, g2.Append(CondBr(Reg(g1.next), t, f)).blocks, {t, f}, {t, f});
    }
  }

  lemma {:induction false} LogicalQuiet(
    e: Expr, g: Gen, waiting: set<int>, t: BlockRef, f: BlockRef, nulls: bool)
    requires IsTarget(t, |g.blocks|, nulls) && IsTarget(f, |g.blocks|, nulls)
    requires Shape(g, waiting, g.cur, nulls) && e.Binary? && (e.op.LAND? || e.op.LOR?)
    ensures g.Ok() && Quietly(g.blocks, Condition(e, g, t, f).blocks, {t, f})
    decreases e, 0
  {
    hide Shape, Quietly, HasPhi, Gen.Ok, Gen.WithBlock, Gen.Add, Gen.Append, Rvalue, Condition;
    ShapeIsOk(g, waiting, g.cur, nulls);
    BlocksShape(g, waiting, nulls);
    Simulation.OneBlockShape(g, waiting, nulls);
    var n := |g.blocks|;
    var (t1, f1) := if e.op.LAND? then (n, f) else (t, n);
    var g0 := g.WithBlock();
    var g1 := Condition(e.lhs, g0, t1, f1);
    ConditionOfLogical(e, g, t, f);
    BlockQuiet(g);
    ConditionShape(e.lhs, g0, waiting + {n}, t1, f1, nulls);
    ConditionQuiet(e.lhs, g0, waiting + {n}, t1, f1, nulls);
    AtShape(g1, waiting + {n}, n, waiting, nulls);
    ConditionQuiet(e.rhs, g1.At(n), waiting, t, f, nulls);
    QuietWider(g.blocks, g0.blocks, {}, {t, f});
    QuietTrans(g.blocks, g0.blocks, g1.blocks, {t, f}, {t1, f1});
    QuietTrans(g.blocks, g1.blocks, Condition(e, g, t, f).blocks, {t, f}, {t, f});
  }

  lemma {:induction false} TernaryConditionQuiet(
    e: Expr, g: Gen, waiting: set<int>, t: BlockRef, f: BlockRef, nulls: bool)
    requires IsTarget(t, |g.blocks|, nulls) && IsTarget(f, |g.blocks|, nulls)
    requires Shape(g, waiting, g.cur, nulls) && e.Ternary?
    ensures g.Ok() && Quietly(g.blocks, Condition(e, g, t, f).blocks, {t, f})
    decreases e, 0
  {
    hide Shape, Quietly, HasPhi, Gen.Ok, Gen.WithBlock, Gen.Add, Gen.Append, Rvalue, Condition;
    ShapeIsOk(g, waiting, g.cur, nulls);
    var n := |g.blocks|;
    BlocksShape(g, waiting, nulls);
    BlocksQuiet(g, waiting, nulls);
    var g0 := g.WithBlock().WithBlock();
    var g1 := Condition(e.condition, g0, n, n + 1);
    var g2 := Condition(e.lhs, g1.At(n), t, f);
    ConditionOfTernary(e, g, t, f);
    ConditionShape(e.condition, g0, waiting + {n, n + 1}, n, n + 1, nulls);
    ConditionQuiet(e.condition, g0, waiting + {n, n + 1}, n, n + 1, nulls);
    AtShape(g1, waiting + {n, n + 1}, n, waiting + {n + 1}, nulls);
    ConditionShape(e.lhs, g1.At(n), waiting + {n + 1}, t, f, nulls);
    ConditionQuiet(e.lhs, g1.At(n), waiting + {n + 1}, t, f, nulls);
    AtShape(g2, waiting + {n + 1}, n + 1, waiting, nulls);
    ConditionQuiet(e.rhs, g2.At(n + 1), waiting, t, f, nulls);
    QuietWider(g.blocks, g0.blocks, {}, {t, f});
    QuietTrans(g.blocks, g0.blocks, g1.blocks, {t, f}, {n, n + 1});
    QuietTrans(g.blocks, g1.blocks, g2.blocks, {t, f}, {t, f});
    QuietTrans(g.blocks, g2.blocks, Condition(e, g, t, f).blocks, {t, f}, {t, f});
  }
}
