module DeadCycle {
  /** A function that the compiler makes whose dead blocks cannot all be deleted. */

  import opened Ir
  import opened Options
  import opened Ast
  import opened Creator
  import opened Codegen
  import Continuations
  import JumpTargets
  import BranchRanks
  import BodyShape
  import Faithful
  import opened Lattice
  import opened SccpSound
  import opened SccpRun
  import opened SccpPass
  import opened SccpExit
  import opened Ssa
  import opened DeadChains
  import DeadBlocks

  const BODY := Selection(Constant(1), Expression(None), None)
  const LOOP := While(Constant(1), BODY)

  /** `return 0; while (1) if (1) ;` */
  const SOURCE := Function([], Compound([Return(Some(Constant(0))), LOOP]), false)

  const CODE: seq<Op> := [
    Ret(Const(0)), Br(2), ICmp(NE, Const(1), Const(0)), CondBr(Reg(2), 3, 4), Br(5),
    ICmp(NE, Const(1), Const(0)), CondBr(Reg(5), 6, 7), Br(8), Br(8), Br(2), Ret(Const(0))]

  function At(k: nat): Instr
    requires k < 11
  {
    Instr(k, CODE[k])
  }

  /** Block 2 is the head of the loop, block 5 that of the if in it. */
  function Made(): (g: Graph)
    ensures |g| == 9 && g[0] == [At(0)] && g[1] == [At(1)] && g[2] == [At(2), At(3)] && g[3] == [At(4)] && g[4] == [At(10)]
    ensures g[5] == [At(5), At(6)] && g[6] == [At(7)] && g[7] == [At(8)] && g[8] == [At(9)]
  {
    [[At(0)], [At(1)], [At(2), At(3)], [At(4)], [At(10)], [At(5), At(6)], [At(7)], [At(8)], [At(9)]]
  }

  // ----- it is what the compiler makes -----

  lemma Code()
    ensures At(0) == Instr(0, Ret(Const(0))) && At(1) == Instr(1, Br(2)) && At(2) == Instr(2, ICmp(NE, Const(1), Const(0)))
    ensures At(3) == Instr(3, CondBr(Reg(2), 3, 4)) && At(4) == Instr(4, Br(5)) && At(5) == Instr(5, ICmp(NE, Const(1), Const(0)))
    ensures At(6) == Instr(6, CondBr(Reg(5), 6, 7)) && At(7) == Instr(7, Br(8)) && At(8) == Instr(8, Br(8))
    ensures At(9) == Instr(9, Br(2)) && At(10) == Instr(10, Ret(Const(0)))
  {
  }

  lemma {:induction false} ConstantRvalue(v: i32, g: Gen)
    requires g.Ok()
    ensures Rvalue(Constant(v), g) == (g, Const(v))
  {
  }

  /** A test of 1 adds the comparison and the branch to the current block. */
  lemma {:induction false} TestOfOne(g: Gen, t: BlockRef, f: BlockRef)
    requires g.Ok()
    ensures Condition(Constant(1), g, t, f)
      == g.(blocks := g.blocks[g.cur := g.blocks[g.cur] + [Instr(g.next, ICmp(NE, Const(1), Const(0))), Instr(g.next + 1, CondBr(Reg(g.next), t, f))]], next := g.next + 2)
  {
    hide Rvalue, Condition;
    ConditionOfLeaf(Constant(1), g, t, f);
    ConstantRvalue(1, g);
    var i, j := Instr(g.next, ICmp(NE, Const(1), Const(0))), Instr(g.next + 1, CondBr(Reg(g.next), t, f));
    assert g.blocks[g.cur] + [i] + [j] == g.blocks[g.cur] + [i, j];
    assert g.blocks[g.cur := g.blocks[g.cur] + [i]][g.cur := g.blocks[g.cur] + [i, j]] == g.blocks[g.cur := g.blocks[g.cur] + [i, j]];
  }

  lemma {:induction false} AfterReturn()
    ensures STARTED.Ok()
    ensures var g := Emit(Return(Some(Constant(0))), STARTED);
      g == STARTED.(blocks := [[At(0)], []], cur := 1, next := 1)
  {
    hide Emit;
    Code();
    EmitSimpleIs(Return(Some(Constant(0))), STARTED);
    ConstantRvalue(0, STARTED);
    assert [] + [At(0)] == [At(0)];
  }

  lemma {:induction false} AfterHead(g: Gen)
    requires g.Ok() && g.blocks == [[At(0)], []] && g.cur == 1 && g.next == 1
    ensures var g' := WhileHead(Constant(1), g);
      g'.blocks == [[At(0)], [At(1)], [At(2), At(3)], [], []] && g'.cur == 3 && g'.next == 4
  {
    Code();
    var g1 := WhileEntry(g);
    assert [] + [At(1)] == [At(1)];
    assert g1.blocks == [[At(0)], [At(1)], [], [], []] && g1.cur == 2 && g1.next == 2;
    TestOfOne(g1, 3, 4);
    assert [] + [At(2), At(3)] == [At(2), At(3)];
  }

  lemma {:induction false} AfterBody(g: Gen)
    requires g.Ok() && g.blocks == [[At(0)], [At(1)], [At(2), At(3)], [], []] && g.cur == 3 && g.next == 4
    ensures var g' := Emit(BODY, g);
      g'.blocks == [[At(0)], [At(1)], [At(2), At(3)], [At(4)], [], [At(5), At(6)], [At(7)], [At(8)], []] && g'.cur == 8 && g'.next == 9
  {
    hide Emit, EmitElse, Condition;
    Code();
    EmitSelectionIs(BODY, g);
    var g1 := IfEntry(g);
    assert [] + [At(4)] == [At(4)];
    assert g1.blocks == [[At(0)], [At(1)], [At(2), At(3)], [At(4)], [], [], [], [], []] && g1.cur == 5 && g1.next == 5;
    TestOfOne(g1, 6, 7);
    assert [] + [At(5), At(6)] == [At(5), At(6)];
    var g2 := IfHead(Constant(1), g);
    assert g2.blocks == [[At(0)], [At(1)], [At(2), At(3)], [At(4)], [], [At(5), At(6)], [], [], []] && g2.cur == 6 && g2.next == 7;
    EmitSimpleIs(Expression(None), g2);
    var g3 := g2.Append(Br(8));
    assert [] + [At(7)] == [At(7)] && [] + [At(8)] == [At(8)];
    assert g3.blocks == [[At(0)], [At(1)], [At(2), At(3)], [At(4)], [], [At(5), At(6)], [At(7)], [], []];
    EmitElseIs(None, g3, 7);
  }

  lemma {:induction false} SourceIsMade()
    ensures EmitFunction(SOURCE).blocks == Made()
  {
    hide Emit, EmitAll, WhileHead, At;
    Code();
    AfterReturn();
    var g := Emit(Return(Some(Constant(0))), STARTED);
    AfterHead(g);
    AfterBody(WhileHead(Constant(1), g));
    EmitWhileIs(LOOP, g);
    var g1 := Emit(LOOP, g);
    assert [] + [At(9)] == [At(9)] && [] + [At(10)] == [At(10)];
    assert g1.blocks == [[At(0)], [At(1)], [At(2), At(3)], [At(4)], [], [At(5), At(6)], [At(7)], [At(8)], [At(9)]];
    assert g1.cur == 4 && g1.next == 10;
    EmitSimpleIs(SOURCE.body, STARTED);
    var items := [Return(Some(Constant(0))), LOOP];
    Continuations.EmitAllIs(items, STARTED);
    assert items[1..] == [LOOP] && [LOOP][1..] == [];
    Continuations.EmitAllIs([LOOP], g);
    JumpTargets.EmitNothing(g1);
    assert BodyStart(SOURCE) == STARTED;
    assert EmitFunction(SOURCE) == Finish(false, g1);
    assert EmitFunction(SOURCE) == g1.Append(Ret(Const(0)));
  }

  // ----- what the pass does to it -----

  /** The pass reaches the entry block only. */
  lemma {:induction false} OnlyEntryIsLive()
    ensures var g := EmitFunction(SOURCE).blocks;
      && Ready(g) && Inside(g, Initial(g))
      && Rounds(g, Initial(g), 2) == Tables(map[0 := Top], {0}, [], false)
  {
    hide EmitFunction, Rounds, Ready, Inside, Made, VisitAll, Initial, BranchesLast, Unshared, UsesFit;
    SourceFits();
    BranchRanks.FunctionIsReady(SOURCE);
    SourceIsMade();
    var g := Made();
    InitialInside(g);
    InitialOfMade();
    RoundIs(g, Initial(g), 2);
    var s := Tables(map[], {0}, [1, 2, 3, 4, 5, 6, 7, 8], false);
    Returns(s);
    DeadDropped(g, s.(t := map[0 := Top]), 1);
  }

  lemma {:induction false} InitialOfMade()
    ensures var s := Initial(Made());
      && s.t == map[] && s.live == {0} && !s.failed && s.queue != [] && s.queue[0] == 0
      && s.queue[1..] == [1, 2, 3, 4, 5, 6, 7, 8]
  {
  }

  lemma {:induction false} GotosOfTwo(a: Stmt, b: Stmt)
    ensures GotosAll([a, b]) == Gotos(a) + Gotos(b)
  {
    assert [a, b][1..] == [b] && [b][1..] == [];
    assert GotosAll([b]) == Gotos(b) + {};
  }

  lemma {:induction false} SourceFits()
    ensures UniqueLabels(SOURCE.body) && Gotos(SOURCE.body) <= Labels(SOURCE.body)
    ensures BodyShape.JumpsLand(SOURCE.body, false) && Faithful.TestsOnly(SOURCE.body)
  {
    var items := [Return(Some(Constant(0))), LOOP];
    assert items[1..] == [LOOP] && [LOOP][1..] == [];
    assert Labels(BODY) == {} && Gotos(BODY) == {} && UniqueLabels(BODY);
    assert Labels(LOOP) == {} && Gotos(LOOP) == {} && UniqueLabels(LOOP);
    assert LabelsAll([LOOP]) == {} && UniqueLabelsAll([LOOP]);
    assert LabelsAll(items) == {};
    GotosOfTwo(Return(Some(Constant(0))), LOOP);
    assert BodyShape.JumpsLand(BODY, true) && BodyShape.JumpsLand(LOOP, false) && BodyShape.JumpsLandAll([LOOP], false);
    assert BodyShape.JumpsLandAll(items, false);
    assert Faithful.TestsOnly(BODY) && Faithful.TestsOnly(LOOP) && Faithful.TestsOnlyAll([LOOP]);
    assert Faithful.TestsOnlyAll(items);
  }

  lemma {:induction false} Returns(s: Tables)
    requires s.t == map[] && !s.failed
    ensures forall i <- Made()[0] :: Readable(i.op)
    ensures VisitAll(Made(), Made()[0], s) == s.(t := map[0 := Top])
  {
    assert Made()[0][1..] == [];
    var s1 := Visit(Made(), At(0), s);
    assert s1 == s.(t := map[0 := Top]);
    assert VisitAll(Made(), Made()[0], s) == VisitAll(Made(), [], s1);
  }

  lemma {:induction false} DeadDropped(g: Graph, s: Tables, n: nat)
    requires Ready(g) && Inside(g, s) && !s.failed && n > 0 && forall b <- s.queue :: b !in s.live
    ensures Inside(g, s.(queue := [])) && Rounds(g, s, n) == s.(queue := [])
    decreases s.queue
  {
    hide Ready, Inside;
    if s.queue == [] {
      assert s.(queue := []) == s;
    } else {
      RoundIs(g, s, n);
      DeadDropped(g, s.(queue := s.queue[1..]), n);
    }
  }

  /** The blocks that a block branches to. */
  function Edges(g: Graph): Cfg {
    map b: nat | b < |g| :: set i, t | i in g[b] && t in Successors(i.op) && 0 <= t :: t as nat
  }

  const DEAD: seq<nat> := [1, 2, 3, 4, 5, 6, 7, 8]

  const CFG: Cfg := map[0 := {}, 1 := {2}, 2 := {3, 4}, 3 := {5}, 4 := {}, 5 := {6, 7}, 6 := {8}, 7 := {8}, 8 := {2}]

  lemma {:induction false} EdgesOfMade()
    ensures Edges(Made()) == CFG
  {
    forall b: nat | b < 9
      ensures Edges(Made())[b] == CFG[b]
    {
      EdgesAt(b);
    }
  }

  lemma {:induction false} EdgesAt(b: nat)
    requires b < 9
    ensures (set i, t | i in Made()[b] && t in Successors(i.op) && 0 <= t :: t as nat) == CFG[b]
  {
    forall t: nat
      ensures t in CFG[b] <==> exists i :: i in Made()[b] && t in Successors(i.op)
    {
      assert Made()[b][|Made()[b]| - 1] in Made()[b];
      assert t in CFG[b] <==> t in Successors(Made()[b][|Made()[b]| - 1].op);
    }
  }

  /** Two heads on one cycle, each with two ways to go, are in no chain. */
  lemma {:induction false} NoChains(g: Cfg, dead: set<nat>, chains: seq<seq<nat>>)
    requires g == CFG && {2, 3, 5, 6, 8} <= dead
    ensures !Chained(g, dead, chains)
    decreases chains
  {
    if chains != [] && IsChain(g, dead, chains[0]) {
      var c := chains[0];
      if {2, 3, 5, 6, 8} * Blocks(c) == {} {
        NoChains(g, dead - Blocks(c), chains[1..]);
      } else {
        assert 2 in Out(g, 8) && 3 in Out(g, 2) && 5 in Out(g, 3) && 6 in Out(g, 5) && 8 in Out(g, 6);
        assert 2 in c && 5 in c;
        TwoWaysIsLast(g, c, 2, 3, 4);
        TwoWaysIsLast(g, c, 5, 6, 7);
        assert false;
      }
    }
  }

  lemma {:induction false} TwoWaysIsLast(g: Cfg, c: seq<nat>, b: nat, x: nat, y: nat)
    requires Linked(g, c) && b in c && x in Out(g, b) && y in Out(g, b) && x != y
    ensures c[|c| - 1] == b
  {
    var i :| 0 <= i < |c| && c[i] == b;
    if i < |c| - 1 {
      Precedes(g, c, i + 1);
      assert false;
    }
  }

  /** In a function that the compiler makes, the loop behind the return stays for ever:
      whatever is deleted and merged first, the assertion that nothing is left fails. */
  lemma {:induction false} CycleStays()
    ensures var g := EmitFunction(SOURCE).blocks;
      && Ready(g) && Inside(g, Initial(g))
      && var s := Rounds(g, Initial(g), 2);
        && s.queue == [] && !s.failed && s.live == {0} && (forall b | 0 <= b < |g| :: b in DEAD <==> b !in s.live)
    ensures var cfg := Edges(EmitFunction(SOURCE).blocks);
      DeadBlocks.Separate(cfg, DEAD) && !Dissolves(cfg, Blocks(DEAD))
  {
    hide EmitFunction, Rounds, Ready, Inside, Edges, Made, Initial;
    SourceIsMade();
    OnlyEntryIsLive();
    EdgesOfMade();
    var cfg := Edges(Made());
    forall chains
      ensures !Chained(cfg, Blocks(DEAD), chains)
    {
      NoChains(cfg, Blocks(DEAD), chains);
    }
  }
}
