module SccpMissed {
  /** A whole run of the pass, on a function that the compiler makes, which misses a
      reachable block: an unconditional branch reaches it when its turn has passed. */

  import opened Ir
  import opened Options
  import opened Ast
  import opened Creator
  import opened Codegen
  import Continuations
  import JumpTargets
  import opened Lattice
  import opened SccpSound
  import opened SccpRun
  import opened SccpPass
  import opened Ssa
  import opened SccpEnds
  import opened SccpExit

  const CHOICE := Selection(Constant(1), Labeled("a", Expression(None)), None)
  const LAST := Labeled("b", Expression(None))

  /** `if (1) a: ; b: ;` */
  const SOURCE := Function([], Compound([CHOICE, LAST]), false)

  const CODE: seq<Op> := [
    Br(1), ICmp(NE, Const(1), Const(0)), CondBr(Reg(1), 2, 3), Br(5), Br(4), Br(4), Br(6), Ret(Const(0))]

  function At(k: nat): Instr
    requires k < 8
  {
    Instr(k, CODE[k])
  }

  /** Block 4 is the end of the if, block 6 what label b stands for. */
  function Made(): (g: Graph)
    ensures |g| == 7 && g[0] == [At(0)] && g[1] == [At(1), At(2)] && g[2] == [At(3)] && g[3] == [At(5)]
    ensures g[4] == [At(6)] && g[5] == [At(4)] && g[6] == [At(7)]
  {
    [[At(0)], [At(1), At(2)], [At(3)], [At(5)], [At(6)], [At(4)], [At(7)]]
  }

  // ----- it is what the compiler makes -----

  lemma {:induction false} Head()
    ensures STARTED.Ok()
    ensures var g := IfHead(Constant(1), STARTED);
      && g.blocks == [[At(0)], [At(1), At(2)], [], [], []] && g.cur == 2 && g.next == 3 && g.labels == map[]
  {
    hide Rvalue;
    Code();
    var g1 := IfEntry(STARTED);
    ConditionOfLeaf(Constant(1), g1, 2, 3);
    assert Rvalue(Constant(1), g1) == (g1, Const(1)) by { ConstantRvalue(1, g1); }
    assert [] + [At(0)] == [At(0)] && [] + [At(1)] == [At(1)];
    assert g1.blocks[0] == [At(0)] && g1.blocks[1] == g1.blocks[2] == g1.blocks[3] == g1.blocks[4] == [];
    var g2 := g1.Append(ICmp(NE, Const(1), Const(0)));
    assert g2.blocks[1] == [At(1)];
    var g3 := g2.Append(CondBr(Reg(1), 2, 3));
    assert g3.blocks[1] == [At(1), At(2)];
  }

  lemma Code()
    ensures At(0) == Instr(0, Br(1)) && At(1) == Instr(1, ICmp(NE, Const(1), Const(0)))
    ensures At(2) == Instr(2, CondBr(Reg(1), 2, 3)) && At(3) == Instr(3, Br(5)) && At(4) == Instr(4, Br(4))
    ensures At(5) == Instr(5, Br(4)) && At(6) == Instr(6, Br(6)) && At(7) == Instr(7, Ret(Const(0)))
  {
  }

  lemma {:induction false} ConstantRvalue(v: i32, g: Gen)
    requires g.Ok()
    ensures Rvalue(Constant(v), g) == (g, Const(v))
  {
  }

  lemma {:induction false} LabelHere(l: string, g: Gen)
    requires g.Ok() && l !in g.labels
    ensures var n, g' := |g.blocks|, Emit(Labeled(l, Expression(None)), g);
      && g'.blocks == g.blocks[g.cur := g.blocks[g.cur] + [Instr(g.next, Br(n))]] + [[]]
      && g'.cur == n && g'.next == g.next + 1 && g'.labels == g.labels[l := n]
  {
    hide Emit;
    EmitLabeledIs(Labeled(l, Expression(None)), g);
    EmitSimpleIs(Expression(None), g.Jump(l).AtLabel(l));
    var g1 := g.WithLabel(l);
    assert g1.blocks == g.blocks + [[]];
  }

  lemma {:induction false} SourceIsMade()
    ensures EmitFunction(SOURCE).blocks == Made()
  {
    hide Emit, EmitAll, EmitElse, IfHead, At;
    Code();
    var g := STARTED;
    Head();
    var g1 := IfHead(Constant(1), g);
    LabelHere("a", g1);
    var g2 := Emit(CHOICE.ifStatement, g1).Append(Br(4));
    EmitSelectionIs(CHOICE, g);
    EmitElseIs(None, g2, 3);
    assert [] + [At(3)] == [At(3)] && [] + [At(4)] == [At(4)] && [] + [At(5)] == [At(5)] && [] + [At(6)] == [At(6)];
    assert g2.blocks == [[At(0)], [At(1), At(2)], [At(3)], [], [], [At(4)]];
    var g3 := Emit(CHOICE, g);
    assert g3 == g2.At(3).Append(Br(4)).At(4);
    assert g3.blocks == [[At(0)], [At(1), At(2)], [At(3)], [At(5)], [], [At(4)]];
    LabelHere("b", g3);
    var g4 := Emit(LAST, g3);
    assert g4.blocks == [[At(0)], [At(1), At(2)], [At(3)], [At(5)], [At(6)], [At(4)], []];
    EmitSimpleIs(SOURCE.body, g);
    Continuations.EmitAllIs([CHOICE, LAST], g);
    assert [CHOICE, LAST][1..] == [LAST] && [LAST][1..] == [];
    Continuations.EmitAllIs([LAST], g3);
    JumpTargets.EmitNothing(g4);
    assert BodyStart(SOURCE) == g;
    assert EmitFunction(SOURCE) == Finish(false, g4) && g4.cur == 6 && g4.next == 7;
    assert !EndsBlock(g4.blocks[6]) && [] + [At(7)] == [At(7)];
    assert EmitFunction(SOURCE) == g4.Append(Ret(Const(0)));
  }

  // ----- the run of the pass -----

  lemma {:induction false} OfMade(b: nat, i: Instr)
    requires b < 7 && i in Made()[b]
    ensures i.id < 8 && i == At(i.id) && Readable(i.op)
    ensures forall t <- Successors(i.op) :: 0 <= t < 7
  {
  }

  lemma {:induction false} MadeReady()
    ensures Ready(Made()) && Inside(Made(), Initial(Made()))
  {
    hide Inside, Initial, Made, At, Readable, Successors;
    InitialInside(Made());
    forall b, i | 0 <= b < |Made()| && i in Made()[b]
      ensures i.id < 8 && i == At(i.id) && Readable(i.op)
      ensures forall t <- Successors(i.op) :: 0 <= t < |Made()|
    {
      OfMade(b, i);
    }
    assert DistinctIds(Made()) by {
      forall b, i | b in Made() && i in b
        ensures i.id < 8 && i == At(i.id)
      {
        var k :| 0 <= k < |Made()| && Made()[k] == b;
      }
    }
  }

  /** The entries of the comparison and of its branch. */
  const T: Table := map[1 := Known(1), 2 := Known(1)]

  lemma {:induction false} NotUsed(id: nat, b: nat)
    requires id != 1 && b <= 7
    ensures Uses(Made(), b, id) == []
    decreases 7 - b
  {
    if b < 7 {
      NotUsed(id, b + 1);
      NotUsedIn(id, b);
    }
  }

  lemma {:induction false} NotUsedIn(id: nat, b: nat)
    requires id != 1 && b < 7
    ensures UsesIn(Made()[b], b, id) == []
  {
    if b == 1 {
      assert Made()[1][1..] == [At(2)] && [At(2)][1..] == [];
      assert UsesIn([], b, id) == [] && UsesIn([At(2)], b, id) == [];
    } else {
      assert Made()[b] == [Made()[b][0]] && Made()[b][1..] == [];
    }
  }

  /** A block that only branches marks its target, and queues nothing. */
  lemma {:induction false} Jumps(b: nat, s: Tables)
    requires b in {0, 2, 3, 4, 5} && !s.failed
    ensures VisitAll(Made(), Made()[b], s) == s.(live := s.live + {Made()[b][0].op.target})
  {
    hide Uses;
    assert Made()[b] == [Made()[b][0]] && Made()[b][1..] == [];
    NotUsed(Made()[b][0].id, 0);
    NoneReachable(s.live);
    assert s.queue + [] == s.queue;
  }

  lemma {:induction false} Decides(s: Tables)
    requires s.t == map[] && s.live == {0, 1} && !s.failed
    ensures VisitAll(Made(), Made()[1], s) == Tables(T, {0, 1, 2}, s.queue + [2], false)
  {
    hide Uses;
    assert Made()[1][1..] == [At(2)] && [At(2)][1..] == [];
    var s1 := Visit(Made(), At(1), s);
    assert s1 == s.(t := map[1 := Known(1)]);
    assert map[1 := Known(1)][2 := Known(1)] == T && {0, 1} + {2} == {0, 1, 2};
    var s2 := Visit(Made(), At(2), s1);
    assert s2 == Tables(T, {0, 1, 2}, s.queue + [2], false);
    assert VisitAll(Made(), [At(2)], s1) == VisitAll(Made(), [], s2) == s2;
  }

  lemma {:induction false} Dropped(s: Tables, n: nat)
    requires Ready(Made()) && Inside(Made(), s) && n > 0 && !s.failed && s.queue != [] && s.queue[0] !in s.live
    ensures Inside(Made(), s.(queue := s.queue[1..])) && Rounds(Made(), s, n) == Rounds(Made(), s.(queue := s.queue[1..]), n)
  {
    RoundIs(Made(), s, n);
  }

  lemma {:induction false} Taken(s: Tables, b: BlockRef, queue: seq<BlockRef>, s': Tables, n: nat)
    requires Ready(Made()) && Inside(Made(), s) && n > 0 && !s.failed && s.queue == [b] + queue && b in s.live
    requires 0 <= b < 7 && VisitAll(Made(), Made()[b], s.(queue := queue)) == s'
    ensures Inside(Made(), s') && Rounds(Made(), s, n) == Rounds(Made(), s', n - 1)
  {
    hide VisitAll, Ready, Inside, Made, Rounds;
    assert s.queue[0] == b && s.queue[1..] == queue;
    RoundIs(Made(), s, n);
  }

  const LIVE: set<BlockRef> := {0, 1, 2, 4, 5}

  /** The pass stops after five blocks; block 4 is reachable and was not taken. */
  lemma {:induction false} MissedRun()
    ensures Ready(Made()) && Inside(Made(), Initial(Made()))
    ensures Rounds(Made(), Initial(Made()), 5) == Tables(T, LIVE, [], false)
  {
    hide VisitAll, Ready, Inside, Made, Rounds;
    MadeReady();
    var s0 := Initial(Made());
    assert s0 == Tables(map[], {0}, [0, 1, 2, 3, 4, 5, 6], false);
    Jumps(0, s0.(queue := [1, 2, 3, 4, 5, 6]));
    var s1 := Tables(map[], {0, 1}, [1, 2, 3, 4, 5, 6], false);
    Taken(s0, 0, [1, 2, 3, 4, 5, 6], s1, 5);
    Decides(s1.(queue := [2, 3, 4, 5, 6]));
    var s2 := Tables(T, {0, 1, 2}, [2, 3, 4, 5, 6, 2], false);
    Taken(s1, 1, [2, 3, 4, 5, 6], s2, 4);
    Jumps(2, s2.(queue := [3, 4, 5, 6, 2]));
    var s3 := Tables(T, {0, 1, 2, 5}, [3, 4, 5, 6, 2], false);
    Taken(s2, 2, [3, 4, 5, 6, 2], s3, 3);
    MissedRunEnds(s3);
  }

  lemma {:induction false} MissedRunEnds(s3: Tables)
    requires Ready(Made()) && Inside(Made(), s3) && s3 == Tables(T, {0, 1, 2, 5}, [3, 4, 5, 6, 2], false)
    ensures Rounds(Made(), s3, 2) == Tables(T, LIVE, [], false)
  {
    hide VisitAll, Ready, Inside, Made, Rounds;
    Dropped(s3, 2);
    var s4 := s3.(queue := [4, 5, 6, 2]);
    assert s3.queue[1..] == s4.queue;
    Dropped(s4, 2);
    var s5 := s3.(queue := [5, 6, 2]);
    assert s4.queue[1..] == s5.queue;
    Jumps(5, s5.(queue := [6, 2]));
    var s6 := Tables(T, LIVE, [6, 2], false);
    Taken(s5, 5, [6, 2], s6, 2);
    Dropped(s6, 1);
    var s7 := s6.(queue := [2]);
    assert s6.queue[1..] == s7.queue;
    Jumps(2, s6.(queue := []));
    var s8 := s6.(queue := []);
    assert LIVE + {5} == LIVE;
    Taken(s7, 2, [], s8, 1);
    NoRounds(Made(), s8);
  }

  // ----- what follows from it -----

  lemma {:induction false} FoldedMade()
    ensures var g' := Fold(Made(), T, LIVE);
      && g'[0] == [At(0)] && g'[1] == [Instr(2, Br(2))] && g'[2] == [At(3)] && g'[4] == [At(6)] && g'[5] == [At(4)]
      && g'[6] == []
  {
    assert FoldInstrs([], T, LIVE) == [];
    forall b | b in {0, 2, 4, 5}
      ensures FoldInstrs(Made()[b], T, LIVE) == Made()[b]
    {
      assert Made()[b] == [Made()[b][0]] && Made()[b][1..] == [];
      assert FoldInstrs(Made()[b], T, LIVE) == [Made()[b][0]] + [];
    }
    assert Made()[1][1..] == [At(2)] && [At(2)][1..] == [];
    assert FoldInstrs([At(2)], T, LIVE) == [Instr(2, Br(2))] + [];
    assert FoldInstrs(Made()[1], T, LIVE) == [] + [Instr(2, Br(2))];
  }

  lemma {:induction false} MadeReturns(args: seq<i32>, w: World)
    ensures Finishes(Made(), Start(Made(), args, w), Some(0), w)
  {
    var g := Made();
    var c0 := Start(g, args, w);
    var c1 := Step(g, c0);
    assert c1.Running? && c1.rest == [At(1), At(2)];
    var c2 := Step(g, c1);
    assert c2.Running? && c2.rest == [At(2)] && 1 in c2.regs && c2.regs[1] == 1;
    var c3 := Step(g, c2);
    assert c3.Running? && c3.rest == [At(3)];
    var c4 := Step(g, c3);
    assert c4.Running? && c4.rest == [At(4)];
    var c5 := Step(g, c4);
    assert c5.Running? && c5.rest == [At(6)];
    var c6 := Step(g, c5);
    assert c6.Running? && c6.rest == [At(7)];
    assert Step(g, c6) == Halted(Some(0), w);
    hide Step;
    assert Run(g, c6, 1) == Run(g, Step(g, c6), 0);
    assert Run(g, c4, 3) == Run(g, c5, 2) == Run(g, c6, 1);
    assert Run(g, c2, 5) == Run(g, c3, 4) == Run(g, c4, 3);
    assert Run(g, c0, 7) == Run(g, c1, 6) == Run(g, c2, 5);
  }

  lemma {:induction false} FoldedIsStuck(args: seq<i32>, w: World)
    ensures var g' := Fold(Made(), T, LIVE); Run(g', Start(g', args, w), 6) == Stuck
  {
    hide Fold, Made;
    FoldedMade();
    var g' := Fold(Made(), T, LIVE);
    var c0 := Start(g', args, w);
    var c1 := Step(g', c0);
    assert c1.Running? && c1.rest == [Instr(2, Br(2))];
    var c2 := Step(g', c1);
    assert c2.Running? && c2.rest == [At(3)];
    var c3 := Step(g', c2);
    assert c3.Running? && c3.rest == [At(4)];
    var c4 := Step(g', c3);
    assert c4.Running? && c4.rest == [At(6)];
    var c5 := Step(g', c4);
    assert c5.Running? && c5.rest == [];
    assert Step(g', c5) == Stuck;
    hide Step;
    assert Run(g', c5, 1) == Run(g', Step(g', c5), 0);
    assert Run(g', c3, 3) == Run(g', c4, 2) == Run(g', c5, 1);
    assert Run(g', c1, 5) == Run(g', c2, 4) == Run(g', c3, 3);
    assert Run(g', c0, 6) == Run(g', c1, 5);
  }

  /** No 0 is lost and no branch is stale, but a reachable block was not visited: the
      tables that the pass ends with are not settled, and folding by them takes the
      block away that control comes to last. */
  lemma {:induction false} BlockIsMissed(args: seq<i32>, w: World)
    ensures var g := EmitFunction(SOURCE).blocks;
      && Ready(g) && Inside(g, Initial(g))
      && var s := Rounds(g, Initial(g), 5);
        && s.queue == [] && !s.failed && 4 in s.live && !Settled(g, s) && !Closed(g, s.t, s.live)
        && (forall b, i | b in s.live && 0 <= b < |g| && i in g[b] :: !LostZero(i, s) && !StaleBranch(i, s))
        && Finishes(g, Start(g, args, w), Some(0), w)
        && Run(Fold(g, s.t, s.live), Start(Fold(g, s.t, s.live), args, w), 6) == Stuck
  {
    hide EmitFunction, Rounds, Fold, Made, Ready, Inside, Initial, Settled, Closed, LostZero, StaleBranch, Run, Finishes, Start;
    SourceIsMade();
    MissedRun();
    MadeReturns(args, w);
    FoldedIsStuck(args, w);
    NotSettled(Tables(T, LIVE, [], false));
  }

  lemma {:induction false} EndIsNotIdle(s: Tables)
    requires s == Tables(T, LIVE, [], false)
    ensures Readable(At(6).op) && !Unmoved(Made(), At(6), s) && !ClosedAt(At(6), s.t, s.live)
  {
    hide Uses, Made, Reachable;
    Code();
    assert 6 in Visit(Made(), At(6), s).live;
    assert 6 in Targets(At(6).op, s.t);
  }

  lemma {:induction false} NotLost(b: nat, i: Instr, s: Tables)
    requires s == Tables(T, LIVE, [], false) && b < 7 && i in Made()[b]
    ensures !LostZero(i, s) && !StaleBranch(i, s)
  {
    hide Made, Transfer;
    OfMade(b, i);
    assert !i.op.Binary?;
  }

  lemma {:induction false} NotSettled(s: Tables)
    requires s == Tables(T, LIVE, [], false)
    ensures Arithmetical(Made()) && !Settled(Made(), s) && !Closed(Made(), s.t, s.live)
    ensures forall b, i | b in s.live && 0 <= b < |Made()| && i in Made()[b] :: !LostZero(i, s) && !StaleBranch(i, s)
  {
    hide Made, Unmoved, ClosedAt, LostZero, StaleBranch, Inside, Initial, Readable, TargetsInside, DistinctIds, At;
    MadeReady();
    EndIsNotIdle(s);
    assert At(6) in Made()[4];
    forall b, i | b in s.live && 0 <= b < |Made()| && i in Made()[b]
      ensures !LostZero(i, s) && !StaleBranch(i, s)
    {
      NotLost(b, i, s);
    }
  }
}
