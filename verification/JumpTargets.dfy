module JumpTargets {
  /** Exactly which breaks and continues reach the loop they belong to, and what
      happens to one that does not. */

  import opened Ir
  import opened Options
  import opened Ast
  import opened CSemantics
  import opened Creator
  import opened Codegen
  import opened GraphShape
  import opened BodyShape
  import opened Continuations
  import opened WellFormed

  /** Every break and continue that s emits from stage g on branches to the exit
      and to the body of the loop it stands in: `exit` and `again` for those not
      inside another loop in s. */
  ghost predicate JumpsAim(s: Stmt, g: Gen, exit: int, again: int)
    requires g.Ok()
    decreases s
  {
    var n := |g.blocks|;
    match s
    case Break => g.breakPoint == exit
    case Continue => g.continuePoint == again
    case Compound(items) => JumpsAimAll(items, g, exit, again)
    case Selection(c, a, b) =>
      && JumpsAim(a, IfHead(c, g), exit, again)
      && (b.Some? ==> JumpsAim(b.value, Emit(a, IfHead(c, g)).Append(Br(n + 3)).At(n + 2), exit, again))
    case While(c, b) => JumpsAim(b, WhileHead(c, g), n + 2, n + 1)
    case DoWhile(c, b) =>
      var g1 := g.WithConnectedBlock();
      JumpsAim(b, g1, |Emit(b, g1).blocks| + 1, n)
    case Labeled(l, t) => JumpsAim(t, g.Jump(l).AtLabel(l), exit, again)
    case _ => true
  }

  ghost predicate JumpsAimAll(ss: seq<Stmt>, g: Gen, exit: int, again: int)
    requires g.Ok()
    decreases ss
  {
    ss == [] || (JumpsAim(ss[0], g, exit, again) && JumpsAimAll(ss[1..], Emit(ss[0], g), exit, again))
  }

  /** Whether the points are those of the loop, and the loop's blocks cannot be
      mistaken for those of a loop inside s: they are older than s, or newer. */
  ghost predicate Aimed(g: Gen, after: nat, exit: int, again: int, ok: bool) {
    && (if ok then g.breakPoint == exit && g.continuePoint == again
        else g.breakPoint != exit && g.continuePoint != again)
    && (exit < |g.blocks| || after <= exit) && again < |g.blocks|
  }

  lemma {:induction false} AimExactlyWhenPlaced(
    s: Stmt, g: Gen, exit: int, again: int, ok: bool, ctx: Context)
    requires ReadyBody(s, g, ctx)
    requires g.Ok() && Aimed(g, |Emit(s, g).blocks|, exit, again, ok)
    ensures JumpsAim(s, g, exit, again) <==> JumpsPlaced(s, ok)
    ensures Aimed(Emit(s, g), |Emit(s, g).blocks|, exit, again, ok && !HasLoop(s))
    decreases s, 1
  {
    hide Stage, Shape, Emit, EmitAll, EmitElse, Gen.Ok, Gen.Append, Gen.Jump, IfHead, WhileHead, Gen.WithConnectedBlock, Grows;
    BodyEmits(s, g, ctx);
    EmittedAims(s, g, exit, again, ok, ctx);
    match s
    case Compound(items) =>
      EmitSimpleIs(s, g);
      AimAllExactlyWhenPlaced(items, g, exit, again, ok, ctx);
    case Selection(c, a, b) => AimInSelection(s, g, exit, again, ok, ctx);
    case While(c, b) =>
      var n := |g.blocks|;
      EmitWhileIs(s, g);
      WhileHeadStage(c, g, ctx.held, ctx.placed, true);
      PointsWeaken(WhileHead(c, g), true);
      AimExactlyWhenPlaced(b, WhileHead(c, g), n + 2, n + 1, true, Context(ctx.held + {n + 2}, ctx.placed, true));
    case DoWhile(c, b) =>
      OkCur(g);
      var g1 := g.WithConnectedBlock();
      ConnectedStage(g, ctx.held, ctx.placed, true);
      PointsLater(g, g1, true, false);
      PointsBelow(g, g1);
      AimExactlyWhenPlaced(b, g1, |Emit(b, g1).blocks| + 1, |g.blocks|, false, ctx);
    case Labeled(l, t) =>
      EmitLabeledIs(s, g);
      JumpLabelStage(g, ctx.held, ctx.placed, l, true);
      PlaceStage(g.Jump(l), ctx.held, ctx.placed, l, true);
      GrowsSize(g, g.Jump(l));
      PointsBelow(g, g.Jump(l));
      AimExactlyWhenPlaced(t, g.Jump(l).AtLabel(l), exit, again, ok, ctx.(placed := ctx.placed + {l}));
    case _ =>
  }

  lemma {:induction false} OkCur(g: Gen)
    requires g.Ok()
    ensures g.cur < |g.blocks|
  {
  }

  lemma {:induction false} GrowsSize(g: Gen, g': Gen)
    requires Grows(g, g')
    ensures |g.blocks| <= |g'.blocks|
  {
  }

  lemma {:induction false} PointsBelow(g: Gen, g': Gen)
    requires Points(g, true, false) && SamePoints(g, g') && |g.blocks| <= |g'.blocks|
    ensures Points(g', true, false) && g'.breakPoint < |g.blocks| && g'.continuePoint < |g.blocks|
  {
  }

  lemma {:induction false} EmittedAims(s: Stmt, g: Gen, exit: int, again: int, ok: bool, ctx: Context)
    requires g.Ok() && Emitted(g, Emit(s, g), ctx.held, ctx.placed, s, false, true)
    requires Aimed(g, |Emit(s, g).blocks|, exit, again, ok)
    ensures Aimed(Emit(s, g), |Emit(s, g).blocks|, exit, again, ok && !HasLoop(s))
  {
    hide Stage, Emit;
  }

  lemma {:induction false} AimAllExactlyWhenPlaced(
    ss: seq<Stmt>, g: Gen, exit: int, again: int, ok: bool, ctx: Context)
    requires Staged(g, ctx) && UniqueLabelsAll(ss) && LabelsAll(ss) !! ctx.placed
    requires g.Ok() && Aimed(g, |EmitAll(ss, g).blocks|, exit, again, ok)
    ensures JumpsAimAll(ss, g, exit, again) <==> JumpsPlacedAll(ss, ok)
    decreases ss, 0
  {
    hide Stage, Shape, Emit, EmitAll, Gen.Ok, Grows;
    if ss != [] {
      EmitAllIs(ss, g);
      BodyEmits(ss[0], g, ctx);
      var g1 := Emit(ss[0], g);
      PointsWeaken(g1, HasLoop(ss[0]));
      AimExactlyWhenPlaced(ss[0], g, exit, again, ok, ctx);
      GrowsSize(g, g1);
      AimAllExactlyWhenPlaced(ss[1..], g1, exit, again, ok && !HasLoop(ss[0]), AfterFirst(ctx, ss[0]));
    }
  }

  lemma {:induction false} AimInSelection(
    s: Stmt, g: Gen, exit: int, again: int, ok: bool, ctx: Context)
    requires s.Selection? && ReadyBody(s, g, ctx)
    requires g.Ok() && Aimed(g, |Emit(s, g).blocks|, exit, again, ok)
    ensures JumpsAim(s, g, exit, again) <==> JumpsPlaced(s, ok)
    decreases s, 0
  {
    hide Stage, Shape, Emit, EmitAll, EmitElse, Gen.Ok, Gen.Append, IfHead, Grows;
    var Selection(c, a, b) := s;
    var n := |g.blocks|;
    var held := ctx.held + {n + 3} + {n + 2};
    IfHeadStage(c, g, ctx.held, ctx.placed, true);
    var g1 := IfHead(c, g);
    PointsLater(g, g1, true, false);
    EmitStage(a, g1, held, ctx.placed, false, true);
    var g2 := Emit(a, g1);
    OkCur(g2);
    GrowsSize(g1, g2);
    EmitSelectionIs(s, g);
    var g3 := g2.Append(Br(n + 3));
    AimExactlyWhenPlaced(a, g1, exit, again, ok, Context(held, ctx.placed, ok));
    if b.Some? {
      JumpStage(g2, held, ctx.placed + Labels(a), Br(n + 3), true);
      AtStage(g3, held, ctx.placed + Labels(a), n + 2, ctx.held + {n + 3}, true);
      PointsWeaken(g2, HasLoop(a));
      PointsLater(g2, g3, true, false);
      EmitElseIs(b, g3, n + 2);
      AimExactlyWhenPlaced(b.value, g3.At(n + 2), exit, again, ok && !HasLoop(a), Context(ctx.held + {n + 3}, ctx.placed + Labels(a), ok));
    }
  }

  /** Stands for the loop around a whole body: there is none. */
  const NO_LOOP := -2

  /** In a function with unique labels, every break and continue branches to its
      own loop if and only if none stands in a do body, or after another loop in
      the same while body, or outside loops. */
  lemma {:induction false} JumpsReachTheirLoopsExactlyWhen(f: Function)
    requires UniqueLabels(f.body)
    ensures JumpsAim(f.body, BodyStart(f), NO_LOOP, NO_LOOP) <==> JumpsPlaced(f.body, false)
  {
    hide Stage, Emit, BodyStart, Grows;
    var g := BodyStart(f);
    BodyStartStage(f);
    WeakenNulls(g, {}, {}, g.cur);
    AimExactlyWhenPlaced(f.body, g, NO_LOOP, NO_LOOP, false, Context({}, {}, false));
  }

  // ----- a break that misses its loop -----

  /** while (1) { while (0) { } break; } */
  const MISSED := Function([], While(Constant(1), Compound([While(Constant(0), Compound([])), Break])), false)

  /** The standard's meaning leaves the loop and falls off the end. */
  lemma {:induction false} MissedReturnsInC(w: World)
    ensures Returns(C11, MISSED, [], w, Some(0), w)
  {
    var inner := While(Constant(0), Compound([]));
    var body := Compound([inner, Break]);
    var k := KWhile(Constant(1), body, KStop);
    var q0 := Call(MISSED, [], w);
    var q1 := Before(body, k, w);
    var q2 := After(KSeq([inner, Break], k), w);
    var q3 := Before(inner, KSeq([Break], k), w);
    var q4 := After(KSeq([Break], k), w);
    var q5 := Before(Break, KSeq([], k), w);
    var q6 := After(KStop, w);
    assert q0 == Before(MISSED.body, KStop, w);
    assert Next(C11, MISSED, q0) == q1;
    assert Next(C11, MISSED, q1) == q2;
    assert [inner, Break][1..] == [Break];
    assert Next(C11, MISSED, q2) == q3;
    assert Next(C11, MISSED, q3) == q4;
    assert [Break][1..] == [];
    assert Next(C11, MISSED, q4) == q5;
    assert Next(C11, MISSED, q5) == q6;
    var done := Done(Some(0), w);
    assert Next(C11, MISSED, q6) == done;
    assert Iterate(C11, MISSED, q4, 3) == done by { assert Iterate(C11, MISSED, q5, 2) == Iterate(C11, MISSED, q6, 1); }
    assert Iterate(C11, MISSED, q2, 5) == done by { assert Iterate(C11, MISSED, q3, 4) == Iterate(C11, MISSED, q4, 3); }
    assert Iterate(C11, MISSED, q0, 7) == done by { assert Iterate(C11, MISSED, q1, 6) == Iterate(C11, MISSED, q2, 5); }
  }

  /** The head of a while whose condition is a constant. */
  lemma {:induction false} ConstantHead(v: i32, g: Gen)
    requires g.Ok()
    ensures var h, g' := |g.blocks|, WhileHead(Constant(v), g);
      && |g'.blocks| == h + 3 && g'.cur == h + 1 && g'.next == g.next + 3
      && g'.breakPoint == h + 2 && g'.continuePoint == h + 1
      && g'.blocks[h] == [Instr(g.next + 1, ICmp(NE, Const(v), Const(0))), Instr(g.next + 2, CondBr(Reg(g.next + 1), h + 1, h + 2))]
      && g'.blocks[h + 1] == [] && g'.blocks[h + 2] == []
      && g'.blocks[g.cur] == g.blocks[g.cur] + [Instr(g.next, Br(h))]
      && forall b :: 0 <= b < h && b != g.cur ==> g'.blocks[b] == g.blocks[b]
  {
    hide Rvalue;
    var g1 := WhileEntry(g);
    ConditionOfLeaf(Constant(v), g1, |g.blocks| + 1, |g.blocks| + 2);
    ConstantRvalue(v, g1);
  }

  lemma {:induction false} ConstantRvalue(v: i32, g: Gen)
    requires g.Ok()
    ensures Rvalue(Constant(v), g) == (g, Const(v))
  {
  }

  /** Where the graph goes round: the break branches to its own block, the exit of
      the inner loop. */
  lemma {:induction false} MissedGraph()
    ensures var G := EmitFunction(MISSED).blocks;
      && |G| == 8
      && G[0] == [Instr(0, Br(1))]
      && G[1] == [Instr(1, ICmp(NE, Const(1), Const(0))), Instr(2, CondBr(Reg(1), 2, 3))]
      && G[2] == [Instr(3, Br(4))]
      && G[4] == [Instr(4, ICmp(NE, Const(0), Const(0))), Instr(5, CondBr(Reg(4), 5, 6))]
      && G[6] == [Instr(7, Br(6))]
  {
    hide Emit, EmitAll, WhileHead;
    var inner := While(Constant(0), Compound([]));
    var g1 := WhileHead(Constant(1), STARTED);
    ConstantHead(1, STARTED);
    var g2 := WhileHead(Constant(0), g1);
    ConstantHead(0, g1);
    EmitWhileIs(inner, g1);
    EmitSimpleIs(Compound([]), g2);
    EmitNothing(g2);
    var g3 := Emit(inner, g1);
    assert g3 == g2.Append(Br(4)).At(6);
    EmitSimpleIs(Break, g3);
    var g4 := Emit(Break, g3);
    EmitNothing(g4);
    EmitSimpleIs(Compound([inner, Break]), g1);
    EmitAllIs([inner, Break], g1);
    assert [inner, Break][1..] == [Break];
    EmitAllIs([Break], g3);
    assert [Break][1..] == [];
    EmitWhileIs(MISSED.body, STARTED);
    assert BodyStart(MISSED) == STARTED;
    assert Emit(MISSED.body, STARTED) == g4.Append(Br(1)).At(3);
  }

  lemma {:induction false} EmitNothing(g: Gen)
    requires g.Ok()
    ensures EmitAll([], g) == g
  {
  }

  /** The compiled program runs for ever. */
  lemma {:induction false} MissedDivergesAsBuilt(w: World)
    ensures |EmitFunction(MISSED).blocks| > 0
    ensures var G := EmitFunction(MISSED).blocks;
      Diverges(G, Start(G, [], w))
  {
    hide EmitFunction, Run;
    MissedGraph();
    var G := EmitFunction(MISSED).blocks;
    var c0 := Start(G, [], w);
    var c1 := Step(G, c0);
    var c3 := Step(G, Step(G, c1));
    assert c3.blk == 2;
    var c4 := Step(G, c3);
    var c6 := Step(G, Step(G, c4));
    assert c6.Running? && c6.blk == 6 && c6.rest == G[6];
    forall k: nat
      ensures Run(G, c0, k).Running?
    {
      MissedSteps(G, c0, c6, k);
    }
  }

  lemma {:induction false} MissedSteps(G: Graph, c0: Config, c6: Config, k: nat)
    requires |G| == 8 && G[6] == [Instr(7, Br(6))]
    requires c6 == Step(G, Step(G, Step(G, Step(G, Step(G, Step(G, c0)))))) && c6.Running? && c6.blk == 6 && c6.rest == G[6]
    ensures Run(G, c0, k).Running?
  {
    hide Step;
    SixSteps(G, c0);
    if k < 6 {
      RunAdd(G, c0, k, 6 - k);
      if !Run(G, c0, k).Running? {
        RunHalted(G, Run(G, c0, k), 6 - k);
      }
    } else {
      RunAdd(G, c0, 6, k - 6);
      SpinsInPlace(G, c6, k - 6);
    }
  }

  lemma {:induction false} SixSteps(G: Graph, c: Config)
    ensures Run(G, c, 6) == Step(G, Step(G, Step(G, Step(G, Step(G, Step(G, c))))))
  {
    hide Step;
    var c1 := Step(G, c);
    var c2 := Step(G, c1);
    var c3 := Step(G, c2);
    assert Run(G, c, 6) == Run(G, c1, 5) == Run(G, c2, 4) == Run(G, c3, 3);
    var c4 := Step(G, c3);
    var c5 := Step(G, c4);
    assert Run(G, c3, 3) == Run(G, c4, 2) == Run(G, c5, 1) == Run(G, Step(G, c5), 0);
  }

  lemma {:induction false} SpinsInPlace(G: Graph, c: Config, k: nat)
    requires |G| == 8 && G[6] == [Instr(7, Br(6))]
    requires c.Running? && c.blk == 6 && c.rest == G[6]
    ensures Run(G, c, k).Running?
    decreases k
  {
    if k > 0 {
      SpinsInPlace(G, Step(G, c), k - 1);
    }
  }
}
