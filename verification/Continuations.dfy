/** Where the code of "what is left to do" is in the finished graph. A
    certificate says, for a continuation, at which stages of the generation its
    parts were emitted. */
module Continuations {
  import opened Ir
  import opened Options
  import opened Ast
  import opened CSemantics
  import opened Creator
  import opened Codegen
  import opened GraphShape
  import opened BodyShape

  /** The blocks held, the labels placed, and whether the break and continue
      points are those of the enclosing loop. */
  datatype Context = Context(held: set<int>, placed: set<string>, ok: bool)

  datatype Cert =
    | CStop
    | CSeq(ctx: Context, rest: Cert)
    | CJoin(end: Gen, rest: Cert)
    | CWhile(ctx: Context, start: Gen, rest: Cert)
    | CDo(ctx: Context, start: Gen, rest: Cert)

  /** A stage of the generation, with the certificate of what follows there. */
  datatype Place = Place(g: Gen, d: Cert, ctx: Context)

  function LoopOf(d: Cert): Cert {
    match d
    case CSeq(_, r) => LoopOf(r)
    case CJoin(_, r) => LoopOf(r)
    case _ => d
  }

  /** The break and continue points are those of the innermost loop, a while. */
  ghost predicate PointsMatch(g: Gen, d: Cert) {
    var l := LoopOf(d);
    l.CWhile? && g.breakPoint == |l.start.blocks| + 2 && g.continuePoint == |l.start.blocks| + 1
  }

  ghost predicate Staged(g: Gen, ctx: Context) {
    Stage(g, ctx.held, ctx.placed, g.cur, true) && Points(g, true, false)
  }

  /** The code of s can be emitted at g. */
  ghost predicate Ready(s: Stmt, g: Gen, d: Cert, ctx: Context) {
    && Staged(g, ctx)
    && UniqueLabels(s) && Labels(s) !! ctx.placed && JumpsPlaced(s, ctx.ok)
    && (ctx.ok ==> PointsMatch(g, d))
  }

  ghost predicate ReadyAll(ss: seq<Stmt>, g: Gen, d: Cert, ctx: Context) {
    && Staged(g, ctx)
    && UniqueLabelsAll(ss) && LabelsAll(ss) !! ctx.placed && JumpsPlacedAll(ss, ctx.ok)
    && (ctx.ok ==> PointsMatch(g, d))
  }

  ghost predicate ReadyBody(b: Stmt, g: Gen, ctx: Context) {
    Staged(g, ctx) && UniqueLabels(b) && Labels(b) !! ctx.placed
  }

  /** In the finished graph, the code of k comes next after g. */
  ghost predicate Follows(d: Cert, k: Kont, g: Gen, fin: Gen, isVoid: bool)
    decreases d
  {
    g.Ok() &&
    match d
    case CStop =>
      k.KStop? && Grows(g.Append(if isVoid then RetVoid else Ret(Const(0))), fin)
    case CSeq(ctx, r) =>
      && k.KSeq? && ReadyAll(k.items, g, r, ctx)
      && Grows(EmitAll(k.items, g), fin) && Follows(r, k.k, EmitAll(k.items, g), fin, isVoid)
    case CJoin(end, r) =>
      && end.Ok() && end.blocks[end.cur] == [] && Grows(end, fin)
      && Grows(g.Append(Br(end.cur)), fin) && Follows(r, k, end, fin, isVoid)
    case CWhile(ctx, start, r) =>
      && k.KWhile? && ReadyBody(k.body, start, ctx) && JumpsPlaced(k.body, true)
      && start.Ok() && g == Emit(k.body, WhileHead(k.condition, start))
      && Grows(Emit(While(k.condition, k.body), start), fin)
      && Follows(r, k.k, Emit(While(k.condition, k.body), start), fin, isVoid)
    case CDo(ctx, start, r) =>
      && k.KDo? && ReadyBody(k.body, start, ctx) && JumpsPlaced(k.body, false)
      && start.Ok() && g == Emit(k.body, start.WithConnectedBlock())
      && Grows(Emit(DoWhile(k.condition, k.body), start), fin)
      && Follows(r, k.k, Emit(DoWhile(k.condition, k.body), start), fin, isVoid)
  }

  /** In the finished graph, the code of s and then that of k begin at p. */
  ghost predicate Placed(s: Stmt, k: Kont, p: Place, fin: Gen, isVoid: bool) {
    && p.g.Ok() && Ready(s, p.g, p.d, p.ctx)
    && Grows(Emit(s, p.g), fin) && Follows(p.d, k, Emit(s, p.g), fin, isVoid)
  }

  // ----- what placing a statement gives -----

  lemma {:induction false} ReadyEmits(s: Stmt, g: Gen, d: Cert, ctx: Context)
    requires Ready(s, g, d, ctx)
    ensures g.Ok() && Emitted(g, Emit(s, g), ctx.held, ctx.placed, s, false, true)
  {
    hide Stage, Shape, Emit, Emitted;
    EmitStage(s, g, ctx.held, ctx.placed, false, true);
  }

  lemma {:induction false} BodyEmits(b: Stmt, g: Gen, ctx: Context)
    requires ReadyBody(b, g, ctx)
    ensures g.Ok() && Emitted(g, Emit(b, g), ctx.held, ctx.placed, b, false, true)
  {
    hide Stage, Shape, Emit, Emitted;
    EmitStage(b, g, ctx.held, ctx.placed, false, true);
  }

  function Held(ctx: Context, more: set<int>): Context { ctx.(held := ctx.held + more) }

  // ----- into a compound statement -----

  lemma {:induction false} InCompound(s: Stmt, k: Kont, p: Place, fin: Gen, isVoid: bool)
    requires s.Compound? && Placed(s, k, p, fin, isVoid)
    ensures Follows(CSeq(p.ctx, p.d), KSeq(s.items, k), p.g, fin, isVoid)
  {
    hide Staged, Emit, EmitAll, Grows, PointsMatch;
    EmitSimpleIs(s, p.g);
  }

  function AfterFirst(ctx: Context, s: Stmt): Context {
    Context(ctx.held, ctx.placed + Labels(s), ctx.ok && !HasLoop(s))
  }

  /** The first statement of a sequence, and then the others. */
  lemma {:induction false} InSequence(k: Kont, g: Gen, d: Cert, fin: Gen, isVoid: bool)
    requires k.KSeq? && k.items != [] && d.CSeq? && Follows(d, k, g, fin, isVoid)
    ensures var s := k.items[0];
      Placed(s, KSeq(k.items[1..], k.k), Place(g, CSeq(AfterFirst(d.ctx, s), d.rest), d.ctx), fin, isVoid)
  {
    hide Stage, Shape, Grows, Emit, EmitAll, Gen.Ok, Points;
    var s, rest := k.items[0], k.items[1..];
    var d1 := CSeq(AfterFirst(d.ctx, s), d.rest);
    SameLoop(d1, d.rest, g);
    ReadyEmits(s, g, d1, d.ctx);
    var g1 := Emit(s, g);
    EmitAllIs(k.items, g);
    PointsWeaken(g1, HasLoop(s));
    EmitAllStage(rest, g1, d.ctx.held, d.ctx.placed + Labels(s), false, true);
    GrowsTrans(g1, EmitAll(rest, g1), fin);
  }

  lemma {:induction false} EmitAllIs(ss: seq<Stmt>, g: Gen)
    requires g.Ok() && ss != []
    ensures EmitAll(ss, g) == EmitAll(ss[1..], Emit(ss[0], g))
  {
    hide Emit;
  }

  lemma {:induction false} PointsWeaken(g: Gen, isSet: bool)
    requires Points(g, true, isSet)
    ensures Points(g, true, false)
  {
  }

  lemma {:induction false} SameLoop(d: Cert, r: Cert, g: Gen)
    requires LoopOf(d) == LoopOf(r)
    ensures PointsMatch(g, d) == PointsMatch(g, r)
  {
  }

  // ----- into a labelled statement -----

  lemma {:induction false} InLabeled(s: Stmt, k: Kont, p: Place, fin: Gen, isVoid: bool)
    requires s.Labeled? && Placed(s, k, p, fin, isVoid)
    ensures var g1 := p.g.Jump(s.name).AtLabel(s.name);
      && Placed(s.statement, k, Place(g1, p.d, p.ctx.(placed := p.ctx.placed + {s.name})), fin, isVoid)
      && g1.blocks[g1.cur] == [] && s.name in fin.labels && g1.cur == fin.labels[s.name]
      && Grows(p.g.Jump(s.name), fin) && Grows(p.g, fin)
  {
    hide Shape, Grows, Emit, EmitAll, Gen.Ok, Gen.Jump;
    var l := s.name;
    var g0 := p.g.Jump(l);
    EmitLabeledIs(s, p.g);
    JumpLabelStage(p.g, p.ctx.held, p.ctx.placed, l, true);
    PlaceStage(g0, p.ctx.held, p.ctx.placed, l, true);
    var g1 := g0.AtLabel(l);
    EmitStage(s.statement, g1, p.ctx.held, p.ctx.placed + {l}, false, true);
    GrowsTrans(g1, Emit(s, p.g), fin);
    GrowsRefl(g0);
    GrowsLabel(g1, l, fin);
    GrowsFrom(g0, g0.labels[l], fin);
    GrowsTrans(p.g, g0, fin);
  }

  lemma {:induction false} GrowsLabel(g: Gen, l: string, fin: Gen)
    requires Grows(g, fin) && l in g.labels
    ensures l in fin.labels && fin.labels[l] == g.labels[l]
  {
  }

  lemma {:induction false} GrowsFrom(g: Gen, b: nat, fin: Gen)
    requires b < |g.blocks| && Grows(g.At(b), fin)
    ensures Grows(g, fin)
  {
  }

  // ----- into the arms of an if -----

  /** How the parts of an if lie in its code. */
  lemma {:induction false} SelectionParts(s: Stmt, g: Gen, d: Cert, ctx: Context)
    requires s.Selection? && Ready(s, g, d, ctx)
    ensures g.Ok()
    ensures var n := |g.blocks|;
      var held := ctx.held + {n + 3} + {n + 2};
      var g1 := IfHead(s.condition, g);
      var g2 := Emit(s.ifStatement, g1);
      var end := Emit(s, g);
      && Stage(g1, held, ctx.placed, n + 1, true) && n + 2 !in ctx.held && n + 3 !in ctx.held
      && Builds(g, g1) && g1.cur == n + 1 && g1.blocks[n + 1] == []
      && Emitted(g1, g2, held, ctx.placed, s.ifStatement, false, true)
      && g2.cur < |g2.blocks| && Grows(g2, end) && Grows(g2.Append(Br(n + 3)), end)
      && end.cur == n + 3 && end.blocks[n + 3] == []
      && end == EmitElse(s.elseStatement, g2.Append(Br(n + 3)), n + 2)
      && (s.elseStatement.Some? ==>
            Grows(Emit(s.elseStatement.value, g2.Append(Br(n + 3)).At(n + 2)).Append(Br(n + 3)), end))
  {
    hide Shape, Stage, Grows, Emit, EmitAll, EmitElse, Gen.Ok, Gen.Append, IfHead, PointsMatch, Rvalue, Condition;
    var Selection(c, a, b) := s;
    var n := |g.blocks|;
    IfHeadStage(c, g, ctx.held, ctx.placed, true);
    var g1 := IfHead(c, g);
    PointsLater(g, g1, true, false);
    EmitStage(a, g1, ctx.held + {n + 3} + {n + 2}, ctx.placed, false, true);
    EmitSelectionIs(s, g);
    ElseStage(b, Emit(a, g1), n + 2, ctx.held, ctx.placed + Labels(a), HasLoop(a), true);
  }

  lemma {:induction false} InThen(s: Stmt, k: Kont, p: Place, fin: Gen, isVoid: bool)
    requires s.Selection? && Placed(s, k, p, fin, isVoid)
    ensures var n := |p.g.blocks|;
      && Placed(s.ifStatement, k, Place(IfHead(s.condition, p.g), CJoin(Emit(s, p.g), p.d), Held(p.ctx, {n + 3} + {n + 2})), fin, isVoid)
      && Grows(IfHead(s.condition, p.g), fin) && IfHead(s.condition, p.g).blocks[n + 1] == []
  {
    hide Shape, Stage, Grows, Emit, EmitAll, EmitElse, Gen.Ok, Gen.Append, IfHead, PointsMatch, Rvalue, Condition;
    var g, ctx, n := p.g, p.ctx, |p.g.blocks|;
    assert ctx.held + {n + 3} + {n + 2} == Held(ctx, {n + 3} + {n + 2}).held;
    SelectionParts(s, g, p.d, ctx);
    var g1 := IfHead(s.condition, g);
    PointsLater(g, g1, true, false);
    BuildsMatch(g, g1, p.d);
    var g2 := Emit(s.ifStatement, g1);
    var end := Emit(s, g);
    GrowsTrans(g2.Append(Br(n + 3)), end, fin);
    GrowsTrans(g2, end, fin);
    GrowsTrans(g1, g2, fin);
    SameLoop(CJoin(end, p.d), p.d, g1);
  }

  lemma {:induction false} BuildsMatch(g: Gen, g': Gen, d: Cert)
    requires SamePoints(g, g')
    ensures PointsMatch(g, d) == PointsMatch(g', d)
  {
  }

  /** The alternative: its code, or none, comes after the consequence's. */
  lemma {:induction false} InElse(s: Stmt, k: Kont, p: Place, fin: Gen, isVoid: bool)
    requires s.Selection? && Placed(s, k, p, fin, isVoid)
    ensures p.g.Ok()
    ensures var n := |p.g.blocks|;
      var g2 := Emit(s.ifStatement, IfHead(s.condition, p.g)).Append(Br(n + 3));
      && n + 3 < |g2.blocks| && g2.blocks[n + 2] == [] && Grows(g2, fin)
      && (s.elseStatement.Some? ==>
            Placed(s.elseStatement.value, k,
                   Place(g2.At(n + 2), CJoin(Emit(s, p.g), p.d), AfterFirst(Held(p.ctx, {n + 3}), s.ifStatement)), fin, isVoid))
      && (s.elseStatement.None? ==> Follows(CJoin(Emit(s, p.g), p.d), k, g2.At(n + 2), fin, isVoid))
  {
    hide Shape, Stage, Grows, Emit, EmitAll, EmitElse, Gen.Ok, Gen.Append, IfHead, PointsMatch, Rvalue, Condition;
    var g, ctx, n, a, b := p.g, p.ctx, |p.g.blocks|, s.ifStatement, s.elseStatement;
    var held := ctx.held + {n + 3} + {n + 2};
    var placed := ctx.placed + Labels(a);
    SelectionParts(s, g, p.d, ctx);
    var g1 := IfHead(s.condition, g);
    var g2 := Emit(a, g1);
    var end := Emit(s, g);
    PointsWeaken(g2, HasLoop(a));
    StageShape(g2, held, placed, g2.cur, true);
    WaitingEmpty(g2, held, placed, n + 2, n + 3);
    JumpStage(g2, held, placed, Br(n + 3), true);
    var g3 := g2.Append(Br(n + 3));
    AtStage(g3, held, placed, n + 2, ctx.held + {n + 3}, true);
    PointsLater(g2, g3, true, false);
    GrowsTrans(g3, end, fin);
    SameLoop(CJoin(end, p.d), p.d, g3.At(n + 2));
    StageShape(g3.At(n + 2), ctx.held + {n + 3}, placed, n + 2, true);
    if !HasLoop(a) {
      BuildsMatch(g, g1, p.d);
      BuildsMatch(g1, g2, p.d);
      BuildsMatch(g2, g3.At(n + 2), p.d);
    }
    if b.Some? {
      ElsePlaced(b.value, g3.At(n + 2), Context(ctx.held + {n + 3}, placed, false), end, n + 3, fin);
    } else {
      EmitElseIs(b, g3, n + 2);
      GrowsFromAt(g3.At(n + 2).Append(Br(n + 3)), n + 3, fin);
    }
  }

  lemma {:induction false} ElsePlaced(b: Stmt, g: Gen, ctx: Context, end: Gen, n: nat, fin: Gen)
    requires Staged(g, ctx) && UniqueLabels(b) && Labels(b) !! ctx.placed
    requires g.Ok() && n < |g.blocks| && Grows(Emit(b, g).Append(Br(n)), end) && Grows(end, fin)
    ensures Emit(b, g).Ok() && Emit(b, g).cur < |Emit(b, g).blocks|
    ensures Grows(Emit(b, g), fin) && Grows(Emit(b, g).Append(Br(n)), fin)
  {
    hide Shape, Stage, Grows, Emit, Gen.Ok, Gen.Append;
    BodyEmits(b, g, ctx);
    var g1 := Emit(b, g);
    StageShape(g1, ctx.held, ctx.placed + Labels(b), g1.cur, true);
    GrowsTrans(g1.Append(Br(n)), end, fin);
    JumpStage(g1, ctx.held, ctx.placed + Labels(b), Br(n), true);
    GrowsTrans(g1, g1.Append(Br(n)), fin);
  }

  lemma {:induction false} GrowsFromAt(g: Gen, b: nat, fin: Gen)
    requires b < |g.blocks| && Grows(g.At(b), fin)
    ensures Grows(g, fin)
  {
  }

  /** A held block is still empty after the current one has been closed. */
  lemma {:induction false} WaitingEmpty(g: Gen, held: set<int>, placed: set<string>, b: nat, end: nat)
    requires Stage(g, held, placed, g.cur, true) && b in held && end < |g.blocks|
    ensures b < |g.blocks| && g.cur < |g.blocks| && g.Append(Br(end)).blocks[b] == []
  {
    assert b in held + Pending(g.labels, placed);
  }

  // ----- into the loops -----

  lemma {:induction false} InWhile(s: Stmt, k: Kont, p: Place, fin: Gen, isVoid: bool)
    requires s.While? && Placed(s, k, p, fin, isVoid)
    ensures LoopPlaced(s.condition, s.body, k, p.ctx, p.g, p.d, fin, isVoid)
  {
    hide Staged, Emit, Grows, PointsMatch, Follows;
  }

  /** The parts of a while loop that started at stage g. */
  ghost predicate LoopPlaced(c: Expr, b: Stmt, k: Kont, ctx: Context, g: Gen, d: Cert, fin: Gen, isVoid: bool) {
    && g.Ok() && ReadyBody(b, g, ctx) && JumpsPlaced(b, true)
    && Grows(Emit(While(c, b), g), fin)
    && Follows(d, k, Emit(While(c, b), g), fin, isVoid)
  }

  lemma {:induction false} WhileBody(c: Expr, b: Stmt, k: Kont, ctx: Context, g: Gen, d: Cert, fin: Gen, isVoid: bool)
    requires LoopPlaced(c, b, k, ctx, g, d, fin, isVoid)
    ensures var n := |g.blocks|;
      && Placed(b, KWhile(c, b, k), Place(WhileHead(c, g), CWhile(ctx, g, d), Context(ctx.held + {n + 2}, ctx.placed, true)), fin, isVoid)
      && Grows(WhileHead(c, g), fin)
      && Grows(Emit(b, WhileHead(c, g)).Append(Br(n)), fin)
      && WhileHead(c, g).cur == n + 1 && WhileHead(c, g).blocks[n + 1] == []
      && Emit(While(c, b), g).cur == n + 2 && Emit(While(c, b), g).blocks[n + 2] == []
  {
    hide Shape, Grows, Emit, EmitAll, EmitElse, Gen.Ok, Gen.Append, WhileHead;
    var n := |g.blocks|;
    var s := While(c, b);
    WhileHeadStage(c, g, ctx.held, ctx.placed, true);
    var g1 := WhileHead(c, g);
    PointsWeaken(g1, true);
    EmitWhileIs(s, g);
    EmitStage(b, g1, ctx.held + {n + 2}, ctx.placed, true, true);
    var g2 := Emit(b, g1);
    JumpStage(g2, ctx.held + {n + 2}, ctx.placed + Labels(b), Br(n), true);
    AtStage(g2.Append(Br(n)), ctx.held + {n + 2}, ctx.placed + Labels(b), n + 2, ctx.held, true);
    GrowsFromAt(g2.Append(Br(n)), n + 2, fin);
    GrowsTrans(g2, g2.Append(Br(n)), fin);
    GrowsTrans(g1, g2, fin);
    StageShape(g2, ctx.held + {n + 2}, ctx.placed + Labels(b), g2.cur, true);
  }

  /** The parts of a do loop that started at stage g. */
  ghost predicate DoPlaced(c: Expr, b: Stmt, k: Kont, ctx: Context, g: Gen, d: Cert, fin: Gen, isVoid: bool) {
    && g.Ok() && ReadyBody(b, g, ctx) && JumpsPlaced(b, false)
    && Grows(Emit(DoWhile(c, b), g), fin)
    && Follows(d, k, Emit(DoWhile(c, b), g), fin, isVoid)
  }

  lemma {:induction false} InDo(s: Stmt, k: Kont, p: Place, fin: Gen, isVoid: bool)
    requires s.DoWhile? && Placed(s, k, p, fin, isVoid)
    ensures DoPlaced(s.condition, s.body, k, p.ctx, p.g, p.d, fin, isVoid)
  {
    hide Staged, Emit, Grows, PointsMatch, Follows;
  }

  lemma {:induction false} DoBody(c: Expr, b: Stmt, k: Kont, ctx: Context, g: Gen, d: Cert, fin: Gen, isVoid: bool)
    requires DoPlaced(c, b, k, ctx, g, d, fin, isVoid)
    ensures var g1 := g.WithConnectedBlock();
      && Placed(b, KDo(c, b, k), Place(g1, CDo(ctx, g, d), Context(ctx.held, ctx.placed, false)), fin, isVoid)
      && Grows(g1, fin) && Grows(DoTail(c, Emit(b, g1), |g.blocks|), fin)
  {
    hide Shape, Stage, Grows, Emit, EmitAll, EmitElse, Gen.Ok, Gen.Append, Gen.WithConnectedBlock, DoTail;
    var n := |g.blocks|;
    StageShape(g, ctx.held, ctx.placed, g.cur, true);
    ConnectedStage(g, ctx.held, ctx.placed, true);
    var g1 := g.WithConnectedBlock();
    PointsLater(g, g1, true, false);
    EmitDoIs(DoWhile(c, b), g);
    EmitStage(b, g1, ctx.held, ctx.placed, false, true);
    var g2 := Emit(b, g1);
    DoTailStage(c, g2, n, ctx.held, ctx.placed + Labels(b), true);
    GrowsTrans(g2, DoTail(c, g2, n), fin);
    GrowsTrans(g1, g2, fin);
  }
}
