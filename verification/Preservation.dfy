module Preservation {
  /** The generated graph does what the function does: it stops with a result and a
      world exactly when the function does, for any body built from the statements
      of the subset, goto and labels included. */

  import opened Ir
  import opened Options
  import opened Ast
  import opened CSemantics
  import opened Creator
  import opened Codegen
  import opened GraphShape
  import opened BodyShape
  import opened Simulation
  import opened Continuations
  import opened WellFormed

  /** The bodies the theorem is about. The parser enforces the first two. */
  ghost predicate Admissible(f: Function) {
    && UniqueLabels(f.body)
    && Gotos(f.body) <= Labels(f.body)
    && JumpsPlaced(f.body, false)
  }

  /** The graph is about to do what the source state is about to do. */
  ghost predicate Match(q: State, c: Config, p: Place, fin: Gen, isVoid: bool) {
    match q
    case Before(s, k, w) => Placed(s, k, p, fin, isVoid) && AtEnd(c, p.g, fin.blocks) && c.w == w
    case After(k, w) => Follows(p.d, k, p.g, fin, isVoid) && AtEnd(c, p.g, fin.blocks) && c.w == w
    case Done(r, w) => c == Halted(r, w)
    case Wrong => false
  }

  lemma {:induction false} GrowsWithin(g: Gen, fin: Gen)
    requires Grows(g, fin)
    ensures Within(g, fin.blocks)
  {
  }

  /** Control arrives at an empty block that becomes current. */
  lemma {:induction false} ArriveAt(c: Config, g: Gen, fin: Gen)
    requires g.cur < |g.blocks| && g.blocks[g.cur] == [] && Grows(g, fin)
    requires AtStart(c, g.cur, fin.blocks)
    ensures AtEnd(c, g, fin.blocks)
  {
  }

  lemma {:induction false} OkCur(g: Gen)
    requires g.Ok()
    ensures g.cur < |g.blocks|
  {
  }

  lemma {:induction false} OneStep(G: Graph, c: Config)
    ensures Run(G, c, 1) == Step(G, c)
  {
    assert Run(G, c, 1) == Run(G, Step(G, c), 0);
  }

  // ----- statements that begin with a branch -----

  /** The branch to a connected block. */
  lemma {:induction false} EnterConnected(c: Config, g: Gen, fin: Gen)
    requires AtEnd(c, g, fin.blocks) && Grows(g.WithConnectedBlock(), fin)
    ensures var c' := Step(fin.blocks, c);
      AtStart(c', |g.blocks|, fin.blocks) && c'.w == c.w
  {
    var g1 := g.WithBlock();
    assert g.WithConnectedBlock() == g1.Append(Br(|g.blocks|)).At(|g.blocks|);
    BlocksAtEnd(c, g, fin.blocks);
    GrowsWithin(g1.Append(Br(|g.blocks|)), fin);
    StepJumps(c, g1, |g.blocks|, fin.blocks);
  }

  /** From an empty entry block, the condition's code decides between two blocks. */
  lemma {:induction false} Decide(e: Expr, g: Gen, ctx: Context, t: nat, f: nat, c: Config, fin: Gen)
    returns (j: nat, c': Config)
    requires Stage(g, ctx.held, ctx.placed, g.cur, true) && t < |g.blocks| && f < |g.blocks|
    requires g.cur < |g.blocks| && g.blocks[g.cur] == [] && AtStart(c, g.cur, fin.blocks)
    requires g.Ok() && Grows(Condition(e, g, t, f), fin)
    ensures var (b, w) := Test(AsBuilt, e, c.w);
      j > 0 && c' == Run(fin.blocks, c, j) && AtStart(c', if b then t else f, fin.blocks) && c'.w == w
  {
    hide Stage, Shape, Grows, Condition, Test, Gen.Ok;
    StageShape(g, ctx.held, ctx.placed, g.cur, true);
    ConditionStage(e, g, ctx.held, ctx.placed, t, f, true);
    GrowsTrans(g, Condition(e, g, t, f), fin);
    ArriveAt(c, g, fin);
    GrowsWithin(Condition(e, g, t, f), fin);
    j, c' := SimCondition(e, g, ctx.held + Pending(g.labels, ctx.placed), true, t, f, fin.blocks, c);
  }

  lemma {:induction false} SimSelection(q: State, c: Config, p: Place, fin: Gen, f: Function)
    returns (j: nat, c': Config, p': Place)
    requires q.Before? && q.s.Selection? && Match(q, c, p, fin, f.isVoid)
    ensures j > 0 && c' == Run(fin.blocks, c, j) && Match(Next(AsBuilt, f, q), c', p', fin, f.isVoid)
  {
    hide Stage, Shape, Grows, Emit, Emitted, Condition, Test, Gen.Ok, IfEntry, IfHead, Follows, Ready, Gen.Append;
    var s, k, g, ctx := q.s, q.k, p.g, p.ctx;
    var n := |g.blocks|;
    InThen(s, k, p, fin, f.isVoid);
    InElse(s, k, p, fin, f.isVoid);
    ReadyStage(s, g, p.d, ctx);
    IfEntryStage(g, ctx.held, ctx.placed, true);
    IfHeadStage(s.condition, g, ctx.held, ctx.placed, true);
    EntriesEmpty(g, 0);
    var entry, head := IfEntry(g), IfHead(s.condition, g);
    var cond := Condition(s.condition, entry, n + 1, n + 2);
    GrowsTrans(cond, head, fin);
    var held := ctx.held + {n + 3} + {n + 2} + {n + 1};
    ConditionStage(s.condition, entry, held, ctx.placed, n + 1, n + 2, true);
    GrowsTrans(entry, cond, fin);
    GrowsTrans(g.WithConnectedBlock(), entry, fin);
    EnterConnected(c, g, fin);
    OneStep(fin.blocks, c);
    var c1 := Step(fin.blocks, c);
    var j2, c2 := Decide(s.condition, entry, Context(held, ctx.placed, false), n + 1, n + 2, c1, fin);
    RunTwo(fin.blocks, c, 1, j2);
    j, c' := 1 + j2, c2;
    if Test(AsBuilt, s.condition, q.w).0 {
      ArriveAt(c2, head, fin);
      p' := Place(head, CJoin(Emit(s, g), p.d), Held(ctx, {n + 3} + {n + 2}));
    } else {
      OkCur(Emit(s.ifStatement, head));
      var g3 := Emit(s.ifStatement, head).Append(Br(n + 3));
      p' := Place(g3.At(n + 2), CJoin(Emit(s, g), p.d), AfterFirst(Held(ctx, {n + 3}), s.ifStatement));
      GrowsTo(g3, n + 2, fin);
      ArriveAt(c2, g3.At(n + 2), fin);
    }
  }

  lemma {:induction false} GrowsTo(g: Gen, b: nat, fin: Gen)
    requires Grows(g, fin) && b < |g.blocks|
    ensures Grows(g.At(b), fin)
  {
  }

  lemma {:induction false} ReadyStage(s: Stmt, g: Gen, d: Cert, ctx: Context)
    requires Ready(s, g, d, ctx)
    ensures Stage(g, ctx.held, ctx.placed, g.cur, true) && g.Ok() && g.cur < |g.blocks|
  {
    StageShape(g, ctx.held, ctx.placed, g.cur, true);
  }

  // ----- loops -----

  /** The header of a while tests, and goes to the body or to what follows. */
  lemma {:induction false} SimWhileTest(
    e: Expr, b: Stmt, k: Kont, ctx: Context, g: Gen, d: Cert, c: Config, fin: Gen, isVoid: bool)
    returns (j: nat, c': Config, p': Place)
    requires LoopPlaced(e, b, k, ctx, g, d, fin, isVoid) && AtStart(c, |g.blocks|, fin.blocks)
    ensures j > 0 && c' == Run(fin.blocks, c, j)
    ensures Match(WhileTest(AsBuilt, e, b, k, c.w), c', p', fin, isVoid)
  {
    hide Stage, Shape, Grows, Emit, Emitted, Condition, Test, Gen.Ok, WhileEntry, WhileHead, Follows, Ready, Gen.Append;
    var n := |g.blocks|;
    WhileBody(e, b, k, ctx, g, d, fin, isVoid);
    WhileEntryStage(g, ctx.held, ctx.placed, true);
    WhileHeadStage(e, g, ctx.held, ctx.placed, true);
    EntriesEmpty(g, 0);
    var entry, head := WhileEntry(g), WhileHead(e, g);
    var cond := Condition(e, entry, n + 1, n + 2);
    GrowsTrans(cond, head, fin);
    j, c' := Decide(e, entry, Context(ctx.held + {n + 2} + {n + 1}, ctx.placed, false), n + 1, n + 2, c, fin);
    if Test(AsBuilt, e, c.w).0 {
      ArriveAt(c', head, fin);
      p' := Place(head, CWhile(ctx, g, d), Context(ctx.held + {n + 2}, ctx.placed, true));
    } else {
      OkCur(Emit(While(e, b), g));
      ArriveAt(c', Emit(While(e, b), g), fin);
      p' := Place(Emit(While(e, b), g), d, ctx);
    }
  }

  lemma {:induction false} SimWhile(q: State, c: Config, p: Place, fin: Gen, f: Function)
    returns (j: nat, c': Config, p': Place)
    requires q.Before? && q.s.While? && Match(q, c, p, fin, f.isVoid)
    ensures j > 0 && c' == Run(fin.blocks, c, j) && Match(Next(AsBuilt, f, q), c', p', fin, f.isVoid)
  {
    hide Stage, Shape, Grows, Emit, Emitted, Condition, Test, Gen.Ok, WhileEntry, WhileHead, Follows, Ready, Gen.Append, WhileTest;
    var While(e, b) := q.s;
    var n := |p.g.blocks|;
    InWhile(q.s, q.k, p, fin, f.isVoid);
    WhileBody(e, b, q.k, p.ctx, p.g, p.d, fin, f.isVoid);
    ReadyStage(q.s, p.g, p.d, p.ctx);
    WhileEntryStage(p.g, p.ctx.held, p.ctx.placed, true);
    WhileHeadStage(e, p.g, p.ctx.held, p.ctx.placed, true);
    var entry, head := WhileEntry(p.g), WhileHead(e, p.g);
    var cond := Condition(e, entry, n + 1, n + 2);
    ConditionStage(e, entry, p.ctx.held + {n + 2} + {n + 1}, p.ctx.placed, n + 1, n + 2, true);
    GrowsTrans(cond, head, fin);
    GrowsTrans(entry, cond, fin);
    GrowsTrans(p.g.WithConnectedBlock(), entry, fin);
    EnterConnected(c, p.g, fin);
    OneStep(fin.blocks, c);
    var c1 := Step(fin.blocks, c);
    var j1;
    j1, c', p' := SimWhileTest(e, b, q.k, p.ctx, p.g, p.d, c1, fin, f.isVoid);
    RunTwo(fin.blocks, c, 1, j1);
    j := 1 + j1;
  }

  /** At the end of the body control returns to the header. */
  lemma {:induction false} SimWhileAgain(k: Kont, c: Config, p: Place, fin: Gen, isVoid: bool)
    returns (j: nat, c': Config, p': Place)
    requires k.KWhile? && p.d.CWhile? && Follows(p.d, k, p.g, fin, isVoid) && AtEnd(c, p.g, fin.blocks)
    ensures j > 0 && c' == Run(fin.blocks, c, j)
    ensures Match(WhileTest(AsBuilt, k.condition, k.body, k.k, c.w), c', p', fin, isVoid)
  {
    hide Stage, Shape, Grows, Emit, Emitted, Condition, Test, Gen.Ok, WhileEntry, WhileHead, Ready, Gen.Append, WhileTest, ReadyBody;
    var CWhile(ctx, g, d) := p.d;
    WhileBody(k.condition, k.body, k.k, ctx, g, d, fin, isVoid);
    GrowsWithin(p.g.Append(Br(|g.blocks|)), fin);
    WithinSize(p.g, fin.blocks);
    StartInside(g, k.condition, k.body, ctx, fin);
    StepJumps(c, p.g, |g.blocks|, fin.blocks);
    OneStep(fin.blocks, c);
    var c1 := Step(fin.blocks, c);
    var j1;
    j1, c', p' := SimWhileTest(k.condition, k.body, k.k, ctx, g, d, c1, fin, isVoid);
    RunTwo(fin.blocks, c, 1, j1);
    j := 1 + j1;
  }

  lemma {:induction false} StartInside(g: Gen, e: Expr, b: Stmt, ctx: Context, fin: Gen)
    requires g.Ok() && Grows(WhileHead(e, g), fin)
    ensures |g.blocks| < |fin.blocks|
  {
  }

  /** The end of a do loop's body: the condition decides to repeat or go on. */
  lemma {:induction false} SimDoAgain(k: Kont, c: Config, p: Place, fin: Gen, isVoid: bool)
    returns (j: nat, c': Config, p': Place)
    requires k.KDo? && p.d.CDo? && Follows(p.d, k, p.g, fin, isVoid) && AtEnd(c, p.g, fin.blocks)
    ensures j > 0 && c' == Run(fin.blocks, c, j)
    ensures Match(DoTest(AsBuilt, k.condition, k.body, k.k, c.w), c', p', fin, isVoid)
  {
    hide Stage, Shape, Grows, Emit, Emitted, Condition, Test, Gen.Ok, DoEntry, DoTail, Ready, Gen.Append, Gen.WithConnectedBlock;
    var CDo(ctx, start, d) := p.d;
    var KDo(e, b, k1) := k;
    var g, n, content := p.g, |p.g.blocks|, |start.blocks|;
    DoBody(e, b, k1, ctx, start, d, fin, isVoid);
    OkCur(start);
    var g1 := start.WithConnectedBlock();
    ReadyEmits(b, g1, p.d, Context(ctx.held, ctx.placed, false));
    EmittedStage(b, g1, Context(ctx.held, ctx.placed, false));
    var placed := ctx.placed + Labels(b);
    ConnectedSize(start, g1, g);
    DoEntryStage(g, content, ctx.held, placed, true);
    DoTailStage(e, g, content, ctx.held, placed, true);
    EntriesEmpty(g, content);
    EntriesEmpty(start, 0);
    EmitDoIs(DoWhile(e, b), start);
    var entry, tail := DoEntry(g, content), DoTail(e, g, content);
    var cond := Condition(e, entry, content, n + 1);
    ConditionStage(e, entry, ctx.held + {n + 1}, placed, content, n + 1, true);
    GrowsTrans(cond, tail, fin);
    GrowsTrans(entry, cond, fin);
    GrowsTrans(g.WithConnectedBlock(), entry, fin);
    EnterConnected(c, g, fin);
    OneStep(fin.blocks, c);
    var c1 := Step(fin.blocks, c);
    var j1;
    j1, c' := Decide(e, entry, Context(ctx.held + {n + 1}, placed, false), content, n + 1, c1, fin);
    RunTwo(fin.blocks, c, 1, j1);
    j := 1 + j1;
    if Test(AsBuilt, e, c.w).0 {
      ArriveAt(c', g1, fin);
      p' := Place(g1, CDo(ctx, start, d), Context(ctx.held, ctx.placed, false));
    } else {
      ArriveAt(c', tail, fin);
      p' := Place(tail, d, ctx);
    }
  }

  lemma {:induction false} EmittedStage(b: Stmt, g: Gen, ctx: Context)
    requires g.Ok() && Emitted(g, Emit(b, g), ctx.held, ctx.placed, b, false, true)
    ensures var g' := Emit(b, g);
      Stage(g', ctx.held, ctx.placed + Labels(b), g'.cur, true) && Grows(g, g') && g'.cur < |g'.blocks|
  {
    hide Stage, Grows, Emit;
    var g' := Emit(b, g);
    StageShape(g', ctx.held, ctx.placed + Labels(b), g'.cur, true);
  }

  lemma {:induction false} ConnectedSize(g: Gen, g1: Gen, g2: Gen)
    requires g.cur < |g.blocks| && g1 == g.WithConnectedBlock() && Grows(g1, g2)
    ensures |g.blocks| < |g2.blocks|
  {
  }

  lemma {:induction false} SimDo(q: State, c: Config, p: Place, fin: Gen, f: Function)
    returns (j: nat, c': Config, p': Place)
    requires q.Before? && q.s.DoWhile? && Match(q, c, p, fin, f.isVoid)
    ensures j > 0 && c' == Run(fin.blocks, c, j) && Match(Next(AsBuilt, f, q), c', p', fin, f.isVoid)
  {
    hide Stage, Shape, Grows, Emit, Emitted, Follows, Ready, Gen.WithConnectedBlock, Gen.Ok, DoTail;
    var DoWhile(e, b) := q.s;
    InDo(q.s, q.k, p, fin, f.isVoid);
    DoBody(e, b, q.k, p.ctx, p.g, p.d, fin, f.isVoid);
    EntriesEmpty(p.g, 0);
    EnterConnected(c, p.g, fin);
    OneStep(fin.blocks, c);
    j, c' := 1, Step(fin.blocks, c);
    p' := Place(p.g.WithConnectedBlock(), CDo(p.ctx, p.g, p.d), Context(p.ctx.held, p.ctx.placed, false));
    ArriveAt(c', p'.g, fin);
  }

  // ----- jumps -----

  /** The certificate of the innermost loop, and where its code continues. */
  lemma {:induction false} FindLoop(d: Cert, k: Kont, g: Gen, fin: Gen, isVoid: bool) returns (g': Gen)
    requires Follows(d, k, g, fin, isVoid)
    ensures Follows(LoopOf(d), InnermostLoop(k), g', fin, isVoid)
    decreases d
  {
    hide Grows, Emit, EmitAll, ReadyAll, ReadyBody;
    match d
    case CSeq(_, r) => g' := FindLoop(r, k.k, EmitAll(k.items, g), fin, isVoid);
    case CJoin(end, r) => g' := FindLoop(r, k, end, fin, isVoid);
    case _ => g' := g;
  }

  lemma {:induction false} LoopOfLoop(d: Cert)
    ensures LoopOf(LoopOf(d)) == LoopOf(d)
    decreases d
  {
    if d.CSeq? || d.CJoin? {
      LoopOfLoop(d.rest);
    }
  }

  /** break leaves the enclosing while; continue goes to its body. */
  lemma {:induction false} SimBreakContinue(q: State, c: Config, p: Place, fin: Gen, f: Function)
    returns (j: nat, c': Config, p': Place)
    requires q.Before? && (q.s.Break? || q.s.Continue?) && Match(q, c, p, fin, f.isVoid)
    ensures j > 0 && c' == Run(fin.blocks, c, j) && Match(Next(AsBuilt, f, q), c', p', fin, f.isVoid)
  {
    hide Stage, Shape, Grows, Emit, Emitted, Gen.Ok, WhileHead, Gen.Append, Gen.WithBlock, ReadyBody, Ready, AtEnd, AtStart, Within;
    var g, ctx, n := p.g, p.ctx, |p.g.blocks|;
    JumpInLoop(q.s, g, p.d, ctx);
    var CWhile(lctx, start, r) := LoopOf(p.d);
    var g1 := FindLoop(p.d, q.k, Emit(q.s, g), fin, f.isVoid);
    var l := InnermostLoop(q.k);
    var e, b, k1 := l.condition, l.body, l.k;
    WhileBody(e, b, k1, lctx, start, r, fin, f.isVoid);
    ReadyStage(q.s, g, p.d, ctx);
    EmitSimpleIs(q.s, g);
    OkCur(Emit(While(e, b), start));
    StartInside(start, e, b, lctx, fin);
    var t := if q.s.Break? then g.breakPoint else g.continuePoint;
    var exit := Emit(While(e, b), start);
    GrowsBlocks(exit, fin);
    GrowsBlocks(WhileHead(e, start), fin);
    BlocksAtEnd(c, g, fin.blocks);
    GrowsFromAt(g.WithBlock().Append(Br(t)), n, fin);
    GrowsWithin(g.WithBlock().Append(Br(t)), fin);
    GrowsBlocks(g.WithBlock().Append(Br(t)), fin);
    StepJumps(c, g.WithBlock(), t, fin.blocks);
    OneStep(fin.blocks, c);
    j, c' := 1, Step(fin.blocks, c);
    if q.s.Break? {
      ArriveAt(c', exit, fin);
      p' := Place(exit, r, lctx);
    } else {
      ArriveAt(c', WhileHead(e, start), fin);
      p' := Place(WhileHead(e, start), CWhile(lctx, start, r), Context(lctx.held + {|start.blocks| + 2}, lctx.placed, true));
    }
  }

  lemma {:induction false} JumpInLoop(s: Stmt, g: Gen, d: Cert, ctx: Context)
    requires Ready(s, g, d, ctx) && (s.Break? || s.Continue?)
    ensures PointsMatch(g, d)
  {
    hide Stage, Shape, PointsMatch;
  }

  lemma {:induction false} GrowsBlocks(g: Gen, fin: Gen)
    requires Grows(g, fin)
    ensures |g.blocks| <= |fin.blocks|
  {
  }

  /** The code of a label: found where FindLabel finds its statement. */
  lemma {:induction false} Locate(l: string, s: Stmt, k: Kont, p: Place, fin: Gen, isVoid: bool)
    returns (p': Place)
    requires Placed(s, k, p, fin, isVoid)
    ensures l !in Labels(s) ==> FindLabel(l, s, k).None?
    ensures l in Labels(s) ==>
      && FindLabel(l, s, k).Some?
      && Placed(FindLabel(l, s, k).value.0, FindLabel(l, s, k).value.1, p', fin, isVoid)
      && l in fin.labels && p'.g.cur == fin.labels[l]
      && p'.g.cur < |p'.g.blocks| && p'.g.blocks[p'.g.cur] == [] && Grows(p'.g, fin)
    decreases s, 1
  {
    hide Stage, Shape, Grows, Emit, EmitAll, Emitted, Gen.Ok, IfHead, WhileHead, Gen.Append, Gen.Jump, Gen.WithConnectedBlock, Follows, Ready;
    p' := p;
    match s
    case Compound(items) =>
      InCompound(s, k, p, fin, isVoid);
      p' := LocateAll(l, KSeq(items, k), p.g, CSeq(p.ctx, p.d), fin, isVoid);
    case Selection(_, a, b) =>
      var n := |p.g.blocks|;
      InThen(s, k, p, fin, isVoid);
      InElse(s, k, p, fin, isVoid);
      p' := Locate(l, a, k, Place(IfHead(s.condition, p.g), CJoin(Emit(s, p.g), p.d), Held(p.ctx, {n + 3} + {n + 2})), fin, isVoid);
      if l !in Labels(a) && b.Some? {
        OkCur(Emit(a, IfHead(s.condition, p.g)));
        var g3 := Emit(a, IfHead(s.condition, p.g)).Append(Br(n + 3));
        p' := Locate(l, b.value, k, Place(g3.At(n + 2), CJoin(Emit(s, p.g), p.d), AfterFirst(Held(p.ctx, {n + 3}), a)), fin, isVoid);
      }
    case While(e, b) =>
      var n := |p.g.blocks|;
      InWhile(s, k, p, fin, isVoid);
      WhileBody(e, b, k, p.ctx, p.g, p.d, fin, isVoid);
      p' := Locate(l, b, KWhile(e, b, k), Place(WhileHead(e, p.g), CWhile(p.ctx, p.g, p.d), Context(p.ctx.held + {n + 2}, p.ctx.placed, true)), fin, isVoid);
    case DoWhile(e, b) =>
      OkCur(p.g);
      InDo(s, k, p, fin, isVoid);
      DoBody(e, b, k, p.ctx, p.g, p.d, fin, isVoid);
      p' := Locate(l, b, KDo(e, b, k), Place(p.g.WithConnectedBlock(), CDo(p.ctx, p.g, p.d), Context(p.ctx.held, p.ctx.placed, false)), fin, isVoid);
    case Labeled(l', t) =>
      InLabeled(s, k, p, fin, isVoid);
      var inner := Place(p.g.Jump(l').AtLabel(l'), p.d, p.ctx.(placed := p.ctx.placed + {l'}));
      if l == l' {
        p' := inner;
        GrowsTo(p.g.Jump(l'), p.g.Jump(l').labels[l'], fin);
      } else {
        p' := Locate(l, t, k, inner, fin, isVoid);
      }
    case _ =>
  }

  lemma {:induction false} LocateAll(l: string, k: Kont, g: Gen, d: Cert, fin: Gen, isVoid: bool)
    returns (p': Place)
    requires k.KSeq? && d.CSeq? && Follows(d, k, g, fin, isVoid)
    ensures l !in LabelsAll(k.items) ==> FindLabelAll(l, k.items, k.k).None?
    ensures l in LabelsAll(k.items) ==>
      var r := FindLabelAll(l, k.items, k.k);
      && r.Some? && Placed(r.value.0, r.value.1, p', fin, isVoid)
      && l in fin.labels && p'.g.cur == fin.labels[l]
      && p'.g.cur < |p'.g.blocks| && p'.g.blocks[p'.g.cur] == [] && Grows(p'.g, fin)
    decreases k.items, 0
  {
    hide Stage, Shape, Grows, Emit, EmitAll, Emitted, Gen.Ok, Ready, ReadyAll;
    p' := Place(g, d, d.ctx);
    if k.items != [] {
      var s, rest := k.items[0], k.items[1..];
      InSequence(k, g, d, fin, isVoid);
      p' := Locate(l, s, KSeq(rest, k.k), Place(g, CSeq(AfterFirst(d.ctx, s), d.rest), d.ctx), fin, isVoid);
      if l !in Labels(s) {
        p' := LocateAll(l, KSeq(rest, k.k), Emit(s, g), CSeq(AfterFirst(d.ctx, s), d.rest), fin, isVoid);
      }
    }
  }

  lemma {:induction false} SimGoto(q: State, c: Config, p: Place, fin: Gen, f: Function, p0: Place)
    returns (j: nat, c': Config, p': Place)
    requires q.Before? && q.s.Goto? && Match(q, c, p, fin, f.isVoid)
    requires Placed(f.body, KStop, p0, fin, f.isVoid) && q.s.name in Labels(f.body)
    ensures j > 0 && c' == Run(fin.blocks, c, j) && Match(Next(AsBuilt, f, q), c', p', fin, f.isVoid)
  {
    hide Stage, Shape, Grows, Emit, Emitted, Gen.Ok, Gen.Append, Gen.WithBlock, Gen.WithLabel, Follows, Ready, AtEnd, AtStart, Within;
    var g, l, n := p.g, q.s.name, |p.g.blocks|;
    p' := Locate(l, f.body, KStop, p0, fin, f.isVoid);
    ReadyStage(q.s, g, p.d, p.ctx);
    EmitGotoIs(l, g);
    var g1 := g.WithBlock();
    HoldStage(g, p.ctx.held, p.ctx.placed, g.cur, true);
    JumpLabelStage(g1, p.ctx.held + {n}, p.ctx.placed, l, true);
    GrowsFromAt(g1.Jump(l), n, fin);
    LabelSteps(c, g, l, fin);
    OneStep(fin.blocks, c);
    j, c' := 1, Step(fin.blocks, c);
    ArriveAt(c', p'.g, fin);
  }

  /** The branch of a goto enters the block of its label. */
  lemma {:induction false} LabelSteps(c: Config, g: Gen, l: string, fin: Gen)
    requires g.Ok() && AtEnd(c, g, fin.blocks) && Grows(g.WithBlock().Jump(l), fin)
    ensures l in fin.labels
    ensures var c' := Step(fin.blocks, c);
      AtStart(c', fin.labels[l], fin.blocks) && c'.w == c.w
  {
    var g1 := g.WithBlock().WithLabel(l);
    GrowsWithin(g1.Append(Br(g1.labels[l])), fin);
    AppendWithin(g1, Br(g1.labels[l]), fin.blocks);
    assert g1.blocks[g.cur] == g.blocks[g.cur];
    StepJumps(c, g1, g1.labels[l], fin.blocks);
  }

  lemma {:induction false} SimLabeled(q: State, c: Config, p: Place, fin: Gen, f: Function)
    returns (j: nat, c': Config, p': Place)
    requires q.Before? && q.s.Labeled? && Match(q, c, p, fin, f.isVoid)
    ensures j > 0 && c' == Run(fin.blocks, c, j) && Match(Next(AsBuilt, f, q), c', p', fin, f.isVoid)
  {
    hide Stage, Shape, Grows, Emit, Emitted, Gen.Ok, Gen.Append, Gen.Jump, Gen.WithLabel, Follows, Ready, AtEnd, AtStart, Within;
    var l := q.s.name;
    InLabeled(q.s, q.k, p, fin, f.isVoid);
    p' := Place(p.g.Jump(l).AtLabel(l), p.d, p.ctx.(placed := p.ctx.placed + {l}));
    PlacedGrows(q.s.statement, q.k, p', fin, f.isVoid);
    LabeledSteps(c, p.g, l, fin);
    OneStep(fin.blocks, c);
    j, c' := 1, Step(fin.blocks, c);
    ArriveAt(c', p'.g, fin);
  }

  lemma {:induction false} PlacedGrows(s: Stmt, k: Kont, p: Place, fin: Gen, isVoid: bool)
    requires Placed(s, k, p, fin, isVoid)
    ensures Grows(p.g, fin) && p.g.cur < |p.g.blocks|
  {
    hide Stage, Shape, Grows, Emit, Follows;
    ReadyEmits(s, p.g, p.d, p.ctx);
    ReadyStage(s, p.g, p.d, p.ctx);
    GrowsTrans(p.g, Emit(s, p.g), fin);
  }

  lemma {:induction false} LabeledSteps(c: Config, g: Gen, l: string, fin: Gen)
    requires g.Ok() && AtEnd(c, g, fin.blocks) && Grows(g.Jump(l), fin)
    ensures l in fin.labels
    ensures var c' := Step(fin.blocks, c);
      AtStart(c', fin.labels[l], fin.blocks) && c'.w == c.w
  {
    var g1 := g.WithLabel(l);
    GrowsWithin(g1.Append(Br(g1.labels[l])), fin);
    AppendWithin(g1, Br(g1.labels[l]), fin.blocks);
    assert g1.blocks[g.cur] == g.blocks[g.cur];
    StepJumps(c, g1, g1.labels[l], fin.blocks);
  }

  // ----- expressions, returns and the end -----

  lemma {:induction false} SimExpression(q: State, c: Config, p: Place, fin: Gen, f: Function)
    returns (j: nat, c': Config, p': Place)
    requires q.Before? && q.s.Expression? && Match(q, c, p, fin, f.isVoid)
    ensures c' == Run(fin.blocks, c, j) && Match(Next(AsBuilt, f, q), c', p', fin, f.isVoid)
  {
    hide Stage, Shape, Grows, Emit, Emitted, Gen.Ok, Follows, Ready, Rvalue, AtEnd, AtStart, Within, Eval;
    var g, e := p.g, q.s.e;
    EmitSimpleIs(q.s, g);
    j, c', p' := 0, c, p;
    if e.Some? {
      ReadyStage(q.s, g, p.d, p.ctx);
      StageShape(g, p.ctx.held, p.ctx.placed, g.cur, true);
      GrowsWithin(Rvalue(e.value, g).0, fin);
      j, c' := SimRvalue(e.value, g, p.ctx.held + Pending(g.labels, p.ctx.placed), true, fin.blocks, c);
      p' := Place(Rvalue(e.value, g).0, p.d, p.ctx);
    }
  }

  lemma {:induction false} SimReturn(q: State, c: Config, p: Place, fin: Gen, f: Function)
    returns (j: nat, c': Config)
    requires q.Before? && q.s.Return? && Match(q, c, p, fin, f.isVoid)
    ensures j > 0 && c' == Run(fin.blocks, c, j) && Match(Next(AsBuilt, f, q), c', p, fin, f.isVoid)
  {
    hide Stage, Shape, Grows, Emit, Emitted, Gen.Ok, Follows, Ready, Rvalue, Eval, Gen.Append, Gen.WithBlock;
    var g, e := p.g, q.s.e;
    EmitSimpleIs(q.s, g);
    ReadyStage(q.s, g, p.d, p.ctx);
    j, c' := 0, c;
    var g1, op := g, RetVoid;
    if e.Some? {
      StageShape(g, p.ctx.held, p.ctx.placed, g.cur, true);
      g1 := Rvalue(e.value, g).0;
      op := Ret(Rvalue(e.value, g).1);
      OkCur(g1);
      ReturnGrows(g1, op, fin);
      AppendWithin(g1, op, fin.blocks);
      j, c' := SimRvalue(e.value, g, p.ctx.held + Pending(g.labels, p.ctx.placed), true, fin.blocks, c);
    }
    ReturnGrows(g1, op, fin);
    NextIs(c', g1, op, fin.blocks);
    RunTwo(fin.blocks, c, j, 0);
    j, c' := j + 1, Step(fin.blocks, c');
  }

  lemma {:induction false} ReturnGrows(g: Gen, op: Op, fin: Gen)
    requires g.cur < |g.blocks| && Grows(g.Append(op).WithBlock().At(|g.blocks|), fin)
    ensures Within(g.Append(op), fin.blocks)
  {
    var g1 := g.Append(op);
    var g2 := g1.WithBlock().At(|g.blocks|);
    forall b | 0 <= b < |g1.blocks|
      ensures g1.blocks[b] <= fin.blocks[b]
    {
      assert g2.blocks[b] <= fin.blocks[b];
    }
  }

  /** Falling off the end reaches the return that finishing added. */
  lemma {:induction false} SimStop(w: World, c: Config, p: Place, fin: Gen, f: Function)
    returns (c': Config)
    requires p.d.CStop? && Match(After(KStop, w), c, p, fin, f.isVoid)
    ensures c' == Step(fin.blocks, c) && c' == Halted(if f.isVoid then None else Some(0), w)
  {
    var op := if f.isVoid then RetVoid else Ret(Const(0));
    GrowsWithin(p.g.Append(op), fin);
    NextIs(c, p.g, op, fin.blocks);
    c' := Step(fin.blocks, c);
  }

  /** The branches that join the arms of ifs are taken before anything else. */
  lemma {:induction false} SkipJoins(k: Kont, c: Config, p: Place, fin: Gen, isVoid: bool)
    returns (j: nat, c': Config, p': Place)
    requires Follows(p.d, k, p.g, fin, isVoid) && AtEnd(c, p.g, fin.blocks)
    ensures c' == Run(fin.blocks, c, j) && !p'.d.CJoin?
    ensures Follows(p'.d, k, p'.g, fin, isVoid) && AtEnd(c', p'.g, fin.blocks) && c'.w == c.w
    decreases p.d
  {
    hide Grows, Emit, EmitAll, ReadyAll, ReadyBody;
    if p.d.CJoin? {
      var CJoin(end, r) := p.d;
      GrowsWithin(p.g.Append(Br(end.cur)), fin);
      GrowsBlocks(end, fin);
      StepJumps(c, p.g, end.cur, fin.blocks);
      var c1 := Step(fin.blocks, c);
      ArriveAt(c1, end, fin);
      var j1;
      j1, c', p' := SkipJoins(k, c1, Place(end, r, p.ctx), fin, isVoid);
      RunTwo(fin.blocks, c, 1, j1);
      j := 1 + j1;
    } else {
      j, c', p' := 0, c, p;
    }
  }

  // ----- one step of the source -----

  function Size(s: Stmt): nat {
    match s
    case Compound(items) => 1 + SizeAll(items)
    case _ => 1
  }

  function SizeAll(ss: seq<Stmt>): nat {
    if ss == [] then 0 else 1 + Size(ss[0]) + SizeAll(ss[1..])
  }

  function SizeK(k: Kont): nat {
    match k
    case KSeq(ss, k1) => 1 + 2 * SizeAll(ss) + SizeK(k1)
    case _ => 0
  }

  /** Decreases at each source step for which the graph does nothing. */
  function Measure(q: State): nat {
    match q
    case Before(s, k, _) => 2 * Size(s) + SizeK(k)
    case After(k, _) => SizeK(k)
    case _ => 0
  }

  predicate Running(q: State) { q.Before? || q.After? }

  lemma {:induction false} SimAfter(q: State, c: Config, p: Place, fin: Gen, f: Function)
    returns (j: nat, c': Config, p': Place)
    requires q.After? && Match(q, c, p, fin, f.isVoid)
    ensures c' == Run(fin.blocks, c, j) && Match(Next(AsBuilt, f, q), c', p', fin, f.isVoid)
    ensures j > 0 || Measure(Next(AsBuilt, f, q)) < Measure(q)
  {
    hide Stage, Shape, Grows, Emit, EmitAll, Emitted, Ready, ReadyAll, ReadyBody, WhileTest, DoTest, AtEnd, Gen.Append, Gen.WithConnectedBlock;
    var k := q.k;
    var j0, c0, p0 := SkipJoins(k, c, p, fin, f.isVoid);
    match k
    case KStop =>
      c' := SimStop(q.w, c0, p0, fin, f);
      RunTwo(fin.blocks, c, j0, 0);
      j, p' := j0 + 1, p0;
    case KSeq(ss, k1) =>
      j, c' := j0, c0;
      if ss == [] {
        p' := Place(p0.g, p0.d.rest, p0.ctx);
        EmitNone(p0.g);
      } else {
        p' := Place(p0.g, CSeq(AfterFirst(p0.d.ctx, ss[0]), p0.d.rest), p0.d.ctx);
        InSequence(k, p0.g, p0.d, fin, f.isVoid);
      }
    case KWhile(e, b, k1) =>
      var j1;
      j1, c', p' := SimWhileAgain(k, c0, p0, fin, f.isVoid);
      RunTwo(fin.blocks, c, j0, j1);
      j := j0 + j1;
    case KDo(e, b, k1) =>
      var j1;
      j1, c', p' := SimDoAgain(k, c0, p0, fin, f.isVoid);
      RunTwo(fin.blocks, c, j0, j1);
      j := j0 + j1;
  }

  lemma {:induction false} EmitNone(g: Gen)
    requires g.Ok()
    ensures EmitAll([], g) == g
  {
  }

  lemma {:induction false} SimBefore(q: State, c: Config, p: Place, fin: Gen, f: Function, p0: Place)
    returns (j: nat, c': Config, p': Place)
    requires q.Before? && Match(q, c, p, fin, f.isVoid)
    requires Placed(f.body, KStop, p0, fin, f.isVoid) && fin.labels.Keys == Labels(f.body)
    ensures c' == Run(fin.blocks, c, j) && Match(Next(AsBuilt, f, q), c', p', fin, f.isVoid)
    ensures j > 0 || Measure(Next(AsBuilt, f, q)) < Measure(q)
  {
    hide Match, Next, Placed, Step, Run;
    match q.s
    case Expression(_) => j, c', p' := SimExpression(q, c, p, fin, f); NextMeasure(f, q);
    case Compound(items) => j, c', p' := SimCompound(q, c, p, fin, f); NextMeasure(f, q);
    case Selection(_, _, _) => j, c', p' := SimSelection(q, c, p, fin, f);
    case While(_, _) => j, c', p' := SimWhile(q, c, p, fin, f);
    case DoWhile(_, _) => j, c', p' := SimDo(q, c, p, fin, f);
    case Return(_) => j, c' := SimReturn(q, c, p, fin, f); p' := p;
    case Break => j, c', p' := SimBreakContinue(q, c, p, fin, f);
    case Continue => j, c', p' := SimBreakContinue(q, c, p, fin, f);
    case Goto(_) =>
      GotoNamesLabel(q, c, p, fin, f.isVoid);
      j, c', p' := SimGoto(q, c, p, fin, f, p0);
    case Labeled(_, _) => j, c', p' := SimLabeled(q, c, p, fin, f);
  }

  lemma {:induction false} GotoNamesLabel(q: State, c: Config, p: Place, fin: Gen, isVoid: bool)
    requires q.Before? && q.s.Goto? && Match(q, c, p, fin, isVoid)
    ensures q.s.name in fin.labels
  {
    hide Stage, Shape, Grows, Emit, Follows;
    ReadyEmits(q.s, p.g, p.d, p.ctx);
    assert q.s.name in Gotos(q.s);
    GrowsLabel(Emit(q.s, p.g), q.s.name, fin);
  }

  lemma {:induction false} NextMeasure(f: Function, q: State)
    requires q.Before? && (q.s.Expression? || q.s.Compound?)
    ensures Measure(Next(AsBuilt, f, q)) < Measure(q)
  {
    hide Eval;
  }

  lemma {:induction false} SimCompound(q: State, c: Config, p: Place, fin: Gen, f: Function)
    returns (j: nat, c': Config, p': Place)
    requires q.Before? && q.s.Compound? && Match(q, c, p, fin, f.isVoid)
    ensures c' == Run(fin.blocks, c, j) && Match(Next(AsBuilt, f, q), c', p', fin, f.isVoid)
  {
    hide Stage, Shape, Grows, Emit, EmitAll, Follows, Ready, AtEnd;
    InCompound(q.s, q.k, p, fin, f.isVoid);
    j, c', p' := 0, c, Place(p.g, CSeq(p.ctx, p.d), p.ctx);
  }

  /** A running source state takes one step; the graph takes some, or none while
      the measure goes down. */
  lemma {:induction false} Advance(q: State, c: Config, p: Place, fin: Gen, f: Function, p0: Place)
    returns (j: nat, c': Config, p': Place)
    requires Running(q) && Match(q, c, p, fin, f.isVoid)
    requires Placed(f.body, KStop, p0, fin, f.isVoid) && fin.labels.Keys == Labels(f.body)
    ensures c' == Run(fin.blocks, c, j) && Match(Next(AsBuilt, f, q), c', p', fin, f.isVoid)
    ensures j > 0 || Measure(Next(AsBuilt, f, q)) < Measure(q)
  {
    hide Match, Next, Placed, Run, Measure;
    if q.Before? {
      j, c', p' := SimBefore(q, c, p, fin, f, p0);
    } else {
      j, c', p' := SimAfter(q, c, p, fin, f);
    }
  }

  // ----- whole runs -----

  /** If the source stops, so does the graph, with the same result and world. */
  lemma {:induction false} SourceToGraph(q: State, c: Config, p: Place, fin: Gen, f: Function, p0: Place, n: nat, r: Option<i32>, w: World)
    requires Match(q, c, p, fin, f.isVoid) && Iterate(AsBuilt, f, q, n) == Done(r, w)
    requires Placed(f.body, KStop, p0, fin, f.isVoid) && fin.labels.Keys == Labels(f.body)
    ensures Finishes(fin.blocks, c, r, w)
    decreases n
  {
    hide Placed, Next, Step;
    if n == 0 || q.Done? {
      if n > 0 {
        DoneStays(f, q, n);
      }
      assert Run(fin.blocks, c, 0) == Halted(r, w);
    } else {
      var j, c', p' := Advance(q, c, p, fin, f, p0);
      SourceToGraph(Next(AsBuilt, f, q), c', p', fin, f, p0, n - 1, r, w);
      var k: nat :| Run(fin.blocks, c', k) == Halted(r, w);
      RunAdd(fin.blocks, c, j, k);
    }
  }

  lemma {:induction false} DoneStays(f: Function, q: State, n: nat)
    requires q.Done?
    ensures Iterate(AsBuilt, f, q, n) == q
    decreases n
  {
    if n > 0 {
      DoneStays(f, q, n - 1);
    }
  }

  /** If the graph stops or gets stuck within k steps, the source is done, and the
      graph stopped with its result. */
  lemma {:induction false} GraphToSource(q: State, c: Config, p: Place, fin: Gen, f: Function, p0: Place, k: nat) returns (n: nat)
    requires Match(q, c, p, fin, f.isVoid) && !Run(fin.blocks, c, k).Running?
    requires Placed(f.body, KStop, p0, fin, f.isVoid) && fin.labels.Keys == Labels(f.body)
    ensures var q' := Iterate(AsBuilt, f, q, n);
      q'.Done? && Run(fin.blocks, c, k) == Halted(q'.result, q'.w)
    decreases k, Measure(q)
  {
    hide Placed, Next, Step, Measure;
    if q.Done? {
      n := 0;
      RunHalted(fin.blocks, c, k);
    } else {
      var j, c', p' := Advance(q, c, p, fin, f, p0);
      var q' := Next(AsBuilt, f, q);
      if j <= k {
        RunAdd(fin.blocks, c, j, k - j);
        n := GraphToSource(q', c', p', fin, f, p0, k - j);
        n := n + 1;
      } else {
        RunAdd(fin.blocks, c, k, j - k);
        RunHalted(fin.blocks, Run(fin.blocks, c, k), j - k);
        n := 1;
        assert Iterate(AsBuilt, f, q, 1) == Iterate(AsBuilt, f, q', 0);
      }
    }
  }

  // ----- from the call to the body -----

  lemma {:induction false} SimPrologue(params: seq<string>, k: nat, g: Gen, G: Graph, c: Config) returns (j: nat, c': Config)
    requires k <= |params| && g.Ok() && AtEnd(c, g, G) && |c.args| == |params|
    requires Within(Prologue(params, k, g), G)
    ensures c' == Run(G, c, j) && AtEnd(c', Prologue(params, k, g), G)
    ensures c'.w == Bind(params[k..], c.args[k..], c.w)
    decreases |params| - k
  {
    if k == |params| {
      j, c' := 0, c;
    } else {
      var op := Store(Arg(k), params[k]);
      var g1 := g.Append(op);
      PrologueWithin(params, k + 1, g1, G);
      NextIs(c, g, op, G);
      var c1 := Step(G, c);
      assert params[k..][1..] == params[k + 1..] && c.args[k..][1..] == c.args[k + 1..];
      var j1;
      j1, c' := SimPrologue(params, k + 1, g1, G, c1);
      j := 1 + j1;
    }
  }

  lemma {:induction false} PrologueWithin(params: seq<string>, k: nat, g: Gen, G: Graph)
    requires k <= |params| && g.Ok() && Within(Prologue(params, k, g), G)
    ensures Within(g, G)
    decreases |params| - k
  {
    if k < |params| {
      PrologueWithin(params, k + 1, g.Append(Store(Arg(k), params[k])), G);
      AppendWithin(g, Store(Arg(k), params[k]), G);
    }
  }

  ghost function Origin(f: Function): Place {
    Place(BodyStart(f), CStop, Context({}, {}, false))
  }

  lemma {:induction false} BodyPlaced(f: Function)
    requires Admissible(f)
    ensures var fin := EmitFunction(f);
      && Placed(f.body, KStop, Origin(f), fin, f.isVoid) && fin.labels.Keys == Labels(f.body)
      && Grows(BodyStart(f), fin) && |fin.blocks| > 0
  {
    hide Stage, Shape, Grows, Emit, BodyStart, Gen.Ok, Gen.Append;
    var g := BodyStart(f);
    var g1, fin := Emit(f.body, g), EmitFunction(f);
    FunctionShape(f, true);
    BodyStartStage(f);
    WeakenNulls(g, {}, {}, g.cur);
    PointsUnset(g);
    GrowsRefl(fin);
    BuildsGrows(g1, fin);
    GrowsTrans(g, g1, fin);
    OkCur(g);
    GrowsBlocks(g, fin);
  }

  lemma {:induction false} PointsUnset(g: Gen)
    requires g.breakPoint == g.continuePoint == NO_BLOCK
    ensures Points(g, true, false)
  {
  }

  lemma {:induction false} BuildsGrows(g: Gen, g': Gen)
    requires Builds(g, g')
    ensures Grows(g, g')
  {
  }

  /** The graph, started with these arguments, reaches the body as the call does. */
  lemma {:induction false} Started(f: Function, args: seq<i32>, w: World) returns (j: nat, c: Config)
    requires Admissible(f) && |args| == |f.params|
    ensures |EmitFunction(f).blocks| > 0
    ensures var fin := EmitFunction(f);
      && c == Run(fin.blocks, Start(fin.blocks, args, w), j)
      && Match(Call(f, args, w), c, Origin(f), fin, f.isVoid)
      && Placed(f.body, KStop, Origin(f), fin, f.isVoid) && fin.labels.Keys == Labels(f.body)
  {
    hide Placed, Emit, Grows, Run;
    var fin := EmitFunction(f);
    BodyPlaced(f);
    GrowsWithin(BodyStart(f), fin);
    PrologueWithin(f.params, 0, STARTED, fin.blocks);
    var c0 := Start(fin.blocks, args, w);
    j, c := SimPrologue(f.params, 0, STARTED, fin.blocks, c0);
    assert f.params[0..] == f.params && args[0..] == args;
  }

  /** Meaning preservation: calling f stops with a result and a world if and only
      if running its graph does. */
  lemma {:induction false} GraphMeansFunction(f: Function, args: seq<i32>, w: World, r: Option<i32>, w': World)
    requires Admissible(f) && |args| == |f.params|
    ensures |EmitFunction(f).blocks| > 0
    ensures var G := EmitFunction(f).blocks;
      Returns(AsBuilt, f, args, w, r, w') <==> Finishes(G, Start(G, args, w), r, w')
  {
    hide Match, Placed, Step, Next, Admissible, Emit;
    var fin := EmitFunction(f);
    var j, c := Started(f, args, w);
    var q, c0 := Call(f, args, w), Start(fin.blocks, args, w);
    if Returns(AsBuilt, f, args, w, r, w') {
      var n: nat :| Iterate(AsBuilt, f, q, n) == Done(r, w');
      SourceToGraph(q, c, Origin(f), fin, f, Origin(f), n, r, w');
      var k: nat :| Run(fin.blocks, c, k) == Halted(r, w');
      RunAdd(fin.blocks, c0, j, k);
    }
    if Finishes(fin.blocks, c0, r, w') {
      var k: nat :| Run(fin.blocks, c0, k) == Halted(r, w');
      RunAdd(fin.blocks, c0, k, j);
      RunHalted(fin.blocks, Halted(r, w'), j);
      RunAdd(fin.blocks, c0, j, k);
      var n := GraphToSource(q, c, Origin(f), fin, f, Origin(f), k);
    }
  }

  /** A run of the graph never gets stuck: it stops or goes on for ever. */
  lemma {:induction false} GraphNeverStuck(f: Function, args: seq<i32>, w: World, k: nat)
    requires Admissible(f) && |args| == |f.params|
    ensures |EmitFunction(f).blocks| > 0
    ensures var G := EmitFunction(f).blocks;
      Run(G, Start(G, args, w), k) != Stuck
  {
    hide Match, Placed, Step, Next, Admissible, Emit;
    var fin := EmitFunction(f);
    var j, c := Started(f, args, w);
    var c0 := Start(fin.blocks, args, w);
    if Run(fin.blocks, c0, k) == Stuck {
      RunAdd(fin.blocks, c0, k, j);
      RunHalted(fin.blocks, Stuck, j);
      RunAdd(fin.blocks, c0, j, k);
      var n := GraphToSource(Call(f, args, w), c, Origin(f), fin, f, Origin(f), k);
    }
  }
}
