/** Phi consistency of whole functions, whatever their jumps and labels. */
module PhiJoins {
  import opened Ir
  import opened Options
  import opened Ast
  import opened Creator
  import opened Codegen
  import opened GraphShape
  import opened BodyShape
  import opened WellFormed
  import opened PhiShape

  /** Phis are joins, and no label or loop point is one. */
  ghost predicate Calm(g: Gen) {
    && PhisAreJoins(g.blocks)
    && (forall l <- g.labels :: !HasPhi(g.blocks, g.labels[l]))
    && !HasPhi(g.blocks, g.breakPoint) && !HasPhi(g.blocks, g.continuePoint)
  }

  /** No phi was added to a block of g. */
  ghost predicate Kept(g: Gen, g': Gen) {
    |g.blocks| <= |g'.blocks| && forall b | 0 <= b < |g.blocks| :: HasPhi(g'.blocks, b) <==> HasPhi(g.blocks, b)
  }

  lemma {:induction false} KeptTrans(g: Gen, g1: Gen, g2: Gen)
    requires Kept(g, g1) && Kept(g1, g2)
    ensures Kept(g, g2)
  {
    hide HasPhi;
  }

  lemma {:induction false} KeptAt(g: Gen, g1: Gen, b: nat)
    requires Calm(g1) && Kept(g, g1) && b < |g1.blocks|
    ensures Calm(g1.At(b)) && Kept(g, g1.At(b)) && Kept(g1.At(b), g1) && Kept(g1, g1.At(b))
  {
  }

  lemma {:induction false} CalmStep(g: Gen, g': Gen, allowed: set<BlockRef>)
    requires g.Ok() && Calm(g) && Quietly(g.blocks, g'.blocks, allowed)
    requires forall b <- allowed :: b < |g.blocks| && !HasPhi(g.blocks, b)
    requires g'.labels == g.labels && SamePoints(g, g')
    requires g.breakPoint < |g.blocks| && g.continuePoint < |g.blocks|
    ensures Calm(g') && Kept(g, g')
  {
    hide HasPhi, IsJoin, Quietly;
    QuietLonger(g.blocks, g'.blocks, allowed);
    forall b | 0 <= b < |g.blocks|
      ensures HasPhi(g'.blocks, b) <==> HasPhi(g.blocks, b)
    {
      PhisStay(g.blocks, g'.blocks, allowed, b);
    }
    forall b | HasPhi(g'.blocks, b)
      ensures IsJoin(g'.blocks, b)
    {
      PhiInside(g'.blocks, b);
      if b < |g.blocks| {
        JoinStays(g.blocks, g'.blocks, allowed, b);
      } else {
        NewJoin(g.blocks, g'.blocks, allowed, b);
      }
    }
    NoPhiAtNull(g.blocks, g'.blocks);
  }

  lemma {:induction false} QuietLonger(g: Graph, g': Graph, allowed: set<BlockRef>)
    requires Quietly(g, g', allowed)
    ensures |g| <= |g'|
  {
  }

  lemma {:induction false} NewJoin(g: Graph, g': Graph, allowed: set<BlockRef>, b: int)
    requires Quietly(g, g', allowed) && |g| <= b && HasPhi(g', b)
    ensures IsJoin(g', b)
  {
  }

  lemma {:induction false} PhiInside(g: Graph, b: int)
    requires HasPhi(g, b)
    ensures 0 <= b < |g|
  {
  }

  lemma {:induction false} NoPhiAtNull(g: Graph, g': Graph)
    ensures forall b | b < 0 :: !HasPhi(g, b) && !HasPhi(g', b)
  {
  }

  // ----- the steps of statements -----

  lemma {:induction false} PointsInside(g: Gen, nulls: bool, isSet: bool)
    requires Points(g, nulls, isSet)
    ensures g.breakPoint < |g.blocks| && g.continuePoint < |g.blocks|
  {
  }

  predicate Inside(g: Gen) {
    g.breakPoint < |g.blocks| && g.continuePoint < |g.blocks|
  }

  /** A non-phi instruction whose targets are not joins. */
  lemma {:induction false} JumpCalm(g: Gen, op: Op)
    requires g.Ok() && Calm(g) && Inside(g) && !op.Phi?
    requires forall t <- Successors(op) :: t < |g.blocks| && !HasPhi(g.blocks, t)
    ensures Calm(g.Append(op)) && Kept(g, g.Append(op)) && Inside(g.Append(op))
  {
    hide Calm, Kept, HasPhi, Quietly;
    AppendQuiet(g, op);
    CalmStep(g, g.Append(op), Successors(op));
  }

  lemma {:induction false} HoldCalm(g: Gen)
    requires g.Ok() && Calm(g) && Inside(g)
    ensures var g' := g.WithBlock();
      Calm(g') && Kept(g, g') && Inside(g') && !HasPhi(g'.blocks, |g.blocks|)
  {
    hide Calm, Kept, HasPhi, Quietly;
    BlockQuiet(g);
    CalmStep(g, g.WithBlock(), {});
  }

  lemma {:induction false} ConnectedCalm(g: Gen)
    requires g.Ok() && Calm(g) && Inside(g)
    ensures var g' := g.WithConnectedBlock();
      Calm(g') && Kept(g, g') && Inside(g') && !HasPhi(g'.blocks, |g.blocks|)
  {
    hide Calm, HasPhi, Quietly, Gen.Append;
    var g1 := g.WithBlock();
    HoldCalm(g);
    JumpCalm(g1, Br(|g.blocks|));
    var g2 := g1.Append(Br(|g.blocks|));
    KeptTrans(g, g1, g2);
    KeptAt(g, g2, |g.blocks|);
  }

  lemma {:induction false} RvalueCalm(e: Expr, g: Gen, held: set<int>, placed: set<string>, nulls: bool)
    requires Stage(g, held, placed, g.cur, nulls) && Calm(g) && Inside(g)
    ensures g.Ok()
    ensures var g' := Rvalue(e, g).0; Calm(g') && Kept(g, g') && Inside(g')
  {
    hide Calm, Kept, HasPhi, Quietly, Stage, Grows, Shape;
    StageShape(g, held, placed, g.cur, nulls);
    RvalueStage(e, g, held, placed, nulls);
    RvalueQuiet(e, g, held + Pending(g.labels, placed), nulls);
    CalmStep(g, Rvalue(e, g).0, {});
  }

  lemma {:induction false} ConditionCalm(e: Expr, g: Gen, held: set<int>, placed: set<string>, t: BlockRef, f: BlockRef, nulls: bool)
    requires Stage(g, held, placed, g.cur, nulls) && Calm(g) && Inside(g)
    requires IsTarget(t, |g.blocks|, nulls) && IsTarget(f, |g.blocks|, nulls)
    requires !HasPhi(g.blocks, t) && !HasPhi(g.blocks, f)
    ensures g.Ok()
    ensures var g' := Condition(e, g, t, f); Calm(g') && Kept(g, g') && Inside(g')
  {
    hide Calm, Kept, HasPhi, Quietly, Stage, Grows, Shape;
    StageShape(g, held, placed, g.cur, nulls);
    ConditionStage(e, g, held, placed, t, f, nulls);
    ConditionQuiet(e, g, held + Pending(g.labels, placed), t, f, nulls);
    CalmStep(g, Condition(e, g, t, f), {t, f});
  }

  lemma {:induction false} LoopPointsCalm(g: Gen, b: nat, c: nat)
    requires Calm(g) && b < |g.blocks| && c < |g.blocks| && !HasPhi(g.blocks, b) && !HasPhi(g.blocks, c)
    ensures var g' := g.WithLoopPoints(b, c); Calm(g') && Kept(g, g') && Inside(g')
  {
  }

  /** Two blocks that keep having no phi. */
  lemma {:induction false} StillNone(g: Gen, g': Gen, b: int)
    requires Kept(g, g') && 0 <= b < |g.blocks| && !HasPhi(g.blocks, b)
    ensures !HasPhi(g'.blocks, b)
  {
  }

  lemma {:induction false} WhileHeadCalm(c: Expr, g: Gen, held: set<int>, placed: set<string>, nulls: bool)
    requires Stage(g, held, placed, g.cur, nulls) && Calm(g) && Inside(g)
    ensures g.Ok()
    ensures var n, g' := |g.blocks|, WhileHead(c, g);
      Calm(g') && Kept(g, g') && Inside(g') && !HasPhi(g'.blocks, n)
  {
    hide Calm, Kept, HasPhi, Stage, Grows, Shape, Gen.Append, Gen.WithBlock, Gen.WithConnectedBlock, Gen.WithLoopPoints, Condition;
    StageShape(g, held, placed, g.cur, nulls);
    var n := |g.blocks|;
    var g1 := g.WithConnectedBlock();
    var g2 := g1.WithBlock();
    var g3 := g2.WithBlock();
    var g4 := g3.WithLoopPoints(n + 2, n + 1);
    ConnectedCalm(g);
    HoldCalm(g1);
    HoldCalm(g2);
    StillNone(g1, g2, n);
    StillNone(g2, g3, n);
    StillNone(g2, g3, n + 1);
    LoopPointsCalm(g3, n + 2, n + 1);
    KeptTrans(g, g1, g2);
    KeptTrans(g, g2, g3);
    KeptTrans(g, g3, g4);
    WhileEntryStage(g, held, placed, nulls);
    assert g4 == WhileEntry(g);
    StillNone(g3, g4, n);
    StillNone(g3, g4, n + 1);
    StillNone(g3, g4, n + 2);
    ConditionCalm(c, g4, held + {n + 2} + {n + 1}, placed, n + 1, n + 2, nulls);
    var g5 := Condition(c, g4, n + 1, n + 2);
    StillNone(g4, g5, n);
    KeptTrans(g, g4, g5);
    KeptAt(g, g5, n + 1);
    StillNone(g5, g5.At(n + 1), n);
  }

  lemma {:induction false} DoTailCalm(c: Expr, g: Gen, content: nat, held: set<int>, placed: set<string>, nulls: bool)
    requires Stage(g, held, placed, g.cur, nulls) && Calm(g) && Inside(g)
    requires content < |g.blocks| && !HasPhi(g.blocks, content)
    ensures g.Ok()
    ensures var g' := DoTail(c, g, content); Calm(g') && Kept(g, g') && Inside(g')
  {
    hide Calm, Kept, HasPhi, Stage, Grows, Shape, Gen.Append, Gen.WithBlock, Gen.WithConnectedBlock, Condition;
    StageShape(g, held, placed, g.cur, nulls);
    var n := |g.blocks|;
    var g1 := g.WithConnectedBlock();
    var g2 := g1.WithBlock();
    var g3 := g2.WithLoopPoints(n + 1, content);
    ConnectedCalm(g);
    HoldCalm(g1);
    StillNone(g, g1, content);
    StillNone(g1, g2, content);
    LoopPointsCalm(g2, n + 1, content);
    KeptTrans(g, g1, g2);
    KeptTrans(g, g2, g3);
    DoEntryStage(g, content, held, placed, nulls);
    SamePlace(g3, n);
    assert g3 == DoEntry(g, content);
    StillNone(g2, g3, content);
    StillNone(g2, g3, n + 1);
    ConditionCalm(c, g3, held + {n + 1}, placed, content, n + 1, nulls);
    var g4 := Condition(c, g3, content, n + 1);
    KeptTrans(g, g3, g4);
    KeptAt(g, g4, n + 1);
  }

  lemma {:induction false} SamePlace(g: Gen, b: nat)
    requires b < |g.blocks| && g.cur == b
    ensures g.At(b) == g
  {
  }

  lemma {:induction false} IfHeadCalm(c: Expr, g: Gen, held: set<int>, placed: set<string>, nulls: bool)
    requires Stage(g, held, placed, g.cur, nulls) && Calm(g) && Inside(g)
    ensures g.Ok()
    ensures var n, g' := |g.blocks|, IfHead(c, g);
      Calm(g') && Kept(g, g') && Inside(g') && !HasPhi(g'.blocks, n + 3)
  {
    hide Calm, Kept, HasPhi, Stage, Grows, Shape, Gen.Append, Gen.WithBlock, Gen.WithConnectedBlock, Condition;
    StageShape(g, held, placed, g.cur, nulls);
    var n := |g.blocks|;
    var g1 := g.WithConnectedBlock();
    var g2 := g1.WithBlock();
    var g3 := g2.WithBlock();
    var g4 := g3.WithBlock();
    ConnectedCalm(g);
    HoldCalm(g1);
    HoldCalm(g2);
    HoldCalm(g3);
    StillNone(g2, g3, n + 1);
    StillNone(g3, g4, n + 1);
    StillNone(g3, g4, n + 2);
    KeptTrans(g, g1, g2);
    KeptTrans(g, g2, g3);
    KeptTrans(g, g3, g4);
    IfEntryStage(g, held, placed, nulls);
    assert g4 == IfEntry(g);
    ConditionCalm(c, g4, held + {n + 3} + {n + 2} + {n + 1}, placed, n + 1, n + 2, nulls);
    var g5 := Condition(c, g4, n + 1, n + 2);
    StillNone(g4, g5, n + 3);
    KeptTrans(g, g4, g5);
    KeptAt(g, g5, n + 1);
    StillNone(g5, g5.At(n + 1), n + 3);
  }

  lemma {:induction false} LabelCalm(g: Gen, l: string)
    requires g.Ok() && Calm(g) && Inside(g)
    ensures var g' := g.Jump(l); Calm(g') && Kept(g, g') && Inside(g')
  {
    hide HasPhi, IsJoin, PhisAreJoins;
    var g1 := g.WithLabel(l);
    if l !in g.labels {
      HoldCalm(g);
    }
    assert Calm(g1) && Kept(g, g1) && Inside(g1);
    JumpCalm(g1, Br(g1.labels[l]));
    KeptTrans(g, g1, g1.Append(Br(g1.labels[l])));
  }

  // ----- statements -----

  lemma {:induction false} EmitCalm(s: Stmt, g: Gen, held: set<int>, placed: set<string>, isSet: bool, nulls: bool)
    requires Stage(g, held, placed, g.cur, nulls) && Points(g, nulls, isSet) && Calm(g)
    requires UniqueLabels(s) && Labels(s) !! placed && (nulls || JumpsLand(s, isSet))
    ensures g.Ok()
    ensures var g' := Emit(s, g); Calm(g') && Kept(g, g') && Inside(g')
    decreases s, 1
  {
    hide Stage, Shape, Calm, Kept, HasPhi, Grows, Gen.Ok, Gen.Add, Gen.Append, Gen.Jump, Gen.WithBlock, Gen.WithConnectedBlock, Rvalue, Condition, Emit, EmitAll, EmitElse;
    StageShape(g, held, placed, g.cur, nulls);
    EmitSimpleIs(s, g);
    KeptRefl(g);
    match s
    case Expression(e) =>
      if e.Some? {
        RvalueCalm(e.value, g, held, placed, nulls);
      }
    case Compound(items) => EmitAllCalm(items, g, held, placed, isSet, nulls);
    case Selection(c, a, b) => SelectionCalm(s, g, held, placed, isSet, nulls);
    case While(c, b) => WhileCalm(s, g, held, placed, isSet, nulls);
    case DoWhile(c, b) => DoCalm(s, g, held, placed, isSet, nulls);
    case Return(e) =>
      var g1 := if e.Some? then Rvalue(e.value, g).0 else g;
      if e.Some? {
        RvalueCalm(e.value, g, held, placed, nulls);
      }
      var op := if e.Some? then Ret(Rvalue(e.value, g).1) else RetVoid;
      OkCurrent(g1);
      JumpCalm(g1, op);
      LeaveCalm(g, g1, g1.Append(op));
    case Break =>
      CalmPoints(g);
      JumpAwayCalm(g, g.breakPoint);
    case Continue =>
      CalmPoints(g);
      JumpAwayCalm(g, g.continuePoint);
    case Goto(l) =>
      EmitGotoIs(l, g);
      var n := |g.blocks|;
      HoldCalm(g);
      var g1 := g.WithBlock();
      LabelCalm(g1, l);
      KeptTrans(g, g1, g1.Jump(l));
      KeptAt(g, g1.Jump(l), n);
    case Labeled(l, t) =>
      EmitLabeledIs(s, g);
      JumpLabelStage(g, held, placed, l, nulls);
      LabelCalm(g, l);
      var g1 := g.Jump(l);
      PlaceStage(g1, held, placed, l, nulls);
      KeptAt(g, g1, g1.labels[l]);
      EmitCalm(t, g1.At(g1.labels[l]), held, placed + {l}, isSet, nulls);
      KeptTrans(g, g1.At(g1.labels[l]), Emit(s, g));
  }

  lemma {:induction false} OkCurrent(g: Gen)
    requires g.Ok()
    ensures g.cur < |g.blocks|
  {
  }

  lemma {:induction false} CalmPoints(g: Gen)
    requires Calm(g)
    ensures !HasPhi(g.blocks, g.breakPoint) && !HasPhi(g.blocks, g.continuePoint)
  {
  }

  lemma {:induction false} KeptRefl(g: Gen)
    ensures Kept(g, g)
  {
  }

  /** After a return, code goes to a new block. */
  lemma {:induction false} LeaveCalm(g: Gen, g1: Gen, g2: Gen)
    requires g2.Ok() && Calm(g2) && Inside(g2) && Kept(g, g1) && Kept(g1, g2) && |g2.blocks| == |g1.blocks|
    ensures var g3 := g2.WithBlock().At(|g1.blocks|); Calm(g3) && Kept(g, g3) && Inside(g3)
  {
    hide Calm, Kept, HasPhi, Gen.WithBlock;
    HoldCalm(g2);
    KeptTrans(g, g1, g2);
    KeptTrans(g, g2, g2.WithBlock());
    KeptAt(g, g2.WithBlock(), |g1.blocks|);
  }

  lemma {:induction false} JumpAwayCalm(g: Gen, t: BlockRef)
    requires g.Ok() && Calm(g) && Inside(g) && t < |g.blocks| && !HasPhi(g.blocks, t)
    ensures var g' := g.WithBlock().Append(Br(t)).At(|g.blocks|); Calm(g') && Kept(g, g') && Inside(g')
  {
    hide Calm, Kept, HasPhi, Gen.WithBlock, Gen.Append;
    var g1 := g.WithBlock();
    HoldCalm(g);
    NoPhiAtNull(g.blocks, g1.blocks);
    if 0 <= t {
      StillNone(g, g1, t);
    }
    JumpCalm(g1, Br(t));
    KeptTrans(g, g1, g1.Append(Br(t)));
    KeptAt(g, g1.Append(Br(t)), |g.blocks|);
  }

  lemma {:induction false} SelectionCalm(s: Stmt, g: Gen, held: set<int>, placed: set<string>, isSet: bool, nulls: bool)
    requires Stage(g, held, placed, g.cur, nulls) && Points(g, nulls, isSet) && Calm(g) && s.Selection?
    requires UniqueLabels(s) && Labels(s) !! placed && (nulls || JumpsLand(s, isSet))
    ensures g.Ok()
    ensures var g' := Emit(s, g); Calm(g') && Kept(g, g') && Inside(g')
    decreases s, 0
  {
    hide Stage, Shape, Calm, Kept, HasPhi, Grows, Gen.Ok, Gen.Add, Gen.Append, IfHead, Emit, EmitAll, EmitElse;
    StageShape(g, held, placed, g.cur, nulls);
    EmitSelectionIs(s, g);
    var Selection(c, a, b) := s;
    var n := |g.blocks|;
    IfHeadStage(c, g, held, placed, nulls);
    IfHeadCalm(c, g, held, placed, nulls);
    var g1 := IfHead(c, g);
    PointsLater(g, g1, nulls, isSet);
    EmitStage(a, g1, held + {n + 3} + {n + 2}, placed, isSet, nulls);
    EmitCalm(a, g1, held + {n + 3} + {n + 2}, placed, isSet, nulls);
    var g2 := Emit(a, g1);
    KeptTrans(g, g1, g2);
    StillNone(g1, g2, n + 3);
    ElseCalm(b, g2, n + 2, held, placed + Labels(a), isSet || HasLoop(a), nulls);
    KeptTrans(g, g2, Emit(s, g));
  }

  lemma {:induction false} ElseCalm(b: Option<Stmt>, g: Gen, alternative: nat, held: set<int>, placed: set<string>, isSet: bool, nulls: bool)
    requires Stage(g, held + {alternative + 1} + {alternative}, placed, g.cur, nulls) && Points(g, nulls, isSet) && Calm(g)
    requires alternative !in held && alternative + 1 !in held && alternative + 1 < |g.blocks|
    requires !HasPhi(g.blocks, alternative + 1)
    requires b.Some? ==> UniqueLabels(b.value) && Labels(b.value) !! placed && (nulls || JumpsLand(b.value, isSet))
    ensures g.Ok()
    ensures var g' := EmitElse(b, g.Append(Br(alternative + 1)), alternative); Calm(g') && Kept(g, g') && Inside(g')
    decreases b, 0
  {
    hide Stage, Shape, Calm, Kept, HasPhi, Grows, Gen.Ok, Gen.Add, Gen.Append, Emit, EmitAll, EmitElse;
    StageShape(g, held + {alternative + 1} + {alternative}, placed, g.cur, nulls);
    var end := alternative + 1;
    EmitElseIs(b, g.Append(Br(end)), alternative);
    var g1 := g.Append(Br(end));
    JumpStage(g, held + {end} + {alternative}, placed, Br(end), nulls);
    JumpCalm(g, Br(end));
    PointsLater(g, g1, nulls, isSet);
    AtStage(g1, held + {end} + {alternative}, placed, alternative, held + {end}, nulls);
    StillNone(g, g1, end);
    KeptAt(g, g1, alternative);
    var g2 := g1.At(alternative);
    StillNone(g1, g2, end);
    if b.Some? {
      EmitCalm(b.value, g2, held + {end}, placed, isSet, nulls);
      var g3 := Emit(b.value, g2);
      StillNone(g2, g3, end);
      OkCurrent(g3);
      JumpCalm(g3, Br(end));
      KeptTrans(g, g2, g3);
      KeptTrans(g, g3, g3.Append(Br(end)));
      KeptAt(g, g3.Append(Br(end)), end);
    } else {
      JumpCalm(g2, Br(end));
      KeptTrans(g, g2, g2.Append(Br(end)));
      KeptAt(g, g2.Append(Br(end)), end);
    }
  }

  lemma {:induction false} WhileCalm(s: Stmt, g: Gen, held: set<int>, placed: set<string>, isSet: bool, nulls: bool)
    requires Stage(g, held, placed, g.cur, nulls) && Points(g, nulls, isSet) && Calm(g) && s.While?
    requires UniqueLabels(s) && Labels(s) !! placed && (nulls || JumpsLand(s, isSet))
    ensures g.Ok()
    ensures var g' := Emit(s, g); Calm(g') && Kept(g, g') && Inside(g')
    decreases s, 0
  {
    hide Stage, Shape, Calm, Kept, HasPhi, Grows, Gen.Ok, Gen.Add, Gen.Append, WhileHead, Emit, EmitAll, EmitElse;
    StageShape(g, held, placed, g.cur, nulls);
    EmitWhileIs(s, g);
    var While(c, b) := s;
    var n := |g.blocks|;
    WhileHeadStage(c, g, held, placed, nulls);
    WhileHeadCalm(c, g, held, placed, nulls);
    var g1 := WhileHead(c, g);
    EmitStage(b, g1, held + {n + 2}, placed, true, nulls);
    EmitCalm(b, g1, held + {n + 2}, placed, true, nulls);
    var g2 := Emit(b, g1);
    StillNone(g1, g2, n);
    StageShape(g2, held + {n + 2}, placed + Labels(b), g2.cur, nulls);
    JumpCalm(g2, Br(n));
    KeptTrans(g, g1, g2);
    KeptTrans(g, g2, g2.Append(Br(n)));
    KeptAt(g, g2.Append(Br(n)), n + 2);
  }

  lemma {:induction false} DoCalm(s: Stmt, g: Gen, held: set<int>, placed: set<string>, isSet: bool, nulls: bool)
    requires Stage(g, held, placed, g.cur, nulls) && Points(g, nulls, isSet) && Calm(g) && s.DoWhile?
    requires UniqueLabels(s) && Labels(s) !! placed && (nulls || JumpsLand(s, isSet))
    ensures g.Ok()
    ensures var g' := Emit(s, g); Calm(g') && Kept(g, g') && Inside(g')
    decreases s, 0
  {
    hide Stage, Shape, Calm, Kept, HasPhi, Grows, Gen.Ok, Gen.Add, Gen.Append, Gen.WithConnectedBlock, DoTail, Emit, EmitAll, EmitElse;
    StageShape(g, held, placed, g.cur, nulls);
    EmitDoIs(s, g);
    var DoWhile(c, b) := s;
    var n := |g.blocks|;
    ConnectedStage(g, held, placed, nulls);
    ConnectedCalm(g);
    var g1 := g.WithConnectedBlock();
    PointsLater(g, g1, nulls, isSet);
    EmitStage(b, g1, held, placed, isSet, nulls);
    EmitCalm(b, g1, held, placed, isSet, nulls);
    var g2 := Emit(b, g1);
    StillNone(g1, g2, n);
    DoTailCalm(c, g2, n, held, placed + Labels(b), nulls);
    KeptTrans(g, g1, g2);
    KeptTrans(g, g2, DoTail(c, g2, n));
  }

  lemma {:induction false} EmitAllCalm(ss: seq<Stmt>, g: Gen, held: set<int>, placed: set<string>, isSet: bool, nulls: bool)
    requires Stage(g, held, placed, g.cur, nulls) && Points(g, nulls, isSet) && Calm(g)
    requires UniqueLabelsAll(ss) && LabelsAll(ss) !! placed && (nulls || JumpsLandAll(ss, isSet))
    ensures g.Ok()
    ensures var g' := EmitAll(ss, g); Calm(g') && Kept(g, g') && Inside(g')
    decreases ss, 0
  {
    hide Stage, Shape, Calm, Kept, HasPhi, Grows, Gen.Ok, Emit, Points;
    StageShape(g, held, placed, g.cur, nulls);
    PointsInside(g, nulls, isSet);
    KeptRefl(g);
    if ss != [] {
      EmitStage(ss[0], g, held, placed, isSet, nulls);
      EmitCalm(ss[0], g, held, placed, isSet, nulls);
      var g1 := Emit(ss[0], g);
      EmitAllCalm(ss[1..], g1, held, placed + Labels(ss[0]), isSet || HasLoop(ss[0]), nulls);
      KeptTrans(g, g1, EmitAll(ss, g));
    }
  }

  // ----- whole functions -----

  lemma {:induction false} PrologueCalm(params: seq<string>, k: nat, g: Gen)
    requires g.Ok() && Calm(g) && Inside(g) && k <= |params|
    ensures var g' := Prologue(params, k, g); Calm(g') && Kept(g, g') && Inside(g')
    decreases |params| - k
  {
    hide Calm, Kept, HasPhi, Gen.Append;
    KeptRefl(g);
    if k < |params| {
      var g1 := g.Append(Store(Arg(k), params[k]));
      JumpCalm(g, Store(Arg(k), params[k]));
      PrologueCalm(params, k + 1, g1);
      KeptTrans(g, g1, Prologue(params, k, g));
    }
  }

  /** Every phi of every generated function stands at the head of its block and
      lists exactly the blocks that branch to it, each once; the first block, which
      no block branches to when the function is entered, has none. */
  lemma {:induction false} PhisListPredecessors(f: Function)
    requires UniqueLabels(f.body)
    ensures PhisAreJoins(EmitFunction(f).blocks)
    ensures |EmitFunction(f).blocks| > 0 && !HasPhi(EmitFunction(f).blocks, 0)
  {
    hide Stage, Shape, Kept, HasPhi, Emit, Prologue, Grows;
    assert STARTED.Ok() && Calm(STARTED) by {
      NothingStarted();
    }
    var g := BodyStart(f);
    PrologueCalm(f.params, 0, STARTED);
    BodyStartStage(f);
    WeakenNulls(g, {}, {}, g.cur);
    EmitCalm(f.body, g, {}, {}, false, true);
    FunctionShape(f, true);
    var g1 := Emit(f.body, g);
    var op := if f.isVoid then RetVoid else Ret(Const(0));
    StageShape(g1, {}, Labels(f.body), g1.cur, true);
    JumpCalm(g1, op);
    NothingStarted();
    StillNone(STARTED, g, 0);
    KeptLonger(STARTED, g);
    StillNone(g, g1, 0);
    KeptLonger(g, g1);
    StillNone(g1, g1.Append(op), 0);
  }

  lemma {:induction false} KeptLonger(g: Gen, g': Gen)
    requires Kept(g, g')
    ensures |g.blocks| <= |g'.blocks|
  {
  }

  lemma {:induction false} NothingStarted()
    ensures STARTED.Ok() && Calm(STARTED) && !HasPhi(STARTED.blocks, 0)
  {
  }
}
