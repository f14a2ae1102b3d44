/** The shape of the graph while a function body is generated, labels included,
    and exactly when the finished graph is well formed. */
module BodyShape {
  import opened Ir
  import opened Options
  import opened Ast
  import opened Creator
  import opened Codegen
  import opened GraphShape

  // ----- which jumps have somewhere to go -----

  /** Every break and continue comes after a loop has set the break and continue
      points; `set` says whether one has before s. Code generation never unsets
      them, and a do loop sets them after its body. */
  predicate JumpsLand(s: Stmt, isSet: bool) {
    match s
    case Compound(items) => JumpsLandAll(items, isSet)
    case Selection(_, a, b) =>
      JumpsLand(a, isSet) && (b.Some? ==> JumpsLand(b.value, isSet || HasLoop(a)))
    case While(_, b) => JumpsLand(b, true)
    case DoWhile(_, b) => JumpsLand(b, isSet)
    case Labeled(_, t) => JumpsLand(t, isSet)
    case Break => isSet
    case Continue => isSet
    case _ => true
  }

  predicate JumpsLandAll(ss: seq<Stmt>, isSet: bool) {
    ss == [] || (JumpsLand(ss[0], isSet) && JumpsLandAll(ss[1..], isSet || HasLoop(ss[0])))
  }

  // ----- the invariant -----

  /** The blocks of labels that a goto has named and no statement has reached. */
  ghost function Pending(labels: map<string, nat>, placed: set<string>): set<int> {
    set l | l in labels && l !in placed :: labels[l]
  }

  ghost predicate Distinct(labels: map<string, nat>) {
    forall l, l' | l in labels && l' in labels && l != l' :: labels[l] != labels[l']
  }

  predicate PointsIn(g: Gen, nulls: bool) {
    IsTarget(g.breakPoint, |g.blocks|, nulls) && IsTarget(g.continuePoint, |g.blocks|, nulls)
  }

  /** Between two steps of a body: the blocks without code are those `held` by
      enclosing statements and those of labels that are still to come. */
  ghost predicate Stage(g: Gen, held: set<int>, placed: set<string>, open: int, nulls: bool) {
    && Shape(g, held + Pending(g.labels, placed), open, nulls)
    && Distinct(g.labels)
    && placed <= g.labels.Keys
    && (forall l <- g.labels :: g.labels[l] !in held)
  }

  lemma {:induction false} StageShape(g: Gen, held: set<int>, placed: set<string>, open: int, nulls: bool)
    requires Stage(g, held, placed, open, nulls)
    ensures Shape(g, held + Pending(g.labels, placed), open, nulls) && g.Ok() && g.cur < |g.blocks|
  {
  }

  /** Code that touches no label keeps the stage. */
  lemma {:induction false} BuildsStage(g: Gen, g': Gen, held: set<int>, held': set<int>, placed: set<string>, open: int, open': int, nulls: bool)
    requires Stage(g, held, placed, open, nulls) && Builds(g, g')
    requires Shape(g', held' + Pending(g.labels, placed), open', nulls)
    requires forall b <- held' :: b in held || |g.blocks| <= b
    ensures Stage(g', held', placed, open', nulls)
  {
  }

  lemma {:induction false} JumpStage(g: Gen, held: set<int>, placed: set<string>, op: Op, nulls: bool)
    requires Stage(g, held, placed, g.cur, nulls)
    requires TargetsIn(op, |g.blocks|, nulls)
    ensures Stage(g.Append(op), held, placed, if IsTerminator(Instr(0, op)) then -1 else g.cur, nulls)
    ensures g.cur < |g.blocks| && Builds(g, g.Append(op))
  {
    AppendShape(g, held + Pending(g.labels, placed), op, nulls);
  }

  lemma {:induction false} AtStage(g: Gen, held: set<int>, placed: set<string>, b: nat, rest: set<int>, nulls: bool)
    requires Stage(g, held, placed, -1, nulls) && held == rest + {b} && b !in rest
    ensures b < |g.blocks| && g.blocks[b] == [] && Stage(g.At(b), rest, placed, b, nulls)
  {
    var p := Pending(g.labels, placed);
    assert b !in p;
    AtShape(g, held + p, b, rest + p, nulls);
  }

  /** A new empty block joins those held. */
  lemma {:induction false} HoldStage(g: Gen, held: set<int>, placed: set<string>, open: int, nulls: bool)
    requires Stage(g, held, placed, open, nulls) && open < |g.blocks|
    ensures Stage(g.WithBlock(), held + {|g.blocks|}, placed, open, nulls) && |g.blocks| !in held
    ensures Builds(g, g.WithBlock())
  {
    var p := Pending(g.labels, placed);
    BlockShape(g, held + p, open, nulls);
    assert held + {|g.blocks|} + p == held + p + {|g.blocks|};
  }

  lemma {:induction false} ConnectedStage(g: Gen, held: set<int>, placed: set<string>, nulls: bool)
    requires Stage(g, held, placed, g.cur, nulls)
    ensures Stage(g.WithConnectedBlock(), held, placed, |g.blocks|, nulls) && |g.blocks| !in held
    ensures Builds(g, g.WithConnectedBlock())
  {
    ConnectedShape(g, held + Pending(g.labels, placed), nulls);
  }

  lemma {:induction false} RvalueStage(e: Expr, g: Gen, held: set<int>, placed: set<string>, nulls: bool)
    requires Stage(g, held, placed, g.cur, nulls)
    ensures g.Ok()
    ensures var (g', v) := Rvalue(e, g);
      Stage(g', held, placed, g'.cur, nulls) && Builds(g, g')
  {
    RvalueShape(e, g, held + Pending(g.labels, placed), nulls);
    BuildsStage(g, Rvalue(e, g).0, held, held, placed, g.cur, Rvalue(e, g).0.cur, nulls);
  }

  lemma {:induction false} ConditionStage(e: Expr, g: Gen, held: set<int>, placed: set<string>, t: BlockRef, f: BlockRef, nulls: bool)
    requires Stage(g, held, placed, g.cur, nulls)
    requires IsTarget(t, |g.blocks|, nulls) && IsTarget(f, |g.blocks|, nulls)
    ensures g.Ok()
    ensures var g' := Condition(e, g, t, f);
      Stage(g', held, placed, -1, nulls) && Builds(g, g')
  {
    ConditionShape(e, g, held + Pending(g.labels, placed), t, f, nulls);
    BuildsStage(g, Condition(e, g, t, f), held, held, placed, g.cur, -1, nulls);
  }

  /** The block of a label that is not placed yet is, or becomes, pending. */
  lemma {:induction false} LabelStage(g: Gen, held: set<int>, placed: set<string>, l: string, open: int, nulls: bool)
    requires Stage(g, held, placed, open, nulls) && open < |g.blocks| && l !in placed
    ensures var g' := g.WithLabel(l);
      && Stage(g', held, placed, open, nulls) && Grows(g, g') && g'.cur == g.cur
      && g'.labels.Keys == g.labels.Keys + {l}
      && g'.breakPoint == g.breakPoint && g'.continuePoint == g.continuePoint
  {
    var g' := g.WithLabel(l);
    if l !in g.labels {
      var p, p' := Pending(g.labels, placed), Pending(g'.labels, placed);
      BlockShape(g, held + p, open, nulls);
      assert p' == p + {|g.blocks|} by {
        assert forall l' | l' in g'.labels && l' !in placed :: l' == l || (l' in g.labels && g'.labels[l'] == g.labels[l']);
        assert forall l' | l' in g.labels && l' !in placed :: l' in g'.labels && g'.labels[l'] == g.labels[l'];
        assert l in g'.labels && g'.labels[l] == |g.blocks|;
      }
      assert held + p' == held + p + {|g.blocks|};
    }
  }

  /** Reaching a label's statement: its block becomes current. */
  lemma {:induction false} PlaceStage(g: Gen, held: set<int>, placed: set<string>, l: string, nulls: bool)
    requires Stage(g, held, placed, -1, nulls) && l in g.labels && l !in placed
    ensures g.labels[l] < |g.blocks| && g.blocks[g.labels[l]] == []
    ensures Stage(g.At(g.labels[l]), held, placed + {l}, g.labels[l], nulls)
  {
    var b := g.labels[l];
    var p, p' := Pending(g.labels, placed), Pending(g.labels, placed + {l});
    assert b in p && b !in p';
    assert p == p' + {b};
    AtShape(g, held + p, b, held + p', nulls);
  }

  // ----- statements -----

  /** The break and continue points are blocks, or not set at all yet. */
  predicate Points(g: Gen, nulls: bool, isSet: bool) {
    PointsIn(g, true) && (isSet && !nulls ==> PointsIn(g, false))
  }

  predicate SamePoints(g: Gen, g': Gen) {
    g'.breakPoint == g.breakPoint && g'.continuePoint == g.continuePoint
  }

  /** A loop has moved the points to blocks of its own. */
  predicate MovedPoints(g: Gen, g': Gen) {
    |g.blocks| <= g'.breakPoint && |g.blocks| <= g'.continuePoint
  }

  /** The same but for the loop points. */
  lemma {:induction false} LoopPointsStage(g: Gen, held: set<int>, placed: set<string>, open: int, nulls: bool, b: nat, c: nat)
    requires Stage(g, held, placed, open, nulls) && b < |g.blocks| && c < |g.blocks|
    ensures var g' := g.WithLoopPoints(b, c);
      && Stage(g', held, placed, open, nulls) && Grows(g, g') && Points(g', nulls, true)
      && g'.labels == g.labels && g'.cur == g.cur && g'.blocks == g.blocks
  {
  }

  lemma {:induction false} GrowsRefl(g: Gen)
    ensures Grows(g, g)
  {
  }

  lemma {:induction false} PointsLater(g: Gen, g': Gen, nulls: bool, isSet: bool)
    requires Points(g, nulls, isSet) && Builds(g, g')
    ensures Points(g', nulls, isSet)
  {
  }

  /** The header or test block that a statement connects to is still empty. */
  lemma {:induction false} EntriesEmpty(g: Gen, content: nat)
    requires g.Ok()
    ensures WhileEntry(g).blocks[|g.blocks|] == []
    ensures DoEntry(g, content).blocks[|g.blocks|] == []
    ensures IfEntry(g).blocks[|g.blocks|] == []
    ensures g.WithConnectedBlock().blocks[|g.blocks|] == []
  {
  }

  lemma {:induction false} WhileEntryStage(g: Gen, held: set<int>, placed: set<string>, nulls: bool)
    requires Stage(g, held, placed, g.cur, nulls)
    ensures g.Ok()
    ensures var n, g' := |g.blocks|, WhileEntry(g);
      && Stage(g', held + {n + 2} + {n + 1}, placed, n, nulls) && n + 1 !in held && n + 2 !in held
      && Grows(g, g') && Points(g', nulls, true) && g'.labels == g.labels
      && g'.breakPoint == n + 2 && g'.continuePoint == n + 1
      && Grows(g.WithConnectedBlock(), g') && Builds(g, g.WithConnectedBlock())
  {
    hide Stage, Shape, Grows, Gen.Ok, Gen.Add, Gen.Append, Gen.WithBlock, Gen.WithConnectedBlock;
    StageShape(g, held, placed, g.cur, nulls);
    var n := |g.blocks|;
    var g1 := g.WithConnectedBlock();
    var g2 := g1.WithBlock();
    var g3 := g2.WithBlock();
    var g4 := g3.WithLoopPoints(n + 2, n + 1);
    ConnectedStage(g, held, placed, nulls);
    HoldStage(g1, held, placed, n, nulls);
    HoldStage(g2, held + {n + 1}, placed, n, nulls);
    assert held + {n + 1} + {n + 2} == held + {n + 2} + {n + 1};
    LoopPointsStage(g3, held + {n + 2} + {n + 1}, placed, n, nulls, n + 2, n + 1);
    GrowsTrans(g1, g2, g3);
    GrowsTrans(g1, g3, g4);
    GrowsTrans(g, g1, g4);
  }

  lemma {:induction false} WhileHeadStage(c: Expr, g: Gen, held: set<int>, placed: set<string>, nulls: bool)
    requires Stage(g, held, placed, g.cur, nulls)
    ensures g.Ok()
    ensures var n, g' := |g.blocks|, WhileHead(c, g);
      && Stage(g', held + {n + 2}, placed, n + 1, nulls) && n + 2 !in held
      && Grows(g, g') && Points(g', nulls, true) && g'.labels == g.labels && g'.cur == n + 1 && g'.blocks[n + 1] == []
      && g'.breakPoint == n + 2 && g'.continuePoint == n + 1
      && Grows(Condition(c, WhileEntry(g), n + 1, n + 2), g')
  {
    hide Stage, Shape, Grows, Gen.Ok, WhileEntry, Condition;
    StageShape(g, held, placed, g.cur, nulls);
    var n := |g.blocks|;
    WhileEntryStage(g, held, placed, nulls);
    var g1 := WhileEntry(g);
    ConditionStage(c, g1, held + {n + 2} + {n + 1}, placed, n + 1, n + 2, nulls);
    var g2 := Condition(c, g1, n + 1, n + 2);
    AtStage(g2, held + {n + 2} + {n + 1}, placed, n + 1, held + {n + 2}, nulls);
    GrowsTrans(g, g1, g2);
    GrowsRefl(g2);
    GrowsRefl(g2.At(n + 1));
    GrowsAt(g, g2, n + 1, g2.At(n + 1));
    GrowsAt(g2, g2, n + 1, g2.At(n + 1));
    PointsLater(g1, g2, nulls, true);
  }

  lemma {:induction false} DoEntryStage(g: Gen, content: nat, held: set<int>, placed: set<string>, nulls: bool)
    requires Stage(g, held, placed, g.cur, nulls) && content < |g.blocks|
    ensures g.Ok()
    ensures var n, g' := |g.blocks|, DoEntry(g, content);
      && Stage(g', held + {n + 1}, placed, n, nulls) && n + 1 !in held
      && Grows(g, g') && Points(g', nulls, true) && g'.labels == g.labels
      && g'.breakPoint == n + 1 && g'.continuePoint == content
      && Grows(g.WithConnectedBlock(), g') && Builds(g, g.WithConnectedBlock())
  {
    hide Stage, Shape, Grows, Gen.Ok, Gen.Add, Gen.Append, Gen.WithBlock, Gen.WithConnectedBlock;
    StageShape(g, held, placed, g.cur, nulls);
    var n := |g.blocks|;
    var g1 := g.WithConnectedBlock();
    var g2 := g1.WithBlock();
    var g3 := g2.WithLoopPoints(n + 1, content);
    ConnectedStage(g, held, placed, nulls);
    HoldStage(g1, held, placed, n, nulls);
    LoopPointsStage(g2, held + {n + 1}, placed, n, nulls, n + 1, content);
    assert g3.At(n) == g3;
    GrowsTrans(g1, g2, g3);
    GrowsTrans(g, g1, g3);
  }

  lemma {:induction false} DoTailStage(c: Expr, g: Gen, content: nat, held: set<int>, placed: set<string>, nulls: bool)
    requires Stage(g, held, placed, g.cur, nulls) && content < |g.blocks|
    ensures g.Ok()
    ensures var n, g' := |g.blocks|, DoTail(c, g, content);
      && Stage(g', held, placed, n + 1, nulls)
      && Grows(g, g') && Points(g', nulls, true) && g'.labels == g.labels && g'.cur == n + 1 && g'.blocks[n + 1] == []
      && g'.breakPoint == n + 1 && g'.continuePoint == content
      && Grows(Condition(c, DoEntry(g, content), content, n + 1), g')
  {
    hide Stage, Shape, Grows, Gen.Ok, DoEntry, Condition;
    StageShape(g, held, placed, g.cur, nulls);
    var n := |g.blocks|;
    DoEntryStage(g, content, held, placed, nulls);
    var g1 := DoEntry(g, content);
    ConditionStage(c, g1, held + {n + 1}, placed, content, n + 1, nulls);
    var g2 := Condition(c, g1, content, n + 1);
    AtStage(g2, held + {n + 1}, placed, n + 1, held, nulls);
    GrowsTrans(g, g1, g2);
    GrowsRefl(g2);
    GrowsRefl(g2.At(n + 1));
    GrowsAt(g, g2, n + 1, g2.At(n + 1));
    GrowsAt(g2, g2, n + 1, g2.At(n + 1));
    PointsLater(g1, g2, nulls, true);
  }

  lemma {:induction false} IfEntryStage(g: Gen, held: set<int>, placed: set<string>, nulls: bool)
    requires Stage(g, held, placed, g.cur, nulls)
    ensures g.Ok()
    ensures var n, g' := |g.blocks|, IfEntry(g);
      && Stage(g', held + {n + 3} + {n + 2} + {n + 1}, placed, n, nulls)
      && n + 3 !in held && n + 2 !in held && n + 1 !in held
      && Builds(g, g') && Grows(g.WithConnectedBlock(), g')
  {
    hide Stage, Shape, Grows, Gen.Ok, Gen.Add, Gen.Append, Gen.WithBlock, Gen.WithConnectedBlock;
    StageShape(g, held, placed, g.cur, nulls);
    var n := |g.blocks|;
    var g1 := g.WithConnectedBlock();
    var g2 := g1.WithBlock();
    var g3 := g2.WithBlock();
    var g4 := g3.WithBlock();
    ConnectedStage(g, held, placed, nulls);
    HoldStage(g1, held, placed, n, nulls);
    HoldStage(g2, held + {n + 1}, placed, n, nulls);
    HoldStage(g3, held + {n + 1} + {n + 2}, placed, n, nulls);
    assert held + {n + 1} + {n + 2} + {n + 3} == held + {n + 3} + {n + 2} + {n + 1};
    BuildsTrans(g1, g2, g3);
    BuildsTrans(g1, g3, g4);
    BuildsTrans(g, g1, g4);
  }

  lemma {:induction false} IfHeadStage(c: Expr, g: Gen, held: set<int>, placed: set<string>, nulls: bool)
    requires Stage(g, held, placed, g.cur, nulls)
    ensures g.Ok()
    ensures var n, g' := |g.blocks|, IfHead(c, g);
      && Stage(g', held + {n + 3} + {n + 2}, placed, n + 1, nulls) && n + 3 !in held && n + 2 !in held
      && Builds(g, g') && g'.cur == n + 1 && g'.blocks[n + 1] == []
      && Grows(Condition(c, IfEntry(g), n + 1, n + 2), g')
  {
    hide Stage, Shape, Grows, Gen.Ok, IfEntry, Condition;
    StageShape(g, held, placed, g.cur, nulls);
    var n := |g.blocks|;
    IfEntryStage(g, held, placed, nulls);
    var g1 := IfEntry(g);
    ConditionStage(c, g1, held + {n + 3} + {n + 2} + {n + 1}, placed, n + 1, n + 2, nulls);
    var g2 := Condition(c, g1, n + 1, n + 2);
    AtStage(g2, held + {n + 3} + {n + 2} + {n + 1}, placed, n + 1, held + {n + 3} + {n + 2}, nulls);
    BuildsTrans(g, g1, g2);
    GrowsRefl(g2);
    GrowsRefl(g2.At(n + 1));
    BuildsAt(g, g2, n + 1, g2.At(n + 1));
    GrowsAt(g2, g2, n + 1, g2.At(n + 1));
  }

  /** What a statement's code leaves. */
  ghost predicate Emitted(g: Gen, g': Gen, held: set<int>, placed: set<string>, s: Stmt, isSet: bool, nulls: bool) {
    && Stage(g', held, placed + Labels(s), g'.cur, nulls)
    && Grows(g, g')
    && Points(g', nulls, isSet || HasLoop(s))
    && (if HasLoop(s) then MovedPoints(g, g') else SamePoints(g, g'))
    && g'.labels.Keys == g.labels.Keys + Labels(s) + Gotos(s)
  }

  /** Every statement, in any context, leaves exactly one more place to put code. */
  lemma {:induction false} EmitStage(s: Stmt, g: Gen, held: set<int>, placed: set<string>, isSet: bool, nulls: bool)
    requires Stage(g, held, placed, g.cur, nulls) && Points(g, nulls, isSet)
    requires UniqueLabels(s) && Labels(s) !! placed && (nulls || JumpsLand(s, isSet))
    ensures g.Ok() && Emitted(g, Emit(s, g), held, placed, s, isSet, nulls)
    decreases s, 1
  {
    hide Stage, Shape, Grows, Gen.Ok, Gen.Add, Gen.Append, Gen.Jump, Gen.WithBlock, Gen.WithConnectedBlock, Rvalue, Condition, Emit, EmitAll, EmitElse;
    StageShape(g, held, placed, g.cur, nulls);
    EmitSimpleIs(s, g);
    match s
    case Expression(e) =>
      GrowsRefl(g);
      if e.Some? {
        RvalueStage(e.value, g, held, placed, nulls);
        PointsLater(g, Rvalue(e.value, g).0, nulls, isSet);
      }
      assert placed + Labels(s) == placed;
    case Compound(items) => EmitAllStage(items, g, held, placed, isSet, nulls);
    case Selection(c, a, b) => SelectionStage(s, g, held, placed, isSet, nulls);
    case While(c, b) => WhileStage(s, g, held, placed, isSet, nulls);
    case DoWhile(c, b) => DoStage(s, g, held, placed, isSet, nulls);
    case Return(e) =>
      var g1 := if e.Some? then Rvalue(e.value, g).0 else g;
      GrowsRefl(g);
      if e.Some? {
        RvalueStage(e.value, g, held, placed, nulls);
      }
      var op := if e.Some? then Ret(Rvalue(e.value, g).1) else RetVoid;
      DeadBlockStage(g1, held, placed, op, nulls);
      BuildsTrans(g, g1, Emit(s, g));
      PointsLater(g, Emit(s, g), nulls, isSet);
      assert placed + Labels(s) == placed;
    case Break =>
      JumpAwayStage(g, held, placed, g.breakPoint, nulls);
      assert placed + Labels(s) == placed;
    case Continue =>
      JumpAwayStage(g, held, placed, g.continuePoint, nulls);
      assert placed + Labels(s) == placed;
    case Goto(l) =>
      GotoStage(l, g, held, placed, isSet, nulls);
      assert placed + Labels(s) == placed;
    case Labeled(l, t) => LabeledStage(s, g, held, placed, isSet, nulls);
  }

  lemma {:induction false} DeadBlockStage(g: Gen, held: set<int>, placed: set<string>, op: Op, nulls: bool)
    requires Stage(g, held, placed, g.cur, nulls) && IsTerminator(Instr(0, op)) && TargetsIn(op, |g.blocks|, nulls)
    ensures var g' := g.Append(op).WithBlock().At(|g.blocks|);
      Stage(g', held, placed, g'.cur, nulls) && Builds(g, g')
  {
    JumpStage(g, held, placed, op, nulls);
    var g1 := g.Append(op);
    HoldStage(g1, held, placed, -1, nulls);
    AtStage(g1.WithBlock(), held + {|g.blocks|}, placed, |g.blocks|, held, nulls);
    BuildsTrans(g, g1, g1.WithBlock());
  }

  lemma {:induction false} JumpAwayStage(g: Gen, held: set<int>, placed: set<string>, t: BlockRef, nulls: bool)
    requires Stage(g, held, placed, g.cur, nulls) && IsTarget(t, |g.blocks|, nulls)
    ensures var g' := g.WithBlock().Append(Br(t)).At(|g.blocks|);
      Stage(g', held, placed, g'.cur, nulls) && Builds(g, g')
  {
    HoldStage(g, held, placed, g.cur, nulls);
    var g1 := g.WithBlock();
    JumpStage(g1, held + {|g.blocks|}, placed, Br(t), nulls);
    AtStage(g1.Append(Br(t)), held + {|g.blocks|}, placed, |g.blocks|, held, nulls);
    BuildsTrans(g, g1, g1.Append(Br(t)));
  }

  lemma {:induction false} GotoStage(l: string, g: Gen, held: set<int>, placed: set<string>, isSet: bool, nulls: bool)
    requires Stage(g, held, placed, g.cur, nulls) && Points(g, nulls, isSet)
    ensures g.Ok()
    ensures var g' := Emit(Goto(l), g);
      && Stage(g', held, placed, g'.cur, nulls) && Grows(g, g') && Points(g', nulls, isSet) && SamePoints(g, g')
      && g'.labels.Keys == g.labels.Keys + {l}
  {
    hide Stage, Shape, Grows, Gen.Ok, Gen.Add, Gen.Append, Gen.Jump, Gen.WithBlock, Gen.WithConnectedBlock, Rvalue, Condition, Emit, EmitAll, EmitElse;
    StageShape(g, held, placed, g.cur, nulls);
    EmitGotoIs(l, g);
    var n := |g.blocks|;
    var g1 := g.WithBlock();
    HoldStage(g, held, placed, g.cur, nulls);
    var g2 := g1.Jump(l);
    JumpLabelStage(g1, held + {n}, placed, l, nulls);
    AtStage(g2, held + {n}, placed, n, held, nulls);
    GrowsTrans(g, g1, g2);
    GrowsRefl(g2.At(n));
    GrowsAt(g, g2, n, g2.At(n));
  }

  /** A jump to a label, whether it is placed, named or new. */
  lemma {:induction false} JumpLabelStage(g: Gen, held: set<int>, placed: set<string>, l: string, nulls: bool)
    requires Stage(g, held, placed, g.cur, nulls)
    ensures g.Ok()
    ensures var g' := g.Jump(l);
      && Stage(g', held, placed, -1, nulls) && Grows(g, g')
      && g'.labels.Keys == g.labels.Keys + {l}
      && g'.breakPoint == g.breakPoint && g'.continuePoint == g.continuePoint
  {
    var g1 := g.WithLabel(l);
    if l in placed {
      assert l in g.labels && g1 == g && g.labels.Keys + {l} == g.labels.Keys;
    } else {
      LabelStage(g, held, placed, l, g.cur, nulls);
    }
    JumpStage(g1, held, placed, Br(g1.labels[l]), nulls);
    GrowsTrans(g, g1, g1.Append(Br(g1.labels[l])));
  }

  lemma {:induction false} SelectionStage(s: Stmt, g: Gen, held: set<int>, placed: set<string>, isSet: bool, nulls: bool)
    requires Stage(g, held, placed, g.cur, nulls) && Points(g, nulls, isSet) && s.Selection?
    requires UniqueLabels(s) && Labels(s) !! placed && (nulls || JumpsLand(s, isSet))
    ensures g.Ok() && Emitted(g, Emit(s, g), held, placed, s, isSet, nulls)
    decreases s, 0
  {
    hide Stage, Shape, Grows, Gen.Ok, Gen.Add, Gen.Append, Gen.Jump, Gen.WithBlock, Gen.WithConnectedBlock, Rvalue, Condition, Emit, EmitAll, EmitElse;
    StageShape(g, held, placed, g.cur, nulls);
    EmitSelectionIs(s, g);
    var Selection(c, a, b) := s;
    var n := |g.blocks|;
    IfHeadStage(c, g, held, placed, nulls);
    var g1 := IfHead(c, g);
    PointsLater(g, g1, nulls, isSet);
    EmitStage(a, g1, held + {n + 3} + {n + 2}, placed, isSet, nulls);
    var g2 := Emit(a, g1);
    GrowsTrans(g, g1, g2);
    ElseStage(b, g2, n + 2, held, placed + Labels(a), isSet || HasLoop(a), nulls);
    GrowsTrans(g, g2, Emit(s, g));
    assert placed + Labels(a) + (if b.Some? then Labels(b.value) else {}) == placed + Labels(s);
  }

  lemma {:induction false} ElseStage(b: Option<Stmt>, g: Gen, alternative: nat, held: set<int>, placed: set<string>, isSet: bool, nulls: bool)
    requires Stage(g, held + {alternative + 1} + {alternative}, placed, g.cur, nulls) && Points(g, nulls, isSet)
    requires alternative !in held && alternative + 1 !in held && alternative + 1 < |g.blocks|
    requires b.Some? ==> UniqueLabels(b.value) && Labels(b.value) !! placed && (nulls || JumpsLand(b.value, isSet))
    ensures g.Ok()
    ensures var g' := EmitElse(b, g.Append(Br(alternative + 1)), alternative);
      && Stage(g', held, placed + (if b.Some? then Labels(b.value) else {}), g'.cur, nulls) && Grows(g, g')
      && Points(g', nulls, isSet || (b.Some? && HasLoop(b.value)))
      && (if b.Some? && HasLoop(b.value) then MovedPoints(g, g') else SamePoints(g, g'))
      && g'.cur == alternative + 1 && g'.blocks[g'.cur] == []
      && g.cur < |g.blocks| && Grows(g.Append(Br(alternative + 1)), g')
      && (b.Some? ==> Grows(Emit(b.value, g.Append(Br(alternative + 1)).At(alternative)).Append(Br(alternative + 1)), g'))
      && g'.labels.Keys == g.labels.Keys + (if b.Some? then Labels(b.value) + Gotos(b.value) else {})
    decreases b, 0
  {
    hide Stage, Shape, Grows, Gen.Ok, Gen.Add, Gen.Append, Gen.Jump, Gen.WithBlock, Gen.WithConnectedBlock, Rvalue, Condition, Emit, EmitAll, EmitElse;
    StageShape(g, held + {alternative + 1} + {alternative}, placed, g.cur, nulls);
    var end := alternative + 1;
    EmitElseIs(b, g.Append(Br(end)), alternative);
    var g1 := g.Append(Br(end));
    JumpStage(g, held + {end} + {alternative}, placed, Br(end), nulls);
    PointsLater(g, g1, nulls, isSet);
    AtStage(g1, held + {end} + {alternative}, placed, alternative, held + {end}, nulls);
    if b.Some? {
      EmitStage(b.value, g1.At(alternative), held + {end}, placed, isSet, nulls);
      var g2 := Emit(b.value, g1.At(alternative));
      JumpStage(g2, held + {end}, placed + Labels(b.value), Br(end), nulls);
      PointsLater(g2, g2.Append(Br(end)), nulls, isSet || HasLoop(b.value));
      AtStage(g2.Append(Br(end)), held + {end}, placed + Labels(b.value), end, held, nulls);
      GrowsRefl(g2.Append(Br(end)).At(end));
      GrowsRefl(g2.Append(Br(end)));
      GrowsAt(g2.Append(Br(end)), g2.Append(Br(end)), end, g2.Append(Br(end)).At(end));
      GrowsTrans(g2, g2.Append(Br(end)), g2.Append(Br(end)).At(end));
      GrowsRefl(g1);
      GrowsAt(g1, g1, alternative, g2);
      GrowsTrans(g1, g2, g2.Append(Br(end)).At(end));
      GrowsTrans(g, g1, g2.Append(Br(end)).At(end));
    } else {
      var g2 := g1.At(alternative);
      JumpStage(g2, held + {end}, placed, Br(end), nulls);
      AtStage(g2.Append(Br(end)), held + {end}, placed, end, held, nulls);
      GrowsRefl(g1);
      GrowsRefl(g2.Append(Br(end)).At(end));
      GrowsAt(g1, g1, alternative, g2.Append(Br(end)));
      GrowsAt(g1, g2.Append(Br(end)), end, g2.Append(Br(end)).At(end));
      GrowsTrans(g, g1, g2.Append(Br(end)).At(end));
      assert placed + {} == placed;
    }
  }

  lemma {:induction false} WhileStage(s: Stmt, g: Gen, held: set<int>, placed: set<string>, isSet: bool, nulls: bool)
    requires Stage(g, held, placed, g.cur, nulls) && Points(g, nulls, isSet) && s.While?
    requires UniqueLabels(s) && Labels(s) !! placed && (nulls || JumpsLand(s, isSet))
    ensures g.Ok() && Emitted(g, Emit(s, g), held, placed, s, isSet, nulls)
    decreases s, 0
  {
    hide Stage, Shape, Grows, Gen.Ok, Gen.Add, Gen.Append, Gen.Jump, Gen.WithBlock, Gen.WithConnectedBlock, Rvalue, Condition, Emit, EmitAll, EmitElse;
    StageShape(g, held, placed, g.cur, nulls);
    EmitWhileIs(s, g);
    var While(c, b) := s;
    var n := |g.blocks|;
    WhileHeadStage(c, g, held, placed, nulls);
    var g1 := WhileHead(c, g);
    EmitStage(b, g1, held + {n + 2}, placed, true, nulls);
    var g2 := Emit(b, g1);
    JumpStage(g2, held + {n + 2}, placed + Labels(b), Br(n), nulls);
    PointsLater(g2, g2.Append(Br(n)), nulls, true);
    AtStage(g2.Append(Br(n)), held + {n + 2}, placed + Labels(b), n + 2, held, nulls);
    GrowsTrans(g, g1, g2);
    GrowsTrans(g, g2, g2.Append(Br(n)));
    GrowsRefl(g2.Append(Br(n)).At(n + 2));
    GrowsAt(g, g2.Append(Br(n)), n + 2, g2.Append(Br(n)).At(n + 2));
  }

  lemma {:induction false} DoStage(s: Stmt, g: Gen, held: set<int>, placed: set<string>, isSet: bool, nulls: bool)
    requires Stage(g, held, placed, g.cur, nulls) && Points(g, nulls, isSet) && s.DoWhile?
    requires UniqueLabels(s) && Labels(s) !! placed && (nulls || JumpsLand(s, isSet))
    ensures g.Ok() && Emitted(g, Emit(s, g), held, placed, s, isSet, nulls)
    decreases s, 0
  {
    hide Stage, Shape, Grows, Gen.Ok, Gen.Add, Gen.Append, Gen.Jump, Gen.WithBlock, Gen.WithConnectedBlock, Rvalue, Condition, Emit, EmitAll, EmitElse;
    StageShape(g, held, placed, g.cur, nulls);
    EmitDoIs(s, g);
    var DoWhile(c, b) := s;
    var n := |g.blocks|;
    ConnectedStage(g, held, placed, nulls);
    var g1 := g.WithConnectedBlock();
    PointsLater(g, g1, nulls, isSet);
    EmitStage(b, g1, held, placed, isSet, nulls);
    var g2 := Emit(b, g1);
    DoTailStage(c, g2, n, held, placed + Labels(b), nulls);
    GrowsTrans(g, g1, g2);
    GrowsTrans(g, g2, DoTail(c, g2, n));
  }

  lemma {:induction false} LabeledStage(s: Stmt, g: Gen, held: set<int>, placed: set<string>, isSet: bool, nulls: bool)
    requires Stage(g, held, placed, g.cur, nulls) && Points(g, nulls, isSet) && s.Labeled?
    requires UniqueLabels(s) && Labels(s) !! placed && (nulls || JumpsLand(s, isSet))
    ensures g.Ok() && Emitted(g, Emit(s, g), held, placed, s, isSet, nulls)
    decreases s, 0
  {
    hide Stage, Shape, Grows, Gen.Ok, Gen.Add, Gen.Append, Gen.Jump, Gen.WithBlock, Gen.WithConnectedBlock, Rvalue, Condition, Emit, EmitAll, EmitElse;
    StageShape(g, held, placed, g.cur, nulls);
    EmitLabeledIs(s, g);
    var Labeled(l, t) := s;
    JumpLabelStage(g, held, placed, l, nulls);
    var g1 := g.Jump(l);
    var b := g1.labels[l];
    PlaceStage(g1, held, placed, l, nulls);
    assert Points(g1.At(b), nulls, isSet);
    EmitStage(t, g1.At(b), held, placed + {l}, isSet, nulls);
    GrowsAt(g, g1, b, Emit(s, g));
    assert placed + {l} + Labels(t) == placed + Labels(s);
  }

  lemma {:induction false} EmitAllStage(ss: seq<Stmt>, g: Gen, held: set<int>, placed: set<string>, isSet: bool, nulls: bool)
    requires Stage(g, held, placed, g.cur, nulls) && Points(g, nulls, isSet)
    requires UniqueLabelsAll(ss) && LabelsAll(ss) !! placed && (nulls || JumpsLandAll(ss, isSet))
    ensures g.Ok()
    ensures var g' := EmitAll(ss, g);
      && Stage(g', held, placed + LabelsAll(ss), g'.cur, nulls) && Grows(g, g')
      && Points(g', nulls, isSet || HasLoopAll(ss)) && (if HasLoopAll(ss) then MovedPoints(g, g') else SamePoints(g, g'))
      && g'.labels.Keys == g.labels.Keys + LabelsAll(ss) + GotosAll(ss)
    decreases ss, 0
  {
    hide Stage, Shape, Grows, Gen.Ok, Emit, Points;
    StageShape(g, held, placed, g.cur, nulls);
    if ss == [] {
      GrowsRefl(g);
      assert placed + LabelsAll(ss) == placed;
    } else {
      EmitStage(ss[0], g, held, placed, isSet, nulls);
      var g1 := Emit(ss[0], g);
      EmitAllStage(ss[1..], g1, held, placed + Labels(ss[0]), isSet || HasLoop(ss[0]), nulls);
      GrowsTrans(g, g1, EmitAll(ss, g));
      assert placed + Labels(ss[0]) + LabelsAll(ss[1..]) == placed + LabelsAll(ss);
    }
  }
}
