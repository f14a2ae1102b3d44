module WellFormed {
  /** Exactly when a generated function is a well-formed graph: every block has one
      terminator, at its end, and every branch target is a block of the function. */

  import opened Ir
  import opened Options
  import opened Ast
  import opened Creator
  import opened Codegen
  import opened GraphShape
  import opened BodyShape

  predicate IsWellFormed(blocks: Graph) {
    forall b <- blocks :: IsClosed(b) && forall i <- b :: TargetsIn(i.op, |blocks|, false)
  }

  /** Terminators stand only at the end of a block: no block has two. */
  predicate AtMostOneTerminator(blocks: Graph) {
    forall b <- blocks :: IsOpen(b) || IsClosed(b)
  }

  lemma {:induction false} ShapeHasNoDoubleTerminator(g: Gen, waiting: set<int>, open: int, nulls: bool)
    requires Shape(g, waiting, open, nulls)
    ensures AtMostOneTerminator(g.blocks)
  {
    forall b | b in g.blocks
      ensures IsOpen(b) || IsClosed(b)
    {
      var i :| 0 <= i < |g.blocks| && g.blocks[i] == b;
    }
  }

  // ----- the state before and after the body -----

  lemma {:induction false} PrologueStage(params: seq<string>, k: nat, g: Gen)
    requires k <= |params| && Stage(g, {}, {}, g.cur, false)
    ensures g.Ok()
    ensures var g' := Prologue(params, k, g);
      Stage(g', {}, {}, g'.cur, false) && Builds(g, g')
    decreases |params| - k
  {
    if k < |params| {
      JumpStage(g, {}, {}, Store(Arg(k), params[k]), false);
      PrologueStage(params, k + 1, g.Append(Store(Arg(k), params[k])));
      BuildsTrans(g, g.Append(Store(Arg(k), params[k])), Prologue(params, k, g));
    }
  }

  lemma {:induction false} BodyStartStage(f: Function)
    ensures var g := BodyStart(f);
      && Stage(g, {}, {}, g.cur, false) && g.labels == map[]
      && g.breakPoint == g.continuePoint == NO_BLOCK
  {
    assert Pending(map[], {}) == {};
    assert Stage(STARTED, {}, {}, 0, false);
    PrologueStage(f.params, 0, STARTED);
  }

  lemma {:induction false} WeakenNulls(g: Gen, held: set<int>, placed: set<string>, open: int)
    requires Stage(g, held, placed, open, false)
    ensures Stage(g, held, placed, open, true)
  {
    assert forall b, i | 0 <= b < |g.blocks| && i in g.blocks[b] :: TargetsIn(i.op, |g.blocks|, false) ==> TargetsIn(i.op, |g.blocks|, true);
  }

  /** Finishing closes the current block; only unplaced labels stay open. */
  lemma {:induction false} FinishShape(isVoid: bool, g: Gen, waiting: set<int>, nulls: bool)
    requires Shape(g, waiting, g.cur, nulls)
    ensures var g' := Finish(isVoid, g);
      Shape(g', waiting, -1, nulls) && Builds(g, g') && g' == g.Append(if isVoid then RetVoid else Ret(Const(0)))
  {
    assert !EndsBlock(g.blocks[g.cur]);
    AppendShape(g, waiting, if isVoid then RetVoid else Ret(Const(0)), nulls);
  }

  /** The stage at the end of the body, and what the finished function is. */
  lemma {:induction false} FunctionShape(f: Function, nulls: bool)
    requires UniqueLabels(f.body) && (nulls || JumpsLand(f.body, false))
    ensures var (g, fin) := (BodyStart(f), EmitFunction(f));
      var g1 := Emit(f.body, g);
      && Stage(g1, {}, Labels(f.body), g1.cur, nulls)
      && g1.labels.Keys == Labels(f.body) + Gotos(f.body)
      && Shape(fin, Pending(g1.labels, Labels(f.body)), -1, nulls)
      && Grows(g, g1) && Builds(g1, fin)
      && fin == g1.Append(if f.isVoid then RetVoid else Ret(Const(0)))
  {
    hide Stage, Shape, Emit, BodyStart, Gen.Ok, Gen.Append, Grows;
    var g := BodyStart(f);
    BodyStartStage(f);
    if nulls {
      WeakenNulls(g, {}, {}, g.cur);
    }
    EmitStage(f.body, g, {}, {}, false, nulls);
    var g1 := Emit(f.body, g);
    assert {} + Labels(f.body) == Labels(f.body);
    StageShape(g1, {}, Labels(f.body), g1.cur, nulls);
    assert {} + Pending(g1.labels, Labels(f.body)) == Pending(g1.labels, Labels(f.body));
    FinishShape(f.isVoid, g1, Pending(g1.labels, Labels(f.body)), nulls);
  }

  /** At every stage of any body with unique labels no block has two terminators,
      and neither has the finished function. */
  lemma {:induction false} NeverTwoTerminators(f: Function)
    requires UniqueLabels(f.body)
    ensures AtMostOneTerminator(EmitFunction(f).blocks)
  {
    FunctionShape(f, true);
    ShapeHasNoDoubleTerminator(EmitFunction(f), Pending(Emit(f.body, BodyStart(f)).labels, Labels(f.body)), -1, true);
  }

  // ----- jumps to nowhere -----

  /** Somewhere there is a branch to the null block. */
  ghost predicate HasNullBranch(g: Gen) {
    exists b, i :: 0 <= b < |g.blocks| && 0 <= i < |g.blocks[b]| && g.blocks[b][i].op == Br(NO_BLOCK)
  }

  lemma {:induction false} NullBranchStays(g: Gen, g': Gen)
    requires HasNullBranch(g) && Grows(g, g')
    ensures HasNullBranch(g')
  {
    var b, i :| 0 <= b < |g.blocks| && 0 <= i < |g.blocks[b]| && g.blocks[b][i].op == Br(NO_BLOCK);
    assert g.blocks[b] <= g'.blocks[b];
    assert g'.blocks[b][i] == g.blocks[b][i];
  }

  lemma {:induction false} JumpsLandOnceSet(s: Stmt)
    ensures JumpsLand(s, true)
    decreases s
  {
    match s
    case Compound(items) => JumpsLandAllOnceSet(items);
    case Selection(_, a, b) =>
      JumpsLandOnceSet(a);
      if b.Some? {
        JumpsLandOnceSet(b.value);
      }
    case While(_, b) => JumpsLandOnceSet(b);
    case DoWhile(_, b) => JumpsLandOnceSet(b);
    case Labeled(_, t) => JumpsLandOnceSet(t);
    case _ =>
  }

  lemma {:induction false} JumpsLandAllOnceSet(ss: seq<Stmt>)
    ensures JumpsLandAll(ss, true)
    decreases ss
  {
    if ss != [] {
      JumpsLandOnceSet(ss[0]);
      JumpsLandAllOnceSet(ss[1..]);
    }
  }

  predicate NoPoints(g: Gen) {
    g.breakPoint == NO_BLOCK && g.continuePoint == NO_BLOCK
  }

  lemma {:induction false} NullJump(g: Gen)
    requires g.Ok()
    ensures HasNullBranch(g.WithBlock().Append(Br(NO_BLOCK)).At(|g.blocks|))
  {
    var g' := g.WithBlock().Append(Br(NO_BLOCK)).At(|g.blocks|);
    var i := |g.blocks[g.cur]|;
    assert g'.blocks[g.cur][i].op == Br(NO_BLOCK);
  }

  /** A break or continue with no loop before it branches to the null block. */
  lemma {:induction false} NullBranchEmitted(s: Stmt, g: Gen, held: set<int>, placed: set<string>)
    requires Stage(g, held, placed, g.cur, true) && NoPoints(g)
    requires UniqueLabels(s) && Labels(s) !! placed && !JumpsLand(s, false)
    ensures g.Ok() && HasNullBranch(Emit(s, g))
    decreases s, 1
  {
    StageShape(g, held, placed, g.cur, true);
    hide Stage, Shape, Grows, Gen.Ok, Gen.Jump, Gen.Append, Rvalue, Condition, Emit, EmitAll, EmitElse, HasNullBranch;
    match s
    case Compound(items) =>
      EmitSimpleIs(s, g);
      NullBranchEmittedAll(items, g, held, placed);
    case Selection(c, a, b) => NullBranchInSelection(s, g, held, placed);
    case While(c, b) => JumpsLandOnceSet(b);
    case DoWhile(c, b) =>
      EmitDoIs(s, g);
      ConnectedStage(g, held, placed, true);
      var g1 := g.WithConnectedBlock();
      EmitStage(b, g1, held, placed, false, true);
      NullBranchEmitted(b, g1, held, placed);
      DoTailStage(c, Emit(b, g1), |g.blocks|, held, placed + Labels(b), true);
      NullBranchStays(Emit(b, g1), Emit(s, g));
    case Break =>
      EmitSimpleIs(s, g);
      NullJump(g);
    case Continue =>
      EmitSimpleIs(s, g);
      NullJump(g);
    case Labeled(l, t) =>
      EmitLabeledIs(s, g);
      JumpLabelStage(g, held, placed, l, true);
      PlaceStage(g.Jump(l), held, placed, l, true);
      NullBranchEmitted(t, g.Jump(l).AtLabel(l), held, placed + {l});
  }

  lemma {:induction false} NullBranchInSelection(s: Stmt, g: Gen, held: set<int>, placed: set<string>)
    requires Stage(g, held, placed, g.cur, true) && NoPoints(g) && s.Selection?
    requires UniqueLabels(s) && Labels(s) !! placed && !JumpsLand(s, false)
    ensures g.Ok() && HasNullBranch(Emit(s, g))
    decreases s, 0
  {
    hide Stage, Shape, Grows, Gen.Ok, Gen.Append, Rvalue, Condition, IfHead, Emit, EmitAll, EmitElse, HasNullBranch;
    StageShape(g, held, placed, g.cur, true);
    var Selection(c, a, b) := s;
    var end := |g.blocks| + 3;
    IfHeadStage(c, g, held, placed, true);
    var g1 := IfHead(c, g);
    var g2 := Emit(a, g1);
    EmitSelectionIs(s, g);
    EmitStage(a, g1, held + {end} + {end - 1}, placed, false, true);
    ElseStage(b, g2, end - 1, held, placed + Labels(a), HasLoop(a), true);
    if !JumpsLand(a, false) {
      NullBranchEmitted(a, g1, held + {end} + {end - 1}, placed);
      NullBranchStays(g2, Emit(s, g));
    } else {
      if HasLoop(a) {
        JumpsLandOnceSet(b.value);
      }
      NullBranchInElse(b, g2, end - 1, held, placed + Labels(a));
    }
  }

  lemma {:induction false} NullBranchInElse(b: Option<Stmt>, g: Gen, alternative: nat, held: set<int>, placed: set<string>)
    requires Stage(g, held + {alternative + 1} + {alternative}, placed, g.cur, true) && NoPoints(g)
    requires alternative !in held && alternative + 1 !in held && alternative + 1 < |g.blocks|
    requires b.Some? && UniqueLabels(b.value) && Labels(b.value) !! placed && !JumpsLand(b.value, false)
    ensures g.Ok() && HasNullBranch(EmitElse(b, g.Append(Br(alternative + 1)), alternative))
    decreases b, 0
  {
    var end := alternative + 1;
    StageShape(g, held + {end} + {alternative}, placed, g.cur, true);
    hide Stage, Shape, Grows, Gen.Ok, Gen.Append, Emit, EmitElse, HasNullBranch;
    JumpStage(g, held + {end} + {alternative}, placed, Br(end), true);
    var g1 := g.Append(Br(end));
    EmitElseIs(b, g1, alternative);
    AtStage(g1, held + {end} + {alternative}, placed, alternative, held + {end}, true);
    var g2 := g1.At(alternative);
    NullBranchEmitted(b.value, g2, held + {end}, placed);
    var g3 := Emit(b.value, g2);
    EmitStage(b.value, g2, held + {end}, placed, false, true);
    JumpStage(g3, held + {end}, placed + Labels(b.value), Br(end), true);
    NullBranchStays(g3, g3.Append(Br(end)));
    NullBranchMoves(g3.Append(Br(end)), end);
  }

  lemma {:induction false} NullBranchMoves(g: Gen, b: nat)
    requires HasNullBranch(g) && b < |g.blocks|
    ensures HasNullBranch(g.At(b))
  {
  }

  lemma {:induction false} NullBranchEmittedAll(ss: seq<Stmt>, g: Gen, held: set<int>, placed: set<string>)
    requires Stage(g, held, placed, g.cur, true) && NoPoints(g)
    requires UniqueLabelsAll(ss) && LabelsAll(ss) !! placed && !JumpsLandAll(ss, false)
    ensures g.Ok() && HasNullBranch(EmitAll(ss, g))
    decreases ss, 0
  {
    StageShape(g, held, placed, g.cur, true);
    hide Stage, Shape, Grows, Gen.Ok, Emit, HasNullBranch;
    EmitStage(ss[0], g, held, placed, false, true);
    var g1 := Emit(ss[0], g);
    if !JumpsLand(ss[0], false) {
      NullBranchEmitted(ss[0], g, held, placed);
      EmitAllStage(ss[1..], g1, held, placed + Labels(ss[0]), HasLoop(ss[0]), true);
      NullBranchStays(g1, EmitAll(ss, g));
    } else {
      if HasLoop(ss[0]) {
        JumpsLandAllOnceSet(ss[1..]);
      }
      NullBranchEmittedAll(ss[1..], g1, held, placed + Labels(ss[0]));
    }
  }

  // ----- the theorem -----

  /** A function whose labels are unique (the parser checks that) becomes a
      well-formed graph if and only if every goto names a label of the function
      and every break and continue comes after a loop set its target. */
  lemma {:induction false} WellFormedExactlyWhen(f: Function)
    requires UniqueLabels(f.body)
    ensures IsWellFormed(EmitFunction(f).blocks) <==> Gotos(f.body) <= Labels(f.body) && JumpsLand(f.body, false)
  {
    var g1, fin := Emit(f.body, BodyStart(f)), EmitFunction(f);
    var pending := Pending(g1.labels, Labels(f.body));
    if !JumpsLand(f.body, false) {
      NullBranchInFunction(f);
      var b, i :| 0 <= b < |fin.blocks| && 0 <= i < |fin.blocks[b]| && fin.blocks[b][i].op == Br(NO_BLOCK);
      var instr := fin.blocks[b][i];
      assert instr in fin.blocks[b] && fin.blocks[b] in fin.blocks;
      assert NO_BLOCK in Successors(instr.op);
    } else {
      FunctionShape(f, false);
      if Gotos(f.body) <= Labels(f.body) {
        assert pending == {};
      } else {
        var l :| l in Gotos(f.body) && l !in Labels(f.body);
        assert g1.labels[l] in pending;
        assert fin.blocks[g1.labels[l]] == [];
        assert fin.blocks[g1.labels[l]] in fin.blocks;
      }
    }
  }

  lemma {:induction false} NullBranchInFunction(f: Function)
    requires UniqueLabels(f.body) && !JumpsLand(f.body, false)
    ensures HasNullBranch(EmitFunction(f))
  {
    var g := BodyStart(f);
    BodyStartStage(f);
    WeakenNulls(g, {}, {}, g.cur);
    NullBranchEmitted(f.body, g, {}, {});
    FunctionShape(f, true);
    NullBranchStays(Emit(f.body, g), EmitFunction(f));
  }
}
