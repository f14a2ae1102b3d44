module Optimised {
  /** From the source to the optimised graph: code generation followed by constant
      propagation, without the promotion of memory to registers in between. */

  import opened Ir
  import opened Options
  import opened Ast
  import opened CSemantics
  import opened Creator
  import opened Codegen
  import opened Preservation
  import opened Faithful
  import opened Lattice
  import opened SccpSound
  import opened SccpRun
  import opened SccpPass
  import opened SccpExit
  import opened SccpSettled
  import opened SccpOrder
  import SccpEnds
  import opened BranchRanks
  import opened BodyShape
  import PhiShape
  import PhiJoins

  lemma {:induction false} GeneratedEntry(f: Function)
    requires Admissible(f)
    ensures EntryHasNoPhi(EmitFunction(f).blocks)
  {
    hide Emit;
    PhiJoins.PhisListPredecessors(f);
    var g := EmitFunction(f).blocks;
    forall i: Instr | i in g[0]
      ensures !i.op.Phi?
    {
      assert i.op.Phi? ==> PhiShape.HasPhi(g, 0);
    }
  }

  /** The function after code generation and the folding of any closed tables stops
      with a result and a world exactly when the call, as the standard defines it,
      does. */
  lemma {:induction false} OptimisedMeansC(
    f: Function, args: seq<i32>, w: World, t: Table, live: set<BlockRef>, r: Option<i32>, w': World)
    requires Admissible(f) && Plain(f.body) && |args| == |f.params|
    requires Closed(EmitFunction(f).blocks, t, live)
    ensures |EmitFunction(f).blocks| > 0
    ensures var G := Fold(EmitFunction(f).blocks, t, live);
      Returns(C11, f, args, w, r, w') <==> Finishes(G, Start(G, args, w), r, w')
  {
    hide Emit, Admissible, Plain, Closed, Fold, Returns, Finishes, EntryHasNoPhi;
    GraphMeansC(f, args, w, r, w');
    var g := EmitFunction(f).blocks;
    GeneratedEntry(f);
    forall k: nat
      ensures Run(g, Start(g, args, w), k) != Stuck
    {
      GraphNeverStuck(f, args, w, k);
    }
    FoldKeepsMeaning(g, args, w, t, live, r, w');
  }

  lemma {:induction false} PlacedLand(s: Stmt, ok: bool, isSet: bool)
    requires JumpsPlaced(s, ok) && (ok ==> isSet)
    ensures JumpsLand(s, isSet)
    decreases s
  {
    match s
    case Compound(items) => PlacedLandAll(items, ok, isSet);
    case Selection(_, a, b) =>
      PlacedLand(a, ok, isSet);
      if b.Some? {
        PlacedLand(b.value, ok && !HasLoop(a), isSet || HasLoop(a));
      }
    case While(_, b) => PlacedLand(b, true, true);
    case DoWhile(_, b) => PlacedLand(b, false, isSet);
    case Labeled(_, t) => PlacedLand(t, ok, isSet);
    case _ =>
  }

  lemma {:induction false} PlacedLandAll(ss: seq<Stmt>, ok: bool, isSet: bool)
    requires JumpsPlacedAll(ss, ok) && (ok ==> isSet)
    ensures JumpsLandAll(ss, isSet)
    decreases ss
  {
    if ss != [] {
      PlacedLand(ss[0], ok, isSet);
      PlacedLandAll(ss[1..], ok && !HasLoop(ss[0]), isSet || HasLoop(ss[0]));
    }
  }

  /** The pass runs out of work on g after taking n blocks. */
  ghost predicate StopsAfter(g: Graph, n: nat) {
    && Proper(g) && Inside(g, Initial(g))
    && Rounds(g, Initial(g), n).queue == [] && !Rounds(g, Initial(g), n).failed
  }

  ghost function TablesAfter(g: Graph, n: nat): Tables
    requires StopsAfter(g, n)
  {
    Rounds(g, Initial(g), n)
  }

  ghost predicate NoZeroLost(g: Graph, s: Tables) {
    forall b | b in s.live && 0 <= b < |g| :: forall i <- g[b] :: !LostZero(i, s)
  }

  /** Code generation and then the pass as it runs: if the function passes the check on
      the order of its blocks, the pass ends; and if then no 0 was lost and none of its
      assertions failed, the folded graph does what the call does by the standard. */
  lemma {:induction false} OptimisedRunMeansC(
    f: Function, args: seq<i32>, w: World, reach: set<BlockRef>, unknown: set<nat>, n: nat, r: Option<i32>, w': World)
    requires Admissible(f) && Plain(f.body) && |args| == |f.params|
    requires InOrder(EmitFunction(f).blocks, reach, unknown) && StopsAfter(EmitFunction(f).blocks, n)
    requires NoZeroLost(EmitFunction(f).blocks, TablesAfter(EmitFunction(f).blocks, n))
    ensures |EmitFunction(f).blocks| > 0
    ensures var s := TablesAfter(EmitFunction(f).blocks, n);
      var G := Fold(EmitFunction(f).blocks, s.t, s.live);
      Returns(C11, f, args, w, r, w') <==> Finishes(G, Start(G, args, w), r, w')
  {
    hide EmitFunction, Admissible, Plain, InOrder, Ready, Closed, Settled, Fold, Returns, Finishes, LostZero, Rounds, Initial, Inside;
    var g := EmitFunction(f).blocks;
    OrderedRunSettles(g, reach, unknown, n);
    var s := TablesAfter(g, n);
    OptimisedMeansC(f, args, w, s.t, s.live, r, w');
  }

  /** The pass is given proper functions, and ends on them. */
  lemma {:induction false} PassRunsOn(f: Function)
    requires Admissible(f) && TestsOnly(f.body)
    ensures var g := EmitFunction(f).blocks;
      Proper(g) && Inside(g, Initial(g)) && exists n: nat :: SccpEnds.Ended(Rounds(g, Initial(g), n))
  {
    hide EmitFunction, JumpsPlaced, JumpsLand, Rounds, SccpEnds.Ended, TestsOnly;
    PlacedLand(f.body, false, false);
    FunctionIsReady(f);
    PassEndsOnFunction(f);
  }
}
