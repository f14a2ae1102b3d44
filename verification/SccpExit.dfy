module SccpExit {
  /** Where the pass stops. Its tables are sound when they are closed; this module
      says exactly which settled tables are, and shows a run of the pass that ends
      without that and, on a graph of another kind than the generator's, one that does
      not end. */

  import opened Ir
  import opened Options
  import opened Lattice
  import opened SccpSound
  import opened SccpRun
  import opened SccpPass
  import opened SccpEnds

  /** Visiting any reachable instruction once more would change nothing. */
  ghost predicate Settled(g: Graph, s: Tables)
    requires Arithmetical(g)
  {
    && !s.failed && 0 in s.live
    && forall b | b in s.live && 0 <= b < |g| :: Idle(g, g[b], s)
  }

  ghost predicate Idle(g: Graph, instrs: seq<Instr>, s: Tables) {
    forall i <- instrs :: Readable(i.op) && Unmoved(g, i, s)
  }

  ghost predicate Unmoved(g: Graph, i: Instr, s: Tables)
    requires Readable(i.op)
  {
    var s' := Visit(g, i, s);
    !s'.failed && s'.live == s.live && Find(s'.t, i.id) == Find(s.t, i.id)
  }

  /** A computed 0 that was not stored over bottom. */
  predicate LostZero(i: Instr, s: Tables) {
    i.op.Binary? && Transfer(i.op, s.t, s.live) == Known(0) && Find(s.t, i.id) == Bottom
  }

  /** A branch still mapped to the constant that its condition once was. */
  predicate StaleBranch(i: Instr, s: Tables) {
    i.op.CondBr? && Find(s.t, i.id).Known? && OfValue(i.op.a, s.t) == Top
  }

  lemma {:induction false} UnmovedIsClosedExactlyWhen(g: Graph, i: Instr, s: Tables)
    requires Readable(i.op) && !s.failed && BelowAt(i, s.t, s.live) && Unmoved(g, i, s)
    ensures ClosedAt(i, s.t, s.live) <==> !LostZero(i, s) && !StaleBranch(i, s)
  {
    hide Transfer, OfValue;
    match i.op
    case Binary(_, _, _) =>
      hide Visit;
      BinaryUpToDateExactlyWhen(g, i, s);
    case ICmp(_, _, _) => UnmovedOther(g, i, s);
    case ZExt(_) => UnmovedOther(g, i, s);
    case Phi(_) => UnmovedOther(g, i, s);
    case Load(_) => UnmovedOther(g, i, s);
    case CondBr(_, _, _) => UnmovedBranch(g, i, s);
    case Br(_) => UnmovedBranch(g, i, s);
    case _ =>
  }

  lemma {:induction false} UnmovedOther(g: Graph, i: Instr, s: Tables)
    requires Readable(i.op) && !s.failed && BelowAt(i, s.t, s.live) && Unmoved(g, i, s)
    requires i.op.ICmp? || i.op.ZExt? || i.op.Phi? || i.op.Load?
    ensures ClosedAt(i, s.t, s.live)
  {
    hide Transfer, OfValue, Visit;
    OthersUpToDate(g, i, s);
  }

  lemma {:induction false} UnmovedBranch(g: Graph, i: Instr, s: Tables)
    requires Readable(i.op) && !s.failed && BelowAt(i, s.t, s.live) && Unmoved(g, i, s)
    requires i.op.Br? || i.op.CondBr?
    ensures Targets(i.op, s.t) <= s.live
  {
    hide OfValue, Touch, Uses, Reachable;
  }

  /** Settled tables are closed, as SccpSound.FoldKeepsMeaning asks, exactly when no 0 was
      lost and no branch is stale. */
  lemma {:induction false} SettledIsClosedExactlyWhen(g: Graph, s: Tables)
    requires Arithmetical(g) && Settled(g, s) && Below(g, s.t, s.live)
    ensures Closed(g, s.t, s.live) <==>
      forall b | b in s.live && 0 <= b < |g| :: forall i <- g[b] :: !LostZero(i, s) && !StaleBranch(i, s)
  {
    hide Unmoved, ClosedAt, LostZero, StaleBranch, BelowAt;
    forall b, i | b in s.live && 0 <= b < |g| && i in g[b]
      ensures ClosedAt(i, s.t, s.live) <==> !LostZero(i, s) && !StaleBranch(i, s)
    {
      assert g[b] in g;
      UnmovedIsClosedExactlyWhen(g, i, s);
    }
  }

  // ----- runs of the pass -----

  lemma {:induction false} RoundIs(g: Graph, s: Tables, n: nat)
    requires Ready(g) && Inside(g, s) && n > 0 && !s.failed && s.queue != []
    ensures Inside(g, s.(queue := s.queue[1..]))
    ensures s.queue[0] !in s.live ==> Rounds(g, s, n) == Rounds(g, s.(queue := s.queue[1..]), n)
    ensures s.queue[0] in s.live ==>
      (forall i <- g[s.queue[0]] :: Readable(i.op)) &&
      var s' := VisitAll(g, g[s.queue[0]], s.(queue := s.queue[1..]));
      Inside(g, s') && Rounds(g, s, n) == Rounds(g, s', n - 1)
  {
    hide VisitAll, Inside, Readable;
    SmallerQueueInside(g, s, s.queue[1..]);
    if s.queue[0] in s.live {
      LiveInside(g, s, s.queue[0]);
      assert g[s.queue[0]] in g;
      BlockStaysInside(g, s.queue[0], s.(queue := s.queue[1..]));
    }
  }

  lemma {:induction false} NoRounds(g: Graph, s: Tables)
    requires Ready(g) && Inside(g, s)
    ensures Rounds(g, s, 0) == s
  {
  }

  /** `int x = 5; return x - 5;` with x in a register, without the block that the
      generator starts behind the return. */
  const ZERO: Graph := [[Instr(0, Binary(Sub, Const(5), Const(5))), Instr(1, Ret(Reg(0)))]]

  lemma ZeroReady()
    ensures Ready(ZERO) && Inside(ZERO, Initial(ZERO))
  {
  }

  /** A difference of 0 is lost: the pass ends with the subtraction still at bottom,
      and folding by its tables takes away the value that is returned. */
  lemma {:induction false} ZeroIsLost(args: seq<i32>, w: World)
    ensures Ready(ZERO) && Inside(ZERO, Initial(ZERO))
    ensures var s := Rounds(ZERO, Initial(ZERO), 1);
      && s.queue == [] && !s.failed && LostZero(ZERO[0][0], s) && !Closed(ZERO, s.t, s.live)
      && Finishes(ZERO, Start(ZERO, args, w), Some(0), w)
      && Run(Fold(ZERO, s.t, s.live), Start(Fold(ZERO, s.t, s.live), args, w), 1) == Stuck
  {
    ZeroReady();
    var s := Initial(ZERO);
    RoundIs(ZERO, s, 1);
    var i, j := ZERO[0][0], ZERO[0][1];
    var s0 := s.(queue := []);
    assert s.queue[1..] == [];
    var s1 := Visit(ZERO, i, s0);
    assert s1 == s0.(t := map[0 := Bottom]);
    var s2 := Visit(ZERO, j, s1);
    assert s2 == s0.(t := map[0 := Bottom, 1 := Top]);
    assert ZERO[0][1..] == [j] && ZERO[0][1..][1..] == [];
    assert VisitAll(ZERO, ZERO[0], s0) == VisitAll(ZERO, [j], s1) == VisitAll(ZERO, [], s2) == s2;
    assert Rounds(ZERO, s, 1) == s2;
    assert i in ZERO[0] && !ClosedAt(i, s2.t, s2.live);
    var c := Start(ZERO, args, w);
    var c1 := Step(ZERO, c);
    assert c1.rest == [j] && c1.regs == map[0 := 0];
    assert Run(ZERO, c, 2) == Run(ZERO, c1, 1) == Run(ZERO, Step(ZERO, c1), 0) == Halted(Some(0), w);
    var g' := Fold(ZERO, s2.t, s2.live);
    assert FoldInstrs([j], s2.t, s2.live) == [j];
    assert g'[0] == [j];
    var c' := Start(g', args, w);
    assert Run(g', c', 1) == Run(g', Step(g', c'), 0) == Stuck;
  }

  /** A block that branches to itself on a parameter. The generator makes no such
      function: its loops have an unconditional branch. */
  function Loop(): (g: Graph)
    ensures |g| == 3 && g[0] == [Instr(0, Br(1))]
    ensures g[1] == [Instr(1, CondBr(Arg(0), 1, 2))] && g[2] == [Instr(2, Ret(Const(0)))]
  {
    [[Instr(0, Br(1))], [Instr(1, CondBr(Arg(0), 1, 2))], [Instr(2, Ret(Const(0)))]]
  }

  lemma {:induction false} OneOfThree(b: seq<Instr>, i: Instr)
    requires b in Loop() && i in b
    ensures i.id < 3 && i == Loop()[i.id][0] && !i.op.Phi?
  {
  }

  lemma {:induction false} LoopReady()
    ensures Ready(Loop()) && Inside(Loop(), Initial(Loop()))
  {
    hide Loop;
    hide Inside, Initial;
    InitialInside(Loop());
    forall b, i | b in Loop() && i in b
      ensures i.id < 3 && i == Loop()[i.id][0]
    {
      OneOfThree(b, i);
    }
  }

  /** The queue never gets empty on it, however many blocks are taken. */
  lemma {:induction false} LoopNeverEnds(n: nat)
    ensures Ready(Loop()) && Inside(Loop(), Initial(Loop()))
    ensures !Ended(Rounds(Loop(), Initial(Loop()), n))
  {
    hide Loop, Ready, Inside, Rounds;
    var g := Loop();
    LoopReady();
    NoRounds(g, Initial(g));
    InitialBelow(g);
    forall b, i: Instr | 0 <= b < |g| && i in g[b]
      ensures !i.op.Phi?
    {
      OneOfThree(g[b], i);
    }
    PhiFreeNeverFails(g, Initial(g), n);
    if n > 0 {
      var s1 := FirstRound();
      RoundsAdd(g, Initial(g), 1, n - 1);
      CycleNeverEnds(g, [1], s1, n - 1);
    }
  }

  lemma {:induction false} FirstVisit()
    ensures forall i <- Loop()[0] :: Readable(i.op)
    ensures var s1 := VisitAll(Loop(), Loop()[0], Tables(map[], {0}, [1, 2], false));
      s1.t == map[] && s1.live == {0, 1} && !s1.failed && [1, 2] <= s1.queue
  {
    hide Uses;
    assert Loop()[0][1..] == [];
    var s1 := Visit(Loop(), Loop()[0][0], Tables(map[], {0}, [1, 2], false));
    assert VisitAll(Loop(), Loop()[0], Tables(map[], {0}, [1, 2], false)) == VisitAll(Loop(), [], s1) == s1;
  }

  lemma {:induction false} FirstRound() returns (s1: Tables)
    ensures Ready(Loop()) && Inside(Loop(), Initial(Loop())) && Inside(Loop(), s1) && Below(Loop(), s1.t, s1.live)
    ensures s1 == Rounds(Loop(), Initial(Loop()), 1) && !s1.failed
    ensures Undecided(Loop(), [1], s1.t) && Spinning([1], s1)
  {
    hide Ready, Rounds, Below, Inside, VisitAll;
    var g := Loop();
    LoopReady();
    InitialBelow(g);
    RoundIs(g, Initial(g), 1);
    assert Initial(g).queue[1..] == [1, 2];
    FirstVisit();
    s1 := VisitAll(g, g[0], Tables(map[], {0}, [1, 2], false));
    RoundsAscend(g, Initial(g), 1);
    NoRounds(g, s1);
    assert s1.queue[0] == 1;
  }
}
