/** A whole run of the pass after which a branch is folded although its condition
    changes: the loop below ends, its folded form does not. */
module SccpStale {
  import opened Ir
  import opened Options
  import opened Lattice
  import opened SccpSound
  import opened SccpRun
  import opened SccpPass
  import opened SccpExit

  /** `y = 0; while (!y) y = x; return y;` as it is compiled, with y in a register. The
      last block is the one that the generator starts behind the return. */
  const CODE: seq<Op> := [
    Br(1),
    Phi([(Const(0), 0), (Reg(4), 2)]), ICmp(NE, Reg(1), Const(0)), CondBr(Reg(2), 3, 2),
    Load("x"), Br(1),
    Ret(Reg(1)),
    Ret(Const(0))]

  function At(k: nat): Instr
    requires k < 8
  {
    Instr(k, CODE[k])
  }

  function Loop(): (g: Graph)
    ensures |g| == 5 && g[0] == [At(0)] && g[1] == [At(1), At(2), At(3)] && g[2] == [At(4), At(5)] && g[3] == [At(6)] && g[4] == [At(7)]
  {
    [[At(0)], [At(1), At(2), At(3)], [At(4), At(5)], [At(6)], [At(7)]]
  }

  lemma {:induction false} OneOfEight(b: nat, i: Instr)
    requires b < 5 && i in Loop()[b]
    ensures i.id < 8 && i == At(i.id) && Readable(i.op)
    ensures forall t <- Successors(i.op) :: 0 <= t < 5
  {
  }

  lemma {:induction false} GReady()
    ensures Ready(Loop()) && Inside(Loop(), Initial(Loop()))
  {
    hide Inside, Initial, Loop, At, Readable, Successors;
    InitialInside(Loop());
    forall b, i | 0 <= b < |Loop()| && i in Loop()[b]
      ensures i.id < 8 && i == At(i.id) && Readable(i.op)
      ensures forall t <- Successors(i.op) :: 0 <= t < |Loop()|
    {
      OneOfEight(b, i);
    }
    assert DistinctIds(Loop()) by {
      forall b, i | b in Loop() && i in b
        ensures i.id < 8 && i == At(i.id)
      {
        var k :| 0 <= k < |Loop()| && Loop()[k] == b;
      }
    }
  }

  lemma {:induction false} UsesSplit(id: nat)
    ensures Uses(Loop(), 0, id) == UsesIn(Loop()[0], 0, id) + (UsesIn(Loop()[1], 1, id) + (UsesIn(Loop()[2], 2, id) + (UsesIn(Loop()[3], 3, id) + UsesIn(Loop()[4], 4, id))))
  {
    hide UsesIn, Loop;
    assert Uses(Loop(), 5, id) == [];
    assert Uses(Loop(), 4, id) == UsesIn(Loop()[4], 4, id) + [] == UsesIn(Loop()[4], 4, id);
    assert Uses(Loop(), 3, id) == UsesIn(Loop()[3], 3, id) + Uses(Loop(), 4, id);
    assert Uses(Loop(), 2, id) == UsesIn(Loop()[2], 2, id) + Uses(Loop(), 3, id);
    assert Uses(Loop(), 1, id) == UsesIn(Loop()[1], 1, id) + Uses(Loop(), 2, id);
  }

  lemma {:induction false} UsesOne(b: nat, i: Instr, rest: seq<Instr>, id: nat)
    ensures UsesIn([i] + rest, b, id) == (if Reg(id) in Operands(i.op) then [b] else []) + UsesIn(rest, b, id)
    ensures UsesIn([], b, id) == []
  {
    assert ([i] + rest)[1..] == rest;
  }

  lemma {:induction false} UsesOf()
    ensures Uses(Loop(), 0, 0) == [] && Uses(Loop(), 0, 1) == [1, 3] && Uses(Loop(), 0, 2) == [1]
    ensures Uses(Loop(), 0, 4) == [1] && Uses(Loop(), 0, 5) == []
  {
    hide Uses, UsesIn;
    forall id: nat
      ensures Uses(Loop(), 0, id) == (if id == 1 || id == 2 || id == 4 then [1] else []) + (if id == 1 then [3] else [])
    {
      UsesSplit(id);
      UsesInHead(id);
      UsesInOthers(id);
    }
  }

  lemma {:induction false} UsesInHead(id: nat)
    ensures UsesIn(Loop()[1], 1, id) == if id == 1 || id == 2 || id == 4 then [1] else []
  {
    hide UsesIn;
    assert Operands(At(1).op) == [Const(0), Reg(4)];
    assert [At(1)] + [At(2), At(3)] == [At(1), At(2), At(3)] && [At(2)] + [At(3)] == [At(2), At(3)];
    UsesOne(1, At(1), [At(2), At(3)], id);
    UsesOne(1, At(2), [At(3)], id);
    UsesOne(1, At(3), [], id);
    assert [At(3)] + [] == [At(3)];
  }

  lemma {:induction false} UsesInOthers(id: nat)
    ensures UsesIn(Loop()[0], 0, id) == [] && UsesIn(Loop()[2], 2, id) == [] && UsesIn(Loop()[4], 4, id) == []
    ensures UsesIn(Loop()[3], 3, id) == if id == 1 then [3] else []
  {
    hide UsesIn;
    assert [At(4)] + [At(5)] == [At(4), At(5)];
    UsesOne(2, At(4), [At(5)], id);
    UsesOne(2, At(5), [], id);
    UsesOne(0, At(0), [], id);
    UsesOne(3, At(6), [], id);
    UsesOne(4, At(7), [], id);
    assert [At(0)] + [] == [At(0)] && [At(5)] + [] == [At(5)] && [At(6)] + [] == [At(6)] && [At(7)] + [] == [At(7)];
  }

  lemma {:induction false} VisitLoopHead(s: Tables)
    ensures VisitAll(Loop(), Loop()[1], s) == Visit(Loop(), At(3), Visit(Loop(), At(2), Visit(Loop(), At(1), s)))
  {
    hide Visit;
    assert [At(1), At(2), At(3)][1..] == [At(2), At(3)] && [At(2), At(3)][1..] == [At(3)] && [At(3)][1..] == [];
    var s1 := Visit(Loop(), At(1), s);
    var s2 := Visit(Loop(), At(2), s1);
    assert VisitAll(Loop(), [At(2), At(3)], s1) == VisitAll(Loop(), [At(3)], s2) == VisitAll(Loop(), [], Visit(Loop(), At(3), s2));
  }

  lemma {:induction false} VisitLoopBody(s: Tables)
    ensures VisitAll(Loop(), Loop()[2], s) == Visit(Loop(), At(5), Visit(Loop(), At(4), s))
  {
    hide Visit;
    assert [At(4), At(5)][1..] == [At(5)] && [At(5)][1..] == [];
    var s1 := Visit(Loop(), At(4), s);
    assert VisitAll(Loop(), [At(5)], s1) == VisitAll(Loop(), [], Visit(Loop(), At(5), s1));
  }

  lemma {:induction false} VisitOne(b: nat, s: Tables)
    requires b == 0 || b == 3
    ensures VisitAll(Loop(), Loop()[b], s) == Visit(Loop(), Loop()[b][0], s)
  {
    hide Visit;
    assert Loop()[b][1..] == [];
  }

  // ----- the tables after each block taken from the queue -----

  const T2: Table := map[1 := Known(0), 2 := Known(0), 3 := Known(0)]
  const T3: Table := map[1 := Known(0), 2 := Known(0), 3 := Known(0), 4 := Top]
  const T4: Table := map[1 := Top, 2 := Top, 3 := Known(0), 4 := Top]
  const T5: Table := map[1 := Top, 2 := Top, 3 := Known(0), 4 := Top, 6 := Top]

  /** What the phi of this function finds. */
  lemma {:induction false} PhiElement(t: Table, live: set<BlockRef>)
    ensures Transfer(At(1).op, t, live) ==
      Join(if 0 in live then Known(0) else Bottom, if 2 in live then Find(t, 4) else Bottom)
    ensures 1 in t && (2 in live ==> 4 in t) ==> TouchIncoming(At(1).op.incoming, Touch(t, Reg(1)), live) == t
  {
    var incoming := At(1).op.incoming;
    assert incoming[1..] == [incoming[1]] && [incoming[1]][1..] == [];
    assert OfIncoming([incoming[1]], t, live) == if 2 in live then Find(t, 4) else Bottom;
    assert TouchIncoming([], t, live) == t;
    assert TouchIncoming([incoming[1]], t, live) == if 2 in live then Touch(t, Reg(4)) else t;
  }

  lemma {:induction false} ReachableTwo(b: BlockRef, c: BlockRef, live: set<BlockRef>)
    ensures Reachable([], live) == []
    ensures Reachable([b], live) == if b in live then [b] else []
    ensures Reachable([b, c], live) == Reachable([b], live) + Reachable([c], live)
  {
    assert [b][1..] == [] && [b, c][1..] == [c];
  }

  lemma {:induction false} First(queue: seq<BlockRef>)
    ensures VisitAll(Loop(), Loop()[0], Tables(map[], {0}, queue, false)) == Tables(map[], {0, 1}, queue, false)
  {
    hide Uses;
    UsesOf();
    VisitOne(0, Tables(map[], {0}, queue, false));
    ReachableTwo(0, 0, {0});
  }

  /** A visit that raises the element of the phi. */
  lemma {:induction false} PhiRises(s: Tables, e: Element)
    requires !s.failed && 1 in s.live && 3 !in s.live && (2 in s.live ==> 4 in s.t)
    requires e == Transfer(At(1).op, s.t, s.live) && !e.Bottom? && e != Find(s.t, 1) && Rank(Find(s.t, 1)) <= Rank(e)
    ensures Visit(Loop(), At(1), s) == s.(t := s.t[1 := e], queue := s.queue + [1])
  {
    hide Uses, Transfer, Reachable, TouchIncoming;
    UsesOf();
    var t1 := Touch(s.t, Reg(1));
    PhiElement(t1, s.live);
    ReachableTwo(1, 3, s.live);
    ReachableTwo(3, 3, s.live);
    assert Touch(t1, Reg(1)) == t1;
    assert t1[1 := e] == s.t[1 := e];
  }

  /** The comparison with 0 that decides the branch. */
  lemma {:induction false} ComparisonRises(s: Tables)
    requires !s.failed && 1 in s.live && 1 in s.t
    requires s.t[1] == Known(0) || (s.t[1] == Top && Find(s.t, 2).Known?)
    ensures s.t[1] == Known(0) && Rank(Find(s.t, 2)) <= 1 ==> Visit(Loop(), At(2), s) == s.(t := s.t[2 := Known(0)])
    ensures s.t[1] == Top ==> Visit(Loop(), At(2), s) == s.(t := s.t[2 := Top], queue := s.queue + [1])
  {
    hide Uses, Reachable;
    UsesOf();
    ReachableTwo(1, 1, s.live);
    assert Touch(s.t, Reg(1)) == s.t;
    assert Touch(s.t, Reg(2))[2 := Known(0)] == s.t[2 := Known(0)];
    assert Touch(s.t, Reg(2))[2 := Top] == s.t[2 := Top];
  }

  lemma {:induction false} Second()
    ensures VisitAll(Loop(), Loop()[1], Tables(map[], {0, 1}, [2, 3, 4], false)) == Tables(T2, {0, 1, 2}, [2, 3, 4, 1, 2], false)
  {
    hide Uses, Transfer, Reachable, TouchIncoming, Loop;
    var s := Tables(map[], {0, 1}, [2, 3, 4], false);
    VisitLoopHead(s);
    PhiElement(map[], {0, 1});
    PhiRises(s, Known(0));
    ComparisonRises(s.(t := map[1 := Known(0)], queue := [2, 3, 4, 1]));
    assert T2 == map[1 := Known(0)][2 := Known(0)][3 := Known(0)];
  }

  lemma {:induction false} Third()
    ensures VisitAll(Loop(), Loop()[2], Tables(T2, {0, 1, 2}, [3, 4, 1, 2], false)) == Tables(T3, {0, 1, 2}, [3, 4, 1, 2, 1], false)
  {
    hide Uses, Transfer, Reachable, TouchIncoming, Loop;
    var s := Tables(T2, {0, 1, 2}, [3, 4, 1, 2], false);
    VisitLoopBody(s);
    LoadRises(s);
    UsesOf();
    ReachableTwo(1, 1, {0, 1, 2});
  }

  lemma {:induction false} LoadRises(s: Tables)
    requires !s.failed && 1 in s.live && 4 !in s.t
    ensures Visit(Loop(), At(4), s) == s.(t := s.t[4 := Top], queue := s.queue + [1])
  {
    hide Uses, Reachable;
    UsesOf();
    ReachableTwo(1, 1, s.live);
    assert s.t[4 := Bottom][4 := Top] == s.t[4 := Top];
  }

  lemma {:induction false} Fourth()
    ensures VisitAll(Loop(), Loop()[1], Tables(T3, {0, 1, 2}, [2, 1], false)) == Tables(T4, {0, 1, 2, 3}, [2, 1, 1, 1, 3, 2], false)
  {
    hide Uses, Transfer, Reachable, TouchIncoming, Loop;
    var s := Tables(T3, {0, 1, 2}, [2, 1], false);
    VisitLoopHead(s);
    PhiElement(T3, {0, 1, 2});
    PhiRises(s, Top);
    var t := T3[1 := Top];
    var s1 := s.(t := t, queue := [2, 1, 1]);
    assert Visit(Loop(), At(1), s) == s1;
    ComparisonRises(s1);
    assert t[2 := Top] == T4;
    var s2 := Tables(T4, {0, 1, 2}, [2, 1, 1, 1], false);
    assert Visit(Loop(), At(2), s1) == s2;
    assert Visit(Loop(), At(3), s2) == Tables(T4, {0, 1, 2} + {3, 2}, [2, 1, 1, 1] + [3, 2], false);
  }

  /** From then on visits add to the queue at most. */
  lemma {:induction false} Later(b: nat, t: Table, queue: seq<BlockRef>)
    requires 1 <= b <= 3 && (t == T4 || t == T5)
    ensures VisitAll(Loop(), Loop()[b], Tables(t, {0, 1, 2, 3}, queue, false))
      == Tables(if b == 3 then T5 else t, {0, 1, 2, 3}, if b == 1 then queue + [3, 2] else queue, false)
  {
    hide Uses, Transfer, TouchIncoming, Reachable;
    UsesOf();
    var s := Tables(t, {0, 1, 2, 3}, queue, false);
    PhiElement(t, s.live);
    ReachableTwo(1, 1, s.live);
    if b == 3 {
      VisitOne(3, s);
      assert t[6 := Top] == T5;
    } else if b == 1 {
      VisitLoopHead(s);
      assert Visit(Loop(), At(1), s) == s;
      assert Visit(Loop(), At(2), s) == s by { ComparisonStays(s); }
    } else {
      VisitLoopBody(s);
      assert Visit(Loop(), At(4), s) == s;
      assert queue + [] == queue;
    }
  }

  lemma {:induction false} ComparisonStays(s: Tables)
    requires !s.failed && 1 in s.t && 2 in s.t && s.t[1] == Top && s.t[2] == Top
    ensures Visit(Loop(), At(2), s) == s
  {
  }

  /** The queue runs empty after n more visits of the last blocks. */
  lemma {:induction false} Drain(t: Table, queue: seq<BlockRef>)
    requires (t == T4 || t == T5) && forall b <- queue :: b == 2 || b == 3
    ensures Ready(Loop()) && Inside(Loop(), Tables(t, {0, 1, 2, 3}, queue, false))
    ensures Rounds(Loop(), Tables(t, {0, 1, 2, 3}, queue, false), |queue|)
      == Tables(if 3 in queue then T5 else t, {0, 1, 2, 3}, [], false)
    decreases queue
  {
    hide VisitAll, Ready, Loop;
    GReady();
    if queue != [] {
      assert queue[0] in queue;
      RoundIs(Loop(), Tables(t, {0, 1, 2, 3}, queue, false), |queue|);
      Later(queue[0], t, queue[1..]);
      Drain(if queue[0] == 3 then T5 else t, queue[1..]);
    }
  }

  lemma {:induction false} Taken(s: Tables, b: BlockRef, queue: seq<BlockRef>, s': Tables, n: nat)
    requires Ready(Loop()) && Inside(Loop(), s) && n > 0 && !s.failed && s.queue == [b] + queue && b in s.live
    requires 0 <= b < 5 && VisitAll(Loop(), Loop()[b], s.(queue := queue)) == s'
    ensures Inside(Loop(), s') && Rounds(Loop(), s, n) == Rounds(Loop(), s', n - 1)
  {
    hide VisitAll, Ready, Inside, Loop, Rounds;
    assert s.queue[0] == b && s.queue[1..] == queue;
    RoundIs(Loop(), s, n);
  }

  /** A block that is not reachable is dropped. */
  lemma {:induction false} Dropped(s: Tables, b: BlockRef, queue: seq<BlockRef>, n: nat)
    requires Ready(Loop()) && Inside(Loop(), s) && n > 0 && !s.failed && s.queue == [b] + queue && b !in s.live
    ensures Inside(Loop(), s.(queue := queue)) && Rounds(Loop(), s, n) == Rounds(Loop(), s.(queue := queue), n)
  {
    hide VisitAll, Ready, Inside, Loop, Rounds;
    assert s.queue[0] == b && s.queue[1..] == queue;
    RoundIs(Loop(), s, n);
  }

  /** The pass stops after taking 16 blocks, with a stale branch. */
  lemma {:induction false} StaleRun()
    ensures Ready(Loop()) && Inside(Loop(), Initial(Loop()))
    ensures Rounds(Loop(), Initial(Loop()), 16) == Tables(T5, {0, 1, 2, 3}, [], false)
  {
    hide VisitAll, Ready, Inside, Loop, Rounds;
    GReady();
    var s0 := Initial(Loop());
    assert s0 == Tables(map[], {0}, [0, 1, 2, 3, 4], false);
    First([1, 2, 3, 4]);
    var s1 := Tables(map[], {0, 1}, [1, 2, 3, 4], false);
    Taken(s0, 0, [1, 2, 3, 4], s1, 16);
    Second();
    var s2 := Tables(T2, {0, 1, 2}, [2, 3, 4, 1, 2], false);
    Taken(s1, 1, [2, 3, 4], s2, 15);
    Third();
    var s3 := Tables(T3, {0, 1, 2}, [3, 4, 1, 2, 1], false);
    Taken(s2, 2, [3, 4, 1, 2], s3, 14);
    StaleRunEnds(s3);
  }

  lemma {:induction false} StaleRunEnds(s3: Tables)
    requires Ready(Loop()) && Inside(Loop(), s3) && s3 == Tables(T3, {0, 1, 2}, [3, 4, 1, 2, 1], false)
    ensures Rounds(Loop(), s3, 13) == Tables(T5, {0, 1, 2, 3}, [], false)
  {
    hide VisitAll, Ready, Inside, Loop, Rounds;
    Dropped(s3, 3, [4, 1, 2, 1], 13);
    Dropped(s3.(queue := [4, 1, 2, 1]), 4, [1, 2, 1], 13);
    var s3' := Tables(T3, {0, 1, 2}, [1, 2, 1], false);
    Fourth();
    var s4 := Tables(T4, {0, 1, 2, 3}, [2, 1, 1, 1, 3, 2], false);
    Taken(s3', 1, [2, 1], s4, 13);
    Later(2, T4, [1, 1, 1, 3, 2]);
    var s5 := Tables(T4, {0, 1, 2, 3}, [1, 1, 1, 3, 2], false);
    Taken(s4, 2, [1, 1, 1, 3, 2], s5, 12);
    StaleRunDrains(s5);
  }

  /** The head of the loop is taken once more. */
  lemma {:induction false} HeadAgain(queue: seq<BlockRef>, n: nat)
    requires Ready(Loop()) && Inside(Loop(), Tables(T4, {0, 1, 2, 3}, [1] + queue, false)) && n > 0
    ensures Inside(Loop(), Tables(T4, {0, 1, 2, 3}, queue + [3, 2], false))
    ensures Rounds(Loop(), Tables(T4, {0, 1, 2, 3}, [1] + queue, false), n)
      == Rounds(Loop(), Tables(T4, {0, 1, 2, 3}, queue + [3, 2], false), n - 1)
  {
    hide VisitAll, Ready, Inside, Loop, Rounds;
    Later(1, T4, queue);
    Taken(Tables(T4, {0, 1, 2, 3}, [1] + queue, false), 1, queue, Tables(T4, {0, 1, 2, 3}, queue + [3, 2], false), n);
  }

  lemma {:induction false} StaleRunDrains(s5: Tables)
    requires Ready(Loop()) && Inside(Loop(), s5) && s5 == Tables(T4, {0, 1, 2, 3}, [1, 1, 1, 3, 2], false)
    ensures Rounds(Loop(), s5, 11) == Tables(T5, {0, 1, 2, 3}, [], false)
  {
    hide VisitAll, Ready, Inside, Loop, Rounds;
    assert [1] + [1, 1, 3, 2] == [1, 1, 1, 3, 2];
    HeadAgain([1, 1, 3, 2], 11);
    assert [1, 1, 3, 2] + [3, 2] == [1] + [1, 3, 2, 3, 2];
    HeadAgain([1, 3, 2, 3, 2], 10);
    assert [1, 3, 2, 3, 2] + [3, 2] == [1] + [3, 2, 3, 2, 3, 2];
    HeadAgain([3, 2, 3, 2, 3, 2], 9);
    assert [3, 2, 3, 2, 3, 2] + [3, 2] == [3, 2, 3, 2, 3, 2, 3, 2];
    Drain(T4, [3, 2, 3, 2, 3, 2, 3, 2]);
  }

  // ----- what the folding does to the function -----

  const LIVE: set<BlockRef> := {0, 1, 2, 3}

  lemma {:induction false} FoldedLoop()
    ensures var g' := Fold(Loop(), T5, LIVE);
      && |g'| == 5 && g'[0] == Loop()[0] && g'[2] == Loop()[2]
      && g'[1] == [At(1), At(2), Instr(3, Br(2))]
  {
    assert [At(0)][1..] == [];
    assert [At(1), At(2), At(3)][1..] == [At(2), At(3)] && [At(2), At(3)][1..] == [At(3)] && [At(3)][1..] == [];
    assert [At(4), At(5)][1..] == [At(5)] && [At(5)][1..] == [];
    assert FoldInstrs([], T5, LIVE) == [];
    FoldedPhi();
    assert FoldInstrs([At(3)], T5, LIVE) == [Instr(3, Br(2))];
    assert FoldInstrs([At(2), At(3)], T5, LIVE) == [At(2)] + [Instr(3, Br(2))];
    assert FoldInstrs(Loop()[1], T5, LIVE) == [At(1)] + ([At(2)] + [Instr(3, Br(2))]);
    assert FoldInstrs([At(5)], T5, LIVE) == [At(5)];
    assert FoldInstrs(Loop()[2], T5, LIVE) == [At(4)] + [At(5)];
    assert FoldInstrs(Loop()[0], T5, LIVE) == [At(0)] + [];
  }

  lemma {:induction false} FoldedPhi()
    ensures FoldOp(At(1), T5, LIVE) == At(1).op
  {
    var incoming := At(1).op.incoming;
    assert incoming[1..] == [incoming[1]] && [incoming[1]][1..] == [];
    assert FoldIncoming([], T5, LIVE) == [];
    assert FoldIncoming([incoming[1]], T5, LIVE) == [incoming[1]];
    assert FoldIncoming(incoming, T5, LIVE) == [incoming[0]] + [incoming[1]];
  }

  ghost predicate AtLoop(g': Graph, c: Config) {
    && c.Running? && c.blk == 1 && |g'| == 5 && c.rest == g'[1]
    && (c.prev == 0 || (c.prev == 2 && 4 in c.regs))
  }

  /** Five steps of the folded loop lead back to it. */
  lemma {:induction false} AroundTheLoop(c: Config)
    requires var g' := Fold(Loop(), T5, LIVE); AtLoop(g', c)
    ensures var g' := Fold(Loop(), T5, LIVE);
      && AtLoop(g', Run(g', c, 5))
      && Run(g', c, 0).Running? && Run(g', c, 1).Running? && Run(g', c, 2).Running? && Run(g', c, 3).Running? && Run(g', c, 4).Running?
  {
    hide Fold, Run;
    FoldedLoop();
    var g' := Fold(Loop(), T5, LIVE);
    var incoming := At(1).op.incoming;
    assert incoming[1..] == [incoming[1]];
    assert Select([incoming[1]], 2) == Some(Reg(4));
    assert Select(incoming, c.prev).Some?;
    var c1 := Step(g', c);
    assert c1.Running? && c1.rest == [At(2), Instr(3, Br(2))] && 1 in c1.regs;
    var c2 := Step(g', c1);
    assert c2.Running? && c2.rest == [Instr(3, Br(2))];
    var c3 := Step(g', c2);
    assert c3.Running? && c3.rest == Loop()[2];
    var c4 := Step(g', c3);
    assert c4.Running? && c4.rest == [At(5)] && 4 in c4.regs;
    var c5 := Step(g', c4);
    assert AtLoop(g', c5);
    FiveSteps(g', c, c1, c2, c3, c4, c5);
  }

  lemma {:induction false} FiveSteps(g: Graph, c: Config, c1: Config, c2: Config, c3: Config, c4: Config, c5: Config)
    requires c.Running? && c1.Running? && c2.Running? && c3.Running? && c4.Running?
    requires c1 == Step(g, c) && c2 == Step(g, c1) && c3 == Step(g, c2) && c4 == Step(g, c3) && c5 == Step(g, c4)
    ensures Run(g, c, 0) == c && Run(g, c, 1) == c1 && Run(g, c, 2) == c2 && Run(g, c, 3) == c3 && Run(g, c, 4) == c4
    ensures Run(g, c, 5) == c5
  {
    hide Step;
    assert Run(g, c, 1) == Run(g, c1, 0) == c1;
    assert Run(g, c, 2) == Run(g, c1, 1) == Run(g, c2, 0) == c2;
    assert Run(g, c, 3) == Run(g, c1, 2) == Run(g, c2, 1) == Run(g, c3, 0) == c3;
    assert Run(g, c, 4) == Run(g, c1, 3) == Run(g, c2, 2) == Run(g, c3, 1) == Run(g, c4, 0) == c4;
    assert Run(g, c, 5) == Run(g, c1, 4) == Run(g, c2, 3) == Run(g, c3, 2) == Run(g, c4, 1) == Run(g, c5, 0) == c5;
  }

  lemma {:induction false} FoldedRunsOn(c: Config, k: nat)
    requires AtLoop(Fold(Loop(), T5, LIVE), c)
    ensures Run(Fold(Loop(), T5, LIVE), c, k).Running?
    decreases k
  {
    hide Fold, Run, AtLoop, Loop;
    var g' := Fold(Loop(), T5, LIVE);
    AroundTheLoop(c);
    if k >= 5 {
      RunAdd(g', c, 5, k - 5);
      FoldedRunsOn(Run(g', c, 5), k - 5);
    }
  }

  /** The tables that the pass ends with are not closed, and folding by them turns
      a loop that ends into one that does not. */
  lemma {:induction false} StaleBranchIsFolded(args: seq<i32>, w: World)
    requires Peek(w, "x") == 1
    ensures Ready(Loop()) && Inside(Loop(), Initial(Loop()))
    ensures var s := Rounds(Loop(), Initial(Loop()), 16);
      && s.queue == [] && !s.failed && StaleBranch(At(3), s) && !Closed(Loop(), s.t, s.live)
      && Finishes(Loop(), Start(Loop(), args, w), Some(1), DoLoad(w, "x"))
      && Diverges(Fold(Loop(), s.t, s.live), Start(Fold(Loop(), s.t, s.live), args, w))
  {
    hide Fold, Step;
    hide Rounds;
    StaleRun();
    assert !Closed(Loop(), T5, LIVE) by {
      assert At(3) in Loop()[1] && !ClosedAt(At(3), T5, LIVE);
    }
    LoopEnds(args, w);
    FoldedLoop();
    var g' := Fold(Loop(), T5, LIVE);
    var c := Start(g', args, w);
    FoldedEnters(args, w);
    forall k: nat
      ensures Run(g', c, k).Running?
    {
      if k > 0 {
        FoldedRunsOn(Step(g', c), k - 1);
      }
    }
  }

  lemma {:induction false} FoldedEnters(args: seq<i32>, w: World)
    ensures var g' := Fold(Loop(), T5, LIVE); AtLoop(g', Step(g', Start(g', args, w)))
  {
    hide Fold;
    FoldedLoop();
  }

  lemma {:induction false} LoopEnds(args: seq<i32>, w: World)
    requires Peek(w, "x") == 1
    ensures Finishes(Loop(), Start(Loop(), args, w), Some(1), DoLoad(w, "x"))
  {
    hide Run;
    var incoming := At(1).op.incoming;
    assert incoming[1..] == [incoming[1]];
    assert Select(incoming, 2) == Select([incoming[1]], 2) == Some(Reg(4));
    var c0 := Start(Loop(), args, w);
    var c1 := Step(Loop(), c0);
    var c2 := Step(Loop(), c1);
    assert c2.regs == map[1 := 0] && c2.rest == [At(2), At(3)];
    var c3 := Step(Loop(), c2);
    assert c3.regs == map[1 := 0, 2 := 0] && c3.rest == [At(3)];
    var c4 := Step(Loop(), c3);
    assert c4.blk == 2 && c4.rest == Loop()[2];
    var c5 := Step(Loop(), c4);
    assert c5.regs == map[1 := 0, 2 := 0, 4 := 1] && c5.rest == [At(5)];
    SecondTime(c5, DoLoad(w, "x"));
    FiveSteps(Loop(), c0, c1, c2, c3, c4, c5);
    RunAdd(Loop(), c0, 5, 5);
  }

  lemma {:induction false} SecondTime(c0: Config, w: World)
    requires c0.Running? && c0.blk == 2 && c0.rest == [At(5)] && c0.w == w && c0.regs == map[1 := 0, 2 := 0, 4 := 1]
    ensures Run(Loop(), c0, 5) == Halted(Some(1), w)
  {
    hide Run;
    var incoming := At(1).op.incoming;
    assert incoming[1..] == [incoming[1]];
    assert Select(incoming, 2) == Select([incoming[1]], 2) == Some(Reg(4));
    var c1 := Step(Loop(), c0);
    var c2 := Step(Loop(), c1);
    assert c2.regs == map[1 := 1, 2 := 0, 4 := 1] && c2.rest == [At(2), At(3)];
    var c3 := Step(Loop(), c2);
    assert c3.regs == map[1 := 1, 2 := 1, 4 := 1] && c3.rest == [At(3)];
    var c4 := Step(Loop(), c3);
    assert c4.rest == Loop()[3];
    var c5 := Step(Loop(), c4);
    assert c5 == Halted(Some(1), w);
    FiveSteps(Loop(), c0, c1, c2, c3, c4, c5);
  }
}
