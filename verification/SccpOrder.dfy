module SccpOrder {
  /** A check on a function, before the pass runs on it, under which the state the pass
      stops in is settled: no condition is ever a constant, every reachable block can be
      reached from blocks with lower numbers, and its phis list no later blocks. */

  import opened Ir
  import opened Options
  import opened Lattice
  import opened SccpSound
  import opened SccpRun
  import opened SccpPass
  import opened Ssa
  import opened SccpEnds
  import opened SccpExit
  import opened SccpSettled

  predicate Unsure(v: Value, unknown: set<nat>) {
    v.Arg? || (v.Reg? && v.id in unknown)
  }

  /** What is computed from something unknown is unknown. */
  predicate DerivedFrom(op: Op, unknown: set<nat>) {
    match op
    case Load(_) => true
    case Binary(_, a, b) => Unsure(a, unknown) || Unsure(b, unknown)
    case ICmp(_, a, b) => Unsure(a, unknown) || Unsure(b, unknown)
    case ZExt(a) => Unsure(a, unknown)
    case CondBr(a, _, _) => Unsure(a, unknown)
    case _ => false
  }

  ghost predicate GoesTo(g: Graph, b: BlockRef, t: BlockRef) {
    0 <= b < |g| && exists i :: i in g[b] && t in Successors(i.op)
  }

  /** The check; `reach` are the blocks that control can reach, `unknown` the values
      and the conditional branches that depend on memory or on a parameter. */
  ghost predicate InOrder(g: Graph, reach: set<BlockRef>, unknown: set<nat>) {
    && 0 in reach && (forall b <- reach :: 0 <= b < |g|)
    && (forall b, i | 0 <= b < |g| && i in g[b] && i.id in unknown :: DerivedFrom(i.op, unknown))
    && (forall b, i | b in reach && i in g[b] :: Successors(i.op) <= reach && (i.op.CondBr? ==> i.id in unknown))
    && (forall t | t in reach && t != 0 :: exists b :: b in reach && b < t && GoesTo(g, b, t))
    && (forall t, p | t in reach && p in reach && Lists(g, t, p) :: p <= t)
  }

  // ----- unknown values stay unknown -----

  ghost predicate NeverKnown(t: Table, unknown: set<nat>) {
    forall id <- unknown :: !Find(t, id).Known?
  }

  lemma {:induction false} UnsureValue(v: Value, t: Table, unknown: set<nat>)
    requires NeverKnown(t, unknown) && Unsure(v, unknown)
    ensures !OfValue(v, t).Known?
  {
  }

  lemma {:induction false} UnsureTransfer(op: Op, s: Tables, unknown: set<nat>)
    requires NeverKnown(s.t, unknown) && DerivedFrom(op, unknown) && !op.CondBr?
    ensures !Transfer(op, s.t, s.live).Known?
  {
    hide OfValue, NeverKnown, Unsure;
    match op
    case Binary(_, a, b) =>
      if Unsure(a, unknown) { UnsureValue(a, s.t, unknown); } else { UnsureValue(b, s.t, unknown); }
    case ICmp(_, a, b) =>
      if Unsure(a, unknown) { UnsureValue(a, s.t, unknown); } else { UnsureValue(b, s.t, unknown); }
    case ZExt(a) => UnsureValue(a, s.t, unknown);
    case _ =>
  }

  lemma {:induction false} VisitUnknown(g: Graph, i: Instr, s: Tables, unknown: set<nat>)
    requires Readable(i.op) && BelowAt(i, s.t, s.live) && NeverKnown(s.t, unknown)
    requires i.id in unknown ==> DerivedFrom(i.op, unknown)
    ensures NeverKnown(Visit(g, i, s).t, unknown)
  {
    hide Transfer, OfValue, Unsure;
    if s.failed {
      VisitOfFailed(g, i, s);
    } else {
      VisitRaises(g, i, s);
      if i.id in unknown {
        EntryUnknown(g, i, s, unknown);
      }
    }
  }

  lemma {:induction false} EntryUnknown(g: Graph, i: Instr, s: Tables, unknown: set<nat>)
    requires Readable(i.op) && !s.failed && NeverKnown(s.t, unknown) && i.id in unknown && DerivedFrom(i.op, unknown)
    requires BelowAt(i, s.t, s.live)
    ensures !Find(Visit(g, i, s).t, i.id).Known?
  {
    hide Transfer, OfValue, Unsure, Uses, Reachable, Touch, TouchIncoming;
    TouchFinds(s.t, Reg(i.id));
    if i.op.CondBr? {
      UnsureValue(i.op.a, s.t, unknown);
      TouchFinds(s.t, i.op.a);
    } else {
      hide Visit;
      UnsureTransfer(i.op, s, unknown);
      if i.op.Binary? {
        BinaryUpToDateExactlyWhen(g, i, s);
      } else {
        OthersUpToDate(g, i, s);
      }
    }
  }

  // ----- what a visit reaches -----

  lemma {:induction false} VisitReaches(g: Graph, i: Instr, s: Tables)
    requires Readable(i.op) && !s.failed
    ensures var s' := Visit(g, i, s);
      && (forall c <- s'.live :: c in s.live || c in Successors(i.op))
      && ((i.op.CondBr? && OfValue(i.op.a, s.t).Known?) || Successors(i.op) <= s'.live)
  {
    hide Transfer, OfValue, Uses, Reachable, Touch, TouchIncoming;
  }

  lemma OrderAt(g: Graph, reach: set<BlockRef>, unknown: set<nat>, b: nat, k: nat)
    requires InOrder(g, reach, unknown) && b in reach && Has(g, b, k)
    ensures var i := g[b][k];
      && (i.id in unknown ==> DerivedFrom(i.op, unknown))
      && Successors(i.op) <= reach && (i.op.CondBr? ==> i.id in unknown)
  {
    hide DerivedFrom, Lists, GoesTo, Successors;
  }

  lemma BranchIsUnsure(op: Op, unknown: set<nat>)
    requires DerivedFrom(op, unknown) && op.CondBr?
    ensures Unsure(op.a, unknown)
  {
  }

  lemma {:induction false} VisitsReach(g: Graph, b: nat, k: nat, s: Tables, reach: set<BlockRef>, unknown: set<nat>)
    requires VisitsFrom(g, b, k, s) && !After(g, b, k, s).failed && InOrder(g, reach, unknown) && b in reach
    requires NeverKnown(s.t, unknown) && s.live <= reach
    ensures var s' := After(g, b, k, s);
      && NeverKnown(s'.t, unknown) && s.live <= s'.live <= reach
      && (forall l | k <= l < |g[b]| :: Successors(g[b][l].op) <= s'.live)
    decreases |g[b]| - k
  {
    hide Visit, After, VisitsFrom, Unsure, NeverKnown, InOrder, DerivedFrom, OfValue, Below, Successors;
    InBlock(g, b, k, s);
    if k < |g[b]| {
      var i := g[b][k];
      OrderAt(g, reach, unknown, b, k);
      NextVisit(g, b, k, s);
      var s1 := Visit(g, i, s);
      VisitUnknown(g, i, s, unknown);
      VisitReaches(g, i, s);
      if i.op.CondBr? {
        BranchIsUnsure(i.op, unknown);
        UnsureValue(i.op.a, s.t, unknown);
      }
      assert forall c <- s1.live :: c in reach;
      VisitsReach(g, b, k + 1, s1, reach, unknown);
    } else {
      NoVisit(g, b, s);
    }
  }

  // ----- the first pass over the queue -----

  /** The blocks before j that can be reached have been taken, each with all before
      it reachable. */
  ghost predicate Swept(g: Graph, s: Tables, seen: map<BlockRef, set<BlockRef>>, reach: set<BlockRef>, unknown: set<nat>, j: nat) {
    && NeverKnown(s.t, unknown) && 0 in s.live && s.live <= reach
    && (forall b | b in reach && b < j :: b in s.live && b in seen && forall p | p in reach && p <= b :: p in seen[b])
    && (forall b, i | b in reach && 0 <= b < j && b < |g| && i in g[b] :: Successors(i.op) <= s.live)
  }

  ghost predicate StillQueued(g: Graph, s: Tables, j: nat) {
    j + |s.queue| >= |g| && forall k | 0 <= k < |s.queue| && j + k < |g| :: s.queue[k] == j + k
  }

  lemma {:induction false} VisitKeepsFront(g: Graph, i: Instr, s: Tables)
    requires Readable(i.op)
    ensures s.queue <= Visit(g, i, s).queue
  {
    hide Transfer, OfValue, Uses, Reachable, Touch, TouchIncoming;
  }

  lemma {:induction false} VisitsKeepFront(g: Graph, instrs: seq<Instr>, s: Tables)
    requires forall i <- instrs :: Readable(i.op)
    ensures s.queue <= VisitAll(g, instrs, s).queue
    decreases instrs
  {
    hide Visit;
    if instrs != [] {
      VisitKeepsFront(g, instrs[0], s);
      VisitsKeepFront(g, instrs[1..], Visit(g, instrs[0], s));
    }
  }

  /** What has been seen follows the rounds of the pass. */
  lemma {:induction false} SeenIs(g: Graph, s: Tables, seen: map<BlockRef, set<BlockRef>>, n: nat)
    requires Ready(g) && Inside(g, s) && n > 0 && !s.failed && s.queue != []
    ensures Inside(g, s.(queue := s.queue[1..]))
    ensures s.queue[0] !in s.live ==> Seen(g, s, seen, n) == Seen(g, s.(queue := s.queue[1..]), seen, n)
    ensures s.queue[0] in s.live ==>
      (forall i <- g[s.queue[0]] :: Readable(i.op)) &&
      var s' := VisitAll(g, g[s.queue[0]], s.(queue := s.queue[1..]));
      Inside(g, s') && Seen(g, s, seen, n) == Seen(g, s', seen[s.queue[0] := s.live], n - 1)
  {
    hide VisitAll, Inside, Readable;
    SmallerQueueInside(g, s, s.queue[1..]);
    if s.queue[0] in s.live {
      LiveInside(g, s, s.queue[0]);
      assert g[s.queue[0]] in g;
      BlockStaysInside(g, s.queue[0], s.(queue := s.queue[1..]));
    }
  }

  /** Taking a block that can be reached from a swept state. */
  lemma {:induction false} TakeSwept(
    g: Graph, s: Tables, seen: map<BlockRef, set<BlockRef>>, reach: set<BlockRef>, unknown: set<nat>, j: nat, b: nat)
    requires Proper(g) && InOrder(g, reach, unknown) && Below(g, s.t, s.live) && !s.failed
    requires Swept(g, s, seen, reach, unknown, j) && b in reach && b in s.live && b < |g| && b <= j <= |g|
    ensures forall i <- g[b] :: Readable(i.op)
    ensures var s' := VisitAll(g, g[b], s);
      !s'.failed ==> Swept(g, s', seen[b := s.live], reach, unknown, if b == j then j + 1 else j)
  {
    hide VisitAll, Below, NeverKnown, InOrder, DistinctIds, TargetsInside, BranchesLast, Unshared, UsesFit, Successors, Readable;
    assert g[b] in g && g[b][0..] == g[b];
    assert VisitsFrom(g, b, 0, s);
    var s' := VisitAll(g, g[b], s);
    if !s'.failed {
      VisitsReach(g, b, 0, s, reach, unknown);
      forall c, i | c in reach && 0 <= c < (if b == j then j + 1 else j) && c < |g| && i in g[c]
        ensures Successors(i.op) <= s'.live
      {
        if c == b {
          var l :| 0 <= l < |g[b]| && g[b][l] == i;
        }
      }
    }
  }

  lemma SweptAnyQueue(
    g: Graph, s: Tables, queue: seq<BlockRef>, seen: map<BlockRef, set<BlockRef>>, reach: set<BlockRef>, unknown: set<nat>, j: nat)
    requires Swept(g, s, seen, reach, unknown, j)
    ensures Swept(g, s.(queue := queue), seen, reach, unknown, j)
    ensures j !in reach ==> j !in s.live && Swept(g, s.(queue := queue), seen, reach, unknown, j + 1)
  {
    hide NeverKnown, Successors;
  }

  lemma {:induction false} SweepOn(
    g: Graph, s: Tables, seen: map<BlockRef, set<BlockRef>>, reach: set<BlockRef>, unknown: set<nat>, j: nat, n: nat)
    requires Proper(g) && InOrder(g, reach, unknown) && Inside(g, s) && Below(g, s.t, s.live) && !s.failed && j <= |g|
    requires Swept(g, s, seen, reach, unknown, j) && StillQueued(g, s, j)
    requires Rounds(g, s, n).queue == [] && !Rounds(g, s, n).failed
    ensures var s' := Rounds(g, s, n);
      && NeverKnown(s'.t, unknown) && s'.live <= reach
      && forall t <- s'.live :: Caught(g, Seen(g, s, seen, n), s'.live, t)
    decreases |g| - j, n
  {
    hide VisitAll, Below, Swept, InOrder, Rounds, Seen, BranchesLast, Unshared, UsesFit, Caught, TargetsInside, Inside;
    if j == |g| {
      AllSwept(g, s, seen, reach, unknown, n);
    } else {
      assert s.queue[0] == j;
      NoRounds(g, s);
      RoundIs(g, s, n);
      SeenIs(g, s, seen, n);
      var s0 := s.(queue := s.queue[1..]);
      SweptAnyQueue(g, s, s.queue[1..], seen, reach, unknown, j);
      if j in reach {
        ReachedInOrder(g, s, seen, reach, unknown, j);
        TakeSwept(g, s0, seen, reach, unknown, j, j);
        var s1 := VisitAll(g, g[j], s0);
        assert g[j] in g && forall i <- g[j] :: Occurs(i, g);
        RunsAscend(g, g[j], s0);
        VisitsKeepFront(g, g[j], s0);
        FailedStays(g, s1, n - 1);
        SweepOn(g, s1, seen[j := s.live], reach, unknown, j + 1, n - 1);
      } else {
        SweepOn(g, s0, seen, reach, unknown, j + 1, n);
      }
    }
  }

  lemma {:induction false} FailedStays(g: Graph, s: Tables, n: nat)
    requires Ready(g) && Inside(g, s)
    ensures s.failed ==> Rounds(g, s, n).failed
  {
  }

  lemma {:induction false} ReachedInOrder(
    g: Graph, s: Tables, seen: map<BlockRef, set<BlockRef>>, reach: set<BlockRef>, unknown: set<nat>, j: nat)
    requires InOrder(g, reach, unknown) && Swept(g, s, seen, reach, unknown, j) && j in reach
    ensures j in s.live
  {
    hide NeverKnown, Unsure, Lists;
    if j != 0 {
      var b :| b in reach && b < j && GoesTo(g, b, j);
      var i :| i in g[b] && j in Successors(i.op);
    }
  }

  /** After the first pass over the queue. */
  lemma {:induction false} AllSwept(
    g: Graph, s: Tables, seen: map<BlockRef, set<BlockRef>>, reach: set<BlockRef>, unknown: set<nat>, n: nat)
    requires Proper(g) && InOrder(g, reach, unknown) && Inside(g, s) && Below(g, s.t, s.live) && !s.failed
    requires Swept(g, s, seen, reach, unknown, |g|) && !Rounds(g, s, n).failed
    ensures var s' := Rounds(g, s, n);
      && NeverKnown(s'.t, unknown) && s'.live <= reach
      && forall t <- s'.live :: Caught(g, Seen(g, s, seen, n), s'.live, t)
    decreases n
  {
    hide VisitAll, Below, NeverKnown, Unsure, Lists, GoesTo, DistinctIds, BranchesLast, Unshared, UsesFit;
    if n > 0 {
      var (b, queue) := Next(s.queue, s.live);
      var s0 := s.(queue := queue);
      SmallerQueueInside(g, s, queue);
      if b.Some? {
        LiveInside(g, s, b.value);
        BlockStaysInside(g, b.value, s0);
        TakeSwept(g, s0, seen, reach, unknown, |g|, b.value);
        assert g[b.value] in g && forall i <- g[b.value] :: Occurs(i, g);
        RunsAscend(g, g[b.value], s0);
        var s1 := VisitAll(g, g[b.value], s0);
        FailedStays(g, s1, n - 1);
        AllSwept(g, s1, seen[b.value := s.live], reach, unknown, n - 1);
      }
    }
  }

  /** If the check succeeds, the pass stops in settled tables, unless an assertion of
      it fails; and they are closed, and so fold to the same meaning, exactly when no
      0 was lost. */
  lemma {:induction false} OrderedRunSettles(g: Graph, reach: set<BlockRef>, unknown: set<nat>, n: nat)
    requires Proper(g) && InOrder(g, reach, unknown) && Inside(g, Initial(g))
    requires Rounds(g, Initial(g), n).queue == [] && !Rounds(g, Initial(g), n).failed
    ensures var s := Rounds(g, Initial(g), n);
      && Settled(g, s)
      && (Closed(g, s.t, s.live) <==> forall b | b in s.live && 0 <= b < |g| :: forall i <- g[b] :: !LostZero(i, s))
  {
    hide Rounds, Seen, Caught, Lists, GoesTo, NeverKnown, Idle, BranchesLast, Unshared, UsesFit, Below, LostZero, Closed;
    var s := Initial(g);
    InitialBelow(g);
    assert NeverKnown(s.t, unknown) by { NothingKnown(unknown); }
    assert Swept(g, s, map[], reach, unknown, 0);
    SweepOn(g, s, map[], reach, unknown, 0, n);
    SettledExactlyWhen(g, n);
    RoundsAscend(g, s, n);
    SettledIsClosedExactlyWhen(g, Rounds(g, s, n));
    NoStaleBranch(g, Rounds(g, s, n), reach, unknown);
  }

  lemma NothingKnown(unknown: set<nat>)
    ensures NeverKnown(map[], unknown)
  {
  }

  lemma {:induction false} NoStaleBranch(g: Graph, s: Tables, reach: set<BlockRef>, unknown: set<nat>)
    requires InOrder(g, reach, unknown) && NeverKnown(s.t, unknown)
    ensures forall b, i | b in reach && 0 <= b < |g| && i in g[b] :: !StaleBranch(i, s)
  {
    hide DerivedFrom, Lists, GoesTo, OfValue;
    forall b, i | b in reach && 0 <= b < |g| && i in g[b]
      ensures !StaleBranch(i, s)
    {
      var k :| 0 <= k < |g[b]| && g[b][k] == i;
      OrderAt(g, reach, unknown, b, k);
    }
  }
}
