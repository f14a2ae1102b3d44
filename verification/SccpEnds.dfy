module SccpEnds {
  /** When the pass ends. Entries and reachable blocks can rise a bounded number of
      times only; between two rises all that is queued are the targets of conditional
      branches. So the pass ends if no cycle consists of conditional branches, and
      it never does if it gets onto a cycle of branches that stay undecided. */

  import opened Ir
  import opened Options
  import opened Lattice
  import opened SccpRun
  import opened SccpPass
  import opened Ssa

  /** The pass has run out of work, or stopped at a failed assertion. */
  predicate Ended(s: Tables) { s.failed || s.queue == [] }

  /** Conditional branches lead from lower to higher ranks; others may go anywhere. */
  ghost predicate Upward(g: Graph, rank: seq<int>) {
    && |rank| == |g|
    && forall b, i | 0 <= b < |g| && i in g[b] && i.op.CondBr? :: LeadsUp(b, i.op, rank)
  }

  predicate LeadsUp(b: nat, op: Op, rank: seq<int>)
    requires op.CondBr?
  {
    && b < |rank| && 0 <= op.ifTrue < |rank| && 0 <= op.ifFalse < |rank|
    && rank[b] < rank[op.ifTrue] && rank[b] < rank[op.ifFalse]
  }

  // ----- how much entries and reachable blocks can still rise -----

  function Room(instrs: seq<Instr>, t: Table): nat {
    if instrs == [] then 0 else 2 - Rank(Find(t, instrs[0].id)) + Room(instrs[1..], t)
  }

  function Height(g: Graph, s: Tables, b: nat): nat
    requires b <= |g|
    decreases |g| - b
  {
    if b == |g| then 0 else (if b in s.live then 0 else 1) + Room(g[b], s.t) + Height(g, s, b + 1)
  }

  lemma {:induction false} RoomFalls(instrs: seq<Instr>, t: Table, t': Table)
    requires TableLeq(t, t')
    ensures Room(instrs, t') <= Room(instrs, t)
    ensures Room(instrs, t') == Room(instrs, t) ==> forall i <- instrs :: Find(t', i.id) == Find(t, i.id)
    decreases instrs
  {
    if instrs != [] {
      RoomFalls(instrs[1..], t, t');
      assert Leq(Find(t, instrs[0].id), Find(t', instrs[0].id));
    }
  }

  lemma {:induction false} HeightFalls(g: Graph, s: Tables, s': Tables, b: nat)
    requires b <= |g| && Ascends(s, s')
    ensures Height(g, s', b) <= Height(g, s, b)
    ensures Height(g, s', b) == Height(g, s, b) ==> forall c | b <= c < |g| ::
      (c in s'.live ==> c in s.live) && forall i <- g[c] :: Find(s'.t, i.id) == Find(s.t, i.id)
    decreases |g| - b
  {
    hide Room;
    if b < |g| {
      RoomFalls(g[b], s.t, s'.t);
      HeightFalls(g, s, s', b + 1);
    }
  }

  // ----- rounds in which nothing rises -----

  lemma NoneReachable(live: set<BlockRef>)
    ensures Reachable([], live) == []
  {
  }

  /** A visit that changes no entry and reaches no block queues at most the two
      targets of a conditional branch. */
  lemma {:induction false} QuietVisit(g: Graph, i: Instr, s: Tables)
    requires Readable(i.op) && (Terminates(i.op) ==> Uses(g, 0, i.id) == [])
    requires var s' := Visit(g, i, s); !s'.failed && Find(s'.t, i.id) == Find(s.t, i.id) && s'.live == s.live
    ensures var s' := Visit(g, i, s);
      s'.queue == s.queue || (i.op.CondBr? && s'.queue == s.queue + [i.op.ifTrue, i.op.ifFalse])
  {
    hide Transfer, Uses, Touch, TouchIncoming, Reachable;
    if i.op.Br? {
      NoneReachable(s.live);
      assert s.queue + [] == s.queue;
    }
  }

  lemma {:induction false} QuietVisits(g: Graph, instrs: seq<Instr>, s: Tables)
    requires Below(g, s.t, s.live) && DistinctIds(g)
    requires forall i <- instrs :: Readable(i.op) && Occurs(i, g) && (Terminates(i.op) ==> Uses(g, 0, i.id) == [])
    requires forall k | 0 <= k < |instrs| - 1 :: !Terminates(instrs[k].op)
    requires (forall b <- VisitAll(g, instrs, s).live :: 0 <= b < |g|) && !VisitAll(g, instrs, s).failed
    requires Height(g, VisitAll(g, instrs, s), 0) == Height(g, s, 0)
    ensures var queue := VisitAll(g, instrs, s).queue;
      queue == s.queue || (
        && instrs != [] && var op := instrs[|instrs| - 1].op;
          op.CondBr? && queue == s.queue + [op.ifTrue, op.ifFalse])
    decreases instrs
  {
    hide Visit, Height, Below, Occurs, DistinctIds, Uses;
    if instrs != [] {
      var i, rest := instrs[0], instrs[1..];
      assert Occurs(i, g);
      var s1 := Visit(g, i, s);
      VisitAscends(g, i, s);
      RunsAscend(g, rest, s1);
      var s2 := VisitAll(g, rest, s1);
      HeightFalls(g, s, s1, 0);
      HeightFalls(g, s1, s2, 0);
      FailureStays(g, rest, s1);
      UnchangedAt(g, i, s, s1);
      QuietVisit(g, i, s);
      QuietVisits(g, rest, s1);
    }
  }

  lemma {:induction false} UnchangedAt(g: Graph, i: Instr, s: Tables, s': Tables)
    requires Occurs(i, g) && Ascends(s, s') && (forall b <- s'.live :: 0 <= b < |g|)
    requires Height(g, s', 0) == Height(g, s, 0)
    ensures Find(s'.t, i.id) == Find(s.t, i.id) && s'.live == s.live
  {
    hide Height;
    HeightFalls(g, s, s', 0);
    var b :| b in g && i in b;
    var c :| 0 <= c < |g| && g[c] == b;
    assert forall d <- s'.live :: d in s.live;
  }

  lemma {:induction false} FailureStays(g: Graph, instrs: seq<Instr>, s: Tables)
    requires forall i <- instrs :: Readable(i.op)
    ensures s.failed ==> VisitAll(g, instrs, s) == s
    decreases instrs
  {
    hide Visit;
    if s.failed && instrs != [] {
      VisitOfFailed(g, instrs[0], s);
      FailureStays(g, instrs[1..], s);
    }
  }

  // ----- the weight of the queue -----

  function Power(n: nat): (p: nat)
    ensures p > 0
  {
    if n == 0 then 1 else 3 * Power(n - 1)
  }

  lemma {:induction false} PowerMonotone(m: nat, n: nat)
    requires m <= n
    ensures Power(m) <= Power(n)
    decreases n
  {
    if m < n {
      PowerMonotone(m, n - 1);
    }
  }

  /** A block weighs more than two blocks of higher rank; no rank is above top. */
  function WeightOf(b: BlockRef, rank: seq<int>, top: int): (w: nat)
    ensures w > 0
  {
    if 0 <= b < |rank| && rank[b] <= top then Power(top - rank[b]) else 1
  }

  function Weight(queue: seq<BlockRef>, rank: seq<int>, top: int): nat {
    if queue == [] then 0 else WeightOf(queue[0], rank, top) + Weight(queue[1..], rank, top)
  }

  lemma {:induction false} NoWeight(rank: seq<int>, top: int)
    ensures Weight([], rank, top) == 0
  {
  }

  lemma {:induction false} WeightAdds(p: seq<BlockRef>, q: seq<BlockRef>, rank: seq<int>, top: int)
    ensures Weight(p + q, rank, top) == Weight(p, rank, top) + Weight(q, rank, top)
    decreases p
  {
    if p == [] {
      assert p + q == q;
    } else {
      assert (p + q)[1..] == p[1..] + q && (p + q)[0] == p[0];
      WeightAdds(p[1..], q, rank, top);
    }
  }

  lemma {:induction false} NextWeighs(queue: seq<BlockRef>, live: set<BlockRef>, rank: seq<int>, top: int)
    requires Next(queue, live).0.Some?
    ensures var (b, rest) := Next(queue, live);
      WeightOf(b.value, rank, top) + Weight(rest, rank, top) <= Weight(queue, rank, top)
    decreases queue
  {
    if queue[0] !in live {
      NextWeighs(queue[1..], live, rank, top);
    }
  }

  lemma {:induction false} TargetsWeighLess(b: nat, op: Op, rank: seq<int>, top: int)
    requires op.CondBr? && LeadsUp(b, op, rank) && forall r <- rank :: r <= top
    ensures Weight([op.ifTrue, op.ifFalse], rank, top) < WeightOf(b, rank, top)
  {
    var n := top - rank[b];
    assert rank[op.ifTrue] in rank && rank[op.ifFalse] in rank;
    PowerMonotone(top - rank[op.ifTrue], n - 1);
    PowerMonotone(top - rank[op.ifFalse], n - 1);
    assert [op.ifTrue, op.ifFalse][1..] == [op.ifFalse] && [op.ifFalse][1..] == [];
    assert Weight([op.ifFalse], rank, top) == WeightOf(op.ifFalse, rank, top);
    assert Power(n) == 3 * Power(n - 1);
  }

  // ----- the pass ends -----

  lemma {:induction false} RoundFalls(g: Graph, rank: seq<int>, top: int, s: Tables)
    requires Ready(g) && Inside(g, s) && Below(g, s.t, s.live) && BranchesLast(g) && Upward(g, rank)
    requires (forall r <- rank :: r <= top) && Next(s.queue, s.live).0.Some? && !s.failed
    ensures var (b, queue) := Next(s.queue, s.live);
      && 0 <= b.value < |g| && (forall i <- g[b.value] :: Readable(i.op))
      && var s' := VisitAll(g, g[b.value], s.(queue := queue));
        && Inside(g, s') && Below(g, s'.t, s'.live)
        && (s'.failed || Height(g, s', 0) < Height(g, s, 0)
            || (Height(g, s', 0) == Height(g, s, 0) && Weight(s'.queue, rank, top) < Weight(s.queue, rank, top)))
  {
    hide Below, Height, VisitAll, DistinctIds, Uses, Weight;
    var (b, queue) := Next(s.queue, s.live);
    var s0 := s.(queue := queue);
    SmallerQueueInside(g, s, queue);
    LiveInside(g, s, b.value);
    BlockStaysInside(g, b.value, s0);
    assert g[b.value] in g;
    assert forall i <- g[b.value] :: Readable(i.op) && Occurs(i, g);
    RunsAscend(g, g[b.value], s0);
    var s' := VisitAll(g, g[b.value], s0);
    HeightFalls(g, s0, s', 0);
    SameHeight(g, s, s0, 0);
    if !s'.failed && Height(g, s', 0) == Height(g, s, 0) {
      QuietVisits(g, g[b.value], s0);
      NextWeighs(s.queue, s.live, rank, top);
      if s'.queue != queue {
        var op := g[b.value][|g[b.value]| - 1].op;
        TargetsWeighLess(b.value, op, rank, top);
        WeightAdds(queue, [op.ifTrue, op.ifFalse], rank, top);
      }
    }
  }

  lemma {:induction false} SameHeight(g: Graph, s: Tables, s': Tables, b: nat)
    requires b <= |g| && s.t == s'.t && s.live == s'.live
    ensures Height(g, s, b) == Height(g, s', b)
    decreases |g| - b
  {
    if b < |g| {
      SameHeight(g, s, s', b + 1);
    }
  }

  lemma {:induction false} EndsFrom(g: Graph, rank: seq<int>, top: int, s: Tables) returns (n: nat)
    requires Ready(g) && Inside(g, s) && Below(g, s.t, s.live) && BranchesLast(g) && Upward(g, rank)
    requires forall r <- rank :: r <= top
    ensures Ended(Rounds(g, s, n))
    decreases Height(g, s, 0), Weight(s.queue, rank, top)
  {
    hide Below, Height, VisitAll, BranchesLast, Upward, Weight, DistinctIds;
    var (b, queue) := Next(s.queue, s.live);
    if s.failed {
      n := 0;
    } else if b.None? {
      n := 1;
    } else {
      RoundFalls(g, rank, top, s);
      var s1 := VisitAll(g, g[b.value], s.(queue := queue));
      if s1.failed {
        n := 0;
      } else {
        n := EndsFrom(g, rank, top, s1);
      }
      n := n + 1;
    }
  }

  lemma {:induction false} Largest(s: seq<int>) returns (top: int)
    ensures forall r <- s :: r <= top
    decreases s
  {
    if s == [] {
      top := 0;
    } else {
      top := Largest(s[1..]);
      top := if s[0] <= top then top else s[0];
      assert s == [s[0]] + s[1..];
    }
  }

  /** The pass ends on every function whose conditional branches can be ranked
      upwards, that is, on which every cycle has an unconditional branch. */
  lemma {:induction false} EndsWhenRanked(g: Graph, rank: seq<int>)
    requires Ready(g) && BranchesLast(g) && Upward(g, rank)
    ensures Inside(g, Initial(g)) && exists n: nat :: Ended(Rounds(g, Initial(g), n))
  {
    hide Below, Rounds, Initial;
    InitialInside(g);
    InitialBelow(g);
    var top := Largest(rank);
    var n := EndsFrom(g, rank, top, Initial(g));
  }

  /** The pass on a function whose conditional branches can be ranked upwards: it runs
      to the end of its queue or to a failed assertion, and no entry is above what its
      transfer function gives. */
  method RunOnFunction(g: Graph, ghost rank: seq<int>) returns (transition: Transition, ghost n: nat)
    requires Ready(g) && BranchesLast(g) && Upward(g, rank)
    ensures Inside(g, Initial(g)) && transition.State() == Rounds(g, Initial(g), n) && Ended(transition.State())
    ensures Below(g, transition.constantTable, transition.blockTable)
  {
    hide Below, DistinctIds, VisitAll, Inside, BranchesLast, Upward, Height, Weight, Initial;
    transition := new Transition(g);
    ghost var s := Initial(g);
    InitialInside(g);
    InitialBelow(g);
    ghost var top := Largest(rank);
    n := 0;
    var finished := false;
    while !transition.failed && !finished
      invariant fresh(transition) && transition.g == g
      invariant Inside(g, transition.State()) && Below(g, transition.constantTable, transition.blockTable)
      invariant transition.State() == Rounds(g, s, n)
      invariant finished ==> transition.workQueue == []
      decreases !transition.failed, Height(g, transition.State(), 0), Weight(transition.workQueue, rank, top), !finished
    {
      ghost var s0 := transition.State();
      var b := transition.GetNextBlock();
      SmallerQueueInside(g, s0, transition.workQueue);
      RoundsAdd(g, s, n, 1);
      if b.None? {
        finished := true;
        SameHeight(g, s0, transition.State(), 0);
        NoWeight(rank, top);
      } else {
        RoundFalls(g, rank, top, s0);
        LiveInside(g, s0, b.value);
        BlockStaysInside(g, b.value, transition.State());
        assert g[b.value] in g;
        transition.VisitBlock(b.value);
        assert Rounds(g, transition.State(), 0) == transition.State();
      }
      n := n + 1;
    }
  }

  // ----- it does not end -----

  /** Around the cycle every block ends in a branch to the next one, and no
      condition will ever be a constant again. */
  ghost predicate Undecided(g: Graph, cycle: seq<BlockRef>, t: Table) {
    && cycle != []
    && forall k | 0 <= k < |cycle| ::
      && 0 <= cycle[k] < |g| && g[cycle[k]] != []
      && var op := g[cycle[k]][|g[cycle[k]]| - 1].op;
        op.CondBr? && cycle[(k + 1) % |cycle|] in {op.ifTrue, op.ifFalse} && OfValue(op.a, t) == Top
  }

  /** A reachable block of the cycle is in the queue. */
  ghost predicate Spinning(cycle: seq<BlockRef>, s: Tables) {
    exists b :: b in cycle && b in s.live && b in s.queue
  }

  lemma {:induction false} NextKeeps(queue: seq<BlockRef>, live: set<BlockRef>, b: BlockRef)
    requires b in queue && b in live
    ensures var (next, rest) := Next(queue, live); next.Some? && (next.value == b || b in rest)
    decreases queue
  {
    if queue[0] !in live {
      NextKeeps(queue[1..], live, b);
    }
  }

  lemma {:induction false} VisitQueues(g: Graph, i: Instr, s: Tables)
    requires Readable(i.op)
    ensures var s' := Visit(g, i, s);
      && (forall b <- s.queue :: b in s'.queue)
      && (i.op.CondBr? && OfValue(i.op.a, s.t) == Top && !s'.failed ==>
            forall b | b == i.op.ifTrue || b == i.op.ifFalse :: b in s'.queue && b in s'.live)
  {
    hide Transfer, OfValue, Uses, Reachable, Touch, TouchIncoming;
    if !s.failed && i.op.CondBr? {
      var more := s.queue + [i.op.ifTrue, i.op.ifFalse];
      assert more[|s.queue|] == i.op.ifTrue && more[|s.queue| + 1] == i.op.ifFalse;
    }
  }

  /** Visits only add to the queue, and an undecided branch adds both its targets. */
  lemma {:induction false} VisitsQueue(g: Graph, instrs: seq<Instr>, s: Tables)
    requires Below(g, s.t, s.live) && DistinctIds(g)
    requires forall i <- instrs :: Readable(i.op) && Occurs(i, g)
    ensures var s' := VisitAll(g, instrs, s);
      && (forall b <- s.queue :: b in s'.queue)
      && (instrs != [] && !s'.failed ==> var op := instrs[|instrs| - 1].op;
            op.CondBr? && OfValue(op.a, s.t) == Top ==>
              forall b | b == op.ifTrue || b == op.ifFalse :: b in s'.queue && b in s'.live)
    decreases instrs
  {
    hide Visit, Below, Occurs, DistinctIds, OfValue;
    if instrs != [] {
      var i, rest := instrs[0], instrs[1..];
      assert Occurs(i, g);
      var s1 := Visit(g, i, s);
      VisitAscends(g, i, s);
      VisitQueues(g, i, s);
      VisitsQueue(g, rest, s1);
      RunsAscend(g, rest, s1);
      FailureStays(g, rest, s1);
      if rest != [] && rest[|rest| - 1].op.CondBr? {
        OfValueMonotone(rest[|rest| - 1].op.a, s.t, s1.t);
      }
    }
  }

  lemma {:induction false} StaysUndecided(g: Graph, cycle: seq<BlockRef>, t: Table, t': Table)
    requires Undecided(g, cycle, t) && TableLeq(t, t')
    ensures Undecided(g, cycle, t')
  {
    hide OfValue;
    forall k | 0 <= k < |cycle|
      ensures OfValue(g[cycle[k]][|g[cycle[k]]| - 1].op.a, t') == Top
    {
      OfValueMonotone(g[cycle[k]][|g[cycle[k]]| - 1].op.a, t, t');
    }
  }

  /** Once on a cycle of undecided branches the pass goes round for ever, unless an
      assertion of it fails. */
  lemma {:induction false} CycleNeverEnds(g: Graph, cycle: seq<BlockRef>, s: Tables, n: nat)
    requires Ready(g) && Inside(g, s) && Below(g, s.t, s.live) && !s.failed
    requires Undecided(g, cycle, s.t) && Spinning(cycle, s)
    ensures var s' := Rounds(g, s, n); s'.failed || Spinning(cycle, s')
    decreases n
  {
    hide Below, VisitAll, Undecided, DistinctIds;
    if n > 0 {
      var c :| c in cycle && c in s.live && c in s.queue;
      NextKeeps(s.queue, s.live, c);
      var (b, queue) := Next(s.queue, s.live);
      var s0 := s.(queue := queue);
      SmallerQueueInside(g, s, queue);
      LiveInside(g, s, b.value);
      BlockStaysInside(g, b.value, s0);
      assert g[b.value] in g;
      assert forall i <- g[b.value] :: Readable(i.op) && Occurs(i, g);
      RunsAscend(g, g[b.value], s0);
      VisitsQueue(g, g[b.value], s0);
      var s1 := VisitAll(g, g[b.value], s0);
      if s1.failed {
        assert Rounds(g, s1, n - 1) == s1;
      } else {
        StaysUndecided(g, cycle, s.t, s1.t);
        NextOnCycle(g, cycle, s.t, c);
        CycleNeverEnds(g, cycle, s1, n - 1);
      }
    }
  }

  lemma {:induction false} NextOnCycle(g: Graph, cycle: seq<BlockRef>, t: Table, c: BlockRef)
    requires Undecided(g, cycle, t) && c in cycle
    ensures 0 <= c < |g| && g[c] != []
    ensures var op := g[c][|g[c]| - 1].op;
      op.CondBr? && OfValue(op.a, t) == Top && (op.ifTrue in cycle || op.ifFalse in cycle)
  {
    hide OfValue;
    var k :| 0 <= k < |cycle| && cycle[k] == c;
    assert cycle[(k + 1) % |cycle|] in cycle;
  }

  lemma {:induction false} PhiFreeVisits(g: Graph, instrs: seq<Instr>, s: Tables)
    requires Below(g, s.t, s.live) && DistinctIds(g) && !s.failed
    requires forall i <- instrs :: Readable(i.op) && Occurs(i, g) && !i.op.Phi?
    ensures !VisitAll(g, instrs, s).failed
    decreases instrs
  {
    hide Visit, Below, Occurs, DistinctIds, Transfer;
    if instrs != [] {
      VisitAscends(g, instrs[0], s);
      PhiFreeVisits(g, instrs[1..], Visit(g, instrs[0], s));
    }
  }

  /** No assertion of the pass fails on a function without phis. */
  lemma {:induction false} PhiFreeNeverFails(g: Graph, s: Tables, n: nat)
    requires Ready(g) && Inside(g, s) && Below(g, s.t, s.live) && !s.failed
    requires forall b, i | 0 <= b < |g| && i in g[b] :: !i.op.Phi?
    ensures !Rounds(g, s, n).failed
    decreases n
  {
    hide Below, VisitAll, DistinctIds;
    if n > 0 {
      var (b, queue) := Next(s.queue, s.live);
      var s0 := s.(queue := queue);
      SmallerQueueInside(g, s, queue);
      if b.Some? {
        LiveInside(g, s, b.value);
        BlockStaysInside(g, b.value, s0);
        assert g[b.value] in g;
        assert forall i <- g[b.value] :: Readable(i.op) && Occurs(i, g);
        RunsAscend(g, g[b.value], s0);
        PhiFreeVisits(g, g[b.value], s0);
        PhiFreeNeverFails(g, VisitAll(g, g[b.value], s0), n - 1);
      }
    }
  }
}
