module SccpSettled {
  /** When the state the pass stops in is settled. A block that was taken from the queue
      and is not in it again is idle; an unconditional branch does not put its target
      back, so a block may be missed when it, or a block its phis list, becomes
      reachable. */

  import opened Ir
  import opened Options
  import opened Lattice
  import opened SccpRun
  import opened SccpPass
  import opened Ssa
  import opened SccpEnds
  import opened SccpExit

  // ----- what a visit does to the operands of others -----

  lemma {:induction false} UsesIt(g: Graph, b: nat, c: nat, l: nat, id: nat)
    requires b <= c && Has(g, c, l) && Reg(id) in Operands(g[c][l].op)
    ensures c in Uses(g, b, id)
    decreases c - b
  {
    hide Operands;
    if b == c {
      UsesItIn(g[b], b, l, id);
    } else {
      UsesIt(g, b + 1, c, l, id);
    }
  }

  lemma {:induction false} UsesItIn(s: seq<Instr>, b: nat, l: nat, id: nat)
    requires l < |s| && Reg(id) in Operands(s[l].op)
    ensures b in UsesIn(s, b, id)
    decreases s
  {
    hide Operands;
    if l > 0 {
      UsesItIn(s[1..], b, l - 1, id);
    }
  }

  lemma {:induction false} ReachableHas(bs: seq<BlockRef>, live: set<BlockRef>, b: BlockRef)
    requires b in bs && b in live
    ensures b in Reachable(bs, live)
    decreases bs
  {
    if bs[0] != b {
      ReachableHas(bs[1..], live, b);
    }
  }

  /** A raised entry, unless it is that of a comparison or a terminator, puts the
      reachable users of the value into the queue. */
  lemma {:induction false} VisitEnqueues(g: Graph, i: Instr, s: Tables, c: BlockRef)
    requires Readable(i.op) && !s.failed && !Visit(g, i, s).failed && BelowAt(i, s.t, s.live)
    requires Find(Visit(g, i, s).t, i.id) != Find(s.t, i.id) && !i.op.ICmp? && !Terminates(i.op)
    requires c in Uses(g, 0, i.id) && c in s.live
    ensures c in Visit(g, i, s).queue
  {
    hide Transfer, Uses, Touch, TouchIncoming, Reachable;
    ReachableHas(Uses(g, 0, i.id), s.live, c);
    TouchFinds(s.t, Reg(i.id));
    match i.op
    case Binary(_, a, b) =>
      TouchFinds(Touch(s.t, Reg(i.id)), a);
      TouchFinds(Touch(Touch(s.t, Reg(i.id)), a), b);
    case ZExt(a) =>
      TouchFinds(s.t, a);
      TouchFinds(Touch(s.t, a), Reg(i.id));
    case Phi(incoming) => TouchIncomingFinds(incoming, Touch(s.t, Reg(i.id)), s.live);
    case _ =>
  }

  // ----- when a visit would change nothing -----

  lemma {:induction false} IncomingStays(incoming: seq<(Value, BlockRef)>, t: Table, t': Table, live: set<BlockRef>, live': set<BlockRef>)
    requires forall k | 0 <= k < |incoming| ::
      OfValue(incoming[k].0, t') == OfValue(incoming[k].0, t) && (incoming[k].1 in live' <==> incoming[k].1 in live)
    ensures OfIncoming(incoming, t', live') == OfIncoming(incoming, t, live)
    decreases incoming
  {
    hide OfValue;
    if incoming != [] {
      assert forall k | 0 <= k < |incoming[1..]| :: incoming[1..][k] == incoming[k + 1];
      IncomingStays(incoming[1..], t, t', live, live');
    }
  }

  /** What i reads: its operands and the blocks that a phi lists. */
  ghost predicate SameInput(op: Op, s: Tables, s': Tables) {
    && (forall v <- Operands(op) :: OfValue(v, s'.t) == OfValue(v, s.t))
    && (op.Phi? ==> forall k | 0 <= k < |op.incoming| :: op.incoming[k].1 in s'.live <==> op.incoming[k].1 in s.live)
  }

  lemma {:induction false} TransferStays(op: Op, s: Tables, s': Tables)
    requires SameInput(op, s, s')
    ensures Transfer(op, s'.t, s'.live) == Transfer(op, s.t, s.live)
  {
    hide OfValue, Lift;
    match op
    case Binary(_, a, b) => assert a in Operands(op) && b in Operands(op);
    case ICmp(_, a, b) => assert a in Operands(op) && b in Operands(op);
    case ZExt(a) => assert a in Operands(op);
    case Phi(incoming) =>
      forall k | 0 <= k < |incoming|
        ensures OfValue(incoming[k].0, s'.t) == OfValue(incoming[k].0, s.t)
      {
        assert Operands(op)[k] == incoming[k].0;
        assert incoming[k].0 in Operands(op);
      }
      IncomingStays(incoming, s.t, s'.t, s.live, s'.live);
    case _ =>
  }

  lemma {:induction false} LiveKept(g: Graph, i: Instr, s: Tables)
    requires Readable(i.op) && !i.op.Br? && !i.op.CondBr?
    ensures Visit(g, i, s).live == s.live
  {
    hide Transfer, OfValue, Uses, Reachable, Touch, TouchIncoming;
  }

  /** An instruction that computes stays idle as long as its input stays. */
  lemma {:induction false} ComputingStays(g: Graph, i: Instr, s: Tables, s': Tables)
    requires Readable(i.op) && Computing(i.op) && Unmoved(g, i, s) && !s.failed && !s'.failed
    requires BelowAt(i, s.t, s.live) && BelowAt(i, s'.t, s'.live)
    requires Transfer(i.op, s'.t, s'.live) == Transfer(i.op, s.t, s.live) && Find(s'.t, i.id) == Find(s.t, i.id)
    ensures Unmoved(g, i, s')
  {
    hide Transfer, Visit;
    LiveKept(g, i, s');
    VisitRaises(g, i, s');
    VisitRaises(g, i, s);
    if i.op.Binary? {
      BinaryUpToDateExactlyWhen(g, i, s);
      BinaryUpToDateExactlyWhen(g, i, s');
    } else {
      OthersUpToDate(g, i, s);
      OthersUpToDate(g, i, s');
    }
  }

  lemma {:induction false} UnmovedStays(g: Graph, i: Instr, s: Tables, s': Tables)
    requires Readable(i.op) && Unmoved(g, i, s) && !s.failed && !s'.failed && s.live <= s'.live
    requires BelowAt(i, s.t, s.live) && BelowAt(i, s'.t, s'.live)
    requires SameInput(i.op, s, s') && Find(s'.t, i.id) == Find(s.t, i.id)
    ensures Unmoved(g, i, s')
  {
    hide Transfer, OfValue, Uses, Reachable, Touch, TouchIncoming, OfIncoming;
    if Computing(i.op) {
      TransferStays(i.op, s, s');
      ComputingStays(g, i, s, s');
    } else {
      BranchStays(g, i, s, s');
    }
  }

  lemma {:induction false} BranchStays(g: Graph, i: Instr, s: Tables, s': Tables)
    requires Readable(i.op) && Unmoved(g, i, s) && !s.failed && !s'.failed && s.live <= s'.live && !Computing(i.op)
    requires SameInput(i.op, s, s') && Find(s'.t, i.id) == Find(s.t, i.id)
    ensures Unmoved(g, i, s')
  {
    hide OfValue, Uses, Reachable, Touch;
    TouchFinds(s.t, Reg(i.id));
    TouchFinds(s'.t, Reg(i.id));
    if i.op.CondBr? {
      assert i.op.a in Operands(i.op);
      TouchFinds(s'.t, i.op.a);
      TouchFinds(s.t, i.op.a);
    }
  }

  /** An instruction that has just been visited is idle if it does not read itself. */
  lemma {:induction false} VisitedIsUnmoved(g: Graph, i: Instr, s: Tables)
    requires Readable(i.op) && !s.failed && !Visit(g, i, s).failed && BelowAt(i, s.t, s.live)
    requires BelowAt(i, Visit(g, i, s).t, Visit(g, i, s).live) && SameInput(i.op, s, Visit(g, i, s))
    ensures Unmoved(g, i, Visit(g, i, s))
  {
    hide Transfer, OfValue, Visit;
    var s' := Visit(g, i, s);
    if Computing(i.op) {
      TransferStays(i.op, s, s');
      LiveKept(g, i, s');
      VisitRaises(g, i, s);
      VisitRaises(g, i, s');
      if i.op.Binary? {
        BinaryUpToDateExactlyWhen(g, i, s);
        BinaryUpToDateExactlyWhen(g, i, s');
      } else {
        OthersUpToDate(g, i, s);
        OthersUpToDate(g, i, s');
      }
    } else {
      VisitedBranch(g, i, s);
    }
  }

  lemma {:induction false} VisitedBranch(g: Graph, i: Instr, s: Tables)
    requires !Computing(i.op) && !s.failed && !Visit(g, i, s).failed
    requires SameInput(i.op, s, Visit(g, i, s))
    ensures Readable(i.op) && Unmoved(g, i, Visit(g, i, s))
  {
    hide OfValue, Uses, Reachable, Touch;
    TouchFinds(s.t, Reg(i.id));
    TouchFinds(Visit(g, i, s).t, Reg(i.id));
    if i.op.CondBr? {
      assert i.op.a in Operands(i.op);
      TouchFinds(s.t, i.op.a);
      TouchFinds(Visit(g, i, s).t, i.op.a);
    }
  }

  // ----- visits of a block from one instruction on -----

  ghost predicate Proper(g: Graph) {
    Ready(g) && BranchesLast(g) && Unshared(g) && UsesFit(g)
  }

  /** The visits of block b from instruction k on, from s. */
  ghost predicate VisitsFrom(g: Graph, b: nat, k: nat, s: Tables) {
    && Proper(g) && b < |g| && k <= |g[b]| && Below(g, s.t, s.live)
    && (forall i <- g[b][k..] :: Readable(i.op) && Occurs(i, g))
  }

  function After(g: Graph, b: nat, k: nat, s: Tables): Tables
    requires b < |g| && k <= |g[b]| && forall i <- g[b][k..] :: Readable(i.op)
  {
    VisitAll(g, g[b][k..], s)
  }

  lemma {:induction false} NextVisit(g: Graph, b: nat, k: nat, s: Tables)
    requires VisitsFrom(g, b, k, s) && k < |g[b]|
    ensures var i := g[b][k];
      && Readable(i.op) && Occurs(i, g) && BelowAt(i, s.t, s.live)
      && VisitsFrom(g, b, k + 1, Visit(g, i, s))
      && After(g, b, k, s) == After(g, b, k + 1, Visit(g, i, s))
      && Ascends(s, Visit(g, i, s)) && Ascends(Visit(g, i, s), After(g, b, k, s))
      && (!After(g, b, k, s).failed ==> !s.failed && !Visit(g, i, s).failed)
      && Below(g, After(g, b, k, s).t, After(g, b, k, s).live)
      && (forall c <- Visit(g, i, s).queue :: c in After(g, b, k, s).queue)
      && (!s.failed ==> forall id :: id != i.id ==> Find(Visit(g, i, s).t, id) == Find(s.t, id))
  {
    hide Visit, Below, Occurs, Unshared, UsesFit, BranchesLast;
    var i, rest := g[b][k], g[b][k + 1..];
    assert g[b][k..][0] == i && g[b][k..][1..] == rest;
    assert i in g[b][k..];
    forall j | j in rest
      ensures Readable(j.op) && Occurs(j, g)
    {
      assert j in g[b][k..];
    }
    var s1 := Visit(g, i, s);
    VisitAscends(g, i, s);
    RunsAscend(g, rest, s1);
    FailureStays(g, rest, s1);
    VisitsQueue(g, rest, s1);
    assert BelowAt(i, s.t, s.live) by { OccursBelow(g, i, s); }
    if !s.failed {
      VisitRaises(g, i, s);
    }
  }

  lemma {:induction false} OccursBelow(g: Graph, i: Instr, s: Tables)
    requires Below(g, s.t, s.live) && Occurs(i, g)
    ensures BelowAt(i, s.t, s.live)
  {
  }

  lemma {:induction false} NoVisit(g: Graph, b: nat, s: Tables)
    requires b < |g|
    ensures After(g, b, |g[b]|, s) == s
  {
  }

  /** Only the entries of the instructions visited change. */
  lemma {:induction false} EntryKept(g: Graph, b: nat, k: nat, s: Tables, id: nat)
    requires VisitsFrom(g, b, k, s) && !After(g, b, k, s).failed
    requires forall m | k <= m < |g[b]| :: g[b][m].id != id
    ensures Find(After(g, b, k, s).t, id) == Find(s.t, id)
    decreases |g[b]| - k
  {
    hide Visit, After, VisitsFrom;
    InBlock(g, b, k, s);
    if k < |g[b]| {
      NextVisit(g, b, k, s);
      EntryKept(g, b, k + 1, Visit(g, g[b][k], s), id);
    } else {
      NoVisit(g, b, s);
    }
  }

  lemma InBlock(g: Graph, b: nat, k: nat, s: Tables)
    requires VisitsFrom(g, b, k, s)
    ensures b < |g| && k <= |g[b]| && forall i <- g[b][k..] :: Readable(i.op)
  {
  }

  /** A changed entry of one that is no comparison and no terminator puts the users
      of the value into the queue. */
  lemma {:induction false} ChangeEnqueues(g: Graph, b: nat, k: nat, s: Tables, id: nat, c: BlockRef)
    requires VisitsFrom(g, b, k, s) && !After(g, b, k, s).failed
    requires Find(After(g, b, k, s).t, id) != Find(s.t, id) && c in Uses(g, 0, id) && c in s.live
    requires forall m | k <= m < |g[b]| && g[b][m].id == id :: !g[b][m].op.ICmp? && !Terminates(g[b][m].op)
    ensures c in After(g, b, k, s).queue
    decreases |g[b]| - k
  {
    hide Visit, After, VisitsFrom, Uses, Terminates;
    InBlock(g, b, k, s);
    if k < |g[b]| {
      var i := g[b][k];
      NextVisit(g, b, k, s);
      var s1 := Visit(g, i, s);
      if Find(s1.t, id) != Find(s.t, id) {
        VisitEnqueues(g, i, s, c);
      } else {
        ChangeEnqueues(g, b, k + 1, s1, id, c);
      }
    } else {
      NoVisit(g, b, s);
    }
  }

  /** The operands of an instruction in another block, or in front of those visited,
      stay as they are unless its block is queued. */
  lemma {:induction false} OperandsKept(g: Graph, b: nat, k: nat, s: Tables, c: nat, l: nat)
    requires VisitsFrom(g, b, k, s) && !After(g, b, k, s).failed
    requires Has(g, c, l) && (c != b || l < k) && c in s.live && c !in After(g, b, k, s).queue
    ensures forall v <- Operands(g[c][l].op) :: OfValue(v, After(g, b, k, s).t) == OfValue(v, s.t)
    ensures Find(After(g, b, k, s).t, g[c][l].id) == Find(s.t, g[c][l].id)
  {
    hide After, Operands, Terminates, Uses;
    var s' := After(g, b, k, s);
    forall m | k <= m < |g[b]|
      ensures g[b][m].id != g[c][l].id
    {
      assert Has(g, b, m);
    }
    EntryKept(g, b, k, s, g[c][l].id);
    forall v | v in Operands(g[c][l].op)
      ensures OfValue(v, s'.t) == OfValue(v, s.t)
    {
      if v.Reg? && Find(s'.t, v.id) != Find(s.t, v.id) {
        forall m | k <= m < |g[b]| && g[b][m].id == v.id
          ensures !g[b][m].op.ICmp? && !Terminates(g[b][m].op)
        {
          assert Has(g, b, m) && MayUse(g[c][l], c, l, g[b][m], b, m);
        }
        UsesIt(g, 0, c, l, v.id);
        ChangeEnqueues(g, b, k, s, v.id, c);
      }
    }
  }

  /** The blocks that the phis of block b list. */
  ghost predicate Lists(g: Graph, b: BlockRef, p: BlockRef) {
    exists l, k :: Has(g, b, l) && g[b][l].op.Phi? && 0 <= k < |g[b][l].op.incoming| && g[b][l].op.incoming[k].1 == p
  }

  ghost predicate NothingNew(g: Graph, b: BlockRef, live: set<BlockRef>, live': set<BlockRef>) {
    forall p | p in live' && Lists(g, b, p) :: p in live
  }

  lemma {:induction false} SameListed(g: Graph, b: nat, l: nat, live: set<BlockRef>, live': set<BlockRef>)
    requires Has(g, b, l) && live <= live' && NothingNew(g, b, live, live') && g[b][l].op.Phi?
    ensures forall k | 0 <= k < |g[b][l].op.incoming| ::
      g[b][l].op.incoming[k].1 in live' <==> g[b][l].op.incoming[k].1 in live
  {
    forall k | 0 <= k < |g[b][l].op.incoming|
      ensures g[b][l].op.incoming[k].1 in live' <==> g[b][l].op.incoming[k].1 in live
    {
      assert Lists(g, b, g[b][l].op.incoming[k].1);
    }
  }

  lemma {:induction false} VisitedInput(g: Graph, b: nat, k: nat, s: Tables)
    requires VisitsFrom(g, b, k, s) && k < |g[b]| && !After(g, b, k, s).failed
    requires b in s.live && b !in After(g, b, k, s).queue && NothingNew(g, b, s.live, After(g, b, k, s).live)
    ensures Readable(g[b][k].op) && SameInput(g[b][k].op, s, Visit(g, g[b][k], s))
  {
    hide Visit, After, Operands, Terminates, Lists, Uses;
    var i := g[b][k];
    NextVisit(g, b, k, s);
    var s1 := Visit(g, i, s);
    forall v | v in Operands(i.op)
      ensures OfValue(v, s1.t) == OfValue(v, s.t)
    {
      if v.Reg? && Find(s1.t, v.id) != Find(s.t, v.id) {
        assert Has(g, b, k) && MayUse(i, b, k, i, b, k);
        UsesIt(g, 0, b, k, v.id);
        VisitEnqueues(g, i, s, b);
      }
    }
    if i.op.Phi? {
      assert NothingNew(g, b, s.live, s1.live);
      SameListed(g, b, k, s.live, s1.live);
    }
  }

  /** A block that was visited and is not queued again is idle. */
  lemma {:induction false} BlockIdle(g: Graph, b: nat, k: nat, s: Tables)
    requires VisitsFrom(g, b, k, s) && !After(g, b, k, s).failed
    requires b in s.live && b !in After(g, b, k, s).queue && NothingNew(g, b, s.live, After(g, b, k, s).live)
    ensures forall l | k <= l < |g[b]| :: Readable(g[b][l].op) && Unmoved(g, g[b][l], After(g, b, k, s))
    decreases |g[b]| - k
  {
    hide Visit, After, Operands, Lists, Unmoved, Below, Proper, VisitsFrom, Occurs;
    InBlock(g, b, k, s);
    if k < |g[b]| {
      var i := g[b][k];
      NextVisit(g, b, k, s);
      VisitedInput(g, b, k, s);
      var s1 := Visit(g, i, s);
      var s' := After(g, b, k, s);
      FromBelow(g, b, k + 1, s1);
      OccursBelow(g, i, s1);
      VisitedIsUnmoved(g, i, s);
      OperandsKept(g, b, k + 1, s1, b, k);
      if i.op.Phi? {
        SameListed(g, b, k, s1.live, s'.live);
      }
      OccursBelow(g, i, s');
      UnmovedStays(g, i, s1, s');
      BlockIdle(g, b, k + 1, s1);
    }
  }

  lemma FromBelow(g: Graph, b: nat, k: nat, s: Tables)
    requires VisitsFrom(g, b, k, s)
    ensures Below(g, s.t, s.live)
  {
  }

  // ----- the blocks that were taken -----

  /** For each block taken from the queue, the blocks that were reachable when it was
      last taken. */
  ghost function Seen(g: Graph, s: Tables, seen: map<BlockRef, set<BlockRef>>, n: nat): map<BlockRef, set<BlockRef>>
    requires Ready(g) && Inside(g, s)
    decreases n
  {
    if n == 0 || s.failed then seen
    else
      var (b, queue) := Next(s.queue, s.live);
      if b.None? then seen
      else
        BlockStaysInside(g, b.value, s.(queue := queue));
        Seen(g, VisitAll(g, g[b.value], s.(queue := queue)), seen[b.value := s.live], n - 1)
  }

  /** Block t was taken when it was reachable, with all reachable blocks that its
      phis list. */
  ghost predicate Caught(g: Graph, seen: map<BlockRef, set<BlockRef>>, live: set<BlockRef>, t: BlockRef) {
    t in seen && NothingNew(g, t, seen[t], live)
  }

  /** Blocks that were caught and are not queued are idle. */
  ghost predicate Watched(g: Graph, s: Tables, seen: map<BlockRef, set<BlockRef>>)
    requires Arithmetical(g)
  {
    && (forall t <- seen :: 0 <= t < |g| && t in s.live && seen[t] <= s.live)
    && (forall t | Caught(g, seen, s.live, t) && t !in s.queue :: 0 <= t < |g| && Idle(g, g[t], s))
  }

  lemma {:induction false} NextDrops(queue: seq<BlockRef>, live: set<BlockRef>, t: BlockRef)
    requires t in queue && t in live && Next(queue, live).0 != Some(t)
    ensures t in Next(queue, live).1
    decreases queue
  {
    if queue[0] !in live {
      NextDrops(queue[1..], live, t);
    }
  }

  lemma {:induction false} IdleStays(g: Graph, b: nat, s: Tables, t: nat)
    requires VisitsFrom(g, b, 0, s) && !s.failed && !After(g, b, 0, s).failed
    requires t < |g| && t != b && t in s.live && t !in After(g, b, 0, s).queue
    requires Idle(g, g[t], s) && NothingNew(g, t, s.live, After(g, b, 0, s).live)
    ensures Idle(g, g[t], After(g, b, 0, s))
  {
    hide Visit, After, Operands, Lists, Unmoved, Below, Occurs, Proper, VisitsFrom;
    InBlock(g, b, 0, s);
    VisitsAscend(g, b, s);
    var s' := After(g, b, 0, s);
    forall i | i in g[t]
      ensures Readable(i.op) && Unmoved(g, i, s')
    {
      var l :| 0 <= l < |g[t]| && g[t][l] == i;
      OperandsKept(g, b, 0, s, t, l);
      if i.op.Phi? {
        SameListed(g, t, l, s.live, s'.live);
      }
      assert g[t] in g;
      assert Occurs(i, g) by { ItOccurs(g, t, i); }
      OccursBelow(g, i, s);
      OccursBelow(g, i, s');
      UnmovedStays(g, i, s, s');
    }
  }

  lemma ItOccurs(g: Graph, t: nat, i: Instr)
    requires t < |g| && i in g[t]
    ensures Occurs(i, g)
  {
    assert g[t] in g;
  }

  lemma {:induction false} VisitsAscend(g: Graph, b: nat, s: Tables)
    requires VisitsFrom(g, b, 0, s)
    ensures Below(g, s.t, s.live) && Below(g, After(g, b, 0, s).t, After(g, b, 0, s).live) && Ascends(s, After(g, b, 0, s))
  {
    hide VisitAll, Below;
    assert g[b][0..] == g[b];
    RunsAscend(g, g[b], s);
  }

  /** The queue does not matter to what is idle. */
  lemma {:induction false} IdleAnyQueue(g: Graph, t: nat, s: Tables, queue: seq<BlockRef>)
    requires t < |g| && Below(g, s.t, s.live) && !s.failed && Idle(g, g[t], s)
    ensures Idle(g, g[t], s.(queue := queue))
  {
    hide Visit, Unmoved, Below;
    var s' := s.(queue := queue);
    forall i | i in g[t]
      ensures Readable(i.op) && Unmoved(g, i, s')
    {
      ItOccurs(g, t, i);
      OccursBelow(g, i, s);
      UnmovedStays(g, i, s, s');
    }
  }

  lemma {:induction false} RoundWatched(g: Graph, s: Tables, seen: map<BlockRef, set<BlockRef>>)
    requires Proper(g) && Inside(g, s) && Below(g, s.t, s.live) && !s.failed && Next(s.queue, s.live).0.Some?
    requires Watched(g, s, seen)
    ensures var (b, queue) := Next(s.queue, s.live);
      && 0 <= b.value < |g| && (forall i <- g[b.value] :: Readable(i.op))
      && var s' := VisitAll(g, g[b.value], s.(queue := queue));
        !s'.failed ==> Watched(g, s', seen[b.value := s.live])
  {
    hide VisitAll, Below, Idle, NothingNew, BranchesLast, Unshared, UsesFit, DistinctIds, Visit;
    var (b, queue) := Next(s.queue, s.live);
    LiveInside(g, s, b.value);
    assert g[b.value] in g;
    var s0 := s.(queue := queue);
    assert g[b.value][0..] == g[b.value];
    assert VisitsFrom(g, b.value, 0, s0);
    VisitsAscend(g, b.value, s0);
    var s' := VisitAll(g, g[b.value], s0);
    VisitsQueue(g, g[b.value], s0);
    if !s'.failed {
      forall t | Caught(g, seen[b.value := s.live], s'.live, t) && t !in s'.queue
        ensures 0 <= t < |g| && Idle(g, g[t], s')
      {
        if t == b.value {
          BlockIdle(g, t, 0, s0);
          AllIdle(g, t, s');
        } else {
          NewsShrink(g, t, seen[t], s.live, s'.live);
          if t in s.queue {
            NextDrops(s.queue, s.live, t);
          }
          IdleAnyQueue(g, t, s, queue);
          IdleStays(g, b.value, s0, t);
        }
      }
    }
  }

  lemma AllIdle(g: Graph, t: nat, s: Tables)
    requires t < |g| && forall l | 0 <= l < |g[t]| :: Readable(g[t][l].op) && Unmoved(g, g[t][l], s)
    ensures Idle(g, g[t], s)
  {
    hide Unmoved;
  }

  lemma NewsShrink(g: Graph, t: BlockRef, seen: set<BlockRef>, live: set<BlockRef>, live': set<BlockRef>)
    requires seen <= live <= live' && NothingNew(g, t, seen, live')
    ensures NothingNew(g, t, seen, live) && NothingNew(g, t, live, live')
  {
    hide Lists;
  }

  lemma {:induction false} RunWatched(g: Graph, s: Tables, seen: map<BlockRef, set<BlockRef>>, n: nat)
    requires Proper(g) && Inside(g, s) && Below(g, s.t, s.live) && !s.failed && Watched(g, s, seen)
    ensures var s' := Rounds(g, s, n); !s'.failed ==> Watched(g, s', Seen(g, s, seen, n))
    decreases n
  {
    hide VisitAll, Below, Watched, BranchesLast, Unshared, UsesFit, DistinctIds, TargetsInside;
    if n > 0 {
      var (b, queue) := Next(s.queue, s.live);
      if b.None? {
        NothingLeft(g, s, seen);
      } else {
        RoundWatched(g, s, seen);
        var s1 := VisitAll(g, g[b.value], s.(queue := queue));
        RoundsAscend(g, s, 1);
        assert Rounds(g, s1, 0) == s1;
        if !s1.failed {
          RunWatched(g, s1, seen[b.value := s.live], n - 1);
        }
      }
    }
  }

  lemma {:induction false} NothingLeft(g: Graph, s: Tables, seen: map<BlockRef, set<BlockRef>>)
    requires Arithmetical(g) && Below(g, s.t, s.live) && !s.failed && Watched(g, s, seen) && Next(s.queue, s.live).0.None?
    ensures Watched(g, s.(queue := []), seen)
  {
    hide Idle, Below, NothingNew;
    forall t | Caught(g, seen, s.live, t)
      ensures 0 <= t < |g| && Idle(g, g[t], s.(queue := []))
    {
      IdleAnyQueue(g, t, s, []);
    }
  }

  /** Where the pass runs out of work its tables are settled exactly when the blocks
      that it missed are idle all the same: those it never took since they, or
      blocks that their phis list, became reachable. */
  lemma {:induction false} SettledExactlyWhen(g: Graph, n: nat)
    requires Proper(g) && Inside(g, Initial(g))
    requires Rounds(g, Initial(g), n).queue == [] && !Rounds(g, Initial(g), n).failed
    ensures var (s, seen) := (Rounds(g, Initial(g), n), Seen(g, Initial(g), map[], n));
      Settled(g, s) <==> forall t | t in s.live && !Caught(g, seen, s.live, t) :: 0 <= t < |g| && Idle(g, g[t], s)
  {
    hide Rounds, Seen, Idle, Below, Caught;
    InitialBelow(g);
    RoundsAscend(g, Initial(g), n);
    NothingSeen(g);
    RunWatched(g, Initial(g), map[], n);
  }

  lemma NothingSeen(g: Graph)
    requires Arithmetical(g)
    ensures Watched(g, Initial(g), map[])
  {
  }
}
