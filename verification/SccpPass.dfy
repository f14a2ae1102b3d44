/** The pass as a program: the transition object whose tables the visits update in
    place, its work queue, and the loop of the pass. */
module SccpPass {
  import opened Ir
  import opened Options
  import opened Lattice
  import opened SccpRun

  // ----- the joined element of a phi, as its visit finds it -----

  function JoinAll(es: seq<Element>): Element {
    if es == [] then Bottom else Join(JoinAll(es[..|es| - 1]), es[|es| - 1])
  }

  /** What a visit makes of the constants it collected, if none was unknown. */
  function Verdict(canBeValue: bool, values: seq<i32>): Element {
    if !canBeValue then Top
    else if values == [] then Bottom
    else if forall v <- values :: v == values[0] then Known(values[0])
    else Top
  }

  lemma JoinAssociates(a: Element, b: Element, c: Element)
    ensures Join(Join(a, b), c) == Join(a, Join(b, c))
  {
  }

  lemma {:induction false} JoinAllSnoc(es: seq<Element>, e: Element)
    ensures JoinAll(es + [e]) == Join(JoinAll(es), e)
  {
    assert (es + [e])[..|es|] == es;
  }

  lemma {:induction false} VerdictJoin(canBeValue: bool, values: seq<i32>, e: Element)
    ensures Join(Verdict(canBeValue, values), e)
      == Verdict(canBeValue && !e.Top?, if e.Known? then values + [e.n] else values)
  {
    if canBeValue && e.Known? {
      var more := values + [e.n];
      assert more[|values|] == e.n && e.n in more;
      if values != [] {
        assert more[0] == values[0];
        assert forall v <- values :: v in more;
        assert forall v <- more :: v in values || v == e.n;
        assert (forall v <- more :: v == more[0]) == (e.n == values[0] && forall v <- values :: v == values[0]);
      }
    }
  }

  method AllSame(values: seq<i32>) returns (same: bool)
    requires values != []
    ensures same <==> forall v <- values :: v == values[0]
  {
    for k := 0 to |values|
      invariant forall j | 0 <= j < k :: values[j] == values[0]
    {
      if values[k] != values[0] {
        assert values[k] in values;
        return false;
      }
    }
    return true;
  }

  // ----- the work queue -----

  /** The first reachable block of the queue, and the queue behind it. */
  function Next(queue: seq<BlockRef>, live: set<BlockRef>): (r: (Option<BlockRef>, seq<BlockRef>))
    ensures r.0.Some? ==> r.0.value in live && r.0.value in queue && |r.1| < |queue|
    ensures r.0.None? ==> r.1 == [] && forall b <- queue :: b !in live
    ensures forall b <- r.1 :: b in queue
  {
    if queue == [] then (None, [])
    else if queue[0] in live then (Some(queue[0]), queue[1..])
    else Next(queue[1..], live)
  }

  /** Every branch goes to a block of the function. */
  predicate TargetsInside(g: Graph) {
    forall b | 0 <= b < |g| :: forall i <- g[b] :: forall t <- Successors(i.op) :: 0 <= t < |g|
  }

  predicate Inside(g: Graph, s: Tables) {
    (forall b <- s.live :: 0 <= b < |g|) && forall b <- s.queue :: 0 <= b < |g|
  }

  ghost predicate Ready(g: Graph) {
    |g| > 0 && Arithmetical(g) && DistinctIds(g) && TargetsInside(g)
  }

  /** The tables after the pass has taken n blocks from its queue. */
  ghost function Rounds(g: Graph, s: Tables, n: nat): (s': Tables)
    requires Ready(g) && Inside(g, s)
    decreases n
  {
    if n == 0 || s.failed then s
    else
      var (b, queue) := Next(s.queue, s.live);
      if b.None? then s.(queue := [])
      else
        BlockStaysInside(g, b.value, s.(queue := queue));
        Rounds(g, VisitAll(g, g[b.value], s.(queue := queue)), n - 1)
  }

  lemma {:induction false} UsesInside(g: Graph, b: nat, id: nat)
    requires b <= |g|
    ensures forall u <- Uses(g, b, id) :: 0 <= u < |g|
    decreases |g| - b
  {
    if b < |g| {
      UsesInInside(g[b], b, id);
      UsesInside(g, b + 1, id);
    }
  }

  lemma {:induction false} UsesInInside(s: seq<Instr>, b: nat, id: nat)
    ensures forall u <- UsesIn(s, b, id) :: u == b
    decreases s
  {
    if s != [] {
      UsesInInside(s[1..], b, id);
    }
  }

  lemma {:induction false} ReachableInside(bs: seq<BlockRef>, live: set<BlockRef>)
    ensures forall b <- Reachable(bs, live) :: b in bs && b in live
    decreases bs
  {
    if bs != [] {
      ReachableInside(bs[1..], live);
    }
  }

  lemma {:induction false} UpdateStaysInside(g: Graph, s: Tables, t: Table, id: nat, e: Element)
    requires Inside(g, s)
    ensures Inside(g, PutAndEnqueue(g, s.(t := t), id, e))
  {
    hide Uses, Reachable, Rank, Find;
    UsesInside(g, 0, id);
    ReachableInside(Uses(g, 0, id), s.live);
  }

  lemma {:induction false} BranchStaysInside(g: Graph, i: Instr, s: Tables)
    requires (i.op.Br? || i.op.CondBr?) && Inside(g, s) && forall t <- Successors(i.op) :: 0 <= t < |g|
    ensures Inside(g, VisitBranch(g, i, s))
  {
    hide Uses, Reachable, Rank, Find, OfValue, Touch;
    UsesInside(g, 0, i.id);
    ReachableInside(Uses(g, 0, i.id), s.live);
    assert i.op.Br? ==> i.op.target in Successors(i.op);
    assert i.op.CondBr? ==> i.op.ifTrue in Successors(i.op) && i.op.ifFalse in Successors(i.op);
  }

  lemma {:induction false} VisitStaysInside(g: Graph, i: Instr, s: Tables)
    requires Readable(i.op) && Inside(g, s) && forall t <- Successors(i.op) :: 0 <= t < |g|
    ensures Inside(g, Visit(g, i, s))
  {
    hide Transfer, OfValue, Touch, TouchIncoming, Find, PutAndEnqueue, VisitBranch;
    forall t, e {
      UpdateStaysInside(g, s, t, i.id, e);
    }
    if i.op.Br? || i.op.CondBr? {
      BranchStaysInside(g, i, s);
    }
  }

  lemma {:induction false} VisitsStayInside(g: Graph, instrs: seq<Instr>, s: Tables)
    requires Inside(g, s)
    requires forall i <- instrs :: Readable(i.op) && forall t <- Successors(i.op) :: 0 <= t < |g|
    ensures Inside(g, VisitAll(g, instrs, s))
    decreases instrs
  {
    hide Visit, Inside, Successors, Readable;
    if instrs != [] {
      VisitStaysInside(g, instrs[0], s);
      VisitsStayInside(g, instrs[1..], Visit(g, instrs[0], s));
    }
  }

  lemma {:induction false} BlockStaysInside(g: Graph, b: BlockRef, s: Tables)
    requires Ready(g) && 0 <= b < |g| && Inside(g, s)
    ensures Inside(g, VisitAll(g, g[b], s))
  {
    hide Readable;
    assert g[b] in g;
    VisitsStayInside(g, g[b], s);
  }

  // ----- what every run of the pass keeps -----

  lemma {:induction false} RoundsAscend(g: Graph, s: Tables, n: nat)
    requires Ready(g) && Inside(g, s) && Below(g, s.t, s.live)
    ensures var s' := Rounds(g, s, n); Below(g, s'.t, s'.live) && Ascends(s, s') && Inside(g, s')
    decreases n
  {
    hide VisitAll, Below, Inside, DistinctIds;
    if n > 0 && !s.failed {
      var (b, queue) := Next(s.queue, s.live);
      SmallerQueueInside(g, s, queue);
      if b.Some? {
        var s0 := s.(queue := queue);
        LiveInside(g, s, b.value);
        BlockStaysInside(g, b.value, s0);
        assert g[b.value] in g;
        assert forall i <- g[b.value] :: Readable(i.op) && Occurs(i, g);
        RunsAscend(g, g[b.value], s0);
        var s1 := VisitAll(g, g[b.value], s0);
        RoundsAscend(g, s1, n - 1);
        TableLeqTrans(s.t, s1.t, Rounds(g, s1, n - 1).t);
      }
    }
  }

  lemma {:induction false} SmallerQueueInside(g: Graph, s: Tables, queue: seq<BlockRef>)
    requires Inside(g, s) && forall b <- queue :: b in s.queue
    ensures Inside(g, s.(queue := queue))
  {
  }

  lemma {:induction false} LiveInside(g: Graph, s: Tables, b: BlockRef)
    requires Inside(g, s) && b in s.live
    ensures 0 <= b < |g|
  {
  }

  lemma {:induction false} RoundsAdd(g: Graph, s: Tables, m: nat, n: nat)
    requires Ready(g) && Inside(g, s) && Below(g, s.t, s.live) && Inside(g, Rounds(g, s, m))
    ensures Rounds(g, s, m + n) == Rounds(g, Rounds(g, s, m), n)
    decreases m
  {
    hide VisitAll, Below, Inside, DistinctIds;
    if m > 0 && !s.failed {
      var (b, queue) := Next(s.queue, s.live);
      SmallerQueueInside(g, s, queue);
      if b.Some? {
        var s0 := s.(queue := queue);
        LiveInside(g, s, b.value);
        BlockStaysInside(g, b.value, s0);
        assert g[b.value] in g;
        assert forall i <- g[b.value] :: Readable(i.op) && Occurs(i, g);
        RunsAscend(g, g[b.value], s0);
        RoundsAdd(g, VisitAll(g, g[b.value], s0), m - 1, n);
      }
    }
  }

  /** Over a whole run of the pass: from any moment to any later one, entries only
      rise, reachable blocks stay reachable, and a constant stays that constant
      until its value is given up for good. */
  lemma {:induction false} PassOnlyAscends(g: Graph, m: nat, n: nat)
    requires Ready(g) && m <= n && Inside(g, Initial(g))
    ensures Ascends(Rounds(g, Initial(g), m), Rounds(g, Initial(g), n))
    ensures forall id, a, b ::
      Find(Rounds(g, Initial(g), m).t, id) == Known(a) && Find(Rounds(g, Initial(g), n).t, id) == Known(b) ==> a == b
  {
    hide Initial, VisitAll, Below;
    var s := Initial(g);
    InitialBelow(g);
    RoundsAscend(g, s, m);
    RoundsAdd(g, s, m, n - m);
    RoundsAscend(g, Rounds(g, s, m), n - m);
    forall id, a, b | Find(Rounds(g, s, m).t, id) == Known(a) && Find(Rounds(g, s, n).t, id) == Known(b)
      ensures a == b
    {
      ConstantsStay(Rounds(g, s, m), Rounds(g, s, n), id, a, b);
    }
  }

  // ----- the transition object -----

  class Transition {
    const g: Graph
    var constantTable: Table
    var blockTable: set<BlockRef>
    var workQueue: seq<BlockRef>
    var failed: bool

    ghost function State(): Tables
      reads this
    {
      Tables(constantTable, blockTable, workQueue, failed)
    }

    constructor (g: Graph)
      ensures this.g == g && State() == Initial(g)
    {
      this.g := g;
      constantTable, blockTable, workQueue, failed := map[], {0}, [], false;
      new;
      for b := 0 to |g|
        invariant State() == Initial(g).(queue := seq(b, k => k))
      {
        workQueue := workQueue + [b];
        assert seq(b, k => k) + [b] == seq(b + 1, k => k);
      }
    }

    method CheckedInsert(id: nat, e: Element)
      modifies this
      ensures State() == Put(old(State()), id, e)
    {
      if id in constantTable && Rank(constantTable[id]) > Rank(e) {
        failed := true;
      } else {
        constantTable := constantTable[id := e];
      }
    }

    method GetConstantLatticeElem(v: Value) returns (e: Element)
      modifies this
      ensures State() == old(State()).(t := Touch(old(constantTable), v)) && e == OfValue(v, old(constantTable))
    {
      match v
      case Const(n) => return Known(n);
      case Arg(_) => return Top;
      case Reg(id) =>
        if id in constantTable {
          return constantTable[id];
        }
        CheckedInsert(id, Bottom);
        return Bottom;
    }

    method EnqueueCFGSuccessors(id: nat)
      modifies this
      ensures State() == old(State()).(queue := old(workQueue) + Reachable(Uses(g, 0, id), old(blockTable)))
    {
      hide Uses;
      var uses := Uses(g, 0, id);
      assert uses[0..] == uses;
      for k := 0 to |uses|
        invariant constantTable == old(constantTable) && blockTable == old(blockTable) && failed == old(failed)
        invariant workQueue + Reachable(uses[k..], blockTable) == old(workQueue) + Reachable(uses, blockTable)
      {
        ReachableFirst(uses, k, blockTable);
        if uses[k] in blockTable {
          workQueue := workQueue + [uses[k]];
        }
      }
      assert uses[|uses|..] == [] && workQueue + [] == workQueue;
    }

    method Update(id: nat, e: Element)
      requires !failed
      modifies this
      ensures State() == PutAndEnqueue(g, old(State()), id, e)
    {
      CheckedInsert(id, e);
      if !failed {
        EnqueueCFGSuccessors(id);
      }
    }

    method VisitBinaryOperator(i: Instr)
      requires i.op.Binary? && Readable(i.op) && !failed
      modifies this
      ensures State() == VisitBinary(g, i, old(State()))
    {
      hide PutAndEnqueue;
      TouchFinds(constantTable, Reg(i.id));
      var oldInfo := GetConstantLatticeElem(Reg(i.id));
      TouchFinds(constantTable, i.op.a);
      var lhsInfo := GetConstantLatticeElem(i.op.a);
      var rhsInfo := GetConstantLatticeElem(i.op.b);
      if lhsInfo.Top? || rhsInfo.Top? {
        if !oldInfo.Top? {
          Update(i.id, Top);
        }
        return;
      }
      if lhsInfo.Bottom? || rhsInfo.Bottom? {
        if !oldInfo.Bottom? {
          Update(i.id, Bottom);
        }
        return;
      }
      var value: i32;
      match i.op.op {
        case Add => value := Wrap(lhsInfo.n + rhsInfo.n);
        case Sub => value := Wrap(lhsInfo.n - rhsInfo.n);
        case Mul => value := Wrap(lhsInfo.n * rhsInfo.n);
      }
      if value != RawValue(oldInfo) {
        Update(i.id, Known(value));
      }
    }

    method VisitICmpInst(i: Instr)
      requires i.op.ICmp? && !failed
      modifies this
      ensures State() == VisitICmp(g, i, old(State()))
    {
      hide PutAndEnqueue, Put;
      TouchFinds(constantTable, i.op.a);
      var lhsInfo := GetConstantLatticeElem(i.op.a);
      TouchFinds(constantTable, i.op.b);
      var rhsInfo := GetConstantLatticeElem(i.op.b);
      var oldInfo := GetConstantLatticeElem(Reg(i.id));
      if lhsInfo.Top? || rhsInfo.Top? {
        if !oldInfo.Top? {
          Update(i.id, Top);
        }
      } else if lhsInfo.Bottom? || rhsInfo.Bottom? {
        if !oldInfo.Bottom? {
          Update(i.id, Bottom);
        }
      } else {
        match i.op.pred {
          case EQ => CheckedInsert(i.id, Known(if lhsInfo.n == rhsInfo.n then 1 else 0));
          case NE => CheckedInsert(i.id, Known(if lhsInfo.n != rhsInfo.n then 1 else 0));
          case SLT => CheckedInsert(i.id, Known(if lhsInfo.n < rhsInfo.n then 1 else 0));
        }
      }
    }

    method VisitZExtInst(i: Instr)
      requires i.op.ZExt? && !failed
      modifies this
      ensures State() == VisitZExt(g, i, old(State()))
    {
      hide PutAndEnqueue;
      TouchFinds(constantTable, i.op.a);
      var info := GetConstantLatticeElem(i.op.a);
      var oldInfo := GetConstantLatticeElem(Reg(i.id));
      if !SameState(info, oldInfo) {
        Update(i.id, info);
      }
    }

    /** Loads and stores. */
    method VisitMemoryInst(i: Instr)
      requires !failed
      modifies this
      ensures State() == VisitMemory(g, i, old(State()))
    {
      hide PutAndEnqueue;
      var info := GetConstantLatticeElem(Reg(i.id));
      if !info.Top? {
        Update(i.id, Top);
      }
    }

    method VisitBranchInst(i: Instr)
      requires (i.op.Br? || i.op.CondBr?) && !failed
      modifies this
      ensures State() == VisitBranch(g, i, old(State()))
    {
      hide Put, Uses, Reachable;
      if i.op.Br? {
        EnqueueCFGSuccessors(i.id);
        blockTable := blockTable + {i.op.target};
        return;
      }
      var condVal := GetConstantLatticeElem(i.op.a);
      if condVal.Known? {
        var succ := if condVal.n == 0 then i.op.ifFalse else i.op.ifTrue;
        if succ in blockTable {
          return;
        }
        blockTable := blockTable + {succ};
        workQueue := workQueue + [succ];
        CheckedInsert(i.id, condVal);
      } else {
        blockTable := blockTable + {i.op.ifTrue, i.op.ifFalse};
        workQueue := workQueue + [i.op.ifTrue, i.op.ifFalse];
      }
    }

    /** The elements of the incoming values from reachable blocks; `unknown` when
        one of them is a parameter. */
    method CollectIncoming(i: Instr) returns (es: seq<Element>, unknown: bool)
      requires i.op.Phi?
      modifies this
      ensures State() == old(State()).(t := TouchIncoming(i.op.incoming, old(constantTable), old(blockTable)))
      ensures OfIncoming(i.op.incoming, old(constantTable), blockTable) == if unknown then Top else JoinAll(es)
    {
      var incoming := i.op.incoming;
      ghost var t, live := constantTable, blockTable;
      es := [];
      for k := 0 to |incoming|
        invariant blockTable == live && workQueue == old(workQueue) && failed == old(failed)
        invariant TouchIncoming(incoming[k..], constantTable, live) == TouchIncoming(incoming, t, live)
        invariant forall id :: Find(constantTable, id) == Find(t, id)
        invariant OfIncoming(incoming, t, live) == Join(JoinAll(es), OfIncoming(incoming[k..], t, live))
      {
        assert incoming[k..][1..] == incoming[k + 1..];
        var (v, b) := incoming[k];
        if b in blockTable {
          if v.Arg? {
            return es, true;
          }
          TouchFinds(constantTable, v);
          var e := GetConstantLatticeElem(v);
          JoinAllSnoc(es, e);
          JoinAssociates(JoinAll(es), e, OfIncoming(incoming[k + 1..], t, live));
          es := es + [e];
        }
      }
      return es, false;
    }

    method VisitPHINode(i: Instr)
      requires i.op.Phi? && !failed
      modifies this
      ensures State() == VisitPhi(g, i, old(State()))
    {
      hide PutAndEnqueue, OfIncoming, TouchIncoming;
      ghost var t := constantTable;
      TouchFinds(t, Reg(i.id));
      var oldInfo := GetConstantLatticeElem(Reg(i.id));
      OfIncomingSame(i.op.incoming, t, constantTable, blockTable);
      var incomingValues, unknown := CollectIncoming(i);
      if unknown {
        if !oldInfo.Top? {
          Update(i.id, Top);
        }
        return;
      }
      ghost var s1 := State();
      var canBeValue, values := true, [];
      for k := 0 to |incomingValues|
        invariant State() == s1 && JoinAll(incomingValues[..k]) == Verdict(canBeValue, values)
      {
        var elem := incomingValues[k];
        assert incomingValues[..k + 1] == incomingValues[..k] + [elem];
        JoinAllSnoc(incomingValues[..k], elem);
        VerdictJoin(canBeValue, values, elem);
        canBeValue := canBeValue && !elem.Top?;
        if elem.Known? {
          values := values + [elem.n];
        }
      }
      assert incomingValues[..|incomingValues|] == incomingValues;
      if canBeValue {
        if values == [] {
          failed := true;
          return;
        }
        var allSame := AllSame(values);
        if allSame {
          if oldInfo != Known(values[0]) {
            Update(i.id, Known(values[0]));
          }
          return;
        }
      }
      if !oldInfo.Top? {
        Update(i.id, Top);
      }
    }

    method VisitInst(i: Instr)
      requires Readable(i.op)
      modifies this
      ensures State() == Visit(g, i, old(State()))
    {
      hide VisitBinary, VisitICmp, VisitZExt, VisitPhi, VisitMemory, VisitBranch, Put;
      if failed {
        return;
      }
      match i.op
      case Binary(_, _, _) => VisitBinaryOperator(i);
      case ICmp(_, _, _) => VisitICmpInst(i);
      case ZExt(_) => VisitZExtInst(i);
      case Phi(_) => VisitPHINode(i);
      case Load(_) => VisitMemoryInst(i);
      case Store(_, _) => VisitMemoryInst(i);
      case Br(_) => VisitBranchInst(i);
      case CondBr(_, _, _) => VisitBranchInst(i);
      case Ret(_) => CheckedInsert(i.id, Top);
      case RetVoid => CheckedInsert(i.id, Top);
    }

    method VisitBlock(b: BlockRef)
      requires 0 <= b < |g| && forall i <- g[b] :: Readable(i.op)
      modifies this
      ensures State() == VisitAll(g, g[b], old(State()))
    {
      hide Visit, Readable;
      for k := 0 to |g[b]|
        invariant VisitAll(g, g[b][k..], State()) == VisitAll(g, g[b], old(State()))
      {
        assert g[b][k..][1..] == g[b][k + 1..];
        VisitInst(g[b][k]);
      }
    }

    method GetNextBlock() returns (b: Option<BlockRef>)
      modifies this`workQueue
      ensures (b, workQueue) == Next(old(workQueue), blockTable)
    {
      while workQueue != []
        invariant Next(workQueue, blockTable) == Next(old(workQueue), blockTable)
        decreases |workQueue|
      {
        var block := workQueue[0];
        workQueue := workQueue[1..];
        if block in blockTable {
          return Some(block);
        }
      }
      return None;
    }
  }

  lemma {:induction false} ReachableFirst(bs: seq<BlockRef>, k: nat, live: set<BlockRef>)
    requires k < |bs|
    ensures Reachable(bs[k..], live) == (if bs[k] in live then [bs[k]] else []) + Reachable(bs[k + 1..], live)
  {
    assert bs[k..][1..] == bs[k + 1..];
  }

  lemma {:induction false} OfIncomingSame(incoming: seq<(Value, BlockRef)>, t: Table, t': Table, live: set<BlockRef>)
    requires forall id :: Find(t', id) == Find(t, id)
    ensures OfIncoming(incoming, t', live) == OfIncoming(incoming, t, live)
    decreases incoming
  {
    if incoming != [] {
      OfIncomingSame(incoming[1..], t, t', live);
    }
  }

  lemma {:induction false} InitialInside(g: Graph)
    requires |g| > 0
    ensures Inside(g, Initial(g))
  {
  }
}
