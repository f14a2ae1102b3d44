module SccpRun {
  /** The pass at work: visits of instructions update the tables in place. Whatever
      the order of the visits, entries only go up in the lattice. */

  import opened Ir
  import opened Lattice

  /** The constant table, the reachable blocks, the work queue, and whether an
      assertion of the pass has failed. */
  datatype Tables = Tables(t: Table, live: set<BlockRef>, queue: seq<BlockRef>, failed: bool)

  function Operands(op: Op): seq<Value> {
    match op
    case Binary(_, a, b) => [a, b]
    case ICmp(_, a, b) => [a, b]
    case ZExt(a) => [a]
    case Store(a, _) => [a]
    case CondBr(a, _, _) => [a]
    case Ret(a) => [a]
    case Phi(incoming) => seq(|incoming|, k requires 0 <= k < |incoming| => incoming[k].0)
    case _ => []
  }

  /** The blocks of the instructions of s, all in block b, that use a value. */
  function UsesIn(s: seq<Instr>, b: nat, id: nat): seq<BlockRef> {
    if s == [] then []
    else (if Reg(id) in Operands(s[0].op) then [b] else []) + UsesIn(s[1..], b, id)
  }

  /** The use list of a value, as the blocks of its users from block b on. */
  function Uses(g: Graph, b: nat, id: nat): seq<BlockRef>
    requires b <= |g|
    decreases |g| - b
  {
    if b == |g| then [] else UsesIn(g[b], b, id) + Uses(g, b + 1, id)
  }

  function Reachable(bs: seq<BlockRef>, live: set<BlockRef>): seq<BlockRef> {
    if bs == [] then []
    else (if bs[0] in live then [bs[0]] else []) + Reachable(bs[1..], live)
  }

  /** The value field of an entry; it is 0 unless the entry is a constant. */
  function RawValue(e: Element): i32 {
    if e.Known? then e.n else 0
  }

  predicate SameState(a: Element, b: Element) {
    a.Bottom? == b.Bottom? && a.Top? == b.Top?
  }

  // ----- what a visit does, as functions -----

  /** Looking a value up enters it as bottom if it was not there. */
  function Touch(t: Table, v: Value): Table {
    if v.Reg? && v.id !in t then t[v.id := Bottom] else t
  }

  function Rank(e: Element): nat {
    match e
    case Bottom => 0
    case Known(_) => 1
    case Top => 2
  }

  /** A checked insert: the pass's assertion fails if the state goes down. That a
      constant stays the same constant is not checked. */
  function Put(s: Tables, id: nat, e: Element): Tables {
    if Rank(Find(s.t, id)) <= Rank(e) then s.(t := s.t[id := e]) else s.(failed := true)
  }

  /** Stores an entry and enqueues the users of the value. */
  function PutAndEnqueue(g: Graph, s: Tables, id: nat, e: Element): Tables {
    var s1 := Put(s, id, e);
    if s1.failed then s1 else s1.(queue := s1.queue + Reachable(Uses(g, 0, id), s1.live))
  }

  /** Of the binary operators, the pass reads add, sub and mul as the machine does
      (what it does with and, or and xor is in module SccpFold). */
  predicate Readable(op: Op) {
    op.Binary? ==> op.op.Add? || op.op.Sub? || op.op.Mul?
  }

  function VisitBinary(g: Graph, i: Instr, s: Tables): Tables
    requires i.op.Binary? && Readable(i.op)
  {
    var s1 := s.(t := Touch(Touch(Touch(s.t, Reg(i.id)), i.op.a), i.op.b));
    var was := Find(s.t, i.id);
    match Transfer(i.op, s.t, s.live)
    case Top => if was.Top? then s1 else PutAndEnqueue(g, s1, i.id, Top)
    case Bottom => if was.Bottom? then s1 else PutAndEnqueue(g, s1, i.id, Bottom)
    case Known(n) => if n != RawValue(was) then PutAndEnqueue(g, s1, i.id, Known(n)) else s1
  }

  function VisitICmp(g: Graph, i: Instr, s: Tables): Tables
    requires i.op.ICmp?
  {
    var s1 := s.(t := Touch(Touch(Touch(s.t, i.op.a), i.op.b), Reg(i.id)));
    var was := Find(s.t, i.id);
    match Transfer(i.op, s.t, s.live)
    case Top => if was.Top? then s1 else PutAndEnqueue(g, s1, i.id, Top)
    case Bottom => if was.Bottom? then s1 else PutAndEnqueue(g, s1, i.id, Bottom)
    // Alone among the instructions that compute, a constant is stored without
    // enqueueing its users.
    case Known(n) => Put(s1, i.id, Known(n))
  }

  function VisitZExt(g: Graph, i: Instr, s: Tables): Tables
    requires i.op.ZExt?
  {
    var s1 := s.(t := Touch(Touch(s.t, i.op.a), Reg(i.id)));
    var e := OfValue(i.op.a, s.t);
    if SameState(e, Find(s.t, i.id)) then s1 else PutAndEnqueue(g, s1, i.id, e)
  }

  /** Incoming values are looked up until a parameter is met. */
  function TouchIncoming(incoming: seq<(Value, BlockRef)>, t: Table, live: set<BlockRef>): Table {
    if incoming == [] then t
    else if incoming[0].1 !in live then TouchIncoming(incoming[1..], t, live)
    else if incoming[0].0.Arg? then t
    else TouchIncoming(incoming[1..], Touch(t, incoming[0].0), live)
  }

  function VisitPhi(g: Graph, i: Instr, s: Tables): Tables
    requires i.op.Phi?
  {
    var s1 := s.(t := TouchIncoming(i.op.incoming, Touch(s.t, Reg(i.id)), s.live));
    var e := Transfer(i.op, s.t, s.live);
    // Nothing is known of any incoming value: the pass's assertion fails.
    if e.Bottom? then s1.(failed := true)
    else if e == Find(s.t, i.id) then s1
    else PutAndEnqueue(g, s1, i.id, e)
  }

  /** Memory accesses are unknown. */
  function VisitMemory(g: Graph, i: Instr, s: Tables): Tables {
    var s1 := s.(t := Touch(s.t, Reg(i.id)));
    if Find(s.t, i.id).Top? then s1 else PutAndEnqueue(g, s1, i.id, Top)
  }

  function VisitBranch(g: Graph, i: Instr, s: Tables): Tables
    requires i.op.Br? || i.op.CondBr?
  {
    if i.op.Br? then
      // The target is marked but, alone among branches, not enqueued.
      s.(live := s.live + {i.op.target}, queue := s.queue + Reachable(Uses(g, 0, i.id), s.live))
    else
      var s1 := s.(t := Touch(s.t, i.op.a));
      match OfValue(i.op.a, s.t)
      case Known(n) =>
        var b := if n == 0 then i.op.ifFalse else i.op.ifTrue;
        if b in s.live then s1
        else Put(s1.(live := s.live + {b}, queue := s.queue + [b]), i.id, Known(n))
      case _ =>
        s1.(live := s.live + {i.op.ifTrue, i.op.ifFalse}, queue := s.queue + [i.op.ifTrue, i.op.ifFalse])
  }

  function Visit(g: Graph, i: Instr, s: Tables): Tables
    requires Readable(i.op)
  {
    if s.failed then s
    else
      match i.op
      case Binary(_, _, _) => VisitBinary(g, i, s)
      case ICmp(_, _, _) => VisitICmp(g, i, s)
      case ZExt(_) => VisitZExt(g, i, s)
      case Phi(_) => VisitPhi(g, i, s)
      case Load(_) => VisitMemory(g, i, s)
      case Store(_, _) => VisitMemory(g, i, s)
      case Br(_) => VisitBranch(g, i, s)
      case CondBr(_, _, _) => VisitBranch(g, i, s)
      case Ret(_) => Put(s, i.id, Top)
      case RetVoid => Put(s, i.id, Top)
  }

  function VisitAll(g: Graph, instrs: seq<Instr>, s: Tables): Tables
    requires forall i <- instrs :: Readable(i.op)
  {
    if instrs == [] then s else VisitAll(g, instrs[1..], Visit(g, instrs[0], s))
  }

  // ----- the invariant -----

  predicate Computing(op: Op) { Computes(op) || op.Load? }

  /** No entry is above what its transfer function gives for the current tables. */
  ghost predicate BelowAt(i: Instr, t: Table, live: set<BlockRef>) {
    && (Computing(i.op) ==> Leq(Find(t, i.id), Transfer(i.op, t, live)))
    && (i.op.CondBr? ==> Leq(Find(t, i.id), OfValue(i.op.a, t)))
  }

  ghost predicate Below(g: Graph, t: Table, live: set<BlockRef>) {
    forall b | b in g :: forall i | i in b :: BelowAt(i, t, live)
  }

  /** Each instruction has an identity of its own. */
  ghost predicate DistinctIds(g: Graph) {
    forall b, b', i, i' | b in g && b' in g && i in b && i' in b' && i.id == i'.id :: i == i'
  }

  ghost predicate Occurs(i: Instr, g: Graph) {
    exists b :: b in g && i in b
  }

  /** Every instruction is one that the pass reads as the machine does. */
  predicate Arithmetical(g: Graph) {
    forall b | 0 <= b < |g| :: forall i <- g[b] :: Readable(i.op)
  }

  lemma {:induction false} BelowAtMonotone(i: Instr, t: Table, t': Table, live: set<BlockRef>, live': set<BlockRef>)
    requires BelowAt(i, t, live) && TableLeq(t, t') && live <= live' && Find(t', i.id) == Find(t, i.id)
    ensures BelowAt(i, t', live')
  {
    TransferMonotone(i.op, t, t', live, live');
    if i.op.CondBr? {
      OfValueMonotone(i.op.a, t, t');
    }
  }

  /** Looking values up changes nothing that is known. */
  lemma {:induction false} TouchFinds(t: Table, v: Value)
    ensures TableLeq(t, Touch(t, v)) && TableLeq(Touch(t, v), t)
    ensures forall id :: Find(Touch(t, v), id) == Find(t, id)
  {
  }

  lemma {:induction false} TouchIncomingFinds(incoming: seq<(Value, BlockRef)>, t: Table, live: set<BlockRef>)
    ensures forall id :: Find(TouchIncoming(incoming, t, live), id) == Find(t, id)
    decreases incoming
  {
    if incoming != [] && incoming[0].1 in live && !incoming[0].0.Arg? {
      TouchFinds(t, incoming[0].0);
      TouchIncomingFinds(incoming[1..], Touch(t, incoming[0].0), live);
    } else if incoming != [] && incoming[0].1 !in live {
      TouchIncomingFinds(incoming[1..], t, live);
    }
  }

  /** Going up: entries rise, and a constant never becomes another constant. */
  ghost predicate Ascends(s: Tables, s': Tables) {
    TableLeq(s.t, s'.t) && s.live <= s'.live
  }

  /** Writing an entry that is no higher than its transfer function keeps all
      entries below theirs. */
  lemma {:induction false} PutBelow(g: Graph, i: Instr, t: Table, t': Table, live: set<BlockRef>, live': set<BlockRef>, e: Element)
    requires Below(g, t, live) && DistinctIds(g) && Occurs(i, g) && live <= live'
    requires forall id :: Find(t', id) == if id == i.id then e else Find(t, id)
    requires Leq(Find(t, i.id), e)
    requires Computing(i.op) ==> Leq(e, Transfer(i.op, t, live))
    requires i.op.CondBr? ==> Leq(e, OfValue(i.op.a, t))
    ensures Below(g, t', live') && TableLeq(t, t')
  {
    forall id | id in t
      ensures Leq(t[id], Find(t', id))
    {
      assert Find(t', id) == if id == i.id then e else Find(t, id);
    }
    forall b, j | b in g && j in b
      ensures BelowAt(j, t', live')
    {
      assert BelowAt(j, t, live);
      if j.id == i.id {
        var b' :| b' in g && i in b';
        assert j == i;
        TransferMonotone(i.op, t, t', live, live');
        if i.op.CondBr? {
          OfValueMonotone(i.op.a, t, t');
        }
      } else {
        BelowAtMonotone(j, t, t', live, live');
      }
    }
  }

  /** What a visit does to the entry of its instruction: it is not lowered and stays
      below its transfer function, the other entries stay as they are, and only a
      phi of which nothing is known stops the pass. */
  ghost predicate Raises(i: Instr, s: Tables, s': Tables) {
    && s.live <= s'.live
    && (forall id :: id != i.id ==> Find(s'.t, id) == Find(s.t, id))
    && Leq(Find(s.t, i.id), Find(s'.t, i.id))
    && (Computing(i.op) ==> Leq(Find(s'.t, i.id), Transfer(i.op, s.t, s.live)))
    && (i.op.CondBr? ==> Leq(Find(s'.t, i.id), OfValue(i.op.a, s.t)))
    && (s'.failed <==> s.failed || (i.op.Phi? && Transfer(i.op, s.t, s.live) == Bottom))
  }

  lemma {:induction false} ArithmeticRaises(g: Graph, i: Instr, s: Tables)
    requires Readable(i.op) && BelowAt(i, s.t, s.live) && !s.failed && (i.op.Binary? || i.op.ICmp?)
    ensures Raises(i, s, Visit(g, i, s))
  {
    hide Transfer, OfIncoming, Uses, Reachable, Touch, TouchIncoming;
    match i.op
    case Binary(_, a, b) =>
      TouchFinds(s.t, Reg(i.id));
      TouchFinds(Touch(s.t, Reg(i.id)), a);
      TouchFinds(Touch(Touch(s.t, Reg(i.id)), a), b);
    case ICmp(_, a, b) =>
      TouchFinds(s.t, a);
      TouchFinds(Touch(s.t, a), b);
      TouchFinds(Touch(Touch(s.t, a), b), Reg(i.id));
  }

  lemma {:induction false} VisitRaises(g: Graph, i: Instr, s: Tables)
    requires Readable(i.op) && BelowAt(i, s.t, s.live) && !s.failed
    ensures Raises(i, s, Visit(g, i, s))
  {
    hide Transfer, OfIncoming, Uses, Reachable, Touch, TouchIncoming, VisitBinary, VisitICmp;
    TouchFinds(s.t, Reg(i.id));
    match i.op
    case Binary(_, _, _) => ArithmeticRaises(g, i, s);
    case ICmp(_, _, _) => ArithmeticRaises(g, i, s);
    case ZExt(a) =>
      TouchFinds(s.t, a);
      TouchFinds(Touch(s.t, a), Reg(i.id));
      ZExtTransfer(i, s.t, s.live);
    case Phi(incoming) => TouchIncomingFinds(incoming, Touch(s.t, Reg(i.id)), s.live);
    case CondBr(a, _, _) => TouchFinds(s.t, a);
    case Load(_) => LoadTransfer(i, s.t, s.live);
    case _ =>
  }

  lemma {:induction false} ZExtTransfer(i: Instr, t: Table, live: set<BlockRef>)
    requires i.op.ZExt?
    ensures Transfer(i.op, t, live) == OfValue(i.op.a, t)
  {
  }

  lemma {:induction false} LoadTransfer(i: Instr, t: Table, live: set<BlockRef>)
    requires i.op.Load?
    ensures Transfer(i.op, t, live) == Top
  {
  }

  lemma {:induction false} VisitOfFailed(g: Graph, i: Instr, s: Tables)
    requires Readable(i.op) && s.failed
    ensures Visit(g, i, s) == s
  {
  }

  /** One visit of any instruction of the function. The check of the inserts never
      fails; a visit stops the pass only at a phi of whose reachable incoming
      values nothing is known. */
  lemma {:induction false} VisitAscends(g: Graph, i: Instr, s: Tables)
    requires Readable(i.op) && Below(g, s.t, s.live) && DistinctIds(g) && Occurs(i, g)
    ensures var s' := Visit(g, i, s);
      && Below(g, s'.t, s'.live) && Ascends(s, s')
      && (s'.failed <==> s.failed || (i.op.Phi? && Transfer(i.op, s.t, s.live) == Bottom))
  {
    hide Visit, Transfer;
    var b :| b in g && i in b;
    assert BelowAt(i, s.t, s.live);
    var s' := Visit(g, i, s);
    if s.failed {
      VisitOfFailed(g, i, s);
    } else {
      VisitRaises(g, i, s);
    }
    PutBelow(g, i, s.t, s'.t, s.live, s'.live, Find(s'.t, i.id));
  }

  lemma {:induction false} TableLeqTrans(t: Table, t1: Table, t2: Table)
    requires TableLeq(t, t1) && TableLeq(t1, t2)
    ensures TableLeq(t, t2)
  {
    forall id | id in t
      ensures Leq(t[id], Find(t2, id))
    {
      assert Leq(t[id], Find(t1, id));
    }
  }

  /** Visits in any order, any number of times, only ascend: no entry ever goes
      down, and no constant is ever replaced by another one. */
  lemma {:induction false} RunsAscend(g: Graph, instrs: seq<Instr>, s: Tables)
    requires Below(g, s.t, s.live) && DistinctIds(g)
    requires forall i <- instrs :: Readable(i.op) && Occurs(i, g)
    ensures var s' := VisitAll(g, instrs, s);
      Below(g, s'.t, s'.live) && Ascends(s, s')
    decreases instrs
  {
    hide Visit, Below, Occurs;
    if instrs != [] {
      assert Occurs(instrs[0], g);
      VisitAscends(g, instrs[0], s);
      RunsAscend(g, instrs[1..], Visit(g, instrs[0], s));
      TableLeqTrans(s.t, Visit(g, instrs[0], s).t, VisitAll(g, instrs, s).t);
    }
  }

  lemma {:induction false} ConstantsStay(s: Tables, s': Tables, id: nat, n: i32, m: i32)
    requires Ascends(s, s') && Find(s.t, id) == Known(n) && Find(s'.t, id) == Known(m)
    ensures n == m
  {
    assert Leq(s.t[id], Find(s'.t, id));
  }

  /** The tables a run starts with. */
  function Initial(g: Graph): Tables {
    Tables(map[], {0}, seq(|g|, b => b), false)
  }

  lemma {:induction false} InitialBelow(g: Graph)
    ensures Below(g, Initial(g).t, Initial(g).live)
  {
  }

  // ----- when a visit leaves the entry its transfer function gives -----

  /** After visiting an add, sub or mul its entry is what the transfer function
      gives, except exactly when that is 0 and the entry was still bottom. */
  lemma {:induction false} BinaryUpToDateExactlyWhen(g: Graph, i: Instr, s: Tables)
    requires i.op.Binary? && Readable(i.op) && !s.failed && BelowAt(i, s.t, s.live)
    ensures Find(Visit(g, i, s).t, i.id) == Transfer(i.op, s.t, s.live)
      <==> !(Transfer(i.op, s.t, s.live) == Known(0) && Find(s.t, i.id) == Bottom)
  {
    hide Transfer, Uses, Reachable, Touch;
    TouchFinds(s.t, Reg(i.id));
    TouchFinds(Touch(s.t, Reg(i.id)), i.op.a);
    TouchFinds(Touch(Touch(s.t, Reg(i.id)), i.op.a), i.op.b);
  }

  /** The other instructions that compute are always up to date after a visit,
      unless the pass stops. */
  lemma {:induction false} OthersUpToDate(g: Graph, i: Instr, s: Tables)
    requires (i.op.ICmp? || i.op.ZExt? || i.op.Phi? || i.op.Load?) && !s.failed && BelowAt(i, s.t, s.live)
    ensures Find(Visit(g, i, s).t, i.id) == Transfer(i.op, s.t, s.live)
    ensures Visit(g, i, s).failed <==> i.op.Phi? && Transfer(i.op, s.t, s.live) == Bottom
  {
    hide Transfer, Uses, Reachable, Touch, TouchIncoming;
    TouchFinds(s.t, Reg(i.id));
    match i.op
    case ICmp(_, a, b) =>
      TouchFinds(s.t, a);
      TouchFinds(Touch(s.t, a), b);
      TouchFinds(Touch(Touch(s.t, a), b), Reg(i.id));
    case ZExt(a) =>
      TouchFinds(s.t, a);
      TouchFinds(Touch(s.t, a), Reg(i.id));
      ZExtTransfer(i, s.t, s.live);
    case Phi(incoming) => TouchIncomingFinds(incoming, Touch(s.t, Reg(i.id)), s.live);
    case Load(_) => LoadTransfer(i, s.t, s.live);
  }
}
