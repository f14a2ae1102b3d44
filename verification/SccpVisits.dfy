module SccpVisits {
  /** What one visit of the constant propagation may reach and queue, said of the tables
      before and after it and not of the branch of the pass that was taken. */

  import opened Ir
  import opened Options
  import opened Lattice
  import opened SccpRun
  import opened SccpPass

  /** The instruction has the value as an operand. */
  ghost predicate Mentions(op: Op, v: Value) {
    match op
    case Binary(_, a, b) => v == a || v == b
    case ICmp(_, a, b) => v == a || v == b
    case ZExt(a) => v == a
    case Store(a, _) => v == a
    case CondBr(a, _, _) => v == a
    case Ret(a) => v == a
    case Phi(incoming) => exists p :: p in incoming && p.0 == v
    case _ => false
  }

  /** Some instruction of block c has the value of instruction id as an operand. */
  ghost predicate IsUser(g: Graph, c: BlockRef, id: nat) {
    0 <= c < |g| && exists i :: i in g[c] && Mentions(i.op, Reg(id))
  }

  /** The value n of its condition sends the branch to block b. */
  predicate Sends(op: Op, n: i32, b: BlockRef)
    requires op.CondBr?
  {
    (n == 0 && b == op.ifFalse) || (n != 0 && b == op.ifTrue)
  }

  /** A condition of which e is known can send the branch to block b. A condition that
      nothing is known of yet can send it to either. */
  ghost predicate MayTake(op: Op, e: Element, b: BlockRef)
    requires op.CondBr?
  {
    exists n: i32 :: Sends(op, n, b) && (e.Known? ==> n == e.n)
  }

  /** A visit marks the blocks that a branch can go to, and no other. */
  lemma {:induction false} MarkedExactlyWhen(g: Graph, i: Instr, s: Tables, b: BlockRef)
    requires Readable(i.op) && !s.failed && !Visit(g, i, s).failed
    ensures b in Visit(g, i, s).live <==>
      || b in s.live
      || (i.op.Br? && b == i.op.target)
      || (i.op.CondBr? && MayTake(i.op, OfValue(i.op.a, s.t), b))
  {
    hide Uses, UsesIn, Reachable, Transfer, Touch, TouchIncoming, Find;
    if i.op.CondBr? {
      TakenExactlyWhen(i.op, OfValue(i.op.a, s.t), b);
    }
  }

  lemma TakenExactlyWhen(op: Op, e: Element, b: BlockRef)
    requires op.CondBr?
    ensures MayTake(op, e, b) <==>
      if e.Known? then b == (if e.n == 0 then op.ifFalse else op.ifTrue) else b == op.ifTrue || b == op.ifFalse
  {
    if e.Known? {
      assert Sends(op, e.n, b) <==> b == (if e.n == 0 then op.ifFalse else op.ifTrue);
    } else {
      assert b == op.ifFalse ==> Sends(op, 0, b);
      assert b == op.ifTrue ==> Sends(op, 1, b);
    }
  }

  /** What a visit gives cause to visit again: the targets of a conditional branch that
      is not decided; the target of a decided one when it becomes reachable; for any other
      instruction the reachable blocks that use its value, when what is known of it
      changed, except that a comparison found to be constant queues nothing. */
  ghost predicate Queues(g: Graph, i: Instr, s: Tables, s': Tables, c: BlockRef) {
    if i.op.CondBr? then
      MayTake(i.op, OfValue(i.op.a, s.t), c) && (OfValue(i.op.a, s.t).Known? ==> c !in s.live)
    else
      && c in s.live && IsUser(g, c, i.id)
      && (i.op.Br? || Find(s'.t, i.id) != Find(s.t, i.id))
      && !(i.op.ICmp? && Find(s'.t, i.id).Known?)
      && !i.op.Ret? && !i.op.RetVoid?
  }

  /** A visit only adds to the queue, behind what is there, and adds what gives cause to
      be visited again. */
  lemma {:induction false} QueuedExactlyWhen(g: Graph, i: Instr, s: Tables, c: BlockRef)
    requires Readable(i.op) && !s.failed && !Visit(g, i, s).failed
    ensures var s' := Visit(g, i, s);
      s.queue <= s'.queue && (c in s'.queue[|s.queue|..] <==> Queues(g, i, s, s', c))
  {
    hide Mentions, IsUser, MayTake, Uses, UsesIn, Reachable, Transfer, Touch, TouchIncoming;
    ReachableUsersExactly(g, i.id, s.live, c);
    var s' := Visit(g, i, s);
    match i.op {
      case CondBr(a, ifTrue, ifFalse) =>
        TakenExactlyWhen(i.op, OfValue(a, s.t), c);
      case _ =>
        VisitTouches(g, i, s);
    }
  }

  /** Looking values up changes nothing that is known. */
  lemma {:induction false} VisitTouches(g: Graph, i: Instr, s: Tables)
    requires Readable(i.op) && !s.failed && !Visit(g, i, s).failed && !i.op.CondBr?
    ensures var s' := Visit(g, i, s); var users := Reachable(Uses(g, 0, i.id), s.live);
      if i.op.Br? || (Find(s'.t, i.id) != Find(s.t, i.id) && !i.op.Ret? && !i.op.RetVoid?
        && !(i.op.ICmp? && Find(s'.t, i.id).Known?))
      then s'.queue == s.queue + users else s'.queue == s.queue
  {
    hide Uses, UsesIn, Reachable, Transfer, Touch, TouchIncoming;
    var t := s.t;
    match i.op {
      case Binary(_, a, b) =>
        TouchFinds(t, Reg(i.id));
        TouchFinds(Touch(t, Reg(i.id)), a);
        TouchFinds(Touch(Touch(t, Reg(i.id)), a), b);
      case ICmp(_, a, b) =>
        TouchFinds(t, a);
        TouchFinds(Touch(t, a), b);
        TouchFinds(Touch(Touch(t, a), b), Reg(i.id));
      case ZExt(a) =>
        TouchFinds(t, a);
        TouchFinds(Touch(t, a), Reg(i.id));
      case Phi(incoming) =>
        TouchFinds(t, Reg(i.id));
        TouchIncomingFinds(incoming, Touch(t, Reg(i.id)), s.live);
      case _ =>
        TouchFinds(t, Reg(i.id));
    }
  }

  lemma {:induction false} ReachableUsersExactly(g: Graph, id: nat, live: set<BlockRef>, c: BlockRef)
    ensures c in Reachable(Uses(g, 0, id), live) <==> c in live && IsUser(g, c, id)
  {
    hide Mentions;
    UsersExactly(g, 0, id, c);
    ReachableExactly(Uses(g, 0, id), live, c);
  }

  lemma {:induction false} ReachableExactly(bs: seq<BlockRef>, live: set<BlockRef>, c: BlockRef)
    ensures c in Reachable(bs, live) <==> c in live && c in bs
    decreases bs
  {
    if bs != [] {
      ReachableExactly(bs[1..], live, c);
    }
  }

  lemma {:induction false} UsersExactly(g: Graph, b: nat, id: nat, c: BlockRef)
    requires b <= |g|
    ensures c in Uses(g, b, id) <==> b <= c && IsUser(g, c, id)
    decreases |g| - b
  {
    hide Mentions;
    if b < |g| {
      UsersInExactly(g[b], b, id, c);
      UsersExactly(g, b + 1, id, c);
    }
  }

  lemma {:induction false} UsersInExactly(s: seq<Instr>, b: nat, id: nat, c: BlockRef)
    ensures c in UsesIn(s, b, id) <==> c == b && exists i :: i in s && Mentions(i.op, Reg(id))
    decreases s
  {
    hide Mentions, Operands;
    if s != [] {
      MentionsExactly(s[0].op, Reg(id));
      UsersInExactly(s[1..], b, id, c);
      assert s[0] in s;
    }
  }

  lemma {:induction false} MentionsExactly(op: Op, v: Value)
    ensures v in Operands(op) <==> Mentions(op, v)
  {
    if op.Phi? {
      var operands := Operands(op);
      if v in operands {
        var k :| 0 <= k < |operands| && operands[k] == v;
        assert op.incoming[k] in op.incoming && op.incoming[k].0 == v;
      } else if exists p :: p in op.incoming && p.0 == v {
        var k :| 0 <= k < |op.incoming| && op.incoming[k].0 == v;
        assert operands[k] == v;
      }
    }
  }

  // ----- what a visit stores -----

  /** The value of an instruction other than a phi is known when the values of all its
      operands are, and given up exactly when that of an operand is (that the known value
      is the right one is Lattice.TransferCovers). */
  lemma {:induction false} KnownExactlyWhen(op: Op, t: Table, live: set<BlockRef>)
    requires op.Binary? || op.ICmp? || op.ZExt?
    ensures Transfer(op, t, live).Known? <==> forall v :: Mentions(op, v) ==> OfValue(v, t).Known?
    ensures Transfer(op, t, live).Top? <==> exists v :: Mentions(op, v) && OfValue(v, t).Top?
  {
    hide Find, Apply, Compare;
    assert Mentions(op, op.a);
    if !op.ZExt? {
      assert Mentions(op, op.b);
    }
  }

  /** What a phi stands for is the least that lies above all its values from reachable
      blocks. */
  lemma {:induction false} PhiIsLeastUpperBound(incoming: seq<(Value, BlockRef)>, t: Table, live: set<BlockRef>, e: Element)
    ensures Leq(Transfer(Phi(incoming), t, live), e) <==>
      forall p <- incoming :: p.1 in live ==> Leq(OfValue(p.0, t), e)
    decreases incoming
  {
    hide OfValue;
    if incoming != [] {
      PhiIsLeastUpperBound(incoming[1..], t, live, e);
      assert forall p <- incoming :: p == incoming[0] || p in incoming[1..];
    }
  }

  // ----- what is visited next -----

  /** Block b stands at place k of the queue, no reachable block before it, and the
      blocks behind it are the rest. */
  ghost predicate FirstAt(queue: seq<BlockRef>, live: set<BlockRef>, k: nat, b: BlockRef, rest: seq<BlockRef>) {
    && k < |queue| && queue[k] == b && b in live && rest == queue[k + 1..]
    && forall j | 0 <= j < k :: queue[j] !in live
  }

  /** The pass takes the first reachable block of the queue and drops those before it. */
  lemma {:induction false} TakenFirstExactlyWhen(queue: seq<BlockRef>, live: set<BlockRef>, b: BlockRef, rest: seq<BlockRef>)
    ensures Next(queue, live) == (Some(b), rest) <==> exists k: nat :: FirstAt(queue, live, k, b, rest)
    ensures Next(queue, live).0.None? <==> forall c <- queue :: c !in live
    decreases queue
  {
    if queue != [] {
      if queue[0] in live {
        assert FirstAt(queue, live, 0, queue[0], queue[1..]);
        assert queue[0] in queue;
      } else {
        TakenFirstExactlyWhen(queue[1..], live, b, rest);
        SkipsHead(queue, live, b, rest);
        if k: nat :| FirstAt(queue, live, k, b, rest) {
          assert FirstAt(queue[1..], live, k - 1, b, rest);
        }
        if k: nat :| FirstAt(queue[1..], live, k, b, rest) {
          assert FirstAt(queue, live, k + 1, b, rest);
        }
      }
    }
  }

  lemma {:induction false} SkipsHead(queue: seq<BlockRef>, live: set<BlockRef>, b: BlockRef, rest: seq<BlockRef>)
    requires queue != [] && queue[0] !in live
    ensures !FirstAt(queue, live, 0, b, rest)
    ensures forall k: nat | k > 0 :: FirstAt(queue, live, k, b, rest) ==> FirstAt(queue[1..], live, k - 1, b, rest)
    ensures forall k: nat :: FirstAt(queue[1..], live, k, b, rest) ==> FirstAt(queue, live, k + 1, b, rest)
  {
    forall k: nat | FirstAt(queue[1..], live, k, b, rest)
      ensures FirstAt(queue, live, k + 1, b, rest)
    {
      assert forall j | 0 < j < k + 1 :: queue[j] == queue[1..][j - 1];
    }
    forall k: nat | k > 0 && FirstAt(queue, live, k, b, rest)
      ensures FirstAt(queue[1..], live, k - 1, b, rest)
    {
      assert forall j | 0 <= j < k - 1 :: queue[1..][j] == queue[j + 1];
    }
  }
}
