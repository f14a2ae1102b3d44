module Lattice {
  /** The lattice of the constant propagation and its transfer functions. */

  import opened Ir
  import opened Options

  datatype Element = Bottom | Known(n: i32) | Top

  predicate Leq(a: Element, b: Element) {
    a.Bottom? || b.Top? || a == b
  }

  /** The numbers an element stands for. */
  predicate Covers(a: Element, v: i32) {
    a.Top? || (a.Known? && a.n == v)
  }

  function Join(a: Element, b: Element): Element {
    if a.Bottom? then b
    else if b.Bottom? || a == b then a
    else Top
  }

  /** What is known of the values of instructions, by identity. */
  type Table = map<nat, Element>

  function Find(t: Table, id: nat): Element {
    if id in t then t[id] else Bottom
  }

  /** What is known of an operand: constants are known, parameters are not. */
  function OfValue(v: Value, t: Table): Element {
    match v
    case Const(n) => Known(n)
    case Reg(id) => Find(t, id)
    case Arg(_) => Top
  }

  function Lift(f: (i32, i32) -> i32, a: Element, b: Element): Element {
    if a.Top? || b.Top? then Top
    else if a.Bottom? || b.Bottom? then Bottom
    else Known(f(a.n, b.n))
  }

  /** The incoming values of a phi whose blocks are reachable, joined. */
  function OfIncoming(incoming: seq<(Value, BlockRef)>, t: Table, live: set<BlockRef>): Element {
    if incoming == [] then Bottom
    else
      var rest := OfIncoming(incoming[1..], t, live);
      if incoming[0].1 in live then Join(OfValue(incoming[0].0, t), rest) else rest
  }

  /** The new element of an instruction's value. */
  function Transfer(op: Op, t: Table, live: set<BlockRef>): Element {
    match op
    case Binary(o, a, b) => Lift((x, y) => Apply(o, x, y), OfValue(a, t), OfValue(b, t))
    case ICmp(p, a, b) => Lift((x, y) => Compare(p, x, y), OfValue(a, t), OfValue(b, t))
    case ZExt(a) => OfValue(a, t)
    case Phi(incoming) => OfIncoming(incoming, t, live)
    case _ => Top
  }

  /** The blocks that a terminator can go to, as far as is known. */
  function Targets(op: Op, t: Table): set<BlockRef> {
    match op
    case Br(b) => {b}
    case CondBr(c, ifTrue, ifFalse) =>
      (match OfValue(c, t)
       case Known(n) => if n == 0 then {ifFalse} else {ifTrue}
       case _ => {ifTrue, ifFalse})
    case _ => {}
  }

  // ----- order -----

  ghost predicate TableLeq(t: Table, t': Table) {
    forall id <- t :: Leq(t[id], Find(t', id))
  }

  lemma {:induction false} OfValueMonotone(v: Value, t: Table, t': Table)
    requires TableLeq(t, t')
    ensures Leq(OfValue(v, t), OfValue(v, t'))
  {
  }

  lemma {:induction false} OfIncomingMonotone(
    incoming: seq<(Value, BlockRef)>, t: Table, t': Table, live: set<BlockRef>, live': set<BlockRef>)
    requires TableLeq(t, t') && live <= live'
    ensures Leq(OfIncoming(incoming, t, live), OfIncoming(incoming, t', live'))
    decreases incoming
  {
    if incoming != [] {
      OfValueMonotone(incoming[0].0, t, t');
      OfIncomingMonotone(incoming[1..], t, t', live, live');
    }
  }

  /** Knowing more about operands and reachable blocks never lowers a value. */
  lemma {:induction false} TransferMonotone(op: Op, t: Table, t': Table, live: set<BlockRef>, live': set<BlockRef>)
    requires TableLeq(t, t') && live <= live'
    ensures Leq(Transfer(op, t, live), Transfer(op, t', live'))
  {
    match op
    case Binary(_, a, b) => OfValueMonotone(a, t, t'); OfValueMonotone(b, t, t');
    case ICmp(_, a, b) => OfValueMonotone(a, t, t'); OfValueMonotone(b, t, t');
    case ZExt(a) => OfValueMonotone(a, t, t');
    case Phi(incoming) => OfIncomingMonotone(incoming, t, t', live, live');
    case _ =>
  }

  // ----- soundness of the transfer functions -----

  /** Every value computed so far is covered by the table. */
  ghost predicate Covered(regs: map<nat, i32>, t: Table) {
    forall id <- regs :: Covers(Find(t, id), regs[id])
  }

  lemma {:induction false} OperandCovered(v: Value, args: seq<i32>, regs: map<nat, i32>, t: Table)
    requires Covered(regs, t) && Operand(v, args, regs).Some?
    ensures Covers(OfValue(v, t), Operand(v, args, regs).value)
  {
  }

  lemma {:induction false} IncomingCovered(
    incoming: seq<(Value, BlockRef)>, prev: BlockRef, args: seq<i32>, regs: map<nat, i32>, t: Table, live: set<BlockRef>)
    requires Covered(regs, t) && prev in live
    requires Select(incoming, prev).Some? && Operand(Select(incoming, prev).value, args, regs).Some?
    ensures Covers(OfIncoming(incoming, t, live), Operand(Select(incoming, prev).value, args, regs).value)
    decreases incoming
  {
    if incoming[0].1 == prev {
      OperandCovered(incoming[0].0, args, regs, t);
    } else {
      IncomingCovered(incoming[1..], prev, args, regs, t, live);
    }
  }

  /** The transfer function covers whatever the instruction computes, when control
      came from a reachable block. */
  lemma {:induction false} TransferCovers(
    op: Op, prev: BlockRef, args: seq<i32>, regs: map<nat, i32>, t: Table, live: set<BlockRef>)
    requires Covered(regs, t) && (op.Phi? ==> prev in live)
    requires Compute(op, prev, args, regs).Some?
    ensures Covers(Transfer(op, t, live), Compute(op, prev, args, regs).value)
  {
    match op
    case Binary(_, a, b) => OperandCovered(a, args, regs, t); OperandCovered(b, args, regs, t);
    case ICmp(_, a, b) => OperandCovered(a, args, regs, t); OperandCovered(b, args, regs, t);
    case ZExt(a) => OperandCovered(a, args, regs, t);
    case Phi(incoming) => IncomingCovered(incoming, prev, args, regs, t, live);
    case _ =>
  }
}
