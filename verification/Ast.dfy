/** The part of the abstract syntax tree that computes with `int` objects:
    expressions, and every kind of statement of the accepted C subset. */
module Ast {
  import opened Ir
  import opened Options

  datatype BinaryOperator = PLUS | MINUS | STAR | LESS | EQUAL | NEQUAL | LAND | LOR

  datatype Expr =
    | Constant(n: i32)
    | Variable(x: string)
    | Binary(op: BinaryOperator, lhs: Expr, rhs: Expr)
    | Assign(x: string, rhs: Expr)
    | Negate(operand: Expr)
    | Not(operand: Expr)
    | Ternary(condition: Expr, lhs: Expr, rhs: Expr)

  datatype Stmt =
    | Expression(e: Option<Expr>)
    | Compound(items: seq<Stmt>)
    | Selection(condition: Expr, ifStatement: Stmt, elseStatement: Option<Stmt>)
    | While(condition: Expr, body: Stmt)
    | DoWhile(condition: Expr, body: Stmt)
    | Return(e: Option<Expr>)
    | Break
    | Continue
    | Goto(name: string)
    | Labeled(name: string, statement: Stmt)

  /** A function definition: its int parameters, its body, and whether it
      returns void. */
  datatype Function = Function(params: seq<string>, body: Stmt, isVoid: bool)

  // ----- what a statement mentions -----

  /** The labels defined inside a statement. */
  function Labels(s: Stmt): set<string> {
    match s
    case Compound(items) => LabelsAll(items)
    case Selection(_, a, b) => Labels(a) + (if b.Some? then Labels(b.value) else {})
    case While(_, b) => Labels(b)
    case DoWhile(_, b) => Labels(b)
    case Labeled(l, t) => {l} + Labels(t)
    case _ => {}
  }

  function LabelsAll(ss: seq<Stmt>): set<string> {
    if ss == [] then {} else Labels(ss[0]) + LabelsAll(ss[1..])
  }

  /** The labels that a goto inside a statement names. */
  function Gotos(s: Stmt): set<string> {
    match s
    case Compound(items) => GotosAll(items)
    case Selection(_, a, b) => Gotos(a) + (if b.Some? then Gotos(b.value) else {})
    case While(_, b) => Gotos(b)
    case DoWhile(_, b) => Gotos(b)
    case Labeled(_, t) => Gotos(t)
    case Goto(l) => {l}
    case _ => {}
  }

  function GotosAll(ss: seq<Stmt>): set<string> {
    if ss == [] then {} else Gotos(ss[0]) + GotosAll(ss[1..])
  }

  /** No label is defined twice (the parser rejects a body that breaks this). */
  predicate UniqueLabels(s: Stmt) {
    match s
    case Compound(items) => UniqueLabelsAll(items)
    case Selection(_, a, b) =>
      UniqueLabels(a) && (b.Some? ==> UniqueLabels(b.value) && Labels(a) !! Labels(b.value))
    case While(_, b) => UniqueLabels(b)
    case DoWhile(_, b) => UniqueLabels(b)
    case Labeled(l, t) => l !in Labels(t) && UniqueLabels(t)
    case _ => true
  }

  predicate UniqueLabelsAll(ss: seq<Stmt>) {
    ss == [] || (UniqueLabels(ss[0]) && UniqueLabelsAll(ss[1..]) && Labels(ss[0]) !! LabelsAll(ss[1..]))
  }

  predicate HasLoop(s: Stmt) {
    match s
    case Compound(items) => HasLoopAll(items)
    case Selection(_, a, b) => HasLoop(a) || (b.Some? && HasLoop(b.value))
    case While(_, _) => true
    case DoWhile(_, _) => true
    case Labeled(_, t) => HasLoop(t)
    case _ => false
  }

  predicate HasLoopAll(ss: seq<Stmt>) {
    ss != [] && (HasLoop(ss[0]) || HasLoopAll(ss[1..]))
  }

  /** Every break and continue sits where the code generator's break and continue
      points are still those of its own loop: inside a while, not inside a do,
      and with no other loop before it in the same body. `ok` says whether that
      is so where s begins. */
  predicate JumpsPlaced(s: Stmt, ok: bool) {
    match s
    case Compound(items) => JumpsPlacedAll(items, ok)
    case Selection(_, a, b) =>
      JumpsPlaced(a, ok) && (b.Some? ==> JumpsPlaced(b.value, ok && !HasLoop(a)))
    case While(_, b) => JumpsPlaced(b, true)
    case DoWhile(_, b) => JumpsPlaced(b, false)
    case Labeled(_, t) => JumpsPlaced(t, ok)
    case Break => ok
    case Continue => ok
    case _ => true
  }

  predicate JumpsPlacedAll(ss: seq<Stmt>, ok: bool) {
    ss == [] || (JumpsPlaced(ss[0], ok) && JumpsPlacedAll(ss[1..], ok && !HasLoop(ss[0])))
  }
}
