/** The meaning of the integer fragment. Mode C11 is the standard's (sections
    6.5.3.3, 6.5.13 to 6.5.16, 6.8.4 and 6.8.5, with left-to-right evaluation of
    operands and wrap-around where the standard leaves signed overflow open).
    Mode AsBuilt is what the code generator implements instead for a logical
    operator whose value is used, and for `continue`. */
module CSemantics {
  import opened Ir
  import opened Options
  import opened Ast

  datatype Mode = C11 | AsBuilt

  function Truth(b: bool): i32 { if b then 1 else 0 }

  function Arithmetic(op: BinaryOperator, a: i32, b: i32): i32
    requires !op.LAND? && !op.LOR?
  {
    match op
    case PLUS => Wrap(a + b)
    case MINUS => Wrap(a - b)
    case STAR => Wrap(a * b)
    case LESS => Truth(a < b)
    case EQUAL => Truth(a == b)
    case NEQUAL => Truth(a != b)
  }

  /** The value of an expression, and the world it leaves. */
  function Eval(m: Mode, e: Expr, w: World): (i32, World)
    decreases e, 0
  {
    match e
    case Constant(n) => (n, w)
    case Variable(x) => (Peek(w, x), DoLoad(w, x))
    case Assign(x, r) =>
      var (v, w1) := Eval(m, r, w);
      (v, DoStore(w1, x, v))
    case Negate(a) =>
      var (v, w1) := Eval(m, a, w);
      (Wrap(0 - v), w1)
    case Not(a) =>
      var (v, w1) := Eval(m, a, w);
      (if m.C11? then Truth(v == 0) else BitXor(v, -1), w1)
    case Ternary(c, a, b) =>
      var (t, w1) := Test(m, c, w);
      if t then Eval(m, a, w1) else Eval(m, b, w1)
    case Binary(op, a, b) =>
      var (x, w1) := Eval(m, a, w);
      if m.C11? && op.LAND? && x == 0 then (0, w1)
      else if m.C11? && op.LOR? && x != 0 then (1, w1)
      else
        var (y, w2) := Eval(m, b, w1);
        match op
        case LAND => (if m.C11? then Truth(y != 0) else BitAnd(x, y), w2)
        case LOR => (if m.C11? then Truth(y != 0) else BitOr(x, y), w2)
        case _ => (Arithmetic(op, x, y), w2)
  }

  /** Which way a condition goes. The standard compares the value with 0; the
      code generator turns logical operators and ternaries into jumps. */
  function Test(m: Mode, e: Expr, w: World): (bool, World)
    decreases e, 1
  {
    if m.AsBuilt? && e.Binary? && e.op.LAND? then
      var (t, w1) := Test(m, e.lhs, w);
      if t then Test(m, e.rhs, w1) else (false, w1)
    else if m.AsBuilt? && e.Binary? && e.op.LOR? then
      var (t, w1) := Test(m, e.lhs, w);
      if t then (true, w1) else Test(m, e.rhs, w1)
    else if m.AsBuilt? && e.Not? then
      var (t, w1) := Test(m, e.operand, w);
      (!t, w1)
    else if m.AsBuilt? && e.Ternary? then
      var (t, w1) := Test(m, e.condition, w);
      if t then Test(m, e.lhs, w1) else Test(m, e.rhs, w1)
    else
      var (v, w1) := Eval(m, e, w);
      (v != 0, w1)
  }

  // ----- statements, as a machine with an explicit continuation -----

  /** What is left to do after the current statement. */
  datatype Kont =
    | KStop
    | KSeq(items: seq<Stmt>, k: Kont)
    | KWhile(condition: Expr, body: Stmt, k: Kont)
    | KDo(condition: Expr, body: Stmt, k: Kont)

  datatype State =
    | Before(s: Stmt, k: Kont, w: World)
    | After(k: Kont, w: World)
    | Done(result: Option<i32>, w: World)
    | Wrong

  /** The loop that a break or a continue leaves or restarts. */
  function InnermostLoop(k: Kont): Kont {
    if k.KSeq? then InnermostLoop(k.k) else k
  }

  /** The statement labelled l inside s, with what follows it. */
  function FindLabel(l: string, s: Stmt, k: Kont): Option<(Stmt, Kont)> {
    match s
    case Compound(items) => FindLabelAll(l, items, k)
    case Selection(_, a, b) =>
      var r := FindLabel(l, a, k);
      if r.Some? then r else if b.Some? then FindLabel(l, b.value, k) else None
    case While(c, b) => FindLabel(l, b, KWhile(c, b, k))
    case DoWhile(c, b) => FindLabel(l, b, KDo(c, b, k))
    case Labeled(l', t) => if l == l' then Some((t, k)) else FindLabel(l, t, k)
    case _ => None
  }

  function FindLabelAll(l: string, ss: seq<Stmt>, k: Kont): Option<(Stmt, Kont)> {
    if ss == [] then None
    else
      var r := FindLabel(l, ss[0], KSeq(ss[1..], k));
      if r.Some? then r else FindLabelAll(l, ss[1..], k)
  }

  /** The test of a while loop (6.8.5.1). */
  function WhileTest(m: Mode, c: Expr, b: Stmt, k: Kont, w: World): State {
    var (t, w1) := Test(m, c, w);
    if t then Before(b, KWhile(c, b, k), w1) else After(k, w1)
  }

  /** The test of a do loop (6.8.5.2). */
  function DoTest(m: Mode, c: Expr, b: Stmt, k: Kont, w: World): State {
    var (t, w1) := Test(m, c, w);
    if t then Before(b, KDo(c, b, k), w1) else After(k, w1)
  }

  function Next(m: Mode, f: Function, q: State): State {
    match q
    case Done(_, _) => q
    case Wrong => q
    case After(k, w) =>
      (match k
       // Falling off the end: a function that is not void returns 0.
       case KStop => Done(if f.isVoid then None else Some(0), w)
       case KSeq(ss, k1) => if ss == [] then After(k1, w) else Before(ss[0], KSeq(ss[1..], k1), w)
       case KWhile(c, b, k1) => WhileTest(m, c, b, k1, w)
       case KDo(c, b, k1) => DoTest(m, c, b, k1, w))
    case Before(s, k, w) =>
      match s
      case Expression(e) => After(k, if e.Some? then Eval(m, e.value, w).1 else w)
      case Compound(ss) => After(KSeq(ss, k), w)
      case Selection(c, a, b) =>
        var (t, w1) := Test(m, c, w);
        if t then Before(a, k, w1) else if b.Some? then Before(b.value, k, w1) else After(k, w1)
      case While(c, b) => WhileTest(m, c, b, k, w)
      case DoWhile(c, b) => Before(b, KDo(c, b, k), w)
      case Return(e) =>
        if e.Some? then
          var (v, w1) := Eval(m, e.value, w);
          Done(Some(v), w1)
        else Done(None, w)
      case Break =>
        (match InnermostLoop(k)
         case KWhile(_, _, k1) => After(k1, w)
         case KDo(_, _, k1) => After(k1, w)
         case _ => Wrong)
      case Continue =>
        (match InnermostLoop(k)
         case KWhile(c, b, k1) =>
           // As built, control goes to the body without testing the condition.
           if m.C11? then WhileTest(m, c, b, k1, w) else Before(b, KWhile(c, b, k1), w)
         case KDo(c, b, k1) => DoTest(m, c, b, k1, w)
         case _ => Wrong)
      case Goto(l) =>
        (match FindLabel(l, f.body, KStop)
         case Some((t, k1)) => Before(t, k1, w)
         case None => Wrong)
      case Labeled(_, t) => Before(t, k, w)
  }

  function Iterate(m: Mode, f: Function, q: State, n: nat): State
    decreases n
  {
    if n == 0 then q else Iterate(m, f, Next(m, f, q), n - 1)
  }

  /** The arguments are stored to the parameters in order. */
  function Bind(params: seq<string>, args: seq<i32>, w: World): World
    requires |params| == |args|
  {
    if params == [] then w
    else Bind(params[1..], args[1..], DoStore(w, params[0], args[0]))
  }

  function Call(f: Function, args: seq<i32>, w: World): State
    requires |f.params| == |args|
  {
    Before(f.body, KStop, Bind(f.params, args, w))
  }

  /** Calling f with these arguments stops with this result and this world. */
  ghost predicate Returns(m: Mode, f: Function, args: seq<i32>, w: World, result: Option<i32>, w': World)
    requires |f.params| == |args|
  {
    exists n: nat :: Iterate(m, f, Call(f, args, w), n) == Done(result, w')
  }
}
