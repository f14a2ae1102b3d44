module Faithful {
  /** When what is built is what the C standard says: the two meanings agree unless
      the value of a logical operator is used or a continue is executed in a loop
      whose condition does not always hold, and for those the exact condition is
      given. */

  import opened Ir
  import opened Options
  import opened Ast
  import opened CSemantics
  import opened Creator
  import opened Codegen
  import opened BodyShape
  import opened Continuations
  import opened Preservation

  // ----- expressions -----

  /** Logical operators stand only where a condition is tested. */
  predicate PlainValue(e: Expr)
    decreases e, 0
  {
    match e
    case Constant(_) => true
    case Variable(_) => true
    case Assign(_, a) => PlainValue(a)
    case Negate(a) => PlainValue(a)
    case Not(_) => false
    case Binary(op, a, b) => !op.LAND? && !op.LOR? && PlainValue(a) && PlainValue(b)
    case Ternary(c, a, b) => PlainTest(c) && PlainValue(a) && PlainValue(b)
  }

  predicate PlainTest(e: Expr)
    decreases e, 1
  {
    match e
    case Not(a) => PlainTest(a)
    case Binary(op, a, b) => if op.LAND? || op.LOR? then PlainTest(a) && PlainTest(b) else PlainValue(e)
    case Ternary(c, a, b) => PlainTest(c) && PlainTest(a) && PlainTest(b)
    case _ => PlainValue(e)
  }

  /** A condition goes the way C's value says, evaluating what C evaluates. */
  lemma {:induction false} PlainTestIsC(e: Expr, w: World)
    requires PlainTest(e)
    ensures Test(AsBuilt, e, w) == Test(C11, e, w)
    decreases e, 1
  {
    match e
    case Not(a) => PlainTestIsC(a, w);
    case Binary(op, a, b) =>
      if op.LAND? || op.LOR? {
        PlainTestIsC(a, w);
        PlainTestIsC(b, Test(C11, a, w).1);
      } else {
        PlainValueIsC(e, w);
      }
    case Ternary(c, a, b) =>
      PlainTestIsC(c, w);
      PlainTestIsC(a, Test(C11, c, w).1);
      PlainTestIsC(b, Test(C11, c, w).1);
    case _ => PlainValueIsC(e, w);
  }

  lemma {:induction false} PlainValueIsC(e: Expr, w: World)
    requires PlainValue(e)
    ensures Eval(AsBuilt, e, w) == Eval(C11, e, w)
    decreases e, 0
  {
    match e
    case Constant(_) =>
    case Variable(_) =>
    case Assign(_, a) => PlainValueIsC(a, w);
    case Negate(a) => PlainValueIsC(a, w);
    case Binary(op, a, b) =>
      PlainValueIsC(a, w);
      PlainValueIsC(b, Eval(C11, a, w).1);
    case Ternary(c, a, b) =>
      PlainTestIsC(c, w);
      PlainValueIsC(a, Test(C11, c, w).1);
      PlainValueIsC(b, Test(C11, c, w).1);
  }

  // ----- the value of a logical operator -----

  lemma {:induction false} AndWithZero(a: int, n: nat)
    requires -Pow2(n) <= a < Pow2(n)
    ensures Bitwise(AND, 0, a, n) == 0 && Bitwise(AND, a, 0, n) == 0
    decreases n
  {
    if n > 0 {
      AndWithZero(a / 2, n - 1);
    }
  }

  lemma {:induction false} OrIsZero(a: int, b: int, n: nat)
    requires -Pow2(n) <= a < Pow2(n) && -Pow2(n) <= b < Pow2(n)
    ensures Bitwise(OR, a, b, n) == 0 <==> a == 0 && b == 0
    decreases n
  {
    if n > 0 {
      OrIsZero(a / 2, b / 2, n - 1);
    }
  }

  lemma {:induction false} XorWithOnes(a: int, n: nat)
    requires -Pow2(n) <= a < Pow2(n)
    ensures Bitwise(XOR, a, -1, n) == -1 - a
    decreases n
  {
    if n > 0 {
      XorWithOnes(a / 2, n - 1);
    }
  }

  lemma {:induction false} BitXorWithOnes(x: i32)
    ensures BitXor(x, -1) == -1 - x
  {
    Pow2Of31();
    XorWithOnes(x, 31);
  }

  lemma {:induction false} BitOrTruth(x: i32, y: i32)
    ensures BitOr(x, y) == 0 <==> x == 0 && y == 0
    ensures BitOr(x, y) == 1 <==> (x == 0 || x == 1) && (y == 0 || y == 1) && x + y != 0
  {
    Pow2Of31();
    OrIsZero(x, y, 31);
    OrIsZero(x / 2, y / 2, 30);
  }

  /** Both numbers are odd and they share no other set bit. */
  predicate ShareOnlyTheLowestBit(x: i32, y: i32) {
    x % 2 == 1 && y % 2 == 1 && Bitwise(AND, x / 2, y / 2, 30) == 0
  }

  lemma {:induction false} BitAndTruth(x: i32, y: i32)
    ensures x == 0 || y == 0 ==> BitAnd(x, y) == 0
    ensures BitAnd(x, y) == 1 <==> ShareOnlyTheLowestBit(x, y)
  {
    Pow2Of31();
    AndWithZero(x, 31);
    AndWithZero(y, 31);
  }

  /** The value built for `!x` is C's exactly when x is -1. */
  lemma {:induction false} NotIsCExactlyWhen(a: Expr, w: World)
    requires PlainValue(a)
    ensures Eval(AsBuilt, Expr.Not(a), w) == Eval(C11, Expr.Not(a), w) <==> Eval(C11, a, w).0 == -1
  {
    hide BitXor;
    PlainValueIsC(a, w);
    BitXorWithOnes(Eval(C11, a, w).0);
  }

  /** The value built for `a && b` is C's, with the same loads and stores, exactly
      when a is zero and evaluating b does nothing, or when a is not zero and b is
      zero or shares only its lowest bit with a. */
  lemma {:induction false} LandIsCExactlyWhen(a: Expr, b: Expr, w: World)
    requires PlainValue(a) && PlainValue(b)
    ensures var e := Expr.Binary(LAND, a, b);
      var (x, w1) := Eval(C11, a, w);
      var (y, w2) := Eval(C11, b, w1);
      var right := if x == 0 then w2 == w1 else y == 0 || ShareOnlyTheLowestBit(x, y);
      Eval(AsBuilt, e, w) == Eval(C11, e, w) <==> right
  {
    hide BitAnd, ShareOnlyTheLowestBit;
    PlainValueIsC(a, w);
    var (x, w1) := Eval(C11, a, w);
    PlainValueIsC(b, w1);
    BitAndTruth(x, Eval(C11, b, w1).0);
  }

  /** The same for `a || b`: right exactly when a is zero and b is 0 or 1, or when
      a is 1, b is 0 or 1, and evaluating b does nothing. */
  lemma {:induction false} LorIsCExactlyWhen(a: Expr, b: Expr, w: World)
    requires PlainValue(a) && PlainValue(b)
    ensures var e := Expr.Binary(LOR, a, b);
      var (x, w1) := Eval(C11, a, w);
      var (y, w2) := Eval(C11, b, w1);
      var right := (x == 0 || (x == 1 && w2 == w1)) && (y == 0 || y == 1);
      Eval(AsBuilt, e, w) == Eval(C11, e, w) <==> right
  {
    hide BitOr;
    PlainValueIsC(a, w);
    var (x, w1) := Eval(C11, a, w);
    PlainValueIsC(b, w1);
    BitOrTruth(x, Eval(C11, b, w1).0);
  }

  // ----- values that need no memory -----

  /** The value of an expression whose evaluation touches no memory. */
  function Fixed(e: Expr): Option<i32> {
    match e
    case Constant(n) => Some(n)
    case Variable(_) => None
    case Assign(_, _) => None
    case Negate(a) => (match Fixed(a) case Some(x) => Some(Wrap(0 - x)) case None => None)
    case Not(a) => (match Fixed(a) case Some(x) => Some(Truth(x == 0)) case None => None)
    case Ternary(c, a, b) =>
      (match Fixed(c)
       case Some(x) => if x != 0 then Fixed(a) else Fixed(b)
       case None => None)
    case Binary(op, a, b) =>
      match Fixed(a)
      case None => None
      case Some(x) =>
        if op.LAND? && x == 0 then Some(0)
        else if op.LOR? && x != 0 then Some(1)
        else
          match Fixed(b)
          case None => None
          case Some(y) => Some(if op.LAND? || op.LOR? then Truth(y != 0) else Arithmetic(op, x, y))
  }

  /** Every evaluation but that of a fixed expression leaves a trace. */
  lemma {:induction false} FixedIsEval(e: Expr, w: World)
    ensures var (v, w1) := Eval(C11, e, w);
      && |w.trace| <= |w1.trace|
      && match Fixed(e) case Some(x) => (v, w1) == (x, w) case None => |w.trace| < |w1.trace|
    decreases e
  {
    hide Wrap, Arithmetic;
    match e
    case Constant(_) =>
    case Variable(_) =>
    case Assign(_, a) => FixedIsEval(a, w);
    case Negate(a) => FixedIsEval(a, w);
    case Not(a) => FixedIsEval(a, w);
    case Ternary(c, a, b) =>
      FixedIsEval(c, w);
      FixedIsEval(a, Test(C11, c, w).1);
      FixedIsEval(b, Test(C11, c, w).1);
    case Binary(_, a, b) =>
      FixedIsEval(a, w);
      FixedIsEval(b, Eval(C11, a, w).1);
  }

  /** A condition that holds in every memory, without looking at it. */
  predicate AlwaysTrue(c: Expr) {
    Fixed(c).Some? && Fixed(c).value != 0
  }

  lemma {:induction false} AlwaysTrueExactlyWhen(c: Expr, w: World)
    ensures Test(C11, c, w) == (true, w) <==> AlwaysTrue(c)
  {
    FixedIsEval(c, w);
  }

  // ----- statements -----

  /** Logical operators stand only where a condition is tested. */
  predicate TestsOnly(s: Stmt) {
    match s
    case Expression(e) => e.Some? ==> PlainValue(e.value)
    case Compound(items) => TestsOnlyAll(items)
    case Selection(c, a, b) => PlainTest(c) && TestsOnly(a) && (b.Some? ==> TestsOnly(b.value))
    case While(c, b) => PlainTest(c) && TestsOnly(b)
    case DoWhile(c, b) => PlainTest(c) && TestsOnly(b)
    case Return(e) => e.Some? ==> PlainValue(e.value)
    case Labeled(_, t) => TestsOnly(t)
    case _ => true
  }

  predicate TestsOnlyAll(ss: seq<Stmt>) {
    ss == [] || (TestsOnly(ss[0]) && TestsOnlyAll(ss[1..]))
  }

  /** Every continue of a while is in one whose condition always holds; `fine` says
      whether that is so of the loop around s. */
  predicate ContinuesFine(s: Stmt, fine: bool) {
    match s
    case Compound(items) => ContinuesFineAll(items, fine)
    case Selection(_, a, b) => ContinuesFine(a, fine) && (b.Some? ==> ContinuesFine(b.value, fine))
    case While(c, b) => ContinuesFine(b, AlwaysTrue(c))
    case DoWhile(_, b) => ContinuesFine(b, true)
    case Continue => fine
    case Labeled(_, t) => ContinuesFine(t, fine)
    case _ => true
  }

  predicate ContinuesFineAll(ss: seq<Stmt>, fine: bool) {
    ss == [] || (ContinuesFine(ss[0], fine) && ContinuesFineAll(ss[1..], fine))
  }

  predicate Plain(s: Stmt) {
    TestsOnly(s) && ContinuesFine(s, true)
  }

  /** The loop that a continue in front of k is about treats it as C does. */
  predicate FineLoop(k: Kont) {
    var loop := InnermostLoop(k);
    loop.KWhile? ==> AlwaysTrue(loop.condition)
  }

  predicate PlainAt(s: Stmt, k: Kont) {
    TestsOnly(s) && ContinuesFine(s, FineLoop(k))
  }

  predicate PlainKont(k: Kont) {
    match k
    case KStop => true
    case KSeq(ss, k1) => TestsOnlyAll(ss) && ContinuesFineAll(ss, FineLoop(k1)) && PlainKont(k1)
    case KWhile(c, b, k1) => PlainTest(c) && PlainAt(b, k) && PlainKont(k1)
    case KDo(c, b, k1) => PlainTest(c) && PlainAt(b, k) && PlainKont(k1)
  }

  predicate PlainState(q: State) {
    match q
    case Before(s, k, _) => PlainAt(s, k) && PlainKont(k)
    case After(k, _) => PlainKont(k)
    case _ => true
  }

  lemma {:induction false} PlainLoop(k: Kont)
    requires PlainKont(k)
    ensures PlainKont(InnermostLoop(k))
    decreases k
  {
    if k.KSeq? {
      PlainLoop(k.k);
    }
  }

  lemma {:induction false} PlainLabel(l: string, s: Stmt, k: Kont)
    requires PlainAt(s, k) && PlainKont(k)
    ensures var r := FindLabel(l, s, k);
      r.Some? ==> PlainAt(r.value.0, r.value.1) && PlainKont(r.value.1)
    decreases s
  {
    hide PlainTest, PlainValue, AlwaysTrue;
    match s
    case Compound(items) => PlainLabelAll(l, items, k);
    case Selection(_, a, b) =>
      PlainLabel(l, a, k);
      if b.Some? {
        PlainLabel(l, b.value, k);
      }
    case While(c, b) => PlainLabel(l, b, KWhile(c, b, k));
    case DoWhile(c, b) => PlainLabel(l, b, KDo(c, b, k));
    case Labeled(_, t) => PlainLabel(l, t, k);
    case _ =>
  }

  lemma {:induction false} PlainLabelAll(l: string, ss: seq<Stmt>, k: Kont)
    requires TestsOnlyAll(ss) && ContinuesFineAll(ss, FineLoop(k)) && PlainKont(k)
    ensures var r := FindLabelAll(l, ss, k);
      r.Some? ==> PlainAt(r.value.0, r.value.1) && PlainKont(r.value.1)
    decreases ss
  {
    hide PlainTest, PlainValue, AlwaysTrue;
    if ss != [] {
      PlainLabel(l, ss[0], KSeq(ss[1..], k));
      PlainLabelAll(l, ss[1..], k);
    }
  }

  /** On plain states both meanings take the same step. */
  lemma {:induction false} PlainNext(f: Function, q: State)
    requires Plain(f.body) && PlainState(q)
    ensures Next(AsBuilt, f, q) == Next(C11, f, q) && PlainState(Next(C11, f, q))
  {
    hide Eval, Test, PlainValue, PlainTest, AlwaysTrue;
    match q
    case Before(s, k, w) =>
      PlainLoop(k);
      match s {
        case Continue =>
          if InnermostLoop(k).KWhile? {
            AlwaysTrueExactlyWhen(InnermostLoop(k).condition, w);
          } else if InnermostLoop(k).KDo? {
            PlainTestIsC(InnermostLoop(k).condition, w);
          }
        case Expression(e) => if e.Some? { PlainValueIsC(e.value, w); }
        case Selection(c, _, _) => PlainTestIsC(c, w);
        case While(c, _) => PlainTestIsC(c, w);
        case Return(e) => if e.Some? { PlainValueIsC(e.value, w); }
        case Goto(l) => PlainLabel(l, f.body, KStop);
        case _ =>
      }
    case After(k, w) =>
      if k.KWhile? || k.KDo? {
        PlainTestIsC(k.condition, w);
      }
    case _ =>
  }

  lemma {:induction false} PlainIterate(f: Function, q: State, n: nat)
    requires Plain(f.body) && PlainState(q)
    ensures Iterate(AsBuilt, f, q, n) == Iterate(C11, f, q, n)
    decreases n
  {
    hide Next;
    if n > 0 {
      PlainNext(f, q);
      PlainIterate(f, Next(C11, f, q), n - 1);
    }
  }

  /** The compiler is right: calling f, as the standard defines it, stops with a
      result and a world, the same loads and stores in the same order, if and only
      if running the graph does. */
  lemma {:induction false} GraphMeansC(f: Function, args: seq<i32>, w: World, r: Option<i32>, w': World)
    requires Admissible(f) && Plain(f.body) && |args| == |f.params|
    ensures |EmitFunction(f).blocks| > 0
    ensures var G := EmitFunction(f).blocks;
      Returns(C11, f, args, w, r, w') <==> Finishes(G, Start(G, args, w), r, w')
  {
    hide Next, Admissible, Emit, TestsOnly, ContinuesFine;
    GraphMeansFunction(f, args, w, r, w');
    forall n: nat
      ensures Iterate(AsBuilt, f, Call(f, args, w), n) == Iterate(C11, f, Call(f, args, w), n)
    {
      PlainIterate(f, Call(f, args, w), n);
    }
  }

  // ----- continue -----

  /** A continue in a while does what the standard says exactly when the condition
      always holds and touches no memory. */
  lemma {:induction false} ContinueIsCExactlyWhen(f: Function, k: Kont, w: World)
    requires InnermostLoop(k).KWhile?
    ensures Next(AsBuilt, f, Before(Continue, k, w)) == Next(C11, f, Before(Continue, k, w))
      <==> AlwaysTrue(InnermostLoop(k).condition)
  {
    hide Test, AlwaysTrue;
    AlwaysTrueExactlyWhen(InnermostLoop(k).condition, w);
  }

  /** `while (x) { x = 0; continue; }` */
  const BODY := Compound([Expression(Some(Assign("x", Constant(0)))), Continue])

  const AGAIN := Function([], While(Variable("x"), BODY), false)

  /** The states of one turn through the body. */
  lemma {:induction false} BodyTurn(m: Mode, k: Kont, w: World) returns (q: State)
    ensures var w1 := DoStore(w, "x", 0);
      && q == Before(Continue, KSeq([], k), w1)
      && Iterate(m, AGAIN, Before(BODY, k, w), 4) == q
      && forall n | 0 <= n <= 4 :: !Iterate(m, AGAIN, Before(BODY, k, w), n).Done?
  {
    var first := Expression(Some(Assign("x", Constant(0))));
    var w1 := DoStore(w, "x", 0);
    assert [first, Continue][1..] == [Continue] && [Continue][1..] == [];
    var q0 := Before(BODY, k, w);
    var q1 := After(KSeq([first, Continue], k), w);
    var q2 := Before(first, KSeq([Continue], k), w);
    var q3 := After(KSeq([Continue], k), w1);
    q := Before(Continue, KSeq([], k), w1);
    assert Next(m, AGAIN, q0) == q1 && Next(m, AGAIN, q1) == q2;
    assert Eval(m, Assign("x", Constant(0)), w).1 == w1;
    assert Next(m, AGAIN, q2) == q3 && Next(m, AGAIN, q3) == q;
    FourTurns(m, q0, q1, q2, q3, q);
  }

  lemma {:induction false} FourTurns(m: Mode, q0: State, q1: State, q2: State, q3: State, q4: State)
    requires Next(m, AGAIN, q0) == q1 && Next(m, AGAIN, q1) == q2 && Next(m, AGAIN, q2) == q3 && Next(m, AGAIN, q3) == q4
    requires !q0.Done? && !q1.Done? && !q2.Done? && !q3.Done? && !q4.Done?
    ensures Iterate(m, AGAIN, q0, 4) == q4
    ensures forall n | 0 <= n <= 4 :: !Iterate(m, AGAIN, q0, n).Done?
  {
    hide Next;
    assert Iterate(m, AGAIN, q0, 0) == q0;
    assert Iterate(m, AGAIN, q0, 1) == Iterate(m, AGAIN, q1, 0) == q1;
    assert Iterate(m, AGAIN, q0, 2) == Iterate(m, AGAIN, q1, 1) == Iterate(m, AGAIN, q2, 0) == q2;
    assert Iterate(m, AGAIN, q0, 3) == Iterate(m, AGAIN, q1, 2) == Iterate(m, AGAIN, q2, 1) == Iterate(m, AGAIN, q3, 0) == q3;
    assert Iterate(m, AGAIN, q0, 4) == Iterate(m, AGAIN, q1, 3) == Iterate(m, AGAIN, q2, 2) == Iterate(m, AGAIN, q3, 1)
        == Iterate(m, AGAIN, q4, 0) == q4;
    forall n | 0 <= n <= 4
      ensures !Iterate(m, AGAIN, q0, n).Done?
    {
      assert n == 0 || n == 1 || n == 2 || n == 3 || n == 4;
    }
  }

  lemma {:induction false} IterateAdd(m: Mode, f: Function, q: State, j: nat, n: nat)
    ensures Iterate(m, f, q, j + n) == Iterate(m, f, Iterate(m, f, q, j), n)
    decreases j
  {
    if j > 0 {
      IterateAdd(m, f, Next(m, f, q), j - 1, n);
    }
  }

  lemma {:induction false} NeverDone(k: Kont, w: World, n: nat)
    requires k == KWhile(Variable("x"), BODY, KStop)
    ensures !Iterate(AsBuilt, AGAIN, Before(BODY, k, w), n).Done?
    decreases n
  {
    hide Next;
    var q := BodyTurn(AsBuilt, k, w);
    if n > 4 {
      IterateAdd(AsBuilt, AGAIN, Before(BODY, k, w), 4, n - 4);
      ContinuesAtBody(k, q.w);
      NeverDone(k, q.w, n - 5);
    }
  }

  lemma {:induction false} ContinuesAtBody(k: Kont, w: World)
    requires k == KWhile(Variable("x"), BODY, KStop)
    ensures Next(AsBuilt, AGAIN, Before(Continue, KSeq([], k), w)) == Before(BODY, k, w)
  {
  }

  /** A whole run with a continue: the loop that the standard ends after one turn is
      compiled to one that never ends. */
  lemma {:induction false} ContinueRunsOn(w: World)
    requires Peek(w, "x") == 1
    ensures exists w' :: Returns(C11, AGAIN, [], w, Some(0), w')
    ensures forall r, w' :: !Returns(AsBuilt, AGAIN, [], w, r, w')
  {
    var k := KWhile(Variable("x"), BODY, KStop);
    var q0 := Call(AGAIN, [], w);
    var w0 := DoLoad(w, "x");
    assert q0 == Before(AGAIN.body, KStop, w);
    forall m: Mode
      ensures Next(m, AGAIN, q0) == Before(BODY, k, w0)
    {
      assert Test(m, Variable("x"), w) == (true, w0);
    }
    hide Next;
    forall r, w', n: nat
      ensures Iterate(AsBuilt, AGAIN, q0, n) != Done(r, w')
    {
      if n > 0 {
        NeverDone(k, w0, n - 1);
      }
    }
    var q := BodyTurn(C11, k, w0);
    var w2 := EndsInC(k, q.w);
    IterateAdd(C11, AGAIN, Before(BODY, k, w0), 4, 2);
    assert Iterate(C11, AGAIN, q0, 7) == Iterate(C11, AGAIN, Before(BODY, k, w0), 6) == Done(Some(0), w2);
    assert Returns(C11, AGAIN, [], w, Some(0), w2);
  }

  lemma {:induction false} EndsInC(k: Kont, w: World) returns (w': World)
    requires k == KWhile(Variable("x"), BODY, KStop) && Peek(w, "x") == 0
    ensures Iterate(C11, AGAIN, Before(Continue, KSeq([], k), w), 2) == Done(Some(0), w')
  {
    w' := DoLoad(w, "x");
    var q := After(KStop, w');
    assert Test(C11, Variable("x"), w) == (false, w');
    assert Next(C11, AGAIN, Before(Continue, KSeq([], k), w)) == q;
    assert Next(C11, AGAIN, q) == Done(Some(0), w');
    assert Iterate(C11, AGAIN, q, 1) == Iterate(C11, AGAIN, Done(Some(0), w'), 0);
  }
}
