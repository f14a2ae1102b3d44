module PrintedForm {
  /** Where the printer writes parentheses: one pair around every operation, a call and a
      subscript included, and none around anything else. */

  import opened Options
  import opened Tokens
  import opened Syntax
  import opened Grammar
  import opened Statements
  import opened Printer

  /** Every operation stands directly inside one pair of parentheses, and no pair holds
      a name, a constant or another pair. */
  predicate OnePairEach(t: Tree) {
    match t
    case Leaf(_) => true
    case Paren(Leaf(_)) => false
    case Paren(Paren(_)) => false
    case Paren(Call(f, args)) => OnePairEach(f) && AllOnePairEach(args)
    case Paren(Index(a, i)) => OnePairEach(a) && OnePairEach(i)
    case Paren(Member(a, _, _)) => OnePairEach(a)
    case Paren(Unary(_, e)) => OnePairEach(e)
    case Paren(SizeofType(_)) => true
    case Paren(Binary(_, l, r)) => OnePairEach(l) && OnePairEach(r)
    case Paren(Ternary(c, l, r)) => OnePairEach(c) && OnePairEach(l) && OnePairEach(r)
    case _ => false
  }

  predicate AllOnePairEach(ts: seq<Tree>) {
    ts == [] || (OnePairEach(ts[0]) && AllOnePairEach(ts[1..]))
  }

  lemma {:induction false} FullIs(t: Tree, u: Tree)
    requires Abstract(t)
    ensures u == Full(t) <==> OnePairEach(u) && Strip(u) == t
    decreases u, t, 1
  {
    match u
    case Paren(e) => if Strip(e) == t || u == Full(t) { FullPair(t, e); }
    case _ =>
  }

  lemma {:induction false} FullPair(t: Tree, e: Tree)
    requires Abstract(t)
    ensures Paren(e) == Full(t) <==> OnePairEach(Paren(e)) && Strip(e) == t
    decreases e, t, 0
  {
    match t
    case Call(f, args) => if e.Call? { FullIs(f, e.f); FullAre(args, e.args); }
    case Index(a, i) => if e.Index? { FullIs(a, e.a); FullIs(i, e.i); }
    case Member(a, _, _) => if e.Member? { FullIs(a, e.a); }
    case Unary(_, x) => if e.Unary? { FullIs(x, e.e); }
    case Binary(_, l, r) => if e.Binary? { FullIs(l, e.l); FullIs(r, e.r); }
    case Ternary(c, l, r) => if e.Ternary? { FullIs(c, e.c); FullIs(l, e.l); FullIs(r, e.r); }
    case _ =>
  }

  lemma {:induction false} FullAre(ts: seq<Tree>, us: seq<Tree>)
    requires AllAbstract(ts)
    ensures us == FullAll(ts) <==> AllOnePairEach(us) && StripAll(us) == ts
    decreases us, ts, 0
  {
    if ts != [] && us != [] {
      FullIs(ts[0], us[0]);
      FullAre(ts[1..], us[1..]);
      assert us == [us[0]] + us[1..] && ts == [ts[0]] + ts[1..];
      assert StripAll(us)[1..] == StripAll(us[1..]) && FullAll(ts)[1..] == FullAll(ts[1..]);
    }
  }

  /** The printed tokens of an expression are those of the one tree that has a pair of
      parentheses for each operation, and is the expression but for these; it is the
      tree that the parser reads from them. */
  lemma {:induction false} PrintedExactlyWhen(t: Tree, u: Tree)
    requires Abstract(t)
    ensures Expr(Printed(t), 0) == Got(u, []) <==> OnePairEach(u) && Strip(u) == t
    ensures Expr(Printed(t), 0) == Got(u, []) ==> Printed(t) == Flatten(u)
  {
    hide Expr, Full, Flatten, OnePairEach, Strip;
    FullIsGrammatical(t);
    InnerReads(Full(t), []);
    assert Printed(t) + [] == Printed(t);
    FullIs(t, u);
  }

  // ----- statements -----

  predicate OnePairOption(e: Option<Tree>) { e.Some? ==> OnePairEach(e.value) }

  predicate OnePairStmt(s: Stmt) {
    match s
    case Expression(e) => OnePairOption(e)
    case Compound(items) => AllOnePairStmt(items)
    case Selection(c, a, b) => OnePairEach(c) && OnePairStmt(a) && (b.Some? ==> OnePairStmt(b.value))
    case While(c, b) => OnePairEach(c) && OnePairStmt(b)
    case DoWhile(c, b) => OnePairEach(c) && OnePairStmt(b)
    case Return(e) => OnePairOption(e)
    case Labeled(_, t) => OnePairStmt(t)
    case _ => true
  }

  predicate AllOnePairStmt(ss: seq<Stmt>) {
    ss == [] || (OnePairStmt(ss[0]) && AllOnePairStmt(ss[1..]))
  }

  lemma {:induction false} FullStmtHasPairs(s: Stmt, depth: nat)
    requires AbstractStmt(s, depth)
    ensures OnePairStmt(FullStmt(s))
    decreases s
  {
    hide Full, OnePairEach, Abstract;
    match s
    case Expression(e) => if e.Some? { FullIs(e.value, Full(e.value)); }
    case Compound(items) => FullItemsHavePairs(items, depth);
    case Selection(c, a, b) =>
      FullIs(c, Full(c));
      FullStmtHasPairs(a, depth);
      if b.Some? {
        FullStmtHasPairs(b.value, depth);
      }
    case While(c, b) =>
      FullIs(c, Full(c));
      FullStmtHasPairs(b, depth + 1);
    case DoWhile(c, b) =>
      FullIs(c, Full(c));
      FullStmtHasPairs(b, depth + 1);
    case Return(e) => if e.Some? { FullIs(e.value, Full(e.value)); }
    case Labeled(_, t) => FullStmtHasPairs(t, depth);
    case _ =>
  }

  lemma {:induction false} FullItemsHavePairs(ss: seq<Stmt>, depth: nat)
    requires AllAbstractStmt(ss, depth)
    ensures AllOnePairStmt(FullItems(ss))
    decreases ss
  {
    hide FullStmt, OnePairStmt, AbstractStmt;
    if ss != [] {
      FullStmtHasPairs(ss[0], depth);
      FullItemsHavePairs(ss[1..], depth);
      assert FullItems(ss)[1..] == FullItems(ss[1..]);
    }
  }

  /** The printed tokens of a statement are its own with a pair of parentheses for each
      operation, besides those around conditions. */
  lemma {:induction false} PrintedStmtIs(s: Stmt, depth: nat) returns (u: Stmt)
    requires AbstractStmt(s, depth)
    ensures PrintedStmt(s) == FlattenStmt(u) && OnePairStmt(u) && StripStmt(u) == s
  {
    hide FullStmt, FlattenStmt, OnePairStmt, StripStmt, AbstractStmt;
    u := FullStmt(s);
    FullStmtIs(s, depth);
    FullStmtHasPairs(s, depth);
  }
}
