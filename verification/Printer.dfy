/** The pretty printer on tokens, and that what it prints parses to the same tree. */
module Printer {
  import opened Options
  import opened Tokens
  import opened Syntax
  import opened Grammar
  import opened Statements

  // ----- the parentheses that the printer adds -----

  /** The tree with parentheses around everything but names and constants. */
  function Full(t: Tree): Tree {
    match t
    case Leaf(_) => t
    case Paren(e) => Full(e)
    case Call(f, args) => Paren(Call(Full(f), FullAll(args)))
    case Index(a, i) => Paren(Index(Full(a), Full(i)))
    case Member(a, arrow, name) => Paren(Member(Full(a), arrow, name))
    case Unary(op, e) => Paren(Unary(op, Full(e)))
    case SizeofType(_) => Paren(t)
    case Binary(op, l, r) => Paren(Binary(op, Full(l), Full(r)))
    case Ternary(c, l, r) => Paren(Ternary(Full(c), Full(l), Full(r)))
  }

  function FullAll(ts: seq<Tree>): (r: seq<Tree>)
    ensures |r| == |ts|
  {
    if ts == [] then [] else [Full(ts[0])] + FullAll(ts[1..])
  }

  lemma {:induction false} FullIsGrammatical(t: Tree)
    requires Abstract(t)
    ensures Grammatical(Full(t)) && Level(Full(t)) == POSTFIX_LEVEL && Strip(Full(t)) == t
    decreases t
  {
    match t
    case Leaf(_) =>
    case Call(f, args) =>
      FullIsGrammatical(f);
      FullAreGrammatical(args);
    case Index(a, i) =>
      FullIsGrammatical(a);
      FullIsGrammatical(i);
    case Member(a, _, _) => FullIsGrammatical(a);
    case Unary(_, e) => FullIsGrammatical(e);
    case SizeofType(_) =>
    case Binary(_, l, r) =>
      FullIsGrammatical(l);
      FullIsGrammatical(r);
    case Ternary(c, l, r) =>
      FullIsGrammatical(c);
      FullIsGrammatical(l);
      FullIsGrammatical(r);
  }

  lemma {:induction false} FullAreGrammatical(ts: seq<Tree>)
    requires AllAbstract(ts)
    ensures AllGrammatical(FullAll(ts)) && StripAll(FullAll(ts)) == ts
    decreases ts
  {
    if ts != [] {
      FullIsGrammatical(ts[0]);
      FullAreGrammatical(ts[1..]);
      assert FullAll(ts)[1..] == FullAll(ts[1..]);
    }
  }

  // ----- statements -----

  function FullOpt(e: Option<Tree>): Option<Tree> {
    if e.Some? then Some(Full(e.value)) else None
  }

  function FullStmt(s: Stmt): Stmt {
    match s
    case Expression(e) => Expression(FullOpt(e))
    case Compound(items) => Compound(FullItems(items))
    case Selection(c, a, b) => Selection(Full(c), FullStmt(a), if b.Some? then Some(FullStmt(b.value)) else None)
    case While(c, b) => While(Full(c), FullStmt(b))
    case DoWhile(c, b) => DoWhile(Full(c), FullStmt(b))
    case Return(e) => Return(FullOpt(e))
    case Labeled(l, t) => Labeled(l, FullStmt(t))
    case _ => s
  }

  function FullItems(ss: seq<Stmt>): (r: seq<Stmt>)
    ensures |r| == |ss|
  {
    if ss == [] then [] else [FullStmt(ss[0])] + FullItems(ss[1..])
  }

  function StripOpt(e: Option<Tree>): Option<Tree> {
    if e.Some? then Some(Strip(e.value)) else None
  }

  function StripStmt(s: Stmt): Stmt {
    match s
    case Expression(e) => Expression(StripOpt(e))
    case Compound(items) => Compound(StripItems(items))
    case Selection(c, a, b) => Selection(Strip(c), StripStmt(a), if b.Some? then Some(StripStmt(b.value)) else None)
    case While(c, b) => While(Strip(c), StripStmt(b))
    case DoWhile(c, b) => DoWhile(Strip(c), StripStmt(b))
    case Return(e) => Return(StripOpt(e))
    case Labeled(l, t) => Labeled(l, StripStmt(t))
    case _ => s
  }

  function StripItems(ss: seq<Stmt>): (r: seq<Stmt>)
    ensures |r| == |ss|
  {
    if ss == [] then [] else [StripStmt(ss[0])] + StripItems(ss[1..])
  }

  /** Statement trees whose break and continue stand in loops. */
  predicate AbstractStmt(s: Stmt, depth: nat) {
    match s
    case Expression(e) => e.Some? ==> Abstract(e.value)
    case Compound(items) => AllAbstractStmt(items, depth)
    case Selection(c, a, b) => Abstract(c) && AbstractStmt(a, depth) && (b.Some? ==> AbstractStmt(b.value, depth))
    case While(c, b) => Abstract(c) && AbstractStmt(b, depth + 1)
    case DoWhile(c, b) => Abstract(c) && AbstractStmt(b, depth + 1)
    case Return(e) => e.Some? ==> Abstract(e.value)
    case Break => depth > 0
    case Continue => depth > 0
    case Goto(_) => true
    case Labeled(_, t) => AbstractStmt(t, depth)
  }

  predicate AllAbstractStmt(ss: seq<Stmt>, depth: nat) {
    ss == [] || (AbstractStmt(ss[0], depth) && AllAbstractStmt(ss[1..], depth))
  }

  /** No if with an else has, as its consequence, a statement that would take it. */
  predicate ElsesFit(s: Stmt) {
    match s
    case Compound(items) => AllElsesFit(items)
    case Selection(_, a, b) => ElsesFit(a) && (b.Some? ==> ElsesFit(b.value) && !TakesElse(a))
    case While(_, b) => ElsesFit(b)
    case DoWhile(_, b) => ElsesFit(b)
    case Labeled(_, t) => ElsesFit(t)
    case _ => true
  }

  predicate AllElsesFit(ss: seq<Stmt>) {
    ss == [] || (ElsesFit(ss[0]) && AllElsesFit(ss[1..]))
  }

  lemma {:induction false} FullStmtIs(s: Stmt, depth: nat)
    requires AbstractStmt(s, depth)
    ensures Wellformed(FullStmt(s), depth) <==> ElsesFit(s)
    ensures StripStmt(FullStmt(s)) == s && TakesElse(FullStmt(s)) == TakesElse(s)
    decreases s
  {
    hide Full, Strip, Grammatical, Abstract;
    match s
    case Expression(e) => if e.Some? { FullIsGrammatical(e.value); }
    case Compound(items) => FullItemsAre(items, depth);
    case Selection(c, a, b) =>
      FullIsGrammatical(c);
      FullStmtIs(a, depth);
      if b.Some? {
        FullStmtIs(b.value, depth);
      }
    case While(c, b) =>
      FullIsGrammatical(c);
      FullStmtIs(b, depth + 1);
    case DoWhile(c, b) =>
      FullIsGrammatical(c);
      FullStmtIs(b, depth + 1);
    case Return(e) => if e.Some? { FullIsGrammatical(e.value); }
    case Labeled(_, t) => FullStmtIs(t, depth);
    case _ =>
  }

  lemma {:induction false} FullItemsAre(ss: seq<Stmt>, depth: nat)
    requires AllAbstractStmt(ss, depth)
    ensures AllWellformed(FullItems(ss), depth) <==> AllElsesFit(ss)
    ensures StripItems(FullItems(ss)) == ss
    decreases ss
  {
    hide Wellformed, FullStmt, StripStmt, ElsesFit;
    if ss != [] {
      FullStmtIs(ss[0], depth);
      FullItemsAre(ss[1..], depth);
      assert FullItems(ss)[1..] == FullItems(ss[1..]);
    }
  }

  lemma {:induction false} StrippedStmtIs(s: Stmt, depth: nat)
    requires Wellformed(s, depth)
    ensures AbstractStmt(StripStmt(s), depth) && ElsesFit(StripStmt(s)) && TakesElse(StripStmt(s)) == TakesElse(s)
    decreases s
  {
    hide Strip, Grammatical, Abstract;
    match s
    case Expression(e) => if e.Some? { StrippedIsAbstract(e.value); }
    case Compound(items) => StrippedItemsAre(items, depth);
    case Selection(c, a, b) =>
      StrippedIsAbstract(c);
      StrippedStmtIs(a, depth);
      if b.Some? {
        StrippedStmtIs(b.value, depth);
      }
    case While(c, b) =>
      StrippedIsAbstract(c);
      StrippedStmtIs(b, depth + 1);
    case DoWhile(c, b) =>
      StrippedIsAbstract(c);
      StrippedStmtIs(b, depth + 1);
    case Return(e) => if e.Some? { StrippedIsAbstract(e.value); }
    case Labeled(_, t) => StrippedStmtIs(t, depth);
    case _ =>
  }

  lemma {:induction false} StrippedItemsAre(ss: seq<Stmt>, depth: nat)
    requires AllWellformed(ss, depth)
    ensures AllAbstractStmt(StripItems(ss), depth) && AllElsesFit(StripItems(ss))
    decreases ss
  {
    hide AbstractStmt, Wellformed, StripStmt, ElsesFit;
    if ss != [] {
      StrippedStmtIs(ss[0], depth);
      StrippedItemsAre(ss[1..], depth);
      assert StripItems(ss)[1..] == StripItems(ss[1..]);
    }
  }

  // ----- round trips -----

  /** The tokens printed for an expression, and for a statement. */
  function Printed(t: Tree): seq<Token> { Flatten(Full(t)) }

  function PrintedStmt(s: Stmt): seq<Token> { FlattenStmt(FullStmt(s)) }

  /** Printing any expression tree and parsing the tokens gives the tree back. */
  lemma {:induction false} ExpressionRoundTrip(t: Tree)
    requires Abstract(t)
    ensures var r := Expr(Printed(t), 0); r.Got? && r.rest == [] && Strip(r.t) == t
  {
    hide Expr, Full, Flatten;
    FullIsGrammatical(t);
    InnerReads(Full(t), []);
    assert Printed(t) + [] == Printed(t);
  }

  /** What the parser makes of the printed tokens of a statement. */
  ghost predicate ComesBack(s: Stmt, depth: nat) {
    var r := Statement(PrintedStmt(s), depth);
    r.GotStmt? && r.rest == [] && StripStmt(r.s) == s
  }

  /** Printing a statement tree and parsing the tokens gives the tree back exactly
      when every else fits: the printer adds no braces around a consequence. */
  lemma {:induction false} StatementRoundTripExactlyWhen(s: Stmt, depth: nat)
    requires AbstractStmt(s, depth)
    ensures ComesBack(s, depth) <==> ElsesFit(s)
  {
    hide Statement, FullStmt, FlattenStmt, Wellformed, AbstractStmt, StripStmt;
    FullStmtIs(s, depth);
    var r := Statement(PrintedStmt(s), depth);
    if ElsesFit(s) {
      StatementReads(FullStmt(s), [], depth);
      assert PrintedStmt(s) + [] == PrintedStmt(s);
    }
    if r.GotStmt? && StripStmt(r.s) == s {
      StatementSound(PrintedStmt(s), depth);
      StrippedStmtIs(r.s, depth);
    }
  }

  /** Every tree that the parser returns comes back. */
  lemma {:induction false} ParsedStatementsComeBack(ts: seq<Token>, depth: nat)
    ensures var r := Statement(ts, depth); r.GotStmt? ==> ComesBack(StripStmt(r.s), depth)
  {
    hide Statement, ComesBack, StripStmt;
    StatementSound(ts, depth);
    var r := Statement(ts, depth);
    if r.GotStmt? {
      StrippedStmtIs(r.s, depth);
      StatementRoundTripExactlyWhen(StripStmt(r.s), depth);
    }
  }

  /** `if (a) { if (b) ; } else ;` without the braces: the printed else moves. */
  lemma {:induction false} ElseMoves(a: string, b: string)
    ensures var s := Selection(Leaf(Ident(a)), Selection(Leaf(Ident(b)), Expression(None), None), Some(Expression(None)));
      AbstractStmt(s, 0) && !ComesBack(s, 0)
  {
    hide ComesBack;
    var inner := Selection(Leaf(Ident(b)), Expression(None), None);
    var s := Selection(Leaf(Ident(a)), inner, Some(Expression(None)));
    assert AbstractStmt(inner, 0) && TakesElse(inner);
    StatementRoundTripExactlyWhen(s, 0);
  }

  // ----- the printer -----

  class PrettyPrinter {
    var out: seq<Token>

    constructor ()
      ensures out == []
    {
      out := [];
    }

    method Put(t: Token)
      modifies this
      ensures out == old(out) + [t]
    {
      out := out + [t];
    }

    method Print(t: Tree)
      requires Abstract(t)
      modifies this
      ensures out == old(out) + Printed(t)
      decreases t, 1
    {
      if t.Leaf? {
        Put(t.t);
      } else if t.Call? {
        PrintCall(t);
      } else if t.Unary? {
        PrintedParens(t, Unary(t.op, Full(t.e)));
        Put(Punct(LPAREN));
        Put(t.op);
        Print(t.e);
        Put(Punct(RPAREN));
      } else if t.SizeofType? {
        PrintSizeof(t.k);
      } else if t.Ternary? {
        PrintTernary(t);
      } else {
        PrintBinary(t);
      }
    }

    /** Infix operators, subscripts and member accesses. */
    method PrintBinary(t: Tree)
      requires Abstract(t) && (t.Binary? || t.Index? || t.Member?)
      modifies this
      ensures out == old(out) + Printed(t)
      decreases t, 0
    {
      hide Full, Flatten;
      PrintedOperands(t);
      Put(Punct(LPAREN));
      Print(if t.Binary? then t.l else t.a);
      match t {
        case Index(a, i) =>
          Put(Punct(LSQUARE));
          Print(i);
          Put(Punct(RSQUARE));
        case Member(_, arrow, name) =>
          Put(Punct(if arrow then ARROW else DOT));
          Put(Ident(name));
        case Binary(op, _, r) =>
          Put(Punct(op));
          Print(r);
      }
      Put(Punct(RPAREN));
    }

    method PrintTernary(t: Tree)
      requires Abstract(t) && t.Ternary?
      modifies this
      ensures out == old(out) + Printed(t)
      decreases t, 0
    {
      hide Full, Flatten;
      PrintedOperands(t);
      Put(Punct(LPAREN));
      Print(t.c);
      Put(Punct(QMARK));
      Print(t.l);
      Put(Punct(COLON));
      Print(t.r);
      Put(Punct(RPAREN));
    }

    method PrintSizeof(k: Keyword)
      modifies this
      ensures out == old(out) + Printed(SizeofType(k))
    {
      PrintedParens(SizeofType(k), SizeofType(k));
      Put(Punct(LPAREN));
      Put(Key(SIZEOF));
      Put(Punct(LPAREN));
      Put(Key(k));
      Put(Punct(RPAREN));
      Put(Punct(RPAREN));
    }

    method PrintOpt(e: Option<Tree>)
      requires e.Some? ==> Abstract(e.value)
      modifies this
      ensures out == old(out) + Opt(FullOpt(e)) + SEMI
    {
      if e.Some? {
        Print(e.value);
      }
      Put(Punct(SEMICOLON));
    }

    method PrintParens(c: Tree)
      requires Abstract(c)
      modifies this
      ensures out == old(out) + Parens(Full(c))
    {
      Put(Punct(LPAREN));
      Print(c);
      Put(Punct(RPAREN));
    }

    method PrintStmt(s: Stmt, ghost depth: nat)
      requires AbstractStmt(s, depth)
      modifies this
      ensures out == old(out) + PrintedStmt(s)
      decreases s, 1
    {
      hide Full, Flatten, Parens;
      match s
      case Expression(e) => PrintOpt(e);
      case Compound(items) => PrintCompound(items, depth);
      case Selection(_, _, _) => PrintSelection(s, depth);
      case While(c, b) =>
        PrintedLoop(s);
        Put(Key(WHILE));
        PrintParens(c);
        PrintStmt(b, depth + 1);
      case DoWhile(c, b) => PrintDo(s, depth);
      case Return(e) =>
        Put(Key(RETURN));
        PrintOpt(e);
      case Goto(l) =>
        Put(Key(GOTO));
        Put(Ident(l));
        Put(Punct(SEMICOLON));
        assert [Key(GOTO)] + [Ident(l)] == [Key(GOTO), Ident(l)];
      case Labeled(l, t) =>
        Put(Ident(l));
        Put(Punct(COLON));
        PrintStmt(t, depth);
        assert [Ident(l)] + [Punct(COLON)] == [Ident(l), Punct(COLON)];
      case Break =>
        Put(Key(BREAK));
        Put(Punct(SEMICOLON));
      case Continue =>
        Put(Key(CONTINUE));
        Put(Punct(SEMICOLON));
    }

    method PrintDo(s: Stmt, ghost depth: nat)
      requires s.DoWhile? && AbstractStmt(s, depth)
      modifies this
      ensures out == old(out) + PrintedStmt(s)
      decreases s, 0
    {
      hide Full, Flatten, Parens, FlattenStmt, FullStmt;
      PrintedLoop(s);
      Put(Key(DO));
      PrintStmt(s.body, depth + 1);
      Put(Key(WHILE));
      PrintParens(s.c);
      Put(Punct(SEMICOLON));
    }

    method PrintSelection(s: Stmt, ghost depth: nat)
      requires s.Selection? && AbstractStmt(s, depth)
      modifies this
      ensures out == old(out) + PrintedStmt(s)
      decreases s, 0
    {
      hide Full, Flatten, Parens, FlattenStmt, FullStmt;
      PrintedSelection(s);
      Put(Key(IF));
      PrintParens(s.c);
      PrintStmt(s.ifStatement, depth);
      if s.elseStatement.Some? {
        Put(Key(ELSE));
        PrintStmt(s.elseStatement.value, depth);
      }
    }

    method PrintCompound(items: seq<Stmt>, ghost depth: nat)
      requires AllAbstractStmt(items, depth)
      modifies this
      ensures out == old(out) + PrintedStmt(Compound(items))
      decreases items, 2
    {
      hide FlattenStmt, FullStmt, AbstractStmt;
      PrintedCompound(items);
      Put(Punct(LCURLY));
      ghost var before := out;
      assert items[0..] == items;
      for k := 0 to |items|
        invariant before == old(out) + [Punct(LCURLY)] && AllAbstractStmt(items[k..], depth)
        invariant out + FlattenItems(FullItems(items[k..])) == before + FlattenItems(FullItems(items))
      {
        assert items[k..][1..] == items[k + 1..] && items[k..][0] == items[k];
        FirstItem(items[k..]);
        PrintStmt(items[k], depth);
      }
      assert out == before + FlattenItems(FullItems(items));
      Put(Punct(RCURLY));
    }

    method PrintCall(t: Tree)
      requires t.Call? && Abstract(t)
      modifies this
      ensures out == old(out) + Printed(t)
      decreases t, 0
    {
      hide Full, FullAll, Flatten, FlattenArgs, Abstract;
      PrintedCall(t);
      Put(Punct(LPAREN));
      Print(t.f);
      Put(Punct(LPAREN));
      ghost var before := out;
      assert AllAbstract(t.args[0..]) by { assert t.args[0..] == t.args; }
      for k := 0 to |t.args|
        invariant AllAbstract(t.args[k..])
        invariant before == old(out) + [Punct(LPAREN)] + Printed(t.f) + [Punct(LPAREN)]
        invariant out + Remaining(t.args, k) == before + Remaining(t.args, 0)
      {
        assert t.args[k..][1..] == t.args[k + 1..];
        assert t.args[k..][0] == t.args[k];
        Print(t.args[k]);
        RemainingStep(t.args, k);
        if k + 1 < |t.args| {
          Put(Punct(COMMA));
        }
      }
      NoneRemaining(t.args);
      assert out == before + Remaining(t.args, 0);
      Put(Punct(RPAREN));
      Put(Punct(RPAREN));
    }
  }

  lemma {:induction false} FirstItem(ss: seq<Stmt>)
    requires ss != []
    ensures FlattenItems(FullItems(ss)) == PrintedStmt(ss[0]) + FlattenItems(FullItems(ss[1..]))
  {
    hide FlattenStmt, FullStmt;
    assert FullItems(ss)[1..] == FullItems(ss[1..]);
  }

  lemma {:induction false} PrintedCompound(items: seq<Stmt>)
    ensures PrintedStmt(Compound(items)) == [Punct(LCURLY)] + FlattenItems(FullItems(items)) + [Punct(RCURLY)]
  {
    hide FlattenItems, FullItems;
  }

  lemma {:induction false} PrintedLoop(s: Stmt)
    ensures s.While? ==> PrintedStmt(s) == [Key(WHILE)] + Parens(Full(s.c)) + PrintedStmt(s.body)
    ensures s.DoWhile? ==>
      PrintedStmt(s) == [Key(DO)] + PrintedStmt(s.body) + [Key(WHILE)] + Parens(Full(s.c)) + [Punct(SEMICOLON)]
  {
    hide Full, Parens;
  }

  lemma {:induction false} PrintedSelection(s: Stmt)
    requires s.Selection?
    ensures PrintedStmt(s) == [Key(IF)] + Parens(Full(s.c)) + PrintedStmt(s.ifStatement)
      + (if s.elseStatement.Some? then [Key(ELSE)] + PrintedStmt(s.elseStatement.value) else [])
  {
    hide Full, Parens;
  }

  lemma {:induction false} PrintedParens(t: Tree, inner: Tree)
    requires Full(t) == Paren(inner)
    ensures Printed(t) == [Punct(LPAREN)] + Flatten(inner) + [Punct(RPAREN)]
  {
  }

  lemma {:induction false} PrintedOperands(t: Tree)
    requires Abstract(t)
    ensures t.Index? ==> Abstract(t.a) && Abstract(t.i)
    ensures t.Member? ==> Abstract(t.a)
    ensures t.Binary? ==> Abstract(t.l) && Abstract(t.r)
    ensures t.Ternary? ==> Abstract(t.c) && Abstract(t.l) && Abstract(t.r)
    ensures t.Index? ==>
      Printed(t) == [Punct(LPAREN)] + Printed(t.a) + [Punct(LSQUARE)] + Printed(t.i) + [Punct(RSQUARE)] + [Punct(RPAREN)]
    ensures t.Member? ==>
      Printed(t) == [Punct(LPAREN)] + Printed(t.a) + [Punct(if t.arrow then ARROW else DOT)] + [Ident(t.name)] + [Punct(RPAREN)]
    ensures t.Binary? ==>
      Printed(t) == [Punct(LPAREN)] + Printed(t.l) + [Punct(t.infix)] + Printed(t.r) + [Punct(RPAREN)]
    ensures t.Ternary? ==>
      Printed(t) == [Punct(LPAREN)] + Printed(t.c) + [Punct(QMARK)] + Printed(t.l) + [Punct(COLON)] + Printed(t.r) + [Punct(RPAREN)]
  {
    match t
    case Index(a, i) => PrintedParens(t, Index(Full(a), Full(i)));
    case Member(a, arrow, name) =>
      PrintedParens(t, Member(Full(a), arrow, name));
      assert [Punct(if arrow then ARROW else DOT)] + [Ident(name)] == [Punct(if arrow then ARROW else DOT), Ident(name)];
    case Binary(op, l, r) => PrintedParens(t, Binary(op, Full(l), Full(r)));
    case Ternary(c, l, r) => PrintedParens(t, Ternary(Full(c), Full(l), Full(r)));
    case _ =>
  }

  lemma {:induction false} PrintedCall(t: Tree)
    requires t.Call? && Abstract(t)
    ensures Abstract(t.f) && AllAbstract(t.args)
    ensures Printed(t)
      == [Punct(LPAREN)] + Printed(t.f) + [Punct(LPAREN)] + Remaining(t.args, 0) + [Punct(RPAREN)] + [Punct(RPAREN)]
  {
    assert t.args[0..] == t.args;
    PrintedParens(t, Call(Full(t.f), FullAll(t.args)));
  }

  /** The tokens of the arguments from the k-th on. */
  ghost function Remaining(args: seq<Tree>, k: nat): seq<Token>
    requires k <= |args|
  {
    FlattenArgs(FullAll(args[k..]))
  }

  lemma {:induction false} NoneRemaining(args: seq<Tree>)
    ensures Remaining(args, |args|) == []
  {
  }

  lemma {:induction false} RemainingStep(args: seq<Tree>, k: nat)
    requires k < |args|
    ensures Remaining(args, k) == Printed(args[k])
      + (if k + 1 < |args| then [Punct(COMMA)] + Remaining(args, k + 1) else [])
    ensures k + 1 == |args| ==> Remaining(args, k + 1) == []
  {
    assert args[k..][1..] == args[k + 1..];
    assert FullAll(args[k..]) == [Full(args[k])] + FullAll(args[k + 1..]);
    assert FullAll(args[k..])[1..] == FullAll(args[k + 1..]);
  }
}
