module StandardStatements {
  /** The productions of C11, section 6.8, with the constraints that place break, continue
      and else: which statements a token sequence derives. Declarations are left out. */

  import opened Options
  import opened Tokens
  import opened Syntax
  import opened Statements
  import opened StandardGrammar

  predicate KeyAt(ts: seq<Token>, k: int, key: Keyword) {
    0 <= k < |ts| && ts[k] == Key(key)
  }

  ghost predicate IsExpression(t: Tree, ts: seq<Token>) {
    Derives(ASSIGNMENT, t, ts, true)
  }

  /** An optional expression before the semicolon at the end. */
  ghost predicate BeforeSemicolon(e: Option<Tree>, ts: seq<Token>) {
    && ts != [] && ts[|ts| - 1] == Punct(SEMICOLON)
    && if e.Some? then IsExpression(e.value, ts[..|ts| - 1]) else |ts| == 1
  }

  /** A keyword first, and then a condition whose parentheses close at k. */
  ghost predicate Headed(ts: seq<Token>, key: Keyword, c: Tree, k: int) {
    KeyAt(ts, 0, key) && IsAt(ts, 1, LPAREN) && 1 < k && IsAt(ts, k, RPAREN) && IsExpression(c, ts[2..k])
  }

  /** The tokens are statement s, in `depth` loops; if `matched`, every if at its end has
      an else. What stands before an else is matched: so the else belongs to the nearest
      if. */
  ghost predicate DerivesStatement(s: Stmt, ts: seq<Token>, depth: nat, matched: bool)
    decreases s
  {
    match s
    case Labeled(l, t) => |ts| > 1 && ts[0] == Ident(l) && IsAt(ts, 1, COLON) && DerivesStatement(t, ts[2..], depth, matched)
    case Compound(items) => Between(ts, 0, LCURLY, RCURLY) && DerivesItems(items, ts[1..|ts| - 1], depth)
    case Expression(e) => BeforeSemicolon(e, ts)
    case Selection(c, a, None) =>
      !matched && exists k :: Headed(ts, IF, c, k) && DerivesStatement(a, ts[k + 1..], depth, false)
    case Selection(c, a, Some(b)) =>
      exists k, m ::
        && Headed(ts, IF, c, k) && KeyAt(ts, m, ELSE) && k < m
        && DerivesStatement(a, ts[k + 1..m], depth, true) && DerivesStatement(b, ts[m + 1..], depth, matched)
    case While(c, b) =>
      exists k :: Headed(ts, WHILE, c, k) && DerivesStatement(b, ts[k + 1..], depth + 1, matched)
    case DoWhile(c, b) =>
      exists k ::
        && KeyAt(ts, 0, DO) && KeyAt(ts, k, WHILE) && 0 < k < |ts| - 1 && ts[|ts| - 1] == Punct(SEMICOLON)
        && Headed(ts[k..|ts| - 1], WHILE, c, |ts| - k - 2) && DerivesStatement(b, ts[1..k], depth + 1, false)
    case Goto(l) => ts == [Key(GOTO), Ident(l), Punct(SEMICOLON)]
    case Continue => depth > 0 && ts == [Key(CONTINUE), Punct(SEMICOLON)]
    case Break => depth > 0 && ts == [Key(BREAK), Punct(SEMICOLON)]
    case Return(e) => KeyAt(ts, 0, RETURN) && BeforeSemicolon(e, ts[1..])
  }

  ghost predicate DerivesItems(ss: seq<Stmt>, ts: seq<Token>, depth: nat)
    decreases ss
  {
    if ss == [] then ts == []
    else exists k | 0 <= k <= |ts| :: DerivesStatement(ss[0], ts[..k], depth, false) && DerivesItems(ss[1..], ts[k..], depth)
  }

  // ----- the statements of the parser -----

  predicate Fitting(s: Stmt, ts: seq<Token>, depth: nat, matched: bool) {
    Wellformed(s, depth) && ts == FlattenStmt(s) && (matched ==> !TakesElse(s))
  }

  lemma {:induction false} IsExpressionExactlyWhen(t: Tree, ts: seq<Token>)
    ensures IsExpression(t, ts) <==> Grammatical(t) && ts == Flatten(t)
  {
    hide Derives;
    GrammaticalExactlyWhen(t, ts);
  }

  lemma {:induction false} SemicolonExactlyWhen(e: Option<Tree>, ts: seq<Token>)
    ensures BeforeSemicolon(e, ts) <==> ts == Opt(e) + SEMI && (e.Some? ==> Grammatical(e.value))
  {
    hide IsExpression, Flatten;
    if ts != [] {
      assert ts == ts[..|ts| - 1] + [ts[|ts| - 1]];
      if e.Some? {
        IsExpressionExactlyWhen(e.value, ts[..|ts| - 1]);
      }
    }
    assert ts == Opt(e) + SEMI ==> ts[..|ts| - 1] == Opt(e);
  }

  /** Where the condition ends is determined. */
  lemma {:induction false} HeadedExactlyWhen(ts: seq<Token>, key: Keyword, c: Tree, k: int)
    ensures Headed(ts, key, c, k)
        <==> Grammatical(c) && k == |Flatten(c)| + 2 < |ts| && ts[..k + 1] == [Key(key)] + Parens(c)
  {
    hide IsExpression, Flatten, Grammatical;
    if KeyAt(ts, 0, key) && IsAt(ts, 1, LPAREN) && 1 < k && IsAt(ts, k, RPAREN) {
      IsExpressionExactlyWhen(c, ts[2..k]);
      FrontIs(ts, k);
    }
    if k == |Flatten(c)| + 2 < |ts| && ts[..k + 1] == [Key(key)] + Parens(c) {
      FrontOf(ts, key, Flatten(c), k);
      IsExpressionExactlyWhen(c, ts[2..k]);
    }
  }

  lemma FrontIs(ts: seq<Token>, k: int)
    requires 1 < k < |ts|
    ensures ts[..k + 1] == [ts[0]] + ([ts[1]] + ts[2..k] + [ts[k]])
  {
  }

  lemma FrontOf(ts: seq<Token>, key: Keyword, inner: seq<Token>, k: int)
    requires k == |inner| + 2 < |ts| && ts[..k + 1] == [Key(key)] + ([Punct(LPAREN)] + inner + [Punct(RPAREN)])
    ensures ts[0] == Key(key) && ts[1] == Punct(LPAREN) && ts[k] == Punct(RPAREN) && ts[2..k] == inner
  {
    var front := ts[..k + 1];
    assert ts[0] == front[0] && ts[1] == front[1] && ts[k] == front[k];
    assert ts[2..k] == front[2..k];
  }

  lemma {:induction false} StatementExactly(s: Stmt, ts: seq<Token>, depth: nat, matched: bool)
    ensures DerivesStatement(s, ts, depth, matched) <==> Fitting(s, ts, depth, matched)
    decreases s, 1
  {
    hide Flatten, IsExpression, Grammatical;
    match s
    case Labeled(l, t) =>
      if |ts| > 1 {
        StatementExactly(t, ts[2..], depth, matched);
        assert ts == [ts[0], ts[1]] + ts[2..];
      }
      assert ts == FlattenStmt(s) ==> ts[2..] == FlattenStmt(t);
    case Compound(items) =>
      if Between(ts, 0, LCURLY, RCURLY) {
        ItemsExactly(items, ts[1..|ts| - 1], depth);
        assert ts == [Punct(LCURLY)] + ts[1..|ts| - 1] + [Punct(RCURLY)];
      }
      assert ts == FlattenStmt(s) ==> ts[1..|ts| - 1] == FlattenItems(items);
    case Expression(e) => SemicolonExactlyWhen(e, ts);
    case Selection(_, _, b) => if b.None? { IfExactly(s, ts, depth, matched); } else { IfElseExactly(s, ts, depth, matched); }
    case While(_, _) => WhileExactly(s, ts, depth, matched);
    case DoWhile(_, _) => DoExactly(s, ts, depth, matched);
    case Return(e) =>
      if KeyAt(ts, 0, RETURN) {
        SemicolonExactlyWhen(e, ts[1..]);
        assert ts == [Key(RETURN)] + ts[1..];
      }
      assert FlattenStmt(s) == [Key(RETURN)] + (Opt(e) + SEMI);
      assert ([Key(RETURN)] + (Opt(e) + SEMI))[1..] == Opt(e) + SEMI;
    case Goto(l) => assert FlattenStmt(s) == [Key(GOTO), Ident(l), Punct(SEMICOLON)];
    case Continue => assert FlattenStmt(s) == [Key(CONTINUE), Punct(SEMICOLON)];
    case Break => assert FlattenStmt(s) == [Key(BREAK), Punct(SEMICOLON)];
  }

  lemma {:induction false} IfExactly(s: Stmt, ts: seq<Token>, depth: nat, matched: bool)
    requires s.Selection? && s.elseStatement.None?
    ensures DerivesStatement(s, ts, depth, matched) <==> Fitting(s, ts, depth, matched)
    decreases s, 0
  {
    hide Flatten, Headed, Wellformed, FlattenStmt;
    var c, a := s.c, s.ifStatement;
    var k := |Flatten(c)| + 2;
    forall k'
      ensures Headed(ts, IF, c, k') ==> k' == k
    {
      HeadedExactlyWhen(ts, IF, c, k');
    }
    HeadedExactlyWhen(ts, IF, c, k);
    if k < |ts| {
      StatementExactly(a, ts[k + 1..], depth, false);
      assert ts == ts[..k + 1] + ts[k + 1..];
    }
    SelectionIs(s, depth);
    if ts == [Key(IF)] + Parens(c) + FlattenStmt(a) {
      assert ts[..k + 1] == [Key(IF)] + Parens(c) && ts[k + 1..] == FlattenStmt(a);
    }
  }

  lemma SelectionIs(s: Stmt, depth: nat)
    requires s.Selection?
    ensures FlattenStmt(s) == [Key(IF)] + Parens(s.c) + FlattenStmt(s.ifStatement)
      + (if s.elseStatement.Some? then [Key(ELSE)] + FlattenStmt(s.elseStatement.value) else [])
    ensures Wellformed(s, depth) <==>
      && Grammatical(s.c) && Wellformed(s.ifStatement, depth)
      && (s.elseStatement.Some? ==> Wellformed(s.elseStatement.value, depth) && !TakesElse(s.ifStatement))
  {
  }

  lemma {:induction false} IfElseExactly(s: Stmt, ts: seq<Token>, depth: nat, matched: bool)
    requires s.Selection? && s.elseStatement.Some?
    ensures DerivesStatement(s, ts, depth, matched) <==> Fitting(s, ts, depth, matched)
    decreases s, 0
  {
    hide Flatten, Headed, Wellformed, FlattenStmt;
    var c, a, b := s.c, s.ifStatement, s.elseStatement.value;
    var k := |Flatten(c)| + 2;
    forall k'
      ensures Headed(ts, IF, c, k') ==> k' == k
    {
      HeadedExactlyWhen(ts, IF, c, k');
    }
    HeadedExactlyWhen(ts, IF, c, k);
    SelectionIs(s, depth);
    forall m | KeyAt(ts, m, ELSE) && k < m
      ensures DerivesStatement(a, ts[k + 1..m], depth, true) <==> Fitting(a, ts[k + 1..m], depth, true)
      ensures DerivesStatement(b, ts[m + 1..], depth, matched) <==> Fitting(b, ts[m + 1..], depth, matched)
      ensures ts == ts[..k + 1] + ts[k + 1..m] + ([Key(ELSE)] + ts[m + 1..])
    {
      StatementExactly(a, ts[k + 1..m], depth, true);
      StatementExactly(b, ts[m + 1..], depth, matched);
    }
    if ts == FlattenStmt(s) {
      var m := k + 1 + |FlattenStmt(a)|;
      assert ts[..k + 1] == [Key(IF)] + Parens(c) && ts[k + 1..m] == FlattenStmt(a) && ts[m + 1..] == FlattenStmt(b);
      assert KeyAt(ts, m, ELSE);
    }
  }

  lemma {:induction false} WhileExactly(s: Stmt, ts: seq<Token>, depth: nat, matched: bool)
    requires s.While?
    ensures DerivesStatement(s, ts, depth, matched) <==> Fitting(s, ts, depth, matched)
    decreases s, 0
  {
    hide Flatten, Headed, Wellformed, FlattenStmt;
    var c, b := s.c, s.body;
    var k := |Flatten(c)| + 2;
    forall k'
      ensures Headed(ts, WHILE, c, k') ==> k' == k
    {
      HeadedExactlyWhen(ts, WHILE, c, k');
    }
    HeadedExactlyWhen(ts, WHILE, c, k);
    if k < |ts| {
      StatementExactly(b, ts[k + 1..], depth + 1, matched);
      assert ts == ts[..k + 1] + ts[k + 1..];
    }
    LoopIs(s, depth);
    if ts == FlattenStmt(s) {
      assert ts[..k + 1] == [Key(WHILE)] + Parens(c) && ts[k + 1..] == FlattenStmt(b);
    }
  }

  lemma LoopIs(s: Stmt, depth: nat)
    requires s.While? || s.DoWhile?
    ensures s.While? ==> FlattenStmt(s) == [Key(WHILE)] + Parens(s.c) + FlattenStmt(s.body)
    ensures s.DoWhile? ==> FlattenStmt(s) == [Key(DO)] + FlattenStmt(s.body) + [Key(WHILE)] + Parens(s.c) + SEMI
    ensures Wellformed(s, depth) <==> Grammatical(s.c) && Wellformed(s.body, depth + 1)
  {
  }

  lemma {:induction false} DoExactly(s: Stmt, ts: seq<Token>, depth: nat, matched: bool)
    requires s.DoWhile?
    ensures DerivesStatement(s, ts, depth, matched) <==> Fitting(s, ts, depth, matched)
    decreases s, 0
  {
    hide Flatten, Headed, Wellformed, FlattenStmt;
    var c, b := s.c, s.body;
    LoopIs(s, depth);
    forall k | 0 < k < |ts| - 1
      ensures DerivesStatement(b, ts[1..k], depth + 1, false) <==> Fitting(b, ts[1..k], depth + 1, false)
      ensures var tail := ts[k..|ts| - 1];
        Headed(tail, WHILE, c, |ts| - k - 2) <==> Grammatical(c) && tail == [Key(WHILE)] + Parens(c)
      ensures ts == [ts[0]] + ts[1..k] + ts[k..|ts| - 1] + [ts[|ts| - 1]]
    {
      StatementExactly(b, ts[1..k], depth + 1, false);
      HeadedExactlyWhen(ts[k..|ts| - 1], WHILE, c, |ts| - k - 2);
      var tail := ts[k..|ts| - 1];
      assert tail[..|tail|] == tail;
    }
    if ts == FlattenStmt(s) {
      var k := 1 + |FlattenStmt(b)|;
      assert ts[1..k] == FlattenStmt(b) && ts[k..|ts| - 1] == [Key(WHILE)] + Parens(c);
      assert KeyAt(ts, k, WHILE) && KeyAt(ts, 0, DO);
    }
  }

  lemma {:induction false} ItemsExactly(ss: seq<Stmt>, ts: seq<Token>, depth: nat)
    ensures DerivesItems(ss, ts, depth) <==> AllWellformed(ss, depth) && ts == FlattenItems(ss)
    decreases ss, 0
  {
    hide FlattenStmt, Wellformed, DerivesStatement;
    if ss != [] {
      forall k | 0 <= k <= |ts|
        ensures DerivesStatement(ss[0], ts[..k], depth, false) <==> Fitting(ss[0], ts[..k], depth, false)
        ensures DerivesItems(ss[1..], ts[k..], depth) <==> AllWellformed(ss[1..], depth) && ts[k..] == FlattenItems(ss[1..])
        ensures ts == ts[..k] + ts[k..]
      {
        StatementExactly(ss[0], ts[..k], depth, false);
        ItemsExactly(ss[1..], ts[k..], depth);
      }
      if ts == FlattenItems(ss) {
        var k := |FlattenStmt(ss[0])|;
        assert ts[..k] == FlattenStmt(ss[0]) && ts[k..] == FlattenItems(ss[1..]);
      }
    }
  }

  /** The parser returns the statement that the grammar derives from the first tokens, as
      long as no else follows that the grammar could still give to an if in it. */
  lemma {:induction false} ParsedExactlyWhen(ts: seq<Token>, depth: nat, s: Stmt, rest: seq<Token>)
    ensures Statement(ts, depth) == GotStmt(s, rest) <==>
      exists own :: ts == own + rest && DerivesStatement(s, own, depth, KeyAt(rest, 0, ELSE))
  {
    hide FlattenStmt, Wellformed, DerivesStatement, Statement;
    StatementExactlyWhen(ts, depth, s, rest);
    if Statement(ts, depth) == GotStmt(s, rest) {
      StatementExactly(s, FlattenStmt(s), depth, KeyAt(rest, 0, ELSE));
    }
    forall own | ts == own + rest && DerivesStatement(s, own, depth, KeyAt(rest, 0, ELSE))
      ensures Fitting(s, own, depth, KeyAt(rest, 0, ELSE))
    {
      StatementExactly(s, own, depth, KeyAt(rest, 0, ELSE));
    }
  }
}
