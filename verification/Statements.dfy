/** Statements: their grammar, the statement parser as a function on the remaining
    tokens, and the proof that it reads exactly the grammar's statements. */
module Statements {
  import opened Options
  import opened Tokens
  import opened Syntax
  import opened Grammar

  datatype Stmt =
    | Expression(e: Option<Tree>)
    | Compound(items: seq<Stmt>)
    | Selection(c: Tree, ifStatement: Stmt, elseStatement: Option<Stmt>)
    | While(c: Tree, body: Stmt)
    | DoWhile(c: Tree, body: Stmt)
    | Return(e: Option<Tree>)
    | Break
    | Continue
    | Goto(name: string)
    | Labeled(name: string, statement: Stmt)

  // ----- the grammar -----

  function Parens(t: Tree): seq<Token> {
    [Punct(LPAREN)] + Flatten(t) + [Punct(RPAREN)]
  }

  function Opt(t: Option<Tree>): seq<Token> {
    if t.Some? then Flatten(t.value) else []
  }

  const SEMI: seq<Token> := [Punct(SEMICOLON)]

  function FlattenStmt(s: Stmt): seq<Token> {
    match s
    case Expression(e) => Opt(e) + SEMI
    case Compound(items) => [Punct(LCURLY)] + FlattenItems(items) + [Punct(RCURLY)]
    case Selection(c, a, b) =>
      [Key(IF)] + Parens(c) + FlattenStmt(a) + (if b.Some? then [Key(ELSE)] + FlattenStmt(b.value) else [])
    case While(c, b) => [Key(WHILE)] + Parens(c) + FlattenStmt(b)
    case DoWhile(c, b) => [Key(DO)] + FlattenStmt(b) + [Key(WHILE)] + Parens(c) + SEMI
    case Return(e) => [Key(RETURN)] + Opt(e) + SEMI
    case Break => [Key(BREAK)] + SEMI
    case Continue => [Key(CONTINUE)] + SEMI
    case Goto(l) => [Key(GOTO), Ident(l)] + SEMI
    case Labeled(l, t) => [Ident(l), Punct(COLON)] + FlattenStmt(t)
  }

  function FlattenItems(ss: seq<Stmt>): seq<Token> {
    if ss == [] then [] else FlattenStmt(ss[0]) + FlattenItems(ss[1..])
  }

  /** An else behind s would belong to an if inside s. */
  predicate TakesElse(s: Stmt) {
    match s
    case Selection(_, _, b) => b.None? || TakesElse(b.value)
    case While(_, b) => TakesElse(b)
    case Labeled(_, t) => TakesElse(t)
    case _ => false
  }

  /** The statements of the grammar in `depth` loops: an else belongs to the nearest
      if, and break and continue stand in a loop. */
  predicate Wellformed(s: Stmt, depth: nat) {
    match s
    case Expression(e) => e.Some? ==> Grammatical(e.value)
    case Compound(items) => AllWellformed(items, depth)
    case Selection(c, a, b) =>
      && Grammatical(c) && Wellformed(a, depth)
      && (b.Some? ==> Wellformed(b.value, depth) && !TakesElse(a))
    case While(c, b) => Grammatical(c) && Wellformed(b, depth + 1)
    case DoWhile(c, b) => Grammatical(c) && Wellformed(b, depth + 1)
    case Return(e) => e.Some? ==> Grammatical(e.value)
    case Break => depth > 0
    case Continue => depth > 0
    case Goto(_) => true
    case Labeled(_, t) => Wellformed(t, depth)
  }

  predicate AllWellformed(ss: seq<Stmt>, depth: nat) {
    ss == [] || (Wellformed(ss[0], depth) && AllWellformed(ss[1..], depth))
  }

  // ----- the parser -----

  datatype StmtResult = GotStmt(s: Stmt, rest: seq<Token>) | FailedStmt
  datatype ItemsResult = GotItems(items: seq<Stmt>, rest: seq<Token>) | FailedItems

  /** An expression in parentheses. */
  function Parenthesised(ts: seq<Token>): (r: Result)
    ensures r.Got? ==> |r.rest| < |ts|
  {
    if !Starts(ts, LPAREN) then Failed
    else
      match Expr(ts[1..], 0)
      case Got(t, rest) => if Starts(rest, RPAREN) then Got(t, rest[1..]) else Failed
      case Failed => Failed
  }

  /** An optional expression and a semicolon. */
  function Closed(ts: seq<Token>): (r: Option<(Option<Tree>, seq<Token>)>)
    ensures r.Some? ==> |r.value.1| < |ts|
  {
    if Starts(ts, SEMICOLON) then Some((None, ts[1..]))
    else
      match Expr(ts, 0)
      case Got(t, rest) => if Starts(rest, SEMICOLON) then Some((Some(t), rest[1..])) else None
      case Failed => None
  }

  function Statement(ts: seq<Token>, depth: nat): (r: StmtResult)
    ensures r.GotStmt? ==> |r.rest| < |ts|
    decreases |ts|, 2
  {
    if StartsKey(ts, GOTO) || StartsKey(ts, CONTINUE) || StartsKey(ts, BREAK) || StartsKey(ts, RETURN) then Jump(ts, depth)
    else if Starts(ts, LCURLY) then
      (match Items(ts[1..], depth)
       case GotItems(items, rest) => GotStmt(Compound(items), rest)
       case FailedItems => FailedStmt)
    else if StartsKey(ts, IF) then SelectionStatement(ts, depth)
    else if StartsKey(ts, WHILE) then WhileStatement(ts, depth)
    else if StartsKey(ts, DO) then DoStatement(ts, depth)
    else if |ts| > 1 && ts[0].Ident? && Starts(ts[1..], COLON) then
      (match Statement(ts[2..], depth)
       case GotStmt(t, rest) => GotStmt(Labeled(ts[0].name, t), rest)
       case FailedStmt => FailedStmt)
    else
      match Closed(ts)
      case Some((e, rest)) => GotStmt(Expression(e), rest)
      case None => FailedStmt
  }

  function Jump(ts: seq<Token>, depth: nat): (r: StmtResult)
    requires ts != []
    ensures r.GotStmt? ==> |r.rest| < |ts|
  {
    match ts[0]
    case Key(GOTO) =>
      if |ts| > 1 && ts[1].Ident? && Starts(ts[2..], SEMICOLON) then GotStmt(Goto(ts[1].name), ts[3..]) else FailedStmt
    case Key(CONTINUE) => if depth > 0 && Starts(ts[1..], SEMICOLON) then GotStmt(Continue, ts[2..]) else FailedStmt
    case Key(BREAK) => if depth > 0 && Starts(ts[1..], SEMICOLON) then GotStmt(Break, ts[2..]) else FailedStmt
    case Key(RETURN) =>
      (match Closed(ts[1..])
       case Some((e, rest)) => GotStmt(Return(e), rest)
       case None => FailedStmt)
    case _ => FailedStmt
  }

  function SelectionStatement(ts: seq<Token>, depth: nat): (r: StmtResult)
    requires StartsKey(ts, IF)
    ensures r.GotStmt? ==> |r.rest| < |ts|
    decreases |ts|, 1
  {
    match Parenthesised(ts[1..])
    case Failed => FailedStmt
    case Got(c, rest) =>
      match Statement(rest, depth)
      case FailedStmt => FailedStmt
      case GotStmt(a, rest1) =>
        if !StartsKey(rest1, ELSE) then GotStmt(Selection(c, a, None), rest1)
        else
          match Statement(rest1[1..], depth)
          case FailedStmt => FailedStmt
          case GotStmt(b, rest2) => GotStmt(Selection(c, a, Some(b)), rest2)
  }

  function WhileStatement(ts: seq<Token>, depth: nat): (r: StmtResult)
    requires StartsKey(ts, WHILE)
    ensures r.GotStmt? ==> |r.rest| < |ts|
    decreases |ts|, 1
  {
    match Parenthesised(ts[1..])
    case Failed => FailedStmt
    case Got(c, rest) =>
      match Statement(rest, depth + 1)
      case FailedStmt => FailedStmt
      case GotStmt(b, rest1) => GotStmt(While(c, b), rest1)
  }

  function DoStatement(ts: seq<Token>, depth: nat): (r: StmtResult)
    requires StartsKey(ts, DO)
    ensures r.GotStmt? ==> |r.rest| < |ts|
    decreases |ts|, 1
  {
    match Statement(ts[1..], depth + 1)
    case FailedStmt => FailedStmt
    case GotStmt(b, rest) =>
      if !StartsKey(rest, WHILE) then FailedStmt
      else
        match Parenthesised(rest[1..])
        case Failed => FailedStmt
        case Got(c, rest1) => if Starts(rest1, SEMICOLON) then GotStmt(DoWhile(c, b), rest1[1..]) else FailedStmt
  }

  /** The items of a block and its closing brace. A declaration is not read here. */
  function Items(ts: seq<Token>, depth: nat): (r: ItemsResult)
    ensures r.GotItems? ==> |r.rest| < |ts|
    decreases |ts|, 3
  {
    if Starts(ts, RCURLY) then GotItems([], ts[1..])
    else if ts != [] && IsTypeSpecifier(ts[0]) then FailedItems
    else
      match Statement(ts, depth)
      case FailedStmt => FailedItems
      case GotStmt(s, rest) =>
        match Items(rest, depth)
        case FailedItems => FailedItems
        case GotItems(ss, rest1) => GotItems([s] + ss, rest1)
  }

  // ----- it reads statements of the grammar -----

  lemma {:induction false} ParenthesisedExactlyWhen(ts: seq<Token>, t: Tree, rest: seq<Token>)
    ensures Parenthesised(ts) == Got(t, rest) <==> ts == Parens(t) + rest && Grammatical(t)
  {
    hide Expr, Flatten;
    if Parenthesised(ts).Got? {
      var x := Expr(ts[1..], 0);
      ExprSound(ts[1..], 0);
      ParensRead(ts, x);
    }
    if ts == Parens(t) + rest && Grammatical(t) {
      var after := [Punct(RPAREN)] + rest;
      assert ts[1..] == Flatten(t) + after && after[1..] == rest;
      InnerReads(t, after);
    }
  }

  lemma {:induction false} ParensRead(ts: seq<Token>, x: Result)
    requires Starts(ts, LPAREN) && x.Got? && Flatten(x.t) + x.rest == ts[1..] && Starts(x.rest, RPAREN)
    ensures Parens(x.t) + x.rest[1..] == ts
  {
    hide Flatten;
    assert [Punct(RPAREN)] + x.rest[1..] == x.rest;
    assert [Punct(LPAREN)] + (Flatten(x.t) + x.rest) == ts;
    assert Parens(x.t) + x.rest[1..] == [Punct(LPAREN)] + (Flatten(x.t) + ([Punct(RPAREN)] + x.rest[1..]));
  }

  lemma {:induction false} ClosedExactlyWhen(ts: seq<Token>, e: Option<Tree>, rest: seq<Token>)
    ensures Closed(ts) == Some((e, rest)) <==> ts == Opt(e) + SEMI + rest && (e.Some? ==> Grammatical(e.value))
  {
    hide Expr, Flatten;
    if Closed(ts).Some? {
      if Starts(ts, SEMICOLON) {
        assert [] + SEMI + ts[1..] == ts;
      } else {
        var x := Expr(ts, 0);
        ExprSound(ts, 0);
        assert SEMI + x.rest[1..] == x.rest;
        assert Flatten(x.t) + SEMI + x.rest[1..] == Flatten(x.t) + (SEMI + x.rest[1..]);
      }
    }
    if ts == Opt(e) + SEMI + rest && (e.Some? ==> Grammatical(e.value)) {
      if e.Some? {
        var after := SEMI + rest;
        assert ts == Flatten(e.value) + after && after[1..] == rest;
        InnerReads(e.value, after);
        NoSemicolon(e.value);
      } else {
        assert ts[1..] == rest;
      }
    }
  }

  /** An expression starts with none of the tokens that start other statements. */
  lemma {:induction false} NoSemicolon(t: Tree)
    requires Grammatical(t)
    ensures var ts := Flatten(t);
      && ts != [] && !Starts(ts, SEMICOLON) && !Starts(ts, LCURLY) && !Starts(ts, RCURLY)
      && (ts[0].Key? ==> ts[0].keyword.SIZEOF?)
      && (|ts| > 1 && ts[0].Ident? ==> !Starts(ts[1..], COLON))
    decreases t
  {
    hide FlattenArgs, AllGrammatical;
    match t
    case Call(f, _) => NoSemicolon(f);
    case Index(a, _) => NoSemicolon(a);
    case Member(a, _, _) => NoSemicolon(a);
    case Binary(_, l, _) => NoSemicolon(l);
    case Ternary(c, _, _) => NoSemicolon(c);
    case _ =>
  }

  ghost predicate ReadStmt(s: Stmt, rest: seq<Token>, ts: seq<Token>, depth: nat) {
    FlattenStmt(s) + rest == ts && Wellformed(s, depth) && (TakesElse(s) ==> !StartsKey(rest, ELSE))
  }

  lemma {:induction false} StatementSound(ts: seq<Token>, depth: nat)
    ensures var r := Statement(ts, depth);
      r.GotStmt? ==> ReadStmt(r.s, r.rest, ts, depth)
    decreases |ts|, 2
  {
    hide Closed, Parenthesised, Flatten, FlattenStmt, Items, SelectionStatement, WhileStatement, DoStatement, Jump;
    if StartsKey(ts, GOTO) || StartsKey(ts, CONTINUE) || StartsKey(ts, BREAK) || StartsKey(ts, RETURN) {
      JumpSound(ts, depth);
    } else if Starts(ts, LCURLY) {
      ItemsSound(ts[1..], depth);
      var x := Items(ts[1..], depth);
      if x.GotItems? {
        CompoundRead(ts, x);
      }
    } else if StartsKey(ts, IF) {
      SelectionSound(ts, depth);
    } else if StartsKey(ts, WHILE) {
      WhileSound(ts, depth);
    } else if StartsKey(ts, DO) {
      DoSound(ts, depth);
    } else if |ts| > 1 && ts[0].Ident? && Starts(ts[1..], COLON) {
      StatementSound(ts[2..], depth);
      var x := Statement(ts[2..], depth);
      if x.GotStmt? {
        LabeledRead(ts, x);
      }
    } else {
      var x := Closed(ts);
      if x.Some? {
        ClosedExactlyWhen(ts, x.value.0, x.value.1);
        FlattenExpression(x.value.0);
      }
    }
  }

  lemma {:induction false} FlattenExpression(e: Option<Tree>)
    ensures FlattenStmt(Expression(e)) == Opt(e) + SEMI
  {
  }

  lemma {:induction false} CompoundRead(ts: seq<Token>, x: ItemsResult)
    requires Starts(ts, LCURLY) && x.GotItems? && FlattenItems(x.items) + ([Punct(RCURLY)] + x.rest) == ts[1..]
    ensures FlattenStmt(Compound(x.items)) + x.rest == ts
  {
    assert [Punct(LCURLY)] + (FlattenItems(x.items) + ([Punct(RCURLY)] + x.rest)) == ts;
    assert FlattenStmt(Compound(x.items)) + x.rest
        == [Punct(LCURLY)] + (FlattenItems(x.items) + ([Punct(RCURLY)] + x.rest));
  }

  lemma {:induction false} LabeledRead(ts: seq<Token>, x: StmtResult)
    requires |ts| > 1 && ts[0].Ident? && Starts(ts[1..], COLON) && x.GotStmt? && FlattenStmt(x.s) + x.rest == ts[2..]
    ensures FlattenStmt(Labeled(ts[0].name, x.s)) + x.rest == ts
  {
    assert ts[1] == Punct(COLON);
    assert [ts[0], ts[1]] + (FlattenStmt(x.s) + x.rest) == ts;
    assert FlattenStmt(Labeled(ts[0].name, x.s)) + x.rest == [ts[0], ts[1]] + (FlattenStmt(x.s) + x.rest);
  }

  lemma {:induction false} JumpSound(ts: seq<Token>, depth: nat)
    requires ts != []
    ensures var r := Jump(ts, depth); r.GotStmt? ==> ReadStmt(r.s, r.rest, ts, depth)
  {
    hide Closed, Flatten;
    var r := Jump(ts, depth);
    if r.GotStmt? {
      if StartsKey(ts, GOTO) {
        assert ts == [ts[0], ts[1], ts[2]] + ts[3..];
      } else if StartsKey(ts, RETURN) {
        ClosedExactlyWhen(ts[1..], r.s.e, r.rest);
        assert [ts[0]] + (Opt(r.s.e) + SEMI + r.rest) == ts;
        assert FlattenStmt(r.s) + r.rest == [ts[0]] + (Opt(r.s.e) + SEMI + r.rest);
      } else {
        assert ts == [ts[0], ts[1]] + ts[2..];
      }
    }
  }

  lemma {:induction false} SelectionSound(ts: seq<Token>, depth: nat)
    requires StartsKey(ts, IF)
    ensures var r := SelectionStatement(ts, depth); r.GotStmt? ==> ReadStmt(r.s, r.rest, ts, depth)
    decreases |ts|, 1
  {
    hide Closed, Parenthesised, Parens, Statement, Flatten;
    var x := Parenthesised(ts[1..]);
    if x.Got? {
      ParenthesisedExactlyWhen(ts[1..], x.t, x.rest);
      StatementSound(x.rest, depth);
      var y := Statement(x.rest, depth);
      if y.GotStmt? {
        if StartsKey(y.rest, ELSE) {
          StatementSound(y.rest[1..], depth);
          var z := Statement(y.rest[1..], depth);
          if z.GotStmt? {
            SelectionRead(ts, x.t, y.s, Some(z.s), z.rest);
          }
        } else {
          SelectionRead(ts, x.t, y.s, None, y.rest);
        }
      }
    }
  }

  lemma {:induction false} SelectionRead(ts: seq<Token>, c: Tree, a: Stmt, b: Option<Stmt>, rest: seq<Token>)
    requires StartsKey(ts, IF)
    requires ts[1..] == Parens(c) + (FlattenStmt(a) + (if b.Some? then [Key(ELSE)] + (FlattenStmt(b.value) + rest) else rest))
    ensures FlattenStmt(Selection(c, a, b)) + rest == ts
  {
    hide Parens;
    assert ts == [Key(IF)] + ts[1..];
    if b.Some? {
      RegroupElse([Key(IF)], Parens(c), FlattenStmt(a), [Key(ELSE)], FlattenStmt(b.value), rest);
    } else {
      RegroupElse([Key(IF)], Parens(c), FlattenStmt(a), [], [], rest);
    }
  }

  lemma RegroupElse(a: seq<Token>, b: seq<Token>, c: seq<Token>, d: seq<Token>, e: seq<Token>, rest: seq<Token>)
    ensures (a + b + c + (d + e)) + rest == a + (b + (c + (d + (e + rest))))
  {
  }

  lemma {:induction false} WhileSound(ts: seq<Token>, depth: nat)
    requires StartsKey(ts, WHILE)
    ensures var r := WhileStatement(ts, depth); r.GotStmt? ==> ReadStmt(r.s, r.rest, ts, depth)
    decreases |ts|, 1
  {
    hide Closed, Parenthesised, Parens, Statement, Flatten;
    var x := Parenthesised(ts[1..]);
    if x.Got? {
      ParenthesisedExactlyWhen(ts[1..], x.t, x.rest);
      StatementSound(x.rest, depth + 1);
      var y := Statement(x.rest, depth + 1);
      if y.GotStmt? {
        assert [Key(WHILE)] + (Parens(x.t) + (FlattenStmt(y.s) + y.rest)) == ts;
        assert FlattenStmt(While(x.t, y.s)) + y.rest == [Key(WHILE)] + (Parens(x.t) + (FlattenStmt(y.s) + y.rest));
      }
    }
  }

  lemma {:induction false} DoSound(ts: seq<Token>, depth: nat)
    requires StartsKey(ts, DO)
    ensures var r := DoStatement(ts, depth); r.GotStmt? ==> ReadStmt(r.s, r.rest, ts, depth)
    decreases |ts|, 1
  {
    hide Closed, Parenthesised, Parens, Statement, Flatten;
    StatementSound(ts[1..], depth + 1);
    var y := Statement(ts[1..], depth + 1);
    if y.GotStmt? && StartsKey(y.rest, WHILE) {
      var x := Parenthesised(y.rest[1..]);
      if x.Got? && Starts(x.rest, SEMICOLON) {
        ParenthesisedExactlyWhen(y.rest[1..], x.t, x.rest);
        DoRead(ts, y.s, y.rest, x.t, x.rest);
      }
    }
  }

  lemma Regroup(a: seq<Token>, b: seq<Token>, c: seq<Token>, d: seq<Token>, e: seq<Token>, rest: seq<Token>)
    ensures (a + b + c + d + e) + rest == a + (b + (c + (d + (e + rest))))
  {
  }

  lemma {:induction false} DoRead(ts: seq<Token>, b: Stmt, rest: seq<Token>, c: Tree, rest1: seq<Token>)
    requires StartsKey(ts, DO) && ts[1..] == FlattenStmt(b) + rest
    requires StartsKey(rest, WHILE) && rest[1..] == Parens(c) + rest1 && Starts(rest1, SEMICOLON)
    ensures FlattenStmt(DoWhile(c, b)) + rest1[1..] == ts
  {
    hide Parens;
    assert SEMI + rest1[1..] == rest1;
    assert [Key(WHILE)] + (Parens(c) + rest1) == rest;
    assert [Key(DO)] + (FlattenStmt(b) + rest) == ts;
    Regroup([Key(DO)], FlattenStmt(b), [Key(WHILE)], Parens(c), SEMI, rest1[1..]);
  }

  lemma {:induction false} ItemsSound(ts: seq<Token>, depth: nat)
    ensures var r := Items(ts, depth);
      r.GotItems? ==> FlattenItems(r.items) + ([Punct(RCURLY)] + r.rest) == ts && AllWellformed(r.items, depth)
    decreases |ts|, 3
  {
    hide Statement, FlattenStmt;
    if Starts(ts, RCURLY) {
      assert [] + ([Punct(RCURLY)] + ts[1..]) == ts;
    } else if !(ts != [] && IsTypeSpecifier(ts[0])) {
      StatementSound(ts, depth);
      var x := Statement(ts, depth);
      if x.GotStmt? {
        ItemsSound(x.rest, depth);
        var y := Items(x.rest, depth);
        if y.GotItems? {
          var all := [x.s] + y.items;
          assert all[1..] == y.items;
          assert FlattenItems(all) + ([Punct(RCURLY)] + y.rest)
              == FlattenStmt(x.s) + (FlattenItems(y.items) + ([Punct(RCURLY)] + y.rest));
        }
      }
    }
  }

  // ----- it reads every statement of the grammar -----

  lemma {:induction false} StatementReads(s: Stmt, rest: seq<Token>, depth: nat)
    requires Wellformed(s, depth) && (TakesElse(s) ==> !StartsKey(rest, ELSE))
    ensures Statement(FlattenStmt(s) + rest, depth) == GotStmt(s, rest)
    decreases s, 2
  {
    hide Closed, Parenthesised, Parens, Flatten, Items, SelectionStatement, WhileStatement, DoStatement, Jump;
    var ts := FlattenStmt(s) + rest;
    match s
    case Expression(e) =>
      ClosedExactlyWhen(ts, e, rest);
      if e.Some? {
        NoSemicolon(e.value);
        ExpressionStarts(e.value, rest);
      }
    case Compound(items) =>
      assert ts[1..] == FlattenItems(items) + ([Punct(RCURLY)] + rest);
      ItemsRead(items, rest, depth);
    case Selection(_, _, _) => SelectionReads(s, rest, depth);
    case While(_, _) => WhileReads(s, rest, depth);
    case DoWhile(_, _) => DoReads(s, rest, depth);
    case Labeled(l, t) =>
      assert ts[1..][0] == Punct(COLON) && ts[2..] == FlattenStmt(t) + rest;
      StatementReads(t, rest, depth);
    case _ => JumpReads(s, rest, depth);
  }

  lemma {:induction false} ExpressionStarts(t: Tree, rest: seq<Token>)
    requires Flatten(t) != [] && !Starts(Flatten(t), LCURLY) && (Flatten(t)[0].Key? ==> Flatten(t)[0].keyword.SIZEOF?)
    requires |Flatten(t)| > 1 && Flatten(t)[0].Ident? ==> !Starts(Flatten(t)[1..], COLON)
    ensures var ts := Flatten(t) + SEMI + rest;
      && !Starts(ts, LCURLY) && (ts[0].Key? ==> ts[0].keyword.SIZEOF?)
      && !(|ts| > 1 && ts[0].Ident? && Starts(ts[1..], COLON))
  {
    hide Flatten;
    var ts := Flatten(t) + SEMI + rest;
    assert ts[0] == Flatten(t)[0];
    assert ts[1] == if |Flatten(t)| > 1 then Flatten(t)[1] else Punct(SEMICOLON);
  }

  lemma {:induction false} JumpReads(s: Stmt, rest: seq<Token>, depth: nat)
    requires (s.Return? || s.Break? || s.Continue? || s.Goto?) && Wellformed(s, depth)
    ensures var ts := FlattenStmt(s) + rest;
      && (StartsKey(ts, GOTO) || StartsKey(ts, CONTINUE) || StartsKey(ts, BREAK) || StartsKey(ts, RETURN))
      && Jump(ts, depth) == GotStmt(s, rest)
  {
    hide Closed, Flatten;
    var ts := FlattenStmt(s) + rest;
    if s.Return? {
      assert ts[1..] == Opt(s.e) + SEMI + rest;
      ClosedExactlyWhen(ts[1..], s.e, rest);
    } else if s.Goto? {
      assert ts[2..] == SEMI + rest && ts[3..] == rest;
    } else {
      assert ts[1..] == SEMI + rest && ts[2..] == rest;
    }
  }

  lemma {:induction false} SelectionSplits(s: Stmt, rest: seq<Token>)
    requires s.Selection?
    ensures var ts := FlattenStmt(s) + rest;
      && StartsKey(ts, IF)
      && ts[1..] == Parens(s.c) + (FlattenStmt(s.ifStatement) +
           if s.elseStatement.Some? then [Key(ELSE)] + (FlattenStmt(s.elseStatement.value) + rest) else rest)
  {
    hide Parens;
  }

  lemma {:induction false} SelectionReads(s: Stmt, rest: seq<Token>, depth: nat)
    requires s.Selection? && Wellformed(s, depth) && (TakesElse(s) ==> !StartsKey(rest, ELSE))
    ensures StartsKey(FlattenStmt(s) + rest, IF)
    ensures SelectionStatement(FlattenStmt(s) + rest, depth) == GotStmt(s, rest)
    decreases s, 1
  {
    hide Parenthesised, Parens, Statement, FlattenStmt;
    var Selection(c, a, b) := s;
    var ts := FlattenStmt(s) + rest;
    var after := if b.Some? then [Key(ELSE)] + (FlattenStmt(b.value) + rest) else rest;
    SelectionSplits(s, rest);
    ParenthesisedExactlyWhen(ts[1..], c, FlattenStmt(a) + after);
    StatementReads(a, after, depth);
    if b.Some? {
      assert after[1..] == FlattenStmt(b.value) + rest;
      StatementReads(b.value, rest, depth);
    }
  }

  lemma {:induction false} WhileReads(s: Stmt, rest: seq<Token>, depth: nat)
    requires s.While? && Wellformed(s, depth) && (TakesElse(s) ==> !StartsKey(rest, ELSE))
    ensures StartsKey(FlattenStmt(s) + rest, WHILE)
    ensures WhileStatement(FlattenStmt(s) + rest, depth) == GotStmt(s, rest)
    decreases s, 1
  {
    hide Parenthesised, Parens, Statement;
    var While(c, b) := s;
    var ts := FlattenStmt(s) + rest;
    assert ts[1..] == Parens(c) + (FlattenStmt(b) + rest);
    ParenthesisedExactlyWhen(ts[1..], c, FlattenStmt(b) + rest);
    StatementReads(b, rest, depth + 1);
  }

  lemma {:induction false} DoReads(s: Stmt, rest: seq<Token>, depth: nat)
    requires s.DoWhile? && Wellformed(s, depth)
    ensures StartsKey(FlattenStmt(s) + rest, DO)
    ensures DoStatement(FlattenStmt(s) + rest, depth) == GotStmt(s, rest)
    decreases s, 1
  {
    hide Parenthesised, Parens, Statement;
    var DoWhile(c, b) := s;
    var ts := FlattenStmt(s) + rest;
    var semi := SEMI + rest;
    var after := [Key(WHILE)] + (Parens(c) + semi);
    assert ts[1..] == FlattenStmt(b) + after;
    StatementReads(b, after, depth + 1);
    assert after[1..] == Parens(c) + semi && semi[1..] == rest;
    ParenthesisedExactlyWhen(after[1..], c, semi);
  }

  lemma {:induction false} ItemsRead(ss: seq<Stmt>, rest: seq<Token>, depth: nat)
    requires AllWellformed(ss, depth)
    ensures Items(FlattenItems(ss) + ([Punct(RCURLY)] + rest), depth) == GotItems(ss, rest)
    decreases ss, 3
  {
    hide Statement, FlattenStmt;
    var close := [Punct(RCURLY)] + rest;
    var ts := FlattenItems(ss) + close;
    if ss == [] {
      assert ts == close && ts[1..] == rest;
    } else {
      var after := FlattenItems(ss[1..]) + close;
      assert ts == FlattenStmt(ss[0]) + after;
      StatementStarts(ss[0], depth);
      assert ts[0] == FlattenStmt(ss[0])[0];
      NoElse(ss[1..], rest, depth);
      StatementReads(ss[0], after, depth);
      ItemsRead(ss[1..], rest, depth);
      assert ss == [ss[0]] + ss[1..];
    }
  }

  lemma {:induction false} StatementStarts(s: Stmt, depth: nat)
    requires Wellformed(s, depth)
    ensures var ts := FlattenStmt(s);
      ts != [] && !Starts(ts, RCURLY) && !StartsKey(ts, ELSE) && !IsTypeSpecifier(ts[0])
  {
    hide Parens, Flatten;
    if s.Expression? && s.e.Some? {
      NoSemicolon(s.e.value);
    }
  }

  lemma {:induction false} NoElse(ss: seq<Stmt>, rest: seq<Token>, depth: nat)
    requires AllWellformed(ss, depth)
    ensures !StartsKey(FlattenItems(ss) + ([Punct(RCURLY)] + rest), ELSE)
  {
    hide FlattenStmt;
    if ss != [] {
      StatementStarts(ss[0], depth);
      assert (FlattenItems(ss) + ([Punct(RCURLY)] + rest))[0] == FlattenStmt(ss[0])[0];
    }
  }

  /** The statement parser returns a statement and the tokens it leaves exactly when
      these are the tokens of a statement of the grammar, with no else left behind
      that its last if would take. */
  lemma {:induction false} StatementExactlyWhen(ts: seq<Token>, depth: nat, s: Stmt, rest: seq<Token>)
    ensures Statement(ts, depth) == GotStmt(s, rest) <==>
      ts == FlattenStmt(s) + rest && Wellformed(s, depth) && (TakesElse(s) ==> !StartsKey(rest, ELSE))
  {
    hide Statement, FlattenStmt;
    StatementSound(ts, depth);
    if ts == FlattenStmt(s) + rest && Wellformed(s, depth) && (TakesElse(s) ==> !StartsKey(rest, ELSE)) {
      StatementReads(s, rest, depth);
    }
  }
}
