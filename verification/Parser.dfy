/** The parser as a program: it takes tokens off its input and returns trees
    without parentheses. Where the source throws, `ok` is false. */
module Parser {
  import opened Options
  import opened Tokens
  import opened Syntax
  import opened Grammar
  import opened Statements
  import opened Printer

  /** An outcome of the parser object agrees with the grammar's function. */
  predicate Agrees(ok: bool, t: Tree, rest: seq<Token>, r: Result) {
    ok == r.Got? && (ok ==> t == Strip(r.t) && rest == r.rest)
  }

  predicate AgreesStmt(ok: bool, s: Stmt, rest: seq<Token>, r: StmtResult) {
    ok == r.GotStmt? && (ok ==> s == StripStmt(r.s) && rest == r.rest)
  }

  const NO_TREE := Leaf(END)

  class TokenParser {
    /** The tokens not read yet; the first two are what the source calls the next
        symbol and the look-ahead. */
    var input: seq<Token>
    var loopDepth: nat

    constructor (tokens: seq<Token>)
      ensures input == tokens && loopDepth == 0
    {
      input, loopDepth := tokens, 0;
    }

    method Scan()
      requires input != []
      modifies this`input
      ensures input == old(input)[1..]
    {
      input := input[1..];
    }

    /** Checks and reads a punctuator. */
    method Expect(p: Punctuator) returns (ok: bool)
      modifies this`input
      ensures ok == Starts(old(input), p) && (ok ==> input == old(input)[1..])
      ensures |input| <= |old(input)|
    {
      ok := Starts(input, p);
      if ok {
        Scan();
      }
    }

    method Expression(minPrecedence: nat) returns (ok: bool, expr: Tree)
      modifies this`input
      ensures Agrees(ok, expr, input, Expr(old(input), minPrecedence)) && |input| <= |old(input)|
      decreases |input|, 3
    {
      hide Atom;
      ghost var start := input;
      ok, expr := ComputeAtom();
      if !ok {
        return;
      }
      ghost var t := Atom(start).t;
      while Continues(input, minPrecedence)
        invariant ok && expr == Strip(t) && |input| < |start|
        invariant Loop(t, input, minPrecedence) == Expr(start, minPrecedence)
        decreases |input|
      {
        ghost var before := input;
        var op := input[0].punct;
        Scan();
        if op.QMARK? {
          var okHelper, helper := Expression(1);
          if !okHelper {
            return false, NO_TREE;
          }
          var colon := Expect(COLON);
          if !colon {
            return false, NO_TREE;
          }
          ghost var l := Expr(before[1..], 1);
          var okRhs, rhs := Expression(RightLevel(QMARK));
          if !okRhs {
            return false, NO_TREE;
          }
          ghost var r := Expr(l.rest[1..], RightLevel(QMARK));
          LoopOfTernary(t, before, minPrecedence, l.t, l.rest, r.t, r.rest);
          t := Syntax.Ternary(t, l.t, r.t);
          expr := Syntax.Ternary(expr, helper, rhs);
        } else {
          var okRhs, rhs := Expression(RightLevel(op));
          if !okRhs {
            return false, NO_TREE;
          }
          ghost var r := Expr(before[1..], RightLevel(op));
          LoopOfBinary(t, before, minPrecedence, r.t, r.rest);
          t := Syntax.Binary(op, t, r.t);
          expr := Syntax.Binary(op, expr, rhs);
        }
      }
    }

    method ComputeAtom() returns (ok: bool, t: Tree)
      modifies this`input
      ensures Agrees(ok, t, input, Atom(old(input))) && |input| <= |old(input)|
      decreases |input|, 2
    {
      hide Expr, Postfix;
      ok, t := false, NO_TREE;
      if input == [] {
        return;
      }
      var first := input[0];
      ghost var start := input;
      if Starts(input, LPAREN) {
        Scan();
        ok, t := Expression(0);
        if !ok {
          return;
        }
        ok := Expect(RPAREN);
        if !ok {
          return;
        }
        ok, t := PostfixExpression(t, Paren(Expr(start[1..], 0).t));
      } else if IsAtom(first) {
        Scan();
        ok, t := PostfixExpression(Leaf(first), Leaf(first));
      } else if IsPrefix(first) {
        Scan();
        if first == Key(SIZEOF) && Starts(input, LPAREN) && |input| > 1 && IsTypeSpecifier(input[1]) {
          ok, t := SizeOfType();
        } else {
          ok, t := Expression(UNARY_LEVEL);
          if ok {
            t := Unary(first, t);
          }
        }
      }
    }

    /** `( type )` behind sizeof; the type is a basic one. */
    method SizeOfType() returns (ok: bool, t: Tree)
      requires |input| > 1 && IsTypeSpecifier(input[1])
      modifies this`input
      ensures ok == (IsBasicType(old(input)[1].keyword) && Starts(old(input)[2..], RPAREN))
      ensures ok ==> t == SizeofType(old(input)[1].keyword) && input == old(input)[3..]
      ensures |input| <= |old(input)|
    {
      Scan();
      var k := input[0].keyword;
      Scan();
      ok, t := false, SizeofType(k);
      if IsBasicType(k) {
        ok := Expect(RPAREN);
      }
    }

    method PostfixExpression(child: Tree, ghost c: Tree) returns (ok: bool, t: Tree)
      requires child == Strip(c)
      modifies this`input
      ensures Agrees(ok, t, input, Postfix(c, old(input))) && |input| <= |old(input)|
      decreases |input|, 1
    {
      hide Expr, ArgList, Args;
      ghost var start, tree := input, c;
      t := child;
      while StartsPostfix(input)
        invariant t == Strip(tree) && |input| <= |start|
        invariant Postfix(tree, input) == Postfix(c, start)
        decreases |input|
      {
        ghost var before := input;
        var p := input[0].punct;
        Scan();
        if p.LPAREN? {
          var okArgs, args := Arguments();
          if !okArgs {
            return false, NO_TREE;
          }
          t := Call(t, args);
          tree := Call(tree, Args(before[1..]).ts);
        } else if p.LSQUARE? {
          var okIndex, index := Expression(0);
          if !okIndex {
            return false, NO_TREE;
          }
          var close := Expect(RSQUARE);
          if !close {
            return false, NO_TREE;
          }
          t := Index(t, index);
          tree := Index(tree, Expr(before[1..], 0).t);
        } else {
          if input == [] || !input[0].Ident? {
            return false, NO_TREE;
          }
          t := Member(t, p.ARROW?, input[0].name);
          tree := Member(tree, p.ARROW?, input[0].name);
          Scan();
        }
      }
      ok := true;
    }

    /** The arguments behind an opening parenthesis, and the closing one. */
    method Arguments() returns (ok: bool, arguments: seq<Tree>)
      modifies this`input
      ensures ok == Args(old(input)).GotArgs? && |input| <= |old(input)|
      ensures ok ==> arguments == StripAll(Args(old(input)).ts) && input == Args(old(input)).rest
      decreases |input|, 5
    {
      hide Expr;
      ghost var start := input;
      arguments := [];
      if Starts(input, RPAREN) {
        Scan();
        return true, [];
      }
      ghost var trees: seq<Tree> := [];
      var more := true;
      while more
        invariant arguments == StripAll(trees) && |input| <= |start|
        invariant more ==> ArgList(start) == Prepend(trees, ArgList(input))
        invariant !more ==> (!Starts(input, COMMA)
          && ArgList(start) == if Starts(input, RPAREN) then GotArgs(trees, input[1..]) else FailedArgs)
        decreases more, |input|
      {
        ghost var before := input;
        var okArg, arg := Expression(0);
        if !okArg {
          return false, [];
        }
        ghost var t := Expr(before, 0).t;
        StripSnoc(trees, t);
        PrependSnoc(trees, t, if Starts(input, COMMA) then ArgList(input[1..]) else FailedArgs);
        trees := trees + [t];
        arguments := arguments + [arg];
        more := Starts(input, COMMA);
        if more {
          Scan();
        }
      }
      ok := Expect(RPAREN);
    }

    // ----- statements -----

    method Statement() returns (ok: bool, s: Stmt)
      modifies this
      ensures AgreesStmt(ok, s, input, Statements.Statement(old(input), old(loopDepth)))
      ensures |input| <= |old(input)| && (ok ==> loopDepth == old(loopDepth))
      decreases |input|, 2
    {
      hide Closed, Items, Statements.SelectionStatement, WhileStatement, DoStatement, Jump;
      if StartsKey(input, GOTO) || StartsKey(input, CONTINUE) || StartsKey(input, BREAK) || StartsKey(input, RETURN) {
        ok, s := JumpStatement();
      } else if Starts(input, LCURLY) {
        ok, s := CompoundStatement();
      } else if StartsKey(input, IF) {
        ok, s := SelectionStatement();
      } else if StartsKey(input, WHILE) || StartsKey(input, DO) {
        ok, s := IterationStatement();
      } else if |input| > 1 && input[0].Ident? && Starts(input[1..], COLON) {
        ok, s := LabeledStatement();
      } else {
        ok, s := ExpressionStatement();
      }
    }

    /** An optional expression and the semicolon behind it. */
    method OptionalExpression() returns (ok: bool, e: Option<Tree>)
      modifies this`input
      ensures ok == Closed(old(input)).Some? && |input| <= |old(input)|
      ensures ok ==> e == StripOpt(Closed(old(input)).value.0) && input == Closed(old(input)).value.1
    {
      hide Expr;
      e := None;
      if Starts(input, SEMICOLON) {
        Scan();
        ok := true;
      } else {
        var t;
        ok, t := Expression(0);
        if ok {
          e := Some(t);
          ok := Expect(SEMICOLON);
        }
      }
    }

    method ExpressionStatement() returns (ok: bool, s: Stmt)
      modifies this`input
      ensures ok == Closed(old(input)).Some? && |input| <= |old(input)|
      ensures ok ==> s == Stmt.Expression(StripOpt(Closed(old(input)).value.0)) && input == Closed(old(input)).value.1
    {
      hide Closed;
      var e;
      ok, e := OptionalExpression();
      s := Stmt.Expression(e);
    }

    method LabeledStatement() returns (ok: bool, s: Stmt)
      requires |input| > 1 && input[0].Ident? && Starts(input[1..], COLON)
      modifies this
      ensures ok == Statements.Statement(old(input)[2..], old(loopDepth)).GotStmt?
      ensures var r := Statements.Statement(old(input)[2..], old(loopDepth));
        ok ==> s == Labeled(old(input)[0].name, StripStmt(r.s)) && input == r.rest && loopDepth == old(loopDepth)
      ensures |input| <= |old(input)|
      decreases |input|, 1
    {
      hide Statements.Statement, StripStmt;
      var name := input[0].name;
      assert input[1..][1..] == input[2..];
      Scan();
      Scan();
      ok, s := Statement();
      s := Labeled(name, s);
    }

    /** A parenthesised expression. */
    method Condition() returns (ok: bool, t: Tree)
      modifies this`input
      ensures Agrees(ok, t, input, Parenthesised(old(input))) && |input| <= |old(input)|
    {
      hide Expr;
      t := NO_TREE;
      ok := Expect(LPAREN);
      if !ok {
        return;
      }
      ok, t := Expression(0);
      if ok {
        ok := Expect(RPAREN);
      }
    }

    method SelectionStatement() returns (ok: bool, s: Stmt)
      requires StartsKey(input, IF)
      modifies this
      ensures AgreesStmt(ok, s, input, Statements.SelectionStatement(old(input), old(loopDepth)))
      ensures |input| <= |old(input)| && (ok ==> loopDepth == old(loopDepth))
      decreases |input|, 1
    {
      hide Parenthesised, Statements.Statement, Strip;
      s := Stmt.Break;
      Scan();
      var c;
      ok, c := Condition();
      if !ok {
        return;
      }
      var st1;
      ok, st1 := Statement();
      if !ok {
        return;
      }
      if StartsKey(input, ELSE) {
        Scan();
        var st2;
        ok, st2 := Statement();
        s := Selection(c, st1, Some(st2));
      } else {
        s := Selection(c, st1, None);
      }
    }

    method IterationStatement() returns (ok: bool, s: Stmt)
      requires StartsKey(input, WHILE) || StartsKey(input, DO)
      modifies this
      ensures StartsKey(old(input), WHILE) ==>
        AgreesStmt(ok, s, input, WhileStatement(old(input), old(loopDepth)))
      ensures StartsKey(old(input), DO) ==>
        AgreesStmt(ok, s, input, DoStatement(old(input), old(loopDepth)))
      ensures |input| <= |old(input)| && (ok ==> loopDepth == old(loopDepth))
      decreases |input|, 1
    {
      hide Parenthesised, Statements.Statement, Strip;
      s := Stmt.Break;
      loopDepth := loopDepth + 1;
      var isWhile := StartsKey(input, WHILE);
      Scan();
      var c, body;
      if isWhile {
        ok, c := Condition();
        if !ok {
          return;
        }
        ok, body := Statement();
        if !ok {
          return;
        }
        s := While(c, body);
      } else {
        ok, body := Statement();
        if !ok {
          return;
        }
        ok := StartsKey(input, Keyword.WHILE);
        if !ok {
          return;
        }
        Scan();
        ok, c := Condition();
        if !ok {
          return;
        }
        ok := Expect(SEMICOLON);
        s := DoWhile(c, body);
      }
      loopDepth := loopDepth - 1;
    }

    method JumpStatement() returns (ok: bool, s: Stmt)
      requires StartsKey(input, GOTO) || StartsKey(input, CONTINUE) || StartsKey(input, BREAK) || StartsKey(input, RETURN)
      modifies this`input
      ensures AgreesStmt(ok, s, input, Jump(old(input), loopDepth)) && |input| <= |old(input)|
    {
      hide Closed;
      ghost var start := input;
      var keyword := input[0].keyword;
      Scan();
      ok, s := false, Stmt.Break;
      if keyword == GOTO {
        if input != [] && input[0].Ident? {
          s := Goto(input[0].name);
          assert input[1..] == start[2..];
          Scan();
          ok := Expect(SEMICOLON);
        }
      } else if keyword == CONTINUE {
        if loopDepth > 0 {
          s := Stmt.Continue;
          ok := Expect(SEMICOLON);
        }
      } else if keyword == BREAK {
        if loopDepth > 0 {
          ok := Expect(SEMICOLON);
        }
      } else {
        var e;
        ok, e := OptionalExpression();
        s := Stmt.Return(e);
      }
    }

    method CompoundStatement() returns (ok: bool, s: Stmt)
      requires Starts(input, LCURLY)
      modifies this
      ensures var r := Items(old(input)[1..], old(loopDepth));
        ok == r.GotItems? && (ok ==> s == Compound(StripItems(r.items)) && input == r.rest && loopDepth == old(loopDepth))
      ensures |input| <= |old(input)|
      decreases |input|, 1
    {
      hide Statements.Statement, StripStmt;
      Scan();
      ghost var start, depth := input, loopDepth;
      var subStatements: seq<Stmt> := [];
      ghost var items: seq<Stmt> := [];
      s := Stmt.Break;
      while !Starts(input, RCURLY)
        invariant |input| <= |start| && loopDepth == depth && subStatements == StripItems(items)
        invariant Items(start, depth) == PrependItems(items, Items(input, depth))
        decreases |input|
      {
        if input != [] && IsTypeSpecifier(input[0]) {
          return false, s;
        }
        ghost var before := input;
        var okItem, item := Statement();
        if !okItem {
          return false, s;
        }
        ghost var r := Statements.Statement(before, depth);
        StripItemsSnoc(items, r.s);
        PrependItemsSnoc(items, r.s, Items(r.rest, depth));
        items := items + [r.s];
        subStatements := subStatements + [item];
      }
      Scan();
      s := Compound(subStatements);
      ok := true;
      assert items + [] == items;
    }
  }

  function PrependItems(ss: seq<Stmt>, r: ItemsResult): ItemsResult {
    match r
    case GotItems(more, rest) => GotItems(ss + more, rest)
    case FailedItems => FailedItems
  }

  lemma PrependItemsSnoc(ss: seq<Stmt>, s: Stmt, r: ItemsResult)
    ensures PrependItems(ss, PrependItems([s], r)) == PrependItems(ss + [s], r)
  {
    if r.GotItems? {
      assert ss + ([s] + r.items) == ss + [s] + r.items;
    }
  }

  lemma {:induction false} StripItemsSnoc(ss: seq<Stmt>, s: Stmt)
    ensures StripItems(ss + [s]) == StripItems(ss) + [StripStmt(s)]
    decreases ss
  {
    hide StripStmt;
    if ss != [] {
      StripItemsSnoc(ss[1..], s);
      assert (ss + [s])[1..] == ss[1..] + [s];
    }
  }

  function Prepend(ts: seq<Tree>, r: ArgsResult): ArgsResult {
    match r
    case GotArgs(more, rest) => GotArgs(ts + more, rest)
    case FailedArgs => FailedArgs
  }

  lemma PrependSnoc(ts: seq<Tree>, t: Tree, r: ArgsResult)
    ensures Prepend(ts, Prepend([t], r)) == Prepend(ts + [t], r)
  {
    if r.GotArgs? {
      assert ts + ([t] + r.ts) == ts + [t] + r.ts;
    }
  }

  lemma {:induction false} StripSnoc(ts: seq<Tree>, t: Tree)
    ensures StripAll(ts + [t]) == StripAll(ts) + [Strip(t)]
    decreases ts
  {
    if ts != [] {
      StripSnoc(ts[1..], t);
      assert (ts + [t])[1..] == ts[1..] + [t];
    }
  }
}
