module Grammar {
  /** Precedence climbing as a function on the remaining tokens, and the proof that it
      reads exactly the trees of the grammar. */

  import opened Tokens
  import opened Syntax

  datatype Result = Got(t: Tree, rest: seq<Token>) | Failed
  datatype ArgsResult = GotArgs(ts: seq<Tree>, rest: seq<Token>) | FailedArgs

  /** The next token is an infix operator that expression(p) takes. */
  predicate Continues(ts: seq<Token>, p: int) {
    ts != [] && ts[0].Punct? && IsInfix(ts[0].punct) && p <= Prec(ts[0].punct)
  }

  predicate StartsPostfix(ts: seq<Token>) {
    Starts(ts, LPAREN) || Starts(ts, LSQUARE) || Starts(ts, ARROW) || Starts(ts, DOT)
  }

  function Expr(ts: seq<Token>, p: nat): (r: Result)
    ensures r.Got? ==> |r.rest| < |ts|
    decreases |ts|, 3
  {
    match Atom(ts)
    case Got(t, rest) => Loop(t, rest, p)
    case Failed => Failed
  }

  function Loop(t: Tree, ts: seq<Token>, p: nat): (r: Result)
    ensures r.Got? ==> |r.rest| <= |ts|
    decreases |ts|, 2
  {
    if !Continues(ts, p) then Got(t, ts)
    else if Starts(ts, QMARK) then
      match Expr(ts[1..], 1)
      case Got(l, rest) =>
        if !Starts(rest, COLON) then Failed
        else
          (match Expr(rest[1..], RightLevel(QMARK))
           case Got(r, rest') => Loop(Ternary(t, l, r), rest', p)
           case Failed => Failed)
      case Failed => Failed
    else
      var op := ts[0].punct;
      match Expr(ts[1..], RightLevel(op))
      case Got(r, rest) => Loop(Binary(op, t, r), rest, p)
      case Failed => Failed
  }

  function Atom(ts: seq<Token>): (r: Result)
    ensures r.Got? ==> |r.rest| < |ts|
    decreases |ts|, 2
  {
    if ts == [] then Failed
    else if Starts(ts, LPAREN) then
      match Expr(ts[1..], 0)
      case Got(e, rest) => if Starts(rest, RPAREN) then Postfix(Paren(e), rest[1..]) else Failed
      case Failed => Failed
    else if IsAtom(ts[0]) then Postfix(Leaf(ts[0]), ts[1..])
    else if IsPrefix(ts[0]) then
      if ts[0] == Key(SIZEOF) && Starts(ts[1..], LPAREN) && |ts| > 2 && IsTypeSpecifier(ts[2]) then
        if IsBasicType(ts[2].keyword) && Starts(ts[3..], RPAREN) then Got(SizeofType(ts[2].keyword), ts[4..]) else Failed
      else
        match Expr(ts[1..], UNARY_LEVEL)
        case Got(e, rest) => Got(Unary(ts[0], e), rest)
        case Failed => Failed
    else Failed
  }

  function Postfix(t: Tree, ts: seq<Token>): (r: Result)
    ensures r.Got? ==> |r.rest| <= |ts|
    decreases |ts|, 1
  {
    if Starts(ts, LPAREN) then
      match Args(ts[1..])
      case GotArgs(args, rest) => Postfix(Call(t, args), rest)
      case FailedArgs => Failed
    else if Starts(ts, LSQUARE) then
      match Expr(ts[1..], 0)
      case Got(i, rest) => if Starts(rest, RSQUARE) then Postfix(Index(t, i), rest[1..]) else Failed
      case Failed => Failed
    else if Starts(ts, ARROW) || Starts(ts, DOT) then
      if |ts| > 1 && ts[1].Ident? then Postfix(Member(t, ts[0].punct.ARROW?, ts[1].name), ts[2..]) else Failed
    else Got(t, ts)
  }

  /** The arguments of a call and its closing parenthesis. */
  function Args(ts: seq<Token>): (r: ArgsResult)
    ensures r.GotArgs? ==> |r.rest| < |ts|
    decreases |ts|, 5
  {
    if Starts(ts, RPAREN) then GotArgs([], ts[1..]) else ArgList(ts)
  }

  function ArgList(ts: seq<Token>): (r: ArgsResult)
    ensures r.GotArgs? ==> |r.rest| < |ts|
    decreases |ts|, 4
  {
    match Expr(ts, 0)
    case Failed => FailedArgs
    case Got(t, rest) =>
      if Starts(rest, COMMA) then
        match ArgList(rest[1..])
        case GotArgs(more, rest') => GotArgs([t] + more, rest')
        case FailedArgs => FailedArgs
      else if Starts(rest, RPAREN) then GotArgs([t], rest[1..])
      else FailedArgs
  }

  // ----- it reads trees of the grammar -----

  /** The last thing in the tree is `sizeof (type)`, which takes no postfix. */
  predicate EndsInSizeofType(t: Tree) {
    match t
    case SizeofType(_) => true
    case Unary(_, e) => EndsInSizeofType(e)
    case Binary(_, _, r) => EndsInSizeofType(r)
    case Ternary(_, _, r) => EndsInSizeofType(r)
    case _ => false
  }

  /** An operator at least this tight would have gone to the tree's last operand. */
  function RightBound(t: Tree): int {
    match t
    case Binary(op, _, _) => RightLevel(op)
    case Ternary(_, _, _) => RightLevel(QMARK)
    case _ => UNARY_LEVEL
  }

  /** expression(p) can stop after tree t with these tokens left. */
  predicate Stops(t: Tree, rest: seq<Token>, p: int) {
    !Continues(rest, p) && (StartsPostfix(rest) ==> EndsInSizeofType(t))
  }

  ghost predicate Read(t: Tree, rest: seq<Token>, ts: seq<Token>) {
    Flatten(t) + rest == ts && Grammatical(t)
  }

  lemma {:induction false} ExprSound(ts: seq<Token>, p: nat)
    requires p <= UNARY_LEVEL
    ensures var r := Expr(ts, p);
      r.Got? ==> Read(r.t, r.rest, ts) && p <= Level(r.t) && Stops(r.t, r.rest, p)
    decreases |ts|, 3
  {
    AtomSound(ts);
    var a := Atom(ts);
    if a.Got? {
      LoopSound(a.t, a.rest, p);
      LoopFlat(ts, a.t, a.rest, p);
    }
  }

  lemma {:induction false} LoopFlat(ts: seq<Token>, t: Tree, rest: seq<Token>, p: nat)
    requires Flatten(t) + rest == ts
    requires Loop(t, rest, p).Got? ==> Flatten(Loop(t, rest, p).t) + Loop(t, rest, p).rest == Flatten(t) + rest
    ensures Loop(t, rest, p).Got? ==> Flatten(Loop(t, rest, p).t) + Loop(t, rest, p).rest == ts
  {
  }

  lemma {:induction false} LoopSound(t: Tree, ts: seq<Token>, p: nat)
    requires Grammatical(t) && p <= Level(t) && p <= UNARY_LEVEL && Stops(t, ts, RightBound(t))
    ensures var r := Loop(t, ts, p);
      r.Got? ==> Read(r.t, r.rest, Flatten(t) + ts) && p <= Level(r.t) && Stops(r.t, r.rest, p)
    decreases |ts|, 2
  {
    hide Expr, Atom, Flatten;
    if Continues(ts, p) {
      var op := ts[0].punct;
      if op.QMARK? {
        ExprSound(ts[1..], 1);
        var x := Expr(ts[1..], 1);
        if x.Got? && Starts(x.rest, COLON) {
          ExprSound(x.rest[1..], RightLevel(QMARK));
          var y := Expr(x.rest[1..], RightLevel(QMARK));
          if y.Got? {
            TernaryRead(t, ts, x, y);
            LoopSound(Ternary(t, x.t, y.t), y.rest, p);
          }
        }
      } else {
        ExprSound(ts[1..], RightLevel(op));
        var x := Expr(ts[1..], RightLevel(op));
        if x.Got? {
          BinaryRead(t, ts, x);
          LoopSound(Binary(op, t, x.t), x.rest, p);
        }
      }
    }
  }

  lemma {:induction false} BinaryRead(t: Tree, ts: seq<Token>, x: Result)
    requires ts != [] && ts[0].Punct? && x.Got? && Flatten(x.t) + x.rest == ts[1..]
    ensures Flatten(Binary(ts[0].punct, t, x.t)) + x.rest == Flatten(t) + ts
  {
    var op := ts[0];
    calc {
      Flatten(Binary(op.punct, t, x.t)) + x.rest;
      (Flatten(t) + [op] + Flatten(x.t)) + x.rest;
      Flatten(t) + ([op] + (Flatten(x.t) + x.rest));
      Flatten(t) + ([op] + ts[1..]);
      { assert [op] + ts[1..] == ts; }
      Flatten(t) + ts;
    }
  }

  lemma {:induction false} TernaryRead(t: Tree, ts: seq<Token>, x: Result, y: Result)
    requires Starts(ts, QMARK) && x.Got? && Flatten(x.t) + x.rest == ts[1..]
    requires Starts(x.rest, COLON) && y.Got? && Flatten(y.t) + y.rest == x.rest[1..]
    ensures Flatten(Ternary(t, x.t, y.t)) + y.rest == Flatten(t) + ts
  {
    var q, c := Punct(QMARK), Punct(COLON);
    assert [c] + (Flatten(y.t) + y.rest) == x.rest;
    assert [q] + (Flatten(x.t) + x.rest) == ts;
    assert (Flatten(t) + [q] + Flatten(x.t) + [c] + Flatten(y.t)) + y.rest
        == Flatten(t) + ([q] + (Flatten(x.t) + ([c] + (Flatten(y.t) + y.rest))));
  }

  lemma {:induction false} AtomSound(ts: seq<Token>)
    ensures var r := Atom(ts);
      r.Got? ==> Read(r.t, r.rest, ts) && UNARY_LEVEL <= Level(r.t) && Stops(r.t, r.rest, UNARY_LEVEL)
    decreases |ts|, 2
  {
    hide Expr, Loop, Postfix, FlattenArgs;
    if ts == [] {
    } else if Starts(ts, LPAREN) {
      ExprSound(ts[1..], 0);
      var x := Expr(ts[1..], 0);
      if x.Got? && Starts(x.rest, RPAREN) {
        PostfixSound(Paren(x.t), x.rest[1..]);
        ParenRead(ts, x);
      }
    } else if IsAtom(ts[0]) {
      PostfixSound(Leaf(ts[0]), ts[1..]);
      assert [ts[0]] + ts[1..] == ts;
    } else if IsPrefix(ts[0]) {
      if ts[0] == Key(SIZEOF) && Starts(ts[1..], LPAREN) && |ts| > 2 && IsTypeSpecifier(ts[2]) {
        if IsBasicType(ts[2].keyword) && Starts(ts[3..], RPAREN) {
          assert ts == [ts[0], ts[1], ts[2], ts[3]] + ts[4..];
        }
      } else {
        ExprSound(ts[1..], UNARY_LEVEL);
        var x := Expr(ts[1..], UNARY_LEVEL);
        if x.Got? {
          UnaryRead(ts, x);
        }
      }
    }
  }

  lemma {:induction false} UnaryRead(ts: seq<Token>, x: Result)
    requires ts != [] && x.Got? && Flatten(x.t) + x.rest == ts[1..]
    ensures Flatten(Unary(ts[0], x.t)) + x.rest == ts
  {
    assert [ts[0]] + (Flatten(x.t) + x.rest) == ts;
    assert Flatten(Unary(ts[0], x.t)) + x.rest == [ts[0]] + (Flatten(x.t) + x.rest);
  }

  lemma {:induction false} ParenRead(ts: seq<Token>, x: Result)
    requires Starts(ts, LPAREN) && x.Got? && Flatten(x.t) + x.rest == ts[1..] && Starts(x.rest, RPAREN)
    ensures Flatten(Paren(x.t)) + x.rest[1..] == ts
  {
    assert [Punct(RPAREN)] + x.rest[1..] == x.rest;
    assert [Punct(LPAREN)] + (Flatten(x.t) + x.rest) == ts;
    assert Flatten(Paren(x.t)) + x.rest[1..] == [Punct(LPAREN)] + (Flatten(x.t) + ([Punct(RPAREN)] + x.rest[1..]));
  }

  lemma {:induction false} PostfixSound(t: Tree, ts: seq<Token>)
    requires Grammatical(t) && Level(t) == POSTFIX_LEVEL
    ensures var r := Postfix(t, ts);
      r.Got? ==> Read(r.t, r.rest, Flatten(t) + ts) && Level(r.t) == POSTFIX_LEVEL && !StartsPostfix(r.rest)
    decreases |ts|, 1
  {
    hide Expr, Loop, Atom, Args, Flatten;
    if Starts(ts, LPAREN) {
      ArgsSound(ts[1..]);
      var x := Args(ts[1..]);
      if x.GotArgs? {
        PostfixSound(Call(t, x.ts), x.rest);
        CallRead(t, ts, x);
      }
    } else if Starts(ts, LSQUARE) {
      ExprSound(ts[1..], 0);
      var x := Expr(ts[1..], 0);
      if x.Got? && Starts(x.rest, RSQUARE) {
        PostfixSound(Index(t, x.t), x.rest[1..]);
        IndexRead(t, ts, x);
      }
    } else if Starts(ts, ARROW) || Starts(ts, DOT) {
      if |ts| > 1 && ts[1].Ident? {
        PostfixSound(Member(t, ts[0].punct.ARROW?, ts[1].name), ts[2..]);
        MemberRead(t, ts);
      }
    }
  }

  lemma {:induction false} CallRead(t: Tree, ts: seq<Token>, x: ArgsResult)
    requires Starts(ts, LPAREN) && x.GotArgs? && FlattenArgs(x.ts) + ([Punct(RPAREN)] + x.rest) == ts[1..]
    ensures Flatten(Call(t, x.ts)) + x.rest == Flatten(t) + ts
  {
    assert [Punct(LPAREN)] + (FlattenArgs(x.ts) + ([Punct(RPAREN)] + x.rest)) == ts;
    assert Flatten(Call(t, x.ts)) + x.rest
        == Flatten(t) + ([Punct(LPAREN)] + (FlattenArgs(x.ts) + ([Punct(RPAREN)] + x.rest)));
  }

  lemma {:induction false} IndexRead(t: Tree, ts: seq<Token>, x: Result)
    requires Starts(ts, LSQUARE) && x.Got? && Flatten(x.t) + x.rest == ts[1..] && Starts(x.rest, RSQUARE)
    ensures Flatten(Index(t, x.t)) + x.rest[1..] == Flatten(t) + ts
  {
    assert [Punct(RSQUARE)] + x.rest[1..] == x.rest;
    assert [Punct(LSQUARE)] + (Flatten(x.t) + x.rest) == ts;
    assert Flatten(Index(t, x.t)) + x.rest[1..]
        == Flatten(t) + ([Punct(LSQUARE)] + (Flatten(x.t) + ([Punct(RSQUARE)] + x.rest[1..])));
  }

  lemma {:induction false} MemberRead(t: Tree, ts: seq<Token>)
    requires (Starts(ts, ARROW) || Starts(ts, DOT)) && |ts| > 1 && ts[1].Ident?
    ensures Flatten(Member(t, ts[0].punct.ARROW?, ts[1].name)) + ts[2..] == Flatten(t) + ts
  {
    assert ts == [ts[0], ts[1]] + ts[2..];
    assert Flatten(Member(t, ts[0].punct.ARROW?, ts[1].name)) + ts[2..] == Flatten(t) + ([ts[0], ts[1]] + ts[2..]);
  }

  lemma {:induction false} ArgsSound(ts: seq<Token>)
    ensures var r := Args(ts);
      r.GotArgs? ==> FlattenArgs(r.ts) + ([Punct(RPAREN)] + r.rest) == ts && AllGrammatical(r.ts)
    decreases |ts|, 5
  {
    if Starts(ts, RPAREN) {
      assert [] + ([Punct(RPAREN)] + ts[1..]) == ts;
    } else {
      ArgListSound(ts);
    }
  }

  lemma {:induction false} ArgListSound(ts: seq<Token>)
    ensures var r := ArgList(ts);
      r.GotArgs? ==> r.ts != [] && FlattenArgs(r.ts) + ([Punct(RPAREN)] + r.rest) == ts && AllGrammatical(r.ts)
    decreases |ts|, 4
  {
    hide Expr, Flatten, Grammatical;
    ExprSound(ts, 0);
    var x := Expr(ts, 0);
    if x.Got? && Starts(x.rest, COMMA) {
      ArgListSound(x.rest[1..]);
      var y := ArgList(x.rest[1..]);
      if y.GotArgs? {
        var all := [x.t] + y.ts;
        assert all[1..] == y.ts;
        assert [Punct(COMMA)] + (FlattenArgs(y.ts) + ([Punct(RPAREN)] + y.rest)) == x.rest;
        assert FlattenArgs(all) + ([Punct(RPAREN)] + y.rest)
            == Flatten(x.t) + ([Punct(COMMA)] + (FlattenArgs(y.ts) + ([Punct(RPAREN)] + y.rest)));
      }
    } else if x.Got? && Starts(x.rest, RPAREN) {
      assert [x.t][1..] == [];
      assert [Punct(RPAREN)] + x.rest[1..] == x.rest;
    }
  }

  // ----- it reads every tree of the grammar -----

  /** After a tree of the grammar the loop goes on with that tree. */
  lemma {:induction false} ExprReads(t: Tree, rest: seq<Token>, p: nat)
    requires Grammatical(t) && p <= Level(t) && p <= UNARY_LEVEL && Stops(t, rest, RightBound(t))
    ensures Expr(Flatten(t) + rest, p) == Loop(t, rest, p)
    decreases t, 4
  {
    match t
    case Binary(op, l, r) => BinaryReads(t, rest, p);
    case Ternary(c, l, r) => TernaryReads(t, rest, p);
    case _ => AtomReads(t, rest);
  }

  lemma {:induction false} BinaryReads(t: Tree, rest: seq<Token>, p: nat)
    requires t.Binary? && Grammatical(t) && p <= Level(t) && p <= UNARY_LEVEL && Stops(t, rest, RightBound(t))
    ensures Expr(Flatten(t) + rest, p) == Loop(t, rest, p)
    decreases t, 3
  {
    hide Expr, Atom;
    var Binary(op, l, r) := t;
    var after := [Punct(op)] + (Flatten(r) + rest);
    assert Flatten(t) + rest == Flatten(l) + after;
    ExprReads(l, after, p);
    assert after[1..] == Flatten(r) + rest;
    ExprReads(r, rest, RightLevel(op));
    LoopStops(r, rest, RightLevel(op));
    LoopOfBinary(l, after, p, r, rest);
  }

  lemma {:induction false} LoopStops(t: Tree, ts: seq<Token>, p: nat)
    requires !Continues(ts, p)
    ensures Loop(t, ts, p) == Got(t, ts)
  {
  }

  lemma {:induction false} LoopOfBinary(l: Tree, ts: seq<Token>, p: nat, r: Tree, rest: seq<Token>)
    requires Continues(ts, p) && !Starts(ts, QMARK) && Expr(ts[1..], RightLevel(ts[0].punct)) == Got(r, rest)
    ensures Loop(l, ts, p) == Loop(Binary(ts[0].punct, l, r), rest, p)
  {
    hide Expr;
  }

  lemma {:induction false} LoopOfTernary(t: Tree, ts: seq<Token>, p: nat, l: Tree, rest: seq<Token>, r: Tree, rest': seq<Token>)
    requires Continues(ts, p) && Starts(ts, QMARK) && Expr(ts[1..], 1) == Got(l, rest)
    requires Starts(rest, COLON) && Expr(rest[1..], RightLevel(QMARK)) == Got(r, rest')
    ensures Loop(t, ts, p) == Loop(Ternary(t, l, r), rest', p)
  {
    hide Expr;
  }

  lemma {:induction false} TernarySplits(t: Tree, rest: seq<Token>)
    requires t.Ternary?
    ensures Flatten(t) + rest
      == Flatten(t.c) + ([Punct(QMARK)] + (Flatten(t.l) + ([Punct(COLON)] + (Flatten(t.r) + rest))))
  {
  }

  lemma {:induction false} TernaryReads(t: Tree, rest: seq<Token>, p: nat)
    requires t.Ternary? && Grammatical(t) && p <= Level(t) && p <= UNARY_LEVEL && Stops(t, rest, RightBound(t))
    ensures Expr(Flatten(t) + rest, p) == Loop(t, rest, p)
    decreases t, 3
  {
    hide Expr, Atom, Flatten, Loop;
    var Ternary(c, l, r) := t;
    var colon := [Punct(COLON)] + (Flatten(r) + rest);
    var after := [Punct(QMARK)] + (Flatten(l) + colon);
    TernarySplits(t, rest);
    ExprReads(c, after, p);
    assert after[1..] == Flatten(l) + colon && colon[1..] == Flatten(r) + rest;
    ExprReads(l, colon, 1);
    LoopStops(l, colon, 1);
    ExprReads(r, rest, RightLevel(QMARK));
    LoopStops(r, rest, RightLevel(QMARK));
    LoopOfTernary(c, after, p, l, colon, r, rest);
  }

  /** A whole expression before a token that is no operator. */
  lemma {:induction false} InnerReads(t: Tree, rest: seq<Token>)
    requires Grammatical(t) && !Continues(rest, 0) && !StartsPostfix(rest)
    ensures Expr(Flatten(t) + rest, 0) == Got(t, rest)
    decreases t, 5
  {
    ExprReads(t, rest, 0);
  }

  lemma {:induction false} AtomReads(t: Tree, rest: seq<Token>)
    requires Grammatical(t) && UNARY_LEVEL <= Level(t) && (StartsPostfix(rest) ==> EndsInSizeofType(t))
    ensures Atom(Flatten(t) + rest) == Got(t, rest)
    decreases t, 2
  {
    hide Expr, Loop;
    if t.Unary? {
      UnaryReads(t, rest);
    } else if t.SizeofType? {
      var ts := Flatten(t) + rest;
      assert ts[1..][0] == Punct(LPAREN) && ts[3..][0] == Punct(RPAREN) && ts[4..] == rest;
    } else {
      PostfixReads(t, rest);
    }
  }

  lemma {:induction false} UnaryReads(t: Tree, rest: seq<Token>)
    requires t.Unary? && Grammatical(t) && (StartsPostfix(rest) ==> EndsInSizeofType(t))
    ensures Atom(Flatten(t) + rest) == Got(t, rest)
    decreases t, 0
  {
    hide Expr, Loop, Postfix, FlattenArgs, AllGrammatical;
    var Unary(op, e) := t;
    var ts := Flatten(t) + rest;
    assert ts[1..] == Flatten(e) + rest;
    NoType(e);
    assert Flatten(e) <= ts[1..];
    ExprReads(e, rest, UNARY_LEVEL);
    LoopStops(e, rest, UNARY_LEVEL);
  }

  /** No expression starts with a type in parentheses. */
  lemma {:induction false} NoType(t: Tree)
    requires Grammatical(t)
    ensures var ts := Flatten(t);
      && |ts| > 0 && !IsTypeSpecifier(ts[0])
      && (Starts(ts, LPAREN) ==> |ts| > 1 && !IsTypeSpecifier(ts[1]))
    decreases t
  {
    match t
    case Paren(e) => NoType(e);
    case Call(f, _) => NoType(f);
    case Index(a, _) => NoType(a);
    case Member(a, _, _) => NoType(a);
    case Binary(_, l, _) => NoType(l);
    case Ternary(c, _, _) => NoType(c);
    case _ =>
  }

  /** Reading a postfix expression goes on with the postfixes behind it. */
  lemma {:induction false} PostfixReads(t: Tree, rest: seq<Token>)
    requires Grammatical(t) && Level(t) == POSTFIX_LEVEL
    ensures Atom(Flatten(t) + rest) == Postfix(t, rest)
    decreases t, 1
  {
    hide Expr, Loop, Args;
    match t
    case Leaf(x) => assert (Flatten(t) + rest)[1..] == rest;
    case Paren(e) =>
      var after := [Punct(RPAREN)] + rest;
      assert (Flatten(t) + rest)[1..] == Flatten(e) + after && after[1..] == rest;
      InnerReads(e, after);
    case Call(f, args) => CallReads(f, args, rest);
    case Index(a, i) => IndexReads(a, i, rest);
    case Member(a, arrow, name) => MemberReads(a, arrow, name, rest);
  }

  lemma {:induction false} MemberReads(a: Tree, arrow: bool, name: string, rest: seq<Token>)
    requires Grammatical(Member(a, arrow, name))
    ensures var t := Member(a, arrow, name); Atom(Flatten(t) + rest) == Postfix(t, rest)
    decreases Member(a, arrow, name), 0
  {
    hide Expr, Loop, Args, Atom;
    var after := [Punct(if arrow then ARROW else DOT), Ident(name)] + rest;
    assert Flatten(Member(a, arrow, name)) + rest == Flatten(a) + after;
    PostfixReads(a, after);
    assert after[2..] == rest;
  }

  lemma {:induction false} CallReads(f: Tree, args: seq<Tree>, rest: seq<Token>)
    requires Grammatical(Call(f, args))
    ensures Atom(Flatten(Call(f, args)) + rest) == Postfix(Call(f, args), rest)
    decreases Call(f, args), 0
  {
    hide Expr, Loop, Args, Atom;
    var after := [Punct(LPAREN)] + (FlattenArgs(args) + ([Punct(RPAREN)] + rest));
    assert Flatten(Call(f, args)) + rest == Flatten(f) + after;
    PostfixReads(f, after);
    assert after[1..] == FlattenArgs(args) + ([Punct(RPAREN)] + rest);
    ArgsRead(args, rest);
  }

  lemma {:induction false} IndexReads(a: Tree, i: Tree, rest: seq<Token>)
    requires Grammatical(Index(a, i))
    ensures Atom(Flatten(Index(a, i)) + rest) == Postfix(Index(a, i), rest)
    decreases Index(a, i), 0
  {
    hide Expr, Loop, Args, Atom;
    var close := [Punct(RSQUARE)] + rest;
    var after := [Punct(LSQUARE)] + (Flatten(i) + close);
    assert Flatten(Index(a, i)) + rest == Flatten(a) + after;
    PostfixReads(a, after);
    assert after[1..] == Flatten(i) + close && close[1..] == rest;
    InnerReads(i, close);
  }

  lemma {:induction false} ArgsRead(args: seq<Tree>, rest: seq<Token>)
    requires AllGrammatical(args)
    ensures Args(FlattenArgs(args) + ([Punct(RPAREN)] + rest)) == GotArgs(args, rest)
    decreases args, 1
  {
    var ts := FlattenArgs(args) + ([Punct(RPAREN)] + rest);
    if args == [] {
      assert ts == [Punct(RPAREN)] + rest;
      assert ts[1..] == rest;
    } else {
      NoClosing(args[0]);
      assert Flatten(args[0]) <= FlattenArgs(args);
      ArgListReads(args, rest);
    }
  }

  lemma {:induction false} NoClosing(t: Tree)
    requires Grammatical(t)
    ensures Flatten(t) != [] && !Starts(Flatten(t), RPAREN)
    decreases t
  {
    match t
    case Call(f, _) => NoClosing(f);
    case Index(a, _) => NoClosing(a);
    case Member(a, _, _) => NoClosing(a);
    case Binary(_, l, _) => NoClosing(l);
    case Ternary(c, _, _) => NoClosing(c);
    case _ =>
  }

  lemma {:induction false} ArgListReads(args: seq<Tree>, rest: seq<Token>)
    requires args != [] && AllGrammatical(args)
    ensures ArgList(FlattenArgs(args) + ([Punct(RPAREN)] + rest)) == GotArgs(args, rest)
    decreases args, 0
  {
    hide Expr;
    var close := [Punct(RPAREN)] + rest;
    var ts := FlattenArgs(args) + close;
    assert close[1..] == rest;
    if |args| == 1 {
      InnerReads(args[0], close);
      assert args == [args[0]];
    } else {
      var after := [Punct(COMMA)] + (FlattenArgs(args[1..]) + close);
      assert ts == Flatten(args[0]) + after;
      assert after[1..] == FlattenArgs(args[1..]) + close;
      InnerReads(args[0], after);
      ArgListReads(args[1..], rest);
      assert args == [args[0]] + args[1..];
    }
  }

  // ----- the theorems -----

  /** expression(p) returns a tree and the tokens it leaves exactly when these are
      the tokens of a tree of the grammar that binds at least as tightly as p, and
      what is left does not continue it. */
  lemma {:induction false} ParsesExactlyWhen(ts: seq<Token>, p: nat, t: Tree, rest: seq<Token>)
    requires p <= UNARY_LEVEL
    ensures Expr(ts, p) == Got(t, rest) <==>
      ts == Flatten(t) + rest && Grammatical(t) && p <= Level(t) && Stops(t, rest, p)
  {
    hide Expr, Loop;
    ExprSound(ts, p);
    if ts == Flatten(t) + rest && Grammatical(t) && p <= Level(t) && Stops(t, rest, p) {
      BoundIsHigher(t, p);
      ExprReads(t, rest, p);
      LoopStops(t, rest, p);
    }
  }

  lemma {:induction false} BoundIsHigher(t: Tree, p: nat)
    requires Grammatical(t) && p <= Level(t) && p <= UNARY_LEVEL
    ensures p <= RightBound(t)
  {
  }

  /** A token sequence has at most one tree. */
  lemma {:induction false} TreesAreUnique(t: Tree, t': Tree)
    requires Grammatical(t) && Grammatical(t') && Flatten(t) == Flatten(t')
    ensures t == t'
  {
    hide Expr;
    InnerReads(t, []);
    InnerReads(t', []);
  }
}
