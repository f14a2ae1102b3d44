module StandardGrammar {
  /** The productions of C11, section 6.5, for the operators that the parser knows: which
      trees a nonterminal gives for a token sequence. They name operators and other
      nonterminals only; that the parser's table of precedences describes the same
      grammar is a theorem. */

  import opened Tokens
  import opened Syntax
  import opened Grammar

  datatype Nonterminal =
    | PRIMARY | POSTFIX | UNARY | MULTIPLICATIVE | ADDITIVE | RELATIONAL | EQUALITY
    | LOGICAL_AND | LOGICAL_OR | CONDITIONAL | ASSIGNMENT

  /** Each nonterminal but the first has as one alternative that of a tighter operator
      alone. (Shifts and the bitwise operators are left out, and so is the comma: an
      expression is an assignment expression.) */
  function Below(n: Nonterminal): Nonterminal
    requires n != PRIMARY
  {
    match n
    case POSTFIX => PRIMARY
    case UNARY => POSTFIX
    case MULTIPLICATIVE => UNARY
    case ADDITIVE => MULTIPLICATIVE
    case RELATIONAL => ADDITIVE
    case EQUALITY => RELATIONAL
    case LOGICAL_AND => EQUALITY
    case LOGICAL_OR => LOGICAL_AND
    case CONDITIONAL => LOGICAL_OR
    case ASSIGNMENT => CONDITIONAL
  }

  /** An operator between two operands, with the nonterminals of these. */
  datatype Rule = Rule(left: Nonterminal, operators: set<Punctuator>, right: Nonterminal)

  /** The standard has a unary expression left of an assignment. The parser takes a
      conditional expression there: its grammar is the `wide` one. */
  function Infix(n: Nonterminal, wide: bool): Rule {
    match n
    case MULTIPLICATIVE => Rule(MULTIPLICATIVE, {STAR}, UNARY)
    case ADDITIVE => Rule(ADDITIVE, {PLUS, MINUS}, MULTIPLICATIVE)
    case RELATIONAL => Rule(RELATIONAL, {LESS}, ADDITIVE)
    case EQUALITY => Rule(EQUALITY, {EQUAL, NEQUAL}, RELATIONAL)
    case LOGICAL_AND => Rule(LOGICAL_AND, {LAND}, EQUALITY)
    case LOGICAL_OR => Rule(LOGICAL_OR, {LOR}, LOGICAL_AND)
    case ASSIGNMENT => Rule(if wide then CONDITIONAL else UNARY, {ASSIGN}, ASSIGNMENT)
    case _ => Rule(n, {}, n)
  }

  /** These two tokens stand at k and at the end. */
  predicate Between(ts: seq<Token>, k: int, open: Punctuator, close: Punctuator) {
    0 <= k < |ts| - 1 && ts[k] == Punct(open) && ts[|ts| - 1] == Punct(close)
  }

  predicate IsAt(ts: seq<Token>, k: int, p: Punctuator) {
    0 <= k < |ts| && ts[k] == Punct(p)
  }

  /** Nonterminal n derives the tokens, with tree t. */
  ghost predicate Derives(n: Nonterminal, t: Tree, ts: seq<Token>, wide: bool)
    decreases t, n != PRIMARY, Order(n)
  {
    (n != PRIMARY && Derives(Below(n), t, ts, wide)) ||
    match t
    case Leaf(x) => n == PRIMARY && (x.Ident? || x.Constant? || x.Literal?) && ts == [x]
    case Paren(e) => n == PRIMARY && Between(ts, 0, LPAREN, RPAREN) && Derives(ASSIGNMENT, e, ts[1..|ts| - 1], wide)
    case Index(a, i) =>
      n == POSTFIX && exists k ::
        Between(ts, k, LSQUARE, RSQUARE) && Derives(POSTFIX, a, ts[..k], wide) && Derives(ASSIGNMENT, i, ts[k + 1..|ts| - 1], wide)
    case Call(f, args) =>
      n == POSTFIX && exists k ::
        Between(ts, k, LPAREN, RPAREN) && Derives(POSTFIX, f, ts[..k], wide) && Arguments(args, ts[k + 1..|ts| - 1], wide)
    case Member(a, arrow, name) =>
      n == POSTFIX && |ts| > 2 && ts[|ts| - 2..] == [Punct(if arrow then ARROW else DOT), Ident(name)]
        && Derives(POSTFIX, a, ts[..|ts| - 2], wide)
    case Unary(op, e) =>
      n == UNARY && op in {Punct(AMPERSAND), Punct(STAR), Punct(MINUS), Punct(NOT), Key(SIZEOF)}
        && ts != [] && ts[0] == op && Derives(UNARY, e, ts[1..], wide)
    case SizeofType(k) =>
      n == UNARY && k in {VOID, INT, CHAR} && ts == [Key(SIZEOF), Punct(LPAREN), Key(k), Punct(RPAREN)]
    case Binary(op, l, r) =>
      var rule := Infix(n, wide);
      op in rule.operators && exists k ::
        IsAt(ts, k, op) && Derives(rule.left, l, ts[..k], wide) && Derives(rule.right, r, ts[k + 1..], wide)
    case Ternary(c, l, r) =>
      n == CONDITIONAL && exists k, m ::
        && IsAt(ts, k, QMARK) && IsAt(ts, m, COLON) && k < m && Derives(LOGICAL_OR, c, ts[..k], wide)
        && Derives(ASSIGNMENT, l, ts[k + 1..m], wide) && Derives(CONDITIONAL, r, ts[m + 1..], wide)
  }

  ghost predicate Arguments(args: seq<Tree>, ts: seq<Token>, wide: bool)
    decreases args
  {
    if args == [] then ts == []
    else if |args| == 1 then Derives(ASSIGNMENT, args[0], ts, wide)
    else exists k :: IsAt(ts, k, COMMA) && Derives(ASSIGNMENT, args[0], ts[..k], wide) && Arguments(args[1..], ts[k + 1..], wide)
  }

  /** How many alternatives lead to the first nonterminal. */
  function Order(n: Nonterminal): nat {
    match n
    case PRIMARY => 0 case POSTFIX => 1 case UNARY => 2 case MULTIPLICATIVE => 3 case ADDITIVE => 4 case RELATIONAL => 5
    case EQUALITY => 6 case LOGICAL_AND => 7 case LOGICAL_OR => 8 case CONDITIONAL => 9 case ASSIGNMENT => 10
  }

  // ----- the trees of the precedence table -----

  /** What stands left of an assignment is no operation of two or three operands. */
  predicate AssignsToUnary(t: Tree) {
    match t
    case Paren(e) => AssignsToUnary(e)
    case Call(f, args) => AssignsToUnary(f) && AllAssignToUnary(args)
    case Index(a, i) => AssignsToUnary(a) && AssignsToUnary(i)
    case Member(a, _, _) => AssignsToUnary(a)
    case Unary(_, e) => AssignsToUnary(e)
    case Binary(op, l, r) => AssignsToUnary(l) && AssignsToUnary(r) && (op.ASSIGN? ==> !l.Binary? && !l.Ternary?)
    case Ternary(c, l, r) => AssignsToUnary(c) && AssignsToUnary(l) && AssignsToUnary(r)
    case _ => true
  }

  predicate AllAssignToUnary(ts: seq<Tree>) {
    ts == [] || (AssignsToUnary(ts[0]) && AllAssignToUnary(ts[1..]))
  }

  predicate Fits(t: Tree, ts: seq<Token>, wide: bool) {
    Grammatical(t) && ts == Flatten(t) && (wide || AssignsToUnary(t))
  }

  predicate FitAll(args: seq<Tree>, ts: seq<Token>, wide: bool) {
    AllGrammatical(args) && ts == FlattenArgs(args) && (wide || AllAssignToUnary(args))
  }

  /** How tightly a tree of a nonterminal binds at least. */
  function Lowest(n: Nonterminal): int {
    match n
    case MULTIPLICATIVE => Prec(STAR)
    case ADDITIVE => Prec(PLUS)
    case RELATIONAL => Prec(LESS)
    case EQUALITY => Prec(EQUAL)
    case LOGICAL_AND => Prec(LAND)
    case LOGICAL_OR => Prec(LOR)
    case CONDITIONAL => Prec(QMARK)
    case ASSIGNMENT => Prec(ASSIGN)
    case UNARY => UNARY_LEVEL
    case _ => POSTFIX_LEVEL
  }

  /** A nonterminal gives the trees of the table that bind tightly enough. */
  lemma {:induction false} DerivesExactlyWhen(n: Nonterminal, t: Tree, ts: seq<Token>, wide: bool)
    requires n != PRIMARY
    ensures Derives(n, t, ts, wide) <==> Fits(t, ts, wide) && Lowest(n) <= Level(t)
    decreases t, Order(n), 1
  {
    if n == POSTFIX {
      PostfixTrees(t, ts, wide);
    } else {
      DerivesExactlyWhen(Below(n), t, ts, wide);
      if t.Binary? {
        BinaryTrees(n, t, ts, wide);
      } else if t.Unary? && n == UNARY {
        UnaryTrees(t, ts, wide);
      } else if t.Ternary? && n == CONDITIONAL {
        TernaryTrees(t, ts, wide);
      } else {
        OtherTrees(n, t, ts, wide);
      }
    }
  }

  lemma {:induction false} OtherTrees(n: Nonterminal, t: Tree, ts: seq<Token>, wide: bool)
    requires n != PRIMARY && n != POSTFIX && !t.Binary? && !(t.Unary? && n == UNARY) && !(t.Ternary? && n == CONDITIONAL)
    requires Derives(Below(n), t, ts, wide) <==> Fits(t, ts, wide) && Lowest(Below(n)) <= Level(t)
    ensures Derives(n, t, ts, wide) <==> Fits(t, ts, wide) && Lowest(n) <= Level(t)
  {
    hide Fits, Lowest, Level;
    if t.SizeofType? {
      SizeFits(t, ts, wide);
    }
    LevelsOfOthers(n, t);
  }

  lemma LevelsOfOthers(n: Nonterminal, t: Tree)
    requires n != PRIMARY && n != POSTFIX && !t.Binary?
    ensures !(t.Unary? && n == UNARY) && !(t.SizeofType? && n == UNARY) && !(t.Ternary? && n == CONDITIONAL)
      ==> (Lowest(n) <= Level(t) <==> Lowest(Below(n)) <= Level(t))
    ensures t.SizeofType? && n == UNARY ==> Lowest(n) <= Level(t) < Lowest(Below(n))
  {
  }

  lemma SizeFits(t: Tree, ts: seq<Token>, wide: bool)
    requires t.SizeofType?
    ensures Fits(t, ts, wide) <==> t.k in {VOID, INT, CHAR} && ts == [Key(SIZEOF), Punct(LPAREN), Key(t.k), Punct(RPAREN)]
  {
  }

  lemma {:induction false} UnaryTrees(t: Tree, ts: seq<Token>, wide: bool)
    requires t.Unary?
    ensures Derives(UNARY, t, ts, wide) <==> Fits(t, ts, wide)
    decreases t, Order(UNARY), 0
  {
    DerivesExactlyWhen(POSTFIX, t, ts, wide);
    if ts != [] {
      DerivesExactlyWhen(UNARY, t.e, ts[1..], wide);
      assert ts == [ts[0]] + ts[1..];
    }
    assert ts == Flatten(t) ==> ts[0] == t.op && ts[1..] == Flatten(t.e);
  }

  // ----- infix operators -----

  /** Operands of the right kind stand on the two sides of an operator at k. */
  predicate SplitAt(t: Tree, ts: seq<Token>, wide: bool, k: int)
    requires t.Binary?
  {
    && IsAt(ts, k, t.infix) && Fits(t.l, ts[..k], wide) && Fits(t.r, ts[k + 1..], wide)
    && LeftLevel(t.infix) <= Level(t.l) && RightLevel(t.infix) <= Level(t.r)
    && (t.infix.ASSIGN? && !wide ==> UNARY_LEVEL <= Level(t.l))
  }

  lemma {:induction false} BinaryTrees(n: Nonterminal, t: Tree, ts: seq<Token>, wide: bool)
    requires n != PRIMARY && n != POSTFIX && t.Binary?
    requires Derives(Below(n), t, ts, wide) <==> Fits(t, ts, wide) && Lowest(Below(n)) <= Level(t)
    ensures Derives(n, t, ts, wide) <==> Fits(t, ts, wide) && Lowest(n) <= Level(t)
    decreases t, Order(n), 0
  {
    hide Fits, Derives, SplitAt, Infix, Lowest, LeftLevel, RightLevel, Level;
    SplitsExactlyWhen(t, ts, wide);
    LevelOfOperator(n, t.infix, wide);
    LevelIs(t);
    JoinsExactlyWhen(n, t, ts, wide);
    if t.infix in Infix(n, wide).operators {
      forall k
        ensures SplitAt(t, ts, wide, k) <==> JoinedAt(n, t, ts, wide, k)
      {
        OperandLevels(n, t, wide);
        if IsAt(ts, k, t.infix) {
          DerivesExactlyWhen(Infix(n, wide).left, t.l, ts[..k], wide);
          DerivesExactlyWhen(Infix(n, wide).right, t.r, ts[k + 1..], wide);
        }
        SplitIs(n, t, ts, wide, k);
      }
    }
  }

  /** Between the two levels that the table and the productions ask of an operand there
      is no operator. */
  lemma OperandLevels(n: Nonterminal, t: Tree, wide: bool)
    requires t.Binary? && t.infix in Infix(n, wide).operators
    ensures var (op, rule) := (t.infix, Infix(n, wide));
      && rule.left != PRIMARY && rule.right != PRIMARY
      && Lowest(rule.left) == (if op.ASSIGN? && !wide then UNARY_LEVEL else LeftLevel(op)) && (op.ASSIGN? ==> LeftLevel(op) < UNARY_LEVEL)
      && (Grammatical(t.r) ==> (Lowest(rule.right) <= Level(t.r) <==> RightLevel(op) <= Level(t.r)))
  {
    hide Flatten, IsInfix, Grammatical;
    if t.r.Binary? && Grammatical(t.r) {
      InfixIsListed(t.r);
    }
  }

  lemma InfixIsListed(t: Tree)
    requires t.Binary? && Grammatical(t)
    ensures t.infix in {STAR, PLUS, MINUS, LESS, EQUAL, NEQUAL, LAND, LOR, ASSIGN}
  {
  }

  lemma SplitIs(n: Nonterminal, t: Tree, ts: seq<Token>, wide: bool, k: int)
    requires t.Binary? && t.infix in Infix(n, wide).operators
    ensures SplitAt(t, ts, wide, k) <==>
      && IsAt(ts, k, t.infix) && Fits(t.l, ts[..k], wide) && Lowest(Infix(n, wide).left) <= Level(t.l)
      && Fits(t.r, ts[k + 1..], wide) && Lowest(Infix(n, wide).right) <= Level(t.r)
  {
    hide Infix, Lowest, LeftLevel, RightLevel, Level, Grammatical, Flatten;
    OperandLevels(n, t, wide);
  }

  lemma LevelIs(t: Tree)
    requires t.Binary?
    ensures Level(t) == Prec(t.infix)
  {
  }

  lemma LevelOfOperator(n: Nonterminal, op: Punctuator, wide: bool)
    requires n != PRIMARY && n != POSTFIX
    ensures op in Infix(n, wide).operators ==> IsInfix(op) && !op.QMARK? && Lowest(n) == Prec(op) < Lowest(Below(n))
    ensures op !in Infix(n, wide).operators && IsInfix(op) && !op.QMARK? ==> (Lowest(n) <= Prec(op) <==> Lowest(Below(n)) <= Prec(op))
  {
  }

  ghost predicate JoinedAt(n: Nonterminal, t: Tree, ts: seq<Token>, wide: bool, k: int)
    requires t.Binary?
  {
    var rule := Infix(n, wide);
    IsAt(ts, k, t.infix) && Derives(rule.left, t.l, ts[..k], wide) && Derives(rule.right, t.r, ts[k + 1..], wide)
  }

  lemma {:induction false} JoinsExactlyWhen(n: Nonterminal, t: Tree, ts: seq<Token>, wide: bool)
    requires n != PRIMARY && t.Binary?
    ensures Derives(n, t, ts, wide)
        <==> Derives(Below(n), t, ts, wide) || (t.infix in Infix(n, wide).operators && exists k :: JoinedAt(n, t, ts, wide, k))
  {
    if k :| JoinedAt(n, t, ts, wide, k) {
      assert IsAt(ts, k, t.infix);
    }
    if Derives(n, t, ts, wide) && !Derives(Below(n), t, ts, wide) {
      var rule := Infix(n, wide);
      var k :| IsAt(ts, k, t.infix) && Derives(rule.left, t.l, ts[..k], wide) && Derives(rule.right, t.r, ts[k + 1..], wide);
      assert JoinedAt(n, t, ts, wide, k);
    }
  }

  lemma {:induction false} SplitsExactlyWhen(t: Tree, ts: seq<Token>, wide: bool)
    requires t.Binary?
    ensures (exists k :: SplitAt(t, ts, wide, k)) && IsInfix(t.infix) && !t.infix.QMARK? <==> Fits(t, ts, wide)
  {
    var l, r := Flatten(t.l), Flatten(t.r);
    if k :| SplitAt(t, ts, wide, k) {
      assert ts == ts[..k] + [ts[k]] + ts[k + 1..];
    }
    if Fits(t, ts, wide) {
      assert ts[..|l|] == l && ts[|l| + 1..] == r;
      assert SplitAt(t, ts, wide, |l|);
    }
  }

  // ----- the conditional operator -----

  predicate TernaryAt(t: Tree, ts: seq<Token>, wide: bool, k: int, m: int)
    requires t.Ternary?
  {
    && IsAt(ts, k, QMARK) && IsAt(ts, m, COLON) && k < m
    && Fits(t.c, ts[..k], wide) && Fits(t.l, ts[k + 1..m], wide) && Fits(t.r, ts[m + 1..], wide)
    && LeftLevel(QMARK) <= Level(t.c) && RightLevel(QMARK) <= Level(t.r)
  }

  lemma {:induction false} TernaryTrees(t: Tree, ts: seq<Token>, wide: bool)
    requires t.Ternary? && !Derives(LOGICAL_OR, t, ts, wide)
    ensures Derives(CONDITIONAL, t, ts, wide) <==> Fits(t, ts, wide)
    decreases t, Order(CONDITIONAL), 0
  {
    hide Fits;
    forall k, m | IsAt(ts, k, QMARK) && IsAt(ts, m, COLON) && k < m
      ensures TernaryAt(t, ts, wide, k, m) <==>
        Derives(LOGICAL_OR, t.c, ts[..k], wide) && Derives(ASSIGNMENT, t.l, ts[k + 1..m], wide) && Derives(CONDITIONAL, t.r, ts[m + 1..], wide)
    {
      DerivesExactlyWhen(LOGICAL_OR, t.c, ts[..k], wide);
      DerivesExactlyWhen(ASSIGNMENT, t.l, ts[k + 1..m], wide);
      DerivesExactlyWhen(CONDITIONAL, t.r, ts[m + 1..], wide);
      FitsBinds(t.l, ts[k + 1..m], wide);
    }
    TernaryExactlyWhen(t, ts, wide);
  }

  lemma FitsBinds(t: Tree, ts: seq<Token>, wide: bool)
    ensures Fits(t, ts, wide) ==> Lowest(ASSIGNMENT) <= Level(t)
  {
  }

  lemma {:induction false} TernaryExactlyWhen(t: Tree, ts: seq<Token>, wide: bool)
    requires t.Ternary?
    ensures (exists k, m :: TernaryAt(t, ts, wide, k, m)) <==> Fits(t, ts, wide)
  {
    hide Flatten;
    var c, l, r := Flatten(t.c), Flatten(t.l), Flatten(t.r);
    FlattenTernary(t);
    if k, m :| TernaryAt(t, ts, wide, k, m) {
      assert ts == ts[..k] + [ts[k]] + ts[k + 1..m] + [ts[m]] + ts[m + 1..];
    }
    if Fits(t, ts, wide) {
      var k, m := |c|, |c| + 1 + |l|;
      assert ts[..k] == c && ts[k + 1..m] == l && ts[m + 1..] == r;
      assert TernaryAt(t, ts, wide, k, m);
    }
  }

  lemma FlattenTernary(t: Tree)
    requires t.Ternary?
    ensures Flatten(t) == Flatten(t.c) + [Punct(QMARK)] + Flatten(t.l) + [Punct(COLON)] + Flatten(t.r)
  {
  }

  // ----- primary and postfix expressions -----

  lemma {:induction false} PostfixTrees(t: Tree, ts: seq<Token>, wide: bool)
    ensures Derives(POSTFIX, t, ts, wide) <==> Fits(t, ts, wide) && POSTFIX_LEVEL <= Level(t)
    decreases t, Order(POSTFIX), 0
  {
    match t
    case Leaf(_) =>
    case Paren(e) =>
      if Between(ts, 0, LPAREN, RPAREN) {
        DerivesExactlyWhen(ASSIGNMENT, e, ts[1..|ts| - 1], wide);
        FitsBinds(e, ts[1..|ts| - 1], wide);
      }
      ParenFits(t, ts, wide);
    case Index(a, i) =>
      forall k | Between(ts, k, LSQUARE, RSQUARE)
        ensures IndexAt(t, ts, wide, k) <==> Derives(POSTFIX, a, ts[..k], wide) && Derives(ASSIGNMENT, i, ts[k + 1..|ts| - 1], wide)
      {
        DerivesExactlyWhen(POSTFIX, a, ts[..k], wide);
        DerivesExactlyWhen(ASSIGNMENT, i, ts[k + 1..|ts| - 1], wide);
        FitsBinds(i, ts[k + 1..|ts| - 1], wide);
      }
      IndexFits(t, ts, wide);
    case Call(f, args) =>
      forall k | Between(ts, k, LPAREN, RPAREN)
        ensures CallAt(t, ts, wide, k) <==> Derives(POSTFIX, f, ts[..k], wide) && Arguments(args, ts[k + 1..|ts| - 1], wide)
      {
        DerivesExactlyWhen(POSTFIX, f, ts[..k], wide);
        ArgumentsExactlyWhen(args, ts[k + 1..|ts| - 1], wide);
      }
      CallFits(t, ts, wide);
    case Member(a, _, _) =>
      if |ts| > 2 {
        DerivesExactlyWhen(POSTFIX, a, ts[..|ts| - 2], wide);
      }
      MemberFits(t, ts, wide);
    case _ =>
  }

  lemma {:induction false} ParenFits(t: Tree, ts: seq<Token>, wide: bool)
    requires t.Paren?
    ensures Fits(t, ts, wide) <==> Between(ts, 0, LPAREN, RPAREN) && Fits(t.e, ts[1..|ts| - 1], wide)
  {
    if Between(ts, 0, LPAREN, RPAREN) {
      assert ts == [Punct(LPAREN)] + ts[1..|ts| - 1] + [Punct(RPAREN)];
    }
    if Fits(t, ts, wide) {
      assert ts[1..|ts| - 1] == Flatten(t.e);
    }
  }

  lemma {:induction false} MemberFits(t: Tree, ts: seq<Token>, wide: bool)
    requires t.Member?
    ensures Fits(t, ts, wide) <==>
      && |ts| > 2 && ts[|ts| - 2..] == [Punct(if t.arrow then ARROW else DOT), Ident(t.name)]
      && Fits(t.a, ts[..|ts| - 2], wide) && Level(t.a) == POSTFIX_LEVEL
  {
    NotEmpty(t.a);
    if |ts| > 2 {
      assert ts == ts[..|ts| - 2] + ts[|ts| - 2..];
    }
    if Fits(t, ts, wide) {
      assert ts[..|ts| - 2] == Flatten(t.a);
    }
  }

  lemma {:induction false} NotEmpty(t: Tree)
    ensures Flatten(t) != []
    decreases t
  {
    match t
    case Call(f, _) => NotEmpty(f);
    case _ =>
  }

  predicate IndexAt(t: Tree, ts: seq<Token>, wide: bool, k: int)
    requires t.Index?
  {
    && Between(ts, k, LSQUARE, RSQUARE) && Fits(t.a, ts[..k], wide) && POSTFIX_LEVEL <= Level(t.a)
    && Fits(t.i, ts[k + 1..|ts| - 1], wide)
  }

  lemma {:induction false} IndexFits(t: Tree, ts: seq<Token>, wide: bool)
    requires t.Index?
    ensures (exists k :: IndexAt(t, ts, wide, k)) <==> Fits(t, ts, wide)
  {
    if k :| IndexAt(t, ts, wide, k) {
      assert ts == ts[..k] + [ts[k]] + ts[k + 1..|ts| - 1] + [ts[|ts| - 1]];
    }
    if Fits(t, ts, wide) {
      var k := |Flatten(t.a)|;
      assert ts[..k] == Flatten(t.a) && ts[k + 1..|ts| - 1] == Flatten(t.i);
      assert IndexAt(t, ts, wide, k);
    }
  }

  predicate CallAt(t: Tree, ts: seq<Token>, wide: bool, k: int)
    requires t.Call?
  {
    && Between(ts, k, LPAREN, RPAREN) && Fits(t.f, ts[..k], wide) && POSTFIX_LEVEL <= Level(t.f)
    && FitAll(t.args, ts[k + 1..|ts| - 1], wide)
  }

  lemma {:induction false} CallFits(t: Tree, ts: seq<Token>, wide: bool)
    requires t.Call?
    ensures (exists k :: CallAt(t, ts, wide, k)) <==> Fits(t, ts, wide)
  {
    hide Flatten, FlattenArgs;
    assert Flatten(t) == Flatten(t.f) + [Punct(LPAREN)] + FlattenArgs(t.args) + [Punct(RPAREN)] by { FlattenCall(t); }
    if k :| CallAt(t, ts, wide, k) {
      assert ts == ts[..k] + [ts[k]] + ts[k + 1..|ts| - 1] + [ts[|ts| - 1]];
    }
    if Fits(t, ts, wide) {
      var k := |Flatten(t.f)|;
      assert ts[..k] == Flatten(t.f) && ts[k + 1..|ts| - 1] == FlattenArgs(t.args);
      assert CallAt(t, ts, wide, k);
    }
  }

  lemma FlattenCall(t: Tree)
    requires t.Call?
    ensures Flatten(t) == Flatten(t.f) + [Punct(LPAREN)] + FlattenArgs(t.args) + [Punct(RPAREN)]
  {
  }

  predicate ArgumentAt(args: seq<Tree>, ts: seq<Token>, wide: bool, k: int)
    requires args != []
  {
    IsAt(ts, k, COMMA) && Fits(args[0], ts[..k], wide) && FitAll(args[1..], ts[k + 1..], wide)
  }

  lemma {:induction false} ArgumentsExactlyWhen(args: seq<Tree>, ts: seq<Token>, wide: bool)
    ensures Arguments(args, ts, wide) <==> FitAll(args, ts, wide)
    decreases args
  {
    hide Fits, FitAll, Derives;
    ArgumentsFit(args, ts, wide);
    if |args| == 1 {
      DerivesExactlyWhen(ASSIGNMENT, args[0], ts, wide);
      FitsBinds(args[0], ts, wide);
    } else if |args| > 1 {
      forall k | IsAt(ts, k, COMMA)
        ensures ArgumentAt(args, ts, wide, k)
          <==> Derives(ASSIGNMENT, args[0], ts[..k], wide) && Arguments(args[1..], ts[k + 1..], wide)
      {
        DerivesExactlyWhen(ASSIGNMENT, args[0], ts[..k], wide);
        FitsBinds(args[0], ts[..k], wide);
        ArgumentsExactlyWhen(args[1..], ts[k + 1..], wide);
      }
    }
  }

  lemma {:induction false} ArgumentsFit(args: seq<Tree>, ts: seq<Token>, wide: bool)
    ensures args == [] ==> (FitAll(args, ts, wide) <==> ts == [])
    ensures |args| == 1 ==> (FitAll(args, ts, wide) <==> Fits(args[0], ts, wide))
    ensures |args| > 1 ==> (FitAll(args, ts, wide) <==> exists k :: ArgumentAt(args, ts, wide, k))
  {
    if |args| == 1 {
      assert args[1..] == [] && AllGrammatical([]) && AllAssignToUnary([]);
    } else if |args| > 1 {
      if k :| ArgumentAt(args, ts, wide, k) {
        assert ts == ts[..k] + [ts[k]] + ts[k + 1..];
      }
      if FitAll(args, ts, wide) {
        var k := |Flatten(args[0])|;
        assert ts[..k] == Flatten(args[0]) && ts[k + 1..] == FlattenArgs(args[1..]);
        assert ArgumentAt(args, ts, wide, k);
      }
    }
  }

  // ----- the theorems -----

  /** The precedence table describes the standard's grammar, but that any conditional
      expression may stand left of an assignment. */
  lemma {:induction false} GrammaticalExactlyWhen(t: Tree, ts: seq<Token>)
    ensures Grammatical(t) && ts == Flatten(t) <==> Derives(ASSIGNMENT, t, ts, true)
    ensures Derives(ASSIGNMENT, t, ts, false) <==> Derives(ASSIGNMENT, t, ts, true) && AssignsToUnary(t)
  {
    hide Derives;
    DerivesExactlyWhen(ASSIGNMENT, t, ts, true);
    DerivesExactlyWhen(ASSIGNMENT, t, ts, false);
    FitsBinds(t, ts, true);
    FitsBinds(t, ts, false);
  }

  /** What the parser reads as an expression is what the grammar derives, up to a token
      that does not continue it. */
  lemma {:induction false} ExpressionExactlyWhen(ts: seq<Token>, t: Tree, rest: seq<Token>)
    ensures Expr(ts, 0) == Got(t, rest) <==>
      exists own :: ts == own + rest && Derives(ASSIGNMENT, t, own, true) && EndsBefore(t, rest)
  {
    hide Derives, Expr, Flatten;
    ParsesExactlyWhen(ts, 0, t, rest);
    FitsBinds(t, Flatten(t), true);
    if Expr(ts, 0) == Got(t, rest) {
      GrammaticalExactlyWhen(t, Flatten(t));
    }
    forall own | ts == own + rest && Derives(ASSIGNMENT, t, own, true)
      ensures Grammatical(t) && own == Flatten(t)
    {
      GrammaticalExactlyWhen(t, own);
    }
  }

  /** The next token is no infix operator, and begins no postfix of the last operand,
      which the size of a type does not take. */
  predicate EndsBefore(t: Tree, rest: seq<Token>) {
    && (rest == [] || rest[0] !in
          {Punct(STAR), Punct(PLUS), Punct(MINUS), Punct(LESS), Punct(EQUAL), Punct(NEQUAL), Punct(LAND), Punct(LOR),
           Punct(QMARK), Punct(ASSIGN)})
    && (rest != [] && rest[0] in {Punct(LPAREN), Punct(LSQUARE), Punct(ARROW), Punct(DOT)} ==> EndsInSizeofType(t))
  }
}
