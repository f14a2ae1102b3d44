module Syntax {
  /** Expression trees with the parentheses they were written with, and the grammar
      they follow. A tree without parentheses is an abstract syntax tree. */

  import opened Tokens

  datatype Tree =
    | Leaf(t: Token)
    | Paren(e: Tree)
    | Call(f: Tree, args: seq<Tree>)
    | Index(a: Tree, i: Tree)
    | Member(a: Tree, arrow: bool, name: string)
    | Unary(op: Token, e: Tree)
    | SizeofType(k: Keyword)
    | Binary(infix: Punctuator, l: Tree, r: Tree)
    | Ternary(c: Tree, l: Tree, r: Tree)

  // ----- operators -----

  function Prec(p: Punctuator): int {
    match p
    case COMMA => 0
    case ASSIGN => 1
    case QMARK => 2
    case LOR => 3
    case LAND => 4
    case EQUAL => 8
    case NEQUAL => 8
    case LESS => 9
    case PLUS => 11
    case MINUS => 11
    case STAR => 12
    case _ => -1
  }

  predicate IsInfix(p: Punctuator) {
    p in {LOR, EQUAL, NEQUAL, LESS, LAND, PLUS, MINUS, STAR, ASSIGN, QMARK}
  }

  predicate IsPrefix(t: Token) {
    t in {Punct(STAR), Punct(MINUS), Punct(NOT), Punct(AMPERSAND), Key(SIZEOF)}
  }

  predicate IsAtom(t: Token) {
    t.Ident? || t.Constant? || t.Literal?
  }

  const UNARY_LEVEL := 13
  const POSTFIX_LEVEL := 14

  /** How tightly the top operator of a tree binds. */
  function Level(t: Tree): int {
    match t
    case Binary(op, _, _) => Prec(op)
    case Ternary(_, _, _) => Prec(QMARK)
    case Unary(_, _) => UNARY_LEVEL
    case SizeofType(_) => UNARY_LEVEL
    case _ => POSTFIX_LEVEL
  }

  /** How tightly the operands of an infix operator must bind: the left ones of `=`
      and `?` more tightly than it, the right ones of the others. */
  function LeftLevel(op: Punctuator): int {
    if op.ASSIGN? || op.QMARK? then Prec(op) + 1 else Prec(op)
  }

  function RightLevel(op: Punctuator): int {
    if op.ASSIGN? || op.QMARK? then Prec(op) else Prec(op) + 1
  }

  /** The trees of the grammar. */
  predicate Grammatical(t: Tree) {
    match t
    case Leaf(x) => IsAtom(x)
    case Paren(e) => Grammatical(e)
    case Call(f, args) => Level(f) == POSTFIX_LEVEL && Grammatical(f) && AllGrammatical(args)
    case Index(a, i) => Level(a) == POSTFIX_LEVEL && Grammatical(a) && Grammatical(i)
    case Member(a, _, _) => Level(a) == POSTFIX_LEVEL && Grammatical(a)
    case Unary(op, e) => IsPrefix(op) && UNARY_LEVEL <= Level(e) && Grammatical(e)
    case SizeofType(k) => IsBasicType(k)
    case Binary(op, l, r) =>
      && IsInfix(op) && !op.QMARK? && Grammatical(l) && Grammatical(r)
      && LeftLevel(op) <= Level(l) && RightLevel(op) <= Level(r)
    case Ternary(c, l, r) =>
      && Grammatical(c) && Grammatical(l) && Grammatical(r)
      && LeftLevel(QMARK) <= Level(c) && RightLevel(QMARK) <= Level(r)
  }

  predicate AllGrammatical(ts: seq<Tree>) {
    ts == [] || (Grammatical(ts[0]) && AllGrammatical(ts[1..]))
  }

  // ----- the tokens of a tree -----

  function Flatten(t: Tree): seq<Token> {
    match t
    case Leaf(x) => [x]
    case Paren(e) => [Punct(LPAREN)] + Flatten(e) + [Punct(RPAREN)]
    case Call(f, args) => Flatten(f) + [Punct(LPAREN)] + FlattenArgs(args) + [Punct(RPAREN)]
    case Index(a, i) => Flatten(a) + [Punct(LSQUARE)] + Flatten(i) + [Punct(RSQUARE)]
    case Member(a, arrow, name) => Flatten(a) + [Punct(if arrow then ARROW else DOT), Ident(name)]
    case Unary(op, e) => [op] + Flatten(e)
    case SizeofType(k) => [Key(SIZEOF), Punct(LPAREN), Key(k), Punct(RPAREN)]
    case Binary(op, l, r) => Flatten(l) + [Punct(op)] + Flatten(r)
    case Ternary(c, l, r) => Flatten(c) + [Punct(QMARK)] + Flatten(l) + [Punct(COLON)] + Flatten(r)
  }

  /** Arguments, separated by commas. */
  function FlattenArgs(ts: seq<Tree>): seq<Token> {
    if ts == [] then []
    else if |ts| == 1 then Flatten(ts[0])
    else Flatten(ts[0]) + [Punct(COMMA)] + FlattenArgs(ts[1..])
  }

  // ----- without parentheses -----

  function Strip(t: Tree): Tree {
    match t
    case Leaf(_) => t
    case Paren(e) => Strip(e)
    case Call(f, args) => Call(Strip(f), StripAll(args))
    case Index(a, i) => Index(Strip(a), Strip(i))
    case Member(a, arrow, name) => Member(Strip(a), arrow, name)
    case Unary(op, e) => Unary(op, Strip(e))
    case SizeofType(_) => t
    case Binary(op, l, r) => Binary(op, Strip(l), Strip(r))
    case Ternary(c, l, r) => Ternary(Strip(c), Strip(l), Strip(r))
  }

  function StripAll(ts: seq<Tree>): (r: seq<Tree>)
    ensures |r| == |ts|
  {
    if ts == [] then [] else [Strip(ts[0])] + StripAll(ts[1..])
  }

  /** An abstract syntax tree: any nesting of operators, and no parentheses. */
  predicate Abstract(t: Tree) {
    match t
    case Leaf(x) => IsAtom(x)
    case Paren(_) => false
    case Call(f, args) => Abstract(f) && AllAbstract(args)
    case Index(a, i) => Abstract(a) && Abstract(i)
    case Member(a, _, _) => Abstract(a)
    case Unary(op, e) => IsPrefix(op) && Abstract(e)
    case SizeofType(k) => IsBasicType(k)
    case Binary(op, l, r) => IsInfix(op) && !op.QMARK? && Abstract(l) && Abstract(r)
    case Ternary(c, l, r) => Abstract(c) && Abstract(l) && Abstract(r)
  }

  predicate AllAbstract(ts: seq<Tree>) {
    ts == [] || (Abstract(ts[0]) && AllAbstract(ts[1..]))
  }

  lemma {:induction false} StrippedIsAbstract(t: Tree)
    requires Grammatical(t)
    ensures Abstract(Strip(t))
    decreases t
  {
    match t
    case Leaf(_) =>
    case Paren(e) => StrippedIsAbstract(e);
    case Call(f, args) =>
      StrippedIsAbstract(f);
      StrippedAreAbstract(args);
    case Index(a, i) =>
      StrippedIsAbstract(a);
      StrippedIsAbstract(i);
    case Member(a, _, _) => StrippedIsAbstract(a);
    case Unary(_, e) => StrippedIsAbstract(e);
    case SizeofType(_) =>
    case Binary(_, l, r) =>
      StrippedIsAbstract(l);
      StrippedIsAbstract(r);
    case Ternary(c, l, r) =>
      StrippedIsAbstract(c);
      StrippedIsAbstract(l);
      StrippedIsAbstract(r);
  }

  lemma {:induction false} StrippedAreAbstract(ts: seq<Tree>)
    requires AllGrammatical(ts)
    ensures AllAbstract(StripAll(ts))
    decreases ts
  {
    if ts != [] {
      StrippedIsAbstract(ts[0]);
      StrippedAreAbstract(ts[1..]);
      assert StripAll(ts)[1..] == StripAll(ts[1..]);
    }
  }
}
