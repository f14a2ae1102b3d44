/** The tokens that the parser reads. */
module Tokens {

  datatype Punctuator =
    | LPAREN | RPAREN | LSQUARE | RSQUARE | LCURLY | RCURLY
    | ARROW | DOT | COMMA | SEMICOLON | COLON | QMARK
    | ASSIGN | LOR | LAND | EQUAL | NEQUAL | LESS | PLUS | MINUS | STAR
    | NOT | AMPERSAND

  datatype Keyword =
    | GOTO | CONTINUE | BREAK | RETURN | IF | ELSE | WHILE | DO | SIZEOF
    | VOID | INT | CHAR | STRUCT

  /** A token; the end of the input is END. */
  datatype Token =
    | Ident(name: string)
    | Constant(text: string)
    | Literal(text: string)
    | Key(keyword: Keyword)
    | Punct(punct: Punctuator)
    | END

  predicate Starts(ts: seq<Token>, p: Punctuator) {
    ts != [] && ts[0] == Punct(p)
  }

  predicate StartsKey(ts: seq<Token>, k: Keyword) {
    ts != [] && ts[0] == Key(k)
  }

  predicate IsBasicType(k: Keyword) {
    k.VOID? || k.INT? || k.CHAR?
  }

  predicate IsTypeSpecifier(t: Token) {
    t.Key? && (IsBasicType(t.keyword) || t.keyword.STRUCT?)
  }
}
