module Spelling {
  /** The tokens of the parser as the lexer finds them in a text: how they are spelled,
      which layouts of them are read back, and the way of a program through printer,
      text, lexer and parser. */

  import opened Options
  import T = Tokens
  import L = LexerSpec
  import LexerLaws
  import Syntax
  import Grammar
  import Statements
  import Printer

  // ----- spellings -----

  function PunctuatorText(p: T.Punctuator): string {
    match p
    case LPAREN => "(" case RPAREN => ")" case LSQUARE => "[" case RSQUARE => "]" case LCURLY => "{" case RCURLY => "}"
    case ARROW => "->" case DOT => "." case COMMA => "," case SEMICOLON => ";" case COLON => ":" case QMARK => "?"
    case ASSIGN => "=" case LOR => "||" case LAND => "&&" case EQUAL => "==" case NEQUAL => "!=" case LESS => "<"
    case PLUS => "+" case MINUS => "-" case STAR => "*" case NOT => "!" case AMPERSAND => "&"
  }

  /** The kind of a punctuator that was lexed; the parser has no use for some. */
  function PunctuatorOf(s: string): Option<T.Punctuator> {
    if s == "(" then Some(T.LPAREN) else if s == ")" then Some(T.RPAREN)
    else if s == "[" || s == "<:" then Some(T.LSQUARE) else if s == "]" || s == ":>" then Some(T.RSQUARE)
    else if s == "{" || s == "<%" then Some(T.LCURLY) else if s == "}" || s == "%>" then Some(T.RCURLY)
    else if s == "->" then Some(T.ARROW) else if s == "." then Some(T.DOT) else if s == "," then Some(T.COMMA)
    else if s == ";" then Some(T.SEMICOLON) else if s == ":" then Some(T.COLON) else if s == "?" then Some(T.QMARK)
    else if s == "=" then Some(T.ASSIGN) else if s == "||" then Some(T.LOR) else if s == "&&" then Some(T.LAND)
    else if s == "==" then Some(T.EQUAL) else if s == "!=" then Some(T.NEQUAL) else if s == "<" then Some(T.LESS)
    else if s == "+" then Some(T.PLUS) else if s == "-" then Some(T.MINUS) else if s == "*" then Some(T.STAR)
    else if s == "!" then Some(T.NOT) else if s == "&" then Some(T.AMPERSAND) else None
  }

  function KeywordText(k: T.Keyword): string {
    match k
    case GOTO => "goto" case CONTINUE => "continue" case BREAK => "break" case RETURN => "return"
    case IF => "if" case ELSE => "else" case WHILE => "while" case DO => "do" case SIZEOF => "sizeof"
    case VOID => "void" case INT => "int" case CHAR => "char" case STRUCT => "struct"
  }

  function KeywordOf(s: string): Option<T.Keyword> {
    if s == "goto" then Some(T.GOTO) else if s == "continue" then Some(T.CONTINUE) else if s == "break" then Some(T.BREAK)
    else if s == "return" then Some(T.RETURN) else if s == "if" then Some(T.IF) else if s == "else" then Some(T.ELSE)
    else if s == "while" then Some(T.WHILE) else if s == "do" then Some(T.DO) else if s == "sizeof" then Some(T.SIZEOF)
    else if s == "void" then Some(T.VOID) else if s == "int" then Some(T.INT) else if s == "char" then Some(T.CHAR)
    else if s == "struct" then Some(T.STRUCT) else None
  }

  function Spell(t: T.Token): string {
    match t
    case Ident(name) => name
    case Constant(text) => text
    case Literal(text) => text
    case Key(k) => KeywordText(k)
    case Punct(p) => PunctuatorText(p)
    case END => ""
  }

  /** What the parser makes of a token of the lexer. */
  function Classified(o: L.Outcome): Option<T.Token> {
    match o
    case Token(IDENTIFIER, text, _) => Some(T.Ident(text))
    case Token(INT_CONSTANT, text, _) => Some(T.Constant(text))
    case Token(NULLPOINTER_CONSTANT, text, _) => Some(T.Constant(text))
    case Token(KEYWORD, text, _) => (match KeywordOf(text) case Some(k) => Some(T.Key(k)) case None => None)
    case Token(PUNCTUATOR, text, _) => (match PunctuatorOf(text) case Some(p) => Some(T.Punct(p)) case None => None)
    case _ => None
  }

  /** The tokens that the parser gets from a lexed file, if it has a use for all. */
  function Read(os: seq<L.Outcome>): Option<seq<T.Token>> {
    if os == [] then None
    else if os[0].End? then Some([])
    else
      match (Classified(os[0]), Read(os[1..]))
      case (Some(t), Some(ts)) => Some([t] + ts)
      case _ => None
  }

  /** Tokens whose text is one of their kind: words that are no keywords, numbers that
      are 0 or begin with another digit. */
  predicate Spellable(t: T.Token) {
    match t
    case Ident(name) =>
      name != [] && (L.IsAlpha(name[0]) || name[0] == '_') && (forall c <- name :: L.IsIdentChar(c)) && !L.IsKeyword(name)
    case Constant(text) => text == "0" || (text != [] && text[0] != '0' && forall c <- text :: L.IsDigit(c))
    case Literal(_) => false
    case END => false
    case _ => true
  }

  // ----- layouts -----

  /** What may stand behind a token without becoming part of it. */
  predicate Follows(t: T.Token, rest: string) {
    match t
    case Punct(p) =>
      rest == [] || (!L.IsPunctuator(PunctuatorText(p) + [rest[0]]) && !L.IsPartial(PunctuatorText(p) + [rest[0]]))
    case Key(_) => rest != [] && !L.IsIdentChar(rest[0])
    case _ => rest == [] || !L.IsIdentChar(rest[0])
  }

  /** A token and the spaces and comments before it. */
  datatype Laid = Laid(gap: seq<LexerLaws.Piece>, token: T.Token)

  /** A text ends with spaces and comments, maybe with a line comment that is not ended. */
  ghost predicate IsEnd(end: string) {
    exists ps, i: nat :: LexerLaws.IsGap(ps) && i <= |end| && LexerLaws.GapText(ps) == end[..i] && LexerLaws.LastLine(end, i)
  }

  function Text(ls: seq<Laid>, end: string): string {
    if ls == [] then end else LexerLaws.GapText(ls[0].gap) + Spell(ls[0].token) + Text(ls[1..], end)
  }

  function TokensOf(ls: seq<Laid>): seq<T.Token> {
    if ls == [] then [] else [ls[0].token] + TokensOf(ls[1..])
  }

  /** Tokens are kept apart wherever they would grow together. */
  ghost predicate WellLaid(ls: seq<Laid>, end: string) {
    if ls == [] then IsEnd(end)
    else
      && LexerLaws.IsGap(ls[0].gap) && Spellable(ls[0].token) && Follows(ls[0].token, Text(ls[1..], end))
      && WellLaid(ls[1..], end)
  }

  // ----- one token -----

  lemma {:induction false} PunctuatorIsRead(p: T.Punctuator)
    ensures PunctuatorOf(PunctuatorText(p)) == Some(p) && L.IsPunctuator(PunctuatorText(p)) && 1 <= |PunctuatorText(p)| <= 2
    ensures var c := PunctuatorText(p)[0];
      !L.IsSpace(c) && c != '/' && !L.IsIdentChar(c) && c != '\'' && c != '"'
  {
    hide L.Triple;
  }

  lemma {:induction false} KeywordIsRead(k: T.Keyword)
    ensures KeywordOf(KeywordText(k)) == Some(k) && L.IsKeyword(KeywordText(k))
    ensures KeywordText(k) != [] && L.IsAlpha(KeywordText(k)[0]) && forall c <- KeywordText(k) :: L.IsIdentChar(c)
  {
  }

  lemma {:induction false} RunIs(text: string, k: nat, j: nat, digits: bool)
    requires k <= j <= |text| && forall i | k <= i < j :: if digits then L.IsDigit(text[i]) else L.IsIdentChar(text[i])
    requires j < |text| ==> !L.IsIdentChar(text[j])
    ensures L.RunEnd(text, k, digits) == j
    decreases j - k
  {
    if k < j {
      RunIs(text, k + 1, j, digits);
    }
  }

  lemma {:induction false} PunctuatorIsLongest(s: string, p: T.Punctuator)
    requires |PunctuatorText(p)| <= |s| && s[..|PunctuatorText(p)|] == PunctuatorText(p)
    requires Follows(T.Punct(p), s[|PunctuatorText(p)|..])
    ensures L.Longest(s) == |PunctuatorText(p)|
  {
    hide L.IsPunctuator, L.IsPartial, L.Longest;
    var m := |PunctuatorText(p)|;
    PunctuatorIsRead(p);
    L.LongestIsLongest(s);
    if |s| > m {
      assert s[..m + 1] == PunctuatorText(p) + [s[m..][0]];
      L.NoLonger(s, m + 1);
    }
  }

  /** The lexer finds a token where it is spelled. */
  lemma {:induction false} TokenIsRead(text: string, i: nat, t: T.Token)
    requires Spellable(t) && i + |Spell(t)| <= |text| && text[i..i + |Spell(t)|] == Spell(t)
    requires Follows(t, text[i + |Spell(t)|..])
    ensures i < |text| && !L.IsSpace(text[i]) && text[i] != '/'
    ensures L.TokenAt(text, i).1 == i + |Spell(t)| && L.TokenAt(text, i).0.Token? && Classified(L.TokenAt(text, i).0) == Some(t)
  {
    hide L.PosAfter, L.Longest, L.IsKeyword, L.RunEnd, PunctuatorOf, KeywordOf, PunctuatorText, KeywordText;
    var sp, j := Spell(t), i + |Spell(t)|;
    assert forall k | i <= k < j :: text[k] == text[i..j][k - i];
    match t
    case Punct(p) =>
      PunctuatorIsRead(p);
      assert text[i] == sp[0];
      assert text[i..][..|sp|] == sp && text[i..][|sp|..] == text[j..];
      PunctuatorIsLongest(text[i..], p);
    case Key(k) =>
      KeywordIsRead(k);
      assert text[i] == sp[0];
      RunIs(text, i + 1, j, false);
    case Ident(_) =>
      assert text[i] == sp[0];
      RunIs(text, i + 1, j, false);
    case Constant(_) =>
      assert text[i] == sp[0];
      assert sp[0] in sp && L.IsDigit(sp[0]) && (sp[0] == '0' ==> sp == "0");
      if sp != "0" {
        assert forall k | i <= k < j :: text[k] in sp;
        RunIs(text, i + 1, j, true);
      }
  }

  // ----- whole texts -----

  /** The lexer finds the tokens of a layout, whatever text precedes it. */
  lemma {:induction false} LayoutIsRead(before: string, ls: seq<Laid>, end: string)
    requires WellLaid(ls, end)
    ensures Read(L.Tokens(before + Text(ls, end), |before|)) == Some(TokensOf(ls))
    decreases ls
  {
    hide L.TokenAt, L.Skip, Spell, Spellable, Follows, L.IsSpace, Classified, LexerLaws.IsGap, LexerLaws.GapText;
    var text, k := before + Text(ls, end), |before|;
    if ls == [] {
      EndIsSkipped(before, end);
    } else {
      var rest := Text(ls[1..], end);
      var before' := before + LexerLaws.GapText(ls[0].gap) + Spell(ls[0].token);
      assert text == before' + rest;
      NextIsRead(before, ls[0], rest);
      LayoutIsRead(before', ls[1..], end);
      var os := L.Tokens(text, k);
      assert os == [L.NextToken(text, k).0] + L.Tokens(text, |before'|);
      assert os[1..] == L.Tokens(text, |before'|);
    }
  }

  lemma {:induction false} NextIsRead(before: string, laid: Laid, rest: string)
    requires LexerLaws.IsGap(laid.gap) && Spellable(laid.token) && Follows(laid.token, rest)
    ensures var own := before + LexerLaws.GapText(laid.gap) + Spell(laid.token);
      var (o, next) := L.NextToken(own + rest, |before|);
      o.Token? && Classified(o) == Some(laid.token) && next == |own|
  {
    hide L.TokenAt, L.Skip, Spell, Spellable, Follows, L.IsSpace, Classified, LexerLaws.IsGap, LexerLaws.GapText;
    var gap, t := LexerLaws.GapText(laid.gap), laid.token;
    var text, i, j := before + gap + Spell(t) + rest, |before| + |gap|, |before| + |gap| + |Spell(t)|;
    assert text[i..j] == Spell(t) && text[j..] == rest;
    TokenIsRead(text, i, t);
    assert text == before + gap + (Spell(t) + rest) && |before + gap| == i;
    LexerLaws.GapIsSkipped(before, laid.gap, Spell(t) + rest);
    LexerLaws.SkipStops(text, i);
  }

  lemma {:induction false} EndIsSkipped(before: string, end: string)
    requires IsEnd(end)
    ensures L.Skip(before + end, |before|) == L.AtEnd
  {
    hide L.Skip, LexerLaws.IsGap, LexerLaws.GapText;
    var ps, i: nat :| LexerLaws.IsGap(ps) && i <= |end| && LexerLaws.GapText(ps) == end[..i] && LexerLaws.LastLine(end, i);
    var text, k := before + end, |before| + i;
    assert text == before + end[..i] + end[i..] && |before + end[..i]| == k;
    LexerLaws.GapIsSkipped(before, ps, end[i..]);
    assert text[k..] == end[i..];
    assert k + 2 <= |text| ==> text[k + 2..] == end[i + 2..];
    LexerLaws.SkipStops(text, k);
  }

  /** With a blank behind each token, nothing grows together. */
  function Spaced(ts: seq<T.Token>): seq<Laid> {
    if ts == [] then [] else [Laid([LexerLaws.Space(' ')], ts[0])] + Spaced(ts[1..])
  }

  lemma {:induction false} SpacedIsWellLaid(ts: seq<T.Token>)
    requires forall t <- ts :: Spellable(t)
    ensures WellLaid(Spaced(ts), " ") && TokensOf(Spaced(ts)) == ts && Text(Spaced(ts), " ") != [] && Text(Spaced(ts), " ")[0] == ' '
    decreases ts
  {
    hide Spell, Spellable, Follows;
    var blank := [LexerLaws.Space(' ')];
    assert LexerLaws.IsGap(blank) && LexerLaws.GapText(blank) == " ";
    assert " "[..1] == " " && LexerLaws.LastLine(" ", 1);
    if ts != [] {
      SpacedIsWellLaid(ts[1..]);
      assert Spaced(ts)[1..] == Spaced(ts[1..]);
      BlankFollows(ts[0], Text(Spaced(ts[1..]), " "));
    }
  }

  lemma {:induction false} BlankFollows(t: T.Token, rest: string)
    requires rest != [] && rest[0] == ' '
    ensures Follows(t, rest)
  {
    if t.Punct? {
      var s := PunctuatorText(t.punct) + [' '];
      PunctuatorIsRead(t.punct);
      assert s[|s| - 1] == ' ';
    }
  }

  /** Lexing the text and parsing its tokens gives the statement. */
  ghost predicate IsTextOf(text: string, s: Statements.Stmt, depth: nat) {
    match Read(L.Tokens(text, 0))
    case None => false
    case Some(ts) => var r := Statements.Statement(ts, depth); r.GotStmt? && r.rest == [] && Printer.StripStmt(r.s) == s
  }

  /** A statement that is printed, laid out in any way that keeps its tokens apart,
      lexed and parsed comes back, exactly when no if of it would take an else. */
  lemma {:induction false} TextComesBackExactlyWhen(s: Statements.Stmt, depth: nat, ls: seq<Laid>, end: string)
    requires Printer.AbstractStmt(s, depth) && WellLaid(ls, end) && TokensOf(ls) == Printer.PrintedStmt(s)
    ensures IsTextOf(Text(ls, end), s, depth) <==> Printer.ElsesFit(s)
  {
    hide Read, L.Tokens, Statements.Statement, Printer.PrintedStmt, Printer.AbstractStmt, Printer.ElsesFit, WellLaid;
    LayoutIsRead([], ls, end);
    assert [] + Text(ls, end) == Text(ls, end);
    Printer.StatementRoundTripExactlyWhen(s, depth);
  }

  /** The same for an expression, which always comes back. */
  lemma {:induction false} ExpressionTextComesBack(t: Syntax.Tree, ls: seq<Laid>, end: string)
    requires Syntax.Abstract(t) && WellLaid(ls, end) && TokensOf(ls) == Printer.Printed(t)
    ensures Read(L.Tokens(Text(ls, end), 0)) == Some(Printer.Printed(t))
    ensures var r := Grammar.Expr(Printer.Printed(t), 0); r.Got? && r.rest == [] && Syntax.Strip(r.t) == t
  {
    hide Read, L.Tokens, Printer.Printed, WellLaid;
    LayoutIsRead([], ls, end);
    assert [] + Text(ls, end) == Text(ls, end);
    Printer.ExpressionRoundTrip(t);
  }
}
