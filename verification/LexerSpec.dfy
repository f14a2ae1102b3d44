/** What the lexer is to find: positions by a plain scan, and tokens by repeatedly
    taking the longest. */
module LexerSpec {
  import opened Options

  // ----- lines and columns -----

  /** The text with every line end, LF, CR or CRLF, as one newline. */
  function Normal(raw: seq<char>): seq<char>
    decreases |raw|
  {
    if raw == [] then []
    else if raw[0] == '\r' then ['\n'] + Normal(if |raw| > 1 && raw[1] == '\n' then raw[2..] else raw[1..])
    else [raw[0]] + Normal(raw[1..])
  }

  datatype Pos = Pos(line: int, column: int)

  /** The position behind a text that starts at line 1, column 0. */
  function PosAfter(text: seq<char>): Pos {
    if text == [] then Pos(1, 0)
    else
      var p := PosAfter(text[..|text| - 1]);
      if text[|text| - 1] == '\n' then Pos(p.line + 1, 0) else Pos(p.line, p.column + 1)
  }

  // ----- characters -----

  predicate IsSpace(c: char) { c in {' ', '\t', '\n', '\U{0b}', '\U{0c}', '\r'} }

  predicate IsDigit(c: char) { '0' <= c <= '9' }

  predicate IsAlpha(c: char) { 'a' <= c <= 'z' || 'A' <= c <= 'Z' }

  predicate IsIdentChar(c: char) { IsAlpha(c) || IsDigit(c) || c == '_' }

  const KEYWORDS: set<string> := {
    "_Alignas", "_Alignof", "_Atomic", "_Bool", "_Complex", "_Generic",
    "_Imaginary", "_Noreturn", "_Static_assert", "_Thread_local", "auto",
    "break", "case", "char", "const", "continue", "default", "do", "double",
    "else", "enum", "extern", "float", "for", "goto", "if", "inline", "int",
    "long", "register", "restrict", "return", "short", "signed", "sizeof",
    "static", "struct", "switch", "typedef", "union", "unsigned", "void",
    "volatile", "while"}

  function IsKeyword(s: string): bool { s in KEYWORDS }

  // ----- punctuators -----

  predicate Single(c: char) {
    c in {'[', ']', '(', ')', '{', '}', '.', '&', '*', '+', '-', '~', '!', '/', '%', '<', '>', '^', '|', '?', ':', ';', '=', ',', '#'}
  }

  predicate Double(c: char, d: char) {
    || (d == '=' && c in {'<', '>', '=', '!', '*', '/', '%', '+', '-', '&', '^', '|'})
    || (c == d && c in {'+', '-', '<', '>', '&', '|', '#'})
    || (c == '-' && d == '>')
    || (c == '<' && d in {':', '%'})
    || (c == ':' && d == '>')
    || (c == '%' && d in {'>', ':'})
  }

  predicate Triple(c: char, d: char, e: char) {
    || (c == d == e == '.')
    || (c == d && c in {'<', '>'} && e == '=')
  }

  predicate IsPunctuator(s: seq<char>) {
    || (|s| == 1 && Single(s[0]))
    || (|s| == 2 && Double(s[0], s[1]))
    || (|s| == 3 && Triple(s[0], s[1], s[2]))
    || s == "%:%:"
  }

  const ONE: set<string> := {
    "[", "]", "(", ")", "{", "}", ".", "&", "*", "+", "-", "~", "!", "/", "%", "<", ">",
    "^", "|", "?", ":", ";", "=", ",", "#"}

  const TWO: set<string> := {
    "->", "++", "--", "<<", ">>", "<=", ">=", "==", "!=", "&&", "||",
    "*=", "/=", "%=", "+=", "-=", "&=", "^=", "|=", "##", "<:", ":>", "<%", "%>", "%:"}

  const PUNCTUATORS: set<string> := ONE + TWO + {"...", "<<=", ">>=", "%:%:"}

  lemma AllArePunctuators(s: string)
    requires s in PUNCTUATORS
    ensures IsPunctuator(s)
  {
    if s in ONE {
      OneIsSingle(s);
    } else if s in TWO {
      TwoAreDouble(s);
    } else {
      hide Single, Double;
    }
  }

  lemma OneIsSingle(s: string)
    requires s in ONE
    ensures |s| == 1 && Single(s[0])
  {
  }

  lemma TwoAreDouble(s: string)
    requires s in TWO
    ensures |s| == 2 && Double(s[0], s[1])
  {
    hide Single;
  }

  lemma SingleIsListed(c: char)
    requires Single(c)
    ensures [c] in PUNCTUATORS
  {
  }

  lemma DoubleIsListed(c: char, d: char)
    requires Double(c, d)
    ensures [c, d] in PUNCTUATORS
  {
  }

  lemma TripleIsListed(c: char, d: char, e: char)
    requires Triple(c, d, e)
    ensures [c, d, e] in PUNCTUATORS
  {
  }

  /** The predicate describes the set of punctuators. */
  lemma PunctuatorsAre(s: string)
    ensures IsPunctuator(s) <==> s in PUNCTUATORS
  {
    if |s| == 1 && Single(s[0]) {
      SingleIsListed(s[0]);
      assert s == [s[0]];
    } else if |s| == 2 && Double(s[0], s[1]) {
      DoubleIsListed(s[0], s[1]);
      assert s == [s[0], s[1]];
    } else if |s| == 3 && Triple(s[0], s[1], s[2]) {
      TripleIsListed(s[0], s[1], s[2]);
      assert s == [s[0], s[1], s[2]];
    } else if s in PUNCTUATORS {
      AllArePunctuators(s);
    }
  }

  /** The length of the longest punctuator that s starts with; 0 if there is none. */
  function Longest(s: seq<char>): (n: nat)
    ensures n <= |s|
  {
    if |s| >= 4 && IsPunctuator(s[..4]) then 4
    else if |s| >= 3 && IsPunctuator(s[..3]) then 3
    else if |s| >= 2 && IsPunctuator(s[..2]) then 2
    else if |s| >= 1 && IsPunctuator(s[..1]) then 1
    else 0
  }

  /** It is a punctuator, and no longer prefix of s is one. */
  lemma LongestIsLongest(s: seq<char>)
    ensures Longest(s) > 0 ==> IsPunctuator(s[..Longest(s)])
    ensures forall k | 0 <= k <= |s| && IsPunctuator(s[..k]) :: k <= Longest(s)
  {
    forall k | 0 <= k <= |s| && IsPunctuator(s[..k])
      ensures k <= Longest(s)
    {
      assert |s[..k]| == k <= 4;
    }
  }

  /** Beginnings of punctuators that are none themselves. */
  predicate IsPartial(s: seq<char>) { s == ".." || s == "%:%" }

  /** Punctuators grow by one character at a time, but for two of them. */
  lemma PrefixOfPunctuator(p: seq<char>, m: nat)
    requires IsPunctuator(p) && 1 <= m <= |p|
    ensures IsPunctuator(p[..m]) || IsPartial(p[..m])
  {
    if m == |p| {
      assert p[..m] == p;
    }
  }

  /** A prefix that is neither a punctuator nor the beginning of one ends the search. */
  lemma NoLonger(s: seq<char>, m: nat)
    requires 1 <= m <= |s| && m <= 4 && !IsPunctuator(s[..m]) && !IsPartial(s[..m])
    ensures forall k | m <= k <= |s| :: !IsPunctuator(s[..k])
  {
    forall k | m <= k <= |s| && IsPunctuator(s[..k])
      ensures false
    {
      assert s[..k][..m] == s[..m];
      PrefixOfPunctuator(s[..k], m);
    }
  }

  // ----- space and comments -----

  datatype Skipped = At(start: nat) | AtEnd | Unclosed(start: nat)

  /** Behind the first star-slash from k on. */
  function CommentEnd(text: seq<char>, k: nat): (r: Option<nat>)
    requires k <= |text|
    ensures r.Some? ==> k + 2 <= r.value <= |text|
    decreases |text| - k
  {
    if k + 1 >= |text| then None
    else if text[k] == '*' && text[k + 1] == '/' then Some(k + 2)
    else CommentEnd(text, k + 1)
  }

  /** Behind the first newline from k on. */
  function LineEnd(text: seq<char>, k: nat): (r: nat)
    requires k <= |text|
    ensures k <= r <= |text|
    decreases |text| - k
  {
    if k == |text| then k else if text[k] == '\n' then k + 1 else LineEnd(text, k + 1)
  }

  /** Where the next token starts. */
  function Skip(text: seq<char>, k: nat): (r: Skipped)
    requires k <= |text|
    ensures r.At? || r.Unclosed? ==> k <= r.start < |text|
    decreases |text| - k
  {
    if k == |text| then AtEnd
    else if IsSpace(text[k]) then Skip(text, k + 1)
    else if text[k] == '/' && k + 1 < |text| && text[k + 1] == '*' then
      match CommentEnd(text, k + 2)
      case Some(j) => Skip(text, j)
      case None => Unclosed(k)
    else if text[k] == '/' && k + 1 < |text| && text[k + 1] == '/' then Skip(text, LineEnd(text, k + 2))
    else At(k)
  }

  // ----- tokens -----

  datatype Kind = IDENTIFIER | KEYWORD | INT_CONSTANT | NULLPOINTER_CONSTANT | PUNCTUATOR

  /** A token and where its first character is, or why there is none: the end, a
      quotation mark (quoted tokens are not part of this model), or an error; each
      with its position. */
  datatype Outcome =
    | Token(kind: Kind, text: seq<char>, pos: Pos)
    | End(pos: Pos)
    | Quote(pos: Pos)
    | Illegal(pos: Pos)

  function RunEnd(text: seq<char>, k: nat, digits: bool): (r: nat)
    requires k <= |text|
    ensures k <= r <= |text|
    decreases |text| - k
  {
    if k < |text| && (if digits then IsDigit(text[k]) else IsIdentChar(text[k])) then RunEnd(text, k + 1, digits) else k
  }

  /** The token that starts at i, and how much of the text is read then. A word that
      the text ends with is never a keyword. */
  function TokenAt(text: seq<char>, i: nat): (r: (Outcome, nat))
    requires i < |text|
    ensures r.0.Token? ==> i < r.1 <= |text|
  {
    var c, pos := text[i], PosAfter(text[..i + 1]);
    if c == '\'' || c == '"' then (Quote(pos), i)
    else if c == '0' then
      if i + 1 < |text| && IsAlpha(text[i + 1]) then (Illegal(PosAfter(text[..i + 2])), i) else (Token(NULLPOINTER_CONSTANT, "0", pos), i + 1)
    else if IsAlpha(c) || c == '_' then
      var j := RunEnd(text, i + 1, false);
      (Token(if j < |text| && IsKeyword(text[i..j]) then KEYWORD else IDENTIFIER, text[i..j], pos), j)
    else if IsDigit(c) then
      var j := RunEnd(text, i + 1, true);
      if j < |text| && IsAlpha(text[j]) then (Illegal(PosAfter(text[..j + 1])), i) else (Token(INT_CONSTANT, text[i..j], pos), j)
    else
      var n := Longest(text[i..]);
      if n == 0 then (Illegal(pos), i) else (Token(PUNCTUATOR, text[i..][..n], pos), i + n)
  }

  function NextToken(text: seq<char>, k: nat): (r: (Outcome, nat))
    requires k <= |text|
    ensures r.0.Token? ==> k < r.1 <= |text|
  {
    match Skip(text, k)
    case AtEnd => (End(PosAfter(text)), k)
    case Unclosed(i) => (Illegal(PosAfter(text[..i + 1])), k)
    case At(i) => TokenAt(text, i)
  }

  /** All tokens from k on, up to the first outcome that is none. */
  function Tokens(text: seq<char>, k: nat): seq<Outcome>
    requires k <= |text|
    decreases |text| - k
  {
    var (t, next) := NextToken(text, k);
    if t.Token? then [t] + Tokens(text, next) else [t]
  }
}
