module LexerLaws {
  /** What the specification of the lexer amounts to: which characters are of which
      kind, where comments, gaps, words and numbers end, what is an error, and where a
      position is. */

  import opened Options
  import opened LexerSpec

  // ----- characters, lines and columns -----

  /** White space, digits and letters by their codes. */
  lemma CharactersAre(c: char)
    ensures IsSpace(c) <==> c as int == 32 || 9 <= c as int <= 13
    ensures IsDigit(c) <==> 48 <= c as int <= 57
    ensures IsAlpha(c) <==> 65 <= c as int <= 90 || 97 <= c as int <= 122
    ensures IsIdentChar(c) <==> IsAlpha(c) || IsDigit(c) || c as int == 95
  {
  }

  /** A carriage return, with a line feed that follows it, becomes a line feed, and
      nothing else changes. */
  lemma {:induction false} NormalIs(raw: seq<char>, more: seq<char>)
    ensures Normal([]) == []
    ensures forall c: char | c != '\r' :: Normal([c] + more) == [c] + Normal(more)
    ensures Normal("\r\n" + more) == "\n" + Normal(more)
    ensures (more == [] || more[0] != '\n') ==> Normal("\r" + more) == "\n" + Normal(more)
  {
    forall c: char | c != '\r'
      ensures Normal([c] + more) == [c] + Normal(more)
    {
      assert ([c] + more)[1..] == more;
    }
    assert ("\r\n" + more)[2..] == more && ("\r" + more)[1..] == more;
  }

  /** The line counts the newlines before it, the column the characters behind the last
      of them. */
  lemma {:induction false} PositionIs(text: seq<char>, k: nat)
    requires k <= |text| && (k > 0 ==> text[k - 1] == '\n') && '\n' !in text[k..]
    ensures PosAfter(text).line == 1 + multiset(text)['\n'] && PosAfter(text).column == |text| - k
    decreases |text|
  {
    if text != [] {
      var front, last := text[..|text| - 1], text[|text| - 1];
      assert text == front + [last];
      if k == |text| {
        LinesAre(front);
      } else {
        assert front[k..] == text[k..][..|text| - 1 - k];
        assert last in text[k..];
        PositionIs(front, k);
      }
    }
  }

  lemma {:induction false} LinesAre(text: seq<char>)
    ensures PosAfter(text).line == 1 + multiset(text)['\n']
    decreases |text|
  {
    if text != [] {
      LinesAre(text[..|text| - 1]);
      assert text == text[..|text| - 1] + [text[|text| - 1]];
    }
  }

  // ----- comments -----

  /** The two characters that end at j. */
  predicate EndsAt(text: seq<char>, j: nat, two: string)
    requires |two| == 2
  {
    2 <= j <= |text| && text[j - 2] == two[0] && text[j - 1] == two[1]
  }

  /** A comment ends behind the first star-slash, and not at all if there is none. */
  lemma {:induction false} CommentEndExactlyWhen(text: seq<char>, k: nat, j: nat)
    requires k <= |text|
    ensures CommentEnd(text, k) == Some(j)
        <==> k + 2 <= j && EndsAt(text, j, "*/") && forall i | k + 2 <= i < j :: !EndsAt(text, i, "*/")
    ensures CommentEnd(text, k) == None <==> forall i | k + 2 <= i <= |text| :: !EndsAt(text, i, "*/")
    decreases |text| - k
  {
    if k + 1 < |text| {
      if EndsAt(text, k + 2, "*/") {
        assert CommentEnd(text, k) == Some(k + 2);
      } else {
        CommentEndExactlyWhen(text, k + 1, j);
      }
    }
  }

  /** A line ends behind the first newline, or with the text. */
  lemma {:induction false} LineEndExactlyWhen(text: seq<char>, k: nat, j: nat)
    requires k <= |text|
    ensures LineEnd(text, k) == j <==>
      && k <= j <= |text| && (forall i | k <= i < j - 1 :: text[i] != '\n')
      && if j > k && text[j - 1] == '\n' then true else j == |text| && (j > k ==> text[j - 1] != '\n')
    decreases |text| - k
  {
    if k < |text| && text[k] != '\n' {
      LineEndExactlyWhen(text, k + 1, j);
    }
  }

  // ----- gaps -----

  /** What may stand between tokens. */
  datatype Piece = Space(c: char) | Block(body: string) | Line(body: string)

  predicate IsPiece(p: Piece) {
    match p
    case Space(c) => IsSpace(c)
    case Block(body) => forall j | 2 <= j < |body| + 2 :: !EndsAt(body + "*/", j, "*/")
    case Line(body) => '\n' !in body
  }

  function PieceText(p: Piece): string {
    match p
    case Space(c) => [c]
    case Block(body) => "/*" + body + "*/"
    case Line(body) => "//" + body + "\n"
  }

  function GapText(ps: seq<Piece>): string {
    if ps == [] then "" else PieceText(ps[0]) + GapText(ps[1..])
  }

  predicate IsGap(ps: seq<Piece>) { forall p <- ps :: IsPiece(p) }

  /** At i begins neither space nor a comment. */
  predicate StartsToken(text: seq<char>, i: nat) {
    && i < |text| && !IsSpace(text[i])
    && (text[i] == '/' && i + 1 < |text| ==> text[i + 1] != '*' && text[i + 1] != '/')
  }

  /** At i begins a comment that is not closed. */
  predicate StartsUnclosed(text: seq<char>, i: nat) {
    i + 1 < |text| && text[i] == '/' && text[i + 1] == '*' && forall j | i + 4 <= j <= |text| :: !EndsAt(text, j, "*/")
  }

  /** From i on there is nothing but, maybe, a line comment. */
  predicate LastLine(text: seq<char>, i: nat) {
    i == |text| || (i + 1 < |text| && text[i] == '/' && text[i + 1] == '/' && '\n' !in text[i + 2..])
  }

  /** What Skip does at k, by what begins there. */
  lemma {:induction false} SkipStep(text: seq<char>, k: nat)
    requires k < |text|
    ensures IsSpace(text[k]) ==> Skip(text, k) == Skip(text, k + 1)
    ensures k + 1 < |text| && text[k] == '/' && text[k + 1] == '*' ==>
      Skip(text, k) == match CommentEnd(text, k + 2) case Some(j) => Skip(text, j) case None => Unclosed(k)
    ensures k + 1 < |text| && text[k] == '/' && text[k + 1] == '/' ==> Skip(text, k) == Skip(text, LineEnd(text, k + 2))
    ensures StartsToken(text, k) ==> Skip(text, k) == At(k)
  {
    hide CommentEnd, LineEnd;
    SlashIsNoSpace();
  }

  lemma {:induction false} PieceIsSkipped(before: string, p: Piece, rest: string)
    requires IsPiece(p)
    ensures var text := before + PieceText(p) + rest;
      Skip(text, |before|) == Skip(text, |before + PieceText(p)|)
  {
    hide IsSpace, CommentEnd, LineEnd, Skip;
    var text, k := before + PieceText(p) + rest, |before|;
    SkipStep(text, k);
    match p
    case Space(c) => assert text[k] == c;
    case Block(body) => BlockIsSkipped(before, body, rest);
    case Line(body) => LineIsSkipped(before, body, rest);
  }

  lemma {:induction false} BlockIsSkipped(before: string, body: string, rest: string)
    requires IsPiece(Block(body))
    ensures var (text, k) := (before + ("/*" + body + "*/") + rest, |before|);
      k + 1 < |text| && text[k] == '/' && text[k + 1] == '*' && CommentEnd(text, k + 2) == Some(k + 4 + |body|)
  {
    hide CommentEnd;
    var text, k := before + ("/*" + body + "*/") + rest, |before|;
    var closed := body + "*/";
    assert text == before + "/*" + closed + rest;
    assert forall i | 0 <= i < |closed| :: text[k + 2 + i] == closed[i];
    forall i | k + 4 <= i < k + 4 + |body|
      ensures !EndsAt(text, i, "*/")
    {
      assert !EndsAt(closed, i - k - 2, "*/");
    }
    assert closed[|body|] == '*' && closed[|body| + 1] == '/';
    CommentEndExactlyWhen(text, k + 2, k + 4 + |body|);
  }

  lemma {:induction false} LineIsSkipped(before: string, body: string, rest: string)
    requires IsPiece(Line(body))
    ensures var (text, k) := (before + ("//" + body + "\n") + rest, |before|);
      k + 1 < |text| && text[k] == '/' && text[k + 1] == '/' && LineEnd(text, k + 2) == k + 3 + |body|
  {
    hide LineEnd;
    var text, k := before + ("//" + body + "\n") + rest, |before|;
    var line := body + "\n";
    assert text == before + "//" + line + rest;
    assert forall i | 0 <= i < |line| :: text[k + 2 + i] == line[i];
    forall i | k + 2 <= i < k + 2 + |body|
      ensures text[i] != '\n'
    {
      assert line[i - k - 2] in body;
    }
    assert line[|body|] == '\n';
    LineEndExactlyWhen(text, k + 2, k + 3 + |body|);
  }

  lemma SlashIsNoSpace()
    ensures !IsSpace('/')
  {
  }

  lemma {:induction false} GapIsSkipped(before: string, ps: seq<Piece>, rest: string)
    requires IsGap(ps)
    ensures var text := before + GapText(ps) + rest;
      Skip(text, |before|) == Skip(text, |before + GapText(ps)|)
    decreases ps
  {
    hide Skip, IsPiece, PieceText;
    var text := before + GapText(ps) + rest;
    if ps == [] {
      assert before + GapText(ps) == before;
    } else {
      var p, more := ps[0], GapText(ps[1..]);
      var before' := before + PieceText(p);
      assert text == before + PieceText(p) + (more + rest);
      PieceIsSkipped(before, p, more + rest);
      assert text == before' + more + rest;
      GapIsSkipped(before', ps[1..], rest);
      assert before + GapText(ps) == before' + more;
    }
  }

  /** What Skip passes over is a gap. */
  lemma {:induction false} SkippedIsGap(text: seq<char>, k: nat) returns (ps: seq<Piece>, i: nat)
    requires k <= |text|
    ensures IsGap(ps) && k <= i <= |text| && text[k..i] == GapText(ps)
    ensures match Skip(text, k)
      case At(j) => j == i && StartsToken(text, i)
      case Unclosed(j) => j == i && StartsUnclosed(text, i)
      case AtEnd => LastLine(text, i)
    decreases |text| - k
  {
    hide IsSpace, CommentEnd, LineEnd, Skip, IsGap, GapText, IsPiece, PieceText;
    NoGap(text, k);
    if k < |text| {
      SkipStep(text, k);
    }
    if k == |text| {
      ps, i := [], k;
      EndIsReached(text, k);
    } else if IsSpace(text[k]) {
      OneSpace(text, k);
      ps, i := SkippedIsGap(text, k + 1);
      ps := Prefixed(text, k, k + 1, i, Space(text[k]), ps);
    } else if text[k] == '/' && k + 1 < |text| && text[k + 1] == '*' {
      match CommentEnd(text, k + 2)
      case Some(j) =>
        ps, i := SkippedIsGap(text, j);
        BlockAt(text, k, j);
        ps := Prefixed(text, k, j, i, Block(text[k + 2..j - 2]), ps);
      case None =>
        CommentEndExactlyWhen(text, k + 2, 0);
        ps, i := [], k;
    } else if text[k] == '/' && k + 1 < |text| && text[k + 1] == '/' {
      var j := LineEnd(text, k + 2);
      LineEndExactlyWhen(text, k + 2, j);
      if j > k + 2 && text[j - 1] == '\n' {
        ps, i := SkippedIsGap(text, j);
        LineAt(text, k, j);
        ps := Prefixed(text, k, j, i, Line(text[k + 2..j - 1]), ps);
      } else {
        ps, i := [], k;
        EndIsReached(text, j);
      }
    } else {
      ps, i := [], k;
    }
  }

  lemma NoGap(text: seq<char>, k: nat)
    requires k <= |text|
    ensures IsGap([]) && text[k..k] == GapText([])
  {
  }

  lemma OneSpace(text: seq<char>, k: nat)
    requires k < |text| && IsSpace(text[k])
    ensures IsPiece(Space(text[k])) && text[k..k + 1] == PieceText(Space(text[k]))
  {
  }

  lemma {:induction false} LineAt(text: seq<char>, k: nat, j: nat)
    requires k + 2 < j <= |text| && text[k] == '/' && text[k + 1] == '/' && text[j - 1] == '\n'
    requires forall i | k + 2 <= i < j - 1 :: text[i] != '\n'
    ensures IsPiece(Line(text[k + 2..j - 1])) && text[k..j] == PieceText(Line(text[k + 2..j - 1]))
  {
    assert text[k..j] == "//" + text[k + 2..j - 1] + "\n";
  }

  lemma {:induction false} BlockAt(text: seq<char>, k: nat, j: nat)
    requires k + 1 < |text| && text[k] == '/' && text[k + 1] == '*' && CommentEnd(text, k + 2) == Some(j)
    ensures IsPiece(Block(text[k + 2..j - 2])) && text[k..j] == PieceText(Block(text[k + 2..j - 2]))
  {
    CommentEndExactlyWhen(text, k + 2, j);
    var body := text[k + 2..j - 2];
    var closed := body + "*/";
    assert forall m | 0 <= m < |closed| :: closed[m] == text[k + 2 + m];
    forall m | 2 <= m < |body| + 2
      ensures !EndsAt(closed, m, "*/")
    {
      assert !EndsAt(text, k + 2 + m, "*/");
    }
    assert text[k..j] == "/*" + body + "*/";
  }

  lemma EndIsReached(text: seq<char>, j: nat)
    requires j == |text|
    ensures Skip(text, j) == AtEnd
  {
  }

  lemma {:induction false} Prefixed(text: seq<char>, k: nat, j: nat, i: nat, p: Piece, ps: seq<Piece>) returns (ps': seq<Piece>)
    requires k <= j <= i <= |text| && IsPiece(p) && IsGap(ps) && text[k..j] == PieceText(p) && text[j..i] == GapText(ps)
    ensures IsGap(ps') && text[k..i] == GapText(ps')
  {
    ps' := [p] + ps;
    assert ps'[1..] == ps;
    assert text[k..i] == text[k..j] + text[j..i];
  }

  /** The next token starts behind a gap, where neither space nor a comment begins; an
      error is the start of a comment that is not closed; otherwise the text ends, maybe
      with a line comment. */
  lemma {:induction false} SkipExactlyWhen(text: seq<char>, k: nat, i: nat)
    requires k <= i <= |text|
    ensures Skip(text, k) == At(i) <==> StartsToken(text, i) && exists ps :: IsGap(ps) && text[k..i] == GapText(ps)
    ensures Skip(text, k) == Unclosed(i) <==> StartsUnclosed(text, i) && exists ps :: IsGap(ps) && text[k..i] == GapText(ps)
    ensures LastLine(text, i) && (exists ps :: IsGap(ps) && text[k..i] == GapText(ps)) ==> Skip(text, k) == AtEnd
    ensures Skip(text, k) == AtEnd ==> exists j, ps :: k <= j <= |text| && LastLine(text, j) && IsGap(ps) && text[k..j] == GapText(ps)
  {
    hide Skip, IsGap, GapText;
    var ps0, i0 := SkippedIsGap(text, k);
    if ps :| IsGap(ps) && text[k..i] == GapText(ps) {
      var before, rest := text[..k], text[i..];
      assert text == before + GapText(ps) + rest && |before + GapText(ps)| == i;
      GapIsSkipped(before, ps, rest);
      SkipStops(text, i);
    }
  }

  lemma {:induction false} SkipStops(text: seq<char>, i: nat)
    requires i <= |text|
    ensures StartsToken(text, i) ==> Skip(text, i) == At(i)
    ensures StartsUnclosed(text, i) ==> Skip(text, i) == Unclosed(i)
    ensures LastLine(text, i) ==> Skip(text, i) == AtEnd
  {
    hide IsSpace, CommentEnd, LineEnd, Skip;
    SlashIsNoSpace();
    if i < |text| {
      SkipStep(text, i);
    } else {
      EndIsReached(text, i);
    }
    if StartsUnclosed(text, i) {
      CommentEndExactlyWhen(text, i + 2, 0);
    } else if LastLine(text, i) && i < |text| {
      LineEndExactlyWhen(text, i + 2, |text|);
      assert forall m | i + 2 <= m < |text| :: text[m] in text[i + 2..];
      EndIsReached(text, |text|);
    }
  }

  // ----- words and numbers -----

  predicate OfRun(c: char, digits: bool) { if digits then IsDigit(c) else IsIdentChar(c) }

  /** A run ends with its last character. */
  lemma {:induction false} RunEndExactlyWhen(text: seq<char>, k: nat, digits: bool, j: nat)
    requires k <= |text|
    ensures RunEnd(text, k, digits) == j <==>
      k <= j <= |text| && (forall i | k <= i < j :: OfRun(text[i], digits)) && (j < |text| ==> !OfRun(text[j], digits))
    decreases |text| - k
  {
    if k < |text| && OfRun(text[k], digits) {
      RunEndExactlyWhen(text, k + 1, digits, j);
    }
  }

  /** The characters from i to j are the longest word, or number, there. */
  predicate IsRun(text: seq<char>, i: nat, j: nat, digits: bool) {
    && i < j <= |text| && (forall m | i <= m < j :: OfRun(text[m], digits)) && (j < |text| ==> !OfRun(text[j], digits))
  }

  /** A word is read to its end; it is a keyword if it is listed and does not end the
      text. */
  lemma {:induction false} WordExactlyWhen(text: seq<char>, i: nat, j: nat)
    requires i < |text| && (IsAlpha(text[i]) || text[i] == '_')
    ensures TokenAt(text, i).1 == j <==> IsRun(text, i, j, false)
    ensures var (o, next) := TokenAt(text, i);
      && o.Token? && o.text == text[i..next] && o.pos == PosAfter(text[..i + 1])
      && o.kind == if next < |text| && o.text in KEYWORDS then KEYWORD else IDENTIFIER
  {
    hide PosAfter, Longest, RunEnd;
    RunEndExactlyWhen(text, i + 1, false, j);
    RunEndExactlyWhen(text, i + 1, false, RunEnd(text, i + 1, false));
  }

  /** A number is one zero or the longest run of digits, and a letter directly behind it
      is an error. */
  lemma {:induction false} NumberExactlyWhen(text: seq<char>, i: nat, j: nat)
    requires i < |text| && IsDigit(text[i])
    requires if text[i] == '0' then j == i + 1 else IsRun(text, i, j, true)
    ensures TokenAt(text, i).0 ==
      if j < |text| && IsAlpha(text[j]) then Illegal(PosAfter(text[..j + 1]))
      else Token(if text[i] == '0' then NULLPOINTER_CONSTANT else INT_CONSTANT, text[i..j], PosAfter(text[..i + 1]))
    ensures TokenAt(text, i).0.Token? ==> TokenAt(text, i).1 == j
  {
    hide PosAfter, Longest, RunEnd;
    if text[i] != '0' {
      RunEndExactlyWhen(text, i + 1, true, j);
    } else {
      assert text[i..j] == "0";
    }
  }

  /** The first n characters are in the list of punctuators, and no more are. */
  predicate IsLongest(s: seq<char>, n: nat) {
    0 < n <= |s| && s[..n] in PUNCTUATORS && forall m | n < m <= |s| :: s[..m] !in PUNCTUATORS
  }

  /** Anything else is a quote, the longest punctuator of the list, or an error. */
  lemma {:induction false} OtherExactlyWhen(text: seq<char>, i: nat, n: nat)
    requires i < |text| && !IsIdentChar(text[i])
    ensures TokenAt(text, i).0.Quote? <==> text[i] == '\'' || text[i] == '"'
    ensures !TokenAt(text, i).0.Quote? && IsLongest(text[i..], n) ==>
      TokenAt(text, i) == (Token(PUNCTUATOR, text[i..i + n], PosAfter(text[..i + 1])), i + n)
    ensures !TokenAt(text, i).0.Quote? && (forall m | 0 < m <= |text[i..]| :: text[i..][..m] !in PUNCTUATORS) ==>
      TokenAt(text, i).0 == Illegal(PosAfter(text[..i + 1]))
  {
    hide PosAfter, Longest, RunEnd, PUNCTUATORS, IsLongest;
    var s := text[i..];
    ListedExactlyWhen(s, n);
    if IsLongest(s, n) {
      assert s[..n] == text[i..i + n];
    }
  }

  lemma {:induction false} ListedExactlyWhen(s: seq<char>, n: nat)
    ensures IsLongest(s, n) ==> Longest(s) == n && 0 < n <= |s|
    ensures (forall m | 0 < m <= |s| :: s[..m] !in PUNCTUATORS) ==> Longest(s) == 0
  {
    hide Longest, IsPunctuator, PUNCTUATORS;
    LongestIsLongest(s);
    forall m | 0 <= m <= |s|
      ensures IsPunctuator(s[..m]) <==> s[..m] in PUNCTUATORS
    {
      PunctuatorsAre(s[..m]);
    }
  }
}
