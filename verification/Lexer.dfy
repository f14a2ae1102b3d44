/** The lexer as a program, with its one-character rewind and the partial token that
    it carries over. */
module Lexer {
  import opened Options
  import opened LexerSpec

  // ----- the file -----

  class FileTracker {
    var stream: seq<char>
    var current: char
    var position: Pos
    var storedPosition: Pos
    var lastColumn: int
    var lastChar: char

    /** The whole text, how much of it was read and not rewound, and whether the last
        call was an advance. */
    ghost const text: seq<char>
    ghost var count: nat
    ghost var rewindable: bool

    ghost predicate Valid()
      reads this
    {
      && count <= |text| && Normal(stream) == text[count..] && '\r' !in text
      && position == PosAfter(text[..count])
      && (count > 0 ==> current == text[count - 1])
      && (rewindable ==> count > 0 && lastColumn == PosAfter(text[..count - 1]).column)
      && (rewindable && count > 1 ==> lastChar == text[count - 2])
    }

    constructor (raw: seq<char>)
      ensures Valid() && text == Normal(raw) && count == 0 && !rewindable
    {
      stream, current, lastChar, lastColumn := raw, ' ', ' ', 0;
      position, storedPosition := Pos(1, 0), Pos(0, 0);
      text := Normal(raw);
      count, rewindable := 0, false;
      new;
      NoReturns(raw);
      assert text[0..] == text && text[..0] == [];
    }

    method Advance() returns (ok: bool)
      requires Valid()
      modifies this
      ensures Valid() && storedPosition == old(storedPosition)
      ensures ok == (old(count) < |text|) && count == old(count) + if ok then 1 else 0
      ensures ok ==> rewindable && current == text[count - 1]
      ensures !ok ==> current == old(current)
    {
      hide Normal, PosAfter;
      NormalFirst(stream);
      if stream == [] {
        return false;
      }
      NextPosition(text, count, First(stream));
      ghost var raw := stream;
      lastChar := current;
      current := stream[0];
      stream := stream[1..];
      lastColumn := position.column;
      position := Pos(position.line, position.column + 1);
      if current == '\n' {
        position := Pos(position.line + 1, 0);
      } else if current == '\r' {
        if stream != [] && stream[0] == '\n' {
          assert raw[2..] == stream[1..];
          stream := stream[1..];
        }
        position := Pos(position.line + 1, 0);
        current := '\n';
      }
      assert stream == Behind(raw) && current == First(raw);
      count := count + 1;
      rewindable := true;
      ok := true;
    }

    method Rewind()
      requires Valid() && rewindable
      modifies this
      ensures Valid() && storedPosition == old(storedPosition) && !rewindable
      ensures count == old(count) - 1 && (count > 0 ==> current == text[count - 1])
    {
      hide Normal, PosAfter;
      assert text[count - 1..] == [current] + text[count..];
      NextPosition(text, count - 1, current);
      assert current in text;
      NormalFirst([current] + stream);
      assert Behind([current] + stream) == stream;
      if current == '\n' {
        position := Pos(position.line - 1, lastColumn);
      } else {
        position := Pos(position.line, position.column - 1);
      }
      stream := [current] + stream;
      current := lastChar;
      count, rewindable := count - 1, false;
    }

    lemma PositionIs()
      requires Valid()
      ensures count <= |text| && position == PosAfter(text[..count])
    {
    }

    method StorePosition(p: Pos)
      requires Valid()
      modifies this`storedPosition
      ensures Valid() && storedPosition == p
    {
      storedPosition := p;
    }
  }

  /** The first character, and what is behind it; a line end of any kind is one. */
  ghost function First(raw: seq<char>): char
    requires raw != []
  {
    if raw[0] == '\r' then '\n' else raw[0]
  }

  ghost function Behind(raw: seq<char>): seq<char>
    requires raw != []
  {
    if raw[0] == '\r' && |raw| > 1 && raw[1] == '\n' then raw[2..] else raw[1..]
  }

  lemma {:induction false} NormalFirst(raw: seq<char>)
    ensures raw == [] ==> Normal(raw) == []
    ensures raw != [] ==> Normal(raw) == [First(raw)] + Normal(Behind(raw))
  {
  }

  lemma {:induction false} NoReturns(raw: seq<char>)
    ensures '\r' !in Normal(raw)
    decreases |raw|
  {
    if raw != [] {
      NormalFirst(raw);
      NoReturns(Behind(raw));
    }
  }

  /** The position behind one more character. */
  lemma {:induction false} NextPosition(text: seq<char>, k: nat, c: char)
    requires k < |text| && text[k..] != [] && text[k..][0] == c
    ensures text[k] == c && text[k + 1..] == text[k..][1..]
    ensures var p := PosAfter(text[..k]);
      PosAfter(text[..k + 1]) == if c == '\n' then Pos(p.line + 1, 0) else Pos(p.line, p.column + 1)
  {
    assert text[..k + 1][..k] == text[..k];
  }

  // ----- tokens -----

  class TokenLexer {
    const tracker: FileTracker
    /** A part of the next token that is read already. */
    var partial: seq<char>
    var notDoneYet: bool
    var tmpPos: Pos

    /** How much of the text belongs to earlier tokens. */
    ghost function Consumed(): int
      reads this, tracker
    {
      tracker.count - if notDoneYet then |partial| else 0
    }

    /** What is carried over is a dot or a percent sign, perhaps with the character
        behind it. */
    ghost predicate Valid()
      reads this, tracker
    {
      && tracker.Valid()
      && (notDoneYet ==> Carried(tracker.text, Consumed(), tracker.count, partial) && (|partial| == 2 ==> tracker.rewindable))
      && (notDoneYet ==> tmpPos == PosAfter(tracker.text[..Consumed() + 1]))
    }

    constructor (raw: seq<char>)
      ensures Valid() && fresh(tracker) && tracker.text == Normal(raw) && Consumed() == 0 && !notDoneYet
    {
      tracker := new FileTracker(raw);
      partial, notDoneYet, tmpPos := [], false, Pos(0, 0);
    }

    // ----- space and comments -----

    /** Between tokens the current character, the last one read, is looked at. */
    ghost predicate Looking()
      reads this, tracker
    {
      tracker.Valid() && !notDoneYet && 0 < tracker.count <= |tracker.text| && tracker.current == tracker.text[tracker.count - 1]
    }

    /** Reads space, up to the character behind it, which is given back. */
    method ConsumeWhitespace() returns (found: bool)
      requires Looking()
      modifies tracker
      ensures tracker.Valid() && tracker.storedPosition == old(tracker.storedPosition)
      ensures found == IsSpace(old(tracker.current))
      ensures found ==> old(tracker.count) <= tracker.count <= |tracker.text|
      ensures found ==> Skip(tracker.text, tracker.count) == Skip(tracker.text, old(tracker.count) - 1)
      ensures !found ==> Looking() && tracker.count == old(tracker.count)
    {
      hide IsSpace, FileTracker.Valid;
      ghost var text, n := tracker.text, tracker.count;
      if !IsSpace(tracker.current) {
        return false;
      }
      while IsSpace(tracker.current)
        invariant Looking() && tracker.storedPosition == old(tracker.storedPosition)
        invariant n <= tracker.count && (tracker.rewindable || tracker.count == n)
        invariant tracker.count == n ==> IsSpace(tracker.current)
        invariant Skip(text, tracker.count - 1) == Skip(text, n - 1)
        decreases |text| - tracker.count
      {
        SkipOne(text, tracker.count - 1);
        var more := tracker.Advance();
        if !more {
          return true;
        }
      }
      tracker.Rewind();
      found := true;
    }

    /** Reads a comment; `failed` when it is not closed. */
    method ConsumeComment() returns (found: bool, failed: bool)
      requires Looking()
      modifies this`tmpPos, tracker
      ensures tracker.Valid() && tracker.storedPosition == old(tracker.storedPosition)
      ensures var i := old(tracker.count) - 1;
        && (failed ==> Skip(tracker.text, i) == Unclosed(i) && tmpPos == PosAfter(tracker.text[..i + 1]))
        && (!failed && found ==> i < tracker.count <= |tracker.text|)
        && (!failed && found ==> Skip(tracker.text, tracker.count) == Skip(tracker.text, i))
        && (!failed && !found ==> Looking() && tracker.count == i + 1)
        && (!failed && !found && !IsSpace(tracker.text[i]) ==> Skip(tracker.text, i) == At(i))
    {
      hide FileTracker.Valid, CommentEnd, LineEnd, Skip, IsSpace;
      ghost var i: nat := tracker.count - 1;
      SkipAt(tracker.text, i);
      found, failed := false, false;
      tracker.PositionIs();
      tmpPos := tracker.position;
      if tracker.current != '/' {
        return;
      }
      var more := tracker.Advance();
      if !more {
        return;
      }
      if tracker.current == '*' {
        found, failed := BlockComment(i);
      } else if tracker.current == '/' {
        LineComment(i);
        found := true;
      } else {
        tracker.Rewind();
      }
    }

    /** Reads up to the star-slash that ends the comment at i. */
    method BlockComment(ghost i: nat) returns (found: bool, failed: bool)
      requires Looking() && tracker.count == i + 2
      modifies tracker
      ensures tracker.Valid() && tracker.storedPosition == old(tracker.storedPosition)
      ensures match CommentEnd(tracker.text, i + 2)
        case Some(j) => found && !failed && tracker.count == j
        case None => !found && failed
    {
      hide FileTracker.Valid;
      ghost var text := tracker.text;
      while true
        invariant Looking() && tracker.storedPosition == old(tracker.storedPosition)
        invariant i + 2 <= tracker.count && CommentEnd(text, tracker.count) == CommentEnd(text, i + 2)
        decreases |text| - tracker.count
      {
        var more := tracker.Advance();
        if !more {
          return false, true;
        }
        if tracker.current == '*' {
          var closed := SlashFollows();
          if closed {
            return true, false;
          }
        }
      }
    }

    /** After a star: whether a slash is next, which is read then. */
    method SlashFollows() returns (closed: bool)
      requires Looking()
      modifies tracker
      ensures Looking() && tracker.storedPosition == old(tracker.storedPosition)
      ensures closed <==> old(tracker.count) < |tracker.text| && tracker.text[old(tracker.count)] == '/'
      ensures tracker.count == old(tracker.count) + if closed then 1 else 0
    {
      hide FileTracker.Valid;
      var more := tracker.Advance();
      if more {
        if tracker.current == '/' {
          return true;
        }
        tracker.Rewind();
      }
      closed := false;
    }

    /** Reads the rest of a line. */
    method LineComment(ghost i: nat)
      requires Looking() && tracker.count == i + 2
      modifies tracker
      ensures tracker.Valid() && tracker.storedPosition == old(tracker.storedPosition)
      ensures tracker.count == LineEnd(tracker.text, i + 2)
    {
      hide FileTracker.Valid;
      ghost var text := tracker.text;
      while true
        invariant Looking() && tracker.storedPosition == old(tracker.storedPosition)
        invariant i + 2 <= tracker.count && LineEnd(text, tracker.count) == LineEnd(text, i + 2)
        decreases |text| - tracker.count
      {
        var more := tracker.Advance();
        if !more {
          return;
        }
        if tracker.current == '\n' {
          return;
        }
      }
    }

    // ----- words and numbers -----

    /** Reads the word that the current character begins. */
    method ConsumeIdent(first: char, ghost i: nat) returns (r: Outcome)
      requires Looking() && tracker.count == i + 1 && first == tracker.text[i] && (IsAlpha(first) || first == '_')
      requires tracker.storedPosition == PosAfter(tracker.text[..i + 1])
      modifies tracker
      ensures tracker.Valid() && (r, tracker.count) == TokenAt(tracker.text, i)
    {
      hide FileTracker.Valid, PosAfter, IsKeyword, Longest, TokenAt;
      ghost var text := tracker.text;
      TokenOfWord(text, i);
      var word := [first];
      while true
        invariant Looking() && tracker.storedPosition == PosAfter(text[..i + 1])
        invariant i + 1 <= tracker.count && word == text[i..tracker.count]
        invariant RunEnd(text, tracker.count, false) == RunEnd(text, i + 1, false)
        decreases |text| - tracker.count
      {
        var more := tracker.Advance();
        if !more {
          return Token(IDENTIFIER, word, tracker.storedPosition);
        }
        if IsIdentChar(tracker.current) {
          word := word + [tracker.current];
        } else {
          tracker.Rewind();
          return Token(if IsKeyword(word) then KEYWORD else IDENTIFIER, word, tracker.storedPosition);
        }
      }
    }

    /** Reads the number that the current character begins. */
    method ConsumeDecimal(first: char, ghost i: nat) returns (r: Outcome)
      requires Looking() && tracker.count == i + 1 && first == tracker.text[i] && IsDigit(first) && first != '0'
      requires tracker.storedPosition == PosAfter(tracker.text[..i + 1])
      modifies tracker
      ensures tracker.Valid() && r == TokenAt(tracker.text, i).0
      ensures r.Token? ==> tracker.count == TokenAt(tracker.text, i).1
    {
      hide FileTracker.Valid, PosAfter, IsKeyword, Longest;
      ghost var text := tracker.text;
      var number := [first];
      while true
        invariant Looking() && tracker.storedPosition == PosAfter(text[..i + 1])
        invariant i + 1 <= tracker.count && number == text[i..tracker.count]
        invariant RunEnd(text, tracker.count, true) == RunEnd(text, i + 1, true)
        decreases |text| - tracker.count
      {
        var more := tracker.Advance();
        if !more {
          return Token(INT_CONSTANT, number, tracker.storedPosition);
        }
        if IsDigit(tracker.current) {
          number := number + [tracker.current];
        } else if IsAlpha(tracker.current) {
          tracker.PositionIs();
          return Illegal(tracker.position);
        } else {
          tracker.Rewind();
          return Token(INT_CONSTANT, number, tracker.storedPosition);
        }
      }
    }

    /** Reads a word or a number, if the current character begins one. */
    method ConsumeIdentOrDecConstant(ghost i: nat) returns (r: Option<Outcome>)
      requires Looking() && tracker.count == i + 1 && tracker.storedPosition == PosAfter(tracker.text[..i + 1])
      modifies tracker
      ensures tracker.Valid() && (r.Some? <==> IsIdentChar(tracker.text[i]))
      ensures r.Some? ==> r.value == TokenAt(tracker.text, i).0
      ensures r.Some? && r.value.Token? ==> tracker.count == TokenAt(tracker.text, i).1
      ensures r.None? ==> Looking() && tracker.count == i + 1 && tracker.storedPosition == old(tracker.storedPosition)
    {
      hide FileTracker.Valid, PosAfter, RunEnd, IsKeyword, Longest;
      ghost var text := tracker.text;
      var first := tracker.current;
      if first == '0' {
        var more := tracker.Advance();
        if more {
          if IsAlpha(tracker.current) {
            tracker.PositionIs();
            return Some(Illegal(tracker.position));
          }
          tracker.Rewind();
        }
        r := Some(Token(NULLPOINTER_CONSTANT, "0", tracker.storedPosition));
      } else if IsAlpha(first) || first == '_' {
        var t := ConsumeIdent(first, i);
        r := Some(t);
      } else if IsDigit(first) {
        var t := ConsumeDecimal(first, i);
        r := Some(t);
      } else {
        r := None;
      }
    }

    // ----- the next token -----

    method GetNextToken() returns (r: Outcome)
      requires Valid() && 0 <= Consumed() <= |tracker.text|
      modifies this, tracker
      ensures r == NextToken(tracker.text, old(Consumed())).0
      ensures r.Token? ==> Valid() && Consumed() == NextToken(tracker.text, old(Consumed())).1
    {
      hide FileTracker.Valid, PosAfter, Skip, Longest, IsPunctuator, TokenAt;
      ghost var text, k := tracker.text, Consumed();
      if notDoneYet {
        CarriedIsToken(text, k);
        var pos := tmpPos;
        var token := ConsumePunctuator();
        return Token(PUNCTUATOR, token.value, pos);
      }
      var skipping, failed := SkipSpace();
      if failed {
        return Illegal(tmpPos);
      }
      if !skipping {
        tracker.PositionIs();
        assert text[..|text|] == text;
        return End(tracker.position);
      }
      r := ReadToken();
    }

    /** Skips space and comments; the first character of a token is read then. */
    method SkipSpace() returns (more: bool, failed: bool)
      requires tracker.Valid() && !notDoneYet && tracker.count <= |tracker.text|
      modifies this`tmpPos, tracker
      ensures tracker.Valid()
      ensures match Skip(tracker.text, old(tracker.count))
        case At(i) => more && !failed && tracker.count == i + 1 && Looking()
        case AtEnd => !more && !failed && tracker.count == |tracker.text|
        case Unclosed(i) => failed && tmpPos == PosAfter(tracker.text[..i + 1])
    {
      hide FileTracker.Valid, Skip, IsSpace;
      ghost var text, k := tracker.text, tracker.count;
      while true
        invariant tracker.Valid() && !notDoneYet && k <= tracker.count <= |text|
        invariant Skip(text, tracker.count) == Skip(text, k)
        decreases |text| - tracker.count
      {
        SkipAtEnd(text);
        more := tracker.Advance();
        if !more {
          return false, false;
        }
        var space := ConsumeWhitespace();
        if !space {
          var comment;
          comment, failed := ConsumeComment();
          if failed {
            return;
          }
          if !comment {
            return true, false;
          }
        }
      }
    }

    /** Reads the token that starts at the current character. No comment begins here:
        it would have been skipped. */
    method ReadToken() returns (r: Outcome)
      requires Looking()
      modifies this, tracker
      ensures r == TokenAt(tracker.text, old(tracker.count) - 1).0
      ensures r.Token? ==> Valid() && Consumed() == TokenAt(tracker.text, old(tracker.count) - 1).1
    {
      hide PosAfter, Normal, RunEnd, IsKeyword, Longest, IsPunctuator;
      ghost var text, i: nat := tracker.text, tracker.count - 1;
      tracker.StorePosition(tracker.position);
      if tracker.current == '\'' || tracker.current == '"' {
        return Quote(tracker.storedPosition);
      }
      var word := ConsumeIdentOrDecConstant(i);
      if word.Some? {
        return word.value;
      }
      var token := ConsumePunctuator();
      if token.None? {
        return Illegal(tracker.position);
      }
      r := Token(PUNCTUATOR, token.value, tracker.storedPosition);
    }

    // ----- punctuators -----

    /** Where the token that is read next starts, when a character of it is read. */
    ghost function Start(): int
      reads this, tracker
    {
      if notDoneYet then Consumed() else tracker.count - 1
    }

    /** Reads the longest punctuator that starts at the current character, or with
        what was carried over. */
    method ConsumePunctuator() returns (token: Option<seq<char>>)
      requires Valid() && (!notDoneYet ==> Looking())
      modifies this, tracker
      ensures Valid()
      ensures var s := tracker.text[old(Start())..];
        var n := Longest(s);
        && (n == 0 ==> token == None && tracker.count == old(Start()) + 1)
        && (n > 0 ==> token == Some(s[..n]) && Consumed() == old(Start()) + n)
      ensures tracker.storedPosition == if old(notDoneYet) then old(tmpPos) else old(tracker.storedPosition)
    {
      hide FileTracker.Valid, IsPunctuator, IsPartial, Longest, PosAfter;
      ghost var k := Start();
      ghost var s := tracker.text[k..];
      var foundPunctuator := Begin();
      ghost var stored := tracker.storedPosition;
      while true
        invariant tracker.Valid() && !notDoneYet && tracker.storedPosition == stored
        invariant Reading(s, k, foundPunctuator)
        decreases |s| - |partial|
      {
        if IsPunctuator(partial) {
          foundPunctuator := true;
          var more := Extend(s, k);
          if !more {
            return Some(partial);
          }
        } else if IsPartial(partial) {
          PartialLength(partial);
          token := ConsumePartial(s, k);
          return;
        } else if foundPunctuator {
          GiveBack(s, k);
          return Some(partial);
        } else {
          NoLonger(s, 1);
          LongestIs(s, 0);
          return None;
        }
      }
    }

    /** `partial` is the beginning of s, the text from k on. */
    ghost predicate Reading(s: seq<char>, k: int, foundPunctuator: bool)
      reads this, tracker
    {
      && 0 <= k <= |tracker.text| && s == tracker.text[k..]
      && 1 <= |partial| <= 4 && |partial| <= |s| && partial == s[..|partial|]
      && tracker.count == k + |partial|
      && (|partial| == 4 ==> !IsPunctuator(partial))
      && (if foundPunctuator
          then IsPunctuator(partial) || (|partial| > 1 && IsPunctuator(s[..|partial| - 1]) && tracker.rewindable)
          else |partial| == 1)
    }

    /** What the first characters of the token are; whether they are carried over. */
    method Begin() returns (foundPunctuator: bool)
      requires Valid() && (!notDoneYet ==> Looking())
      modifies this, tracker
      ensures tracker.Valid() && !notDoneYet && 0 <= old(Start()) < |tracker.text|
      ensures Reading(tracker.text[old(Start())..], old(Start()), foundPunctuator)
      ensures tracker.storedPosition == if old(notDoneYet) then old(tmpPos) else old(tracker.storedPosition)
    {
      hide FileTracker.Valid, IsPunctuator, IsPartial, PosAfter;
      ghost var k := Start();
      foundPunctuator := false;
      if notDoneYet {
        foundPunctuator := true;
        notDoneYet := false;
        tracker.StorePosition(tmpPos);
        CarriedStarts(partial, tracker.text, k);
      } else {
        partial := [tracker.current];
      }
    }

    /** Takes one more character after a punctuator, if there is one. */
    method Extend(ghost s: seq<char>, ghost k: int) returns (more: bool)
      requires tracker.Valid() && !notDoneYet && Reading(s, k, true) && IsPunctuator(partial)
      modifies this`partial, tracker
      ensures tracker.Valid() && tracker.storedPosition == old(tracker.storedPosition)
      ensures more ==> Reading(s, k, true) && |partial| == |old(partial)| + 1
      ensures !more ==> |partial| <= |s| && partial == old(partial) == s[..|partial|]
      ensures !more ==> Longest(s) == |partial| && tracker.count == k + |partial|
    {
      hide FileTracker.Valid, IsPunctuator, Longest;
      ghost var m := |partial|;
      more := tracker.Advance();
      if more {
        NextCharacter(s, m);
        NoFive(s, m);
        partial := partial + [tracker.current];
      } else {
        assert s == s[..m];
        WholeText(s);
      }
    }

    /** Gives back the last character: it was not part of the punctuator. */
    method GiveBack(ghost s: seq<char>, ghost k: int)
      requires tracker.Valid() && !notDoneYet && Reading(s, k, true) && !IsPunctuator(partial) && !IsPartial(partial)
      modifies this`partial, tracker
      ensures Valid() && tracker.storedPosition == old(tracker.storedPosition)
      ensures 0 < |partial| <= |s| && partial == s[..|partial|] && Longest(s) == |partial| && tracker.count == k + |partial|
    {
      hide FileTracker.Valid, IsPunctuator, Longest, IsPartial;
      ghost var m := |partial|;
      NoLonger(s, m);
      LongestIs(s, m - 1);
      tracker.Rewind();
      partial := partial[..|partial| - 1];
      assert partial == s[..m - 1];
    }

    /** After two dots, or `%:%`: the whole, or what is in front, and the rest is
        carried over. */
    method ConsumePartial(ghost s: seq<char>, ghost k: int) returns (token: Option<seq<char>>)
      requires tracker.Valid() && !notDoneYet && Reading(s, k, true) && IsPartial(partial)
      modifies this, tracker
      ensures Valid() && tracker.storedPosition == old(tracker.storedPosition)
      ensures var n := Longest(s); n > 0 && token == Some(s[..n]) && Consumed() == k + n
    {
      hide IsPunctuator, Longest, PosAfter, Normal;
      ghost var m := |partial|;
      CarriedOver(s, m);
      tmpPos := tracker.position;
      var more := tracker.Advance();
      if more {
        NextCharacter(s, m);
        partial := partial + [tracker.current];
        if IsPunctuator(partial) {
          LongAsPossible(s, m + 1);
          return Some(partial);
        }
        NotWhole(s, m);
      }
      FallsBack(s, m, more);
      token := CarryOver(s, k, m);
    }

    /** Keeps what is read of the next token. */
    method CarryOver(ghost s: seq<char>, ghost k: int, ghost m: int) returns (token: Option<seq<char>>)
      requires tracker.Valid() && 0 <= k <= |tracker.text| && s == tracker.text[k..]
      requires 2 <= m <= |partial| <= m + 1 && |partial| <= |s| && partial == s[..|partial|]
      requires m == (if s[0] == '.' then 2 else 3) && s[m - 1] == s[0] && s[0] in {'.', '%'}
      requires s[..m - 1] == (if s[0] == '.' then "." else "%:")
      requires tracker.count == k + |partial|
      requires if |partial| == m then |s| == m else tracker.rewindable && s[m] != if m == 2 then '.' else ':'
      requires tmpPos == PosAfter(tracker.text[..k + m])
      modifies this`partial, this`notDoneYet
      ensures Valid() && token == Some(s[..m - 1]) && Consumed() == k + m - 1
    {
      hide FileTracker.Valid, PosAfter;
      notDoneYet := true;
      assert partial == tracker.text[k..tracker.count];
      if partial[..2] == ".." {
        token := Some(".");
        partial := partial[1..];
      } else {
        token := Some("%:");
        partial := partial[2..];
      }
      assert partial == tracker.text[k + m - 1..tracker.count];
    }
  }

  /** A dot or a percent sign that is the whole rest of the text, or one with a
      character that does not make it longer. */
  ghost predicate Carried(text: seq<char>, k: int, count: int, p: seq<char>) {
    && 0 <= k < count <= |text| && p == text[k..count] && p[0] in {'.', '%'}
    && (if |p| == 1 then count == |text| else |p| == 2)
    && !IsPartial(p) && p != "%:"
  }

  /** What was carried over begins with a punctuator. */
  lemma CarriedStarts(p: seq<char>, text: seq<char>, k: int)
    requires Carried(text, k, k + |p|, p)
    ensures |p| <= |text[k..]| && p == text[k..][..|p|]
    ensures IsPunctuator(p) || (|p| == 2 && IsPunctuator(text[k..][..1]))
  {
    assert text[k..][..1] == [p[0]];
  }

  // ----- how far a step of ConsumeWhitespace and the others skips -----

  lemma {:induction false} SkipOne(text: seq<char>, k: nat)
    requires k < |text|
    ensures IsSpace(text[k]) ==> Skip(text, k) == Skip(text, k + 1)
  {
  }

  lemma {:induction false} SkipAtEnd(text: seq<char>)
    ensures Skip(text, |text|) == AtEnd
  {
  }

  lemma {:induction false} SkipAt(text: seq<char>, k: nat)
    requires k < |text|
    ensures var next := if k + 1 < |text| then text[k + 1] else ' ';
      && (text[k] == '/' && next == '*' ==>
            Skip(text, k) == match CommentEnd(text, k + 2) case Some(j) => Skip(text, j) case None => Unclosed(k))
      && (text[k] == '/' && next == '/' ==> Skip(text, k) == Skip(text, LineEnd(text, k + 2)))
      && (!IsSpace(text[k]) && !(text[k] == '/' && (next == '*' || next == '/')) ==> Skip(text, k) == At(k))
  {
    hide CommentEnd, LineEnd;
  }

  lemma {:induction false} TokenOfWord(text: seq<char>, i: nat)
    requires i < |text| && (IsAlpha(text[i]) || text[i] == '_')
    ensures var j := RunEnd(text, i + 1, false);
      TokenAt(text, i)
        == (Token(if j < |text| && IsKeyword(text[i..j]) then KEYWORD else IDENTIFIER, text[i..j], PosAfter(text[..i + 1])), j)
  {
    hide PosAfter, IsKeyword, Longest, RunEnd;
  }

  lemma {:induction false} TokenOfPunctuator(text: seq<char>, i: nat)
    requires i < |text| && text[i] in {'.', '%'}
    ensures Skip(text, i) == At(i)
    ensures var n := Longest(text[i..]);
      TokenAt(text, i) == if n == 0 then (Illegal(PosAfter(text[..i + 1])), i) else (Token(PUNCTUATOR, text[i..][..n], PosAfter(text[..i + 1])), i + n)
  {
    hide PosAfter, IsKeyword, Longest, RunEnd, CommentEnd, LineEnd;
  }

  lemma {:induction false} DotStarts(s: seq<char>)
    requires s != [] && s[0] in {'.', '%'}
    ensures Longest(s) > 0
  {
    assert s[..1] == [s[0]] && IsPunctuator(s[..1]);
  }

  /** What is carried over starts the next token, which is a punctuator. */
  lemma {:induction false} CarriedIsToken(text: seq<char>, k: nat)
    requires k < |text| && text[k] in {'.', '%'}
    ensures Skip(text, k) == At(k) && Longest(text[k..]) > 0
    ensures var n := Longest(text[k..]); TokenAt(text, k) == (Token(PUNCTUATOR, text[k..][..n], PosAfter(text[..k + 1])), k + n)
  {
    hide PosAfter, Longest, Skip, TokenAt;
    TokenOfPunctuator(text, k);
    DotStarts(text[k..]);
  }

  /** The tokens of a file are those that taking the longest one at a time gives,
      with the positions that a plain scan of its lines gives. */
  method Tokenize(raw: seq<char>) returns (tokens: seq<Outcome>)
    ensures tokens == Tokens(Normal(raw), 0)
  {
    hide NextToken, Normal, FileTracker.Valid;
    ghost var text := Normal(raw);
    var lexer := new TokenLexer(raw);
    tokens := [];
    while true
      invariant fresh(lexer) && fresh(lexer.tracker) && lexer.Valid() && lexer.tracker.text == text
      invariant 0 <= lexer.Consumed() <= |text|
      invariant Tokens(text, 0) == tokens + Tokens(text, lexer.Consumed())
      decreases |text| - lexer.Consumed()
    {
      var t := lexer.GetNextToken();
      tokens := tokens + [t];
      if !t.Token? {
        return;
      }
    }
  }

  // ----- prefixes -----

  lemma PartialLength(p: seq<char>)
    requires IsPartial(p)
    ensures 2 <= |p| <= 3
  {
  }

  lemma WholeText(s: seq<char>)
    requires IsPunctuator(s)
    ensures Longest(s) == |s|
  {
    LongestIsLongest(s);
    assert s[..|s|] == s;
  }

  lemma LongestIs(s: seq<char>, m: nat)
    requires m < |s| && (m > 0 ==> IsPunctuator(s[..m])) && forall k | m < k <= |s| :: !IsPunctuator(s[..k])
    ensures Longest(s) == m
  {
    LongestIsLongest(s);
  }

  lemma NextCharacter(s: seq<char>, m: nat)
    requires m < |s|
    ensures s[..m + 1] == s[..m] + [s[m]]
  {
  }

  /** What extends a punctuator has at most four characters, and is none then. */
  lemma NoFive(s: seq<char>, m: nat)
    requires m < |s| && IsPunctuator(s[..m]) && m <= 4 && (m == 4 ==> !IsPunctuator(s[..4]))
    ensures m <= 3 && (m == 3 ==> !IsPunctuator(s[..4]))
  {
    if m == 3 {
      assert s[..4][..3] == s[..3];
    }
  }

  lemma LongAsPossible(s: seq<char>, m: nat)
    requires 3 <= m <= |s| && IsPunctuator(s[..m]) && IsPartial(s[..m - 1])
    ensures Longest(s) == m
  {
    LongestIsLongest(s);
    assert |s[..m]| == m;
    if m == 3 && |s| >= 4 {
      assert s[..4][0] == s[..2][0];
    }
  }

  lemma NotWhole(s: seq<char>, m: nat)
    requires 2 <= m < |s| && IsPartial(s[..m]) && !IsPunctuator(s[..m + 1])
    ensures forall k | m + 1 <= k <= |s| :: !IsPunctuator(s[..k])
    ensures m <= 3 && s[m] != if m == 2 then '.' else ':'
  {
    assert s[..m + 1][..m] == s[..m];
    assert s[..m + 1] == s[..m] + [s[m]];
    NoLonger(s, m + 1);
  }

  /** A partial token that does not become whole is one or two shorter ones. */
  lemma FallsBack(s: seq<char>, m: nat, more: bool)
    requires 2 <= m <= |s| && IsPartial(s[..m])
    requires if more then m < |s| && (forall k | m + 1 <= k <= |s| :: !IsPunctuator(s[..k])) else m == |s|
    ensures Longest(s) == m - 1
  {
    LongestIsLongest(s);
    assert s[..m][..m - 1] == s[..m - 1];
  }

  lemma CarriedOver(s: seq<char>, m: nat)
    requires 2 <= m <= |s| && IsPartial(s[..m])
    ensures m == (if s[0] == '.' then 2 else 3) && s[m - 1] == s[0] && s[0] in {'.', '%'}
    ensures s[..m - 1] == if s[0] == '.' then "." else "%:"
  {
    assert s[m - 1] == s[..m][m - 1] && s[0] == s[..m][0];
    assert s[..m - 1] == s[..m][..m - 1];
  }
}
