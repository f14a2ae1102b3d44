module DeclaratorForm {
  /** Where the printer writes parentheses around the parts of a declarator, and that it
      writes nothing else than the declarator. */

  import opened Options
  import opened Tokens
  import opened Declarators
  import opened DeclaratorSyntax
  import opened DeclaratorPrinter

  predicate IsParenthesis(t: Token) { t == Punct(LPAREN) || t == Punct(RPAREN) }

  /** The tokens that are no parentheses. */
  function Bare(ts: seq<Token>): seq<Token> {
    if ts == [] then []
    else if IsParenthesis(ts[0]) then Bare(ts[1..])
    else [ts[0]] + Bare(ts[1..])
  }

  function Count(ts: seq<Token>, t: Token): nat {
    if ts == [] then 0 else (if ts[0] == t then 1 else 0) + Count(ts[1..], t)
  }

  /** Both kinds of parentheses occur n times in the tokens. */
  predicate HasPairs(ts: seq<Token>, n: nat) {
    Count(ts, Punct(LPAREN)) == n && Count(ts, Punct(RPAREN)) == n
  }

  // ----- the pairs of parentheses of a declarator -----

  /** One pair for each star and for each parameter list; one for each name and each
      nested declarator that has lists; and behind a nested declarator one more for each
      list but the last. */
  function Pairs(d: Declarator): nat {
    d.stars + if d.direct.None? then 0 else PairsOf(d.direct.value)
  }

  function PairsOf(d: Direct): nat {
    (if d.help == [] then 0 else 1) + PairsOfLists(d.help) +
    match d
    case Name(_, _) => 0
    case Nested(inner, help) =>
      (if inner.None? then 0 else Pairs(inner.value)) + (if help == [] then 0 else |help| - 1)
  }

  function PairsOfLists(help: seq<Help>): nat {
    if help == [] then 0 else PairsOfList(help[0]) + PairsOfLists(help[1..])
  }

  function PairsOfList(h: Help): nat {
    1 + if h.EmptyList? then 0 else PairsOfParams(h.params)
  }

  function PairsOfParams(ps: seq<Parameter>): nat {
    if ps == [] then 0 else PairsOfParam(ps[0]) + PairsOfParams(ps[1..])
  }

  function PairsOfParam(p: Parameter): nat {
    if p.declarator.None? then 0 else Pairs(p.declarator.value)
  }

  // ----- tokens in sequence -----

  lemma {:induction false} BareSum(a: seq<Token>, b: seq<Token>)
    ensures Bare(a + b) == Bare(a) + Bare(b)
    decreases a
  {
    if a == [] {
      assert a + b == b;
    } else {
      BareSum(a[1..], b);
      assert (a + b)[1..] == a[1..] + b;
    }
  }

  lemma {:induction false} CountSum(a: seq<Token>, b: seq<Token>, t: Token)
    ensures Count(a + b, t) == Count(a, t) + Count(b, t)
    decreases a
  {
    if a == [] {
      assert a + b == b;
    } else {
      CountSum(a[1..], b, t);
      assert (a + b)[1..] == a[1..] + b;
    }
  }

  /** The tokens of p are those of w but for parentheses, of which p has n pairs. */
  predicate Prints(p: seq<Token>, w: seq<Token>, n: nat) {
    Bare(p) == Bare(w) && HasPairs(p, n)
  }

  lemma {:induction false} PrintsSum(p: seq<Token>, w: seq<Token>, n: nat, p': seq<Token>, w': seq<Token>, n': nat)
    requires Prints(p, w, n) && Prints(p', w', n')
    ensures Prints(p + p', w + w', n + n')
  {
    hide Bare, Count;
    BareSum(p, p');
    BareSum(w, w');
    CountSum(p, p', Punct(LPAREN));
    CountSum(p, p', Punct(RPAREN));
  }

  lemma {:induction false} PairAround(p: seq<Token>, w: seq<Token>, n: nat)
    requires Prints(p, w, n)
    ensures Prints([Punct(LPAREN)] + p + [Punct(RPAREN)], w, n + 1)
    ensures Prints(p, [Punct(LPAREN)] + w + [Punct(RPAREN)], n)
  {
    hide Bare, Count;
    var open, close := [Punct(LPAREN)], [Punct(RPAREN)];
    ParenthesesAre();
    forall ts: seq<Token>
      ensures Bare(open + ts + close) == Bare(ts)
    {
      BareSum(open, ts);
      BareSum(open + ts, close);
    }
    CountSum(open, p, Punct(LPAREN));
    CountSum(open, p, Punct(RPAREN));
    CountSum(open + p, close, Punct(LPAREN));
    CountSum(open + p, close, Punct(RPAREN));
  }

  lemma ParenthesesAre()
    ensures Bare([]) == [] && Bare([Punct(LPAREN)]) == [] && Bare([Punct(RPAREN)]) == []
    ensures Count([Punct(LPAREN)], Punct(LPAREN)) == 1 && Count([Punct(LPAREN)], Punct(RPAREN)) == 0
    ensures Count([Punct(RPAREN)], Punct(LPAREN)) == 0 && Count([Punct(RPAREN)], Punct(RPAREN)) == 1
  {
  }

  /** Tokens among which there is no parenthesis. */
  lemma {:induction false} PlainPrints(ts: seq<Token>)
    requires forall t <- ts :: !IsParenthesis(t)
    ensures Prints(ts, ts, 0)
    decreases ts
  {
    if ts != [] {
      PlainPrints(ts[1..]);
    }
  }

  // ----- the printed tokens -----

  lemma {:induction false} StarsPrint(n: nat)
    ensures Bare(Opens(n)) == Bare(Stars(n)) && Bare(Closes(n)) == []
    ensures Count(Opens(n), Punct(LPAREN)) == n == Count(Closes(n), Punct(RPAREN))
    ensures Count(Opens(n), Punct(RPAREN)) == 0 == Count(Closes(n), Punct(LPAREN))
  {
    if n > 0 {
      StarsPrint(n - 1);
      var rest := Opens(n - 1);
      assert Opens(n)[1..] == [Punct(STAR)] + rest && Opens(n)[1..][1..] == rest;
      assert Stars(n)[1..] == Stars(n - 1);
      ParenthesesAre();
      BareSum(Closes(n - 1), [Punct(RPAREN)]);
      CountSum(Closes(n - 1), [Punct(RPAREN)], Punct(LPAREN));
      CountSum(Closes(n - 1), [Punct(RPAREN)], Punct(RPAREN));
    }
  }

  /** A printed declarator has the tokens of the declarator as it is written, in order,
      but for parentheses, and the pairs of parentheses that Pairs counts. */
  lemma {:induction false} DeclaratorPrints(d: Declarator)
    ensures Prints(Print(d), Write(d), Pairs(d))
    decreases d, 1
  {
    hide Bare, Count, Opens, Closes, Stars, PrintDirect, WriteDirect, PairsOf;
    StarsPrint(d.stars);
    ParenthesesAre();
    var p := if d.direct.None? then [] else PrintDirect(d.direct.value);
    var w := if d.direct.None? then [] else WriteDirect(d.direct.value);
    if d.direct.Some? {
      DirectPrints(d.direct.value);
    } else {
      PlainPrints([]);
    }
    var opens, closes := Opens(d.stars), Closes(d.stars);
    BareSum(opens, p);
    BareSum(opens + p, closes);
    BareSum(Stars(d.stars), w);
    forall t | t == Punct(LPAREN) || t == Punct(RPAREN)
      ensures Count(Print(d), t) == Count(opens, t) + Count(p, t) + Count(closes, t)
    {
      CountSum(opens, p, t);
      CountSum(opens + p, closes, t);
    }
  }

  lemma {:induction false} DirectPrints(d: Direct)
    ensures Prints(PrintDirect(d), WriteDirect(d), PairsOf(d))
    decreases d, 0
  {
    hide Prints, Print, Write, Pairs, PrintLists, PrintWrapped, WriteLists, PairsOfLists;
    PlainPrints([]);
    match d {
      case Name(id, help) =>
        PlainPrints([Ident(id)]);
        if help == [] {
          NoListsPrint();
          assert WriteDirect(d) == [Ident(id)];
        } else {
          ListsPrint(help);
          PrintsSum([Ident(id)], [Ident(id)], 0, PrintLists(help), WriteLists(help), PairsOfLists(help));
          var p := [Ident(id)] + PrintLists(help);
          PairAround(p, [Ident(id)] + WriteLists(help), PairsOfLists(help));
          assert PrintDirect(d) == [Punct(LPAREN)] + p + [Punct(RPAREN)];
        }
      case Nested(inner, help) =>
        var p := if inner.None? then [] else Print(inner.value);
        var w := if inner.None? then [] else [Punct(LPAREN)] + Write(inner.value) + [Punct(RPAREN)];
        var n := if inner.None? then 0 else Pairs(inner.value);
        if inner.Some? {
          DeclaratorPrints(inner.value);
          PairAround(Print(inner.value), Write(inner.value), Pairs(inner.value));
        }
        NoListsPrint();
        if help == [] {
          assert WriteDirect(d) == w + [] == w;
        } else {
          WrappedPrint(help);
          var k := PairsOfLists(help) + |help| - 1;
          PrintsSum(p, w, n, PrintWrapped(help), WriteLists(help), k);
          PairAround(p + PrintWrapped(help), w + WriteLists(help), n + k);
          assert PrintDirect(d) == [Punct(LPAREN)] + (p + PrintWrapped(help)) + [Punct(RPAREN)];
        }
    }
  }

  lemma NoListsPrint()
    ensures PrintLists([]) == [] && WriteLists([]) == [] && PairsOfLists([]) == 0
  {
  }

  lemma {:induction false} ListsPrint(help: seq<Help>)
    ensures Prints(PrintLists(help), WriteLists(help), PairsOfLists(help))
    decreases help
  {
    hide Prints, PrintList, WriteList, PairsOfParams;
    if help == [] {
      PlainPrints([]);
    } else {
      ListsPrint(help[1..]);
      ListPrints(help[0]);
      PrintsSum(
        PrintLists(help[1..]), WriteLists(help[1..]), PairsOfLists(help[1..]),
        PrintList(help[0]), WriteList(help[0]), PairsOfList(help[0]));
    }
  }

  lemma {:induction false} WrappedPrint(help: seq<Help>)
    requires help != []
    ensures Prints(PrintWrapped(help), WriteLists(help), PairsOfLists(help) + |help| - 1)
    decreases help
  {
    hide Prints, PrintList, WriteList, PairsOfParams;
    NoListsPrint();
    ListPrints(help[0]);
    if |help| == 1 {
      assert WriteLists(help) == [] + WriteList(help[0]) == WriteList(help[0]);
    } else {
      WrappedPrint(help[1..]);
      PairAround(PrintList(help[0]), WriteList(help[0]), PairsOfList(help[0]));
      var last := [Punct(LPAREN)] + PrintList(help[0]) + [Punct(RPAREN)];
      PrintsSum(
        PrintWrapped(help[1..]), WriteLists(help[1..]), PairsOfLists(help[1..]) + |help| - 2,
        last, WriteList(help[0]), PairsOfList(help[0]) + 1);
      assert PrintWrapped(help) == PrintWrapped(help[1..]) + last;
    }
  }

  lemma {:induction false} ListPrints(h: Help)
    ensures Prints(PrintList(h), WriteList(h), PairsOfList(h))
    decreases h
  {
    hide Prints, PrintParams, WriteParams, PairsOfParams;
    match h {
      case EmptyList =>
        PlainPrints([]);
        PairAround([], [], 0);
        var pair := [Punct(LPAREN), Punct(RPAREN)];
        assert [Punct(LPAREN)] + [] + [Punct(RPAREN)] == pair;
        EmptyPairPrints();
      case Params(ps) =>
        ParamsPrint(ps);
        PairAround(PrintParams(ps), WriteParams(ps), PairsOfParams(ps));
        PairAround(PrintList(h), WriteParams(ps), PairsOfParams(ps) + 1);
    }
  }

  lemma EmptyPairPrints()
    ensures Prints([Punct(LPAREN), Punct(RPAREN)], [Punct(LPAREN), Punct(RPAREN)], 1)
  {
    assert [Punct(LPAREN), Punct(RPAREN)][1..] == [Punct(RPAREN)];
    ParenthesesAre();
  }

  lemma {:induction false} ParamsPrint(ps: seq<Parameter>)
    ensures Prints(PrintParams(ps), WriteParams(ps), PairsOfParams(ps))
    decreases ps
  {
    hide Prints, PrintParam, WriteParam;
    if ps == [] {
      PlainPrints([]);
    } else {
      var p, w, n := PrintParam(ps[0]), WriteParam(ps[0]), PairsOfParam(ps[0]);
      ParamPrints(ps[0]);
      ParamsPrint(ps[1..]);
      NoParamsPrint();
      if |ps| > 1 {
        PlainPrints([Punct(COMMA)]);
        PrintsSum(p, w, n, [Punct(COMMA)], [Punct(COMMA)], 0);
        PrintsSum(
          p + [Punct(COMMA)], w + [Punct(COMMA)], n,
          PrintParams(ps[1..]), WriteParams(ps[1..]), PairsOfParams(ps[1..]));
      }
    }
  }

  lemma NoParamsPrint()
    ensures PairsOfParams([]) == 0
  {
  }

  lemma {:induction false} ParamPrints(p: Parameter)
    ensures Prints(PrintParam(p), WriteParam(p), PairsOfParam(p))
    decreases p
  {
    hide Prints, Print, Write, Pairs;
    PlainPrints(WriteBase(p.base));
    PlainPrints([]);
    if p.declarator.Some? {
      DeclaratorPrints(p.declarator.value);
      PrintsSum(
        WriteBase(p.base), WriteBase(p.base), 0,
        Print(p.declarator.value), Write(p.declarator.value), Pairs(p.declarator.value));
    } else {
      assert WriteBase(p.base) + [] == WriteBase(p.base);
    }
  }
}
