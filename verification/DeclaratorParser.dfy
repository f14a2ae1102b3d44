/** Reading and printing declarators, as programs. */
module DeclaratorParser {
  import opened Options
  import opened Tokens
  import opened Types
  import opened Declarators
  import opened DeclaratorSyntax
  import opened DeclaratorPrinter

  class DeclaratorReader {
    var input: seq<Token>

    constructor (tokens: seq<Token>)
      ensures input == tokens
    {
      input := tokens;
    }

    method Scan()
      requires input != []
      modifies this
      ensures input == old(input)[1..]
    {
      input := input[1..];
    }

    method TypeSpecifier() returns (r: Option<Base>)
      modifies this
      ensures match ReadBase(old(input))
        case Got(b, rest) => r == Some(b) && input == rest
        case Failed => r == None
      ensures |input| <= |old(input)|
    {
      r := None;
      if input == [] || !IsTypeSpecifier(input[0]) {
        return;
      }
      var keyword := input[0].keyword;
      ghost var start := input;
      Scan();
      if keyword == Keyword.INT {
        r := Some(BaseInt);
      } else if keyword == Keyword.CHAR {
        r := Some(BaseChar);
      } else if keyword == Keyword.VOID {
        r := Some(BaseVoid);
      } else if input != [] && input[0].Ident? && !Starts(input[1..], LCURLY) {
        r := Some(BaseStruct(input[0].name));
        assert input[1..] == start[2..];
        Scan();
      }
    }

    method ReadOne(mode: Mode) returns (r: Option<Declarator>)
      modifies this
      ensures match ReadDeclarator(old(input), mode)
        case Got(d, rest) => r == Some(d) && input == rest
        case Failed => r == None
      ensures |input| <= |old(input)|
      decreases |input|, 3
    {
      hide ReadDirect;
      ghost var start := input;
      var counter := 0;
      while Starts(input, STAR)
        invariant counter <= |start| && input == start[counter..]
        invariant CountStars(start) == counter + CountStars(input)
        decreases |input|
      {
        counter := counter + 1;
        Scan();
      }
      if Starts(input, RPAREN) || Starts(input, COMMA) {
        return Some(Declarator(counter, None));
      }
      var direct := DirectDeclarator(mode);
      r := if direct.Some? then Some(Declarator(counter, Some(direct.value))) else None;
    }

    method DirectDeclarator(mode: Mode) returns (r: Option<Direct>)
      modifies this
      ensures match ReadDirect(old(input), mode)
        case Got(d, rest) => r == Some(d) && input == rest
        case Failed => r == None
      ensures |input| <= |old(input)|
      decreases |input|, 2
    {
      hide ReadLists, ReadDeclarator;
      r := None;
      if input != [] && input[0].Ident? && !mode.ABSTRACT? {
        var name := input[0].name;
        Scan();
        var help := DirectDeclaratorHelp(NOTABSTRACT);
        if help.Some? {
          r := Some(Name(name, help.value));
        }
      } else if Starts(input, LPAREN) {
        if !mode.NOTABSTRACT? && |input| > 1 && IsTypeSpecifier(input[1]) {
          var help := DirectDeclaratorHelp(mode);
          if help.Some? {
            r := Some(Nested(None, help.value));
          }
          return;
        }
        Scan();
        var inner := ReadOne(mode);
        if inner.None? || !Starts(input, RPAREN) {
          return;
        }
        Scan();
        var help := DirectDeclaratorHelp(mode);
        if help.Some? {
          r := Some(Nested(inner, help.value));
        }
      }
    }

    /** The parameter lists that follow, the last first. */
    method DirectDeclaratorHelp(mode: Mode) returns (r: Option<seq<Help>>)
      modifies this
      ensures match ReadLists(old(input), mode)
        case Got(hs, rest) => r == Some(hs) && input == rest
        case Failed => r == None
      ensures |input| <= |old(input)|
      decreases |input|, 1
    {
      hide ReadParams;
      ghost var start := input;
      if !Starts(input, LPAREN) {
        return Some([]);
      }
      Scan();
      var list;
      if Starts(input, RPAREN) {
        list := EmptyList;
        assert input[1..] == start[2..];
      } else if input != [] && IsTypeSpecifier(input[0]) {
        var params := ParameterList();
        if params.None? || !Starts(input, RPAREN) {
          return None;
        }
        list := Params(params.value);
      } else {
        return None;
      }
      Scan();
      var more := DirectDeclaratorHelp(mode);
      r := if more.Some? then Some(more.value + [list]) else None;
    }

    method ParameterList() returns (r: Option<seq<Parameter>>)
      modifies this
      ensures match ReadParams(old(input))
        case Got(ps, rest) => r == Some(ps) && input == rest
        case Failed => r == None
      ensures |input| <= |old(input)|
      decreases |input|, 5
    {
      hide ReadParam;
      ghost var start := input;
      var first := ParameterDeclaration();
      if first.None? {
        return None;
      }
      var parameters := [first.value];
      while Starts(input, COMMA)
        invariant |input| < |start|
        invariant ReadParams(start) == Before(parameters, input)
        decreases |input|
      {
        ghost var rest := input;
        Scan();
        var next := ParameterDeclaration();
        if next.None? {
          return None;
        }
        BeforeSnoc(parameters, rest, next.value, input);
        parameters := parameters + [next.value];
      }
      r := Some(parameters);
    }

    method ParameterDeclaration() returns (r: Option<Parameter>)
      modifies this
      ensures match ReadParam(old(input))
        case Got(p, rest) => r == Some(p) && input == rest
        case Failed => r == None
      ensures |input| <= |old(input)|
      decreases |input|, 4
    {
      hide ReadDeclarator, ReadBase;
      var b := TypeSpecifier();
      if b.None? {
        return None;
      }
      if Starts(input, COMMA) || Starts(input, RPAREN) {
        return Some(Parameter(b.value, None));
      }
      var d := ReadOne(DONTCARE);
      r := if d.Some? then Some(Parameter(b.value, d)) else None;
    }
  }

  /** What the parameter list is once `ps` are read and `ts` are left. */
  function Before(ps: seq<Parameter>, ts: seq<Token>): Read<seq<Parameter>> {
    if !Starts(ts, COMMA) then Got(ps, ts)
    else
      match ReadParams(ts[1..])
      case Got(more, rest) => Got(ps + more, rest)
      case Failed => Failed
  }

  lemma {:induction false} BeforeSnoc(ps: seq<Parameter>, ts: seq<Token>, p: Parameter, rest: seq<Token>)
    requires Starts(ts, COMMA) && ReadParam(ts[1..]) == Got(p, rest)
    ensures Before(ps, ts) == Before(ps + [p], rest)
  {
    hide ReadParam;
    if Starts(rest, COMMA) {
      var x := ReadParams(rest[1..]);
      if x.Got? {
        assert ps + ([p] + x.t) == ps + [p] + x.t;
      }
    }
  }

  class DeclaratorWriter {
    var out: seq<Token>

    constructor ()
      ensures out == []
    {
      out := [];
    }

    method Put(ts: seq<Token>)
      modifies this
      ensures out == old(out) + ts
    {
      out := out + ts;
    }

    method PrintOne(d: Declarator)
      modifies this
      ensures out == old(out) + Print(d)
      decreases d
    {
      hide PrintDirect;
      for i := 0 to d.stars
        invariant out + Opens(d.stars - i) == old(out) + Opens(d.stars)
      {
        assert Opens(d.stars - i) == [Punct(LPAREN), Punct(STAR)] + Opens(d.stars - i - 1);
        Put([Punct(LPAREN), Punct(STAR)]);
      }
      assert out == old(out) + Opens(d.stars);
      if d.direct.Some? {
        PrintDirectDeclarator(d.direct.value);
      }
      ghost var before := out;
      for i := 0 to d.stars
        invariant out == before + Closes(i)
      {
        assert Closes(i + 1) == Closes(i) + [Punct(RPAREN)];
        Put([Punct(RPAREN)]);
      }
    }

    method PrintDirectDeclarator(d: Direct)
      modifies this
      ensures out == old(out) + PrintDirect(d)
      decreases d, 1
    {
      match d
      case Name(_, _) => PrintIdentifier(d);
      case Nested(_, _) => PrintNested(d);
    }

    method PrintIdentifier(d: Direct)
      requires d.Name?
      modifies this
      ensures out == old(out) + PrintDirect(d)
      decreases d, 0
    {
      hide PrintList, Print;
      if d.help == [] {
        Put([Ident(d.id)]);
        return;
      }
      Put([Punct(LPAREN), Ident(d.id)]);
      ghost var before := out;
      var n := |d.help|;
      assert d.help[n..] == [] && before + PrintLists([]) == before;
      while n > 0
        invariant 0 <= n <= |d.help| && out == before + PrintLists(d.help[n..])
      {
        n := n - 1;
        assert d.help[n..][1..] == d.help[n + 1..];
        PrintHelp(d.help[n]);
      }
      assert d.help[0..] == d.help;
      Put([Punct(RPAREN)]);
    }

    method PrintNested(d: Direct)
      requires d.Nested?
      modifies this
      ensures out == old(out) + PrintDirect(d)
      decreases d, 0
    {
      hide PrintList, Print;
      if d.help != [] {
        Put([Punct(LPAREN)]);
      }
      if d.declarator.Some? {
        PrintOne(d.declarator.value);
      }
      if d.help != [] {
        PrintWrappedLists(d.help);
        Put([Punct(RPAREN)]);
      }
    }

    method PrintWrappedLists(help: seq<Help>)
      requires help != []
      modifies this
      ensures out == old(out) + PrintWrapped(help)
      decreases help
    {
      hide PrintList;
      var n := |help| - 1;
      PrintHelp(help[n]);
      assert help[n..] == [help[n]];
      while n > 0
        invariant 0 <= n < |help| && out == old(out) + PrintWrapped(help[n..])
      {
        n := n - 1;
        assert help[n..][1..] == help[n + 1..] && help[n..][0] == help[n];
        Put([Punct(LPAREN)]);
        PrintHelp(help[n]);
        Put([Punct(RPAREN)]);
      }
      assert help[0..] == help;
    }

    method PrintHelp(h: Help)
      modifies this
      ensures out == old(out) + PrintList(h)
      decreases h
    {
      hide PrintParam;
      Put([Punct(LPAREN)]);
      match h {
        case EmptyList =>
          assert PrintList(h) == [Punct(LPAREN)] + [Punct(RPAREN)];
        case Params(ps) =>
          ghost var before := out;
          assert ps[0..] == ps;
          for k := 0 to |ps|
            invariant out + PrintParams(ps[k..]) == before + PrintParams(ps)
          {
            assert ps[k..][1..] == ps[k + 1..] && ps[k..][0] == ps[k];
            PrintParameter(ps[k]);
            if k + 1 < |ps| {
              Put([Punct(COMMA)]);
            } else {
              assert ps[k..] == [ps[k]];
            }
          }
          assert out == before + PrintParams(ps);
      }
      Put([Punct(RPAREN)]);
    }

    method PrintParameter(p: Parameter)
      modifies this
      ensures out == old(out) + PrintParam(p)
      decreases p
    {
      hide Print;
      Put(WriteBase(p.base));
      if p.declarator.Some? {
        PrintOne(p.declarator.value);
      }
    }
  }
}
