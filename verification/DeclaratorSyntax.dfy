/** How declarators are written, read and printed. */
module DeclaratorSyntax {
  import opened Options
  import opened Tokens
  import opened Types
  import opened Declarators

  /** Whether a declarator must, may or must not have a name. */
  datatype Mode = NOTABSTRACT | DONTCARE | ABSTRACT

  // ----- written form -----

  function Stars(n: nat): seq<Token> {
    if n == 0 then [] else [Punct(STAR)] + Stars(n - 1)
  }

  function WriteBase(b: Base): seq<Token> {
    match b
    case BaseInt => [Key(Keyword.INT)]
    case BaseChar => [Key(Keyword.CHAR)]
    case BaseVoid => [Key(Keyword.VOID)]
    case BaseStruct(n) => [Key(Keyword.STRUCT), Ident(n)]
  }

  function Write(d: Declarator): seq<Token> {
    Stars(d.stars) + if d.direct.None? then [] else WriteDirect(d.direct.value)
  }

  function WriteDirect(d: Direct): seq<Token> {
    (match d
     case Name(id, _) => [Ident(id)]
     case Nested(None, _) => []
     case Nested(Some(e), _) => [Punct(LPAREN)] + Write(e) + [Punct(RPAREN)])
    + WriteLists(d.help)
  }

  /** The lists are kept last first. */
  function WriteLists(help: seq<Help>): seq<Token> {
    if help == [] then []
    else WriteLists(help[1..]) + WriteList(help[0])
  }

  function WriteList(h: Help): seq<Token> {
    match h
    case EmptyList => [Punct(LPAREN), Punct(RPAREN)]
    case Params(ps) => [Punct(LPAREN)] + WriteParams(ps) + [Punct(RPAREN)]
  }

  function WriteParams(ps: seq<Parameter>): seq<Token> {
    if ps == [] then []
    else if |ps| == 1 then WriteParam(ps[0])
    else WriteParam(ps[0]) + [Punct(COMMA)] + WriteParams(ps[1..])
  }

  function WriteParam(p: Parameter): seq<Token> {
    WriteBase(p.base) + if p.declarator.None? then [] else Write(p.declarator.value)
  }

  // ----- reading -----

  datatype Read<T> = Got(t: T, rest: seq<Token>) | Failed

  function CountStars(ts: seq<Token>): (n: nat)
    ensures n <= |ts|
  {
    if Starts(ts, STAR) then 1 + CountStars(ts[1..]) else 0
  }

  function ReadBase(ts: seq<Token>): (r: Read<Base>)
    ensures r.Got? ==> |r.rest| < |ts|
  {
    if StartsKey(ts, Keyword.INT) then Got(BaseInt, ts[1..])
    else if StartsKey(ts, Keyword.CHAR) then Got(BaseChar, ts[1..])
    else if StartsKey(ts, Keyword.VOID) then Got(BaseVoid, ts[1..])
    else if StartsKey(ts, Keyword.STRUCT) && |ts| > 1 && ts[1].Ident? && !Starts(ts[2..], LCURLY) then
      Got(BaseStruct(ts[1].name), ts[2..])
    else Failed
  }

  function ReadDeclarator(ts: seq<Token>, mode: Mode): (r: Read<Declarator>)
    ensures r.Got? ==> |r.rest| <= |ts|
    decreases |ts|, 3
  {
    var n := CountStars(ts);
    var after := ts[n..];
    if Starts(after, RPAREN) || Starts(after, COMMA) then Got(Declarator(n, None), after)
    else
      match ReadDirect(after, mode)
      case Got(d, rest) => Got(Declarator(n, Some(d)), rest)
      case Failed => Failed
  }

  function ReadDirect(ts: seq<Token>, mode: Mode): (r: Read<Direct>)
    ensures r.Got? ==> |r.rest| < |ts|
    decreases |ts|, 2
  {
    if ts != [] && ts[0].Ident? && !mode.ABSTRACT? then
      match ReadLists(ts[1..], NOTABSTRACT)
      case Got(help, rest) => Got(Name(ts[0].name, help), rest)
      case Failed => Failed
    else if !Starts(ts, LPAREN) then Failed
    else if !mode.NOTABSTRACT? && |ts| > 1 && IsTypeSpecifier(ts[1]) then
      match ReadLists(ts, mode)
      case Got(help, rest) => Got(Nested(None, help), rest)
      case Failed => Failed
    else
      match ReadDeclarator(ts[1..], mode)
      case Failed => Failed
      case Got(d, rest) =>
        if !Starts(rest, RPAREN) then Failed
        else
          match ReadLists(rest[1..], mode)
          case Got(help, rest') => Got(Nested(Some(d), help), rest')
          case Failed => Failed
  }

  /** The parameter lists that follow, none if there is no parenthesis. Identifier
      lists are not read here. */
  function ReadLists(ts: seq<Token>, mode: Mode): (r: Read<seq<Help>>)
    ensures r.Got? ==> |r.rest| <= |ts|
    ensures r.Got? && Starts(ts, LPAREN) ==> |r.rest| < |ts|
    decreases |ts|, 1
  {
    if !Starts(ts, LPAREN) then Got([], ts)
    else if Starts(ts[1..], RPAREN) then
      match ReadLists(ts[2..], mode)
      case Got(hs, rest) => Got(hs + [EmptyList], rest)
      case Failed => Failed
    else if |ts| > 1 && IsTypeSpecifier(ts[1]) then
      match ReadParams(ts[1..])
      case Failed => Failed
      case Got(ps, rest) =>
        if !Starts(rest, RPAREN) then Failed
        else
          match ReadLists(rest[1..], mode)
          case Got(hs, rest') => Got(hs + [Params(ps)], rest')
          case Failed => Failed
    else Failed
  }

  function ReadParams(ts: seq<Token>): (r: Read<seq<Parameter>>)
    ensures r.Got? ==> |r.rest| < |ts| && r.t != []
    decreases |ts|, 5
  {
    match ReadParam(ts)
    case Failed => Failed
    case Got(p, rest) =>
      if !Starts(rest, COMMA) then Got([p], rest)
      else
        match ReadParams(rest[1..])
        case Got(ps, rest') => Got([p] + ps, rest')
        case Failed => Failed
  }

  function ReadParam(ts: seq<Token>): (r: Read<Parameter>)
    ensures r.Got? ==> |r.rest| < |ts|
    decreases |ts|, 4
  {
    match ReadBase(ts)
    case Failed => Failed
    case Got(b, rest) =>
      if Starts(rest, COMMA) || Starts(rest, RPAREN) then Got(Parameter(b, None), rest)
      else
        match ReadDeclarator(rest, DONTCARE)
        case Got(d, rest') => Got(Parameter(b, Some(d)), rest')
        case Failed => Failed
  }

  // ----- which declarators are read as they are written -----

  /** Nothing stands where a name could: `()` is no abstract declarator here, and an
      abstract function starts with a parameter. */
  predicate Written(d: Declarator, mode: Mode) {
    d.direct.Some? ==> WrittenDirect(d.direct.value, mode)
  }

  predicate WrittenDirect(d: Direct, mode: Mode) {
    WrittenLists(d.help) &&
    match d
    case Name(_, _) => !mode.ABSTRACT?
    case Nested(None, help) => !mode.NOTABSTRACT? && help != [] && help[|help| - 1].Params?
    case Nested(Some(e), _) => Written(e, mode)
  }

  predicate WrittenLists(help: seq<Help>) {
    help == [] || (WrittenList(help[0]) && WrittenLists(help[1..]))
  }

  predicate WrittenList(h: Help) {
    h.Params? ==> h.params != [] && WrittenParams(h.params)
  }

  predicate WrittenParams(ps: seq<Parameter>) {
    ps == [] || (WrittenParam(ps[0]) && WrittenParams(ps[1..]))
  }

  predicate WrittenParam(p: Parameter) {
    p.declarator.Some? ==> p.declarator.value != Declarator(0, None) && Written(p.declarator.value, DONTCARE)
  }

  // ----- they are -----

  lemma {:induction false} StarsCount(n: nat, rest: seq<Token>)
    requires !Starts(rest, STAR)
    ensures CountStars(Stars(n) + rest) == n && (Stars(n) + rest)[n..] == rest
    decreases n
  {
    if n > 0 {
      StarsCount(n - 1, rest);
      assert (Stars(n) + rest)[1..] == Stars(n - 1) + rest;
    } else {
      assert Stars(0) + rest == rest;
    }
  }

  lemma {:induction false} DirectStarts(d: Direct, mode: Mode)
    requires WrittenDirect(d, mode)
    ensures var ts := WriteDirect(d);
      && ts != [] && (Starts(ts, LPAREN) || ts[0].Ident?)
      && (ts[0].Ident? <==> d.Name?)
      && (d.Nested? && d.declarator.None? ==> |ts| > 1 && IsTypeSpecifier(ts[1]))
  {
    if d.Nested? && d.declarator.None? {
      ListsStart(d.help);
    }
  }

  lemma {:induction false} ListsStart(help: seq<Help>)
    requires WrittenLists(help) && help != []
    ensures var ts := WriteLists(help);
      && |ts| > 1 && Starts(ts, LPAREN)
      && (if help[|help| - 1].Params? then IsTypeSpecifier(ts[1]) else ts[1] == Punct(RPAREN))
    decreases help
  {
    if |help| > 1 {
      ListsStart(help[1..]);
      assert help[1..][|help| - 2] == help[|help| - 1];
    } else {
      assert WriteLists(help) == WriteList(help[0]);
      if help[0].Params? {
        ParamsStart(help[0].params);
      }
    }
  }

  lemma {:induction false} ParamsStart(ps: seq<Parameter>)
    requires ps != []
    ensures WriteParams(ps) != [] && IsTypeSpecifier(WriteParams(ps)[0])
  {
    assert WriteParam(ps[0])[0] == WriteBase(ps[0].base)[0];
  }

  /** A declarator reads back as it was written, in front of anything that is not a
      further parameter list. */
  lemma {:induction false} DeclaratorReads(d: Declarator, mode: Mode, rest: seq<Token>)
    requires Written(d, mode) && !Starts(rest, LPAREN)
    requires d.direct.None? ==> Starts(rest, RPAREN) || Starts(rest, COMMA)
    ensures ReadDeclarator(Write(d) + rest, mode) == Got(d, rest)
    decreases d
  {
    if d.direct.None? {
      StarsCount(d.stars, rest);
      assert Write(d) + rest == Stars(d.stars) + rest;
    } else {
      var direct := d.direct.value;
      var after := WriteDirect(direct) + rest;
      DirectStarts(direct, mode);
      assert after[0] == WriteDirect(direct)[0];
      StarsCount(d.stars, after);
      assert Write(d) + rest == Stars(d.stars) + after;
      DirectReads(direct, mode, rest);
    }
  }

  lemma {:induction false} DirectReads(d: Direct, mode: Mode, rest: seq<Token>)
    requires WrittenDirect(d, mode) && !Starts(rest, LPAREN)
    ensures ReadDirect(WriteDirect(d) + rest, mode) == Got(d, rest)
    decreases d
  {
    hide ReadLists, WriteLists, WrittenLists;
    var ts := WriteDirect(d) + rest;
    DirectStarts(d, mode);
    match d
    case Name(id, help) =>
      assert ts[1..] == WriteLists(help) + rest;
      ListsRead(help, NOTABSTRACT, rest);
    case Nested(None, help) =>
      assert ts == WriteLists(help) + rest;
      ListsRead(help, mode, rest);
    case Nested(Some(e), help) =>
      var after := [Punct(RPAREN)] + (WriteLists(help) + rest);
      assert ts[1..] == Write(e) + after && after[1..] == WriteLists(help) + rest;
      NoTypeFirst(e, mode, after);
      DeclaratorReads(e, mode, after);
      ListsRead(help, mode, rest);
  }

  lemma {:induction false} NoTypeFirst(d: Declarator, mode: Mode, after: seq<Token>)
    requires Written(d, mode) && Starts(after, RPAREN)
    ensures Write(d) + after != [] && !IsTypeSpecifier((Write(d) + after)[0])
  {
    if d.stars == 0 && d.direct.Some? {
      DirectStarts(d.direct.value, mode);
      assert (Write(d) + after)[0] == WriteDirect(d.direct.value)[0];
    } else if d.stars == 0 {
      assert Write(d) + after == after;
    }
  }

  lemma {:induction false} ListsRead(help: seq<Help>, mode: Mode, rest: seq<Token>)
    requires WrittenLists(help) && !Starts(rest, LPAREN)
    ensures ReadLists(WriteLists(help) + rest, mode) == Got(help, rest)
    decreases help
  {
    hide ReadLists, WriteLists, WriteList, WrittenList;
    if help == [] {
      NoLists(rest, mode);
    } else {
      var before, last := help[..|help| - 1], help[|help| - 1];
      assert help == before + [last];
      WrittenSplits(before, last);
      MoreLists(before, last);
      assert WriteLists(help) + rest == WriteList(last) + (WriteLists(before) + rest);
      ListsRead(before, mode, rest);
      ListReads(last, mode, WriteLists(before) + rest, before, rest);
    }
  }

  lemma {:induction false} NoLists(rest: seq<Token>, mode: Mode)
    requires !Starts(rest, LPAREN)
    ensures ReadLists(WriteLists([]) + rest, mode) == Got([], rest)
  {
    assert WriteLists([]) + rest == rest;
  }

  lemma {:induction false} WrittenSplits(before: seq<Help>, last: Help)
    requires WrittenLists(before + [last])
    ensures WrittenLists(before) && WrittenList(last)
    decreases before
  {
    hide WrittenList;
    if before != [] {
      assert (before + [last])[1..] == before[1..] + [last];
      WrittenSplits(before[1..], last);
    }
  }

  lemma {:induction false} FirstList(help: seq<Help>)
    ensures help != [] ==> WriteLists(help) == WriteLists(help[1..]) + WriteList(help[0])
    ensures WriteLists([]) == []
  {
    hide WriteList;
  }

  lemma {:induction false} MoreLists(more: seq<Help>, h: Help)
    ensures WriteLists(more + [h]) == WriteList(h) + WriteLists(more)
    decreases more
  {
    hide WriteList, WriteLists;
    if more == [] {
      assert [] + [h] == [h] && [h][1..] == [];
      FirstList([h]);
    } else {
      MoreLists(more[1..], h);
      var all := more + [h];
      assert all[1..] == more[1..] + [h] && all[0] == more[0];
      FirstList(all);
      FirstList(more);
    }
  }

  lemma {:induction false} ListReads(h: Help, mode: Mode, ts: seq<Token>, hs: seq<Help>, rest: seq<Token>)
    requires WrittenList(h) && ReadLists(ts, mode) == Got(hs, rest)
    ensures ReadLists(WriteList(h) + ts, mode) == Got(hs + [h], rest)
    decreases h
  {
    var all := WriteList(h) + ts;
    match h
    case EmptyList =>
      assert all[1..][0] == Punct(RPAREN) && all[2..] == ts;
    case Params(ps) =>
      var after := [Punct(RPAREN)] + ts;
      assert all[1..] == WriteParams(ps) + after && after[1..] == ts;
      ParamsStart(ps);
      assert all[1] == WriteParams(ps)[0];
      ParamsRead(ps, after);
  }

  lemma {:induction false} ParamsRead(ps: seq<Parameter>, after: seq<Token>)
    requires ps != [] && WrittenParams(ps) && Starts(after, RPAREN)
    ensures ReadParams(WriteParams(ps) + after) == Got(ps, after)
    decreases ps
  {
    if |ps| == 1 {
      ParamReads(ps[0], after);
      assert ps == [ps[0]];
    } else {
      var rest := [Punct(COMMA)] + (WriteParams(ps[1..]) + after);
      assert WriteParams(ps) + after == WriteParam(ps[0]) + rest;
      assert rest[1..] == WriteParams(ps[1..]) + after;
      ParamReads(ps[0], rest);
      ParamsRead(ps[1..], after);
      assert ps == [ps[0]] + ps[1..];
    }
  }

  lemma {:induction false} ParamReads(p: Parameter, after: seq<Token>)
    requires WrittenParam(p) && (Starts(after, RPAREN) || Starts(after, COMMA))
    ensures ReadParam(WriteParam(p) + after) == Got(p, after)
    decreases p
  {
    hide ReadDeclarator;
    var rest := if p.declarator.None? then after else Write(p.declarator.value) + after;
    assert WriteParam(p) + after == WriteBase(p.base) + rest;
    if p.declarator.Some? {
      NotEmpty(p.declarator.value, after);
    }
    BaseReads(p.base, rest);
    if p.declarator.Some? {
      DeclaratorReads(p.declarator.value, DONTCARE, after);
    }
  }

  lemma {:induction false} NotEmpty(d: Declarator, after: seq<Token>)
    requires d != Declarator(0, None) && Written(d, DONTCARE)
    ensures var ts := Write(d) + after;
      !Starts(ts, COMMA) && !Starts(ts, RPAREN) && !Starts(ts, LCURLY)
  {
    if d.stars == 0 {
      DirectStarts(d.direct.value, DONTCARE);
      assert (Write(d) + after)[0] == WriteDirect(d.direct.value)[0];
    }
  }

  lemma {:induction false} BaseReads(b: Base, rest: seq<Token>)
    requires !Starts(rest, LCURLY)
    ensures ReadBase(WriteBase(b) + rest) == Got(b, rest)
  {
    var ts := WriteBase(b) + rest;
    match b
    case BaseStruct(n) => assert ts[2..] == rest;
    case _ => assert ts[1..] == rest;
  }

  // ----- nothing else is read -----

  lemma {:induction false} StarsSplit(ts: seq<Token>)
    ensures var n := CountStars(ts); Stars(n) + ts[n..] == ts && !Starts(ts[n..], STAR)
    decreases |ts|
  {
    if Starts(ts, STAR) {
      StarsSplit(ts[1..]);
      var n := CountStars(ts[1..]);
      assert [Punct(STAR)] + (Stars(n) + ts[1..][n..]) == ts;
      assert ts[1..][n..] == ts[n + 1..];
      assert Stars(n + 1) + ts[n + 1..] == [Punct(STAR)] + (Stars(n) + ts[n + 1..]);
    } else {
      assert Stars(0) + ts[0..] == ts;
    }
  }

  /** What may follow a declarator that was read. */
  predicate Ends(d: Declarator, rest: seq<Token>) {
    if d.direct.None? then Starts(rest, RPAREN) || Starts(rest, COMMA) else !Starts(rest, LPAREN)
  }

  lemma {:induction false} DeclaratorSound(ts: seq<Token>, mode: Mode)
    ensures var r := ReadDeclarator(ts, mode);
      r.Got? ==> Write(r.t) + r.rest == ts && Written(r.t, mode) && Ends(r.t, r.rest)
    decreases |ts|, 3
  {
    hide ReadDirect, WriteDirect, WrittenDirect;
    var n := CountStars(ts);
    var after := ts[n..];
    StarsSplit(ts);
    if !(Starts(after, RPAREN) || Starts(after, COMMA)) {
      DirectSound(after, mode);
      var x := ReadDirect(after, mode);
      if x.Got? {
        assert (Stars(n) + WriteDirect(x.t)) + x.rest == Stars(n) + (WriteDirect(x.t) + x.rest);
      }
    } else {
      assert (Stars(n) + []) + after == ts;
    }
  }

  lemma {:induction false} DirectSound(ts: seq<Token>, mode: Mode)
    ensures var r := ReadDirect(ts, mode);
      r.Got? ==> WriteDirect(r.t) + r.rest == ts && WrittenDirect(r.t, mode) && !Starts(r.rest, LPAREN)
    decreases |ts|, 2
  {
    hide ReadLists, ReadDeclarator, WriteLists, WrittenLists;
    if ts != [] && ts[0].Ident? && !mode.ABSTRACT? {
      ListsSound(ts[1..], NOTABSTRACT);
      var x := ReadLists(ts[1..], NOTABSTRACT);
      if x.Got? {
        assert ([ts[0]] + WriteLists(x.t)) + x.rest == [ts[0]] + (WriteLists(x.t) + x.rest) == ts;
      }
    } else if Starts(ts, LPAREN) && !mode.NOTABSTRACT? && |ts| > 1 && IsTypeSpecifier(ts[1]) {
      ListsSound(ts, mode);
      var x := ReadLists(ts, mode);
      if x.Got? {
        assert [] + WriteLists(x.t) == WriteLists(x.t);
      }
    } else if Starts(ts, LPAREN) {
      DeclaratorSound(ts[1..], mode);
      var x := ReadDeclarator(ts[1..], mode);
      if x.Got? && Starts(x.rest, RPAREN) {
        ListsSound(x.rest[1..], mode);
        var y := ReadLists(x.rest[1..], mode);
        if y.Got? {
          NestedRead(ts, x.t, x.rest, y.t, y.rest);
        }
      }
    }
  }

  lemma {:induction false} NestedRead(ts: seq<Token>, d: Declarator, rest: seq<Token>, help: seq<Help>, rest': seq<Token>)
    requires Starts(ts, LPAREN) && Write(d) + rest == ts[1..]
    requires Starts(rest, RPAREN) && WriteLists(help) + rest' == rest[1..]
    ensures WriteDirect(Nested(Some(d), help)) + rest' == ts
  {
    hide Write, WriteLists;
    assert [Punct(RPAREN)] + (WriteLists(help) + rest') == rest;
    assert [Punct(LPAREN)] + (Write(d) + rest) == ts;
    assert ([Punct(LPAREN)] + Write(d) + [Punct(RPAREN)] + WriteLists(help)) + rest'
        == [Punct(LPAREN)] + (Write(d) + ([Punct(RPAREN)] + (WriteLists(help) + rest')));
  }

  lemma {:induction false} ListsSound(ts: seq<Token>, mode: Mode)
    ensures var r := ReadLists(ts, mode);
      r.Got? ==>
        && WriteLists(r.t) + r.rest == ts && WrittenLists(r.t) && !Starts(r.rest, LPAREN)
        && (r.t == [] <==> !Starts(ts, LPAREN))
        && (r.t != [] ==> (r.t[|r.t| - 1].Params? <==> |ts| > 1 && IsTypeSpecifier(ts[1])))
    decreases |ts|, 1
  {
    hide ReadParams, WriteParams, WrittenParams, WriteLists, WriteList, WrittenLists;
    if !Starts(ts, LPAREN) {
      NothingRead(ts);
    } else if Starts(ts[1..], RPAREN) {
      ListsSound(ts[2..], mode);
      var x := ReadLists(ts[2..], mode);
      if x.Got? {
        EmptyRead(ts, x);
      }
    } else if |ts| > 1 && IsTypeSpecifier(ts[1]) {
      ParamsSound(ts[1..]);
      var x := ReadParams(ts[1..]);
      if x.Got? && Starts(x.rest, RPAREN) {
        ListsSound(x.rest[1..], mode);
        var y := ReadLists(x.rest[1..], mode);
        if y.Got? {
          ParamsListRead(ts, x, y);
        }
      }
    }
  }

  lemma {:induction false} NothingRead(ts: seq<Token>)
    ensures WriteLists([]) + ts == ts && WrittenLists([])
  {
  }

  lemma {:induction false} EmptyRead(ts: seq<Token>, x: Read<seq<Help>>)
    requires Starts(ts, LPAREN) && Starts(ts[1..], RPAREN) && x.Got?
    requires WriteLists(x.t) + x.rest == ts[2..] && WrittenLists(x.t)
    ensures WriteLists(x.t + [EmptyList]) + x.rest == ts && WrittenLists(x.t + [EmptyList])
    ensures ts[1] == Punct(RPAREN)
  {
    hide WriteLists, WrittenLists;
    assert ts[1] == ts[1..][0];
    assert ts == [ts[0], ts[1]] + ts[2..];
    MoreListsRead(ts, EmptyList, x.t, x.rest);
  }

  lemma {:induction false} ParamsListRead(ts: seq<Token>, x: Read<seq<Parameter>>, y: Read<seq<Help>>)
    requires Starts(ts, LPAREN) && x.Got? && WriteParams(x.t) + x.rest == ts[1..] && x.t != [] && WrittenParams(x.t)
    requires Starts(x.rest, RPAREN) && y.Got? && WriteLists(y.t) + y.rest == x.rest[1..] && WrittenLists(y.t)
    ensures WriteLists(y.t + [Params(x.t)]) + y.rest == ts && WrittenLists(y.t + [Params(x.t)])
  {
    hide WriteLists, WrittenLists, WriteParams, WrittenParams;
    assert [Punct(RPAREN)] + (WriteLists(y.t) + y.rest) == x.rest;
    assert [Punct(LPAREN)] + (WriteParams(x.t) + x.rest) == ts;
    assert WriteList(Params(x.t)) + (WriteLists(y.t) + y.rest)
        == [Punct(LPAREN)] + (WriteParams(x.t) + ([Punct(RPAREN)] + (WriteLists(y.t) + y.rest)));
    MoreListsRead(ts, Params(x.t), y.t, y.rest);
  }

  lemma {:induction false} MoreListsRead(ts: seq<Token>, h: Help, hs: seq<Help>, rest: seq<Token>)
    requires WriteList(h) + (WriteLists(hs) + rest) == ts && WrittenLists(hs) && WrittenList(h)
    ensures WriteLists(hs + [h]) + rest == ts && WrittenLists(hs + [h])
  {
    hide WriteList, WrittenList;
    MoreLists(hs, h);
    assert (WriteList(h) + WriteLists(hs)) + rest == WriteList(h) + (WriteLists(hs) + rest);
    WrittenJoins(hs, h);
  }

  lemma {:induction false} WrittenJoins(before: seq<Help>, last: Help)
    requires WrittenLists(before) && WrittenList(last)
    ensures WrittenLists(before + [last])
    decreases before
  {
    hide WrittenList;
    if before != [] {
      assert (before + [last])[1..] == before[1..] + [last];
      WrittenJoins(before[1..], last);
    } else {
      assert [last][1..] == [];
    }
  }

  lemma {:induction false} ParamsSound(ts: seq<Token>)
    ensures var r := ReadParams(ts);
      r.Got? ==> WriteParams(r.t) + r.rest == ts && WrittenParams(r.t)
    decreases |ts|, 5
  {
    hide ReadParam, WriteParam, WrittenParam;
    ParamSound(ts);
    var x := ReadParam(ts);
    if x.Got? && Starts(x.rest, COMMA) {
      ParamsSound(x.rest[1..]);
      var y := ReadParams(x.rest[1..]);
      if y.Got? {
        var all := [x.t] + y.t;
        assert all[1..] == y.t;
        assert [Punct(COMMA)] + (WriteParams(y.t) + y.rest) == x.rest;
        assert WriteParams(all) + y.rest == WriteParam(x.t) + ([Punct(COMMA)] + (WriteParams(y.t) + y.rest));
      }
    } else if x.Got? {
      assert [x.t][1..] == [];
    }
  }

  lemma {:induction false} ParamSound(ts: seq<Token>)
    ensures var r := ReadParam(ts);
      r.Got? ==> WriteParam(r.t) + r.rest == ts && WrittenParam(r.t)
    decreases |ts|, 4
  {
    hide ReadDeclarator, Write, Written;
    BaseSound(ts);
    var x := ReadBase(ts);
    if x.Got? {
      if Starts(x.rest, COMMA) || Starts(x.rest, RPAREN) {
        assert WriteBase(x.t) + [] == WriteBase(x.t);
      } else {
        DeclaratorSound(x.rest, DONTCARE);
        var y := ReadDeclarator(x.rest, DONTCARE);
        if y.Got? {
          SomethingRead(y.t, x.rest, y.rest);
          assert (WriteBase(x.t) + Write(y.t)) + y.rest == WriteBase(x.t) + (Write(y.t) + y.rest);
        }
      }
    }
  }

  /** A declarator without a name that is read in front of other tokens has a star. */
  lemma SomethingRead(d: Declarator, ts: seq<Token>, rest: seq<Token>)
    requires Write(d) + rest == ts && Ends(d, rest) && !Starts(ts, COMMA) && !Starts(ts, RPAREN)
    ensures d.direct.None? ==> d.stars > 0
  {
    assert Stars(0) == [];
  }

  lemma {:induction false} BaseSound(ts: seq<Token>)
    ensures var r := ReadBase(ts); r.Got? ==> WriteBase(r.t) + r.rest == ts
  {
    var r := ReadBase(ts);
    if r.Got? {
      if r.t.BaseStruct? {
        assert [ts[0], ts[1]] + ts[2..] == ts;
      } else {
        assert [ts[0]] + ts[1..] == ts;
      }
    }
  }

  /** A declarator and the tokens behind it are read exactly when these are what it
      is written as, it is written where it may stand, and what is behind it does not
      belong to it. */
  lemma {:induction false} DeclaratorReadsExactlyWhen(ts: seq<Token>, mode: Mode, d: Declarator, rest: seq<Token>)
    ensures ReadDeclarator(ts, mode) == Got(d, rest) <==>
      ts == Write(d) + rest && Written(d, mode) && Ends(d, rest)
  {
    hide ReadDeclarator, Write, Written;
    DeclaratorSound(ts, mode);
    if ts == Write(d) + rest && Written(d, mode) && Ends(d, rest) {
      if d.direct.None? {
        NamelessReads(d, mode, rest);
      } else {
        DeclaratorReads(d, mode, rest);
      }
    }
  }

  lemma {:induction false} NamelessReads(d: Declarator, mode: Mode, rest: seq<Token>)
    requires d.direct.None? && Ends(d, rest)
    ensures ReadDeclarator(Write(d) + rest, mode) == Got(d, rest)
  {
    StarsCount(d.stars, rest);
    assert Write(d) + rest == Stars(d.stars) + rest;
  }
}
