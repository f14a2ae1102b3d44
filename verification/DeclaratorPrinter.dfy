/** Printing a declarator and reading it back: the tree may differ, the type does
    not. */
module DeclaratorPrinter {
  import opened Options
  import opened Tokens
  import opened Types
  import opened Declarators
  import opened DeclaratorSyntax

  // ----- printing -----

  function Opens(n: nat): seq<Token> {
    if n == 0 then [] else [Punct(LPAREN), Punct(STAR)] + Opens(n - 1)
  }

  function Closes(n: nat): seq<Token> {
    if n == 0 then [] else Closes(n - 1) + [Punct(RPAREN)]
  }

  function Print(d: Declarator): seq<Token> {
    Opens(d.stars) + (if d.direct.None? then [] else PrintDirect(d.direct.value)) + Closes(d.stars)
  }

  function PrintDirect(d: Direct): seq<Token> {
    match d
    case Name(id, help) =>
      if help == [] then [Ident(id)] else [Punct(LPAREN), Ident(id)] + PrintLists(help) + [Punct(RPAREN)]
    case Nested(inner, help) =>
      var inside := if inner.None? then [] else Print(inner.value);
      if help == [] then inside else [Punct(LPAREN)] + inside + PrintWrapped(help) + [Punct(RPAREN)]
  }

  function PrintLists(help: seq<Help>): seq<Token> {
    if help == [] then [] else PrintLists(help[1..]) + PrintList(help[0])
  }

  /** The last list, then the others in parentheses of their own. */
  function PrintWrapped(help: seq<Help>): seq<Token> {
    if help == [] then []
    else if |help| == 1 then PrintList(help[0])
    else PrintWrapped(help[1..]) + [Punct(LPAREN)] + PrintList(help[0]) + [Punct(RPAREN)]
  }

  function PrintList(h: Help): seq<Token> {
    match h
    case EmptyList => [Punct(LPAREN), Punct(RPAREN)]
    case Params(ps) => [Punct(LPAREN)] + PrintParams(ps) + [Punct(RPAREN)]
  }

  function PrintParams(ps: seq<Parameter>): seq<Token> {
    if ps == [] then []
    else if |ps| == 1 then PrintParam(ps[0])
    else PrintParam(ps[0]) + [Punct(COMMA)] + PrintParams(ps[1..])
  }

  function PrintParam(p: Parameter): seq<Token> {
    WriteBase(p.base) + if p.declarator.None? then [] else Print(p.declarator.value)
  }

  // ----- which declarators keep their type -----

  /** Nothing is printed for it: `()` without a name. */
  predicate Blank(d: Declarator) {
    d.stars == 0 &&
    match d.direct
    case None => true
    case Some(Name(_, _)) => false
    case Some(Nested(inner, help)) => help == [] && (inner.Some? ==> Blank(inner.value))
  }

  /** At most one parameter list at each level, and parameters behind a blank only
      where a name may be missing: what is printed can be read. */
  predicate Legible(d: Declarator, mode: Mode) {
    d.direct.Some? ==> LegibleDirect(d.direct.value, mode)
  }

  predicate LegibleDirect(d: Direct, mode: Mode) {
    && |d.help| <= 1 && (d.help != [] ==> LegibleList(d.help[0]))
    && match d
       case Name(_, _) => !mode.ABSTRACT?
       case Nested(None, help) => help != [] && help[0].Params? && !mode.NOTABSTRACT?
       case Nested(Some(e), help) =>
         Legible(e, mode) && (Blank(e) && help != [] && help[0].Params? ==> !mode.NOTABSTRACT?)
  }

  predicate LegibleList(h: Help) {
    h.Params? ==> h.params != [] && LegibleParams(h.params)
  }

  predicate LegibleParams(ps: seq<Parameter>) {
    ps == [] || (LegibleParam(ps[0]) && LegibleParams(ps[1..]))
  }

  predicate LegibleParam(p: Parameter) {
    p.declarator.Some? ==> Legible(p.declarator.value, DONTCARE)
  }

  /** No empty parameter list stands behind a blank. */
  predicate KeepsLists(d: Declarator) {
    d.direct.Some? ==> KeepsDirect(d.direct.value)
  }

  predicate KeepsDirect(d: Direct) {
    && KeepsHelp(d.help)
    && (d.Nested? && d.declarator.Some? ==>
          KeepsLists(d.declarator.value) && (Blank(d.declarator.value) && d.help != [] ==> d.help[0].Params?))
  }

  predicate KeepsHelp(help: seq<Help>) {
    help == [] || (help[0].Params? ==> KeepsParams(help[0].params))
  }

  predicate KeepsParams(ps: seq<Parameter>) {
    ps == [] || (KeepsParam(ps[0]) && KeepsParams(ps[1..]))
  }

  predicate KeepsParam(p: Parameter) {
    p.declarator.Some? ==> KeepsLists(p.declarator.value)
  }

  /** The declarators whose type survives printing. */
  predicate Printable(d: Declarator, mode: Mode) {
    Legible(d, mode) && KeepsLists(d)
  }

  // ----- the declarator that is read back -----

  const NOTHING := Declarator(0, None)

  function InParens(d: Declarator): Direct { Nested(Some(d), []) }

  function Reread(d: Declarator, mode: Mode): (r: Direct)
    requires Legible(d, mode) && !Blank(d)
    ensures r.help == []
    decreases d, d.stars
  {
    match d.direct
    case None => Pointed(d.stars, None)
    case Some(direct) =>
      if d.stars == 0 then RereadDirect(direct, mode)
      else if direct.Nested? && direct.help == [] && direct.declarator.Some? && Blank(direct.declarator.value) then Pointed(d.stars, None)
      else Pointed(d.stars, Some(RereadDirect(direct, mode)))
  }

  /** Each star with parentheses of its own. */
  function Pointed(n: nat, inner: Option<Direct>): (r: Direct)
    requires n > 0 && (inner.Some? ==> inner.value.help == [])
    ensures r.help == []
  {
    if n == 1 then InParens(Declarator(1, inner)) else InParens(Declarator(1, Some(Pointed(n - 1, inner))))
  }

  function RereadDirect(d: Direct, mode: Mode): (r: Direct)
    requires LegibleDirect(d, mode)
    requires d.Nested? && d.help == [] ==> d.declarator.Some? && !Blank(d.declarator.value)
    ensures r.help == []
    decreases d
  {
    match d
    case Name(id, help) =>
      if help == [] then d else InParens(Declarator(0, Some(Name(id, [RereadList(help[0])]))))
    case Nested(inner, help) =>
      if help == [] then Reread(inner.value, mode)
      else if inner.None? || Blank(inner.value) then
        // An empty list becomes one more pair of parentheses.
        if help[0].EmptyList? then InParens(Declarator(0, Some(InParens(NOTHING))))
        else InParens(Declarator(0, Some(Nested(None, [RereadList(help[0])]))))
      else
        InParens(Declarator(0, Some(WithList(Reread(inner.value, mode), RereadList(help[0])))))
  }

  function WithList(d: Direct, h: Help): Direct {
    match d
    case Name(id, _) => Name(id, [h])
    case Nested(inner, _) => Nested(inner, [h])
  }

  function RereadList(h: Help): Help
    requires LegibleList(h)
    decreases h
  {
    match h
    case EmptyList => EmptyList
    case Params(ps) => Params(RereadParams(ps))
  }

  function RereadParams(ps: seq<Parameter>): (r: seq<Parameter>)
    requires LegibleParams(ps)
    ensures |r| == |ps|
    decreases ps
  {
    if ps == [] then [] else [RereadParam(ps[0])] + RereadParams(ps[1..])
  }

  function RereadParam(p: Parameter): Parameter
    requires LegibleParam(p)
    decreases p
  {
    match p.declarator
    case None => p
    case Some(d) => if Blank(d) then Parameter(p.base, None) else Parameter(p.base, Some(Declarator(0, Some(Reread(d, DONTCARE)))))
  }

  // ----- it has the same type -----

  lemma {:induction false} PointedMeans(n: nat, inner: Option<Direct>, t: Type, structs: Structs)
    requires n > 0 && (inner.Some? ==> inner.value.help == [])
    ensures MeaningOfDirect(Pointed(n, inner), t, structs) == Meaning(Declarator(n, inner), t, structs)
    decreases n
  {
    if n == 1 {
      assert Pointers(1, t) == Pointer(t);
    } else {
      PointedMeans(n - 1, inner, Pointer(t), structs);
      assert Pointers(1, t) == Pointer(t);
      assert Pointers(n, t) == Pointers(n - 1, Pointer(t));
      var rest := Declarator(1, Some(Pointed(n - 1, inner)));
      assert Meaning(rest, t, structs) == MeaningOfDirect(Pointed(n - 1, inner), Pointer(t), structs);
    }
  }

  lemma {:induction false} BlankMeans(d: Declarator, t: Type, structs: Structs)
    requires Blank(d)
    ensures Meaning(d, t, structs) == Some(t)
    decreases d, 1
  {
    NoPointers(t);
    if d.direct.Some? {
      BlankDirectMeans(d.direct.value, t, structs);
    }
  }

  lemma {:induction false} BlankDirectMeans(d: Direct, t: Type, structs: Structs)
    requires d.Nested? && d.help == [] && (d.declarator.Some? ==> Blank(d.declarator.value))
    ensures MeaningOfDirect(d, t, structs) == Some(t)
    decreases d, 0
  {
    hide Meaning;
    NoLists(t, structs);
    if d.declarator.Some? {
      BlankMeans(d.declarator.value, t, structs);
    }
  }

  lemma {:induction false} RereadMeans(d: Declarator, mode: Mode, t: Type, structs: Structs)
    requires KeepsLists(d) && Legible(d, mode) && !Blank(d)
    ensures MeaningOfDirect(Reread(d, mode), t, structs) == Meaning(d, t, structs)
    decreases d, 1
  {
    hide Pointers;
    match d.direct
    case None => PointedMeans(d.stars, None, t, structs);
    case Some(direct) =>
      if d.stars == 0 {
        RereadDirectMeans(direct, mode, t, structs);
        NoPointers(t);
      } else if direct.Nested? && direct.help == [] && direct.declarator.Some? && Blank(direct.declarator.value) {
        PointedMeans(d.stars, None, t, structs);
        BlankDirectMeans(direct, Pointers(d.stars, t), structs);
      } else {
        var inner := RereadDirect(direct, mode);
        PointedMeans(d.stars, Some(inner), t, structs);
        RereadDirectMeans(direct, mode, Pointers(d.stars, t), structs);
      }
  }

  lemma NoPointers(t: Type)
    ensures Pointers(0, t) == t
  {
  }

  lemma {:induction false} RereadDirectMeans(d: Direct, mode: Mode, t: Type, structs: Structs)
    requires KeepsDirect(d) && LegibleDirect(d, mode)
    requires d.Nested? && d.help == [] ==> d.declarator.Some? && !Blank(d.declarator.value)
    ensures MeaningOfDirect(RereadDirect(d, mode), t, structs) == MeaningOfDirect(d, t, structs)
    decreases d, 0
  {
    hide Reread, Meaning, Blank, MeaningOfLists;
    NoLists(t, structs);
    if d.help == [] {
      if d.Nested? {
        RereadMeans(d.declarator.value, mode, t, structs);
      }
    } else {
      RereadListsMean(d.help, t, structs);
      var applied := MeaningOfLists(d.help, t, structs);
      match d
      case Name(id, help) =>
        ParensMean(Name(id, [RereadList(help[0])]), t, structs);
      case Nested(inner, help) =>
        var h := RereadList(help[0]);
        if inner.None? || Blank(inner.value) {
          ParensMean(Nested(None, [h]), t, structs);
          if inner.Some? && applied.Some? {
            BlankMeans(inner.value, applied.value, structs);
          }
        } else {
          var r := Reread(inner.value, mode);
          ParensMean(WithList(r, h), t, structs);
          if applied.Some? {
            RereadMeans(inner.value, mode, applied.value, structs);
            NoLists(applied.value, structs);
          }
        }
    }
  }

  lemma NoLists(t: Type, structs: Structs)
    ensures MeaningOfLists([], t, structs) == Some(t)
  {
  }

  lemma {:induction false} ParensMean(d: Direct, t: Type, structs: Structs)
    ensures MeaningOfDirect(InParens(Declarator(0, Some(d))), t, structs) == MeaningOfDirect(d, t, structs)
  {
    hide MeaningOfLists;
    NoLists(t, structs);
    assert Meaning(Declarator(0, Some(d)), t, structs) == MeaningOfDirect(d, Pointers(0, t), structs);
  }

  lemma {:induction false} RereadListsMean(help: seq<Help>, t: Type, structs: Structs)
    requires KeepsHelp(help) && |help| == 1 && LegibleList(help[0])
    ensures MeaningOfLists([RereadList(help[0])], t, structs) == MeaningOfLists(help, t, structs)
    decreases help
  {
    hide MakeFunction;
    match help[0]
    case EmptyList =>
    case Params(ps) => RereadParamsMean(ps, structs);
  }

  lemma {:induction false} RereadParamsMean(ps: seq<Parameter>, structs: Structs)
    requires KeepsParams(ps) && LegibleParams(ps)
    ensures MeaningOfAll(RereadParams(ps), structs) == MeaningOfAll(ps, structs)
    decreases ps
  {
    hide MeaningOfParameter;
    if ps != [] {
      RereadParamMeans(ps[0], structs);
      RereadParamsMean(ps[1..], structs);
      assert RereadParams(ps)[1..] == RereadParams(ps[1..]);
    }
  }

  lemma {:induction false} RereadParamMeans(p: Parameter, structs: Structs)
    requires KeepsParam(p) && LegibleParam(p)
    ensures MeaningOfParameter(RereadParam(p), structs) == MeaningOfParameter(p, structs)
    decreases p
  {
    hide Blank, Reread, CreateType;
    var t := CreateType(p.base, structs);
    if p.declarator.Some? && t.Some? {
      var d := p.declarator.value;
      if Blank(d) {
        BlankMeans(d, t.value, structs);
      } else {
        RereadMeans(d, DONTCARE, t.value, structs);
        NoPointers(t.value);
      }
    }
  }

  // ----- it is written the way the declarator is printed -----

  lemma {:induction false} PointedWrites(n: nat, inner: Option<Direct>)
    requires n > 0 && (inner.Some? ==> inner.value.help == [])
    ensures WriteDirect(Pointed(n, inner))
      == Opens(n) + (if inner.None? then [] else WriteDirect(inner.value)) + Closes(n)
    decreases n
  {
    hide WriteDirect, Write;
    var middle := if inner.None? then [] else WriteDirect(inner.value);
    if n == 1 {
      PointedOnce(inner);
      assert Opens(1) == [Punct(LPAREN), Punct(STAR)] + Opens(0) && Closes(1) == Closes(0) + [Punct(RPAREN)];
    } else {
      PointedWrites(n - 1, inner);
      PointedOnce(Some(Pointed(n - 1, inner)));
      Around(Opens(n - 1), middle, Closes(n - 1));
    }
  }

  lemma {:induction false} PointedOnce(inner: Option<Direct>)
    ensures WriteDirect(InParens(Declarator(1, inner)))
      == [Punct(LPAREN), Punct(STAR)] + (if inner.None? then [] else WriteDirect(inner.value)) + [Punct(RPAREN)]
  {
    hide WriteDirect;
    var middle := if inner.None? then [] else WriteDirect(inner.value);
    ParensWrite(Declarator(1, inner));
    assert Stars(1) == [Punct(STAR)] + Stars(0) == [Punct(STAR)];
    assert [Punct(LPAREN)] + ([Punct(STAR)] + middle) + [Punct(RPAREN)] == [Punct(LPAREN), Punct(STAR)] + middle + [Punct(RPAREN)];
  }

  lemma Around(a: seq<Token>, b: seq<Token>, c: seq<Token>)
    ensures [Punct(LPAREN), Punct(STAR)] + (a + b + c) + [Punct(RPAREN)]
      == ([Punct(LPAREN), Punct(STAR)] + a) + b + (c + [Punct(RPAREN)])
  {
  }

  lemma {:induction false} ParensWrite(d: Declarator)
    ensures WriteDirect(InParens(d)) == [Punct(LPAREN)] + Write(d) + [Punct(RPAREN)]
  {
    hide Write;
    assert WriteLists([]) == [];
  }

  lemma {:induction false} BlankPrints(d: Declarator)
    requires Blank(d)
    ensures Print(d) == []
    decreases d
  {
    if d.direct.Some? && d.direct.value.declarator.Some? {
      BlankPrints(d.direct.value.declarator.value);
    }
  }

  lemma {:induction false} RereadWrites(d: Declarator, mode: Mode)
    requires Legible(d, mode) && !Blank(d)
    ensures WriteDirect(Reread(d, mode)) == Print(d)
    decreases d, 1
  {
    hide WriteDirect, Pointed, RereadDirect, Blank;
    match d.direct
    case None =>
      NeedsStars(d);
      PointedWrites(d.stars, None);
    case Some(direct) =>
      if d.stars == 0 {
        NotBlank(d);
        RereadDirectWrites(direct, mode);
        assert Opens(0) + PrintDirect(direct) + Closes(0) == PrintDirect(direct);
      } else if direct.Nested? && direct.help == [] && direct.declarator.Some? && Blank(direct.declarator.value) {
        PointedWrites(d.stars, None);
        BlankPrints(direct.declarator.value);
      } else {
        PointedWrites(d.stars, Some(RereadDirect(direct, mode)));
        RereadDirectWrites(direct, mode);
      }
  }

  lemma {:induction false} NeedsStars(d: Declarator)
    requires !Blank(d) && d.direct.None?
    ensures d.stars > 0
  {
  }

  lemma {:induction false} NotBlank(d: Declarator)
    requires !Blank(d) && d.stars == 0
    ensures d.direct.Some?
    ensures d.direct.value.Nested? && d.direct.value.help == [] ==>
      d.direct.value.declarator.Some? && !Blank(d.direct.value.declarator.value)
  {
  }

  lemma {:induction false} RereadDirectWrites(d: Direct, mode: Mode)
    requires LegibleDirect(d, mode)
    requires d.Nested? && d.help == [] ==> d.declarator.Some? && !Blank(d.declarator.value)
    ensures WriteDirect(RereadDirect(d, mode)) == PrintDirect(d)
    decreases d, 0
  {
    hide Print, Write, WriteDirect, WriteList, PrintList, Reread, Blank, RereadList;
    match d
    case Name(id, help) =>
      if help == [] {
        PlainNameWrites(id);
      } else {
        RereadListWrites(help[0]);
        NameWrites(id, help, RereadList(help[0]));
      }
    case Nested(inner, help) =>
      if help == [] {
        RereadWrites(inner.value, mode);
      } else {
        RereadListWrites(help[0]);
        var h := RereadList(help[0]);
        if inner.None? || Blank(inner.value) {
          if inner.Some? {
            BlankPrints(inner.value);
          }
          if help[0].EmptyList? {
            EmptyWrites(inner, help);
          } else {
            BareWrites(inner, help, h);
          }
        } else {
          RereadWrites(inner.value, mode);
          ListedWrites(Reread(inner.value, mode), inner.value, help, h);
        }
      }
  }

  lemma {:induction false} PlainNameWrites(id: string)
    ensures WriteDirect(Name(id, [])) == PrintDirect(Name(id, []))
  {
    assert WriteLists([]) == [];
  }

  lemma {:induction false} NameWrites(id: string, help: seq<Help>, h: Help)
    requires |help| == 1 && WriteList(h) == PrintList(help[0])
    ensures WriteDirect(InParens(Declarator(0, Some(Name(id, [h]))))) == PrintDirect(Name(id, help))
  {
    hide WriteDirect, WriteList, PrintList, PrintLists;
    OneList(help);
    DirectWrites(Name(id, [h]));
    assert [Punct(LPAREN)] + ([Ident(id)] + WriteList(h)) + [Punct(RPAREN)]
        == [Punct(LPAREN), Ident(id)] + WriteList(h) + [Punct(RPAREN)];
  }

  lemma {:induction false} EmptyWrites(inner: Option<Declarator>, help: seq<Help>)
    requires help == [EmptyList] && (inner.Some? ==> Print(inner.value) == [])
    ensures WriteDirect(InParens(Declarator(0, Some(InParens(NOTHING))))) == PrintDirect(Nested(inner, help))
  {
    hide Print;
    var p, q := Punct(LPAREN), Punct(RPAREN);
    assert PrintWrapped(help) == [p, q];
    assert PrintDirect(Nested(inner, help)) == [p] + [] + [p, q] + [q] == [p, p, q, q];
    ParensWrite(NOTHING);
    assert Write(NOTHING) == Stars(0) + [] == [];
    var e := Declarator(0, Some(InParens(NOTHING)));
    assert Write(e) == Stars(0) + WriteDirect(InParens(NOTHING)) == [p, q];
    ParensWrite(e);
  }

  lemma {:induction false} BareWrites(inner: Option<Declarator>, help: seq<Help>, h: Help)
    requires |help| == 1 && WriteList(h) == PrintList(help[0]) && (inner.Some? ==> Print(inner.value) == [])
    ensures WriteDirect(InParens(Declarator(0, Some(Nested(None, [h]))))) == PrintDirect(Nested(inner, help))
  {
    hide WriteDirect, WriteList, PrintList, PrintWrapped, Print;
    OneList(help);
    DirectWrites(Nested(None, [h]));
    assert [Punct(LPAREN)] + ([] + WriteList(h)) + [Punct(RPAREN)] == [Punct(LPAREN)] + [] + WriteList(h) + [Punct(RPAREN)];
  }

  lemma {:induction false} ListedWrites(r: Direct, inner: Declarator, help: seq<Help>, h: Help)
    requires |help| == 1 && WriteList(h) == PrintList(help[0]) && r.help == [] && WriteDirect(r) == Print(inner)
    ensures WriteDirect(InParens(Declarator(0, Some(WithList(r, h))))) == PrintDirect(Nested(Some(inner), help))
  {
    hide WriteDirect, WriteList, PrintList, PrintWrapped, Print;
    OneList(help);
    WithListWrites(r, h);
    DirectWrites(WithList(r, h));
    assert [Punct(LPAREN)] + (Print(inner) + WriteList(h)) + [Punct(RPAREN)]
        == [Punct(LPAREN)] + Print(inner) + WriteList(h) + [Punct(RPAREN)];
  }

  lemma {:induction false} OneList(help: seq<Help>)
    requires |help| == 1
    ensures PrintLists(help) == PrintList(help[0]) && PrintWrapped(help) == PrintList(help[0])
  {
    hide PrintList;
    assert help[1..] == [];
  }

  lemma {:induction false} DirectWrites(d: Direct)
    requires |d.help| == 1
    ensures WriteDirect(InParens(Declarator(0, Some(d)))) == [Punct(LPAREN)] + WriteDirect(d) + [Punct(RPAREN)]
    ensures WriteDirect(d) == (match d
      case Name(id, _) => [Ident(id)]
      case Nested(None, _) => []
      case Nested(Some(e), _) => [Punct(LPAREN)] + Write(e) + [Punct(RPAREN)]) + WriteList(d.help[0])
  {
    hide WriteList;
    ParensWrite(Declarator(0, Some(d)));
    assert Stars(0) + WriteDirect(d) == WriteDirect(d);
    assert d.help[1..] == [];
    assert WriteLists(d.help) == WriteList(d.help[0]);
  }

  lemma {:induction false} WithListWrites(d: Direct, h: Help)
    requires d.help == []
    ensures WriteDirect(WithList(d, h)) == WriteDirect(d) + WriteList(h)
  {
    hide WriteList, Write;
    assert [h][1..] == [];
    assert WriteLists([h]) == WriteList(h);
  }

  lemma {:induction false} RereadListWrites(h: Help)
    requires LegibleList(h)
    ensures WriteList(RereadList(h)) == PrintList(h)
    decreases h
  {
    match h
    case EmptyList =>
    case Params(ps) => RereadParamsWrite(ps);
  }

  lemma {:induction false} RereadParamsWrite(ps: seq<Parameter>)
    requires LegibleParams(ps)
    ensures WriteParams(RereadParams(ps)) == PrintParams(ps)
    decreases ps
  {
    hide WriteParam, PrintParam, RereadParam;
    if ps != [] {
      RereadParamWrites(ps[0]);
      RereadParamsWrite(ps[1..]);
      assert RereadParams(ps)[1..] == RereadParams(ps[1..]);
    }
  }

  lemma {:induction false} RereadParamWrites(p: Parameter)
    requires LegibleParam(p)
    ensures WriteParam(RereadParam(p)) == PrintParam(p)
    decreases p
  {
    hide Print, WriteDirect, Blank, Reread;
    if p.declarator.Some? {
      var d := p.declarator.value;
      if Blank(d) {
        BlankPrints(d);
      } else {
        RereadWrites(d, DONTCARE);
        var r := Reread(d, DONTCARE);
        assert Write(Declarator(0, Some(r))) == Stars(0) + WriteDirect(r) == WriteDirect(r);
      }
    }
  }

  // ----- and it can be read -----

  lemma {:induction false} PointedIsWritten(n: nat, inner: Option<Direct>, mode: Mode)
    requires n > 0 && (inner.Some? ==> inner.value.help == [] && WrittenDirect(inner.value, mode))
    ensures WrittenDirect(Pointed(n, inner), mode)
    decreases n
  {
    if n > 1 {
      PointedIsWritten(n - 1, inner, mode);
    }
  }

  lemma {:induction false} RereadIsWritten(d: Declarator, mode: Mode)
    requires Legible(d, mode) && !Blank(d)
    ensures WrittenDirect(Reread(d, mode), mode)
    decreases d, 1
  {
    hide WrittenDirect, RereadDirect, Pointed;
    match d.direct
    case None => PointedIsWritten(d.stars, None, mode);
    case Some(direct) =>
      if d.stars == 0 {
        RereadDirectIsWritten(direct, mode);
      } else if direct.Nested? && direct.help == [] && direct.declarator.Some? && Blank(direct.declarator.value) {
        PointedIsWritten(d.stars, None, mode);
      } else {
        RereadDirectIsWritten(direct, mode);
        PointedIsWritten(d.stars, Some(RereadDirect(direct, mode)), mode);
      }
  }

  lemma {:induction false} RereadDirectIsWritten(d: Direct, mode: Mode)
    requires LegibleDirect(d, mode)
    requires d.Nested? && d.help == [] ==> d.declarator.Some? && !Blank(d.declarator.value)
    ensures WrittenDirect(RereadDirect(d, mode), mode)
    decreases d, 0
  {
    hide Blank, Reread, WrittenList;
    assert WrittenLists([]);
    if d.help == [] {
      if d.Nested? {
        RereadIsWritten(d.declarator.value, mode);
      }
    } else {
      RereadListIsWritten(d.help[0]);
      var h := RereadList(d.help[0]);
      assert [h][1..] == [] && WrittenLists([h]);
      if d.Nested? && d.declarator.Some? && !Blank(d.declarator.value) {
        RereadIsWritten(d.declarator.value, mode);
        var r := WithList(Reread(d.declarator.value, mode), h);
        assert WrittenDirect(r, mode) && Written(Declarator(0, Some(r)), mode);
      } else if d.Nested? && d.help[0].EmptyList? {
        assert Written(NOTHING, mode) && WrittenDirect(InParens(NOTHING), mode);
        assert Written(Declarator(0, Some(InParens(NOTHING))), mode);
      } else if d.Nested? {
        assert WrittenDirect(Nested(None, [h]), mode) && Written(Declarator(0, Some(Nested(None, [h]))), mode);
      } else {
        assert WrittenDirect(Name(d.id, [h]), mode) && Written(Declarator(0, Some(Name(d.id, [h]))), mode);
      }
    }
  }

  lemma {:induction false} RereadListIsWritten(h: Help)
    requires LegibleList(h)
    ensures WrittenList(RereadList(h))
    decreases h
  {
    match h
    case EmptyList =>
    case Params(ps) => RereadParamsAreWritten(ps);
  }

  lemma {:induction false} RereadParamsAreWritten(ps: seq<Parameter>)
    requires LegibleParams(ps)
    ensures WrittenParams(RereadParams(ps))
    decreases ps
  {
    hide WrittenParam, RereadParam;
    if ps != [] {
      RereadParamIsWritten(ps[0]);
      RereadParamsAreWritten(ps[1..]);
      assert RereadParams(ps)[1..] == RereadParams(ps[1..]);
    }
  }

  lemma {:induction false} RereadParamIsWritten(p: Parameter)
    requires LegibleParam(p)
    ensures WrittenParam(RereadParam(p))
    decreases p
  {
    hide Blank, Reread;
    if p.declarator.Some? && !Blank(p.declarator.value) {
      RereadIsWritten(p.declarator.value, DONTCARE);
    }
  }

  // ----- the theorem -----

  /** Printing a declarator and reading the tokens back gives a declarator of the
      same type, for any base type and whatever structs are defined. */
  lemma {:induction false} TypeComesBack(d: Declarator, mode: Mode, rest: seq<Token>, b: Base, structs: Structs)
    requires Printable(d, mode) && !Blank(d) && !Starts(rest, LPAREN)
    ensures var r := ReadDeclarator(Print(d) + rest, mode);
      && r.Got? && r.rest == rest
      && HelpConvert(b, Some(r.t), None, structs) == HelpConvert(b, Some(d), None, structs)
  {
    hide Print, ReadDeclarator, HelpConvert, Meaning, WriteDirect, WrittenDirect, Reread, CreateType;
    var direct := Reread(d, mode);
    var d' := Declarator(0, Some(direct));
    RereadWrites(d, mode);
    RereadIsWritten(d, mode);
    assert Write(d') == Stars(0) + WriteDirect(direct) == WriteDirect(direct);
    DeclaratorReads(d', mode, rest);
    ConversionIsInsideOut(b, d, None, structs);
    ConversionIsInsideOut(b, d', None, structs);
    var t := CreateType(b, structs);
    if t.Some? {
      RereadMeans(d, mode, t.value, structs);
      NoPointers(t.value);
      MeaningOfPlain(direct, t.value, structs);
    }
  }

  lemma {:induction false} MeaningOfPlain(d: Direct, t: Type, structs: Structs)
    ensures Meaning(Declarator(0, Some(d)), t, structs) == MeaningOfDirect(d, t, structs)
  {
    hide MeaningOfDirect;
  }

  /** A nameless function without parameters does not come back: `int ()()` prints
      as `(())` and reads as an int. */
  lemma EmptyListIsLost()
    ensures var d := Declarator(0, Some(Nested(Some(Declarator(0, None)), [EmptyList])));
      && ReadDeclarator(Write(d) + [Punct(RPAREN)], DONTCARE) == Got(d, [Punct(RPAREN)])
      && HelpConvert(BaseInt, Some(d), None, map[]) == Some(Func(Int, []))
      && var r := ReadDeclarator(Print(d) + [Punct(RPAREN)], DONTCARE);
        r.Got? && HelpConvert(BaseInt, Some(r.t), None, map[]) == Some(Int)
  {
    var close := [Punct(RPAREN)];
    var d := Declarator(0, Some(Nested(Some(Declarator(0, None)), [EmptyList])));
    assert WrittenLists([EmptyList]) by { assert [EmptyList][1..] == []; }
    DeclaratorReads(d, DONTCARE, close);
    ConversionIsInsideOut(BaseInt, d, None, map[]);
    assert MeaningOfLists([EmptyList], Int, map[]) == Some(MakeFunction(Int, []));
    var e := Declarator(0, Some(InParens(Declarator(0, Some(InParens(Declarator(0, None)))))));
    assert WrittenLists([]);
    assert Written(Declarator(0, Some(InParens(Declarator(0, None)))), DONTCARE);
    DeclaratorReads(e, DONTCARE, close);
    EmptyPrints();
    ConversionIsInsideOut(BaseInt, e, None, map[]);
    assert Blank(e);
    BlankMeans(e, Int, map[]);
  }

  lemma EmptyPrints()
    ensures var d := Declarator(0, Some(Nested(Some(Declarator(0, None)), [EmptyList])));
      var e := Declarator(0, Some(InParens(Declarator(0, Some(InParens(Declarator(0, None)))))));
      Print(d) == Write(e)
  {
    var p, q := Punct(LPAREN), Punct(RPAREN);
    var d0 := Declarator(0, None);
    var direct := Nested(Some(d0), [EmptyList]);
    assert Print(d0) == [];
    assert PrintWrapped([EmptyList]) == [p, q];
    assert PrintDirect(direct) == [p] + [] + [p, q] + [q];
    assert Print(Declarator(0, Some(direct))) == Opens(0) + [p, p, q, q] + Closes(0) == [p, p, q, q];
    var e1 := Declarator(0, Some(InParens(d0)));
    ParensWrite(d0);
    assert Write(d0) == Stars(0) + [] == [];
    assert Write(e1) == Stars(0) + WriteDirect(InParens(d0)) == [p, q];
    ParensWrite(e1);
    var e := Declarator(0, Some(InParens(e1)));
    assert Write(e) == Stars(0) + WriteDirect(InParens(e1)) == [p, p, q, q];
  }
}
