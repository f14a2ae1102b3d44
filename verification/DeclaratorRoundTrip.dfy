module DeclaratorRoundTrip {
  /** Exactly which declarators keep their type when they are printed and read back,
      among those that the parser returns and that have a type. */

  import opened Options
  import opened Tokens
  import opened Types
  import opened Declarators
  import opened DeclaratorSyntax
  import opened DeclaratorPrinter

  // ----- function types count the parameter lists -----

  /** How many function types a type is made of. */
  function Funcs(t: Type): nat {
    match t
    case Pointer(u) => Funcs(u)
    case Array(u, _) => Funcs(u)
    case Func(r, ps) => 1 + Funcs(r) + FuncsAll(ps)
    case _ => 0
  }

  function FuncsAll(ts: seq<Type>): nat {
    if ts == [] then 0 else Funcs(ts[0]) + FuncsAll(ts[1..])
  }

  /** How many parameter lists a declarator has, at all levels. */
  function Lists(d: Declarator): nat {
    if d.direct.None? then 0 else ListsOf(d.direct.value)
  }

  function ListsOf(d: Direct): nat {
    ListsOfHelp(d.help) + if d.Nested? && d.declarator.Some? then Lists(d.declarator.value) else 0
  }

  function ListsOfHelp(help: seq<Help>): nat {
    if help == [] then 0
    else 1 + (if help[0].Params? then ListsOfParams(help[0].params) else 0) + ListsOfHelp(help[1..])
  }

  function ListsOfParams(ps: seq<Parameter>): nat {
    if ps == [] then 0 else ListsOfParam(ps[0]) + ListsOfParams(ps[1..])
  }

  function ListsOfParam(p: Parameter): nat {
    if p.declarator.None? then 0 else Lists(p.declarator.value)
  }

  lemma {:induction false} PointersFuncs(n: nat, t: Type)
    ensures Funcs(Pointers(n, t)) == Funcs(t)
    decreases n
  {
    if n > 0 {
      PointersFuncs(n - 1, Pointer(t));
    }
  }

  lemma {:induction false} FunctionFuncs(t: Type, ps: seq<Type>)
    ensures Funcs(MakeFunction(t, ps)) == 1 + Funcs(t) + FuncsAll(ps)
  {
    if |ps| == 1 {
      assert ps[1..] == [] && [Adjusted(ps[0])][1..] == [];
      assert FuncsAll(ps) == Funcs(ps[0]) + FuncsAll([]);
      assert FuncsAll([Adjusted(ps[0])]) == Funcs(Adjusted(ps[0])) + FuncsAll([]);
    }
  }

  lemma {:induction false} MeaningFuncs(d: Declarator, t: Type, structs: Structs)
    requires Meaning(d, t, structs).Some?
    ensures Funcs(Meaning(d, t, structs).value) == Funcs(t) + Lists(d)
    decreases d
  {
    hide Pointers, Funcs, MeaningOfLists;
    PointersFuncs(d.stars, t);
    if d.direct.Some? {
      DirectFuncs(d.direct.value, Pointers(d.stars, t), structs);
    }
  }

  lemma {:induction false} DirectFuncs(d: Direct, t: Type, structs: Structs)
    requires MeaningOfDirect(d, t, structs).Some?
    ensures Funcs(MeaningOfDirect(d, t, structs).value) == Funcs(t) + ListsOf(d)
    decreases d
  {
    hide Funcs, Meaning, MeaningOfLists, Lists;
    ListsFuncs(d.help, t, structs);
    if d.Nested? && d.declarator.Some? {
      MeaningFuncs(d.declarator.value, MeaningOfLists(d.help, t, structs).value, structs);
    }
  }

  lemma {:induction false} ListsFuncs(help: seq<Help>, t: Type, structs: Structs)
    requires MeaningOfLists(help, t, structs).Some?
    ensures Funcs(MeaningOfLists(help, t, structs).value) == Funcs(t) + ListsOfHelp(help)
    decreases help
  {
    hide MakeFunction, Funcs, MeaningOfAll;
    if help != [] {
      match help[0]
      case EmptyList =>
        FunctionFuncs(t, []);
      case Params(ps) =>
        AllFuncs(ps, structs);
        FunctionFuncs(t, MeaningOfAll(ps, structs).value);
    }
  }

  lemma {:induction false} AllFuncs(ps: seq<Parameter>, structs: Structs)
    requires MeaningOfAll(ps, structs).Some?
    ensures FuncsAll(MeaningOfAll(ps, structs).value) == ListsOfParams(ps)
    decreases ps
  {
    hide Funcs, MeaningOfParameter, ListsOfParam;
    if ps != [] {
      ParameterFuncs(ps[0], structs);
      AllFuncs(ps[1..], structs);
      var ts := [MeaningOfParameter(ps[0], structs).value] + MeaningOfAll(ps[1..], structs).value;
      assert ts[1..] == MeaningOfAll(ps[1..], structs).value;
    }
  }

  lemma {:induction false} ParameterFuncs(p: Parameter, structs: Structs)
    requires MeaningOfParameter(p, structs).Some?
    ensures Funcs(MeaningOfParameter(p, structs).value) == ListsOfParam(p)
    decreases p
  {
    hide Meaning;
    if p.declarator.Some? {
      MeaningFuncs(p.declarator.value, CreateType(p.base, structs).value, structs);
    }
  }

  // ----- what is read back has fewer lists if one was lost -----

  lemma {:induction false} BlankLists(d: Declarator)
    requires Blank(d)
    ensures Lists(d) == 0 && KeepsLists(d)
    decreases d
  {
    if d.direct.Some? {
      if d.direct.value.declarator.Some? {
        BlankLists(d.direct.value.declarator.value);
      }
      assert KeepsHelp([]) && ListsOfHelp([]) == 0;
      assert KeepsDirect(d.direct.value) && ListsOf(d.direct.value) == 0;
    }
  }

  lemma {:induction false} PointedLists(n: nat, inner: Option<Direct>)
    requires n > 0 && (inner.Some? ==> inner.value.help == [])
    ensures ListsOf(Pointed(n, inner)) == if inner.None? then 0 else ListsOf(inner.value)
    decreases n
  {
    if n > 1 {
      PointedLists(n - 1, inner);
    }
  }

  lemma {:induction false} RereadLists(d: Declarator, mode: Mode)
    requires Legible(d, mode) && !Blank(d)
    ensures ListsOf(Reread(d, mode)) <= Lists(d)
    ensures !KeepsLists(d) ==> ListsOf(Reread(d, mode)) < Lists(d)
    decreases d, 1
  {
    hide ListsOf, RereadDirect, KeepsDirect;
    match d.direct
    case None => PointedLists(d.stars, None);
    case Some(direct) =>
      if d.stars == 0 {
        RereadDirectLists(direct, mode);
      } else if direct.Nested? && direct.help == [] && direct.declarator.Some? && Blank(direct.declarator.value) {
        PointedLists(d.stars, None);
        BlankLists(Declarator(0, Some(direct)));
      } else {
        PointedLists(d.stars, Some(RereadDirect(direct, mode)));
        RereadDirectLists(direct, mode);
      }
  }

  lemma {:induction false} RereadDirectLists(d: Direct, mode: Mode)
    requires LegibleDirect(d, mode)
    requires d.Nested? && d.help == [] ==> d.declarator.Some? && !Blank(d.declarator.value)
    ensures ListsOf(RereadDirect(d, mode)) <= ListsOf(d)
    ensures !KeepsDirect(d) ==> ListsOf(RereadDirect(d, mode)) < ListsOf(d)
    decreases d, 0
  {
    hide Reread, Blank, RereadList, KeepsLists, Lists;
    if d.help == [] {
      assert KeepsHelp([]) && ListsOfHelp([]) == 0;
      if d.Nested? {
        RereadLists(d.declarator.value, mode);
        assert ListsOf(d) == Lists(d.declarator.value);
        assert KeepsDirect(d) <==> KeepsLists(d.declarator.value);
      }
    } else {
      RereadListLists(d.help);
      var h := RereadList(d.help[0]);
      if d.Nested? && d.declarator.Some? && !Blank(d.declarator.value) {
        RereadLists(d.declarator.value, mode);
        InParensLists(WithList(Reread(d.declarator.value, mode), h));
      } else if d.Nested? {
        if d.declarator.Some? {
          BlankLists(d.declarator.value);
        }
        if d.help[0].EmptyList? {
          InParensLists(InParens(NOTHING));
          InParensNothing();
        } else {
          InParensLists(Nested(None, [h]));
        }
      } else {
        InParensLists(Name(d.id, [h]));
      }
    }
  }

  lemma InParensLists(d: Direct)
    ensures ListsOf(InParens(Declarator(0, Some(d)))) == ListsOf(d)
  {
  }

  lemma InParensNothing()
    ensures ListsOf(InParens(NOTHING)) == 0
  {
  }

  lemma {:induction false} RereadListLists(help: seq<Help>)
    requires |help| == 1 && LegibleList(help[0])
    ensures ListsOfHelp([RereadList(help[0])]) <= ListsOfHelp(help)
    ensures !KeepsHelp(help) ==> ListsOfHelp([RereadList(help[0])]) < ListsOfHelp(help)
    decreases help
  {
    match help[0]
    case EmptyList =>
    case Params(ps) => RereadParamsLists(ps);
  }

  lemma {:induction false} RereadParamsLists(ps: seq<Parameter>)
    requires LegibleParams(ps)
    ensures ListsOfParams(RereadParams(ps)) <= ListsOfParams(ps)
    ensures !KeepsParams(ps) ==> ListsOfParams(RereadParams(ps)) < ListsOfParams(ps)
    decreases ps
  {
    hide KeepsParam, LegibleParam, RereadParam, ListsOfParam;
    if ps != [] {
      RereadParamLists(ps[0]);
      RereadParamsLists(ps[1..]);
      assert RereadParams(ps)[1..] == RereadParams(ps[1..]);
    }
  }

  lemma {:induction false} RereadParamLists(p: Parameter)
    requires LegibleParam(p)
    ensures ListsOfParam(RereadParam(p)) <= ListsOfParam(p)
    ensures !KeepsParam(p) ==> ListsOfParam(RereadParam(p)) < ListsOfParam(p)
    decreases p
  {
    hide Blank, Reread, ListsOf, KeepsLists;
    if p.declarator.Some? {
      if Blank(p.declarator.value) {
        BlankLists(p.declarator.value);
      } else {
        RereadLists(p.declarator.value, DONTCARE);
      }
    }
  }

  // ----- the declared name -----

  function NameOf(d: Declarator): Option<string> {
    if d.direct.None? then None else NameOfDirect(d.direct.value)
  }

  function NameOfDirect(d: Direct): Option<string> {
    match d
    case Name(id, _) => Some(id)
    case Nested(inner, _) => if inner.None? then None else NameOf(inner.value)
  }

  lemma {:induction false} BlankHasNoName(d: Declarator)
    requires Blank(d)
    ensures NameOf(d) == None
    decreases d
  {
    if d.direct.Some? && d.direct.value.declarator.Some? {
      BlankHasNoName(d.direct.value.declarator.value);
    }
  }

  lemma {:induction false} PointedName(n: nat, inner: Option<Direct>)
    requires n > 0 && (inner.Some? ==> inner.value.help == [])
    ensures NameOfDirect(Pointed(n, inner)) == if inner.None? then None else NameOfDirect(inner.value)
    decreases n
  {
    if n > 1 {
      PointedName(n - 1, inner);
    }
  }

  lemma {:induction false} RereadName(d: Declarator, mode: Mode)
    requires Legible(d, mode) && !Blank(d)
    ensures NameOfDirect(Reread(d, mode)) == NameOf(d)
    decreases d, 1
  {
    hide NameOfDirect, RereadDirect;
    match d.direct
    case None => PointedName(d.stars, None);
    case Some(direct) =>
      if d.stars == 0 {
        RereadDirectName(direct, mode);
      } else if direct.Nested? && direct.help == [] && direct.declarator.Some? && Blank(direct.declarator.value) {
        PointedName(d.stars, None);
        BlankHasNoName(Declarator(0, Some(direct)));
      } else {
        PointedName(d.stars, Some(RereadDirect(direct, mode)));
        RereadDirectName(direct, mode);
      }
  }

  lemma {:induction false} RereadDirectName(d: Direct, mode: Mode)
    requires LegibleDirect(d, mode)
    requires d.Nested? && d.help == [] ==> d.declarator.Some? && !Blank(d.declarator.value)
    ensures NameOfDirect(RereadDirect(d, mode)) == NameOfDirect(d)
    decreases d, 0
  {
    hide Reread, Blank, RereadList;
    NameInParens(InParens(NOTHING));
    NoName();
    if d.Nested? && d.declarator.Some? {
      if Blank(d.declarator.value) {
        BlankHasNoName(d.declarator.value);
      } else {
        RereadName(d.declarator.value, mode);
      }
    }
    if d.help != [] {
      var h := RereadList(d.help[0]);
      if d.Name? {
        NameInParens(Name(d.id, [h]));
      } else if d.declarator.None? || Blank(d.declarator.value) {
        NameInParens(Nested(None, [h]));
      } else {
        NameInParens(WithList(Reread(d.declarator.value, mode), h));
      }
    }
  }

  lemma NameInParens(d: Direct)
    ensures NameOfDirect(InParens(Declarator(0, Some(d)))) == NameOfDirect(d)
  {
  }

  lemma NoName()
    ensures NameOfDirect(InParens(NOTHING)) == None
  {
  }

  // ----- what cannot be read at all -----

  /** The first token that is neither an opening parenthesis nor a star. */
  function FirstOf(ts: seq<Token>): Option<Token> {
    if ts == [] then None
    else if ts[0] == Punct(LPAREN) || ts[0] == Punct(STAR) then FirstOf(ts[1..])
    else Some(ts[0])
  }

  predicate KeyFirst(ts: seq<Token>) {
    FirstOf(ts).Some? && FirstOf(ts).value.Key?
  }

  lemma {:induction false} FirstOfSum(a: seq<Token>, b: seq<Token>)
    ensures FirstOf(a + b) == if FirstOf(a).Some? then FirstOf(a) else FirstOf(b)
    decreases a
  {
    if a == [] {
      assert a + b == b;
    } else {
      assert (a + b)[0] == a[0] && (a + b)[1..] == a[1..] + b;
      FirstOfSum(a[1..], b);
    }
  }

  lemma {:induction false} OpensFirst(n: nat)
    ensures FirstOf(Opens(n)) == None
    decreases n
  {
    if n > 0 {
      OpensFirst(n - 1);
      FirstOfSum([Punct(LPAREN), Punct(STAR)], Opens(n - 1));
      assert [Punct(LPAREN), Punct(STAR)][1..] == [Punct(STAR)] && [Punct(STAR)][1..] == [];
    }
  }

  lemma {:induction false} StarsFirst(n: nat)
    ensures FirstOf(Stars(n)) == None
    decreases n
  {
    if n > 0 {
      StarsFirst(n - 1);
      assert Stars(n)[0] == Punct(STAR) && Stars(n)[1..] == Stars(n - 1);
    }
  }

  /** A name or a closing parenthesis comes first in what may be read where a name must
      stand. */
  lemma {:induction false} WrittenFirst(d: Direct)
    requires WrittenDirect(d, NOTABSTRACT)
    ensures FirstOf(WriteDirect(d)).Some? && !KeyFirst(WriteDirect(d))
    decreases d
  {
    hide WriteLists, WrittenLists, Written;
    match d
    case Name(id, help) => FirstOfSum([Ident(id)], WriteLists(help));
    case Nested(Some(e), help) =>
      var open, close := [Punct(LPAREN)], [Punct(RPAREN)];
      assert open[1..] == [] && FirstOf(close) == Some(Punct(RPAREN));
      WrittenStarsFirst(e);
      FirstOfSum(open, Write(e));
      FirstOfSum(open + Write(e), close);
      FirstOfSum(open + Write(e) + close, WriteLists(help));
  }

  lemma {:induction false} WrittenStarsFirst(d: Declarator)
    requires Written(d, NOTABSTRACT)
    ensures !KeyFirst(Write(d)) && (d.direct.Some? ==> FirstOf(Write(d)).Some?)
    decreases d
  {
    hide WriteDirect, WrittenDirect;
    StarsFirst(d.stars);
    if d.direct.Some? {
      WrittenFirst(d.direct.value);
      FirstOfSum(Stars(d.stars), WriteDirect(d.direct.value));
    } else {
      FirstOfSum(Stars(d.stars), []);
    }
  }

  lemma {:induction false} KeyIsNotRead(ts: seq<Token>)
    requires KeyFirst(ts)
    ensures ReadDeclarator(ts, NOTABSTRACT).Failed?
  {
    hide Write, Written, FirstOf, ReadDeclarator;
    var r := ReadDeclarator(ts, NOTABSTRACT);
    if r.Got? {
      DeclaratorReadsExactlyWhen(ts, NOTABSTRACT, r.t, r.rest);
      WrittenStarsFirst(r.t);
      FirstOfSum(Write(r.t), r.rest);
      RestFirst(r.t, r.rest);
    }
  }

  lemma RestFirst(d: Declarator, rest: seq<Token>)
    requires Ends(d, rest) && d.direct.None?
    ensures !KeyFirst(rest)
  {
  }

  // ----- declarators that the parser returns -----

  lemma {:induction false} WrittenIsLegible(d: Declarator, mode: Mode, structs: Structs)
    requires Written(d, mode) && Convertible(d, structs)
    ensures Legible(d, mode) || (mode.NOTABSTRACT? && KeyFirst(Print(d)))
    decreases d
  {
    hide WrittenDirect, LegibleDirect, ConvertibleDirect, PrintDirect;
    if d.direct.Some? {
      WrittenDirectIsLegible(d.direct.value, mode, structs);
      OpensFirst(d.stars);
      FirstOfSum(Opens(d.stars), PrintDirect(d.direct.value));
      FirstOfSum(Opens(d.stars) + PrintDirect(d.direct.value), Closes(d.stars));
    }
  }

  lemma {:induction false} WrittenDirectIsLegible(d: Direct, mode: Mode, structs: Structs)
    requires WrittenDirect(d, mode) && ConvertibleDirect(d, structs)
    ensures LegibleDirect(d, mode) || (mode.NOTABSTRACT? && KeyFirst(PrintDirect(d)))
    decreases d
  {
    hide Written, Legible, Convertible, Blank, Print, PrintList, LegibleList, WrittenList, ConvertibleAll, FirstOf;
    if d.help != [] {
      ListIsLegible(d.help, structs);
    }
    if d.Nested? && d.declarator.Some? {
      var e := d.declarator.value;
      WrittenIsLegible(e, mode, structs);
      var open := [Punct(LPAREN)];
      if d.help != [] {
        OpenFirst();
        FirstOfSum(open, Print(e));
        FirstOfSum(open + Print(e), PrintWrapped(d.help));
        FirstOfSum(open + Print(e) + PrintWrapped(d.help), [Punct(RPAREN)]);
        if Blank(e) && d.help[0].Params? {
          BlankPrints(e);
          NoneFirst();
          ParamsFirst(d.help[0]);
        }
      }
    }
  }

  lemma OpenFirst()
    ensures FirstOf([Punct(LPAREN)]) == None
  {
  }

  lemma NoneFirst()
    ensures FirstOf([]) == None
  {
  }

  lemma {:induction false} ParamsFirst(h: Help)
    requires h.Params? && LegibleList(h)
    ensures KeyFirst(PrintList(h))
  {
    hide PrintParam;
    var ps := h.params;
    var base := WriteBase(ps[0].base);
    assert FirstOf(base) == Some(base[0]) && base[0].Key?;
    OpenFirst();
    FirstOfSum([Punct(LPAREN)], PrintParams(ps));
    FirstOfSum([Punct(LPAREN)] + PrintParams(ps), [Punct(RPAREN)]);
    var more := if ps[0].declarator.None? then [] else Print(ps[0].declarator.value);
    FirstOfSum(base, more);
    ParamIs(ps[0]);
    if |ps| > 1 {
      FirstOfSum(PrintParam(ps[0]), [Punct(COMMA)]);
      FirstOfSum(PrintParam(ps[0]) + [Punct(COMMA)], PrintParams(ps[1..]));
    }
  }

  lemma ParamIs(p: Parameter)
    ensures PrintParam(p) == WriteBase(p.base) + if p.declarator.None? then [] else Print(p.declarator.value)
  {
  }

  lemma {:induction false} ListIsLegible(help: seq<Help>, structs: Structs)
    requires |help| == 1 && WrittenLists(help) && ConvertibleHelp(help, structs)
    ensures LegibleList(help[0])
    decreases help
  {
    match help[0]
    case EmptyList =>
    case Params(ps) => ParamsAreLegible(ps, structs);
  }

  lemma {:induction false} ParamsAreLegible(ps: seq<Parameter>, structs: Structs)
    requires WrittenParams(ps) && ConvertibleAll(ps, structs)
    ensures LegibleParams(ps)
    decreases ps
  {
    hide WrittenParam, ConvertibleParameter, LegibleParam;
    if ps != [] {
      ParamIsLegible(ps[0], structs);
      ParamsAreLegible(ps[1..], structs);
    }
  }

  lemma {:induction false} ParamIsLegible(p: Parameter, structs: Structs)
    requires WrittenParam(p) && ConvertibleParameter(p, structs)
    ensures LegibleParam(p)
    decreases p
  {
    hide Written, Convertible, Legible;
    if p.declarator.Some? {
      WrittenIsLegible(p.declarator.value, DONTCARE, structs);
    }
  }

  // ----- the theorem -----

  /** What is printed of d, in front of rest, is read as a declarator of the same name
      and type. */
  ghost predicate ComesBack(d: Declarator, mode: Mode, rest: seq<Token>, b: Base, structs: Structs) {
    var r := ReadDeclarator(Print(d) + rest, mode);
    && r.Got? && r.rest == rest && NameOf(r.t) == NameOf(d)
    && HelpConvert(b, Some(r.t), None, structs) == HelpConvert(b, Some(d), None, structs)
  }

  lemma {:induction false} LegibleIsReread(d: Declarator, mode: Mode, rest: seq<Token>)
    requires Legible(d, mode) && !Blank(d) && !Starts(rest, LPAREN)
    ensures ReadDeclarator(Print(d) + rest, mode) == Got(Declarator(0, Some(Reread(d, mode))), rest)
  {
    hide Print, ReadDeclarator, WriteDirect, WrittenDirect, Reread;
    var direct := Reread(d, mode);
    var d' := Declarator(0, Some(direct));
    RereadWrites(d, mode);
    RereadIsWritten(d, mode);
    assert Write(d') == Stars(0) + WriteDirect(direct) == WriteDirect(direct);
    DeclaratorReads(d', mode, rest);
  }

  /** A declarator that the parser returns, and that has a type, comes back with this
      type exactly when no empty parameter list of it stands behind a blank, and no
      parameters where a name must. */
  lemma {:induction false} ComesBackExactlyWhen(d: Declarator, mode: Mode, rest: seq<Token>, b: Base, structs: Structs)
    requires Written(d, mode) && Convertible(d, structs) && CreateType(b, structs).Some?
    requires !Blank(d) && !Starts(rest, LPAREN)
    ensures ComesBack(d, mode, rest, b, structs) <==> Printable(d, mode)
  {
    hide Print, ReadDeclarator, HelpConvert, Meaning, Reread, CreateType, Convertible, Written, Legible, KeepsLists, ListsOf, Lists, FirstOf, Funcs, NameOf, NameOfDirect;
    WrittenIsLegible(d, mode, structs);
    var t := CreateType(b, structs).value;
    ConversionIsInsideOut(b, d, None, structs);
    if Printable(d, mode) {
      TypeComesBack(d, mode, rest, b, structs);
      LegibleIsReread(d, mode, rest);
      RereadName(d, mode);
      NameOfPlain(Reread(d, mode));
    } else if Legible(d, mode) {
      LegibleIsReread(d, mode, rest);
      RereadLists(d, mode);
      var d' := Declarator(0, Some(Reread(d, mode)));
      ConversionIsInsideOut(b, d', None, structs);
      HasTypeExactlyWhen(d, t, structs);
      MeaningFuncs(d, t, structs);
      if Meaning(d', t, structs).Some? {
        MeaningFuncs(d', t, structs);
        ListsOfPlain(Reread(d, mode));
      }
    } else {
      FirstOfSum(Print(d), rest);
      KeyIsNotRead(Print(d) + rest);
    }
  }

  lemma NameOfPlain(d: Direct)
    ensures NameOf(Declarator(0, Some(d))) == NameOfDirect(d)
  {
  }

  lemma ListsOfPlain(d: Direct)
    ensures Lists(Declarator(0, Some(d))) == ListsOf(d)
  {
  }
}
