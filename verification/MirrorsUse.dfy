module MirrorsUse {
  /** A declarator mirrors the use of the name it declares (section 6.7.6 of C11): the
      type that it gives is the one from which the operations that it writes around the
      name, the innermost first, lead back to the base type. */

  import opened Options
  import opened Tokens
  import opened Types
  import opened Declarators
  import opened DeclaratorSyntax

  /** What is left of the type of the name after using the name as d does. */
  ghost function Used(d: Declarator, u: Type, structs: Structs): Option<Type>
    decreases d
  {
    match d.direct
    case None => Dereferenced(u, d.stars)
    case Some(direct) =>
      match UsedDirect(direct, u, structs)
      case None => None
      case Some(v) => Dereferenced(v, d.stars)
  }

  ghost function UsedDirect(d: Direct, u: Type, structs: Structs): Option<Type>
    decreases d
  {
    var inner := if d.Nested? && d.declarator.Some? then Used(d.declarator.value, u, structs) else Some(u);
    if inner.None? then None else Called(d.help, inner.value, structs)
  }

  /** Calling a function that takes such parameters gives its result. */
  ghost function Called(help: seq<Help>, u: Type, structs: Structs): Option<Type>
    decreases help
  {
    if help == [] then Some(u)
    else if |help| == 1 && u.Func? && Takes(help[0], u.params, structs) then Some(u.ret)
    else None
  }

  /** These are the types of the parameters: a single void is none, and a single function
      a pointer to it. (Of several parameters, a function stays one.) */
  ghost predicate Takes(h: Help, ts: seq<Type>, structs: Structs)
    decreases h
  {
    match h
    case EmptyList => ts == []
    case Params(ps) =>
      if |ps| == 1 then
        if HasType(ps[0], Void, structs) then ts == []
        else |ts| == 1 && !ts[0].Func? && (HasType(ps[0], ts[0], structs) || (ts[0].Pointer? && ts[0].to.Func? && HasType(ps[0], ts[0].to, structs)))
      else HaveTypes(ps, ts, structs)
  }

  ghost predicate HaveTypes(ps: seq<Parameter>, ts: seq<Type>, structs: Structs)
    decreases ps
  {
    |ts| == |ps| && (ps != [] ==> HasType(ps[0], ts[0], structs) && HaveTypes(ps[1..], ts[1..], structs))
  }

  ghost predicate HasType(p: Parameter, u: Type, structs: Structs)
    decreases p
  {
    var base := CreateType(p.base, structs);
    base.Some? && (if p.declarator.Some? then Used(p.declarator.value, u, structs) == base else Some(u) == base)
  }

  // ----- the conversion mirrors use -----

  lemma {:induction false} MeaningMirrorsUse(d: Declarator, t: Type, u: Type, structs: Structs)
    ensures Meaning(d, t, structs) == Some(u) <==> Used(d, u, structs) == Some(t)
    decreases d
  {
    hide MakeFunction, Pointers, Dereferenced;
    var t1 := Pointers(d.stars, t);
    PointersAre(d.stars, t, t1);
    match d.direct
    case None => PointersAre(d.stars, t, u);
    case Some(direct) =>
      DirectMirrorsUse(direct, t1, u, structs);
      var v := UsedDirect(direct, u, structs);
      if v.Some? {
        PointersAre(d.stars, t, v.value);
      }
  }

  lemma {:induction false} DirectMirrorsUse(d: Direct, t: Type, u: Type, structs: Structs)
    ensures MeaningOfDirect(d, t, structs) == Some(u) <==> UsedDirect(d, u, structs) == Some(t)
    decreases d
  {
    hide MakeFunction, Meaning, Used, MeaningOfLists, Called;
    var applied := MeaningOfLists(d.help, t, structs);
    if d.Nested? && d.declarator.Some? {
      var e := d.declarator.value;
      var w := Used(e, u, structs);
      if applied.Some? {
        MeaningMirrorsUse(e, applied.value, u, structs);
        ListsMirrorUse(d.help, t, applied.value, structs);
      }
      if w.Some? {
        MeaningMirrorsUse(e, w.value, u, structs);
        ListsMirrorUse(d.help, t, w.value, structs);
      }
    } else {
      ListsMirrorUse(d.help, t, u, structs);
    }
  }

  lemma {:induction false} ListsMirrorUse(help: seq<Help>, t: Type, u: Type, structs: Structs)
    ensures MeaningOfLists(help, t, structs) == Some(u) <==> Called(help, u, structs) == Some(t)
    decreases help
  {
    hide Takes;
    if |help| == 1 {
      if u.Func? {
        TakesExactlyWhen(help[0], u.params, structs);
      }
      ListsMean(help, t, structs);
    }
  }

  lemma {:induction false} TakesExactlyWhen(h: Help, ts: seq<Type>, structs: Structs)
    ensures Takes(h, ts, structs)
        <==> MeaningOfAll(ParametersOf(h), structs).Some? && ts == KeptParams(MeaningOfAll(ParametersOf(h), structs).value)
    decreases h
  {
    hide HasType;
    match h
    case EmptyList =>
    case Params(ps) =>
      if |ps| == 1 {
        var all := MeaningOfAll(ps, structs);
        var v := MeaningOfParameter(ps[0], structs);
        OneMeans(ps, structs);
        ParameterMirrorsUse(ps[0], Void, structs);
        if |ts| == 1 {
          ParameterMirrorsUse(ps[0], ts[0], structs);
          if ts[0].Pointer? {
            ParameterMirrorsUse(ps[0], ts[0].to, structs);
          }
        }
      } else {
        AllMirrorUse(ps, ts, structs);
      }
  }

  lemma {:induction false} OneMeans(ps: seq<Parameter>, structs: Structs)
    requires |ps| == 1
    ensures MeaningOfAll(ps, structs) ==
      match MeaningOfParameter(ps[0], structs)
      case Some(v) => Some([v])
      case None => None
  {
    hide MeaningOfParameter;
    assert forall v: Type :: [v] + [] == [v];
    assert ps[1..] == [] && MeaningOfAll([], structs) == Some([]);
  }

  lemma {:induction false} AllMirrorUse(ps: seq<Parameter>, ts: seq<Type>, structs: Structs)
    ensures HaveTypes(ps, ts, structs) <==> MeaningOfAll(ps, structs) == Some(ts)
    decreases ps
  {
    hide HasType, MeaningOfParameter;
    if ps != [] && ts != [] {
      ParameterMirrorsUse(ps[0], ts[0], structs);
      AllMirrorUse(ps[1..], ts[1..], structs);
      assert ts == [ts[0]] + ts[1..];
    }
  }

  lemma {:induction false} ParameterMirrorsUse(p: Parameter, u: Type, structs: Structs)
    ensures HasType(p, u, structs) <==> MeaningOfParameter(p, structs) == Some(u)
    decreases p
  {
    hide Meaning, Used;
    var base := CreateType(p.base, structs);
    if base.Some? && p.declarator.Some? {
      MeaningMirrorsUse(p.declarator.value, base.value, u, structs);
    }
  }

  /** helpConvert gives a declarator type u exactly when using its name as it is written
      leads from u to the type of the specifiers, or to the type converted so far. */
  lemma {:induction false} ConvertsExactlyWhen(b: Base, d: Declarator, ret: Option<Type>, u: Type, structs: Structs)
    ensures var start := if ret.Some? then ret else CreateType(b, structs);
      HelpConvert(b, Some(d), ret, structs) == Some(u) <==> start.Some? && Used(d, u, structs) == start
  {
    hide HelpConvert, Meaning, Used;
    ConversionIsInsideOut(b, d, ret, structs);
    var start := if ret.Some? then ret else CreateType(b, structs);
    if start.Some? {
      MeaningMirrorsUse(d, start.value, u, structs);
    }
  }

  /** A star is one pointer more to the base type. */
  lemma {:induction false} StarIsPointer(b: Base, n: nat, direct: Option<Direct>, t: Type, structs: Structs)
    ensures HelpConvert(b, Some(Declarator(n + 1, direct)), Some(t), structs)
      == HelpConvert(b, Some(Declarator(n, direct)), Some(Pointer(t)), structs)
    ensures HelpConvert(b, Some(Declarator(0, None)), Some(t), structs) == Some(t)
    ensures Meaning(Declarator(n + 1, direct), t, structs) == Meaning(Declarator(n, direct), Pointer(t), structs)
  {
    hide HelpConvert;
    ConversionIsInsideOut(b, Declarator(n + 1, direct), Some(t), structs);
    ConversionIsInsideOut(b, Declarator(n, direct), Some(Pointer(t)), structs);
    ConversionIsInsideOut(b, Declarator(0, None), Some(t), structs);
  }

  /** The specifiers of the language name the types of the language. */
  lemma BasicTypes(rest: seq<Token>, structs: Structs)
    ensures var r := ReadBase([Key(Keyword.INT)] + rest); r.Got? && r.rest == rest && CreateType(r.t, structs) == Some(Int)
    ensures var r := ReadBase([Key(Keyword.CHAR)] + rest); r.Got? && r.rest == rest && CreateType(r.t, structs) == Some(Char)
    ensures var r := ReadBase([Key(Keyword.VOID)] + rest); r.Got? && r.rest == rest && CreateType(r.t, structs) == Some(Void)
  {
  }
}
