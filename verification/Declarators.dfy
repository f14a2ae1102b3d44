module Declarators {
  /** Declarators and the types they declare: the accumulator conversion equals the
      inside-out reading of section 6.7.6 of C11. */

  import opened Options
  import opened Types

  datatype Base = BaseInt | BaseChar | BaseVoid | BaseStruct(name: string)

  datatype Declarator = Declarator(stars: nat, direct: Option<Direct>)

  /** A name or a nested declarator, either with parameter lists behind it. An
      abstract function type has neither. */
  datatype Direct =
    | Name(id: string, help: seq<Help>)
    | Nested(declarator: Option<Declarator>, help: seq<Help>)

  datatype Help = Params(params: seq<Parameter>) | EmptyList

  datatype Parameter = Parameter(base: Base, declarator: Option<Declarator>)

  /** The struct types in scope by name; absent ones are errors. */
  type Structs = map<string, nat>

  function CreateType(b: Base, structs: Structs): Option<Type> {
    match b
    case BaseInt => Some(Int)
    case BaseChar => Some(Char)
    case BaseVoid => Some(Void)
    case BaseStruct(n) => if n in structs then Some(Struct("@" + n, structs[n])) else None
  }

  function ParametersOf(help: Help): seq<Parameter> {
    if help.Params? then help.params else []
  }

  // ----- sizes, which the recursion over declarators decreases -----

  function Size(d: Declarator): nat {
    1 + if d.direct.None? then 0 else SizeOfDirect(d.direct.value)
  }

  function SizeOfDirect(d: Direct): nat {
    1 + SizeOfHelp(d.help) + if d.Nested? && d.declarator.Some? then Size(d.declarator.value) else 0
  }

  function SizeOfHelp(help: seq<Help>): nat {
    if help == [] then 0
    else (match help[0] case Params(ps) => 1 + SizeOfParams(ps) case EmptyList => 1) + SizeOfHelp(help[1..])
  }

  function SizeOfParams(ps: seq<Parameter>): nat {
    if ps == [] then 0 else SizeOfParam(ps[0]) + SizeOfParams(ps[1..])
  }

  function SizeOfParam(p: Parameter): nat {
    1 + SizeOfOption(p.declarator)
  }

  function SizeOfOption(d: Option<Declarator>): nat {
    match d
    case None => 0
    case Some(e) => Size(e)
  }

  lemma {:induction false} HelpShrinks(help: seq<Help>)
    requires help != []
    ensures SizeOfParams(ParametersOf(help[0])) < SizeOfHelp(help)
  {
  }

  lemma {:induction false} ParamsShrink(ps: seq<Parameter>)
    requires ps != []
    ensures SizeOfOption(ps[0].declarator) < SizeOfParams(ps) && SizeOfParams(ps[1..]) < SizeOfParams(ps)
  {
    assert SizeOfParam(ps[0]) == 1 + SizeOfOption(ps[0].declarator);
  }

  // ----- what the getters of a declarator say -----

  /** The pointers in front of the next function, and whether there is one. */
  function GetPointers(d: Declarator): (nat, bool) {
    match d.direct
    case None => (d.stars, false)
    case Some(Name(_, help)) => (d.stars, help != [])
    case Some(Nested(inner, help)) =>
      if help == [] && inner.Some? then var p := GetPointers(inner.value); (p.0 + d.stars, p.1)
      else (d.stars, help != [])
  }

  function GetNextDeclarator(d: Declarator): (r: Option<Declarator>)
    ensures r.Some? ==> Size(r.value) < Size(d)
  {
    match d.direct
    case None => None
    case Some(Name(_, _)) => None
    case Some(Nested(inner, help)) => if help == [] && inner.Some? then GetNextDeclarator(inner.value) else inner
  }

  /** The parameters of the next function; several lists are an error. */
  function GetNextParameter(d: Declarator): (r: Option<seq<Parameter>>)
    ensures r.Some? ==> SizeOfParams(r.value) < Size(d)
  {
    match d.direct
    case None => Some([])
    case Some(Name(_, help)) =>
      if |help| == 1 then HelpShrinks(help); Some(ParametersOf(help[0])) else if help == [] then Some([]) else None
    case Some(Nested(inner, help)) =>
      if help == [] then (if inner.Some? then GetNextParameter(inner.value) else Some([]))
      else if |help| == 1 then HelpShrinks(help); Some(ParametersOf(help[0]))
      else None
  }

  // ----- the conversion -----

  function Pointers(n: nat, t: Type): Type {
    if n == 0 then t else Pointers(n - 1, Pointer(t))
  }

  /** What is left of a type after following n pointers. */
  function Dereferenced(u: Type, n: nat): Option<Type> {
    if n == 0 then Some(u) else if u.Pointer? then Dereferenced(u.to, n - 1) else None
  }

  /** The type converted so far is `ret`; at the start it is the base type. */
  function HelpConvert(b: Base, d: Option<Declarator>, ret: Option<Type>, structs: Structs): Option<Type>
    decreases SizeOfOption(d)
  {
    var start := if ret.Some? then ret else CreateType(b, structs);
    if start.None? then None
    else if d.None? then CreateType(b, structs)
    else
      var (stars, isFunction) := GetPointers(d.value);
      var mine := Pointers(stars, start.value);
      if !isFunction then Some(mine)
      else
        match GetNextParameter(d.value)
        case None => None
        case Some(ps) =>
          match ConvertAll(ps, structs)
          case None => None
          case Some(types) =>
            var function_ := MakeFunction(mine, types);
            var next := GetNextDeclarator(d.value);
            if next.Some? then HelpConvert(b, next, Some(function_), structs) else Some(function_)
  }

  function ConvertAll(ps: seq<Parameter>, structs: Structs): (r: Option<seq<Type>>)
    ensures r.Some? ==> |r.value| == |ps|
    decreases SizeOfParams(ps)
  {
    if ps == [] then Some([])
    else
      ParamsShrink(ps);
      match (HelpConvert(ps[0].base, ps[0].declarator, None, structs), ConvertAll(ps[1..], structs))
      case (Some(t), Some(ts)) => Some([t] + ts)
      case _ => None
  }

  // ----- the inside-out reading -----

  /** The type that a declarator gives to its name when what is in front of it has
      type t. */
  function Meaning(d: Declarator, t: Type, structs: Structs): Option<Type>
    decreases d
  {
    if d.direct.None? then Some(Pointers(d.stars, t)) else MeaningOfDirect(d.direct.value, Pointers(d.stars, t), structs)
  }

  function MeaningOfDirect(d: Direct, t: Type, structs: Structs): Option<Type>
    decreases d
  {
    var applied := MeaningOfLists(d.help, t, structs);
    match d
    case Name(_, _) => applied
    case Nested(inner, _) =>
      if applied.None? || inner.None? then applied else Meaning(inner.value, applied.value, structs)
  }

  /** A function returning t, if there is a parameter list. */
  function MeaningOfLists(help: seq<Help>, t: Type, structs: Structs): Option<Type>
    decreases help
  {
    if help == [] then Some(t)
    else if |help| > 1 then None
    else
      match help[0]
      case EmptyList => Some(MakeFunction(t, []))
      case Params(ps) =>
        match MeaningOfAll(ps, structs)
        case Some(ts) => Some(MakeFunction(t, ts))
        case None => None
  }

  function MeaningOfParameter(p: Parameter, structs: Structs): Option<Type>
    decreases p
  {
    match CreateType(p.base, structs)
    case None => None
    case Some(t) => if p.declarator.None? then Some(t) else Meaning(p.declarator.value, t, structs)
  }

  function MeaningOfAll(ps: seq<Parameter>, structs: Structs): Option<seq<Type>>
    decreases ps
  {
    if ps == [] then Some([])
    else
      match (MeaningOfParameter(ps[0], structs), MeaningOfAll(ps[1..], structs))
      case (Some(t), Some(ts)) => Some([t] + ts)
      case _ => None
  }

  // ----- the equality -----

  lemma {:induction false} PointersAdd(m: nat, n: nat, t: Type)
    ensures Pointers(m, Pointers(n, t)) == Pointers(m + n, t)
    decreases n
  {
    if n > 0 {
      PointersAdd(m, n - 1, Pointer(t));
    }
  }

  /** The pointer type `mine`, or a function returning it that the next declarator
      is about. */
  function MeaningOfParts(
    mine: Type, isFunction: bool, ps: Option<seq<Parameter>>, next: Option<Declarator>, structs: Structs): Option<Type>
  {
    if !isFunction then Some(mine)
    else
      match ps
      case None => None
      case Some(ps) =>
        match MeaningOfAll(ps, structs)
        case None => None
        case Some(ts) =>
          var function_ := MakeFunction(mine, ts);
          if next.Some? then Meaning(next.value, function_, structs) else Some(function_)
  }

  lemma {:induction false} ListsMean(help: seq<Help>, t: Type, structs: Structs)
    ensures MeaningOfLists(help, t, structs) ==
      if help == [] then Some(t)
      else if |help| > 1 then None
      else
        match MeaningOfAll(ParametersOf(help[0]), structs)
        case Some(ts) => Some(MakeFunction(t, ts))
        case None => None
  {
    hide MakeFunction;
    assert MeaningOfAll([], structs) == Some([]);
  }

  /** Nested declarators without parameter lists are passed over. */
  lemma {:induction false} MeaningByGetters(d: Declarator, t: Type, structs: Structs)
    ensures var (stars, isFunction) := GetPointers(d);
      Meaning(d, t, structs)
      == MeaningOfParts(Pointers(stars, t), isFunction, GetNextParameter(d), GetNextDeclarator(d), structs)
    decreases d
  {
    hide MakeFunction, MeaningOfLists, MeaningOfAll;
    if d.direct.Some? {
      ListsMean(d.direct.value.help, Pointers(d.stars, t), structs);
    }
    match d.direct
    case None =>
    case Some(Name(_, help)) =>
      assert Meaning(d, t, structs) == MeaningOfLists(help, Pointers(d.stars, t), structs);
    case Some(Nested(inner, help)) =>
      var applied := MeaningOfLists(help, Pointers(d.stars, t), structs);
      assert Meaning(d, t, structs)
          == if applied.None? || inner.None? then applied else Meaning(inner.value, applied.value, structs);
      if help == [] && inner.Some? {
        var p := GetPointers(inner.value);
        assert GetPointers(d) == (p.0 + d.stars, p.1);
        assert GetNextParameter(d) == GetNextParameter(inner.value) && GetNextDeclarator(d) == GetNextDeclarator(inner.value);
        assert Meaning(d, t, structs) == Meaning(inner.value, Pointers(d.stars, t), structs);
        MeaningByGetters(inner.value, Pointers(d.stars, t), structs);
        PointersAdd(p.0, d.stars, t);
      }
  }

  /** The accumulator conversion is the inside-out reading, errors included. */
  lemma {:induction false} ConversionIsInsideOut(b: Base, d: Declarator, ret: Option<Type>, structs: Structs)
    ensures var start := if ret.Some? then ret else CreateType(b, structs);
      HelpConvert(b, Some(d), ret, structs) == if start.None? then None else Meaning(d, start.value, structs)
    decreases Size(d)
  {
    hide MakeFunction, Meaning, GetPointers, CreateType;
    var start := if ret.Some? then ret else CreateType(b, structs);
    if start.Some? {
      MeaningByGetters(d, start.value, structs);
      var ps := GetNextParameter(d);
      if GetPointers(d).1 && ps.Some? {
        ConversionOfAll(ps.value, structs);
        var ts := MeaningOfAll(ps.value, structs);
        var next := GetNextDeclarator(d);
        if ts.Some? && next.Some? {
          ConversionIsInsideOut(b, next.value, Some(MakeFunction(Pointers(GetPointers(d).0, start.value), ts.value)), structs);
        }
      }
    }
  }

  lemma {:induction false} ConversionOfAll(ps: seq<Parameter>, structs: Structs)
    ensures ConvertAll(ps, structs) == MeaningOfAll(ps, structs)
    decreases SizeOfParams(ps)
  {
    hide HelpConvert, Meaning;
    if ps != [] {
      ParamsShrink(ps);
      if ps[0].declarator.Some? {
        ConversionIsInsideOut(ps[0].base, ps[0].declarator.value, None, structs);
        assert ps[0].declarator == Some(ps[0].declarator.value);
      } else {
        ConversionOfNone(ps[0].base, structs);
      }
      ConversionOfAll(ps[1..], structs);
    }
  }

  lemma {:induction false} ConversionOfNone(b: Base, structs: Structs)
    ensures HelpConvert(b, None, None, structs) == CreateType(b, structs)
  {
  }

  // ----- when it fails -----

  /** At most one parameter list at each level, and every struct that is named is
      defined. */
  predicate Convertible(d: Declarator, structs: Structs) {
    d.direct.None? || ConvertibleDirect(d.direct.value, structs)
  }

  predicate ConvertibleDirect(d: Direct, structs: Structs) {
    && |d.help| <= 1 && ConvertibleHelp(d.help, structs)
    && (d.Nested? && d.declarator.Some? ==> Convertible(d.declarator.value, structs))
  }

  predicate ConvertibleHelp(help: seq<Help>, structs: Structs) {
    help == [] || (match help[0] case EmptyList => true case Params(ps) => ConvertibleAll(ps, structs))
  }

  predicate ConvertibleAll(ps: seq<Parameter>, structs: Structs) {
    ps == [] || (ConvertibleParameter(ps[0], structs) && ConvertibleAll(ps[1..], structs))
  }

  predicate ConvertibleParameter(p: Parameter, structs: Structs) {
    CreateType(p.base, structs).Some? && (p.declarator.Some? ==> Convertible(p.declarator.value, structs))
  }

  /** A declarator has a type exactly when it has at most one parameter list at each
      level and names no undefined struct. */
  lemma {:induction false} HasTypeExactlyWhen(d: Declarator, t: Type, structs: Structs)
    ensures Meaning(d, t, structs).Some? <==> Convertible(d, structs)
    decreases d
  {
    hide MakeFunction, CreateType;
    if d.direct.Some? {
      var direct := d.direct.value;
      var t1 := Pointers(d.stars, t);
      HelpHasTypeExactlyWhen(direct.help, t1, structs);
      if direct.Nested? && direct.declarator.Some? && MeaningOfLists(direct.help, t1, structs).Some? {
        HasTypeExactlyWhen(direct.declarator.value, MeaningOfLists(direct.help, t1, structs).value, structs);
      }
    }
  }

  lemma {:induction false} HelpHasTypeExactlyWhen(help: seq<Help>, t: Type, structs: Structs)
    ensures MeaningOfLists(help, t, structs).Some? <==> |help| <= 1 && ConvertibleHelp(help, structs)
    decreases help
  {
    hide MakeFunction, CreateType;
    if |help| == 1 && help[0].Params? {
      AllHaveTypesExactlyWhen(help[0].params, structs);
    }
  }

  lemma {:induction false} AllHaveTypesExactlyWhen(ps: seq<Parameter>, structs: Structs)
    ensures MeaningOfAll(ps, structs).Some? <==> ConvertibleAll(ps, structs)
    decreases ps
  {
    if ps != [] {
      ParameterHasTypeExactlyWhen(ps[0], structs);
      AllHaveTypesExactlyWhen(ps[1..], structs);
    }
  }

  lemma {:induction false} ParameterHasTypeExactlyWhen(p: Parameter, structs: Structs)
    ensures MeaningOfParameter(p, structs).Some? <==> ConvertibleParameter(p, structs)
    decreases p
  {
    hide CreateType;
    var t := CreateType(p.base, structs);
    if t.Some? && p.declarator.Some? {
      HasTypeExactlyWhen(p.declarator.value, t.value, structs);
    }
  }

  // ----- the conversion as a program -----

  method Convert(b: Base, d: Option<Declarator>, ret: Option<Type>, structs: Structs) returns (r: Option<Type>)
    ensures r == HelpConvert(b, d, ret, structs)
    decreases SizeOfOption(d)
  {
    hide Pointers, MakeFunction;
    var mine := if ret.Some? then ret else CreateType(b, structs);
    if mine.None? {
      return None;
    }
    if d.None? {
      return CreateType(b, structs);
    }
    var (pointerCounter, isFunction) := GetPointers(d.value);
    var t := PointTo(pointerCounter, mine.value);
    if !isFunction {
      return Some(t);
    }
    var pa := GetNextParameter(d.value);
    if pa.None? {
      return None;
    }
    var par := [];
    assert pa.value[0..] == pa.value;
    PrependNothing(ConvertAll(pa.value, structs));
    for k := 0 to |pa.value|
      invariant ConvertAll(pa.value, structs) == Prepend(par, ConvertAll(pa.value[k..], structs))
      invariant SizeOfParams(pa.value[k..]) < Size(d.value)
    {
      assert pa.value[k..][1..] == pa.value[k + 1..] && pa.value[k..][0] == pa.value[k];
      ParamsShrink(pa.value[k..]);
      var p := Convert(pa.value[k].base, pa.value[k].declarator, None, structs);
      if p.None? {
        return None;
      }
      PrependSnoc(par, p.value, ConvertAll(pa.value[k + 1..], structs));
      par := par + [p.value];
    }
    assert pa.value[|pa.value|..] == [] && par + [] == par;
    var function_ := MakeFunction(t, par);
    var h := GetNextDeclarator(d.value);
    if h.Some? {
      r := Convert(b, h, Some(function_), structs);
    } else {
      r := Some(function_);
    }
  }

  function Prepend(ts: seq<Type>, more: Option<seq<Type>>): Option<seq<Type>> {
    if more.Some? then Some(ts + more.value) else None
  }

  lemma PrependNothing(more: Option<seq<Type>>)
    ensures Prepend([], more) == more
  {
    if more.Some? {
      assert [] + more.value == more.value;
    }
  }

  lemma PrependSnoc(ts: seq<Type>, t: Type, more: Option<seq<Type>>)
    ensures Prepend(ts, Prepend([t], more)) == Prepend(ts + [t], more)
  {
    if more.Some? {
      assert ts + ([t] + more.value) == ts + [t] + more.value;
    }
  }

  lemma {:induction false} PointersAre(n: nat, t: Type, u: Type)
    ensures Pointers(n, t) == u <==> Dereferenced(u, n) == Some(t)
    decreases n
  {
    if n > 0 {
      PointersAdd(1, n - 1, t);
      assert Pointers(1, Pointers(n - 1, t)) == Pointer(Pointers(n - 1, t));
      if u.Pointer? {
        PointersAre(n - 1, t, u.to);
      }
    }
  }

  method PointTo(n: nat, t: Type) returns (r: Type)
    ensures r == Pointers(n, t) && Dereferenced(r, n) == Some(t)
  {
    PointersAre(n, t, Pointers(n, t));
    if n == 0 {
      r := t;
    } else {
      r := PointTo(n - 1, t);
      r := Pointer(r);
      PointersAdd(1, n - 1, t);
      assert Pointers(1, Pointers(n - 1, t)) == Pointer(Pointers(n - 1, t));
    }
  }
}
