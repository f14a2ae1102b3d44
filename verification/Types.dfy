module Types {
  /** Types of declared things and when two of them are the same. */

  import opened Options

  datatype Type =
    | Int
    | Char
    | Void
    | Pointer(to: Type)
    | Array(element: Type, size: nat)
    | Func(ret: Type, params: seq<Type>)
    | Struct(name: string, uid: nat)

  datatype Kind = INT | CHAR | VOID | PTR | FUNCTION | STRUCT

  /** An array reports itself as a pointer. */
  function KindOf(t: Type): Kind {
    match t
    case Int => INT
    case Char => CHAR
    case Void => VOID
    case Pointer(_) => PTR
    case Array(_, _) => PTR
    case Func(_, _) => FUNCTION
    case Struct(_, _) => STRUCT
  }

  function Pointee(t: Type): (r: Type)
    requires KindOf(t).PTR?
    ensures r < t
  {
    if t.Array? then t.element else t.to
  }

  predicate Same(a: Type, b: Type)
    decreases a
  {
    KindOf(a) == KindOf(b) &&
    match a
    case Func(r, ps) => Same(r, b.ret) && SameAll(ps, b.params)
    case Struct(n, u) => u == b.uid && n == b.name
    case Pointer(_) => Same(Pointee(a), Pointee(b))
    case Array(_, _) => Same(Pointee(a), Pointee(b))
    case _ => true
  }

  predicate SameAll(ps: seq<Type>, qs: seq<Type>)
    decreases ps
  {
    |ps| == |qs| && (ps != [] ==> Same(ps[0], qs[0]) && SameAll(ps[1..], qs[1..]))
  }

  // ----- an equivalence -----

  lemma {:induction false} SameReflexive(a: Type)
    ensures Same(a, a)
    decreases a
  {
    match a
    case Func(r, ps) =>
      SameReflexive(r);
      SameAllReflexive(ps);
    case Pointer(p) => SameReflexive(p);
    case Array(e, _) => SameReflexive(e);
    case _ =>
  }

  lemma {:induction false} SameAllReflexive(ps: seq<Type>)
    ensures SameAll(ps, ps)
    decreases ps
  {
    if ps != [] {
      SameReflexive(ps[0]);
      SameAllReflexive(ps[1..]);
    }
  }

  lemma {:induction false} SameSymmetric(a: Type, b: Type)
    requires Same(a, b)
    ensures Same(b, a)
    decreases a
  {
    match a
    case Func(r, ps) =>
      SameSymmetric(r, b.ret);
      SameAllSymmetric(ps, b.params);
    case Pointer(_) => SameSymmetric(Pointee(a), Pointee(b));
    case Array(_, _) => SameSymmetric(Pointee(a), Pointee(b));
    case _ =>
  }

  lemma {:induction false} SameAllSymmetric(ps: seq<Type>, qs: seq<Type>)
    requires SameAll(ps, qs)
    ensures SameAll(qs, ps)
    decreases ps
  {
    if ps != [] {
      SameSymmetric(ps[0], qs[0]);
      SameAllSymmetric(ps[1..], qs[1..]);
    }
  }

  lemma {:induction false} SameTransitive(a: Type, b: Type, c: Type)
    requires Same(a, b) && Same(b, c)
    ensures Same(a, c)
    decreases a
  {
    match a
    case Func(r, ps) =>
      SameTransitive(r, b.ret, c.ret);
      SameAllTransitive(ps, b.params, c.params);
    case Pointer(_) => SameTransitive(Pointee(a), Pointee(b), Pointee(c));
    case Array(_, _) => SameTransitive(Pointee(a), Pointee(b), Pointee(c));
    case _ =>
  }

  lemma {:induction false} SameAllTransitive(ps: seq<Type>, qs: seq<Type>, rs: seq<Type>)
    requires SameAll(ps, qs) && SameAll(qs, rs)
    ensures SameAll(ps, rs)
    decreases ps
  {
    if ps != [] {
      SameTransitive(ps[0], qs[0], rs[0]);
      SameAllTransitive(ps[1..], qs[1..], rs[1..]);
    }
  }

  /** The type with every array taken as the pointer it decays to. */
  function Decayed(t: Type): Type {
    match t
    case Pointer(p) => Pointer(Decayed(p))
    case Array(e, _) => Pointer(Decayed(e))
    case Func(r, ps) => Func(Decayed(r), DecayedAll(ps))
    case _ => t
  }

  function DecayedAll(ts: seq<Type>): (r: seq<Type>)
    ensures |r| == |ts|
  {
    if ts == [] then [] else [Decayed(ts[0])] + DecayedAll(ts[1..])
  }

  /** Two types compare as the same exactly when they differ in no more than arrays
      in the place of pointers. */
  lemma {:induction false} SameExactlyWhen(a: Type, b: Type)
    ensures Same(a, b) <==> Decayed(a) == Decayed(b)
    decreases a
  {
    match a
    case Func(r, ps) =>
      if b.Func? {
        SameExactlyWhen(r, b.ret);
        SameAllExactlyWhen(ps, b.params);
      }
    case Pointer(p) => if KindOf(b).PTR? { SameExactlyWhen(p, Pointee(b)); }
    case Array(e, _) => if KindOf(b).PTR? { SameExactlyWhen(e, Pointee(b)); }
    case _ =>
  }

  lemma {:induction false} SameAllExactlyWhen(ps: seq<Type>, qs: seq<Type>)
    ensures SameAll(ps, qs) <==> DecayedAll(ps) == DecayedAll(qs)
    decreases ps
  {
    if ps != [] && qs != [] {
      SameExactlyWhen(ps[0], qs[0]);
      SameAllExactlyWhen(ps[1..], qs[1..]);
      assert DecayedAll(ps)[1..] == DecayedAll(ps[1..]);
      assert DecayedAll(qs)[1..] == DecayedAll(qs[1..]);
      assert DecayedAll(ps)[0] == Decayed(ps[0]) && DecayedAll(qs)[0] == Decayed(qs[0]);
    }
  }

  predicate NoArrays(t: Type) {
    match t
    case Array(_, _) => false
    case Pointer(p) => NoArrays(p)
    case Func(r, ps) => NoArrays(r) && NoArraysAll(ps)
    case _ => true
  }

  predicate NoArraysAll(ts: seq<Type>) {
    ts == [] || (NoArrays(ts[0]) && NoArraysAll(ts[1..]))
  }

  /** Types without arrays are compatible exactly when they are equal. */
  lemma {:induction false} SameWithoutArrays(a: Type, b: Type)
    requires NoArrays(a) && NoArrays(b)
    ensures Same(a, b) <==> a == b
    decreases a
  {
    if KindOf(a) == KindOf(b) {
      match a
      case Func(r, ps) =>
        SameWithoutArrays(r, b.ret);
        SameAllWithoutArrays(ps, b.params);
      case Pointer(p) => SameWithoutArrays(p, b.to);
      case _ =>
    }
  }

  lemma {:induction false} SameAllWithoutArrays(ps: seq<Type>, qs: seq<Type>)
    requires NoArraysAll(ps) && NoArraysAll(qs)
    ensures SameAll(ps, qs) <==> ps == qs
    decreases ps
  {
    if ps != [] && qs != [] {
      SameWithoutArrays(ps[0], qs[0]);
      SameAllWithoutArrays(ps[1..], qs[1..]);
      assert ps == [ps[0]] + ps[1..] && qs == [qs[0]] + qs[1..];
    }
  }

  /** An array is compatible with what a pointer to its elements is compatible with. */
  lemma ArrayIsPointer(element: Type, size: nat, b: Type)
    ensures Same(Array(element, size), b) <==> Same(Pointer(element), b)
    ensures Same(b, Array(element, size)) <==> Same(b, Pointer(element))
  {
  }

  /** Types are compatible by their parts. */
  lemma {:induction false} SameByParts(a: Type, b: Type, ps: seq<Type>, qs: seq<Type>)
    ensures Same(Pointer(a), Pointer(b)) <==> Same(a, b)
    ensures Same(Func(a, ps), Func(b, qs)) <==> Same(a, b) && |ps| == |qs| && forall i | 0 <= i < |ps| :: Same(ps[i], qs[i])
  {
    SameAllAt(ps, qs);
  }

  lemma {:induction false} SameAllAt(ps: seq<Type>, qs: seq<Type>)
    ensures SameAll(ps, qs) <==> |ps| == |qs| && forall i | 0 <= i < |ps| :: Same(ps[i], qs[i])
    decreases ps
  {
    if ps != [] && |ps| == |qs| {
      SameAllAt(ps[1..], qs[1..]);
      assert forall i | 1 <= i < |ps| :: ps[i] == ps[1..][i - 1] && qs[i] == qs[1..][i - 1];
      assert forall i | 0 <= i < |ps[1..]| :: ps[1..][i] == ps[i + 1] && qs[1..][i] == qs[i + 1];
    }
  }

  /** Parameters are compared from the last to the first. */
  method CompareTypes(a: Type, b: Type) returns (same: bool)
    ensures same == Same(a, b)
    decreases a
  {
    if KindOf(a) != KindOf(b) {
      return false;
    }
    match a
    case Func(r, ps) =>
      var sameReturn := CompareTypes(r, b.ret);
      if !sameReturn {
        return false;
      }
      SameAllAt(ps, b.params);
      if |ps| != |b.params| {
        return false;
      }
      var i := |ps|;
      while i > 0
        invariant 0 <= i <= |ps| && forall j | i <= j < |ps| :: Same(ps[j], b.params[j])
      {
        i := i - 1;
        var sameParam := CompareTypes(ps[i], b.params[i]);
        if !sameParam {
          return false;
        }
      }
      return true;
    case Pointer(_) => same := CompareTypes(Pointee(a), Pointee(b));
    case Array(_, _) => same := CompareTypes(Pointee(a), Pointee(b));
    case Struct(_, _) => same := a.uid == b.uid && a.name == b.name;
    case _ => same := true;
  }

  // ----- function types -----

  /** A parameter declared as a function is a pointer to it. */
  function Adjusted(t: Type): Type {
    if t.Func? then Pointer(t) else t
  }

  /** The parameters that a function declaration keeps: none for a single void, and
      with its type adjusted if there is exactly one. */
  function KeptParams(ps: seq<Type>): seq<Type> {
    if |ps| != 1 then ps
    else if ps[0].Void? then []
    else [Adjusted(ps[0])]
  }

  function MakeFunction(ret: Type, ps: seq<Type>): Type {
    Func(ret, KeptParams(ps))
  }

  /** What section 6.7.6.3 of C11 makes of a parameter list. */
  function AdjustedParams(ps: seq<Type>): seq<Type> {
    if ps == [Void] then [] else seq(|ps|, i requires 0 <= i < |ps| => Adjusted(ps[i]))
  }

  /** The kept parameters are the standard's exactly when there is one parameter or
      none of them is a function. */
  lemma {:induction false} KeptIsStandardExactlyWhen(ps: seq<Type>)
    ensures KeptParams(ps) == AdjustedParams(ps) <==> |ps| == 1 || forall p <- ps :: !p.Func?
  {
    if |ps| == 1 {
      assert ps == [ps[0]];
    } else if exists p <- ps :: p.Func? {
      var i :| 0 <= i < |ps| && ps[i].Func?;
      assert AdjustedParams(ps)[i] == Pointer(ps[i]);
    } else {
      assert AdjustedParams(ps) == ps;
    }
  }

  class FunctionDeclaration {
    var returnChild: Type
    var parameters: seq<Type>

    constructor (ret: Type, par: seq<Type>)
      ensures Func(returnChild, parameters) == MakeFunction(ret, par)
    {
      returnChild := ret;
      parameters := par;
      new;
      if |parameters| == 1 {
        if parameters[0].Void? {
          parameters := [];
        }
        for i := 0 to |parameters|
          invariant |parameters| <= 1 && returnChild == ret
          invariant i == 0 ==> (parameters == [] && par == [Void]) || (parameters == par && !par[0].Void?)
          invariant i == 1 ==> parameters == [Adjusted(par[0])] && !par[0].Void?
        {
          if parameters[i].Func? {
            parameters := parameters[i := Pointer(parameters[i])];
          }
        }
      }
    }

    /** The parameters of the definition take the place of those of the declarator,
        all of them adjusted; a single void changes nothing. */
    method RebindParameters(par: seq<Type>)
      modifies this`parameters
      ensures if |par| == 1 && par[0].Void? then parameters == old(parameters)
              else parameters == AdjustedParams(par)
    {
      if !(|par| == 1 && par[0].Void?) {
        parameters := [];
        for i := 0 to |par|
          invariant parameters == par[..i]
        {
          parameters := parameters + [par[i]];
        }
        for i := 0 to |parameters|
          invariant |parameters| == |par|
          invariant forall j | 0 <= j < |par| :: parameters[j] == if j < i then Adjusted(par[j]) else par[j]
        {
          if parameters[i].Func? {
            parameters := parameters[i := Pointer(parameters[i])];
          }
        }
      }
    }
  }
}
