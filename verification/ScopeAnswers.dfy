module ScopeAnswers {
  /** Which actions a run accepts and what a lookup answers, said by the actions before
      alone. */

  import opened Options
  import opened Types
  import opened Scopes
  import opened ScopeRuns

  predicate MakesFunction(a: Action, name: string) { a.DeclareAs? && a.name == name && a.t.Func? }

  predicate MakesOther(a: Action, name: string) { a.DeclareAs? && a.name == name && !a.t.Func? }

  // ----- functions -----

  /** What is known of a function: that some action declared it, that the types agree,
      and whether one of them was a definition. */
  ghost predicate Remembers(actions: seq<Action>, k: nat, name: string)
    requires k <= |actions| && StateAt(actions, k).Some?
  {
    var p := StateAt(actions, k).value;
    && (name in p.functions <==> exists i: nat | i < k :: MakesFunction(actions[i], name))
    && (name in p.functions ==>
          && p.functions[name].0.t.Func?
          && (forall i: nat | i < k && MakesFunction(actions[i], name) :: Same(p.functions[name].0.t, actions[i].t))
          && (p.functions[name].1 <==> forall i: nat | i < k && MakesFunction(actions[i], name) :: actions[i].isForward))
  }

  lemma {:induction false} FunctionStep(p: Plain, a: Action, name: string)
    requires Admitted(p, a) && !PlainStep(p, a).1.Rejected?
    ensures var q := PlainStep(p, a).0;
      if MakesFunction(a, name) then
        && name in q.functions
        && (if name in p.functions
            then q.functions[name].0 == p.functions[name].0 && Same(p.functions[name].0.t, a.t)
              && q.functions[name].1 == (p.functions[name].1 && a.isForward)
            else q.functions[name].0.t == a.t && q.functions[name].1 == a.isForward)
      else
        && (name in q.functions <==> name in p.functions)
        && (name in p.functions ==> q.functions[name] == p.functions[name])
  {
    hide Same;
  }

  lemma StepIs(actions: seq<Action>, k: nat)
    requires k < |actions| && StateAt(actions, k + 1).Some?
    ensures StateAt(actions, k).Some? && Admitted(StateAt(actions, k).value, actions[k])
    ensures PlainStep(StateAt(actions, k).value, actions[k]) ==
      (StateAt(actions, k + 1).value, PlainStep(StateAt(actions, k).value, actions[k]).1)
    ensures !PlainStep(StateAt(actions, k).value, actions[k]).1.Rejected?
  {
  }

  lemma {:induction false} FunctionsAreRemembered(actions: seq<Action>, k: nat, name: string)
    requires k <= |actions| && StateAt(actions, k).Some?
    ensures Remembers(actions, k, name)
    decreases k
  {
    hide Same, PlainStep, Admitted, StateAt;
    if k == 0 {
      FreshState(actions);
    } else {
      StepIs(actions, k - 1);
      FunctionsAreRemembered(actions, k - 1, name);
      var p, a := StateAt(actions, k - 1).value, actions[k - 1];
      FunctionStep(p, a, name);
      if MakesFunction(a, name) {
        SameReflexive(a.t);
      }
    }
  }

  lemma FreshState(actions: seq<Action>)
    ensures StateAt(actions, 0) == Some(FRESH)
  {
  }

  // ----- names -----

  /** The names of the d-th scope from the root. */
  function NamesOf(p: Plain, d: int): map<string, Decl> {
    if 0 < d <= |p.scopes| then p.scopes[|p.scopes| - d].names else map[]
  }

  lemma {:induction false} NamesStep(p: Plain, a: Action, d: int, name: string)
    requires Admitted(p, a) && name in NamesOf(PlainStep(p, a).0, d)
    ensures (name in NamesOf(p, d) && NamesOf(p, d)[name] == NamesOf(PlainStep(p, a).0, d)[name])
      || (a.DeclareAs? && a.name == name && d == |p.scopes| && !p.scopes[0].reentered && PlainStep(p, a).1.Found?
          && NamesOf(PlainStep(p, a).0, d)[name] == PlainStep(p, a).1.decl)
  {
    hide Same, Declare, OpenStruct;
    var (q, answer) := PlainStep(p, a);
    match a
    case OpenBlock => assert q.scopes[1..] == p.scopes;
    case OpenAs(_, _) =>
      if answer.Fine? {
        OpenedNames(p, a.name, a.isForward, d);
      }
    case CloseScope =>
    case DeclareAs(_, _, _) =>
      if answer.Found? {
        DeclaredThere(p, a.name, a.t, a.isForward);
      }
    case Ask(_) =>
  }

  lemma {:induction false} OpenedNames(p: Plain, name: string, isForward: bool, d: int)
    requires p.scopes != [] && OpenStruct(p, name, isForward).Some?
    ensures var q := OpenStruct(p, name, isForward).value;
      NamesOf(q, d) == NamesOf(p, d) || NamesOf(q, d) == map[]
  {
    var q := OpenStruct(p, name, isForward).value;
    assert |q.scopes| == |p.scopes| + 1 && q.scopes[1..][1..] == p.scopes[1..];
    if 0 < d < |p.scopes| {
      assert q.scopes[|q.scopes| - d] == q.scopes[1..][1..][|p.scopes| - 1 - d];
    }
  }

  /** Action i declares the name in a scope that is still open before action j, and that
      was not entered again. */
  predicate Visible(actions: seq<Action>, i: nat, j: nat, name: string)
    requires j <= |actions|
  {
    && i < j && actions[i].DeclareAs? && actions[i].name == name && !Reentered(actions, i)
    && forall m: nat | i <= m <= j :: Depth(actions, m) >= Depth(actions, i)
  }

  /** A name that a scope has was declared there. */
  lemma {:induction false} NameWasDeclared(actions: seq<Action>, j: nat, d: int, name: string) returns (i: nat)
    requires j <= |actions| && StateAt(actions, j).Some? && d <= Depth(actions, j)
    requires name in NamesOf(StateAt(actions, j).value, d)
    ensures Visible(actions, i, j, name) && Depth(actions, i) == d
    decreases j
  {
    hide PlainStep, NamesOf, Admitted, StateAt;
    if j == 0 {
      FreshState(actions);
      NoNames(d, name);
      assert false;
    }
    StepIs(actions, j - 1);
    DepthIs(actions, j - 1);
    var p := StateAt(actions, j - 1).value;
    NamesStep(p, actions[j - 1], d, name);
    if name in NamesOf(p, d) && NamesOf(p, d)[name] == NamesOf(StateAt(actions, j).value, d)[name] {
      NamesAreInside(p, d, name);
      i := NameWasDeclared(actions, j - 1, d, name);
    } else {
      i := j - 1;
    }
  }

  lemma NoNames(d: int, name: string)
    ensures name !in NamesOf(FRESH, d)
  {
  }

  lemma NamesAreInside(p: Plain, d: int, name: string)
    requires name in NamesOf(p, d)
    ensures 0 < d <= |p.scopes|
  {
  }

  /** And what was declared is there, as it was answered. */
  lemma {:induction false} DeclaredIsThere(actions: seq<Action>, i: nat, j: nat, name: string)
    requires j <= |actions| && StateAt(actions, j).Some? && Visible(actions, i, j, name)
    ensures StateAt(actions, i).Some? && Admitted(StateAt(actions, i).value, actions[i])
    ensures var (p, q) := (StateAt(actions, i).value, StateAt(actions, j).value);
      var d := Depth(actions, i);
      && name in NamesOf(q, d) && PlainStep(p, actions[i]).1 == Found(NamesOf(q, d)[name])
      && (NamesOf(q, d)[name].t.Func? <==> actions[i].t.Func?)
  {
    hide Same, Declare, StateAt, Depth;
    EarlierStates(actions, i + 1, j);
    StepIs(actions, i);
    var p := StateAt(actions, i).value;
    var d := Depth(actions, i);
    assert Depth(actions, i + 1) == d by { DeclaringKeepsDepth(actions, i); }
    DepthIs(actions, i);
    DepthIs(actions, i + 1);
    OpenScopeKeeps(actions, i + 1, j, d);
    DeclaredThere(p, name, actions[i].t, actions[i].isForward);
    DeclaredHasType(p, name, actions[i].t, actions[i].isForward);
    SameFunc(PlainStep(p, actions[i]).1.decl.t, actions[i].t);
    NotReentered(actions, i);
    DepthIs(actions, j);
  }

  lemma NotReentered(actions: seq<Action>, i: nat)
    requires i <= |actions| && StateAt(actions, i).Some? && !Reentered(actions, i)
    ensures StateAt(actions, i).value.scopes != [] && !StateAt(actions, i).value.scopes[0].reentered
  {
  }

  lemma DeclaringKeepsDepth(actions: seq<Action>, i: nat)
    requires i < |actions| && actions[i].DeclareAs?
    ensures Depth(actions, i + 1) == Depth(actions, i)
  {
  }

  // ----- the theorems -----

  /** A declaration of a function, be it the first or another, in whatever scope, is
      accepted exactly when all declarations of the function before it have its type, at
      most one of them and it is a definition, and its scope has nothing else of that
      name (which a scope entered again never has). */
  lemma {:induction false} FunctionIsAcceptedExactlyWhen(actions: seq<Action>, j: nat, name: string)
    requires Admits(FRESH, actions) && j < |PlainRun(FRESH, actions)| && j < |actions| && MakesFunction(actions[j], name)
    ensures !PlainRun(FRESH, actions)[j].Rejected? <==>
      && (forall i: nat | i < j && MakesFunction(actions[i], name) ::
            Same(actions[i].t, actions[j].t) && (actions[i].isForward || actions[j].isForward))
      && !(exists i: nat :: i < j && MakesOther(actions[i], name) && SameScope(actions, i, j) && !Reentered(actions, i))
  {
    hide Same, Declare, StateAt, Admits, PlainRun, Depth, PlainStep;
    AnswerIs(actions, j);
    var p, t, f := StateAt(actions, j).value, actions[j].t, actions[j].isForward;
    FunctionsAreRemembered(actions, j, name);
    StatesKeepInvariants(actions, j);
    AcceptedFunction(p, name, t, f);
    if name in p.functions {
      forall i: nat | i < j && MakesFunction(actions[i], name)
        ensures Same(actions[i].t, t) <==> Same(p.functions[name].0.t, t)
      {
        SameAsFirst(p.functions[name].0.t, actions[i].t, t);
      }
    }
    OtherIsThere(actions, j, name);
    DeclareAnswers(p, actions[j]);
  }

  lemma DeclareAnswers(p: Plain, a: Action)
    requires Admitted(p, a) && a.DeclareAs?
    ensures PlainStep(p, a).1.Rejected? <==> Declare(p, a.name, a.t, a.isForward).None?
  {
  }

  lemma {:induction false} AcceptedFunction(p: Plain, name: string, t: Type, isForward: bool)
    requires p.scopes != [] && t.Func? && Shared(p) && (name in p.functions ==> p.functions[name].0.t.Func?)
    ensures Declare(p, name, t, isForward).Some? <==>
      && (name in p.functions ==> Same(p.functions[name].0.t, t) && (p.functions[name].1 || isForward))
      && (name in p.scopes[0].names ==> p.scopes[0].names[name].t.Func?)
  {
    hide Same;
    assert p.scopes[0] in p.scopes;
    var made := Decl(t, p.decls);
    var entry := DeclareFunction(p, name, made, isForward);
    if entry.Some? && name in p.scopes[0].names {
      var here := p.scopes[0].names[name];
      if here.t.Func? {
        SameReflexive(here.t);
      } else if Same(here.t, entry.value.0.t) {
        SameFunc(here.t, entry.value.0.t);
      }
    }
  }

  predicate HasOther(p: Plain, name: string)
    requires p.scopes != []
  {
    name in p.scopes[0].names && !p.scopes[0].names[name].t.Func?
  }

  /** The innermost scope has something of the name that is no function exactly when an
      action declared it there. */
  lemma {:induction false} OtherIsThere(actions: seq<Action>, j: nat, name: string)
    requires j <= |actions| && StateAt(actions, j).Some?
    ensures HasOther(StateAt(actions, j).value, name)
        <==> exists i: nat :: i < j && MakesOther(actions[i], name) && SameScope(actions, i, j) && !Reentered(actions, i)
  {
    hide StateAt, Depth;
    var p := StateAt(actions, j).value;
    var d := Depth(actions, j);
    DepthIs(actions, j);
    assert NamesOf(p, d) == p.scopes[0].names;
    if name in p.scopes[0].names {
      var i := NameWasDeclared(actions, j, d, name);
      DeclaredIsThere(actions, i, j, name);
      assert SameScope(actions, i, j);
      if !p.scopes[0].names[name].t.Func? {
        assert MakesOther(actions[i], name);
      }
    }
    forall i: nat | i < j && MakesOther(actions[i], name) && SameScope(actions, i, j) && !Reentered(actions, i)
      ensures HasOther(p, name)
    {
      DeclaredIsThere(actions, i, j, name);
    }
  }

  /** The first declaration of a name in a scope is accepted, unless it is one of a
      function. (What a second one needs is SecondIsAcceptedExactlyWhen.) */
  lemma {:induction false} FirstIsAccepted(actions: seq<Action>, j: nat, name: string)
    requires Admits(FRESH, actions) && j < |PlainRun(FRESH, actions)| && j < |actions| && MakesOther(actions[j], name)
    requires !exists i: nat :: Visible(actions, i, j, name) && SameScope(actions, i, j)
    ensures !PlainRun(FRESH, actions)[j].Rejected?
  {
    hide Declare, StateAt, Admits, PlainRun, Depth, PlainStep;
    AnswerIs(actions, j);
    var p := StateAt(actions, j).value;
    DepthIs(actions, j);
    AcceptedVariable(p, name, actions[j].t, actions[j].isForward);
    if name in p.scopes[0].names {
      NameIsFromHere(actions, j, name);
      assert false;
    }
    DeclareAnswers(p, actions[j]);
  }

  lemma {:induction false} NameIsFromHere(actions: seq<Action>, j: nat, name: string)
    requires j <= |actions| && StateAt(actions, j).Some? && name in StateAt(actions, j).value.scopes[0].names
    ensures exists i: nat :: Visible(actions, i, j, name) && SameScope(actions, i, j)
  {
    hide StateAt, Depth;
    DepthIs(actions, j);
    var p := StateAt(actions, j).value;
    assert name in NamesOf(p, |p.scopes|);
    var i := NameWasDeclared(actions, j, Depth(actions, j), name);
    assert SameScope(actions, i, j);
  }

  // ----- which declarations are one -----

  lemma {:induction false} AnswersAreNumbered(p: Plain, a: Action)
    requires Admitted(p, a) && Numbered(p)
    ensures var (q, answer) := PlainStep(p, a);
      p.decls <= q.decls && (answer.Found? ==> answer.decl.id < q.decls)
  {
    hide Same;
    if a.Ask? {
      FindIs(p.scopes, a.name);
    }
  }

  lemma {:induction false} NumbersGrow(actions: seq<Action>, i: nat, j: nat)
    requires i <= j <= |actions| && StateAt(actions, j).Some?
    ensures StateAt(actions, i).Some? && StateAt(actions, i).value.decls <= StateAt(actions, j).value.decls
    decreases j
  {
    hide PlainStep, StateAt, Numbered;
    if i < j {
      StepIs(actions, j - 1);
      NumbersGrow(actions, i, j - 1);
      StatesKeepInvariants(actions, j - 1);
      AnswersAreNumbered(StateAt(actions, j - 1).value, actions[j - 1]);
    }
  }

  lemma {:induction false} NewAnswer(p: Plain, a: Action)
    requires Admitted(p, a) && a.DeclareAs? && Shared(p) && !PlainStep(p, a).1.Rejected?
    requires if a.t.Func? then a.name !in p.functions else a.name !in p.scopes[0].names
    ensures PlainStep(p, a).1 == Found(Decl(a.t, p.decls))
  {
    hide Same;
    assert p.scopes[0] in p.scopes;
    if a.t.Func? && a.name in p.scopes[0].names && Same(p.scopes[0].names[a.name].t, a.t) {
      SameFunc(p.scopes[0].names[a.name].t, a.t);
    }
  }

  /** The first declaration of a function, and the first of another name in its scope, has
      the type that it declares and is no declaration that was made or found before. (Later
      ones stand for the first: SameScopeSameType and FunctionsAgree.) */
  lemma {:induction false} FirstIsNew(actions: seq<Action>, i: nat, j: nat, name: string)
    requires Admits(FRESH, actions) && i < j < |PlainRun(FRESH, actions)| && j < |actions|
    requires actions[j].DeclareAs? && actions[j].name == name && !PlainRun(FRESH, actions)[j].Rejected?
    requires if actions[j].t.Func? then !exists k: nat :: k < j && MakesFunction(actions[k], name)
             else !exists k: nat :: Visible(actions, k, j, name) && SameScope(actions, k, j)
    ensures PlainRun(FRESH, actions)[j].Found? && PlainRun(FRESH, actions)[j].decl.t == actions[j].t
    ensures PlainRun(FRESH, actions)[i] != PlainRun(FRESH, actions)[j]
  {
    hide StateAt, Depth, Admits, PlainRun, PlainStep, Numbered, Shared, SameScope, Visible;
    AnswerIs(actions, i);
    AnswerIs(actions, j);
    var p, q := StateAt(actions, i).value, StateAt(actions, j).value;
    StatesKeepInvariants(actions, i);
    StatesKeepInvariants(actions, j);
    FunctionsAreRemembered(actions, j, name);
    if name in q.scopes[0].names {
      NameIsFromHere(actions, j, name);
    }
    NewAnswer(q, actions[j]);
    EarlierStates(actions, i + 1, j);
    StepIs(actions, i);
    AnswersAreNumbered(p, actions[i]);
    NumbersGrow(actions, i + 1, j);
  }

  // ----- lookups -----

  lemma {:induction false} FindIs(scopes: seq<Scope>, name: string)
    ensures FindName(scopes, name).None? <==> forall k | 0 <= k < |scopes| :: name !in scopes[k].names
    ensures FindName(scopes, name).Some? ==> exists k ::
      && 0 <= k < |scopes| && name in scopes[k].names && FindName(scopes, name) == Some(scopes[k].names[name])
      && forall m | 0 <= m < k :: name !in scopes[m].names
    decreases scopes
  {
    if scopes != [] && name !in scopes[0].names {
      FindIs(scopes[1..], name);
      assert forall k | 1 <= k < |scopes| :: scopes[k] == scopes[1..][k - 1];
      if FindName(scopes[1..], name).Some? {
        var k :| 0 <= k < |scopes[1..]| && name in scopes[1..][k].names && FindName(scopes[1..], name) == Some(scopes[1..][k].names[name])
          && forall m | 0 <= m < k :: name !in scopes[1..][m].names;
        assert scopes[k + 1] == scopes[1..][k];
      }
    }
  }

  /** A lookup finds something exactly when a declaration of the name is visible, and
      then it answers as a visible declaration in the innermost such scope did. */
  lemma {:induction false} LookupExactlyWhen(actions: seq<Action>, j: nat, name: string)
    requires Admits(FRESH, actions) && j < |PlainRun(FRESH, actions)| && j < |actions| && actions[j] == Ask(name)
    ensures PlainRun(FRESH, actions)[j].Rejected? <==> !exists i: nat :: Visible(actions, i, j, name)
    ensures forall i: nat | Visible(actions, i, j, name) &&
        (forall i': nat | Visible(actions, i', j, name) :: Depth(actions, i') <= Depth(actions, i)) ::
      PlainRun(FRESH, actions)[j] == PlainRun(FRESH, actions)[i]
  {
    hide StateAt, Depth, Admits, PlainRun, PlainStep, Reentered;
    AnswerIs(actions, j);
    var p := StateAt(actions, j).value;
    DepthIs(actions, j);
    FindIs(p.scopes, name);
    AskAnswers(p, name);
    var found := FindName(p.scopes, name);
    if found.Some? {
      var k :| 0 <= k < |p.scopes| && name in p.scopes[k].names && found == Some(p.scopes[k].names[name])
        && forall m | 0 <= m < k :: name !in p.scopes[m].names;
      var d := |p.scopes| - k;
      var i0 := NameWasDeclared(actions, j, d, name);
      forall i: nat | Visible(actions, i, j, name)
        ensures Depth(actions, i) <= d
        ensures Depth(actions, i) == d ==> PlainRun(FRESH, actions)[j] == PlainRun(FRESH, actions)[i]
      {
        VisibleAnswer(actions, i, j, name);
        var d' := Depth(actions, i);
        NamesAreInside(p, d', name);
        assert name in p.scopes[|p.scopes| - d'].names;
      }
    } else {
      forall i: nat | Visible(actions, i, j, name)
        ensures false
      {
        VisibleAnswer(actions, i, j, name);
        NamesAreInside(p, Depth(actions, i), name);
      }
    }
  }

  lemma AskAnswers(p: Plain, name: string)
    requires Admitted(p, Ask(name))
    ensures PlainStep(p, Ask(name)).1 == (match FindName(p.scopes, name) case Some(d) => Found(d) case None => Rejected)
  {
  }

  lemma {:induction false} VisibleAnswer(actions: seq<Action>, i: nat, j: nat, name: string)
    requires Admits(FRESH, actions) && j < |PlainRun(FRESH, actions)| && j < |actions| && StateAt(actions, j).Some?
    requires Visible(actions, i, j, name)
    ensures i < j && name in NamesOf(StateAt(actions, j).value, Depth(actions, i))
    ensures PlainRun(FRESH, actions)[i] == Found(NamesOf(StateAt(actions, j).value, Depth(actions, i))[name])
  {
    hide StateAt, Depth, Admits, PlainRun, PlainStep;
    DeclaredIsThere(actions, i, j, name);
    AnswerIs(actions, i);
  }

  // ----- structs -----

  /** Opening a struct is accepted exactly when nothing opened it in the same scope before,
      or something announced it there; and always in a scope that was entered again. */
  lemma {:induction false} OpeningIsAcceptedExactlyWhen(actions: seq<Action>, j: nat, name: string, isForward: bool)
    requires Admits(FRESH, actions) && j < |PlainRun(FRESH, actions)| && j < |actions| && actions[j] == OpenAs(name, isForward)
    ensures !PlainRun(FRESH, actions)[j].Rejected? <==>
      || Reentered(actions, j)
      || (exists i: nat :: Announced(actions, i, j, name))
      || !(exists i: nat :: i < j && actions[i].OpenAs? && actions[i].name == name && SameScope(actions, i, j))
  {
    hide StateAt, Depth, Admits, PlainRun, PlainStep, SameScope;
    AnswerIs(actions, j);
    var p := StateAt(actions, j).value;
    DepthIs(actions, j);
    var d := Depth(actions, j);
    OpenAnswers(p, name, isForward);
    ReenteredIsEmpty(actions, j);
    assert StructsOf(p, d) == p.scopes[0].structs;
    if name in p.scopes[0].structs {
      var i := StructWasOpened(actions, j, d, name);
      assert SameScope(actions, i, j) by { ScopeOf(actions, i, j); }
      if p.scopes[0].structs[name].isForward {
        assert Announced(actions, i, j, name);
      } else {
        forall i': nat | Announced(actions, i', j, name)
          ensures false
        {
          StillThere(actions, i', j, name);
        }
      }
    } else {
      forall i: nat | i < j && actions[i].OpenAs? && actions[i].name == name && SameScope(actions, i, j) && !Reentered(actions, j)
        ensures false
      {
        StillThere(actions, i, j, name);
      }
    }
  }

  lemma ScopeOf(actions: seq<Action>, i: nat, j: nat)
    requires i < j <= |actions| && Depth(actions, i) == Depth(actions, j)
    requires forall m: nat | i <= m <= j :: Depth(actions, m) >= Depth(actions, j)
    ensures SameScope(actions, i, j)
  {
  }

  lemma OpenAnswers(p: Plain, name: string, isForward: bool)
    requires Admitted(p, OpenAs(name, isForward))
    ensures PlainStep(p, OpenAs(name, isForward)).1.Rejected?
      <==> name in p.scopes[0].structs && !p.scopes[0].structs[name].isForward
  {
  }
}
