module ScopeRuns {
  /** Whole runs of the chain of scopes: what two declarations of one name have in
      common, and which declarations are found again. */

  import opened Options
  import opened Types
  import opened Scopes

  // ----- positions in a run -----

  /** The state before action k, if every action before it was accepted. */
  function StateAt(actions: seq<Action>, k: nat): (r: Option<Plain>)
    requires k <= |actions|
    ensures r.Some? ==> r.value.scopes != []
  {
    if k == 0 then Some(FRESH)
    else
      var p := StateAt(actions, k - 1);
      if p.None? || !Admitted(p.value, actions[k - 1]) then None
      else
        var (q, answer) := PlainStep(p.value, actions[k - 1]);
        if answer.Rejected? then None else Some(q)
  }

  /** How many scopes are open before action k. */
  function Depth(actions: seq<Action>, k: nat): int
    requires k <= |actions|
  {
    if k == 0 then 1
    else
      var d := Depth(actions, k - 1);
      var a := actions[k - 1];
      if a.OpenBlock? || a.OpenAs? then d + 1 else if a.CloseScope? then d - 1 else d
  }

  /** The scope that is innermost before action i is still open, and innermost again,
      before action j. */
  predicate SameScope(actions: seq<Action>, i: nat, j: nat)
    requires i <= |actions| && j <= |actions|
  {
    i <= j && Depth(actions, i) == Depth(actions, j) && forall k: nat | i <= k <= j :: Depth(actions, k) >= Depth(actions, i)
  }

  /** The innermost scope before action k is one that was entered again. */
  predicate Reentered(actions: seq<Action>, k: nat)
    requires k <= |actions|
  {
    StateAt(actions, k).Some? && StateAt(actions, k).value.scopes[0].reentered
  }

  predicate Declares(a: Action, name: string, t: Type) { a.DeclareAs? && a.name == name && a.t == t }

  // ----- what holds in every state -----

  /** A name of function type stands for the entry of that function. */
  ghost predicate Shared(p: Plain) {
    forall s, n | s in p.scopes && n in s.names && s.names[n].t.Func? ::
      n in p.functions && p.functions[n].0 == s.names[n]
  }

  /** Declarations are numbered as they are made. */
  ghost predicate Numbered(p: Plain) {
    && (forall s, n | s in p.scopes && n in s.names :: s.names[n].id < p.decls)
    && (forall n <- p.functions :: p.functions[n].0.id < p.decls)
  }

  lemma {:induction false} SameFunc(a: Type, b: Type)
    requires Same(a, b)
    ensures a.Func? <==> b.Func?
  {
  }

  /** What a declaration stands for has the type that was declared. */
  lemma {:induction false} DeclaredHasType(p: Plain, name: string, t: Type, isForward: bool)
    requires p.scopes != [] && Declare(p, name, t, isForward).Some?
    ensures Same(Declare(p, name, t, isForward).value.1.t, t)
  {
    hide Same;
    SameReflexive(t);
    var kept := Declare(p, name, t, isForward).value.1;
    if t.Func? {
      var entry := DeclareFunction(p, name, Decl(t, p.decls), isForward).value.0;
      SameReflexive(entry.t);
      assert Same(entry.t, t);
      SameTransitive(kept.t, entry.t, t);
    }
  }

  lemma {:induction false} DeclareKeepsInvariants(p: Plain, name: string, t: Type, isForward: bool)
    requires p.scopes != [] && Shared(p) && Numbered(p) && Declare(p, name, t, isForward).Some?
    ensures var (q, d) := Declare(p, name, t, isForward).value;
      && Shared(q) && Numbered(q)
      && (t.Func? ==> name in q.functions && q.functions[name].0 == d)
  {
    hide Same;
    var (q, d) := Declare(p, name, t, isForward).value;
    DeclaredHasType(p, name, t, isForward);
    SameFunc(d.t, t);
    assert p.scopes[0] in p.scopes;
    forall s, n | s in q.scopes && n in s.names
      ensures s.names[n].id < q.decls
      ensures s.names[n].t.Func? ==> n in q.functions && q.functions[n].0 == s.names[n]
    {
      if s !in p.scopes {
        assert s == q.scopes[0] && s == p.scopes[0].WithName(name, d);
      }
    }
  }

  ghost predicate HasNames(p: Plain, names: map<string, Decl>) {
    names == map[] || exists s :: s in p.scopes && s.names == names
  }

  lemma {:induction false} SameNamesKeepInvariants(p: Plain, q: Plain)
    requires Shared(p) && Numbered(p) && q.functions == p.functions && q.decls == p.decls
    requires forall s <- q.scopes :: HasNames(p, s.names)
    ensures Shared(q) && Numbered(q)
  {
  }

  lemma {:induction false} OtherStepsKeepNames(p: Plain, a: Action)
    requires Admitted(p, a) && !a.DeclareAs?
    ensures var q := PlainStep(p, a).0;
      q.functions == p.functions && q.decls == p.decls && forall s <- q.scopes :: HasNames(p, s.names)
  {
    var q := PlainStep(p, a).0;
    assert p.scopes[0] in p.scopes && HasNames(p, p.scopes[0].names);
    forall s | s in q.scopes
      ensures HasNames(p, s.names)
    {
      if s !in p.scopes && s.names != map[] {
        assert s.names == p.scopes[0].names;
      }
    }
  }

  lemma {:induction false} StepKeepsInvariants(p: Plain, a: Action)
    requires Admitted(p, a) && Shared(p) && Numbered(p)
    ensures Shared(PlainStep(p, a).0) && Numbered(PlainStep(p, a).0)
  {
    hide Same, Declare, Shared, Numbered, HasNames, OpenStruct;
    if a.DeclareAs? {
      if PlainStep(p, a).1.Found? {
        DeclareKeepsInvariants(p, a.name, a.t, a.isForward);
      }
    } else {
      OtherStepsKeepNames(p, a);
      SameNamesKeepInvariants(p, PlainStep(p, a).0);
    }
  }

  lemma {:induction false} StatesKeepInvariants(actions: seq<Action>, k: nat)
    requires k <= |actions| && StateAt(actions, k).Some?
    ensures Shared(StateAt(actions, k).value) && Numbered(StateAt(actions, k).value)
    decreases k
  {
    hide PlainStep, Shared, Numbered;
    if k == 0 {
      FreshKeepsInvariants();
    } else {
      StatesKeepInvariants(actions, k - 1);
      StepKeepsInvariants(StateAt(actions, k - 1).value, actions[k - 1]);
    }
  }

  lemma FreshKeepsInvariants()
    ensures Shared(FRESH) && Numbered(FRESH)
  {
  }

  // ----- what a scope keeps while it is open -----

  predicate Extends(s: Scope, s': Scope) {
    && s'.reentered == s.reentered
    && (s.reentered ==> s' == s)
    && (forall n <- s.names :: n in s'.names && s'.names[n] == s.names[n])
    && (forall n <- s.structs :: n in s'.structs && s'.structs[n] == s.structs[n])
  }

  /** The scopes outside the d-th from the root stay; the d-th keeps what it has. */
  predicate Keeps(scopes: seq<Scope>, scopes': seq<Scope>, d: int) {
    && 0 < d <= |scopes| && d <= |scopes'|
    && scopes'[|scopes'| - d + 1..] == scopes[|scopes| - d + 1..]
    && Extends(scopes[|scopes| - d], scopes'[|scopes'| - d])
  }

  lemma {:induction false} StepExtends(p: Plain, a: Action)
    requires Admitted(p, a)
    ensures var q := PlainStep(p, a).0;
      q == p || (a.CloseScope? && q.scopes == p.scopes[1..])
        || (exists top: Scope :: Extends(p.scopes[0], top) && Changed(p.scopes, q.scopes, top))
  {
    hide Same;
    var (q, answer) := PlainStep(p, a);
    match a
    case OpenBlock => assert Changed(p.scopes, q.scopes, p.scopes[0]);
    case OpenAs(name, isForward) =>
      if answer.Fine? {
        if name in p.scopes[0].structs {
          assert Changed(p.scopes, q.scopes, p.scopes[0]);
        } else {
          assert Changed(p.scopes, q.scopes, p.scopes[0].WithStruct(name, StructInfo(p.count, isForward)));
        }
      }
    case CloseScope =>
    case DeclareAs(name, t, isForward) =>
      if answer.Found? {
        assert Changed(p.scopes, q.scopes, p.scopes[0].WithName(name, answer.decl));
      }
    case Ask(_) =>
  }

  /** The top scope is replaced, and there may be another one on it. */
  predicate Changed(scopes: seq<Scope>, scopes': seq<Scope>, top: Scope) {
    scopes != [] && (scopes' == [top] + scopes[1..] || (|scopes'| == |scopes| + 1 && scopes'[1..] == [top] + scopes[1..]))
  }

  lemma {:induction false} ChangedKeeps(scopes: seq<Scope>, scopes': seq<Scope>, top: Scope, d: int)
    requires 0 < d <= |scopes| && Changed(scopes, scopes', top) && Extends(scopes[0], top)
    ensures Keeps(scopes, scopes', d)
  {
    hide Extends;
    var lower := if scopes' == [top] + scopes[1..] then scopes' else scopes'[1..];
    assert lower == [top] + scopes[1..];
    assert scopes'[|scopes'| - d..] == lower[|scopes| - d..];
    assert scopes'[|scopes'| - d + 1..] == lower[|scopes| - d + 1..];
    if d < |scopes| {
      assert lower[|scopes| - d] == scopes[|scopes| - d];
      ExtendsSelf(scopes[|scopes| - d]);
    }
  }

  lemma ExtendsSelf(s: Scope)
    ensures Extends(s, s)
  {
  }

  lemma {:induction false} StepKeeps(p: Plain, a: Action, d: int)
    requires Admitted(p, a) && 0 < d <= |p.scopes| && d <= |PlainStep(p, a).0.scopes|
    ensures Keeps(p.scopes, PlainStep(p, a).0.scopes, d)
  {
    hide PlainStep, Extends;
    var q := PlainStep(p, a).0;
    StepExtends(p, a);
    if q == p || (a.CloseScope? && q.scopes == p.scopes[1..]) {
      ExtendsSelf(p.scopes[|p.scopes| - d]);
    } else {
      var top :| Extends(p.scopes[0], top) && Changed(p.scopes, q.scopes, top);
      ChangedKeeps(p.scopes, q.scopes, top, d);
    }
  }

  lemma {:induction false} DepthIs(actions: seq<Action>, k: nat)
    requires k <= |actions| && StateAt(actions, k).Some?
    ensures |StateAt(actions, k).value.scopes| == Depth(actions, k)
    decreases k
  {
    hide Same;
    if k > 0 {
      DepthIs(actions, k - 1);
    }
  }

  lemma {:induction false} EarlierStates(actions: seq<Action>, i: nat, j: nat)
    requires i <= j <= |actions| && StateAt(actions, j).Some?
    ensures StateAt(actions, i).Some?
    decreases j
  {
    hide PlainStep;
    if i < j {
      EarlierStates(actions, i, j - 1);
    }
  }

  /** While a scope is open it keeps what it has, and the scopes around it stay. */
  lemma {:induction false} OpenScopeKeeps(actions: seq<Action>, i: nat, j: nat, d: int)
    requires i <= j <= |actions| && StateAt(actions, j).Some? && 0 < d
    requires forall k: nat | i <= k <= j :: Depth(actions, k) >= d
    ensures StateAt(actions, i).Some? && Keeps(StateAt(actions, i).value.scopes, StateAt(actions, j).value.scopes, d)
    decreases j
  {
    hide PlainStep, Depth;
    EarlierStates(actions, i, j);
    DepthIs(actions, i);
    if i == j {
    } else {
      EarlierStates(actions, j - 1, j);
      OpenScopeKeeps(actions, i, j - 1, d);
      DepthIs(actions, j - 1);
      DepthIs(actions, j);
      StepKeeps(StateAt(actions, j - 1).value, actions[j - 1], d);
    }
  }

  // ----- answers -----

  lemma {:induction false} RunFrom(actions: seq<Action>, k: nat)
    requires Admits(FRESH, actions) && k <= |actions| && StateAt(actions, k).Some?
    ensures var p := StateAt(actions, k).value;
      && Admits(p, actions[k..])
      && |PlainRun(FRESH, actions)| >= k
      && PlainRun(FRESH, actions)[k..] == PlainRun(p, actions[k..])
    decreases k
  {
    hide PlainStep;
    if k == 0 {
      assert actions[0..] == actions;
    } else {
      EarlierStates(actions, k - 1, k);
      RunFrom(actions, k - 1);
      assert actions[k - 1..][0] == actions[k - 1] && actions[k - 1..][1..] == actions[k..];
      var run, later := PlainRun(FRESH, actions), PlainRun(StateAt(actions, k - 1).value, actions[k - 1..]);
      assert run[k..] == run[k - 1..][1..] == later[1..];
    }
  }

  /** The k-th answer is the one that the state before the k-th action gives. */
  lemma {:induction false} AnswerIs(actions: seq<Action>, k: nat)
    requires Admits(FRESH, actions) && k < |PlainRun(FRESH, actions)|
    ensures k < |actions| && StateAt(actions, k).Some? && Admitted(StateAt(actions, k).value, actions[k])
    ensures PlainRun(FRESH, actions)[k] == PlainStep(StateAt(actions, k).value, actions[k]).1
    decreases k
  {
    hide PlainStep;
    var run := PlainRun(FRESH, actions);
    if k > 0 {
      AnswerIs(actions, k - 1);
      RunFrom(actions, k - 1);
      var p := StateAt(actions, k - 1).value;
      assert actions[k - 1..][0] == actions[k - 1];
      assert PlainRun(p, actions[k - 1..])[1] == run[k - 1..][1];
      StepKeepsScopes(p, actions[k - 1]);
    }
    RunFrom(actions, k);
    assert run[k] == run[k..][0];
    assert actions[k..] != [] && actions[k..][0] == actions[k];
  }

  lemma StepKeepsScopes(p: Plain, a: Action)
    requires Admitted(p, a)
    ensures PlainStep(p, a).0.scopes != []
  {
  }

  /** What an accepted declaration does to the scope it is made in, and which
      declaration it stands for. */
  lemma {:induction false} DeclaredThere(p: Plain, name: string, t: Type, isForward: bool)
    requires p.scopes != [] && Declare(p, name, t, isForward).Some?
    ensures var (q, d) := Declare(p, name, t, isForward).value;
      && q.scopes == p.scopes[0 := p.scopes[0].WithName(name, d)]
      && (name in p.scopes[0].names ==> d == p.scopes[0].names[name] && (t.Func? || |p.scopes| == 1))
      && (name !in p.scopes[0].names && !t.Func? ==> d == Decl(t, p.decls))
  {
    hide Same;
  }

  /** Two accepted declarations of one name in one scope, whatever lies between them,
      have compatible types and stand for one declaration; unless they declare a
      function they are at file scope. */
  lemma {:induction false} SameScopeSameType(
    actions: seq<Action>, i: nat, j: nat, name: string, t: Type, t': Type)
    requires Admits(FRESH, actions) && i < j < |PlainRun(FRESH, actions)| && !PlainRun(FRESH, actions)[j].Rejected?
    requires i < j < |actions| && Declares(actions[i], name, t) && Declares(actions[j], name, t')
    requires SameScope(actions, i, j) && !Reentered(actions, i)
    ensures PlainRun(FRESH, actions)[j] == PlainRun(FRESH, actions)[i]
    ensures Same(t, t') && (t'.Func? || Depth(actions, i) == 1)
  {
    hide Same, Declare, Depth, SameScope, Keeps;
    AnswerIs(actions, i);
    AnswerIs(actions, j);
    EarlierStates(actions, i + 1, j);
    var p, q, r := StateAt(actions, i).value, StateAt(actions, i + 1).value, StateAt(actions, j).value;
    var f, f' := actions[i].isForward, actions[j].isForward;
    DeclaredThere(p, name, t, f);
    DeclaredThere(r, name, t', f');
    InnermostKeeps(actions, i, j);
    var d := Declare(p, name, t, f).value.1;
    assert name in r.scopes[0].names && r.scopes[0].names[name] == d;
    DeclaredHasType(p, name, t, f);
    DeclaredHasType(r, name, t', f');
    SameSymmetric(d.t, t);
    SameTransitive(t, d.t, t');
    DepthIs(actions, j);
    assert Depth(actions, i) == Depth(actions, j) by { InnermostDepth(actions, i, j); }
  }

  lemma InnermostDepth(actions: seq<Action>, i: nat, j: nat)
    requires i <= |actions| && j <= |actions| && SameScope(actions, i, j)
    ensures Depth(actions, i) == Depth(actions, j)
  {
  }

  /** A declaration opens no scope: what its scope has behind it stays there. */
  lemma {:induction false} InnermostKeeps(actions: seq<Action>, i: nat, j: nat)
    requires i < j <= |actions| && StateAt(actions, j).Some? && actions[i].DeclareAs? && SameScope(actions, i, j)
    ensures StateAt(actions, i + 1).Some?
    ensures var q, r := StateAt(actions, i + 1).value, StateAt(actions, j).value;
      Extends(q.scopes[0], r.scopes[0]) && r.scopes[1..] == q.scopes[1..]
  {
    hide PlainStep, Extends;
    var d := Depth(actions, i);
    assert Depth(actions, i + 1) == d;
    EarlierStates(actions, i + 1, j);
    DepthIs(actions, i + 1);
    DepthIs(actions, j);
    OpenScopeKeeps(actions, i + 1, j, d);
  }

  // ----- functions -----

  /** An entry of a function is never replaced; once it has its body it keeps it. */
  lemma {:induction false} EntriesStay(actions: seq<Action>, i: nat, j: nat, name: string)
    requires i <= j <= |actions| && StateAt(actions, j).Some?
    requires StateAt(actions, i).Some? && name in StateAt(actions, i).value.functions
    ensures var (p, q) := (StateAt(actions, i).value, StateAt(actions, j).value);
      && name in q.functions && q.functions[name].0 == p.functions[name].0
      && (q.functions[name].1 ==> p.functions[name].1)
    decreases j
  {
    hide PlainStep;
    if i < j {
      EarlierStates(actions, j - 1, j);
      EntriesStay(actions, i, j - 1, name);
      EntryStays(StateAt(actions, j - 1).value, actions[j - 1], name);
    }
  }

  lemma {:induction false} EntryStays(p: Plain, a: Action, name: string)
    requires Admitted(p, a) && name in p.functions
    ensures var q := PlainStep(p, a).0;
      && name in q.functions && q.functions[name].0 == p.functions[name].0
      && (q.functions[name].1 ==> p.functions[name].1)
  {
    hide Same;
  }

  lemma {:induction false} EntryMade(p: Plain, name: string, t: Type, isForward: bool)
    requires p.scopes != [] && t.Func? && Declare(p, name, t, isForward).Some?
    ensures var q := Declare(p, name, t, isForward).value.0;
      && name in q.functions
      && (!isForward ==> !q.functions[name].1)
      && (name in p.functions && !isForward ==> p.functions[name].1)
  {
    hide Same;
  }

  /** Any two accepted declarations of one function, in whatever scopes, have compatible
      types and stand for one declaration, and at most one of them is a definition. */
  lemma {:induction false} FunctionsAgree(
    actions: seq<Action>, i: nat, j: nat, name: string, t: Type, t': Type)
    requires Admits(FRESH, actions) && i < j < |PlainRun(FRESH, actions)| && !PlainRun(FRESH, actions)[j].Rejected?
    requires i < j < |actions| && Declares(actions[i], name, t) && Declares(actions[j], name, t')
    requires t.Func? && t'.Func?
    ensures PlainRun(FRESH, actions)[j] == PlainRun(FRESH, actions)[i]
    ensures Same(t, t') && (actions[i].isForward || actions[j].isForward)
  {
    hide Same, Declare, Shared, Numbered;
    AnswerIs(actions, i);
    AnswerIs(actions, j);
    EarlierStates(actions, i + 1, j);
    var p, r := StateAt(actions, i).value, StateAt(actions, j).value;
    var f, f' := actions[i].isForward, actions[j].isForward;
    StatesKeepInvariants(actions, i);
    StatesKeepInvariants(actions, j);
    DeclareKeepsInvariants(p, name, t, f);
    DeclareKeepsInvariants(r, name, t', f');
    EntryMade(p, name, t, f);
    EntryMade(r, name, t', f');
    EntriesStay(actions, i + 1, j, name);
    EntryStays(r, actions[j], name);
    var d := Declare(p, name, t, f).value.1;
    DeclaredHasType(p, name, t, f);
    DeclaredHasType(r, name, t', f');
    SameSymmetric(d.t, t);
    SameTransitive(t, d.t, t');
  }

  // ----- scopes that are entered again -----

  /** A function of this name is visible before action k. */
  predicate SeesFunction(actions: seq<Action>, k: nat, name: string)
    requires k <= |actions| && StateAt(actions, k).Some?
  {
    var found := FindName(StateAt(actions, k).value.scopes, name);
    found.Some? && found.value.t.Func?
  }

  /** A lookup in the scope of a declaration finds that declaration, unless the scope
      was entered again: then it does so exactly when a function is declared that was
      visible before. */
  lemma {:induction false} FoundAgainExactlyWhen(actions: seq<Action>, i: nat, j: nat, name: string, t: Type)
    requires Admits(FRESH, actions) && i < j < |PlainRun(FRESH, actions)|
    requires i < j < |actions| && Declares(actions[i], name, t) && actions[j] == Ask(name)
    requires SameScope(actions, i, j)
    ensures StateAt(actions, i).Some?
    ensures PlainRun(FRESH, actions)[j] == PlainRun(FRESH, actions)[i]
        <==> (Reentered(actions, i) ==> t.Func? && SeesFunction(actions, i, name))
  {
    hide Same, Declare, Depth, SameScope, Keeps, Shared;
    AnswerIs(actions, i);
    AnswerIs(actions, j);
    EarlierStates(actions, i + 1, j);
    var p, q, r := StateAt(actions, i).value, StateAt(actions, i + 1).value, StateAt(actions, j).value;
    DeclaredThere(p, name, t, actions[i].isForward);
    InnermostKeeps(actions, i, j);
    var d := Declare(p, name, t, actions[i].isForward).value.1;
    if Reentered(actions, i) {
      assert r.scopes == [r.scopes[0]] + r.scopes[1..] == [q.scopes[0]] + q.scopes[1..] == q.scopes == p.scopes;
      StatesKeepInvariants(actions, i);
      ReenteredIsEmpty(actions, i);
      ReenteredFinds(p, name, t, actions[i].isForward);
    } else {
      assert name in r.scopes[0].names && r.scopes[0].names[name] == d;
    }
  }

  lemma {:induction false} ReenteredFinds(p: Plain, name: string, t: Type, isForward: bool)
    requires p.scopes != [] && p.scopes[0] == REENTERED && Shared(p) && Numbered(p)
    requires Declare(p, name, t, isForward).Some?
    ensures FindName(p.scopes, name) == Some(Declare(p, name, t, isForward).value.1)
        <==> t.Func? && FindName(p.scopes, name).Some? && FindName(p.scopes, name).value.t.Func?
  {
    hide Same, Declare, Numbered, Shared;
    var (q, d) := Declare(p, name, t, isForward).value;
    DeclaredThere(p, name, t, isForward);
    DeclareKeepsInvariants(p, name, t, isForward);
    DeclaredHasType(p, name, t, isForward);
    SameFunc(d.t, t);
    if FindName(p.scopes, name).Some? {
      FoundIsThere(p, p.scopes, name);
      if FindName(p.scopes, name).value.t.Func? && t.Func? {
        EntryStays(p, DeclareAs(name, t, isForward), name);
      }
    }
  }

  lemma {:induction false} FoundIsThere(p: Plain, scopes: seq<Scope>, name: string)
    requires Numbered(p) && Shared(p) && (forall s <- scopes :: s in p.scopes) && FindName(scopes, name).Some?
    ensures var d := FindName(scopes, name).value;
      d.id < p.decls && (d.t.Func? ==> name in p.functions && p.functions[name].0 == d)
    decreases scopes
  {
    if name in scopes[0].names {
      assert scopes[0] in p.scopes;
    } else {
      FoundIsThere(p, scopes[1..], name);
    }
  }

  predicate EmptyIfReentered(scopes: seq<Scope>) {
    forall s <- scopes :: s.reentered ==> s == REENTERED
  }

  lemma {:induction false} ReenteredIsEmpty(actions: seq<Action>, k: nat)
    requires k <= |actions| && StateAt(actions, k).Some?
    ensures EmptyIfReentered(StateAt(actions, k).value.scopes)
    decreases k
  {
    hide Same;
    if k > 0 {
      ReenteredIsEmpty(actions, k - 1);
      var p, q := StateAt(actions, k - 1).value, StateAt(actions, k).value;
      assert p.scopes[0] in p.scopes;
      forall s | s in q.scopes && s !in p.scopes
        ensures s.reentered ==> s == REENTERED
      {
        StepExtends(p, actions[k - 1]);
      }
    }
  }

  /** A second declaration in the scope, of something that is no function, is accepted
      exactly when it has the type of the first and is at file scope; or, whatever its
      type, if the scope was entered again. */
  lemma {:induction false} SecondIsAcceptedExactlyWhen(
    actions: seq<Action>, i: nat, j: nat, name: string, t: Type, t': Type)
    requires Admits(FRESH, actions) && i < j < |PlainRun(FRESH, actions)|
    requires i < j < |actions| && Declares(actions[i], name, t) && Declares(actions[j], name, t') && !t'.Func?
    requires SameScope(actions, i, j)
    ensures !PlainRun(FRESH, actions)[j].Rejected?
        <==> Reentered(actions, i) || (Same(t, t') && Depth(actions, i) == 1)
  {
    hide Same, Declare, Depth, SameScope, Keeps;
    AnswerIs(actions, i);
    AnswerIs(actions, j);
    EarlierStates(actions, i + 1, j);
    var p, r := StateAt(actions, i).value, StateAt(actions, j).value;
    DeclaredThere(p, name, t, actions[i].isForward);
    InnermostKeeps(actions, i, j);
    var d := Declare(p, name, t, actions[i].isForward).value.1;
    DeclaredHasType(p, name, t, actions[i].isForward);
    DepthIs(actions, j);
    assert Depth(actions, i) == Depth(actions, j) by { InnermostDepth(actions, i, j); }
    if Reentered(actions, i) {
      ReenteredIsEmpty(actions, j);
      assert r.scopes[0] == REENTERED;
      AcceptedVariable(r, name, t', actions[j].isForward);
    } else {
      AcceptedVariable(r, name, t', actions[j].isForward);
      SameAsFirst(d.t, t, t');
    }
  }

  lemma {:induction false} AcceptedVariable(p: Plain, name: string, t: Type, isForward: bool)
    requires p.scopes != [] && !t.Func?
    ensures Declare(p, name, t, isForward).Some?
        <==> name !in p.scopes[0].names || (Same(p.scopes[0].names[name].t, t) && |p.scopes| == 1)
  {
    hide Same;
  }

  lemma {:induction false} SameAsFirst(first: Type, t: Type, t': Type)
    requires Same(first, t)
    ensures Same(first, t') <==> Same(t, t')
  {
    hide Same;
    SameSymmetric(first, t);
    if Same(first, t') {
      SameTransitive(t, first, t');
    }
    if Same(t, t') {
      SameTransitive(first, t, t');
    }
  }

  /** The structs of the d-th scope from the root. */
  function StructsOf(p: Plain, d: int): map<string, StructInfo> {
    if 0 < d <= |p.scopes| then p.scopes[|p.scopes| - d].structs else map[]
  }

  lemma {:induction false} OpenedStructs(p: Plain, name: string, isForward: bool, d: int)
    requires p.scopes != [] && OpenStruct(p, name, isForward).Some?
    ensures var q := OpenStruct(p, name, isForward).value;
      StructsOf(q, d) == StructsOf(p, d)
        || (d == |p.scopes| && name !in StructsOf(p, d)
            && exists info: StructInfo :: info.isForward == isForward && StructsOf(q, d) == StructsOf(p, d)[name := info])
        || (d == |p.scopes| + 1 && StructsOf(q, d) == map[])
  {
    var q := OpenStruct(p, name, isForward).value;
    assert |q.scopes| == |p.scopes| + 1 && q.scopes[1..][1..] == p.scopes[1..];
    if 0 < d < |p.scopes| {
      assert q.scopes[|q.scopes| - d] == q.scopes[1..][1..][|p.scopes| - 1 - d];
    }
  }

  lemma {:induction false} StructsStep(p: Plain, a: Action, d: int, name: string)
    requires Admitted(p, a) && name in StructsOf(PlainStep(p, a).0, d)
    ensures (name in StructsOf(p, d) && StructsOf(p, d)[name] == StructsOf(PlainStep(p, a).0, d)[name])
      || (a == OpenAs(name, StructsOf(PlainStep(p, a).0, d)[name].isForward) && d == |p.scopes|)
  {
    hide Same, Declare, OpenStruct;
    var (q, answer) := PlainStep(p, a);
    match a
    case OpenBlock => assert q.scopes[1..] == p.scopes;
    case OpenAs(_, _) =>
      if answer.Fine? {
        OpenedStructs(p, a.name, a.isForward, d);
      }
    case CloseScope =>
    case DeclareAs(_, _, _) =>
      if answer.Found? {
        DeclaredThere(p, a.name, a.t, a.isForward);
      }
    case Ask(_) =>
  }

  /** A struct that a scope has was opened there. */
  lemma {:induction false} StructWasOpened(actions: seq<Action>, k: nat, d: int, name: string) returns (i: nat)
    requires k <= |actions| && StateAt(actions, k).Some? && d <= Depth(actions, k)
    requires name in StructsOf(StateAt(actions, k).value, d)
    ensures i < k && Depth(actions, i) == d && forall m: nat | i <= m <= k :: Depth(actions, m) >= d
    ensures actions[i] == OpenAs(name, StructsOf(StateAt(actions, k).value, d)[name].isForward)
    decreases k
  {
    hide PlainStep, StructsOf;
    if k == 0 {
      NoDeeper(FRESH, d, name);
    }
    EarlierStates(actions, k - 1, k);
    DepthIs(actions, k - 1);
    var p := StateAt(actions, k - 1).value;
    StructsStep(p, actions[k - 1], d, name);
    if name in StructsOf(p, d) && StructsOf(p, d)[name] == StructsOf(StateAt(actions, k).value, d)[name] {
      NoDeeper(p, d, name);
      i := StructWasOpened(actions, k - 1, d, name);
    } else {
      i := k - 1;
    }
  }

  lemma NoDeeper(p: Plain, d: int, name: string)
    requires name in StructsOf(p, d)
    ensures 0 < d <= |p.scopes| && p != FRESH
  {
  }

  /** A struct's scope is one entered again exactly when an earlier action announced
      the struct in the same scope, which was not itself entered again. */
  lemma {:induction false} ReenteredExactlyWhen(actions: seq<Action>, k: nat, name: string, isForward: bool)
    requires k < |actions| && StateAt(actions, k + 1).Some? && actions[k] == OpenAs(name, isForward)
    ensures Reentered(actions, k + 1)
      <==> !Reentered(actions, k) && exists i: nat :: Announced(actions, i, k, name)
  {
    hide Same, Depth, Declare, Keeps;
    EarlierStates(actions, k, k + 1);
    DepthIs(actions, k);
    var p := StateAt(actions, k).value;
    ReenteredIsEmpty(actions, k);
    if Reentered(actions, k + 1) {
      assert name in StructsOf(p, |p.scopes|);
      var i := StructWasOpened(actions, k, Depth(actions, k), name);
      assert Announced(actions, i, k, name);
    } else if !Reentered(actions, k) && exists i: nat :: Announced(actions, i, k, name) {
      var i: nat :| Announced(actions, i, k, name);
      StillThere(actions, i, k, name);
    }
  }

  /** Action i announced the struct in the scope that is innermost before action k. */
  predicate Announced(actions: seq<Action>, i: nat, k: nat, name: string)
    requires k <= |actions|
  {
    i < k && actions[i] == OpenAs(name, true) && SameScope(actions, i, k)
  }

  /** A struct opened in a scope stays there, as an announced one if it was announced. */
  lemma {:induction false} StillThere(actions: seq<Action>, i: nat, k: nat, name: string)
    requires i < k <= |actions| && StateAt(actions, k).Some? && SameScope(actions, i, k) && !Reentered(actions, k)
    requires actions[i].OpenAs? && actions[i].name == name
    ensures var here := StateAt(actions, k).value.scopes[0].structs;
      name in here && (actions[i].isForward ==> here[name].isForward)
  {
    hide Same, Declare, PlainStep;
    var d := Depth(actions, i);
    EarlierStates(actions, i, k);
    DepthIs(actions, i);
    DepthIs(actions, k);
    OpenScopeKeeps(actions, i, k, d);
    OpenScopeKeeps(actions, i + 1, k, d);
    OpenedIsThere(StateAt(actions, i).value, name, actions[i].isForward);
  }

  lemma {:induction false} OpenedIsThere(p: Plain, name: string, isForward: bool)
    requires p.scopes != [] && !p.scopes[0].reentered && !PlainStep(p, OpenAs(name, isForward)).1.Rejected?
    ensures var there := StructsOf(PlainStep(p, OpenAs(name, isForward)).0, |p.scopes|);
      name in there && (isForward ==> there[name].isForward)
  {
    var q := PlainStep(p, OpenAs(name, isForward)).0;
    assert q.scopes[1..] == [q.scopes[1]] + p.scopes[1..];
  }

  // ----- a struct that is announced before it is completed -----

  /** `struct S *p; struct S { int x; char x; ... x ...`, without the declaration of p. */
  const COMPLETED := [
    OpenAs("@S", true), CloseScope, OpenAs("@S", false),
    DeclareAs("x", Int, true), DeclareAs("x", Char, true), Ask("x")]

  /** `struct S { int x; char x;` */
  const DEFINED := [OpenAs("@S", false), DeclareAs("x", Int, true), DeclareAs("x", Char, true)]

  /** Both members of one name are accepted and neither is found, where the same two
      members of a struct that was not announced are rejected. */
  lemma {:induction false} MembersAreLost()
    ensures Admits(FRESH, COMPLETED) && Admits(FRESH, DEFINED)
    ensures PlainRun(FRESH, COMPLETED) == [Fine, Fine, Fine, Found(Decl(Int, 0)), Found(Decl(Char, 1)), Rejected]
    ensures PlainRun(FRESH, DEFINED) == [Fine, Found(Decl(Int, 0)), Rejected]
  {
    var p1 := PlainStep(FRESH, COMPLETED[0]).0;
    var root := Scope(map[], map["@S" := StructInfo(1, true)], false);
    assert p1.scopes == [EMPTY_SCOPE, root];
    var p2 := PlainStep(p1, CloseScope).0;
    assert p2.scopes == [root];
    var p3 := PlainStep(p2, COMPLETED[2]).0;
    assert p3.scopes == [REENTERED, root];
    var p4 := PlainStep(p3, COMPLETED[3]).0;
    assert p4 == p3.(decls := 1);
    var p5 := PlainStep(p4, COMPLETED[4]).0;
    assert p5 == p3.(decls := 2);
    assert FindName(p5.scopes, "x") == FindName(p5.scopes[1..], "x") == FindName([], "x") == None;
    RunStep(p5, COMPLETED[5..]);
    RunStep(p4, COMPLETED[4..]);
    RunStep(p3, COMPLETED[3..]);
    RunStep(p2, COMPLETED[2..]);
    RunStep(p1, COMPLETED[1..]);
    RunStep(FRESH, COMPLETED);
    var q1 := PlainStep(FRESH, DEFINED[0]).0;
    assert q1.scopes[0] == EMPTY_SCOPE && |q1.scopes| == 2;
    var q2 := PlainStep(q1, DEFINED[1]).0;
    RunStep(q2, DEFINED[2..]);
    RunStep(q1, DEFINED[1..]);
    RunStep(FRESH, DEFINED);
  }

  lemma {:induction false} RunStep(p: Plain, actions: seq<Action>)
    requires actions != [] && Admitted(p, actions[0])
    requires var (q, answer) := PlainStep(p, actions[0]); answer.Rejected? || Admits(q, actions[1..])
    ensures Admits(p, actions)
    ensures var (q, answer) := PlainStep(p, actions[0]);
      PlainRun(p, actions) == if answer.Rejected? then [answer] else [answer] + PlainRun(q, actions[1..])
  {
  }
}
