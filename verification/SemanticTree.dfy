/** The semantic tree: nodes, the current one, and the per-name stacks, updated in
    place. Its observable state is that of the plain chain of scopes. */
module SemanticTree {
  import opened Options
  import opened Types
  import opened Scopes

  class Tree {
    var nodes: seq<Node>
    var currentPos: nat
    var declarationMap: map<string, Stack<Decl>>
    /** A struct is entered under the node around its own. */
    var structMap: map<string, Stack<StructInfo>>
    var functionMap: map<string, (Decl, bool)>
    var declarations: nat

    ghost predicate Valid()
      reads this
    {
      && ActivePath(nodes, currentPos)
      && (forall n <- declarationMap :: Chained(declarationMap[n], nodes))
      && (forall n <- structMap :: Chained(structMap[n], nodes))
    }

    /** The plain model's state. */
    ghost function State(): Plain
      reads this
      requires Valid()
    {
      Plain(ScopesOf(declarationMap, structMap, nodes, Path(nodes, currentPos)), functionMap, |nodes|, declarations)
    }

    /** The node of every struct is below the one that the struct is entered under. */
    ghost predicate NodesFit()
      reads this
    {
      AllFit(structMap, nodes)
    }

    constructor ()
      ensures Valid() && NodesFit() && State() == FRESH && currentPos == 0
    {
      nodes, currentPos := [Node(-1, true)], 0;
      declarationMap, structMap, functionMap, declarations := map[], map[], map[], 0;
      new;
      assert Path(nodes, 0) == [0];
      assert NamesAt<Decl>(map[], 0) == map[] && NamesAt<StructInfo>(map[], 0) == map[];
      assert ScopesOf(map[], map[], nodes, [0]) == [EMPTY_SCOPE];
    }

    /** A new node below the current one. */
    method NewNode()
      requires Valid()
      modifies this`nodes, this`currentPos
      ensures Valid() && State() == Open(old(State())) && currentPos == |old(nodes)|
      ensures nodes == old(nodes) + [Node(old(currentPos), true)]
    {
      ghost var before, path := nodes, Path(nodes, currentPos);
      nodes := nodes + [Node(currentPos, true)];
      ghost var n := |before|;
      assert IsTree(nodes);
      GrownTree(before, nodes, currentPos);
      currentPos := |nodes| - 1;
      forall m | m in declarationMap
        ensures Chained(declarationMap[m], nodes)
      {
        ChainedSame(declarationMap[m], before, nodes);
      }
      forall m | m in structMap
        ensures Chained(structMap[m], nodes)
      {
        ChainedSame(structMap[m], before, nodes);
      }
      NewNodeEmpty(declarationMap, before, n);
      NewNodeEmpty(structMap, before, n);
      assert Path(nodes, n)[1..] == path;
      ScopesSame(declarationMap, structMap, declarationMap, structMap, before, nodes, path);
      HereIs(declarationMap, structMap, nodes, Path(nodes, n));
    }

    /** Opens a scope, for a block or, with a name, for a struct; for one that was
        announced in the same scope its node becomes the current one again. */
    method AddChild(name: Option<string>, isForward: bool) returns (ok: bool)
      requires Valid() && NodesFit()
      modifies this
      ensures Valid() && NodesFit()
      ensures name.None? ==> ok && State() == Open(old(State()))
      ensures name.Some? ==>
        var p := OpenStruct(old(State()), name.value, isForward);
        ok == p.Some? && (ok ==> State() == p.value) && (!ok ==> State() == old(State()))
    {
      hide Path, Chained, Fits, AllFit, ScopesOf, NamesAt, At;
      ok := true;
      if name.Some? {
        var st := DeleteNotActiveStructs(name.value);
        TopHere(st, nodes, currentPos);
        HereIs(declarationMap, structMap, nodes, Path(nodes, currentPos));
        TopIsHere(structMap, name.value, st, currentPos);
        if st != [] && st[0].0 == currentPos {
          if st[0].1.isForward {
            TopFits(st, nodes);
            ReenteredTree(nodes, currentPos, st[0].1.node);
            ReenteredScopes(declarationMap, structMap, nodes, currentPos, st[0].1.node);
            currentPos := st[0].1.node;
            return true;
          }
          return false;
        }
        PushedFits(structMap, name.value, st, nodes, currentPos, isForward);
        PushStruct(name.value, st, StructInfo(|nodes|, isForward));
      } else {
        GrownFits(structMap, nodes, currentPos);
      }
      NewNode();
    }

    ghost predicate TopOf<V(!new)>(stacks: map<string, Stack<V>>, name: string, st: Stack<V>)
      reads this
      requires Valid()
    {
      && (if name in stacks then stacks[name] == st else st == [])
      && Chained(st, nodes) && (st != [] ==> nodes[st[0].0].active)
    }

    method DeleteNotActiveStructs(name: string) returns (st: Stack<StructInfo>)
      requires Valid()
      modifies this`structMap
      ensures Valid() && State() == old(State()) && TopOf(structMap, name, st)
      ensures old(NodesFit()) ==> NodesFit() && Fits(st, nodes)
      ensures var found := FindStruct(State().scopes, name);
        found == if st == [] then None else Some(st[0].1)
    {
      hide FindStruct, Path, AllFit, ScopesOf, Prune, NamesAt, At;
      st := [];
      FindStructIsFirstAt(declarationMap, structMap, nodes, Path(nodes, currentPos), name);
      if name in structMap {
        PrunedStructs(declarationMap, structMap, name, nodes, currentPos);
        st := Pop(structMap[name]);
        if NodesFit() {
          PrunedFits(structMap, name, nodes);
        }
        structMap := structMap[name := st];
      }
    }

    method DeleteNotActiveNodes(name: string) returns (st: Stack<Decl>)
      requires Valid()
      modifies this`declarationMap
      ensures Valid() && State() == old(State()) && TopOf(declarationMap, name, st)
      ensures var found := FindName(State().scopes, name);
        found == if st == [] then None else Some(st[0].1)
    {
      hide FindName, Path, ScopesOf, Prune, NamesAt, At;
      st := [];
      FindNameIsFirstAt(declarationMap, structMap, nodes, Path(nodes, currentPos), name);
      if name in declarationMap {
        PrunedNames(declarationMap, structMap, name, nodes, currentPos);
        st := Pop(declarationMap[name]);
        declarationMap := declarationMap[name := st];
      }
    }

    /** Pops entries of nodes that are not active. */
    method Pop<V>(st: Stack<V>) returns (r: Stack<V>)
      requires forall k | 0 <= k < |st| :: st[k].0 < |nodes|
      ensures r == Prune(st, nodes)
    {
      r := st;
      while r != [] && !nodes[r[0].0].active
        invariant forall k | 0 <= k < |r| :: r[k].0 < |nodes|
        invariant Prune(r, nodes) == Prune(st, nodes)
        decreases |r|
      {
        r := r[1..];
      }
    }

    method PushStruct(name: string, st: Stack<StructInfo>, info: StructInfo)
      requires Valid() && TopOf(structMap, name, st)
      modifies this`structMap
      ensures Valid()
      ensures var p := old(State());
        State() == p.(scopes := p.scopes[0 := p.scopes[0].WithStruct(name, info)])
      ensures structMap == old(structMap)[name := [(currentPos, info)] + st]
    {
      PushChained(st, nodes, currentPos, info);
      PushScopes(structMap, name, st, nodes, currentPos, info);
      ghost var stacks := structMap[name := [(currentPos, info)] + st];
      ScopesTail(declarationMap, structMap, declarationMap, stacks, nodes, currentPos);
      structMap := structMap[name := [(currentPos, info)] + st];
      assert State().scopes[0] == old(State()).scopes[0].WithStruct(name, info);
    }

    method PushDeclaration(name: string, st: Stack<Decl>, decl: Decl)
      requires Valid() && TopOf(declarationMap, name, st)
      modifies this`declarationMap
      ensures Valid()
      ensures var p := old(State());
        State() == p.(scopes := p.scopes[0 := p.scopes[0].WithName(name, decl)])
    {
      PushChained(st, nodes, currentPos, decl);
      PushScopes(declarationMap, name, st, nodes, currentPos, decl);
      ghost var stacks := declarationMap[name := [(currentPos, decl)] + st];
      ScopesTail(declarationMap, structMap, stacks, structMap, nodes, currentPos);
      declarationMap := declarationMap[name := [(currentPos, decl)] + st];
      assert State().scopes[0] == old(State()).scopes[0].WithName(name, decl);
    }

    /** Closes the current scope; the root stays open. */
    method GoUp()
      requires Valid() && currentPos != 0
      modifies this`nodes, this`currentPos
      ensures Valid() && |old(State()).scopes| > 1 && State() == Close(old(State()))
      ensures old(NodesFit()) ==> NodesFit()
    {
      hide Path, Chained, ScopesOf, Fits, AllFit;
      ClosedTree(nodes, currentPos);
      ghost var before := nodes;
      nodes := nodes[currentPos := nodes[currentPos].(active := false)];
      ClosedScopes(declarationMap, structMap, before, nodes, currentPos);
      ClosedChained(declarationMap, before, nodes);
      ClosedChained(structMap, before, nodes);
      if AllFit(structMap, before) {
        SameParentsFit(structMap, before, nodes);
      }
      currentPos := nodes[currentPos].parent;
    }

    method LookUpType(name: string) returns (decl: Option<Decl>)
      requires Valid()
      modifies this`declarationMap
      ensures Valid() && State() == old(State()) && decl == FindName(State().scopes, name)
    {
      var st := DeleteNotActiveNodes(name);
      decl := if st == [] then None else Some(st[0].1);
    }

    method HasStructDeclaration(name: string) returns (found: bool)
      requires Valid()
      modifies this`structMap
      ensures Valid() && State() == old(State()) && found == FindStruct(State().scopes, name).Some?
    {
      var st := DeleteNotActiveStructs(name);
      found := st != [];
    }

    /** The shared entry of a function name; the declaration it keeps. */
    method EnterFunction(name: string, made: Decl, isForwardFunction: bool) returns (d: Option<Decl>)
      requires Valid()
      modifies this`functionMap
      ensures Valid()
      ensures match DeclareFunction(old(State()), name, made, isForwardFunction)
        case Some(entry) =>
          d == Some(entry.0) && State() == old(State()).(functions := old(functionMap)[name := entry])
        case None => d == None
    {
      if name !in functionMap {
        functionMap := functionMap[name := (made, isForwardFunction)];
        return Some(made);
      }
      var (lastDecl, wasForward) := functionMap[name];
      var same := CompareTypes(lastDecl.t, made.t);
      if !same {
        return None;
      }
      if wasForward {
        functionMap := functionMap[name := (lastDecl, isForwardFunction)];
      } else if !isForwardFunction {
        return None;
      } else {
        assert functionMap == functionMap[name := (lastDecl, false)];
      }
      return Some(lastDecl);
    }

    /** Declares a name in the current scope. */
    method EnterName(name: string, made: Decl) returns (d: Option<Decl>)
      requires Valid()
      modifies this`declarationMap
      ensures Valid()
      ensures match DeclareName(old(State()), name, made)
        case Some((p, kept)) => d == Some(kept) && State() == p
        case None => d == None
    {
      hide NamesAt, Prune, At, FirstAt, Chained, Same;
      var st := DeleteNotActiveNodes(name);
      TopHere(st, nodes, currentPos);
      HereIs(declarationMap, structMap, nodes, Path(nodes, currentPos));
      TopIsHere(declarationMap, name, st, currentPos);
      PathLength(nodes, currentPos);
      var kept := made;
      if st != [] && st[0].0 == currentPos {
        var prevDecl := st[0].1;
        var same := CompareTypes(prevDecl.t, made.t);
        if !same || (!made.t.Func? && currentPos != 0) {
          return None;
        }
        kept := prevDecl;
      }
      PushDeclaration(name, st, kept);
      d := Some(kept);
    }

    /** Declares a name with a type that has passed the checks on types. */
    method AddDeclaration(name: string, t: Type, isForwardFunction: bool) returns (decl: Option<Decl>)
      requires Valid()
      modifies this`functionMap, this`declarations, this`declarationMap
      ensures Valid()
      ensures match Declare(old(State()), name, t, isForwardFunction)
        case Some((p, d)) => decl == Some(d) && State() == p
        case None => decl == None
    {
      hide DeclareName, ActivePath, Chained, ScopesOf, Path, Same;
      decl := Some(Decl(t, declarations));
      if t.Func? {
        decl := EnterFunction(name, decl.value, isForwardFunction);
        if decl.None? {
          return;
        }
      }
      declarations := declarations + 1;
      decl := EnterName(name, decl.value);
    }
  }

  // ----- whole runs -----

  /** Runs a new tree through a sequence of actions; it answers each as the plain
      chain of scopes does, rejections included. */
  method Execute(actions: seq<Action>) returns (answers: seq<Answer>)
    requires Admits(FRESH, actions)
    ensures answers == PlainRun(FRESH, actions)
  {
    hide Same, Chained, ActivePath, Path, ScopesOf, Declare, OpenStruct;
    var tree := new Tree();
    answers := [];
    for k := 0 to |actions|
      invariant fresh(tree) && tree.Valid() && tree.NodesFit() && Admits(tree.State(), actions[k..])
      invariant PlainRun(FRESH, actions) == answers + PlainRun(tree.State(), actions[k..])
    {
      assert actions[k..][0] == actions[k] && actions[k..][1..] == actions[k + 1..];
      var answer := Perform(tree, actions[k]);
      answers := answers + [answer];
      if !answer.Fine? && !answer.Found? {
        return;
      }
    }
  }

  method Perform(tree: Tree, action: Action) returns (answer: Answer)
    requires tree.Valid() && tree.NodesFit() && Admitted(tree.State(), action)
    modifies tree
    ensures tree.Valid() && tree.NodesFit() && tree.State().scopes != []
    ensures var (p, a) := PlainStep(old(tree.State()), action);
      answer == a && (a.Fine? || a.Found? ==> tree.State() == p)
  {
    hide Same, Chained, Declare, OpenStruct;
    match action
    case OpenBlock =>
      var _ := tree.AddChild(None, false);
      answer := Fine;
    case OpenAs(name, isForward) =>
      var ok := tree.AddChild(Some(name), isForward);
      answer := if ok then Fine else Rejected;
    case CloseScope =>
      PathLength(tree.nodes, tree.currentPos);
      tree.GoUp();
      answer := Fine;
    case DeclareAs(name, t, isForward) =>
      var d := tree.AddDeclaration(name, t, isForward);
      answer := if d.Some? then Found(d.value) else Rejected;
    case Ask(name) =>
      var d := tree.LookUpType(name);
      answer := if d.Some? then Found(d.value) else Rejected;
  }

  // ----- the steps of the proofs -----

  lemma {:induction false} GrownTree(before: seq<Node>, nodes: seq<Node>, current: nat)
    requires ActivePath(before, current) && nodes == before + [Node(current, true)] && IsTree(nodes)
    ensures Path(nodes, |before|) == [|before|] + Path(before, current)
    ensures ActivePath(nodes, |before|)
  {
    var n := |before|;
    PathSame(before, nodes, current);
    forall i: nat | i < |nodes| && nodes[i].active
      ensures i in Path(nodes, n)
    {
      assert i in Path(nodes, n) <==> i == n || i in Path(before, current);
    }
  }

  lemma {:induction false} NewNodeEmpty<V(!new)>(stacks: map<string, Stack<V>>, nodes: seq<Node>, n: nat)
    requires IsTree(nodes) && n == |nodes| && forall m <- stacks :: Chained(stacks[m], nodes)
    ensures NamesAt(stacks, n) == map[]
  {
    forall m | m in stacks
      ensures At(stacks[m], n).None?
    {
      AtIsEntry(stacks[m], n);
    }
  }

  /** An active top entry of the current node is what that node has. */
  lemma {:induction false} TopHere<V(!new)>(st: Stack<V>, nodes: seq<Node>, current: nat)
    requires ActivePath(nodes, current) && Chained(st, nodes) && (st != [] ==> nodes[st[0].0].active)
    ensures At(st, current) == if st != [] && st[0].0 == current then Some(st[0].1) else None
  {
    AtIsEntry(st, current);
    if At(st, current).Some? {
      var k :| 0 <= k < |st| && st[k] == (current, At(st, current).value);
      AllBelowTop(st, nodes, k);
      assert st[0].0 in Path(nodes, current);
    }
  }

  lemma {:induction false} HereIs(
    names: map<string, Stack<Decl>>, structs: map<string, Stack<StructInfo>>, nodes: seq<Node>, path: seq<nat>)
    requires path != []
    ensures ScopesOf(names, structs, nodes, path)[0] == ScopeAt(names, structs, nodes, path[0])
  {
  }

  lemma {:induction false} TopIsHere<V(!new)>(stacks: map<string, Stack<V>>, name: string, st: Stack<V>, i: nat)
    requires if name in stacks then stacks[name] == st else st == []
    requires At(st, i) == if st != [] && st[0].0 == i then Some(st[0].1) else None
    ensures name in NamesAt(stacks, i) <==> st != [] && st[0].0 == i
    ensures name in NamesAt(stacks, i) ==> NamesAt(stacks, i)[name] == st[0].1
  {
  }

  lemma {:induction false} PushChained<V(!new)>(st: Stack<V>, nodes: seq<Node>, current: nat, v: V)
    requires ActivePath(nodes, current) && Chained(st, nodes) && (st != [] ==> nodes[st[0].0].active)
    ensures Chained([(current, v)] + st, nodes)
  {
    var st' := [(current, v)] + st;
    forall k | 0 <= k < |st'| - 1
      ensures st'[k + 1].0 in Path(nodes, st'[k].0)
    {
      assert st'[k + 1] == st[k];
      if k > 0 {
        assert st'[k] == st[k - 1];
      }
    }
  }

  lemma {:induction false} PushScopes<V(!new)>(
    stacks: map<string, Stack<V>>, name: string, st: Stack<V>, nodes: seq<Node>, current: nat, v: V)
    requires ActivePath(nodes, current)
    requires if name in stacks then stacks[name] == st else st == []
    ensures var stacks' := stacks[name := [(current, v)] + st];
      && NamesAt(stacks', current) == NamesAt(stacks, current)[name := v]
      && forall i: nat | i != current :: NamesAt(stacks', i) == NamesAt(stacks, i)
  {
    forall i: nat
      ensures NamesAt(stacks[name := [(current, v)] + st], i)
        == if i == current then NamesAt(stacks, current)[name := v] else NamesAt(stacks, i)
    {
      PushedAt(stacks, name, st, current, v, i);
    }
  }

  /** The scopes around the current one do not change. */
  lemma {:induction false} ScopesTail(
    names: map<string, Stack<Decl>>, structs: map<string, Stack<StructInfo>>,
    names': map<string, Stack<Decl>>, structs': map<string, Stack<StructInfo>>, nodes: seq<Node>, current: nat)
    requires IsTree(nodes) && current < |nodes|
    requires forall i: nat | i != current :: NamesAt(names', i) == NamesAt(names, i) && NamesAt(structs', i) == NamesAt(structs, i)
    ensures var path := Path(nodes, current);
      ScopesOf(names', structs', nodes, path)
        == ScopesOf(names, structs, nodes, path)[0 := ScopeAt(names', structs', nodes, current)]
  {
    hide NamesAt;
    var path := Path(nodes, current);
    assert current !in path[1..] by {
      if current > 0 {
        assert path[1..] == Path(nodes, nodes[current].parent);
      }
    }
    ScopesSame(names, structs, names', structs', nodes, nodes, path[1..]);
  }

  /** Where the nodes of structs are. */
  ghost predicate Fits(st: Stack<StructInfo>, nodes: seq<Node>) {
    forall k | 0 <= k < |st| :: st[k].1.node < |nodes| && nodes[st[k].1.node].parent == st[k].0
  }

  ghost predicate AllFit(structs: map<string, Stack<StructInfo>>, nodes: seq<Node>) {
    forall n <- structs :: Fits(structs[n], nodes)
  }

  lemma {:induction false} PruneFits(st: Stack<StructInfo>, nodes: seq<Node>)
    requires (forall k | 0 <= k < |st| :: st[k].0 < |nodes|) && Fits(st, nodes)
    ensures Fits(Prune(st, nodes), nodes)
    decreases st
  {
    if st != [] && !nodes[st[0].0].active {
      assert forall k | 0 <= k < |st[1..]| :: st[1..][k] == st[k + 1];
      PruneFits(st[1..], nodes);
    }
  }

  lemma {:induction false} PrunedFits(structs: map<string, Stack<StructInfo>>, name: string, nodes: seq<Node>)
    requires name in structs && (forall k | 0 <= k < |structs[name]| :: structs[name][k].0 < |nodes|) && AllFit(structs, nodes)
    ensures var st := Prune(structs[name], nodes);
      Fits(st, nodes) && AllFit(structs[name := st], nodes)
  {
    PruneFits(structs[name], nodes);
  }

  lemma {:induction false} SameParentsFit(structs: map<string, Stack<StructInfo>>, nodes: seq<Node>, nodes': seq<Node>)
    requires AllFit(structs, nodes) && |nodes| <= |nodes'| && forall k | 0 <= k < |nodes| :: nodes'[k].parent == nodes[k].parent
    ensures AllFit(structs, nodes')
  {
    forall n | n in structs
      ensures Fits(structs[n], nodes')
    {
      assert Fits(structs[n], nodes);
    }
  }

  lemma {:induction false} GrownFits(structs: map<string, Stack<StructInfo>>, nodes: seq<Node>, at: nat)
    requires AllFit(structs, nodes)
    ensures AllFit(structs, nodes + [Node(at, true)])
  {
    SameParentsFit(structs, nodes, nodes + [Node(at, true)]);
  }

  lemma {:induction false} PushedFits(
    structs: map<string, Stack<StructInfo>>, name: string, st: Stack<StructInfo>, nodes: seq<Node>, at: nat, isForward: bool)
    requires AllFit(structs, nodes) && Fits(st, nodes)
    ensures AllFit(structs[name := [(at, StructInfo(|nodes|, isForward))] + st], nodes + [Node(at, true)])
  {
    GrownFits(structs, nodes, at);
  }

  lemma {:induction false} TopFits(st: Stack<StructInfo>, nodes: seq<Node>)
    requires Fits(st, nodes) && st != []
    ensures st[0].1.node < |nodes| && nodes[st[0].1.node].parent == st[0].0
  {
  }

  // ----- popping the stack of a name -----

  lemma {:induction false} PrunedStructs(
    names: map<string, Stack<Decl>>, structs: map<string, Stack<StructInfo>>, name: string, nodes: seq<Node>, current: nat)
    requires ActivePath(nodes, current) && name in structs && Chained(structs[name], nodes)
    ensures var st, path := Prune(structs[name], nodes), Path(nodes, current);
      && Chained(st, nodes) && (st != [] ==> st[0].0 < |nodes| && nodes[st[0].0].active)
      && FirstAt(structs[name], nodes, path) == (if st == [] then None else Some(st[0].1))
      && ScopesOf(names, structs[name := st], nodes, path) == ScopesOf(names, structs, nodes, path)
  {
    hide Path, ScopesOf, FirstAt, NamesAt, Prune;
    var st, path := Prune(structs[name], nodes), Path(nodes, current);
    PrunedTopIsFirst(structs[name], nodes, current);
    PruneKeeps(structs[name], nodes);
    forall i | i in path
      ensures ScopeAt(names, structs[name := st], nodes, i) == ScopeAt(names, structs, nodes, i)
    {
      if IsActive(nodes, i) {
        PrunedSame(structs, name, nodes, i);
      }
    }
    ScopesSame(names, structs, names, structs[name := st], nodes, nodes, path);
  }

  lemma {:induction false} PrunedNames(
    names: map<string, Stack<Decl>>, structs: map<string, Stack<StructInfo>>, name: string, nodes: seq<Node>, current: nat)
    requires ActivePath(nodes, current) && name in names && Chained(names[name], nodes)
    ensures var st, path := Prune(names[name], nodes), Path(nodes, current);
      && Chained(st, nodes) && (st != [] ==> st[0].0 < |nodes| && nodes[st[0].0].active)
      && FirstAt(names[name], nodes, path) == (if st == [] then None else Some(st[0].1))
      && ScopesOf(names[name := st], structs, nodes, path) == ScopesOf(names, structs, nodes, path)
  {
    hide Path, ScopesOf, FirstAt, NamesAt, Prune;
    var st, path := Prune(names[name], nodes), Path(nodes, current);
    PrunedTopIsFirst(names[name], nodes, current);
    PruneKeeps(names[name], nodes);
    forall i | i in path
      ensures ScopeAt(names[name := st], structs, nodes, i) == ScopeAt(names, structs, nodes, i)
    {
      if IsActive(nodes, i) {
        PrunedSame(names, name, nodes, i);
      }
    }
    ScopesSame(names, structs, names[name := st], structs, nodes, nodes, path);
  }

  // ----- going up -----

  lemma {:induction false} ClosedTree(before: seq<Node>, current: nat)
    requires ActivePath(before, current) && current != 0
    ensures 0 <= before[current].parent < |before|
    ensures var nodes := before[current := before[current].(active := false)];
      ActivePath(nodes, before[current].parent)
  {
    var nodes, parent := before[current := before[current].(active := false)], before[current].parent;
    forall i: nat | i < |nodes| && nodes[i].active
      ensures i in Path(nodes, parent)
    {
      assert i in Path(before, current) && i != current;
      PathSame(before, nodes, parent);
    }
  }

  lemma {:induction false} ClosedScopes(
    names: map<string, Stack<Decl>>, structs: map<string, Stack<StructInfo>>, before: seq<Node>, nodes: seq<Node>, current: nat)
    requires IsTree(before) && 0 < current < |before| && nodes == before[current := before[current].(active := false)]
    ensures IsTree(nodes)
    ensures var scopes := ScopesOf(names, structs, before, Path(before, current));
      |scopes| > 1 && ScopesOf(names, structs, nodes, Path(nodes, before[current].parent)) == scopes[1..]
  {
    hide NamesAt;
    var parent := before[current].parent;
    PathSame(before, nodes, parent);
    assert Path(before, current)[1..] == Path(before, parent);
    ScopesSame(names, structs, names, structs, before, nodes, Path(before, parent));
  }

  lemma {:induction false} ClosedChained<V(!new)>(stacks: map<string, Stack<V>>, nodes: seq<Node>, nodes': seq<Node>)
    requires IsTree(nodes) && IsTree(nodes') && |nodes| <= |nodes'| && forall m <- stacks :: Chained(stacks[m], nodes)
    requires forall k | 0 <= k < |nodes| :: nodes'[k].parent == nodes[k].parent
    ensures forall m <- stacks :: Chained(stacks[m], nodes')
  {
    hide Chained, IsTree;
    forall m | m in stacks
      ensures Chained(stacks[m], nodes')
    {
      ChainedSame(stacks[m], nodes, nodes');
    }
  }

  /** An announced struct's node is below the current one and not active. */
  lemma {:induction false} ReenteredTree(nodes: seq<Node>, current: nat, i: nat)
    requires ActivePath(nodes, current) && i < |nodes| && nodes[i].parent == current
    ensures Path(nodes, i) == [i] + Path(nodes, current) && !nodes[i].active && ActivePath(nodes, i)
  {
    assert i != 0;
    assert i !in Path(nodes, current);
  }

  lemma {:induction false} ReenteredScopes(
    names: map<string, Stack<Decl>>, structs: map<string, Stack<StructInfo>>, nodes: seq<Node>, current: nat, i: nat)
    requires IsTree(nodes) && current < |nodes| && i < |nodes| && Path(nodes, i) == [i] + Path(nodes, current) && !nodes[i].active
    ensures ScopesOf(names, structs, nodes, Path(nodes, i)) == [REENTERED] + ScopesOf(names, structs, nodes, Path(nodes, current))
  {
    assert Path(nodes, i)[1..] == Path(nodes, current);
  }

  lemma {:induction false} PathLength(nodes: seq<Node>, i: nat)
    requires IsTree(nodes) && i < |nodes|
    ensures |Path(nodes, i)| > 1 <==> i != 0
  {
  }
}
