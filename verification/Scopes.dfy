module Scopes {
  /** Scopes: lexical scoping by one lazily cleaned stack per name, and the plain
      chain of scope maps that it implements. */

  import opened Options
  import opened Types

  /** A declaration and its identity. */
  datatype Decl = Decl(t: Type, id: nat)

  /** A struct's own node, and whether it was only announced. */
  datatype StructInfo = StructInfo(node: nat, isForward: bool)

  // ----- the plain model -----

  /** What is declared in a scope. The scope of a struct that was announced before is
      entered again when the struct is completed; nothing is kept in it then. */
  datatype Scope = Scope(names: map<string, Decl>, structs: map<string, StructInfo>, reentered: bool) {
    function WithName(name: string, decl: Decl): Scope {
      if reentered then this else this.(names := names[name := decl])
    }

    function WithStruct(name: string, info: StructInfo): Scope {
      if reentered then this else this.(structs := structs[name := info])
    }
  }

  const EMPTY_SCOPE := Scope(map[], map[], false)

  const REENTERED := Scope(map[], map[], true)

  /** The open scopes, innermost first; the functions known so far, one entry for a
      name wherever it is declared, with whether it still lacks its body; how many
      scopes and declarations there have been. */
  datatype Plain = Plain(scopes: seq<Scope>, functions: map<string, (Decl, bool)>, count: nat, decls: nat)

  const FRESH := Plain([EMPTY_SCOPE], map[], 1, 0)

  function FindName(scopes: seq<Scope>, name: string): Option<Decl> {
    if scopes == [] then None
    else if name in scopes[0].names then Some(scopes[0].names[name])
    else FindName(scopes[1..], name)
  }

  function FindStruct(scopes: seq<Scope>, name: string): Option<StructInfo> {
    if scopes == [] then None
    else if name in scopes[0].structs then Some(scopes[0].structs[name])
    else FindStruct(scopes[1..], name)
  }

  function Open(p: Plain): Plain {
    p.(scopes := [EMPTY_SCOPE] + p.scopes, count := p.count + 1)
  }

  /** A struct opens a scope and is entered in the one around it. If it was announced
      there its scope is entered again, and it stays an announced one; otherwise it
      must not have been defined there before. */
  function OpenStruct(p: Plain, name: string, isForward: bool): Option<Plain>
    requires p.scopes != []
  {
    if name in p.scopes[0].structs then
      if p.scopes[0].structs[name].isForward then Some(p.(scopes := [REENTERED] + p.scopes)) else None
    else
      var around := p.scopes[0].WithStruct(name, StructInfo(p.count, isForward));
      Some(Open(p.(scopes := p.scopes[0 := around])))
  }

  function Close(p: Plain): Plain
    requires |p.scopes| > 1
  {
    p.(scopes := p.scopes[1..])
  }

  /** The function entry that a declaration leaves, if it agrees with the one before:
      the same type, and at most one body. */
  function DeclareFunction(p: Plain, name: string, decl: Decl, isForward: bool): Option<(Decl, bool)> {
    if name !in p.functions then Some((decl, isForward))
    else
      var (last, wasForward) := p.functions[name];
      if !Same(last.t, decl.t) || (!wasForward && !isForward) then None
      else Some((last, if wasForward then isForward else false))
  }

  /** A name may be declared again in its scope only with the same type, and then
      only at file scope or as a function; the first declaration stays. */
  function DeclareName(p: Plain, name: string, decl: Decl): Option<(Plain, Decl)>
    requires p.scopes != []
  {
    var here := p.scopes[0].names;
    if name in here && (!Same(here[name].t, decl.t) || (!decl.t.Func? && |p.scopes| > 1)) then None
    else
      var kept := if name in here then here[name] else decl;
      Some((p.(scopes := p.scopes[0 := p.scopes[0].WithName(name, kept)]), kept))
  }

  /** A declaration of a function must also agree with its entry. */
  function Declare(p: Plain, name: string, t: Type, isForward: bool): Option<(Plain, Decl)>
    requires p.scopes != []
  {
    var made := Decl(t, p.decls);
    var p1 := p.(decls := p.decls + 1);
    if !t.Func? then DeclareName(p1, name, made)
    else
      match DeclareFunction(p, name, made, isForward)
      case None => None
      case Some(entry) => DeclareName(p1.(functions := p.functions[name := entry]), name, entry.0)
  }

  // ----- runs of the plain model -----

  datatype Action =
    | OpenBlock
    | OpenAs(name: string, isForward: bool)
    | CloseScope
    | DeclareAs(name: string, t: Type, isForward: bool)
    | Ask(name: string)

  datatype Answer = Fine | Found(decl: Decl) | Rejected

  /** The root scope is not closed. */
  predicate Admitted(p: Plain, a: Action) {
    p.scopes != [] && (a.CloseScope? ==> |p.scopes| > 1)
  }

  function PlainStep(p: Plain, a: Action): (Plain, Answer)
    requires Admitted(p, a)
  {
    match a
    case OpenBlock => (Open(p), Fine)
    case OpenAs(name, isForward) =>
      (match OpenStruct(p, name, isForward)
       case Some(p') => (p', Fine)
       case None => (p, Rejected))
    case CloseScope => (Close(p), Fine)
    case DeclareAs(name, t, isForward) =>
      (match Declare(p, name, t, isForward)
       case Some((p', d)) => (p', Found(d))
       case None => (p, Rejected))
    case Ask(name) =>
      (match FindName(p.scopes, name)
       case Some(d) => (p, Found(d))
       case None => (p, Rejected))
  }

  /** Every action up to the first rejection is admitted. */
  predicate Admits(p: Plain, actions: seq<Action>)
    decreases actions
  {
    actions == [] ||
    (Admitted(p, actions[0]) &&
     var (p', answer) := PlainStep(p, actions[0]); answer.Rejected? || Admits(p', actions[1..]))
  }

  /** The answers to a sequence of actions; the first rejection ends it. */
  function PlainRun(p: Plain, actions: seq<Action>): seq<Answer>
    requires Admits(p, actions)
    decreases actions
  {
    if actions == [] then []
    else
      var (p', answer) := PlainStep(p, actions[0]);
      if answer.Rejected? then [answer] else [answer] + PlainRun(p', actions[1..])
  }

  // ----- stacks of declarations -----

  /** What is declared for a name: where, the last one first. */
  type Stack<V> = seq<(nat, V)>

  datatype Node = Node(parent: int, active: bool)

  /** Nodes come after their parents; node 0 is the root. */
  predicate IsTree(nodes: seq<Node>) {
    nodes != [] && forall i | 0 < i < |nodes| :: 0 <= nodes[i].parent < i
  }

  /** A node and its ancestors. */
  function Path(nodes: seq<Node>, i: nat): (path: seq<nat>)
    requires IsTree(nodes) && i < |nodes|
    ensures path != [] && path[0] == i
    ensures forall j <- path :: j <= i
  {
    if i == 0 then [0] else [i] + Path(nodes, nodes[i].parent)
  }

  /** Each entry's node is below, or is, the next entry's. */
  ghost predicate Chained<V(!new)>(st: Stack<V>, nodes: seq<Node>)
    requires IsTree(nodes)
  {
    && (forall k | 0 <= k < |st| :: st[k].0 < |nodes|)
    && (forall k | 0 <= k < |st| - 1 :: st[k + 1].0 in Path(nodes, st[k].0))
  }

  function Prune<V>(st: Stack<V>, nodes: seq<Node>): Stack<V>
    requires forall k | 0 <= k < |st| :: st[k].0 < |nodes|
  {
    if st != [] && !nodes[st[0].0].active then Prune(st[1..], nodes) else st
  }

  /** The last declaration made in node i. */
  function At<V>(st: Stack<V>, i: nat): Option<V> {
    if st == [] then None
    else if st[0].0 == i then Some(st[0].1)
    else At(st[1..], i)
  }

  predicate IsActive(nodes: seq<Node>, i: nat) { i < |nodes| && nodes[i].active }

  /** The first of these nodes that is active and has a declaration decides. */
  function FirstAt<V>(st: Stack<V>, nodes: seq<Node>, path: seq<nat>): Option<V> {
    if path == [] then None
    else if IsActive(nodes, path[0]) && At(st, path[0]).Some? then At(st, path[0])
    else FirstAt(st, nodes, path[1..])
  }

  /** The active nodes are among those from the current one up to the root. (Nodes that
      were entered again are on this path without being active.) */
  ghost predicate ActivePath(nodes: seq<Node>, current: nat) {
    && IsTree(nodes) && current < |nodes| && nodes[0] == Node(-1, true)
    && forall i: nat | i < |nodes| && nodes[i].active :: i in Path(nodes, current)
  }

  lemma {:induction false} PathOfMember(nodes: seq<Node>, i: nat, j: nat)
    requires IsTree(nodes) && i < |nodes| && j in Path(nodes, i)
    ensures forall k <- Path(nodes, j) :: k in Path(nodes, i)
    decreases i
  {
    if j != i {
      assert j in Path(nodes, nodes[i].parent);
      PathOfMember(nodes, nodes[i].parent, j);
    }
  }

  lemma {:induction false} PathSame(nodes: seq<Node>, nodes': seq<Node>, i: nat)
    requires IsTree(nodes) && IsTree(nodes') && i < |nodes| <= |nodes'|
    requires forall k | 0 <= k < |nodes| :: nodes'[k].parent == nodes[k].parent
    ensures Path(nodes', i) == Path(nodes, i)
    decreases i
  {
    if i > 0 {
      PathSame(nodes, nodes', nodes[i].parent);
    }
  }

  lemma {:induction false} ChainedSame<V(!new)>(st: Stack<V>, nodes: seq<Node>, nodes': seq<Node>)
    requires IsTree(nodes) && IsTree(nodes') && |nodes| <= |nodes'| && Chained(st, nodes)
    requires forall k | 0 <= k < |nodes| :: nodes'[k].parent == nodes[k].parent
    ensures Chained(st, nodes')
  {
    forall k | 0 <= k < |st| - 1
      ensures st[k + 1].0 in Path(nodes', st[k].0)
    {
      PathSame(nodes, nodes', st[k].0);
    }
  }

  lemma {:induction false} AllBelowTop<V(!new)>(st: Stack<V>, nodes: seq<Node>, k: nat)
    requires IsTree(nodes) && Chained(st, nodes) && k < |st|
    ensures st[k].0 in Path(nodes, st[0].0)
    decreases k
  {
    if k > 0 {
      AllBelowTop(st, nodes, k - 1);
      PathOfMember(nodes, st[0].0, st[k - 1].0);
    }
  }

  lemma {:induction false} AtIsEntry<V>(st: Stack<V>, i: nat)
    ensures At(st, i).Some? ==> exists k :: 0 <= k < |st| && st[k] == (i, At(st, i).value)
    ensures At(st, i).None? ==> forall k | 0 <= k < |st| :: st[k].0 != i
    decreases st
  {
    if st != [] && st[0].0 != i {
      AtIsEntry(st[1..], i);
      if At(st, i).Some? {
        var k :| 0 <= k < |st[1..]| && st[1..][k] == (i, At(st, i).value);
        assert st[k + 1] == (i, At(st, i).value);
      } else {
        assert forall k | 1 <= k < |st| :: st[k] == st[1..][k - 1];
      }
    }
  }

  /** Pruning drops inactive entries only. */
  lemma {:induction false} PruneKeeps<V(!new)>(st: Stack<V>, nodes: seq<Node>)
    requires IsTree(nodes) && Chained(st, nodes)
    ensures var st' := Prune(st, nodes);
      && Chained(st', nodes) && (st' != [] ==> nodes[st'[0].0].active)
      && forall i: nat | i < |nodes| && nodes[i].active :: At(st', i) == At(st, i)
    decreases st
  {
    if st != [] && !nodes[st[0].0].active {
      assert forall k | 0 <= k < |st| - 1 :: st[1..][k] == st[k + 1];
      PruneKeeps(st[1..], nodes);
    }
  }

  /** The top of a pruned stack is the declaration that the innermost scope having
      one has. */
  lemma {:induction false} TopIsFirst<V(!new)>(st: Stack<V>, nodes: seq<Node>, i: nat)
    requires IsTree(nodes) && Chained(st, nodes) && i < |nodes|
    requires st != [] && st[0].0 in Path(nodes, i) && nodes[st[0].0].active
    ensures FirstAt(st, nodes, Path(nodes, i)) == Some(st[0].1)
    decreases i
  {
    var path := Path(nodes, i);
    AtIsEntry(st, i);
    if nodes[i].active && At(st, i).Some? {
      var k :| 0 <= k < |st| && st[k] == (i, At(st, i).value);
      AllBelowTop(st, nodes, k);
    } else {
      assert i != 0;
      assert path[1..] == Path(nodes, nodes[i].parent);
      TopIsFirst(st, nodes, nodes[i].parent);
    }
  }

  lemma {:induction false} FirstAtSame<V>(st: Stack<V>, st': Stack<V>, nodes: seq<Node>, path: seq<nat>)
    requires forall i <- path :: IsActive(nodes, i) ==> At(st', i) == At(st, i)
    ensures FirstAt(st', nodes, path) == FirstAt(st, nodes, path)
    decreases path
  {
    if path != [] {
      assert path[0] in path;
      FirstAtSame(st, st', nodes, path[1..]);
    }
  }

  lemma {:induction false} FirstAtNone<V>(nodes: seq<Node>, path: seq<nat>)
    ensures FirstAt<V>([], nodes, path) == None
    decreases path
  {
    if path != [] {
      FirstAtNone<V>(nodes, path[1..]);
    }
  }

  /** Lazy cleaning finds what the chain of scopes has. */
  lemma {:induction false} PrunedTopIsFirst<V(!new)>(st: Stack<V>, nodes: seq<Node>, current: nat)
    requires ActivePath(nodes, current) && Chained(st, nodes)
    ensures var st' := Prune(st, nodes);
      FirstAt(st, nodes, Path(nodes, current)) == if st' == [] then None else Some(st'[0].1)
  {
    var st', path := Prune(st, nodes), Path(nodes, current);
    PruneKeeps(st, nodes);
    FirstAtSame(st, st', nodes, path);
    if st' == [] {
      FirstAtNone<V>(nodes, path);
    } else {
      TopIsFirst(st', nodes, current);
    }
  }

  // ----- what a set of stacks says about a node -----

  function NamesAt<V>(stacks: map<string, Stack<V>>, i: nat): map<string, V> {
    map n | n in stacks && At(stacks[n], i).Some? :: At(stacks[n], i).value
  }

  /** The scope of a node; one that is not active has been entered again. */
  function ScopeAt(names: map<string, Stack<Decl>>, structs: map<string, Stack<StructInfo>>, nodes: seq<Node>, i: nat): Scope
  {
    if IsActive(nodes, i) then Scope(NamesAt(names, i), NamesAt(structs, i), false) else REENTERED
  }

  /** The scopes along a path. */
  function ScopesOf(
    names: map<string, Stack<Decl>>, structs: map<string, Stack<StructInfo>>, nodes: seq<Node>, path: seq<nat>): (r: seq<Scope>)
    ensures |r| == |path|
    ensures forall k | 0 <= k < |path| :: r[k] == ScopeAt(names, structs, nodes, path[k])
  {
    if path == [] then [] else [ScopeAt(names, structs, nodes, path[0])] + ScopesOf(names, structs, nodes, path[1..])
  }

  lemma {:induction false} FindNameIsFirstAt(
    names: map<string, Stack<Decl>>, structs: map<string, Stack<StructInfo>>, nodes: seq<Node>, path: seq<nat>, n: string)
    ensures FindName(ScopesOf(names, structs, nodes, path), n) == if n in names then FirstAt(names[n], nodes, path) else None
    decreases path
  {
    if path != [] {
      FindNameIsFirstAt(names, structs, nodes, path[1..], n);
      assert ScopesOf(names, structs, nodes, path)[1..] == ScopesOf(names, structs, nodes, path[1..]);
    }
  }

  lemma {:induction false} FindStructIsFirstAt(
    names: map<string, Stack<Decl>>, structs: map<string, Stack<StructInfo>>, nodes: seq<Node>, path: seq<nat>, n: string)
    ensures FindStruct(ScopesOf(names, structs, nodes, path), n) == if n in structs then FirstAt(structs[n], nodes, path) else None
    decreases path
  {
    if path != [] {
      FindStructIsFirstAt(names, structs, nodes, path[1..], n);
      assert ScopesOf(names, structs, nodes, path)[1..] == ScopesOf(names, structs, nodes, path[1..]);
    }
  }

  lemma {:induction false} ScopesSame(
    names: map<string, Stack<Decl>>, structs: map<string, Stack<StructInfo>>,
    names': map<string, Stack<Decl>>, structs': map<string, Stack<StructInfo>>,
    nodes: seq<Node>, nodes': seq<Node>, path: seq<nat>)
    requires forall i <- path :: ScopeAt(names', structs', nodes', i) == ScopeAt(names, structs, nodes, i)
    ensures ScopesOf(names', structs', nodes', path) == ScopesOf(names, structs, nodes, path)
    decreases path
  {
    hide ScopeAt;
    if path != [] {
      assert path[0] in path;
      ScopesSame(names, structs, names', structs', nodes, nodes', path[1..]);
    }
  }

  /** Storing the pruned stack of a name changes no scope on the active path. */
  lemma {:induction false} PrunedSame<V(!new)>(stacks: map<string, Stack<V>>, n: string, nodes: seq<Node>, i: nat)
    requires IsTree(nodes) && n in stacks && Chained(stacks[n], nodes) && i < |nodes| && nodes[i].active
    ensures NamesAt(stacks[n := Prune(stacks[n], nodes)], i) == NamesAt(stacks, i)
  {
    PruneKeeps(stacks[n], nodes);
  }

  /** Pushing a declaration for node i enters it there and nowhere else. */
  lemma {:induction false} PushedAt<V(!new)>(stacks: map<string, Stack<V>>, n: string, st: Stack<V>, i: nat, v: V, j: nat)
    requires if n in stacks then At(stacks[n], j) == At(st, j) else st == []
    ensures NamesAt(stacks[n := [(i, v)] + st], j) == if j == i then NamesAt(stacks, i)[n := v] else NamesAt(stacks, j)
  {
    var pushed := [(i, v)] + st;
    assert pushed[1..] == st;
    assert At(pushed, j) == if j == i then Some(v) else At(st, j);
    var stacks' := stacks[n := pushed];
    var left := NamesAt(stacks', j);
    var right := if j == i then NamesAt(stacks, i)[n := v] else NamesAt(stacks, j);
    forall m
      ensures m in left <==> m in right
      ensures m in left ==> left[m] == right[m]
    {
      if m != n {
        assert m in stacks' <==> m in stacks;
      }
    }
  }
}
