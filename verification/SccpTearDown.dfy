/** The rewriting of the function from the finished tables: one entry at a time, in
    any order, it is the folding that SccpSound proves right. */
module SccpTearDown {
  import opened Options
  import opened Ir
  import opened Lattice
  import opened SccpSound

  // ----- one entry -----

  function ReplaceValue(v: Value, id: nat, n: i32): Value {
    if v == Reg(id) then Const(n) else v
  }

  function ReplaceIncoming(incoming: seq<(Value, BlockRef)>, id: nat, n: i32): seq<(Value, BlockRef)> {
    if incoming == [] then []
    else [(ReplaceValue(incoming[0].0, id, n), incoming[0].1)] + ReplaceIncoming(incoming[1..], id, n)
  }

  function ReplaceOp(op: Op, id: nat, n: i32): Op {
    match op
    case Binary(o, a, b) => Binary(o, ReplaceValue(a, id, n), ReplaceValue(b, id, n))
    case ICmp(p, a, b) => ICmp(p, ReplaceValue(a, id, n), ReplaceValue(b, id, n))
    case ZExt(a) => ZExt(ReplaceValue(a, id, n))
    case Store(a, x) => Store(ReplaceValue(a, id, n), x)
    case Phi(incoming) => Phi(ReplaceIncoming(incoming, id, n))
    case CondBr(a, ifTrue, ifFalse) => CondBr(ReplaceValue(a, id, n), ifTrue, ifFalse)
    case Ret(a) => Ret(ReplaceValue(a, id, n))
    case _ => op
  }

  /** What becomes of an instruction, if it stays, when the entry of id is e. */
  function Rewrite(i: Instr, id: nat, e: Element): Option<Instr> {
    if i.id == id && Computes(i.op) && !e.Top? then None
    else if i.id == id && i.op.CondBr? && e.Known? then Some(Instr(id, Br(if e.n == 0 then i.op.ifFalse else i.op.ifTrue)))
    else if e.Known? then Some(Instr(i.id, ReplaceOp(i.op, id, e.n)))
    else Some(i)
  }

  function RewriteAll(s: seq<Instr>, id: nat, e: Element): seq<Instr> {
    if s == [] then []
    else
      var first := Rewrite(s[0], id, e);
      (if first.Some? then [first.value] else []) + RewriteAll(s[1..], id, e)
  }

  // ----- all entries at once -----

  /** Folding by a table, with all incoming values kept. */
  function FoldAllIncoming(incoming: seq<(Value, BlockRef)>, t: Table): seq<(Value, BlockRef)> {
    if incoming == [] then []
    else [(FoldValue(incoming[0].0, t), incoming[0].1)] + FoldAllIncoming(incoming[1..], t)
  }

  function FoldAllOp(i: Instr, t: Table): Op {
    match i.op
    case Binary(o, a, b) => Binary(o, FoldValue(a, t), FoldValue(b, t))
    case ICmp(p, a, b) => ICmp(p, FoldValue(a, t), FoldValue(b, t))
    case ZExt(a) => ZExt(FoldValue(a, t))
    case Store(a, x) => Store(FoldValue(a, t), x)
    case Phi(incoming) => Phi(FoldAllIncoming(incoming, t))
    case CondBr(a, ifTrue, ifFalse) =>
      (match Find(t, i.id)
       case Known(n) => Br(if n == 0 then ifFalse else ifTrue)
       case _ => CondBr(FoldValue(a, t), ifTrue, ifFalse))
    case Ret(a) => Ret(FoldValue(a, t))
    case _ => i.op
  }

  function FoldAllInstrs(s: seq<Instr>, t: Table): seq<Instr> {
    if s == [] then []
    else (if Dropped(s[0], t) then [] else [Instr(s[0].id, FoldAllOp(s[0], t))]) + FoldAllInstrs(s[1..], t)
  }

  function FoldAllBlocks(g: Graph, t: Table): (r: Graph)
    ensures |r| == |g|
  {
    seq(|g|, b requires 0 <= b < |g| => FoldAllInstrs(g[b], t))
  }

  // ----- one more entry is one more fold -----

  lemma {:induction false} FoldNothing(g: Graph)
    ensures FoldAllBlocks(g, map[]) == g
  {
    forall b | 0 <= b < |g|
      ensures FoldAllInstrs(g[b], map[]) == g[b]
    {
      FoldNothingOf(g[b]);
    }
  }

  lemma {:induction false} FoldNothingOf(s: seq<Instr>)
    ensures FoldAllInstrs(s, map[]) == s
    decreases s
  {
    if s != [] {
      if s[0].op.Phi? {
        FoldNoIncoming(s[0].op.incoming);
      }
      FoldNothingOf(s[1..]);
      assert s == [s[0]] + s[1..];
    }
  }

  lemma {:induction false} FoldNoIncoming(incoming: seq<(Value, BlockRef)>)
    ensures FoldAllIncoming(incoming, map[]) == incoming
    decreases incoming
  {
    if incoming != [] {
      FoldNoIncoming(incoming[1..]);
      assert incoming == [incoming[0]] + incoming[1..];
    }
  }

  lemma {:induction false} IncomingStep(incoming: seq<(Value, BlockRef)>, t: Table, id: nat, n: i32)
    requires id !in t
    ensures ReplaceIncoming(FoldAllIncoming(incoming, t), id, n) == FoldAllIncoming(incoming, t[id := Known(n)])
    decreases incoming
  {
    if incoming != [] {
      IncomingStep(incoming[1..], t, id, n);
      var rest := FoldAllIncoming(incoming[1..], t);
      var all := FoldAllIncoming(incoming, t);
      assert all[0] == (FoldValue(incoming[0].0, t), incoming[0].1) && all[1..] == rest;
      assert ReplaceValue(FoldValue(incoming[0].0, t), id, n) == FoldValue(incoming[0].0, t[id := Known(n)]);
    }
  }

  /** An entry that is no constant changes no operand. */
  lemma {:induction false} IncomingSame(incoming: seq<(Value, BlockRef)>, t: Table, id: nat, e: Element)
    requires id !in t && !e.Known?
    ensures FoldAllIncoming(incoming, t[id := e]) == FoldAllIncoming(incoming, t)
    decreases incoming
  {
    if incoming != [] {
      IncomingSame(incoming[1..], t, id, e);
    }
  }

  lemma {:induction false} InstrStep(i: Instr, t: Table, id: nat, e: Element)
    requires id !in t
    ensures var t' := t[id := e];
      && (Dropped(i, t) ==> Dropped(i, t'))
      && (!Dropped(i, t) ==>
            Rewrite(Instr(i.id, FoldAllOp(i, t)), id, e) == if Dropped(i, t') then None else Some(Instr(i.id, FoldAllOp(i, t'))))
  {
    var t' := t[id := e];
    if i.op.Phi? {
      if e.Known? {
        IncomingStep(i.op.incoming, t, id, e.n);
      } else {
        IncomingSame(i.op.incoming, t, id, e);
      }
    }
    assert forall v: Value :: FoldValue(v, t') == if e.Known? then ReplaceValue(FoldValue(v, t), id, e.n) else FoldValue(v, t);
  }

  lemma {:induction false} InstrsStep(s: seq<Instr>, t: Table, id: nat, e: Element)
    requires id !in t
    ensures RewriteAll(FoldAllInstrs(s, t), id, e) == FoldAllInstrs(s, t[id := e])
    decreases s
  {
    hide Dropped, FoldAllOp, Rewrite;
    if s != [] {
      InstrStep(s[0], t, id, e);
      InstrsStep(s[1..], t, id, e);
      var rest := FoldAllInstrs(s[1..], t);
      if Dropped(s[0], t) {
        assert FoldAllInstrs(s, t) == [] + rest == rest;
      } else {
        var first := Instr(s[0].id, FoldAllOp(s[0], t));
        assert FoldAllInstrs(s, t) == [first] + rest;
        assert ([first] + rest)[1..] == rest;
      }
    }
  }

  // ----- and all of them are the fold, up to the phis of dead predecessors -----

  /** What the deletion of dead blocks does to the phis behind them. */
  function WithoutDead(incoming: seq<(Value, BlockRef)>, live: set<BlockRef>): seq<(Value, BlockRef)> {
    if incoming == [] then []
    else (if incoming[0].1 in live then [incoming[0]] else []) + WithoutDead(incoming[1..], live)
  }

  function PrunePhis(s: seq<Instr>, live: set<BlockRef>): seq<Instr> {
    if s == [] then []
    else
      [if s[0].op.Phi? then Instr(s[0].id, Phi(WithoutDead(s[0].op.incoming, live))) else s[0]] + PrunePhis(s[1..], live)
  }

  lemma {:induction false} PrunedIncoming(incoming: seq<(Value, BlockRef)>, t: Table, live: set<BlockRef>)
    ensures WithoutDead(FoldAllIncoming(incoming, t), live) == FoldIncoming(incoming, t, live)
    decreases incoming
  {
    if incoming != [] {
      PrunedIncoming(incoming[1..], t, live);
      var all := FoldAllIncoming(incoming, t);
      assert all[1..] == FoldAllIncoming(incoming[1..], t) && all[0].1 == incoming[0].1;
    }
  }

  lemma {:induction false} PrunedInstrs(s: seq<Instr>, t: Table, live: set<BlockRef>)
    ensures PrunePhis(FoldAllInstrs(s, t), live) == FoldInstrs(s, t, live)
    decreases s
  {
    hide Dropped;
    if s != [] {
      if s[0].op.Phi? {
        PrunedIncoming(s[0].op.incoming, t, live);
      }
      PrunedInstrs(s[1..], t, live);
      var rest := FoldAllInstrs(s[1..], t);
      if Dropped(s[0], t) {
        assert FoldAllInstrs(s, t) == [] + rest == rest;
        assert FoldInstrs(s, t, live) == [] + FoldInstrs(s[1..], t, live) == FoldInstrs(s[1..], t, live);
      } else {
        var all := FoldAllInstrs(s, t);
        assert all[1..] == rest && all[0] == Instr(s[0].id, FoldAllOp(s[0], t));
      }
    }
  }

  /** A reachable block after the rewriting of all entries, in whatever order, and
      after its dead predecessors are gone, is the block of the folded function. */
  lemma {:induction false} TornDownIsFolded(g: Graph, t: Table, live: set<BlockRef>, b: nat)
    requires b < |g| && b in live
    ensures PrunePhis(FoldAllBlocks(g, t)[b], live) == Fold(g, t, live)[b]
  {
    PrunedInstrs(g[b], t, live);
  }

  // ----- the rewriting as a program -----

  /** The table that a list of entries makes. */
  function TableOf(entries: seq<(nat, Element)>): Table {
    if entries == [] then map[]
    else TableOf(entries[..|entries| - 1])[entries[|entries| - 1].0 := entries[|entries| - 1].1]
  }

  predicate DistinctEntries(entries: seq<(nat, Element)>) {
    forall j, k | 0 <= j < k < |entries| :: entries[j].0 != entries[k].0
  }

  lemma {:induction false} InTableOf(entries: seq<(nat, Element)>, id: nat)
    ensures id in TableOf(entries) <==> exists k :: 0 <= k < |entries| && entries[k].0 == id
    decreases entries
  {
    if entries != [] {
      var before, last := entries[..|entries| - 1], entries[|entries| - 1];
      InTableOf(before, id);
      if id in TableOf(before) {
        var k :| 0 <= k < |before| && before[k].0 == id;
        assert entries[k].0 == id;
      }
      if exists k :: 0 <= k < |entries| && entries[k].0 == id {
        var k :| 0 <= k < |entries| && entries[k].0 == id;
        assert k < |before| ==> before[k].0 == id;
      }
      if last.0 == id {
        assert entries[|entries| - 1].0 == id;
      }
    }
  }

  lemma {:induction false} RewriteFirst(s: seq<Instr>, k: nat, id: nat, e: Element)
    requires k < |s|
    ensures var first := Rewrite(s[k], id, e);
      RewriteAll(s[k..], id, e) == (if first.Some? then [first.value] else []) + RewriteAll(s[k + 1..], id, e)
  {
    hide Rewrite;
    assert s[k..][1..] == s[k + 1..];
  }

  lemma {:induction false} RewriteNone(id: nat, e: Element)
    ensures RewriteAll([], id, e) == []
  {
  }

  class RewrittenFunction {
    var blocks: Graph

    constructor (g: Graph)
      ensures blocks == g
    {
      blocks := g;
    }

    /** Rewrites every instruction of every block for one entry: an instruction that
        is a constant or never runs goes, its uses become the constant, and a branch
        on a constant becomes unconditional. */
    method ApplyEntry(id: nat, e: Element)
      modifies this
      ensures |blocks| == |old(blocks)|
      ensures forall b | 0 <= b < |blocks| :: blocks[b] == RewriteAll(old(blocks)[b], id, e)
    {
      for b := 0 to |blocks|
        invariant |blocks| == |old(blocks)|
        invariant forall c | 0 <= c < |blocks| ::
          blocks[c] == if c < b then RewriteAll(old(blocks)[c], id, e) else old(blocks)[c]
      {
        var rewritten := RewriteBlock(blocks[b], id, e);
        blocks := blocks[b := rewritten];
      }
    }

    method RewriteBlock(s: seq<Instr>, id: nat, e: Element) returns (r: seq<Instr>)
      ensures r == RewriteAll(s, id, e)
    {
      hide Rewrite, RewriteAll;
      r := [];
      assert s[0..] == s && [] + RewriteAll(s, id, e) == RewriteAll(s, id, e);
      for k := 0 to |s|
        invariant r + RewriteAll(s[k..], id, e) == RewriteAll(s, id, e)
      {
        RewriteFirst(s, k, id, e);
        var i := Rewrite(s[k], id, e);
        if i.Some? {
          r := r + [i.value];
        }
      }
      RewriteNone(id, e);
      assert s[|s|..] == [] && r + [] == r;
    }

    /** All entries of the table, in the order they are listed in. */
    method TearDownInsts(entries: seq<(nat, Element)>)
      requires DistinctEntries(entries)
      modifies this
      ensures blocks == FoldAllBlocks(old(blocks), TableOf(entries))
    {
      hide RewriteAll, FoldAllInstrs;
      FoldNothing(blocks);
      ghost var g := blocks;
      for k := 0 to |entries|
        invariant blocks == FoldAllBlocks(g, TableOf(entries[..k]))
      {
        var (id, e) := entries[k];
        ghost var t := TableOf(entries[..k]);
        assert entries[..k + 1][..k] == entries[..k];
        InTableOf(entries[..k], id);
        forall b | 0 <= b < |g|
          ensures RewriteAll(FoldAllInstrs(g[b], t), id, e) == FoldAllInstrs(g[b], t[id := e])
        {
          InstrsStep(g[b], t, id, e);
        }
        ApplyEntry(id, e);
      }
      assert entries[..|entries|] == entries;
    }
  }
}
