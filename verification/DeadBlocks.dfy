/** The deletion of dead blocks: merging, dropping and self-loop removal repeated
    until nothing changes. */
module DeadBlocks {
  import opened Ir
  import opened Options
  import opened Lattice
  import opened SccpSound
  import opened DeadChains

  /** No dead block has a live predecessor, and dead blocks exist once each. */
  ghost predicate Separate(g: Cfg, dead: seq<nat>) {
    && (forall b <- dead :: b in g)
    && (forall i, j | 0 <= i < j < |dead| :: dead[i] != dead[j])
    && (forall b, p | b in dead && p in Preds(g, b) :: p in dead)
  }

  /** The live part is as it was. */
  ghost predicate LiveSame(g: Cfg, g': Cfg, dead: set<nat>) {
    forall p | p !in dead :: (p in g <==> p in g') && (p in g ==> g[p] == g'[p])
  }

  class FunctionBlocks {
    var blocks: Cfg

    constructor (g: Cfg)
      ensures blocks == g
    {
      blocks := g;
    }

    method UniquePredecessor(b: nat) returns (p: Option<nat>)
      ensures p.Some? <==> exists q :: Preds(blocks, b) == {q}
      ensures p.Some? ==> Preds(blocks, b) == {p.value}
    {
      var preds := Preds(blocks, b);
      if preds == {} {
        return None;
      }
      var q :| q in preds;
      if preds == {q} {
        return Some(q);
      }
      return None;
    }

    method MergeBlockIntoPredecessor(b: nat) returns (merged: bool)
      requires b in blocks
      modifies this
      ensures merged <==> exists p :: Mergeable(old(blocks), b, p)
      ensures !merged ==> blocks == old(blocks)
      ensures merged ==> exists p :: Mergeable(old(blocks), b, p) && blocks == Merged(old(blocks), b, p)
    {
      var p := UniquePredecessor(b);
      if p.Some? && p.value != b {
        assert p.value in Preds(blocks, b);
        if blocks[p.value] == {b} {
          assert Mergeable(blocks, b, p.value);
          blocks := Merged(blocks, b, p.value);
          return true;
        }
      }
      return false;
    }

    method DeleteDeadBlock(b: nat)
      modifies this
      ensures blocks == Without(old(blocks), b)
    {
      blocks := Without(blocks, b);
    }

    /** Ends with the dead blocks that are left, to none of which a rule applies. The
        live part is untouched, and nothing is left exactly when the dead blocks can be
        arranged as chains, each of which branches to itself and to later ones only. */
    method DeleteDeadBlocks(dead: seq<nat>) returns (left: seq<nat>)
      requires Separate(blocks, dead)
      modifies this
      ensures Separate(blocks, left) && forall b <- left :: b in dead && !Removable(blocks, b)
      ensures LiveSame(old(blocks), blocks, Blocks(dead))
      ensures forall b <- dead :: b in blocks <==> b in left
      ensures left == [] <==> Dissolves(old(blocks), Blocks(dead))
    {
      ghost var g0 := blocks;
      left := dead;
      var dirty := true;
      while dirty
        invariant Kept(g0, blocks, dead, left)
        invariant !dirty ==> forall b <- left :: !Removable(blocks, b)
        decreases |left|, dirty
      {
        dirty := false;
        ghost var before := |left|;
        var i := 0;
        while i < |left|
          invariant 0 <= i <= |left| <= before && (dirty ==> |left| < before) && (!dirty ==> |left| == before)
          invariant Kept(g0, blocks, dead, left)
          invariant !dirty ==> forall b <- left[..i] :: !Removable(blocks, b)
          decreases |left| - i
        {
          var b := left[i];
          assert b in left && b in blocks;
          ghost var g := blocks;
          var gone := MergeBlockIntoPredecessor(b);
          if gone {
            ghost var p :| Mergeable(g, b, p) && blocks == Merged(g, b, p);
            MergeKeeps(g0, g, dead, left, i, p);
          } else {
            var p := UniquePredecessor(b);
            if Preds(blocks, b) == {} || p == Some(b) {
              DeleteDeadBlock(b);
              gone := true;
              RemoveKeeps(g0, g, dead, left, i);
            } else {
              assert !Removable(blocks, b);
            }
          }
          if gone {
            left := left[..i] + left[i + 1..];
            dirty := true;
          } else {
            assert left[..i + 1] == left[..i] + [b];
            i := i + 1;
          }
        }
        assert left[..|left|] == left;
      }
      ghost var rest := Blocks(left);
      assert left == [] <==> rest == {} by {
        assert left != [] ==> left[0] in rest;
      }
      NothingLeft(blocks, rest);
    }
  }

  /** What every step of the loop keeps. */
  ghost predicate Kept(g0: Cfg, g: Cfg, dead: seq<nat>, left: seq<nat>) {
    && Separate(g, left)
    && (forall b <- left :: b in dead)
    && LiveSame(g0, g, Blocks(dead))
    && (forall b <- dead :: b in g <==> b in left)
    && (Dissolves(g0, Blocks(dead)) <==> Dissolves(g, Blocks(left)))
  }

  lemma {:induction false} Removed(s: seq<nat>, i: nat)
    requires i < |s| && forall j, k | 0 <= j < k < |s| :: s[j] != s[k]
    ensures var s' := s[..i] + s[i + 1..];
      && (forall b :: b in s' <==> b in s && b != s[i])
      && (forall j, k | 0 <= j < k < |s'| :: s'[j] != s'[k])
  {
    var s' := s[..i] + s[i + 1..];
    forall b
      ensures b in s' <==> b in s && b != s[i]
    {
      if b in s && b != s[i] {
        var k :| 0 <= k < |s| && s[k] == b;
        assert s'[if k < i then k else k - 1] == b;
      }
    }
  }

  lemma {:induction false} RemoveKeeps(g0: Cfg, g: Cfg, dead: seq<nat>, left: seq<nat>, i: nat)
    requires Kept(g0, g, dead, left) && i < |left| && (Preds(g, left[i]) == {} || Preds(g, left[i]) == {left[i]})
    ensures Kept(g0, Without(g, left[i]), dead, left[..i] + left[i + 1..])
  {
    var b, left' := left[i], left[..i] + left[i + 1..];
    var g' := Without(g, b);
    Removed(left, i);
    assert b in left && b in dead;
    forall c, p | c in left' && p in Preds(g', c)
      ensures p in left'
    {
      assert p in Preds(g, c);
    }
    assert Blocks(left') == Blocks(left) - {b};
    RemovedDissolves(g, Blocks(left), b);
  }

  lemma {:induction false} MergeKeeps(g0: Cfg, g: Cfg, dead: seq<nat>, left: seq<nat>, i: nat, p: nat)
    requires Kept(g0, g, dead, left) && i < |left| && Mergeable(g, left[i], p)
    ensures Kept(g0, Merged(g, left[i], p), dead, left[..i] + left[i + 1..])
  {
    var b, left' := left[i], left[..i] + left[i + 1..];
    var g' := Merged(g, b, p);
    Removed(left, i);
    assert b in left && b in dead && p in Preds(g, b);
    assert p in left && p in left';
    assert b in g[b] ==> b in Preds(g, b);
    forall c, q | c in left' && q in Preds(g', c)
      ensures q in left'
    {
      if q != p {
        assert q in Preds(g, c);
      }
    }
    assert Blocks(left') == Blocks(left) - {b};
    MergedDissolves(g, Blocks(left), b, p);
  }

  /** The dead part has no cycles but self-loops: edges between different dead
      blocks go up in some numbering. */
  ghost predicate Numbered(g: Cfg, dead: set<nat>, rank: map<nat, nat>) {
    && dead <= rank.Keys
    && (forall p, b | p in dead && b in dead && b in Out(g, p) && p != b :: rank[p] < rank[b])
  }

  /** Such blocks are chains of one block each. */
  lemma {:induction false} NumberedDissolves(g: Cfg, dead: set<nat>, rank: map<nat, nat>) returns (chains: seq<seq<nat>>)
    requires Numbered(g, dead, rank)
    ensures Chained(g, dead, chains)
    decreases dead
  {
    if dead == {} {
      chains := [];
    } else {
      var b := Lowest(dead, rank);
      assert Blocks([b]) == {b};
      var rest := NumberedDissolves(g, dead - {b}, rank);
      chains := [[b]] + rest;
      assert chains[1..] == rest;
      assert IsChain(g, dead, [b]);
    }
  }

  lemma {:induction false} Lowest(s: set<nat>, rank: map<nat, nat>) returns (b: nat)
    requires s != {} && s <= rank.Keys
    ensures b in s && forall c <- s :: rank[b] <= rank[c]
    decreases s
  {
    b :| b in s;
    if s != {b} {
      var c := Lowest(s - {b}, rank);
      if rank[c] < rank[b] {
        b := c;
      }
    }
  }

  // ----- the folded function -----

  /** A branch on a constant that was not folded, because the block it goes to was
      reachable already, names reachable blocks only. */
  predicate KeptBranchIsLive(i: Instr, t: Table, live: set<BlockRef>) {
    i.op.CondBr? && OfValue(i.op.a, t).Known? && !Find(t, i.id).Known? ==> {i.op.ifTrue, i.op.ifFalse} <= live
  }

  /** After folding by closed tables a reachable block branches to reachable blocks
      only, so that no dead block has it as a predecessor, exactly when its branches
      on a constant were folded or name no dead block. */
  lemma {:induction false} BranchesStayLiveExactlyWhen(g: Graph, t: Table, live: set<BlockRef>, b: nat)
    requires Closed(g, t, live) && b < |g| && b in live
    ensures (forall i <- Fold(g, t, live)[b] :: Successors(i.op) <= live) <==> forall i <- g[b] :: KeptBranchIsLive(i, t, live)
  {
    hide ClosedAt, KeptBranchIsLive, Successors;
    FoldedInstrs(g[b], t, live);
  }

  lemma {:induction false} FoldedInstrs(s: seq<Instr>, t: Table, live: set<BlockRef>)
    requires forall i <- s :: ClosedAt(i, t, live)
    ensures (forall i <- FoldInstrs(s, t, live) :: Successors(i.op) <= live) <==> forall i <- s :: KeptBranchIsLive(i, t, live)
    decreases s
  {
    hide ClosedAt, KeptBranchIsLive, FoldOp, Successors;
    if s != [] {
      FoldedInstr(s[0], t, live);
      FoldedInstrs(s[1..], t, live);
      var folded := if Dropped(s[0], t) then [] else [Instr(s[0].id, FoldOp(s[0], t, live))];
      var rest := FoldInstrs(s[1..], t, live);
      assert FoldInstrs(s, t, live) == folded + rest;
      assert forall i :: i in folded + rest <==> i in folded || i in rest;
      assert forall i :: i in s <==> i == s[0] || i in s[1..];
    }
  }

  lemma {:induction false} FoldedInstr(i: Instr, t: Table, live: set<BlockRef>)
    requires ClosedAt(i, t, live)
    ensures Successors(FoldOp(i, t, live)) <= live <==> KeptBranchIsLive(i, t, live)
    ensures Dropped(i, t) ==> KeptBranchIsLive(i, t, live)
  {
    hide Transfer, OfValue;
  }
}
