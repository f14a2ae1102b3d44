module BranchCycles {
  /** Ranks and cycles: the conditional branches of a function can be ranked upwards
      exactly when no cycle consists of them. */

  import opened Ir
  import opened Ast
  import opened Codegen
  import opened SccpRun
  import opened SccpPass
  import opened Ssa
  import opened SccpEnds
  import opened BranchRanks

  /** A conditional branch of block b can go to c. */
  ghost predicate Edge(g: Graph, b: BlockRef, c: BlockRef) {
    0 <= b < |g| && exists i :: i in g[b] && i.op.CondBr? && (c == i.op.ifTrue || c == i.op.ifFalse)
  }

  ghost predicate Path(g: Graph, p: seq<BlockRef>) {
    p != [] && forall k | 0 <= k < |p| - 1 :: Edge(g, p[k], p[k + 1])
  }

  /** A cycle of conditional branches. */
  ghost predicate Cycle(g: Graph, p: seq<BlockRef>) {
    Path(g, p) && |p| > 1 && p[0] == p[|p| - 1]
  }

  ghost predicate HasPath(g: Graph, b: BlockRef, n: nat) {
    exists p :: Path(g, p) && p[0] == b && |p| == n + 1
  }

  /** The length of the longest path from b, up to n. */
  ghost function Depth(g: Graph, b: BlockRef, n: nat): (d: nat)
    ensures d <= n && (forall k | d < k <= n :: !HasPath(g, b, k)) && (d > 0 ==> HasPath(g, b, d))
  {
    if n == 0 || HasPath(g, b, n) then n else Depth(g, b, n - 1)
  }

  lemma {:induction false} PartOfPath(g: Graph, p: seq<BlockRef>, j: nat, k: nat)
    requires Path(g, p) && j < k <= |p|
    ensures Path(g, p[j..k])
  {
    var q := p[j..k];
    forall l | 0 <= l < |q| - 1
      ensures Edge(g, q[l], q[l + 1])
    {
      assert q[l] == p[j + l] && q[l + 1] == p[j + l + 1];
    }
  }

  lemma {:induction false} PathRises(g: Graph, rank: seq<int>, p: seq<BlockRef>)
    requires Upward(g, rank) && Path(g, p) && |p| > 1
    ensures 0 <= p[0] < |rank| && 0 <= p[|p| - 1] < |rank| && rank[p[0]] < rank[p[|p| - 1]]
    decreases p
  {
    assert Edge(g, p[0], p[1]);
    var i :| i in g[p[0]] && i.op.CondBr? && (p[1] == i.op.ifTrue || p[1] == i.op.ifFalse);
    assert LeadsUp(p[0], i.op, rank);
    if |p| > 2 {
      var rest := p[1..];
      PartOfPath(g, p, 1, |p|);
      PathRises(g, rank, rest);
    }
  }

  // ----- counting -----

  /** More numbers below n than n: one comes twice. */
  lemma {:induction false} Twice(p: seq<BlockRef>, n: nat)
    requires |p| > n && forall b <- p :: 0 <= b < n
    ensures exists j, k :: 0 <= j < k < |p| && p[j] == p[k]
  {
    if forall j, k | 0 <= j < k < |p| :: p[j] != p[k] {
      Fits(p, n);
    }
  }

  function Numbers(n: nat): (s: set<int>)
    ensures |s| == n && forall b :: b in s <==> 0 <= b < n
  {
    if n == 0 then {} else Numbers(n - 1) + {n - 1}
  }

  lemma {:induction false} Fits(p: seq<BlockRef>, n: nat)
    requires (forall b <- p :: 0 <= b < n) && forall j, k | 0 <= j < k < |p| :: p[j] != p[k]
    ensures |p| <= n
  {
    Members(p);
    Subset((set b | b in p), Numbers(n));
  }

  lemma {:induction false} Members(p: seq<BlockRef>)
    requires forall j, k | 0 <= j < k < |p| :: p[j] != p[k]
    ensures |set b | b in p| == |p|
    decreases p
  {
    if p != [] {
      Members(p[1..]);
      assert (set b | b in p) == {p[0]} + set b | b in p[1..];
    }
  }

  lemma Subset(a: set<BlockRef>, b: set<BlockRef>)
    requires a <= b
    ensures |a| <= |b|
  {
    assert b == a + (b - a) && |b| == |a| + |b - a|;
  }

  // ----- ranks from depths -----

  /** The part of a path between two visits of one block is a cycle. */
  lemma {:induction false} CycleInside(g: Graph, p: seq<BlockRef>)
    requires Path(g, p) && |p| > |g| + 1
    ensures exists q :: Cycle(g, q)
  {
    var front := p[..|p| - 1];
    forall b | b in front
      ensures 0 <= b < |g|
    {
      var k :| 0 <= k < |front| && front[k] == b;
      assert Edge(g, p[k], p[k + 1]);
    }
    Twice(front, |g|);
    var j, k :| 0 <= j < k < |front| && front[j] == front[k];
    var q := p[j..k + 1];
    PartOfPath(g, p, j, k + 1);
    assert Cycle(g, q);
  }

  lemma {:induction false} DepthFalls(g: Graph, b: BlockRef, c: BlockRef)
    requires Edge(g, b, c) && forall q :: !Cycle(g, q)
    ensures Depth(g, b, |g| + 1) > Depth(g, c, |g| + 1)
  {
    var d := Depth(g, c, |g| + 1);
    assert HasPath(g, c, d) by {
      if d == 0 {
        assert Path(g, [c]) && [c][0] == c && |[c]| == 1;
      }
    }
    var p :| Path(g, p) && p[0] == c && |p| == d + 1;
    var q := [b] + p;
    forall k | 0 <= k < |q| - 1
      ensures Edge(g, q[k], q[k + 1])
    {
      if k > 0 {
        assert q[k] == p[k - 1] && q[k + 1] == p[k];
      }
    }
    assert Path(g, q) && q[0] == b && |q| == d + 2;
    assert HasPath(g, b, d + 1);
    if d == |g| + 1 {
      CycleInside(g, p);
    }
  }

  ghost function DepthRanks(g: Graph): (rank: seq<int>)
    ensures |rank| == |g| && forall b | 0 <= b < |g| :: rank[b] == 0 - Depth(g, b, |g| + 1)
  {
    seq(|g|, b requires 0 <= b < |g| => 0 - (Depth(g, b, |g| + 1) as int))
  }

  lemma {:induction false} RankedExactlyWhen(g: Graph)
    requires forall b, i | 0 <= b < |g| && i in g[b] && i.op.CondBr? :: 0 <= i.op.ifTrue < |g| && 0 <= i.op.ifFalse < |g|
    ensures (exists rank :: Upward(g, rank)) <==> forall p :: !Cycle(g, p)
  {
    hide Depth;
    if rank :| Upward(g, rank) {
      forall p
        ensures !Cycle(g, p)
      {
        if Cycle(g, p) {
          PathRises(g, rank, p);
        }
      }
    }
    if forall p :: !Cycle(g, p) {
      var rank := DepthRanks(g);
      forall b, i: Instr | 0 <= b < |g| && i in g[b] && i.op.CondBr?
        ensures LeadsUp(b, i.op, rank)
      {
        assert Edge(g, b, i.op.ifTrue) && Edge(g, b, i.op.ifFalse);
        DepthFalls(g, b, i.op.ifTrue);
        DepthFalls(g, b, i.op.ifFalse);
      }
      assert Upward(g, rank);
    }
  }

  // ----- cycles and the pass -----

  /** Every cycle of a generated function has an unconditional branch. */
  lemma {:induction false} NoCycleInFunction(f: Function)
    ensures forall p :: !Cycle(EmitFunction(f).blocks, p)
  {
    hide EmitFunction;
    var rank := BranchesRise(f);
    forall p
      ensures !Cycle(EmitFunction(f).blocks, p)
    {
      if Cycle(EmitFunction(f).blocks, p) {
        PathRises(EmitFunction(f).blocks, rank, p);
      }
    }
  }

  /** Where that holds, the pass ends. */
  lemma {:induction false} EndsWithoutCycle(g: Graph)
    requires Ready(g) && BranchesLast(g) && forall p :: !Cycle(g, p)
    ensures Inside(g, Initial(g)) && exists n: nat :: Ended(Rounds(g, Initial(g), n))
  {
    hide BranchesLast, DistinctIds, Arithmetical, Rounds;
    forall b, i: Instr | 0 <= b < |g| && i in g[b] && i.op.CondBr?
      ensures 0 <= i.op.ifTrue < |g| && 0 <= i.op.ifFalse < |g|
    {
      assert i.op.ifTrue in Successors(i.op) && i.op.ifFalse in Successors(i.op);
    }
    RankedExactlyWhen(g);
    var rank :| Upward(g, rank);
    EndsWhenRanked(g, rank);
  }
}
