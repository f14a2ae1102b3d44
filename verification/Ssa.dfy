/** What the constant propagation relies on in the functions it is given: where the
    instructions stand and which values they use. */
module Ssa {
  import opened Ir
  import opened SccpRun

  predicate Has(g: Graph, b: int, k: int) {
    0 <= b < |g| && 0 <= k < |g[b]|
  }

  predicate Terminates(op: Op) { op.Br? || op.CondBr? || op.Ret? || op.RetVoid? }

  /** Whether i in block b may use the value of j in block c: terminators have none,
      and that of a comparison is used in its own block behind it. */
  predicate MayUse(i: Instr, b: int, k: int, j: Instr, c: int, l: int) {
    Reg(j.id) in Operands(i.op) ==> !Terminates(j.op) && (j.op.ICmp? ==> b == c && l < k)
  }

  /** Every instruction stands in one place. */
  ghost predicate Unshared(g: Graph) {
    forall b, k, c, l | Has(g, b, k) && Has(g, c, l) && g[b][k].id == g[c][l].id :: b == c && k == l
  }

  ghost predicate UsesFit(g: Graph) {
    forall b, k, c, l | Has(g, b, k) && Has(g, c, l) :: MayUse(g[b][k], b, k, g[c][l], c, l)
  }

  /** A terminator is the last instruction of its block, and has no value to use. */
  ghost predicate BranchesLast(g: Graph) {
    && (forall b, k | 0 <= b < |g| && 0 <= k < |g[b]| - 1 :: !Terminates(g[b][k].op))
    && (forall b, i | 0 <= b < |g| && i in g[b] && Terminates(i.op) :: Uses(g, 0, i.id) == [])
  }

  lemma {:induction false} UnsharedIds(g: Graph)
    requires Unshared(g)
    ensures DistinctIds(g)
  {
    forall b, b', i, i' | b in g && b' in g && i in b && i' in b' && i.id == i'.id
      ensures i == i'
    {
      var c, k := PlaceOf(g, b, i);
      var d, l := PlaceOf(g, b', i');
    }
  }

  lemma PlaceOf(g: Graph, b: seq<Instr>, i: Instr) returns (c: nat, k: nat)
    requires b in g && i in b
    ensures Has(g, c, k) && g[c][k] == i
  {
    c :| 0 <= c < |g| && g[c] == b;
    k :| 0 <= k < |b| && b[k] == i;
  }

  lemma {:induction false} BranchIsUnused(g: Graph, b: nat, k: nat, c: nat)
    requires UsesFit(g) && Has(g, b, k) && Terminates(g[b][k].op) && c <= |g|
    ensures Uses(g, c, g[b][k].id) == []
    decreases |g| - c
  {
    hide Operands;
    if c < |g| {
      forall l | 0 <= l < |g[c]|
        ensures Reg(g[b][k].id) !in Operands(g[c][l].op)
      {
        assert Has(g, c, l) && MayUse(g[c][l], c, l, g[b][k], b, k);
      }
      UsedNowhere(g[c], c, g[b][k].id);
      BranchIsUnused(g, b, k, c + 1);
    }
  }

  lemma {:induction false} UsedNowhere(s: seq<Instr>, b: nat, id: nat)
    requires forall l | 0 <= l < |s| :: Reg(id) !in Operands(s[l].op)
    ensures UsesIn(s, b, id) == []
    decreases s
  {
    if s != [] {
      UsedNowhere(s[1..], b, id);
    }
  }
}
