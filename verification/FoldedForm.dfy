module FoldedForm {
  /** What folding achieves: nothing is left that the tables have decided. */

  import opened Ir
  import opened Lattice
  import opened SccpSound
  import opened SccpRun

  /** The instruction is none whose value is known or never computed, none of its
      operands is known, and it chooses between successors only where the tables do not;
      a phi has values from reachable blocks only. */
  predicate Undecided(i: Instr, t: Table, live: set<BlockRef>) {
    && (Computes(i.op) && i.id in t ==> t[i.id].Top?)
    && (i.op.CondBr? ==> !Find(t, i.id).Known?)
    && (forall v <- Operands(i.op) :: v.Reg? ==> !Find(t, v.id).Known?)
    && (i.op.Phi? ==> forall p <- i.op.incoming :: p.1 in live)
  }

  /** After folding, a reachable block holds undecided instructions only, and any other
      block holds none. */
  lemma {:induction false} NothingDecidedIsLeft(g: Graph, t: Table, live: set<BlockRef>, b: nat)
    requires b < |g|
    ensures forall i <- Fold(g, t, live)[b] :: b in live && Undecided(i, t, live)
  {
    if b in live {
      FoldedAreUndecided(g[b], t, live);
    }
  }

  lemma {:induction false} FoldedAreUndecided(s: seq<Instr>, t: Table, live: set<BlockRef>)
    ensures forall i <- FoldInstrs(s, t, live) :: Undecided(i, t, live)
    decreases s
  {
    hide Undecided;
    if s != [] {
      FoldedAreUndecided(s[1..], t, live);
      if !Dropped(s[0], t) {
        FoldedIsUndecided(s[0], t, live);
      }
    }
  }

  lemma {:induction false} FoldedIsUndecided(i: Instr, t: Table, live: set<BlockRef>)
    requires !Dropped(i, t)
    ensures Undecided(Instr(i.id, FoldOp(i, t, live)), t, live)
  {
    if i.op.Phi? {
      FoldedIncoming(i.op.incoming, t, live);
      var incoming := FoldIncoming(i.op.incoming, t, live);
      var operands := Operands(Phi(incoming));
      forall v | v in operands && v.Reg?
        ensures !Find(t, v.id).Known?
      {
        var k :| 0 <= k < |operands| && operands[k] == v;
        assert incoming[k] in incoming;
      }
    }
  }

  lemma {:induction false} FoldedIncoming(incoming: seq<(Value, BlockRef)>, t: Table, live: set<BlockRef>)
    ensures forall p <- FoldIncoming(incoming, t, live) :: p.1 in live && (p.0.Reg? ==> !Find(t, p.0.id).Known?)
    decreases incoming
  {
    if incoming != [] {
      FoldedIncoming(incoming[1..], t, live);
    }
  }
}
