/** The IR creator: the graph under construction, the insert point, the break and
    continue points and the label map. `Gen` is its state as a value; the class
    updates the same state in place. */
module Creator {
  import opened Ir
  import opened Options

  datatype Gen = Gen(
    blocks: Graph, cur: nat, next: nat,
    breakPoint: BlockRef, continuePoint: BlockRef, labels: map<string, nat>)
  {
    /** The insert point and the label blocks are blocks of this function. */
    ghost predicate Ok() {
      && cur < |blocks|
      && forall l <- labels :: labels[l] < |blocks|
    }

    function WithBlock(): (g: Gen)
      ensures |g.blocks| == |blocks| + 1 && g.cur == cur && g.next == next
      ensures Ok() ==> g.Ok()
    {
      this.(blocks := blocks + [[]])
    }

    function At(b: nat): (g: Gen)
      requires b < |blocks|
      ensures |g.blocks| == |blocks| && g.cur == b && g.next == next
      ensures Ok() ==> g.Ok()
    {
      this.(cur := b)
    }

    /** The block of a label is made current. */
    function AtLabel(l: string): (g: Gen)
      requires l in labels && labels[l] < |blocks|
      ensures |g.blocks| == |blocks| && g.cur == labels[l] && g.next == next
      ensures Ok() ==> g.Ok()
    {
      At(labels[l])
    }

    /** Appends an instruction to block b. */
    function Add(b: nat, op: Op): (g: Gen)
      requires b < |blocks|
      ensures |g.blocks| == |blocks| && g.cur == cur && g.next == next + 1
      ensures Ok() ==> g.Ok()
    {
      this.(blocks := blocks[b := blocks[b] + [Instr(next, op)]], next := next + 1)
    }

    /** Appends an instruction at the insert point. */
    function Append(op: Op): (g: Gen)
      requires cur < |blocks|
      ensures |g.blocks| == |blocks| && g.cur == cur && g.next == next + 1
      ensures Ok() ==> g.Ok()
    {
      Add(cur, op)
    }

    /** A new block, branched to from the insert point and made current. */
    function WithConnectedBlock(): (g: Gen)
      requires cur < |blocks|
      ensures |g.blocks| == |blocks| + 1 && g.cur == |blocks|
      ensures Ok() ==> g.Ok()
    {
      var g1 := WithBlock().Append(Br(|blocks|));
      g1.At(|blocks|)
    }

    /** The label map with a block for l, which is new if l had none. */
    function WithLabel(l: string): (g: Gen)
      ensures |blocks| <= |g.blocks| && l in g.labels && g.cur == cur && g.next == next
      ensures Ok() ==> g.Ok() && g.labels[l] < |g.blocks|
    {
      if l in labels then this else WithBlock().(labels := labels[l := |blocks|])
    }

    /** A branch from the insert point to the block of a label. */
    function Jump(l: string): (g: Gen)
      requires Ok()
      ensures |blocks| <= |g.blocks| && l in g.labels && g.labels[l] < |g.blocks|
      ensures g.Ok() && g.cur == cur
    {
      var g1 := WithLabel(l);
      g1.Append(Br(g1.labels[l]))
    }

    function WithLoopPoints(breakTo: BlockRef, continueTo: BlockRef): (g: Gen)
      ensures Ok() ==> g.Ok()
    {
      this.(breakPoint := breakTo, continuePoint := continueTo)
    }
  }

  /** A creator that has just started a function: one empty block, and no break
      point, continue point or label of this function. */
  const STARTED := Gen([[]], 0, 0, NO_BLOCK, NO_BLOCK, map[])

  class IRCreator {
    var blocks: Graph
    var current: nat
    var nextId: nat
    var currentBreakPoint: BlockRef
    var currentContinuePoint: BlockRef
    var mapLabel: map<string, nat>

    ghost function State(): Gen
      reads this
    {
      Gen(blocks, current, nextId, currentBreakPoint, currentContinuePoint, mapLabel)
    }

    ghost predicate Valid()
      reads this
    {
      State().Ok()
    }

    /** Starts a function. The label map is the one left by startFunction, which
        clears it, and no loop point belongs to this function yet. */
    constructor ()
      ensures Valid() && State() == STARTED
    {
      blocks, current, nextId := [[]], 0, 0;
      currentBreakPoint, currentContinuePoint, mapLabel := NO_BLOCK, NO_BLOCK, map[];
    }

    method Insert(op: Op) returns (v: Value)
      requires Valid()
      modifies this
      ensures Valid() && State() == old(State()).Append(op) && v == Reg(old(nextId))
    {
      blocks := blocks[current := blocks[current] + [Instr(nextId, op)]];
      v := Reg(nextId);
      nextId := nextId + 1;
    }

    method GetControlFlowBlock() returns (b: nat)
      requires Valid()
      modifies this
      ensures Valid() && State() == old(State()).WithBlock() && b == |old(blocks)|
    {
      b := |blocks|;
      blocks := blocks + [[]];
    }

    method MakeBlock(connect: bool := true) returns (b: nat)
      requires Valid()
      modifies this
      ensures Valid() && b == |old(blocks)|
      ensures State() == if connect then old(State()).WithConnectedBlock() else old(State()).WithBlock()
    {
      b := GetControlFlowBlock();
      if connect {
        var _ := Insert(Br(b));
        current := b;
      }
    }

    method SetCurrentBasicBlock(b: nat)
      requires Valid() && b < |blocks|
      modifies this
      ensures Valid() && State() == old(State()).At(b)
    {
      current := b;
    }

    method Connect(to: BlockRef)
      requires Valid()
      modifies this
      ensures Valid() && State() == old(State()).Append(Br(to))
    {
      var _ := Insert(Br(to));
    }

    /** Branches from the insert point, or from a given block, and returns the
        block it branched from. */
    method ConnectFrom(from: Option<nat>, to: BlockRef) returns (b: nat)
      requires Valid() && (from.Some? ==> from.value < |blocks|)
      modifies this
      ensures Valid() && b == (if from.Some? then from.value else old(current))
      ensures State() == old(State()).Add(b, Br(to))
    {
      b := if from.Some? then from.value else current;
      blocks := blocks[b := blocks[b] + [Instr(nextId, Br(to))]];
      nextId := nextId + 1;
    }

    method MakeConditionalBranch(v: Value, ifTrue: BlockRef, ifFalse: BlockRef)
      requires Valid()
      modifies this
      ensures Valid()
      ensures State() == old(State()).Append(ICmp(NE, v, Const(0))).Append(CondBr(Reg(old(nextId)), ifTrue, ifFalse))
    {
      var c := Insert(ICmp(NE, v, Const(0)));
      var _ := Insert(CondBr(c, ifTrue, ifFalse));
    }

    /** Returns, and continues in a dead block. */
    method MakeReturn(v: Option<Value>)
      requires Valid()
      modifies this
      ensures Valid()
      ensures State() == old(State()).Append(if v.Some? then Ret(v.value) else RetVoid).WithBlock().At(|old(blocks)|)
    {
      var _ := Insert(if v.Some? then Ret(v.value) else RetVoid);
      var dead := GetControlFlowBlock();
      SetCurrentBasicBlock(dead);
    }

    /** Branches to the block of a label, made when the label is first met. */
    method JumpToLabel(l: string) returns (b: nat)
      requires Valid()
      modifies this
      ensures Valid() && State() == old(State()).Jump(l) && b == mapLabel[l]
    {
      b := LabelBlock(l);
      Connect(b);
    }

    method LabelBlock(l: string) returns (b: nat)
      requires Valid()
      modifies this
      ensures Valid() && State() == old(State()).WithLabel(l) && b == mapLabel[l]
    {
      if l in mapLabel {
        b := mapLabel[l];
      } else {
        b := MakeBlock(false);
        mapLabel := mapLabel[l := b];
      }
    }

    method SetLoopPoints(breakTo: BlockRef, continueTo: BlockRef)
      requires Valid()
      modifies this
      ensures Valid() && State() == old(State()).WithLoopPoints(breakTo, continueTo)
    {
      currentBreakPoint := breakTo;
      currentContinuePoint := continueTo;
    }

    method MakePhi(v1: Value, b1: nat, v2: Value, b2: nat) returns (v: Value)
      requires Valid()
      modifies this
      ensures Valid() && v == Reg(old(nextId))
      ensures State() == old(State()).Append(Phi([(v1, b1), (v2, b2)]))
    {
      v := Insert(Phi([(v1, b1), (v2, b2)]));
    }

    /** Closes the last block when it has no terminator yet. */
    method FinishFunction(isVoid: bool)
      requires Valid()
      modifies this
      ensures Valid()
      ensures var g := old(State());
        State() == if g.blocks[g.cur] != [] && IsTerminator(g.blocks[g.cur][|g.blocks[g.cur]| - 1]) then g
                   else g.Append(if isVoid then RetVoid else Ret(Const(0)))
    {
      var b := blocks[current];
      if b == [] || !IsTerminator(b[|b| - 1]) {
        var _ := Insert(if isVoid then RetVoid else Ret(Const(0)));
      }
    }
  }
}
