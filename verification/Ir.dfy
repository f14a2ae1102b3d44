/** The slice of LLVM IR that the compiler emits and the constant propagation
    reads, as plain data, together with a small-step machine that runs it. */
module Ir {
  import opened Options

  // ----- 32-bit two's-complement arithmetic -----

  type i32 = x: int | -0x8000_0000 <= x < 0x8000_0000

  /** The i32 congruent to x modulo 2^32 (the wrap-around of add, sub and mul). */
  function Wrap(x: int): (r: i32)
    ensures (r - x) % 0x1_0000_0000 == 0
  {
    var m := x % 0x1_0000_0000;
    if m < 0x8000_0000 then m else m - 0x1_0000_0000
  }

  function Pow2(n: nat): (p: int)
    ensures p > 0
  {
    if n == 0 then 1 else 2 * Pow2(n - 1)
  }

  lemma Pow2Of31()
    ensures Pow2(31) == 0x8000_0000
  {
    assert Pow2(8) == 256;
    assert Pow2(16) == 65536 by { assert Pow2(12) == 4096; }
    assert Pow2(24) == 0x100_0000 by { assert Pow2(20) == 0x10_0000; }
    assert Pow2(28) == 0x1000_0000;
  }

  datatype Gate = AND | OR | XOR {
    function On(a: bool, b: bool): bool {
      match this
      case AND => a && b
      case OR => a || b
      case XOR => a != b
    }
  }

  /** A bitwise operator on (n+1)-bit two's-complement numbers, least significant
      bit first. */
  function Bitwise(gate: Gate, a: int, b: int, n: nat): (r: int)
    ensures -Pow2(n) <= r < Pow2(n)
    decreases n
  {
    if n == 0 then
      if gate.On(a != 0, b != 0) then -1 else 0
    else
      (if gate.On(a % 2 != 0, b % 2 != 0) then 1 else 0) + 2 * Bitwise(gate, a / 2, b / 2, n - 1)
  }

  function BitAnd(a: i32, b: i32): i32 {
    Pow2Of31();
    Bitwise(AND, a, b, 31)
  }

  function BitOr(a: i32, b: i32): i32 {
    Pow2Of31();
    Bitwise(OR, a, b, 31)
  }

  function BitXor(a: i32, b: i32): i32 {
    Pow2Of31();
    Bitwise(XOR, a, b, 31)
  }

  // ----- instructions -----

  /** An operand: an integer constant, the result of an instruction, or a
      parameter of the function. */
  datatype Value = Const(n: i32) | Reg(id: nat) | Arg(k: nat)

  datatype BinOp = Add | Sub | Mul | And | Or | Xor

  datatype Predicate = EQ | NE | SLT

  /** A block of the current function by number. A pointer that is null, or that
      points into another function, is NO_BLOCK. */
  type BlockRef = int

  const NO_BLOCK: BlockRef := -1

  datatype Op =
    | Binary(op: BinOp, a: Value, b: Value)
    | ICmp(pred: Predicate, a: Value, b: Value)
    | ZExt(a: Value)
    | Load(x: string)
    | Store(a: Value, x: string)
    | Phi(incoming: seq<(Value, BlockRef)>)
    | Br(target: BlockRef)
    | CondBr(a: Value, ifTrue: BlockRef, ifFalse: BlockRef)
    | Ret(a: Value)
    | RetVoid

  /** An instruction and its identity (its address in LLVM), which is also the
      name of the value it computes. */
  datatype Instr = Instr(id: nat, op: Op)

  type Graph = seq<seq<Instr>>

  predicate IsTerminator(i: Instr) {
    i.op.Br? || i.op.CondBr? || i.op.Ret? || i.op.RetVoid?
  }

  function Successors(op: Op): set<BlockRef> {
    match op
    case Br(t) => {t}
    case CondBr(_, t, f) => {t, f}
    case _ => {}
  }

  // ----- the machine -----

  datatype Event = DidLoad(x: string, v: i32) | DidStore(x: string, v: i32)

  /** Memory, and the accesses made to it so far in order. */
  datatype World = World(mem: map<string, i32>, trace: seq<Event>)

  /** The content of a slot that was never stored to is taken to be 0. */
  function Peek(w: World, x: string): i32 {
    if x in w.mem then w.mem[x] else 0
  }

  function DoLoad(w: World, x: string): World {
    World(w.mem, w.trace + [DidLoad(x, Peek(w, x))])
  }

  function DoStore(w: World, x: string, v: i32): World {
    World(w.mem[x := v], w.trace + [DidStore(x, v)])
  }

  datatype Config =
    | Running(blk: BlockRef, prev: BlockRef, rest: seq<Instr>, args: seq<i32>, regs: map<nat, i32>, w: World)
    | Halted(result: Option<i32>, w: World)
    | Stuck

  function Operand(v: Value, args: seq<i32>, regs: map<nat, i32>): Option<i32> {
    match v
    case Const(n) => Some(n)
    case Reg(id) => if id in regs then Some(regs[id]) else None
    case Arg(k) => if k < |args| then Some(args[k]) else None
  }

  function Apply(op: BinOp, a: i32, b: i32): i32 {
    match op
    case Add => Wrap(a + b)
    case Sub => Wrap(a - b)
    case Mul => Wrap(a * b)
    case And => BitAnd(a, b)
    case Or => BitOr(a, b)
    case Xor => BitXor(a, b)
  }

  function Compare(p: Predicate, a: i32, b: i32): i32 {
    match p
    case EQ => if a == b then 1 else 0
    case NE => if a != b then 1 else 0
    case SLT => if a < b then 1 else 0
  }

  /** The first incoming value recorded for block `from`. */
  function Select(incoming: seq<(Value, BlockRef)>, from: BlockRef): Option<Value> {
    if incoming == [] then None
    else if incoming[0].1 == from then Some(incoming[0].0)
    else Select(incoming[1..], from)
  }

  /** The value computed by an instruction that only computes, if it can. */
  function Compute(op: Op, prev: BlockRef, args: seq<i32>, regs: map<nat, i32>): Option<i32> {
    match op
    case Binary(o, a, b) =>
      (match (Operand(a, args, regs), Operand(b, args, regs))
       case (Some(x), Some(y)) => Some(Apply(o, x, y))
       case _ => None)
    case ICmp(p, a, b) =>
      (match (Operand(a, args, regs), Operand(b, args, regs))
       case (Some(x), Some(y)) => Some(Compare(p, x, y))
       case _ => None)
    case ZExt(a) => Operand(a, args, regs)
    case Phi(inc) =>
      (match Select(inc, prev)
       case Some(v) => Operand(v, args, regs)
       case None => None)
    case _ => None
  }

  predicate Computes(op: Op) {
    op.Binary? || op.ICmp? || op.ZExt? || op.Phi?
  }

  function Enter(g: Graph, c: Config, target: BlockRef): Config
    requires c.Running?
  {
    if 0 <= target < |g| then Running(target, c.blk, g[target], c.args, c.regs, c.w) else Stuck
  }

  function Step(g: Graph, c: Config): Config {
    match c
    case Halted(_, _) => c
    case Stuck => c
    case Running(blk, prev, rest, args, regs, w) =>
      if rest == [] then Stuck
      else
        var i := rest[0];
        match i.op
        case Load(x) =>
          Running(blk, prev, rest[1..], args, regs[i.id := Peek(w, x)], DoLoad(w, x))
        case Store(a, x) =>
          (match Operand(a, args, regs)
           case Some(v) => Running(blk, prev, rest[1..], args, regs, DoStore(w, x, v))
           case None => Stuck)
        case Br(t) => Enter(g, c, t)
        case CondBr(a, t, f) =>
          (match Operand(a, args, regs)
           case Some(v) => Enter(g, c, if v != 0 then t else f)
           case None => Stuck)
        case Ret(a) =>
          (match Operand(a, args, regs)
           case Some(v) => Halted(Some(v), w)
           case None => Stuck)
        case RetVoid => Halted(None, w)
        case _ =>
          (match Compute(i.op, prev, args, regs)
           case Some(v) => Running(blk, prev, rest[1..], args, regs[i.id := v], w)
           case None => Stuck)
  }

  function Run(g: Graph, c: Config, k: nat): Config
    decreases k
  {
    if k == 0 then c else Run(g, Step(g, c), k - 1)
  }

  lemma {:induction false} RunAdd(g: Graph, c: Config, j: nat, k: nat)
    ensures Run(g, c, j + k) == Run(g, Run(g, c, j), k)
    decreases j
  {
    if j > 0 {
      RunAdd(g, Step(g, c), j - 1, k);
    }
  }

  lemma {:induction false} RunHalted(g: Graph, c: Config, k: nat)
    requires !c.Running?
    ensures Run(g, c, k) == c
  {
    if k > 0 {
      RunHalted(g, c, k - 1);
    }
  }

  /** The machine started at the first block of a function. */
  function Start(g: Graph, args: seq<i32>, w: World): Config
    requires |g| > 0
  {
    Running(0, NO_BLOCK, g[0], args, map[], w)
  }

  /** Some run of the machine from c stops with this result and this world. */
  ghost predicate Finishes(g: Graph, c: Config, result: Option<i32>, w: World) {
    exists k: nat :: Run(g, c, k) == Halted(result, w)
  }

  ghost predicate Diverges(g: Graph, c: Config) {
    forall k: nat :: Run(g, c, k).Running?
  }
}
