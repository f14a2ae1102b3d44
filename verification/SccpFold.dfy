module SccpFold {
  /** What the pass computes for `and`, `or` and `xor`, which it reads differently
      from the machine. */

  import opened Ir
  import opened Options
  import opened Lattice
  import Faithful

  /** The number the pass stores for two known operands; of a xor it computes none. */
  function Computed(op: BinOp, x: i32, y: i32): Option<i32> {
    match op
    case Add => Some(Wrap(x + y))
    case Sub => Some(Wrap(x - y))
    case Mul => Some(Wrap(x * y))
    case Or => Some(if x != 0 || y != 0 then 1 else 0)
    case And => Some(if x != 0 && y != 0 then 1 else 0)
    case Xor => None
  }

  /** It is the number the machine computes for add, sub and mul always; for or
      exactly when both operands are 0 or 1; for and exactly when the machine
      finds no bit or only the lowest one in common. */
  lemma {:induction false} ComputedIsRightExactlyWhen(op: BinOp, x: i32, y: i32)
    ensures Computed(op, x, y) == Some(Apply(op, x, y)) <==>
      (match op
       case Or => 0 <= x <= 1 && 0 <= y <= 1
       case And => x == 0 || y == 0 || Faithful.ShareOnlyTheLowestBit(x, y)
       case Xor => false
       case _ => true)
  {
    hide BitAnd, BitOr, BitXor, Faithful.ShareOnlyTheLowestBit;
    Faithful.BitAndTruth(x, y);
    Faithful.BitOrTruth(x, y);
  }

  /** The pass decides an or from one operand, on either side, when that one is not 0,
      and an and when it is 0, while the other is unknown. */
  function Decided(op: BinOp, x: i32): Option<i32> {
    match op
    case Or => if x != 0 then Some(1) else None
    case And => if x == 0 then Some(0) else None
    case _ => None
  }

  /** That is right for every value of the other operand in the case of an and,
      and of an or for none but 0 and 1 as long as x is 1. */
  lemma {:induction false} DecidedIsRightExactlyWhen(op: BinOp, x: i32, y: i32)
    requires Decided(op, x).Some?
    ensures Decided(op, x).value == Apply(op, x, y) <==> op.And? || (x == 1 && 0 <= y <= 1)
    ensures Decided(op, x).value == Apply(op, y, x) <==> op.And? || (x == 1 && 0 <= y <= 1)
  {
    hide BitAnd, BitOr, BitXor;
    Faithful.BitAndTruth(x, y);
    Faithful.BitOrTruth(x, y);
    Faithful.BitAndTruth(y, x);
    Faithful.BitOrTruth(y, x);
  }
}
