/** Expression trees and their evaluation (the Node classes of node.h). */
module Nodes {
  import opened Numeric
  import opened Results
  import opened Tokens
  import opened Contexts

  /** ErrorNode, NumberNode, VarNode and the binary Op2Node (AddNode,
      SubNode, MulNode, DivNode, told apart by `op`). Each operator node owns
      its two children; a datatype has no sharing and no cycles. */
  datatype Node =
    | ErrorNode(message: Message)
    | NumberNode(value: Int64)
    | VarNode(name: string)
    | Op2Node(op: Op, left: Node, right: Node)
  {
    /** Node::error: only an error node is in error. */
    predicate IsError() {
      ErrorNode?
    }
  }

  /** AddNode::func: the sum, or "Overflow" exactly when the true sum does
      not fit in 64 bits. The source tests this with a sign-aware comparison
      that never computes an out-of-range value. */
  function CheckedAdd(l: Int64, r: Int64): (res: Result)
    ensures res == if InInt64(l + r) then Value(l + r) else Failure("Overflow")
  {
    var a, b: int := l, r;
    if (a > 0 && b > MaxInt64 - a) || (a < 0 && b < MinInt64 - a) then
      Failure("Overflow")
    else
      Value(a + b)
  }

  /** SubNode::func: "Overflow" whenever the right operand is the least
      64-bit value (its negation does not fit), otherwise exactly when the
      true difference does not fit; else the difference. */
  function CheckedSub(l: Int64, r: Int64): (res: Result)
    ensures res == if r != MinInt64 && InInt64(l - r) then Value(l - r) else Failure("Overflow")
  {
    var a, b: int := l, r;
    if b == MinInt64 || (a > 0 && -b > MaxInt64 - a) || (a < 0 && -b < MinInt64 - a) then
      Failure("Overflow")
    else
      Value(a - b)
  }

  /** MulNode::func: a zero left operand gives 0; otherwise "Overflow"
      exactly when the true product does not fit. When it succeeds, dividing
      the product back by a non-zero left operand gives the right operand,
      which is the test the source writes. */
  function CheckedMul(l: Int64, r: Int64): (res: Result)
    ensures res == if InInt64(l * r) then Value(l * r) else Failure("Overflow")
    ensures res.Value? && l != 0 ==> TruncDiv(res.number, l) == r
  {
    if l != 0 && !InInt64(l * r) then
      Failure("Overflow")
    else
      TruncDivProduct(l, r);
      Value(l * r)
  }

  /** DivNode::func: "Division by zero" for a zero divisor; otherwise the
      quotient truncated toward zero. The one quotient of two 64-bit values
      that does not fit, MinInt64 / -1, gives "Overflow". */
  function CheckedDiv(l: Int64, r: Int64): (res: Result)
    ensures r == 0 ==> res == Failure("Division by zero")
    ensures r != 0 ==> res == if InInt64(TruncDiv(l, r)) then Value(TruncDiv(l, r)) else Failure("Overflow")
  {
    if r == 0 then
      Failure("Division by zero")
    else if l == MinInt64 && r == -1 then
      Failure("Overflow")
    else
      QuotientFits(l, r);
      Value(TruncDiv(l, r))
  }

  /** The `func` of each operator node. */
  function Func(op: Op, l: Int64, r: Int64): Result {
    match op
    case Add => CheckedAdd(l, r)
    case Sub => CheckedSub(l, r)
    case Mul => CheckedMul(l, r)
    case Div => CheckedDiv(l, r)
  }

  /** Node::calculate. Leaves give their message, their number, or the
      context's value of their variable. An operator node evaluates its left
      child first and returns an error from it unchanged without looking at
      the right child; then an error from the right child unchanged; then
      the operator's func. The context is only read. */
  function Calculate(n: Node, ctx: Context): Result
    reads ctx
  {
    match n
    case ErrorNode(m) => Failure(m)
    case NumberNode(v) => Value(v)
    case VarNode(x) => ctx.Get(x)
    case Op2Node(op, left, right) =>
      var l := Calculate(left, ctx);
      if l.IsError() then l
      else
        var r := Calculate(right, ctx);
        if r.IsError() then r
        else Func(op, l.number, r.number)
  }
}
