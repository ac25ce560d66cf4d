/** What Node::calculate computes, stated against exact integer
    arithmetic: a tree evaluates without error exactly when every
    intermediate value it defines exists (no unknown variable, no zero
    divisor) and fits in 64 bits, and then it yields the exact value. */
module Semantics {
  import opened Numeric
  import opened Results
  import opened Tokens
  import opened Contexts
  import opened Nodes

  datatype Option<T> = None | Some(value: T)

  /** The value of a tree in unbounded integers, with division truncated
      toward zero; None for an error node, an unknown variable or a zero
      divisor. */
  function Exact(n: Node, ctx: Context): Option<int>
    reads ctx
  {
    match n
    case ErrorNode(_) => None
    case NumberNode(v) => Some(v)
    case VarNode(x) => if ctx.In(x) then Some(ctx.variables[x]) else None
    case Op2Node(op, left, right) =>
      match (Exact(left, ctx), Exact(right, ctx))
      case (Some(a), Some(b)) =>
        (match op
         case Add => Some(a + b)
         case Sub => Some(a - b)
         case Mul => Some(a * b)
         case Div => if b == 0 then None else Some(TruncDiv(a, b)))
      case _ => None
  }

  /** Every subtree has an exact value that fits in 64 bits; in addition
      the right operand of a subtraction is never the least 64-bit value,
      which the source always rejects. */
  predicate Representable(n: Node, ctx: Context)
    reads ctx
  {
    match n
    case ErrorNode(_) => false
    case NumberNode(_) => true
    case VarNode(x) => ctx.In(x)
    case Op2Node(op, left, right) =>
      && Representable(left, ctx)
      && Representable(right, ctx)
      && Exact(n, ctx).Some?
      && InInt64(Exact(n, ctx).value)
      && (op == Sub ==> Exact(right, ctx).value != MinInt64)
  }

  /** Evaluation is exact: it succeeds exactly on representable trees, and
      then its number is the exact value. */
  lemma {:induction false} CalculateExact(n: Node, ctx: Context)
    ensures !Calculate(n, ctx).IsError() <==> Representable(n, ctx)
    ensures !Calculate(n, ctx).IsError() ==> Exact(n, ctx) == Some(Calculate(n, ctx).number)
  {
    match n
    case ErrorNode(_) =>
    case NumberNode(_) =>
    case VarNode(x) =>
    case Op2Node(op, left, right) =>
      CalculateExact(left, ctx);
      CalculateExact(right, ctx);
  }

  /** The variables a tree mentions. */
  function Vars(n: Node): set<string> {
    match n
    case ErrorNode(_) => {}
    case NumberNode(_) => {}
    case VarNode(x) => {x}
    case Op2Node(_, left, right) => Vars(left) + Vars(right)
  }

  /** The error texts a tree carries in its error nodes. */
  function Messages(n: Node): set<string> {
    match n
    case ErrorNode(m) => {m}
    case NumberNode(_) => {}
    case VarNode(_) => {}
    case Op2Node(_, left, right) => Messages(left) + Messages(right)
  }

  /** An evaluation error is one of the tree's own error texts, the
      unknown-variable error for a variable of the tree that the context
      lacks, "Overflow", or "Division by zero". */
  lemma {:induction false} CalculateErrors(n: Node, ctx: Context)
    ensures var r := Calculate(n, ctx);
      r.IsError() ==>
        || r.message in Messages(n)
        || r.message == "Overflow"
        || r.message == "Division by zero"
        || exists x :: x in Vars(n) && !ctx.In(x) && r.message == "Unknown variable " + x
  {
    match n
    case ErrorNode(_) =>
    case NumberNode(_) =>
    case VarNode(x) =>
      assert x in Vars(n);
    case Op2Node(op, left, right) =>
      CalculateErrors(left, ctx);
      CalculateErrors(right, ctx);
  }

  /** Evaluation reads the context only at the tree's variables: two
      contexts that agree there give the same result. */
  lemma {:induction false} CalculateReadsVars(n: Node, c1: Context, c2: Context)
    requires forall x :: x in Vars(n) ==> c1.Get(x) == c2.Get(x)
    ensures Calculate(n, c1) == Calculate(n, c2)
  {
    match n
    case ErrorNode(_) =>
    case NumberNode(_) =>
    case VarNode(x) =>
      assert x in Vars(n);
    case Op2Node(op, left, right) =>
      CalculateReadsVars(left, c1, c2);
      CalculateReadsVars(right, c1, c2);
  }

  /** The leaves: a number evaluates to itself, a variable to exactly what
      the context gives for it, an error node to its message; only the
      error node is in error. */
  lemma Leaves(v: Int64, x: string, m: Message, ctx: Context)
    ensures Calculate(NumberNode(v), ctx) == Value(v) && !NumberNode(v).IsError()
    ensures Calculate(VarNode(x), ctx) == ctx.Get(x) && !VarNode(x).IsError()
    ensures Calculate(ErrorNode(m), ctx) == Failure(m) && ErrorNode(m).IsError()
  {
  }

  /** Evaluation order: an error of the left operand is the result,
      whatever the right operand is. */
  lemma LeftErrorFirst(op: Op, left: Node, right1: Node, right2: Node, ctx: Context)
    requires Calculate(left, ctx).IsError()
    ensures Calculate(Op2Node(op, left, right1), ctx) == Calculate(left, ctx)
    ensures Calculate(Op2Node(op, left, right1), ctx) == Calculate(Op2Node(op, left, right2), ctx)
  {
  }

  /** Otherwise an error of the right operand is the result, whatever the
      operator is. */
  lemma RightErrorSecond(op1: Op, op2: Op, left: Node, right: Node, ctx: Context)
    requires !Calculate(left, ctx).IsError() && Calculate(right, ctx).IsError()
    ensures Calculate(Op2Node(op1, left, right), ctx) == Calculate(right, ctx)
    ensures Calculate(Op2Node(op1, left, right), ctx) == Calculate(Op2Node(op2, left, right), ctx)
  {
  }

  /** Subtracting the least 64-bit value always fails, even where the
      exact difference fits: -1 - (-2^63) is 2^63 - 1. */
  lemma SubRejectsLeast()
    ensures InInt64(-1 - MinInt64)
    ensures CheckedSub(-1, MinInt64) == Failure("Overflow")
  {
  }

  /** Division truncates toward zero: 7 / 2 is 3 and -7 / 2 is -3. */
  lemma DivTruncates()
    ensures CheckedDiv(7, 2) == Value(3)
    ensures CheckedDiv(-7, 2) == Value(-3)
    ensures CheckedDiv(7, -2) == Value(-3)
    ensures CheckedDiv(1, 0) == Failure("Division by zero")
  {
    assert TruncDiv(7, 2) == 3;
    assert TruncDiv(-7, 2) == -3;
    assert TruncDiv(7, -2) == -3;
  }

  /** DivNode::func as written: the C++ quotient `l / r` for a non-zero
      divisor, with no range test. */
  function DivAsWritten(l: Int64, r: Int64): (q: int)
    requires r != 0
    ensures Abs(q) <= Abs(l)
  {
    TruncDivShrinks(l, r);
    TruncDiv(l, r)
  }

  /** The one case where the quotient as written has no 64-bit value:
      -2^63 / -1 is 2^63 (undefined behaviour in C++, a trap on common
      hardware). Every other quotient fits. CheckedDiv reports this case
      as "Overflow" and agrees with DivAsWritten everywhere else. */
  lemma DivAsWrittenOverflows(l: Int64, r: Int64)
    requires r != 0
    ensures DivAsWritten(MinInt64, -1) == MaxInt64 + 1
    ensures InInt64(DivAsWritten(l, r)) <==> !(l == MinInt64 && r == -1)
    ensures InInt64(DivAsWritten(l, r)) ==> CheckedDiv(l, r) == Value(DivAsWritten(l, r))
    ensures !InInt64(DivAsWritten(l, r)) ==> CheckedDiv(l, r) == Failure("Overflow")
  {
    QuotientFits(l, r);
    assert TruncDiv(MinInt64, -1) == MaxInt64 + 1;
  }
}
