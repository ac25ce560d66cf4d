/** Tokens of the shunting-yard pass (Token of node.h / node.cpp). */
module Tokens {
  import opened Numeric
  import opened Results

  /** The four binary operators. */
  datatype Op = Add | Sub | Mul | Div

  /** Token::Type with its payload: an error text, a variable name or a
      number. A bracket token stands for an open bracket on the operator
      stack; a closing bracket is never stored. */
  datatype Token =
    | Bracket
    | Error(message: Message)
    | Var(name: string)
    | Number(value: Int64)
    | Op2(op: Op)

  /** Token::isOp2: the token is one of the four binary operators. */
  predicate IsOp2(t: Token) {
    t.Op2?
  }

  /** Token::priority. Exactly the operators have a positive priority, and
      a bracket's priority is below every operator's, so an incoming
      operator, which pops only entries of priority at least its own, never
      pops a bracket. */
  function Priority(t: Token): (p: int)
    ensures IsOp2(t) <==> p > 0
    ensures t.Bracket? ==> p < 0
    ensures t.Op2? ==> p == (if t.op == Add || t.op == Sub then 1 else 2)
  {
    match t
    case Var(_) => 0
    case Bracket => -100
    case Op2(Add) => 1
    case Op2(Sub) => 1
    case Op2(Mul) => 2
    case Op2(Div) => 2
    case _ => -1
  }

  /** The character that spells an operator. */
  function OpChar(op: Op): char {
    match op
    case Add => '+'
    case Sub => '-'
    case Mul => '*'
    case Div => '/'
  }

  predicate IsOpChar(c: char) {
    c == '+' || c == '-' || c == '*' || c == '/'
  }

  /** The operator a character spells (the inner if-chain of Node::parse). */
  function CharOp(c: char): (op: Op)
    requires IsOpChar(c)
    ensures OpChar(op) == c
  {
    if c == '+' then Add
    else if c == '-' then Sub
    else if c == '*' then Mul
    else Div
  }
}
