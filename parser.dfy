/** Node::parse (node.cpp): the shunting-yard pass that turns an infix line
    into postfix tokens, and the pass that builds a tree from them. The
    functions describe what each loop of the source computes; the method
    Parse is the source's loops and is proved to compute Parsed. */
module Parser {
  import opened Numeric
  import opened Results
  import opened Chars
  import opened Tokens
  import opened Nodes

  /** MAXCONST, (1 << 16) - 1: the largest literal accepted. */
  const MaxConst: int := 65535

  /** A value or the error text that stopped the computation. */
  datatype Outcome<T> = Ok(value: T) | Fail(message: Message)

  /** The operator stack and the output sequence of the shunting-yard pass. */
  datatype Shunt = Shunt(stack: seq<Token>, output: seq<Token>)

  /** A literal: how many characters it spans and its value. */
  datatype Literal = Literal(length: nat, value: Int64)

  /** One pass of the scanning loop: characters consumed and the new state. */
  datatype Advance = Advance(consumed: nat, next: Shunt)

  function Last<T>(s: seq<T>): T
    requires s != []
  {
    s[|s| - 1]
  }

  function DropLast<T>(s: seq<T>): seq<T>
    requires s != []
  {
    s[..|s| - 1]
  }

  /** The loop for ')': move entries from the stack to the output down to
      the nearest bracket and drop the bracket; the bracket error when the
      stack runs out first. */
  function CloseBracket(st: Shunt): Outcome<Shunt>
    decreases |st.stack|
  {
    if st.stack == [] then Fail("Incorrect bracket sequence")
    else if Last(st.stack) == Bracket then Ok(Shunt(DropLast(st.stack), st.output))
    else CloseBracket(Shunt(DropLast(st.stack), st.output + [Last(st.stack)]))
  }

  /** The loop for an incoming operator of priority p: move entries whose
      priority is at least p from the stack to the output. */
  function PopWhile(st: Shunt, p: int): Shunt
    decreases |st.stack|
  {
    if st.stack != [] && Priority(Last(st.stack)) >= p then
      PopWhile(Shunt(DropLast(st.stack), st.output + [Last(st.stack)]), p)
    else
      st
  }

  /** The digit loop, having read `len` digits of `s` into `num`: it adds
      the next digit, and fails as soon as the value exceeds MaxConst. On
      success it has read the whole run of digits. */
  function ReadNumber(s: string, len: nat, num: nat): (r: Outcome<Literal>)
    requires len <= |s| && num <= MaxConst
    ensures r.Ok? ==> len <= r.value.length <= |s|
    ensures r.Ok? ==> r.value.length == |s| || !IsDigit(s[r.value.length])
    decreases |s| - len
  {
    if len < |s| && IsDigit(s[len]) then
      var next := num * 10 + DigitValue(s[len]);
      if next > MaxConst then Fail("Too big number")
      else ReadNumber(s, len + 1, next)
    else
      Ok(Literal(len, num))
  }

  /** The identifier loop: where the run of letters and digits starting at
      `len` ends. */
  function IdentEnd(s: string, len: nat): (e: nat)
    requires len <= |s|
    ensures len <= e <= |s|
    ensures forall k :: len <= k < e ==> IsAlnum(s[k])
    ensures e == |s| || !IsAlnum(s[e])
    decreases |s| - len
  {
    if len < |s| && IsAlnum(s[len]) then IdentEnd(s, len + 1) else len
  }

  /** One pass of the scanning loop on the rest `s` of the line, in the
      source's order of tests: '(' , ')', digit, letter, operator, space,
      anything else. */
  function Step(s: string, st: Shunt): (r: Outcome<Advance>)
    requires s != []
    ensures r.Ok? ==> 1 <= r.value.consumed <= |s|
  {
    var c := s[0];
    if c == '(' then
      Ok(Advance(1, Shunt(st.stack + [Bracket], st.output)))
    else if c == ')' then
      match CloseBracket(st)
      case Fail(m) => Fail(m)
      case Ok(next) => Ok(Advance(1, next))
    else if IsDigit(c) then
      match ReadNumber(s, 0, 0)
      case Fail(m) => Fail(m)
      case Ok(lit) => Ok(Advance(lit.length, Shunt(st.stack, st.output + [Number(lit.value)])))
    else if IsAlpha(c) then
      var len := IdentEnd(s, 0);
      Ok(Advance(len, Shunt(st.stack, st.output + [Var(s[..len])])))
    else if IsOpChar(c) then
      var op := CharOp(c);
      var popped := PopWhile(st, Priority(Op2(op)));
      Ok(Advance(1, Shunt(popped.stack + [Op2(op)], popped.output)))
    else if c != ' ' then
      Fail("Wrong symbol")
    else
      Ok(Advance(1, st))
  }

  /** The scanning loop over the rest `s` of the line. */
  function Scan(s: string, st: Shunt): Outcome<Shunt>
    decreases |s|
  {
    if s == [] then Ok(st)
    else
      match Step(s, st)
      case Fail(m) => Fail(m)
      case Ok(a) => Scan(s[a.consumed..], a.next)
  }

  /** The final loop: move the remaining stack to the output, failing on
      an entry that is not an operator (an unclosed bracket). */
  function Drain(st: Shunt): Outcome<seq<Token>>
    decreases |st.stack|
  {
    if st.stack == [] then Ok(st.output)
    else if !IsOp2(Last(st.stack)) then Fail("Invalid expression")
    else Drain(Shunt(DropLast(st.stack), st.output + [Last(st.stack)]))
  }

  /** The tree-building loop over the rest of the postfix tokens, with the
      operand stack `nodes`. An operator takes the two most recent operands,
      the earlier one as its left child. Other tokens are skipped. */
  function BuildFrom(nodes: seq<Node>, tokens: seq<Token>): Outcome<seq<Node>>
    decreases |tokens|
  {
    if tokens == [] then Ok(nodes)
    else
      var t := tokens[0];
      if IsOp2(t) then
        if |nodes| < 2 then Fail("Wrong expression")
        else
          var l, r := nodes[|nodes| - 2], nodes[|nodes| - 1];
          BuildFrom(nodes[..|nodes| - 2] + [Op2Node(t.op, l, r)], tokens[1..])
      else if t.Number? then BuildFrom(nodes + [NumberNode(t.value)], tokens[1..])
      else if t.Var? then BuildFrom(nodes + [VarNode(t.name)], tokens[1..])
      else BuildFrom(nodes, tokens[1..])
  }

  /** The tree of a postfix sequence, or the error node explaining why
      there is none. */
  function Build(postfix: seq<Token>): Node {
    if postfix == [] then ErrorNode("Empty expression")
    else
      match BuildFrom([], postfix)
      case Fail(m) => ErrorNode(m)
      case Ok(nodes) => if |nodes| != 1 then ErrorNode("Wrong expression") else nodes[0]
  }

  /** What Node::parse returns for a line. */
  function Parsed(str: string): Node {
    match Scan(str, Shunt([], []))
    case Fail(m) => ErrorNode(m)
    case Ok(st) =>
      match Drain(st)
      case Fail(m) => ErrorNode(m)
      case Ok(postfix) => Build(postfix)
  }

  /** The digit loop of Node::parse, on the digits of `str` from `i`. */
  method ReadDigits(str: string, i: nat) returns (r: Outcome<Literal>)
    requires i < |str| && IsDigit(str[i])
    ensures r == ReadNumber(str[i..], 0, 0)
  {
    ghost var s := str[i..];
    var len := 0;
    var num: nat := 0;
    while i + len < |str| && IsDigit(str[i + len])
      invariant i + len <= |str| && num <= MaxConst
      invariant ReadNumber(s, 0, 0) == ReadNumber(s, len, num)
    {
      num := num * 10 + DigitValue(str[i + len]);
      len := len + 1;
      if num > MaxConst {
        return Fail("Too big number");
      }
    }
    return Ok(Literal(len, num));
  }

  /** The identifier loop of Node::parse: the length of the run of letters
      and digits of `str` from `i`. */
  method ReadIdentifier(str: string, i: nat) returns (len: nat)
    requires i <= |str|
    ensures len == IdentEnd(str[i..], 0)
  {
    ghost var s := str[i..];
    len := 0;
    while i + len < |str| && IsAlnum(str[i + len])
      invariant i + len <= |str|
      invariant IdentEnd(s, 0) == IdentEnd(s, len)
    {
      len := len + 1;
    }
  }

  /** The loop for ')' in Node::parse: pop operators onto the output down
      to the nearest bracket, then pop the bracket. */
  method PopToBracket(stack0: seq<Token>, output0: seq<Token>) returns (r: Outcome<Shunt>)
    ensures r == CloseBracket(Shunt(stack0, output0))
  {
    var stack, output := stack0, output0;
    while |stack| > 0 && Last(stack) != Bracket
      invariant CloseBracket(Shunt(stack0, output0)) == CloseBracket(Shunt(stack, output))
    {
      output := output + [Last(stack)];
      stack := DropLast(stack);
    }
    if |stack| == 0 {
      return Fail("Incorrect bracket sequence");
    }
    stack := DropLast(stack);
    return Ok(Shunt(stack, output));
  }

  /** The loop for an operator of priority `p` in Node::parse: pop the
      entries of priority at least `p` onto the output. */
  method PopOperators(stack0: seq<Token>, output0: seq<Token>, p: int) returns (stack: seq<Token>, output: seq<Token>)
    ensures Shunt(stack, output) == PopWhile(Shunt(stack0, output0), p)
  {
    stack, output := stack0, output0;
    while |stack| > 0 && Priority(Last(stack)) >= p
      invariant PopWhile(Shunt(stack0, output0), p) == PopWhile(Shunt(stack, output), p)
    {
      output := output + [Last(stack)];
      stack := DropLast(stack);
    }
  }

  /** The first half of Node::parse ("Creating Reverse Polish notation"):
      the scanning loop over the line. */
  method ScanLine(str: string) returns (r: Outcome<Shunt>)
    ensures r == Scan(str, Shunt([], []))
  {
    var stack: seq<Token> := [];
    var output: seq<Token> := [];
    var i := 0;
    while i < |str|
      invariant i <= |str|
      invariant Scan(str, Shunt([], [])) == Scan(str[i..], Shunt(stack, output))
    {
      ghost var s := str[i..];
      ghost var before := Shunt(stack, output);
      ghost var consumed := 1;
      if str[i] == '(' {
        stack := stack + [Bracket];
        assert Step(s, before) == Ok(Advance(1, Shunt(stack, output)));
      } else if str[i] == ')' {
        var closed := PopToBracket(stack, output);
        if closed.Fail? {
          return Fail(closed.message);
        }
        stack, output := closed.value.stack, closed.value.output;
        assert Step(s, before) == Ok(Advance(1, Shunt(stack, output)));
      } else if IsDigit(str[i]) {
        var lit := ReadDigits(str, i);
        if lit.Fail? {
          return Fail(lit.message);
        }
        var len, num := lit.value.length, lit.value.value;
        consumed := len;
        i := i + len - 1;
        output := output + [Number(num)];
        assert Step(s, before) == Ok(Advance(consumed, Shunt(stack, output)));
      } else if IsAlpha(str[i]) {
        var len := ReadIdentifier(str, i);
        assert s[..len] == str[i..i + len];
        consumed := len;
        output := output + [Var(str[i..i + len])];
        assert Step(s, before) == Ok(Advance(consumed, Shunt(stack, output)));
        i := i + len - 1;
      } else if IsOpChar(str[i]) {
        var op := CharOp(str[i]);
        stack, output := PopOperators(stack, output, Priority(Op2(op)));
        stack := stack + [Op2(op)];
        assert Step(s, before) == Ok(Advance(1, Shunt(stack, output)));
      } else if str[i] != ' ' {
        return Fail("Wrong symbol");
      } else {
        assert Step(s, before) == Ok(Advance(1, Shunt(stack, output)));
      }
      assert s[consumed..] == str[i + 1..];
      i := i + 1;
    }
    return Ok(Shunt(stack, output));
  }

  /** The final loop of the first half: empty the operator stack onto the
      output. */
  method DrainStack(st: Shunt) returns (r: Outcome<seq<Token>>)
    ensures r == Drain(st)
  {
    var stack, output := st.stack, st.output;
    while |stack| > 0
      invariant Drain(st) == Drain(Shunt(stack, output))
    {
      if !IsOp2(Last(stack)) {
        return Fail("Invalid expression");
      }
      output := output + [Last(stack)];
      stack := DropLast(stack);
    }
    return Ok(output);
  }

  /** The second half of Node::parse ("Creating AST"): the tree-building
      loop over the postfix tokens. */
  method BuildTree(output: seq<Token>) returns (root: Node)
    ensures root == Build(output)
  {
    if |output| == 0 {
      return ErrorNode("Empty expression");
    }
    var nodes: seq<Node> := [];
    for k := 0 to |output|
      invariant BuildFrom([], output) == BuildFrom(nodes, output[k..])
    {
      var token := output[k];
      assert output[k..][0] == token && output[k..][1..] == output[k + 1..];
      if IsOp2(token) {
        if |nodes| < 2 {
          return ErrorNode("Wrong expression");
        }
        ghost var old_nodes := nodes;
        var r := Last(nodes);
        nodes := DropLast(nodes);
        var l := Last(nodes);
        nodes := DropLast(nodes);
        assert nodes == old_nodes[..|old_nodes| - 2];
        nodes := nodes + [Op2Node(token.op, l, r)];
      } else if token.Number? {
        nodes := nodes + [NumberNode(token.value)];
      } else if token.Var? {
        nodes := nodes + [VarNode(token.name)];
      }
    }
    if |nodes| != 1 {
      return ErrorNode("Wrong expression");
    }
    return nodes[0];
  }

  /** Node::parse: the scanning pass, then the tree-building pass. */
  method Parse(str: string) returns (root: Node)
    ensures root == Parsed(str)
  {
    var scanned := ScanLine(str);
    if scanned.Fail? {
      return ErrorNode(scanned.message);
    }
    var postfix := DrainStack(scanned.value);
    if postfix.Fail? {
      return ErrorNode(postfix.message);
    }
    root := BuildTree(postfix.value);
  }
}
