/** Concrete lines and what Node::parse and evaluation make of them. */
module Examples {
  import opened Numeric
  import opened Results
  import opened Tokens
  import opened Contexts
  import opened Nodes
  import opened Parser
  import opened Printing
  import ParserFacts

  lemma EmptyLines()
    ensures Parsed("") == ErrorNode("Empty expression")
    ensures Parsed(" ") == ErrorNode("Empty expression")
    ensures Parsed("()") == ErrorNode("Empty expression")
  {
    var empty := Shunt([], []);
    assert Scan("", empty) == Ok(empty);
    ParserFacts.SpaceSkipped(" ", empty);
    assert " "[1..] == "";
    assert [] + [Bracket] == [Bracket];
    assert Step("()", empty) == Ok(Advance(1, Shunt([Bracket], [])));
    assert "()"[1..] == ")" && ")"[1..] == "";
    assert Scan("()", empty) == Ok(empty);
    assert Drain(empty) == Ok([]);
  }

  /** A bracket left open is reported by the final loop as "Invalid
      expression", not as a bracket error. */
  lemma UnclosedBracketLine()
    ensures Parsed("(1+2") == ErrorNode("Invalid expression")
  {
    var sum := Op2Node(Add, Num(1), Num(2));
    assert Decimal(1) == "1" && Decimal(2) == "2";
    assert Show(sum) == "1+2";
    var inside := Shunt([Bracket], []);
    assert [] + [Bracket] == [Bracket];
    assert Step("(1+2", Shunt([], [])) == Ok(Advance(1, inside));
    assert "(1+2"[1..] == Show(sum) + "";
    ScanShow(sum, "", inside);
    var st := Shunt([Bracket] + Pending(sum), [] + Emitted(sum));
    assert Scan("(1+2", Shunt([], [])) == Ok(st);
    ParserFacts.UnclosedBracket("(1+2");
    assert st.stack[0] == Bracket;
  }

  /** A ')' with no '(' before it is the bracket error. */
  lemma UnopenedBracketLine()
    ensures Parsed("1+2)") == ErrorNode("Incorrect bracket sequence")
  {
    var sum := Op2Node(Add, Num(1), Num(2));
    assert Decimal(1) == "1" && Decimal(2) == "2";
    assert "1+2)" == Show(sum) + ")";
    ScanShow(sum, ")", Shunt([], []));
    var st := Shunt([] + Pending(sum), [] + Emitted(sum));
    assert st.stack == [Op2(Add)];
    ParserFacts.StepFailures(")", st);
    assert Scan("1+2)", Shunt([], [])) == Fail("Incorrect bracket sequence");
  }

  lemma ScanTwoOperands()
    ensures Scan("1 2", Shunt([], [])) == Ok(Shunt([], [Number(1), Number(2)]))
  {
    var one, two := [Number(1)], [Number(1), Number(2)];
    assert Decimal(1) == "1" && Decimal(2) == "2";
    assert [] + one == one && one + [Number(2)] == two;
    ScanNumber(1, " 2", Shunt([], []));
    assert "1 2" == Decimal(1) + " 2";
    ParserFacts.SpaceSkipped(" 2", Shunt([], one));
    assert " 2"[1..] == Decimal(2) + "";
    ScanNumber(2, "", Shunt([], one));
  }

  /** Two operands with no operator between them. */
  lemma TwoOperands()
    ensures Parsed("1 2") == ErrorNode("Wrong expression")
  {
    var two := [Number(1), Number(2)];
    ScanTwoOperands();
    assert Drain(Shunt([], two)) == Ok(two);
    assert [] + [NumberNode(1)] == [NumberNode(1)];
    assert two[1..] == [Number(2)] && [Number(2)][1..] == [];
    assert [NumberNode(1)] + [NumberNode(2)] == [NumberNode(1), NumberNode(2)];
    assert BuildFrom([], two) == BuildFrom([NumberNode(1)], [Number(2)]);
    assert BuildFrom([NumberNode(1)], [Number(2)]) == BuildFrom([NumberNode(1), NumberNode(2)], []);
  }

  /** An operator short of an operand. */
  lemma MissingOperand()
    ensures Parsed("1+") == ErrorNode("Wrong expression")
  {
    var one, out := [Number(1)], [Number(1), Op2(Add)];
    assert Decimal(1) == "1";
    ScanNumber(1, "+", Shunt([], []));
    assert "1+" == Decimal(1) + "+";
    assert "+"[1..] == [];
    assert [] + one == one && one + [Op2(Add)] == out;
    assert [] + [Op2(Add)] == [Op2(Add)];
    assert [] + [NumberNode(1)] == [NumberNode(1)];
    assert PopWhile(Shunt([], one), 1) == Shunt([], one);
    assert Step("+", Shunt([], one)) == Ok(Advance(1, Shunt([Op2(Add)], one)));
    assert Scan("+", Shunt([], one)) == Ok(Shunt([Op2(Add)], one));
    assert DropLast([Op2(Add)]) == [];
    assert Drain(Shunt([Op2(Add)], one)) == Drain(Shunt([], out));
    assert out[1..] == [Op2(Add)];
    assert BuildFrom([], out) == BuildFrom([NumberNode(1)], [Op2(Add)]);
  }

  lemma UnknownCharacter()
    ensures Parsed("a#") == ErrorNode("Wrong symbol")
  {
    assert Scan("#", Shunt([], [Var("a")])) == Fail("Wrong symbol");
  }

  lemma LiteralLimit()
    ensures Parsed("65535") == NumberNode(65535)
    ensures Parsed("65536") == ErrorNode("Too big number")
  {
  }

  function Num(v: int): Node
    requires 0 <= v <= MaxConst
  {
    NumberNode(v)
  }

  /** Operators of equal priority associate to the left, and a bracketed
      right operand stays on the right. */
  lemma LeftAssociation()
    ensures Parsed("1-2-3") == Op2Node(Sub, Op2Node(Sub, Num(1), Num(2)), Num(3))
    ensures Parsed("1-(2-3)") == Op2Node(Sub, Num(1), Op2Node(Sub, Num(2), Num(3)))
  {
    assert Decimal(1) == "1" && Decimal(2) == "2" && Decimal(3) == "3";
    var left := Op2Node(Sub, Op2Node(Sub, Num(1), Num(2)), Num(3));
    var right := Op2Node(Sub, Num(1), Op2Node(Sub, Num(2), Num(3)));
    assert Show(left) == "1-2-3";
    assert Show(right) == "1-(2-3)";
    ParseShow(left);
    ParseShow(right);
  }

  /** Multiplication and division bind tighter than addition and
      subtraction. */
  lemma Precedence()
    ensures Parsed("1+2*3") == Op2Node(Add, Num(1), Op2Node(Mul, Num(2), Num(3)))
    ensures Parsed("(1+2)*3") == Op2Node(Mul, Op2Node(Add, Num(1), Num(2)), Num(3))
  {
    assert Decimal(1) == "1" && Decimal(2) == "2" && Decimal(3) == "3";
    var sum := Op2Node(Add, Num(1), Op2Node(Mul, Num(2), Num(3)));
    var product := Op2Node(Mul, Op2Node(Add, Num(1), Num(2)), Num(3));
    assert Show(sum) == "1+2*3";
    assert Show(product) == "(1+2)*3";
    ParseShow(sum);
    ParseShow(product);
  }

  /** "(0-7)/2" keeps the bracketed difference as the left operand. */
  lemma ParseNegativeQuotient()
    ensures Parsed("(0-7)/2") == Op2Node(Div, Op2Node(Sub, Num(0), Num(7)), Num(2))
  {
    assert Decimal(0) == "0" && Decimal(2) == "2" && Decimal(7) == "7";
    var line := Op2Node(Div, Op2Node(Sub, Num(0), Num(7)), Num(2));
    assert Show(line) == "(0-7)/2";
    ParseShow(line);
  }

  /** Division truncates toward zero: (0-7)/2 is -3. */
  lemma CalculateNegativeQuotient(ctx: Context)
    ensures Calculate(Op2Node(Div, Op2Node(Sub, Num(0), Num(7)), Num(2)), ctx) == Value(-3)
  {
    var diff := Op2Node(Sub, Num(0), Num(7));
    assert Calculate(diff, ctx) == Value(-7);
    assert Abs(-7) / Abs(2) == 3;
    assert TruncDiv(-7, 2) == -3;
  }

  lemma ScanUnaryMinus()
    ensures Scan("-7/2", Shunt([], [])) == Ok(Shunt([Op2(Sub), Op2(Div)], [Number(7), Number(2)]))
  {
    assert Decimal(2) == "2" && Decimal(7) == "7";
    var quotient := Op2Node(Div, Num(7), Num(2));
    assert Show(quotient) == "7/2";
    var minus := Shunt([Op2(Sub)], []);
    assert [] + [Op2(Sub)] == [Op2(Sub)];
    assert Step("-7/2", Shunt([], [])) == Ok(Advance(1, minus));
    assert "-7/2"[1..] == Show(quotient) + "";
    ScanShow(quotient, "", minus);
    assert Pending(quotient) == [Op2(Div)] + [];
    assert Emitted(quotient) == [Number(7)] + [Number(2)];
    assert [Op2(Sub)] + Pending(quotient) == [Op2(Sub), Op2(Div)];
    assert [] + Emitted(quotient) == [Number(7), Number(2)];
  }

  /** There is no unary minus: in "-7/2" the '-' finds one operand only. */
  lemma UnaryMinus()
    ensures Parsed("-7/2") == ErrorNode("Wrong expression")
  {
    ScanUnaryMinus();
    var st := Shunt([Op2(Sub), Op2(Div)], [Number(7), Number(2)]);
    ParserFacts.DrainResult(st);
    assert ParserFacts.AllOps(st.stack);
    var postfix := [Number(7), Number(2), Op2(Div), Op2(Sub)];
    assert ParserFacts.Reverse(st.stack) == [Op2(Div), Op2(Sub)];
    assert st.output + [Op2(Div), Op2(Sub)] == postfix;
    assert Drain(st) == Ok(postfix);
    var quotient := Op2Node(Div, Num(7), Num(2));
    assert postfix == BuildFacts.Postfix(quotient) + [Op2(Sub)];
    BuildFacts.BuildFromPostfix([], quotient, [Op2(Sub)]);
    assert [] + [quotient] == [quotient];
  }

  /** A variable of the context is read; an absent one is an error naming
      it, and the left operand's error comes first. */
  lemma Variables(ctx: Context)
    requires ctx.variables == map["x" := 5]
    ensures Calculate(Op2Node(Add, VarNode("x"), Num(1)), ctx) == Value(6)
    ensures Calculate(Op2Node(Add, VarNode("y"), VarNode("z")), ctx) == Failure("Unknown variable y")
  {
  }

  /** Evaluation of the four operators at their edges. */
  lemma Arithmetic(ctx: Context)
    ensures Calculate(Op2Node(Div, Num(7), Num(2)), ctx) == Value(3)
    ensures Calculate(Op2Node(Div, Num(7), Num(0)), ctx) == Failure("Division by zero")
    ensures Calculate(Op2Node(Add, NumberNode(MaxInt64), Num(1)), ctx) == Failure("Overflow")
    ensures Calculate(Op2Node(Sub, NumberNode(MinInt64), Num(1)), ctx) == Failure("Overflow")
    ensures Calculate(Op2Node(Mul, Num(0), NumberNode(MaxInt64)), ctx) == Value(0)
  {
    assert TruncDiv(7, 2) == 3;
  }

  /** (0-32768)*32768*32768*32768*8, whose value is -2^63. */
  function Least(): Node {
    Op2Node(Mul, Op2Node(Mul, Op2Node(Mul, Op2Node(Mul,
      Op2Node(Sub, Num(0), Num(32768)), Num(32768)), Num(32768)), Num(32768)), Num(8))
  }

  /** Least() divided by 0-1. */
  function LeastOverMinusOne(): Node {
    Op2Node(Div, Least(), Op2Node(Sub, Num(0), Num(1)))
  }

  lemma DecimalExamples()
    ensures Decimal(0) == "0" && Decimal(1) == "1" && Decimal(8) == "8"
    ensures Decimal(32768) == "32768"
  {
    assert Decimal(3) == "3" && Decimal(32) == "32" && Decimal(327) == "327";
    assert Decimal(3276) == "3276";
  }

  lemma ShowLeast()
    ensures Show(Least()) == "(0-32768)*32768*32768*32768*8"
  {
    DecimalExamples();
    var t := Least();
    assert Show(t.left.left.left.left) == "0-32768";
    assert Show(t.left.left.left) == "(0-32768)*32768";
    assert Show(t.left.left) == "(0-32768)*32768*32768";
    assert Show(t.left) == "(0-32768)*32768*32768*32768";
  }

  /** The line parses to the tree it prints. */
  lemma ParseLeastOverMinusOne()
    ensures Parsed("(0-32768)*32768*32768*32768*8/(0-1)") == LeastOverMinusOne()
  {
    DecimalExamples();
    ShowLeast();
    var t := LeastOverMinusOne();
    assert Show(t.right) == "0-1";
    assert Show(t) == Show(Least()) + "/" + "(" + "0-1" + ")";
    assert Show(t) == "(0-32768)*32768*32768*32768*8/(0-1)";
    ParseShow(t);
  }

  /** The left operand is the least 64-bit value; dividing it by -1 has no
      64-bit quotient, and the corrected division reports "Overflow". */
  lemma CalculateLeastOverMinusOne(ctx: Context)
    ensures Calculate(Least(), ctx) == Value(MinInt64)
    ensures Calculate(LeastOverMinusOne(), ctx) == Failure("Overflow")
  {
    var t := Least();
    assert Calculate(t.left.left.left.left, ctx) == Value(-32768);
    assert Calculate(t.left.left.left, ctx) == Value(-0x4000_0000);
    assert Calculate(t.left.left, ctx) == Value(-0x2000_0000_0000);
    assert Calculate(t.left, ctx) == Value(-0x1000_0000_0000_0000);
    assert Calculate(t, ctx) == Value(MinInt64);
    var line := LeastOverMinusOne();
    assert Calculate(line.right, ctx) == Value(-1);
    assert CheckedDiv(MinInt64, -1) == Failure("Overflow");
  }
}
