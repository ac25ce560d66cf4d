/** Node::parse respects precedence and left association: printing a tree
    with the fewest brackets those rules need and parsing the text gives
    the same tree back. */
module Printing {
  import opened Numeric
  import opened Chars
  import opened Tokens
  import opened Nodes
  import opened Parser
  import opened ParserFacts
  import opened BuildFacts

  // ---------------------------------------------------------------------
  // Decimal numerals

  /** The decimal numeral of n, most significant digit first. */
  function Decimal(n: nat): (ds: string)
    ensures ds != [] && AllDigits(ds)
  {
    if n < 10 then [DigitChar(n)] else Decimal(n / 10) + [DigitChar(n % 10)]
  }

  /** Reading a numeral back gives its number. */
  lemma {:induction false} DecimalValue(n: nat)
    ensures DigitsValue(Decimal(n)) == n
  {
    var ds := Decimal(n);
    if n < 10 {
      assert DropLast(ds) == [];
    } else {
      assert DropLast(ds) == Decimal(n / 10);
      DecimalValue(n / 10);
    }
  }

  /** A digit run followed by a non-digit ends where the run ends. */
  lemma {:induction false} DigitRunEndOf(ds: string, rest: string, k: nat)
    requires AllDigits(ds) && k <= |ds|
    requires rest == [] || !IsDigit(rest[0])
    ensures DigitRunEnd(ds + rest, k) == |ds|
    decreases |ds| - k
  {
    var s := ds + rest;
    if k < |ds| {
      assert s[k] == ds[k];
      DigitRunEndOf(ds, rest, k + 1);
    } else if k < |s| {
      assert s[k] == rest[0];
    }
  }

  /** An identifier followed by a non-alphanumeric ends where it ends. */
  lemma {:induction false} IdentEndOf(x: string, rest: string, k: nat)
    requires k <= |x| && forall j :: 0 <= j < |x| ==> IsAlnum(x[j])
    requires rest == [] || !IsAlnum(rest[0])
    ensures IdentEnd(x + rest, k) == |x|
    decreases |x| - k
  {
    var s := x + rest;
    if k < |x| {
      assert s[k] == x[k];
      IdentEndOf(x, rest, k + 1);
    } else if k < |s| {
      assert s[k] == rest[0];
    }
  }

  // ---------------------------------------------------------------------
  // The printer

  /** A variable name the scanner reads as one token. */
  predicate Identifier(x: string) {
    x != [] && IsAlpha(x[0]) && forall j :: 0 <= j < |x| ==> IsAlnum(x[j])
  }

  /** Trees that have a textual form: no error nodes, literals within the
      scanner's limit, and variable names that are identifiers. Every tree
      the parser builds is of this kind. */
  predicate Printable(t: Node)
    ensures Printable(t) ==> NoErrors(t)
  {
    match t
    case ErrorNode(_) => false
    case NumberNode(v) => 0 <= v <= MaxConst
    case VarNode(x) => Identifier(x)
    case Op2Node(_, l, r) => Printable(l) && Printable(r)
  }

  /** How tightly a tree binds: its operator's priority, or above every
      priority for a leaf. */
  function Level(t: Node): (k: int)
    ensures 1 <= k <= 3
  {
    if t.Op2Node? then Priority(Op2(t.op)) else 3
  }

  /** The text of a tree with the fewest brackets: a left operand is
      bracketed when it binds less tightly than its operator, a right
      operand also when it binds equally (operators associate left). */
  function Show(t: Node): string
    requires Printable(t)
    decreases t, 0
  {
    match t
    case NumberNode(v) => Decimal(v)
    case VarNode(x) => x
    case Op2Node(op, l, r) =>
      var p := Level(t);
      ShowOperand(l, Level(l) < p) + [OpChar(op)] + ShowOperand(r, Level(r) <= p)
  }

  function ShowOperand(t: Node, bracketed: bool): string
    requires Printable(t)
    decreases t, 1
  {
    if bracketed then "(" + Show(t) + ")" else Show(t)
  }

  // ---------------------------------------------------------------------
  // What the scanner does with a printed tree

  /** The operators of a tree the scanner still holds on its stack after
      reading the tree's text, bottom first: those along the unbracketed
      right spine. */
  function Pending(t: Node): seq<Token>
    requires Printable(t)
    decreases t, 0
  {
    match t
    case NumberNode(_) => []
    case VarNode(_) => []
    case Op2Node(op, l, r) => [Op2(op)] + PendingOperand(r, Level(r) <= Level(t))
  }

  function PendingOperand(t: Node, bracketed: bool): seq<Token>
    requires Printable(t)
    decreases t, 1
  {
    if bracketed then [] else Pending(t)
  }

  /** The tokens the scanner has output after reading a tree's text. */
  function Emitted(t: Node): seq<Token>
    requires Printable(t)
    decreases t, 0
  {
    match t
    case NumberNode(v) => [Number(v)]
    case VarNode(x) => [Var(x)]
    case Op2Node(op, l, r) => Postfix(l) + EmittedOperand(r, Level(r) <= Level(t))
  }

  function EmittedOperand(t: Node, bracketed: bool): seq<Token>
    requires Printable(t)
    decreases t, 1
  {
    if bracketed then Postfix(t) else Emitted(t)
  }

  /** The held operators all bind at least as tightly as the tree, and the
      output followed by the held operators, top first, is the tree's
      postfix form. */
  lemma {:induction false} PendingFacts(t: Node)
    requires Printable(t)
    ensures Emitted(t) + Reverse(Pending(t)) == Postfix(t)
    ensures forall j :: 0 <= j < |Pending(t)| ==> IsOp2(Pending(t)[j]) && Priority(Pending(t)[j]) >= Level(t)
  {
    match t
    case NumberNode(_) =>
    case VarNode(_) =>
    case Op2Node(op, l, r) =>
      var b := Level(r) <= Level(t);
      var pr := PendingOperand(r, b);
      if !b {
        PendingFacts(r);
      }
      assert EmittedOperand(r, b) + Reverse(pr) == Postfix(r);
      ReverseAppend([Op2(op)], pr);
      assert Reverse([Op2(op)]) == [Op2(op)];
      calc {
        Emitted(t) + Reverse(Pending(t));
        Postfix(l) + EmittedOperand(r, b) + (Reverse(pr) + [Op2(op)]);
        Postfix(l) + (EmittedOperand(r, b) + Reverse(pr)) + [Op2(op)];
      }
      forall j | 0 <= j < |Pending(t)|
        ensures IsOp2(Pending(t)[j]) && Priority(Pending(t)[j]) >= Level(t)
      {
        if j > 0 {
          assert Pending(t)[j] == pr[j - 1];
        }
      }
  }

  /** The operator loop pops exactly the held operators that bind at least
      as tightly as the incoming one, when the entry below them binds less
      tightly. */
  lemma {:induction false} PopHeld(below: seq<Token>, held: seq<Token>, output: seq<Token>, p: int)
    requires below == [] || Priority(Last(below)) < p
    requires forall j :: 0 <= j < |held| ==> Priority(held[j]) >= p
    ensures PopWhile(Shunt(below + held, output), p) == Shunt(below, output + Reverse(held))
    decreases |held|
  {
    if held == [] {
      assert below + held == below;
      assert output + Reverse(held) == output;
    } else {
      var stack := below + held;
      assert Last(stack) == Last(held);
      assert DropLast(stack) == below + DropLast(held);
      PopHeld(below, DropLast(held), output + [Last(held)], p);
      assert Reverse(held) == [Last(held)] + Reverse(DropLast(held));
      assert output + Reverse(held) == output + [Last(held)] + Reverse(DropLast(held));
    }
  }

  /** ')' pops exactly the held operators above the bracket and the
      bracket. */
  lemma {:induction false} CloseHeld(below: seq<Token>, held: seq<Token>, output: seq<Token>)
    requires forall j :: 0 <= j < |held| ==> IsOp2(held[j])
    ensures CloseBracket(Shunt(below + [Bracket] + held, output)) == Ok(Shunt(below, output + Reverse(held)))
    decreases |held|
  {
    var stack := below + [Bracket] + held;
    if held == [] {
      assert stack == below + [Bracket];
      assert DropLast(stack) == below;
      assert output + Reverse(held) == output;
    } else {
      assert Last(stack) == Last(held);
      assert DropLast(stack) == below + [Bracket] + DropLast(held);
      CloseHeld(below, DropLast(held), output + [Last(held)]);
      assert Reverse(held) == [Last(held)] + Reverse(DropLast(held));
      assert output + Reverse(held) == output + [Last(held)] + Reverse(DropLast(held));
    }
  }

  /** Where a printed tree may stand: followed by nothing or by a
      character that cannot extend its last token. */
  predicate Delimited(rest: string) {
    rest == [] || !IsAlnum(rest[0])
  }

  /** Room on the stack for a tree of level k: the top entry binds less
      tightly. */
  predicate Room(stack: seq<Token>, k: int) {
    stack == [] || Priority(Last(stack)) < k
  }

  /** A printed literal is read as one Number token. */
  lemma ScanNumber(v: int, rest: string, st: Shunt)
    requires 0 <= v <= MaxConst && Delimited(rest)
    ensures Scan(Decimal(v) + rest, st) == Scan(rest, Shunt(st.stack, st.output + [Number(v)]))
  {
    var ds := Decimal(v);
    var s := ds + rest;
    DigitRunEndOf(ds, rest, 0);
    assert s[..|ds|] == ds && s[|ds|..] == rest;
    DecimalValue(v);
    NumberToken(s, st);
  }

  /** A printed variable is read as one Var token. */
  lemma ScanVar(x: string, rest: string, st: Shunt)
    requires Identifier(x) && Delimited(rest)
    ensures Scan(x + rest, st) == Scan(rest, Shunt(st.stack, st.output + [Var(x)]))
  {
    var s := x + rest;
    IdentEndOf(x, rest, 0);
    assert s[..|x|] == x && s[|x|..] == rest;
  }

  /** An operator character between two operands: the held operators of
      the left operand go to the output and the operator is pushed. */
  lemma ScanOperator(op: Op, right: string, below: seq<Token>, held: seq<Token>, output: seq<Token>)
    requires Room(below, Priority(Op2(op)))
    requires forall j :: 0 <= j < |held| ==> Priority(held[j]) >= Priority(Op2(op))
    ensures Scan([OpChar(op)] + right, Shunt(below + held, output)) ==
      Scan(right, Shunt(below + [Op2(op)], output + Reverse(held)))
  {
    var s := [OpChar(op)] + right;
    assert CharOp(OpChar(op)) == op;
    PopHeld(below, held, output, Priority(Op2(op)));
    assert s[1..] == right;
  }

  /** Scanning a printed tree holds back its pending operators and emits
      the rest, whatever stack and output it starts from. */
  lemma {:induction false} ScanShow(t: Node, rest: string, st: Shunt)
    requires Printable(t) && Delimited(rest) && Room(st.stack, Level(t))
    ensures Scan(Show(t) + rest, st) == Scan(rest, Shunt(st.stack + Pending(t), st.output + Emitted(t)))
    decreases t, 1
  {
    match t
    case NumberNode(v) =>
      ScanNumber(v, rest, st);
      assert st.stack + Pending(t) == st.stack;
    case VarNode(x) =>
      ScanVar(x, rest, st);
      assert st.stack + Pending(t) == st.stack;
    case Op2Node(op, l, r) =>
      ScanOp2(op, l, r, rest, st);
  }

  /** The operator case of ScanShow. */
  lemma {:induction false} ScanOp2(op: Op, l: Node, r: Node, rest: string, st: Shunt)
    requires Printable(Op2Node(op, l, r)) && Delimited(rest) && Room(st.stack, Priority(Op2(op)))
    ensures var t := Op2Node(op, l, r);
      Scan(Show(t) + rest, st) == Scan(rest, Shunt(st.stack + Pending(t), st.output + Emitted(t)))
    decreases Op2Node(op, l, r), 0
  {
    var t := Op2Node(op, l, r);
    var p := Level(t);
    var bl, br := Level(l) < p, Level(r) <= p;
    var right := ShowOperand(r, br) + rest;
    var after := [OpChar(op)] + right;
    var held := PendingOperand(l, bl);
    var out1 := st.output + EmittedOperand(l, bl);
    var out2 := st.output + Postfix(l);
    var st2 := Shunt(st.stack + [Op2(op)], out2);
    assert Show(t) + rest == ShowOperand(l, bl) + after;
    assert out1 + Reverse(held) == out2 by {
      if !bl {
        PendingFacts(l);
      }
      assert EmittedOperand(l, bl) + Reverse(held) == Postfix(l);
    }
    assert st2.stack + PendingOperand(r, br) == st.stack + Pending(t);
    assert out2 + EmittedOperand(r, br) == st.output + Emitted(t);
    if !bl {
      PendingFacts(l);
    }
    ScanOperand(l, bl, after, st);
    ScanOperator(op, right, st.stack, held, out1);
    ScanOperand(r, br, rest, st2);
  }

  lemma {:induction false} ScanOperand(t: Node, bracketed: bool, rest: string, st: Shunt)
    requires Printable(t) && Delimited(rest)
    requires !bracketed ==> Room(st.stack, Level(t))
    ensures Scan(ShowOperand(t, bracketed) + rest, st) ==
      Scan(rest, Shunt(st.stack + PendingOperand(t, bracketed), st.output + EmittedOperand(t, bracketed)))
    decreases t, 2
  {
    if !bracketed {
      ScanShow(t, rest, st);
    } else {
      var closing := ")" + rest;
      var s := ShowOperand(t, bracketed) + rest;
      assert s == "(" + (Show(t) + closing);
      var inside := Shunt(st.stack + [Bracket], st.output);
      assert s[1..] == Show(t) + closing;
      assert Step(s, st) == Ok(Advance(1, inside));
      ScanShow(t, closing, inside);
      PendingFacts(t);
      CloseHeld(st.stack, Pending(t), st.output + Emitted(t));
      assert closing[1..] == rest;
      assert st.output + Emitted(t) + Reverse(Pending(t)) == st.output + Postfix(t);
      assert st.stack + PendingOperand(t, bracketed) == st.stack;
    }
  }

  /** Parsing the printed form of a tree gives the tree back. */
  lemma ParseShow(t: Node)
    requires Printable(t)
    ensures Parsed(Show(t)) == t
  {
    ScanShow(t, [], Shunt([], []));
    assert Show(t) + [] == Show(t);
    var st := Shunt(Pending(t), Emitted(t));
    assert [] + Pending(t) == Pending(t) && [] + Emitted(t) == Emitted(t);
    assert Scan(Show(t), Shunt([], [])) == Ok(st);
    PendingFacts(t);
    DrainResult(st);
    assert AllOps(Pending(t));
    BuildPostfix(t);
  }

  // ---------------------------------------------------------------------
  // Every tree the parser builds is printable

  /** A token as the scanner produces it: a literal within the limit or a
      variable named by an identifier. */
  predicate Lexeme(tok: Token) {
    && (tok.Number? ==> 0 <= tok.value <= MaxConst)
    && (tok.Var? ==> Identifier(tok.name))
  }

  predicate Lexemes(toks: seq<Token>) {
    forall j :: 0 <= j < |toks| ==> Lexeme(toks[j])
  }

  predicate LexicalState(st: Shunt) {
    Lexemes(st.stack) && Lexemes(st.output)
  }

  /** Moving the top of the stack to the output keeps every token a lexeme. */
  lemma MoveTop(st: Shunt)
    requires st.stack != [] && LexicalState(st)
    ensures LexicalState(Shunt(DropLast(st.stack), st.output + [Last(st.stack)]))
  {
  }

  lemma {:induction false} CloseBracketLexical(st: Shunt)
    requires LexicalState(st)
    ensures CloseBracket(st).Ok? ==> LexicalState(CloseBracket(st).value)
    decreases |st.stack|
  {
    if st.stack != [] && Last(st.stack) != Bracket {
      MoveTop(st);
      CloseBracketLexical(Shunt(DropLast(st.stack), st.output + [Last(st.stack)]));
    }
  }

  lemma {:induction false} PopWhileLexical(st: Shunt, p: int)
    requires LexicalState(st)
    ensures LexicalState(PopWhile(st, p))
    decreases |st.stack|
  {
    if st.stack != [] && Priority(Last(st.stack)) >= p {
      MoveTop(st);
      PopWhileLexical(Shunt(DropLast(st.stack), st.output + [Last(st.stack)]), p);
    }
  }

  lemma StepLexical(s: string, st: Shunt)
    requires s != [] && LexicalState(st)
    ensures Step(s, st).Ok? ==> LexicalState(Step(s, st).value.next)
  {
    var c := s[0];
    if c == ')' {
      CloseBracketLexical(st);
    } else if IsDigit(c) {
      NumberToken(s, st);
    } else if IsAlpha(c) {
      IdentifierToken(s, st);
    } else if IsOpChar(c) {
      PopWhileLexical(st, Priority(Op2(CharOp(c))));
    }
  }

  lemma {:induction false} ScanLexical(s: string, st: Shunt)
    requires LexicalState(st)
    ensures Scan(s, st).Ok? ==> LexicalState(Scan(s, st).value)
    decreases |s|
  {
    if s != [] {
      StepLexical(s, st);
      match Step(s, st)
      case Fail(_) =>
      case Ok(a) => ScanLexical(s[a.consumed..], a.next);
    }
  }

  lemma {:induction false} DrainLexical(st: Shunt)
    requires LexicalState(st)
    ensures Drain(st).Ok? ==> Lexemes(Drain(st).value)
    decreases |st.stack|
  {
    if st.stack != [] && IsOp2(Last(st.stack)) {
      MoveTop(st);
      DrainLexical(Shunt(DropLast(st.stack), st.output + [Last(st.stack)]));
    }
  }

  /** Built from lexemes, the operand stack holds printable trees only. */
  lemma {:induction false} BuildFromPrintable(nodes: seq<Node>, tokens: seq<Token>)
    requires forall i :: 0 <= i < |nodes| ==> Printable(nodes[i])
    requires Lexemes(tokens)
    ensures BuildFrom(nodes, tokens).Ok? ==>
      forall i :: 0 <= i < |BuildFrom(nodes, tokens).value| ==> Printable(BuildFrom(nodes, tokens).value[i])
    decreases |tokens|
  {
    if tokens != [] {
      var t := tokens[0];
      assert Lexeme(t);
      assert Lexemes(tokens[1..]) by {
        forall j | 0 <= j < |tokens[1..]| ensures Lexeme(tokens[1..][j]) {
          assert tokens[1..][j] == tokens[j + 1];
        }
      }
      if IsOp2(t) {
        if |nodes| >= 2 {
          var next := nodes[..|nodes| - 2] + [Op2Node(t.op, nodes[|nodes| - 2], nodes[|nodes| - 1])];
          assert forall i :: 0 <= i < |next| ==> Printable(next[i]);
          BuildFromPrintable(next, tokens[1..]);
        }
      } else if t.Number? {
        BuildFromPrintable(nodes + [NumberNode(t.value)], tokens[1..]);
      } else if t.Var? {
        BuildFromPrintable(nodes + [VarNode(t.name)], tokens[1..]);
      } else {
        BuildFromPrintable(nodes, tokens[1..]);
      }
    }
  }

  /** Every tree Node::parse returns without error is printable. */
  lemma ParsedPrintable(str: string)
    ensures !Parsed(str).IsError() ==> Printable(Parsed(str))
  {
    var start := Shunt([], []);
    ScanLexical(str, start);
    match Scan(str, start)
    case Fail(_) =>
    case Ok(st) =>
      DrainLexical(st);
      match Drain(st)
      case Fail(_) =>
      case Ok(postfix) =>
        if postfix != [] {
          BuildFromPrintable([], postfix);
        }
  }

  /** The printed form of a parsed line is a normal form: it parses to the
      same tree. */
  lemma ParseNormalForm(str: string)
    requires !Parsed(str).IsError()
    ensures Printable(Parsed(str)) && Parsed(Show(Parsed(str))) == Parsed(str)
  {
    ParsedPrintable(str);
    ParseShow(Parsed(str));
  }
}
