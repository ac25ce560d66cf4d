/** What the scanning and building passes of Node::parse guarantee: the
    lexical rules, the bracket and operator-stack rules, and the postfix
    round trip of the tree builder. */
module ParserFacts {
  import opened Numeric
  import opened Results
  import opened Chars
  import opened Tokens
  import opened Nodes
  import opened Parser

  function Reverse<T>(s: seq<T>): (r: seq<T>)
    ensures |r| == |s|
    ensures forall i :: 0 <= i < |s| ==> r[i] == s[|s| - 1 - i]
  {
    if s == [] then [] else [Last(s)] + Reverse(DropLast(s))
  }

  lemma ReverseAppend<T>(a: seq<T>, b: seq<T>)
    ensures Reverse(a + b) == Reverse(b) + Reverse(a)
  {
  }

  // ---------------------------------------------------------------------
  // Numbers

  predicate AllDigits(ds: string) {
    forall k :: 0 <= k < |ds| ==> IsDigit(ds[k])
  }

  /** The value of a run of decimal digits, read left to right as the
      source does (`num * 10 + digit`). */
  function DigitsValue(ds: string): nat
    requires AllDigits(ds)
  {
    if ds == [] then 0 else DigitsValue(DropLast(ds)) * 10 + DigitValue(Last(ds))
  }

  /** Where the run of digits starting at `len` ends. */
  function DigitRunEnd(s: string, len: nat): (e: nat)
    requires len <= |s|
    ensures len <= e <= |s|
    ensures forall k :: len <= k < e ==> IsDigit(s[k])
    ensures e == |s| || !IsDigit(s[e])
    decreases |s| - len
  {
    if len < |s| && IsDigit(s[len]) then DigitRunEnd(s, len + 1) else len
  }

  /** A longer prefix of a digit run never has a smaller value. */
  lemma {:induction false} DigitsValueGrows(s: string, j: nat, k: nat)
    requires j <= k <= |s| && AllDigits(s[..k])
    ensures AllDigits(s[..j]) && DigitsValue(s[..j]) <= DigitsValue(s[..k])
  {
    if j < k {
      assert DropLast(s[..k]) == s[..k - 1];
      DigitsValueGrows(s, j, k - 1);
    }
  }

  /** The digit loop, from any point of a digit run: it fails exactly when
      the value of the whole run exceeds MaxConst, and otherwise reads the
      whole run and its value. */
  lemma {:induction false} ReadNumberReadsRun(s: string, len: nat, num: nat)
    requires len <= |s| && AllDigits(s[..len]) && num == DigitsValue(s[..len]) <= MaxConst
    ensures AllDigits(s[..DigitRunEnd(s, len)])
    ensures ReadNumber(s, len, num) ==
      if DigitsValue(s[..DigitRunEnd(s, len)]) > MaxConst then Fail("Too big number")
      else Ok(Literal(DigitRunEnd(s, len), DigitsValue(s[..DigitRunEnd(s, len)])))
    decreases |s| - len
  {
    var e := DigitRunEnd(s, len);
    assert AllDigits(s[..e]);
    if len < |s| && IsDigit(s[len]) {
      assert DropLast(s[..len + 1]) == s[..len];
      var next := num * 10 + DigitValue(s[len]);
      assert next == DigitsValue(s[..len + 1]);
      if next > MaxConst {
        DigitsValueGrows(s, len + 1, e);
      } else {
        ReadNumberReadsRun(s, len + 1, next);
      }
    }
  }

  /** A digit starts a number token. It is rejected with "Too big number"
      exactly when the value of the maximal digit run exceeds 65535, which
      is when some prefix of the run does; otherwise the whole run becomes
      one Number token. */
  lemma NumberToken(s: string, st: Shunt)
    requires s != [] && IsDigit(s[0])
    ensures AllDigits(s[..DigitRunEnd(s, 0)])
    ensures var e := DigitRunEnd(s, 0);
      Step(s, st) ==
        if DigitsValue(s[..e]) > MaxConst then Fail("Too big number")
        else Ok(Advance(e, Shunt(st.stack, st.output + [Number(DigitsValue(s[..e]))])))
  {
    ReadNumberReadsRun(s, 0, 0);
  }

  // ---------------------------------------------------------------------
  // Identifiers and other characters

  /** A letter starts a variable token whose name is the maximal run of
      letters and digits from there; nothing else changes. */
  lemma IdentifierToken(s: string, st: Shunt)
    requires s != [] && IsAlpha(s[0])
    ensures Step(s, st).Ok?
    ensures var a := Step(s, st).value; var name := s[..a.consumed];
      && a.next == Shunt(st.stack, st.output + [Var(name)])
      && IsAlpha(name[0])
      && (forall k :: 0 <= k < |name| ==> IsAlnum(name[k]))
      && (a.consumed == |s| || !IsAlnum(s[a.consumed]))
  {
  }

  /** The characters the scanner knows. */
  predicate Known(c: char) {
    c == '(' || c == ')' || IsDigit(c) || IsAlpha(c) || IsOpChar(c) || c == ' '
  }

  /** One pass of the scanner fails exactly in three ways: an unknown
      character, a ')' with no bracket on the stack, or a number over the
      limit. */
  lemma StepFailures(s: string, st: Shunt)
    requires s != []
    ensures Step(s, st) == Fail("Wrong symbol") <==> !Known(s[0])
    ensures Step(s, st) == Fail("Incorrect bracket sequence") <==> s[0] == ')' && Bracket !in st.stack
    ensures AllDigits(s[..DigitRunEnd(s, 0)])
    ensures Step(s, st) == Fail("Too big number") <==>
      IsDigit(s[0]) && DigitsValue(s[..DigitRunEnd(s, 0)]) > MaxConst
    ensures Step(s, st).Fail? ==>
      Step(s, st).message == "Wrong symbol" ||
      Step(s, st).message == "Incorrect bracket sequence" ||
      Step(s, st).message == "Too big number"
  {
    var c := s[0];
    ReadNumberReadsRun(s, 0, 0);
    if c == '(' {
    } else if c == ')' {
      CloseBracketResult(st);
    } else if IsDigit(c) {
    } else if IsAlpha(c) {
    } else if IsOpChar(c) {
    }
  }

  /** The scanning loop fails only with the three messages of a single
      pass. */
  lemma {:induction false} ScanErrors(s: string, st: Shunt)
    ensures Scan(s, st).Fail? ==>
      Scan(s, st).message in {"Wrong symbol", "Incorrect bracket sequence", "Too big number"}
    decreases |s|
  {
    if s != [] {
      StepFailures(s, st);
      match Step(s, st)
      case Fail(_) =>
      case Ok(a) => ScanErrors(s[a.consumed..], a.next);
    }
  }

  /** A space changes nothing. */
  lemma SpaceSkipped(s: string, st: Shunt)
    requires s != [] && s[0] == ' '
    ensures Step(s, st) == Ok(Advance(1, st))
  {
  }

  // ---------------------------------------------------------------------
  // The operator stack

  /** The position of the topmost bracket on the stack, or -1. */
  function TopBracket(stack: seq<Token>): (k: int)
    ensures -1 <= k < |stack|
    ensures k >= 0 ==> stack[k] == Bracket && Bracket !in stack[k + 1..]
    ensures k < 0 <==> Bracket !in stack
  {
    if stack == [] then -1
    else if Last(stack) == Bracket then |stack| - 1
    else
      var k := TopBracket(DropLast(stack));
      assert k >= 0 ==> stack[k + 1..] == DropLast(stack)[k + 1..] + [Last(stack)];
      assert stack == DropLast(stack) + [Last(stack)];
      k
  }

  /** ')' moves the operators above the topmost bracket to the output,
      nearest first, and removes that bracket; with no bracket on the
      stack it is the bracket error. */
  lemma {:induction false} CloseBracketResult(st: Shunt)
    ensures var k := TopBracket(st.stack);
      CloseBracket(st) ==
        if k < 0 then Fail("Incorrect bracket sequence")
        else Ok(Shunt(st.stack[..k], st.output + Reverse(st.stack[k + 1..])))
    decreases |st.stack|
  {
    if st.stack != [] && Last(st.stack) != Bracket {
      var rest := DropLast(st.stack);
      CloseBracketResult(Shunt(rest, st.output + [Last(st.stack)]));
      var k := TopBracket(st.stack);
      assert k == TopBracket(rest);
      if k >= 0 {
        var above := st.stack[k + 1..];
        assert rest[k + 1..] == DropLast(above);
        assert Last(above) == Last(st.stack);
        assert rest[..k] == st.stack[..k];
        assert Reverse(above) == [Last(st.stack)] + Reverse(rest[k + 1..]);
        assert st.output + Reverse(above) == (st.output + [Last(st.stack)]) + Reverse(rest[k + 1..]);
      }
    } else if st.stack != [] {
      var k := |st.stack| - 1;
      assert st.stack[k + 1..] == [];
      assert Reverse(st.stack[k + 1..]) == [];
      assert st.output + Reverse(st.stack[k + 1..]) == st.output;
      assert st.stack[..k] == DropLast(st.stack);
    }
  }

  /** An incoming operator of priority p pops a top segment of the stack,
      every entry of which has priority at least p, onto the output (top
      first), and stops at an entry of lower priority or at the bottom.
      Entries of equal priority are popped (left association). Since every
      operator has priority above zero, a bracket is never popped. */
  lemma {:induction false} PopWhileResult(st: Shunt, p: int)
    ensures var r := PopWhile(st, p); var k := |r.stack|;
      && k <= |st.stack|
      && r.stack == st.stack[..k]
      && r.output == st.output + Reverse(st.stack[k..])
      && (forall j :: k <= j < |st.stack| ==> Priority(st.stack[j]) >= p)
      && (k == 0 || Priority(st.stack[k - 1]) < p)
    decreases |st.stack|
  {
    if st.stack != [] && Priority(Last(st.stack)) >= p {
      var rest := DropLast(st.stack);
      var out := st.output + [Last(st.stack)];
      PopWhileResult(Shunt(rest, out), p);
      PopStep(st, p, |PopWhile(st, p).stack|);
    } else {
      var k := |st.stack|;
      assert st.stack[k..] == [];
      assert st.output + Reverse(st.stack[k..]) == st.output;
    }
  }

  /** One pop of PopWhileResult: what holds after the rest of the stack
      holds for the whole stack. */
  lemma PopStep(st: Shunt, p: int, k: nat)
    requires st.stack != [] && Priority(Last(st.stack)) >= p
    requires k <= |DropLast(st.stack)|
    requires DropLast(st.stack)[..k] == PopWhile(st, p).stack
    requires forall j :: k <= j < |DropLast(st.stack)| ==> Priority(DropLast(st.stack)[j]) >= p
    requires PopWhile(st, p).output == st.output + [Last(st.stack)] + Reverse(DropLast(st.stack)[k..])
    ensures st.stack[..k] == PopWhile(st, p).stack
    ensures forall j :: k <= j < |st.stack| ==> Priority(st.stack[j]) >= p
    ensures PopWhile(st, p).output == st.output + Reverse(st.stack[k..])
  {
    var rest := DropLast(st.stack);
    assert rest[..k] == st.stack[..k];
    var popped := st.stack[k..];
    assert DropLast(popped) == rest[k..];
    assert Reverse(popped) == [Last(st.stack)] + Reverse(rest[k..]);
    forall j | k <= j < |st.stack| ensures Priority(st.stack[j]) >= p {
      if j < |rest| {
        assert st.stack[j] == rest[j];
      }
    }
  }

  /** Since every operator has priority above zero, making room for an
      operator never pops a bracket. */
  lemma PopWhileKeepsBrackets(st: Shunt, p: int)
    requires p > 0
    ensures var k := |PopWhile(st, p).stack|; k <= |st.stack| && Bracket !in st.stack[k..]
  {
    PopWhileResult(st, p);
  }

  predicate AllOps(stack: seq<Token>) {
    forall j :: 0 <= j < |stack| ==> IsOp2(stack[j])
  }

  /** The final loop: the remaining stack goes to the output top first,
      unless some entry of it is not an operator (an unclosed bracket). */
  lemma {:induction false} DrainResult(st: Shunt)
    ensures Drain(st) ==
      if AllOps(st.stack) then Ok(st.output + Reverse(st.stack)) else Fail("Invalid expression")
    decreases |st.stack|
  {
    if st.stack == [] {
      assert Reverse(st.stack) == [];
      assert st.output + Reverse(st.stack) == st.output;
    } else {
      var top := Last(st.stack);
      var rest := DropLast(st.stack);
      if !IsOp2(top) {
        assert !AllOps(st.stack);
      } else {
        var out := st.output + [top];
        DrainResult(Shunt(rest, out));
        assert AllOps(st.stack) <==> AllOps(rest) by {
          if AllOps(rest) {
            forall j | 0 <= j < |st.stack| ensures IsOp2(st.stack[j]) {
              if j < |rest| { assert st.stack[j] == rest[j]; }
            }
          }
          if AllOps(st.stack) {
            forall j | 0 <= j < |rest| ensures IsOp2(rest[j]) {
              assert st.stack[j] == rest[j];
            }
          }
        }
        assert Reverse(st.stack) == [top] + Reverse(rest);
        assert st.output + Reverse(st.stack) == out + Reverse(rest);
      }
    }
  }

  // ---------------------------------------------------------------------
  // What the scanner keeps on the stack and emits

  predicate StackShape(stack: seq<Token>) {
    forall j :: 0 <= j < |stack| ==> stack[j] == Bracket || IsOp2(stack[j])
  }

  /** Postfix tokens: numbers, variables and operators. */
  predicate OutputShape(output: seq<Token>) {
    forall j :: 0 <= j < |output| ==> output[j].Number? || output[j].Var? || IsOp2(output[j])
  }

  predicate WellShaped(st: Shunt) {
    StackShape(st.stack) && OutputShape(st.output)
  }

  /** Closing a bracket moves only operators to the output. */
  lemma {:induction false} CloseBracketKeepsShape(st: Shunt)
    requires WellShaped(st)
    ensures CloseBracket(st).Ok? ==> WellShaped(CloseBracket(st).value)
    decreases |st.stack|
  {
    if st.stack != [] && Last(st.stack) != Bracket {
      var next := Shunt(DropLast(st.stack), st.output + [Last(st.stack)]);
      assert IsOp2(Last(st.stack));
      assert WellShaped(next);
      CloseBracketKeepsShape(next);
    }
  }

  /** Making room for an operator moves only operators to the output. */
  lemma {:induction false} PopWhileKeepsShape(st: Shunt, p: int)
    requires WellShaped(st) && p > 0
    ensures WellShaped(PopWhile(st, p))
    decreases |st.stack|
  {
    if st.stack != [] && Priority(Last(st.stack)) >= p {
      var next := Shunt(DropLast(st.stack), st.output + [Last(st.stack)]);
      assert IsOp2(Last(st.stack));
      assert WellShaped(next);
      PopWhileKeepsShape(next, p);
    }
  }

  lemma StepKeepsShape(s: string, st: Shunt)
    requires s != [] && WellShaped(st)
    ensures Step(s, st).Ok? ==> WellShaped(Step(s, st).value.next)
  {
    var c := s[0];
    if c == '(' {
      assert Step(s, st).value.next.stack == st.stack + [Bracket];
    } else if c == ')' {
      CloseBracketKeepsShape(st);
    } else if IsDigit(c) {
    } else if IsAlpha(c) {
    } else if IsOpChar(c) {
      PopWhileKeepsShape(st, Priority(Op2(CharOp(c))));
    }
  }

  /** The stack only ever holds brackets and operators, and the output only
      numbers, variables and operators. */
  lemma {:induction false} ScanKeepsShape(s: string, st: Shunt)
    requires WellShaped(st)
    ensures Scan(s, st).Ok? ==> WellShaped(Scan(s, st).value)
    decreases |s|
  {
    if s != [] {
      StepKeepsShape(s, st);
      match Step(s, st)
      case Fail(_) =>
      case Ok(a) => ScanKeepsShape(s[a.consumed..], a.next);
    }
  }

  /** After a successful scan, the final loop reports "Invalid expression"
      exactly when a bracket is left open on the stack, and otherwise emits
      the remaining operators top first. */
  lemma UnclosedBracket(str: string)
    requires Scan(str, Shunt([], [])).Ok?
    ensures var st := Scan(str, Shunt([], [])).value;
      && OutputShape(st.output)
      && Drain(st) == if Bracket in st.stack then Fail("Invalid expression") else Ok(st.output + Reverse(st.stack))
  {
    ScanKeepsShape(str, Shunt([], []));
    var st := Scan(str, Shunt([], [])).value;
    DrainResult(st);
    if Bracket in st.stack {
      var j :| 0 <= j < |st.stack| && st.stack[j] == Bracket;
      assert !IsOp2(st.stack[j]);
    } else {
      assert AllOps(st.stack);
    }
  }
}
