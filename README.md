# kofax expression engine in Dafny

This project models the expression engine of the kofax calculator (`kofax/node.cpp`, `kofax/node.h`):

- **Scanning.** `Node::parse` reads one line of infix integer arithmetic. It has a digit loop (literals capped at 65535), an identifier loop, and a shunting-yard operator stack ordered by token priority. It emits the tokens in postfix order.
- **Building.** A second pass builds a tree from the postfix tokens with an operand stack. Every failure becomes an error node carrying one fixed message.
- **Evaluation.** `calculate` evaluates a tree against a variable store (`Context`). It uses signed 64-bit arithmetic with an overflow check per operator.
- **Holder.** The `AST` class keeps the current root.

Modules, one per component, in dependency order:

| module | file | what it holds |
|---|---|---|
| `Numeric` | numeric.dfy | 64-bit bounds and C++ division (truncating toward zero) |
| `Results` | results.dfy | `Result`: a number or a non-empty message |
| `Chars` | chars.dfy | `isdigit` / `isalpha` / `isalnum` in the ASCII locale |
| `Tokens` | tokens.dfy | `Token`, `Token::priority`, `Token::isOp2` |
| `Contexts` | context.dfy | `class Context`: the variable map with get / in / set |
| `Nodes` | nodes.dfy | the `Node` variants, each operator's `func`, `Node::calculate` |
| `Parser` | parser.dfy | `Node::parse` |
| `ParserFacts` | parser_facts.dfy | lexical, bracket, operator-stack and drain rules of the scan |
| `BuildFacts` | build_facts.dfy | the tree builder inverts postfix order |
| `Printing` | printing.dfy | a minimal-bracket printer; parsing its output gives the tree back |
| `Semantics` | semantics.dfy | evaluation compared with exact integer arithmetic |
| `Ast` | ast.dfy | `class AST` |
| `Examples` | examples.dfy | concrete lines and what the model makes of them |

**How `Node::parse` is modelled.** It is modelled twice.

- As functions, one per loop of the source: `Step`, `Scan`, `CloseBracket`, `PopWhile`, `ReadNumber`, `IdentEnd`, `Drain`, `BuildFrom`, `Build`, `Parsed`.
- As the imperative method `Parser.Parse`. It keeps the source's loops, index arithmetic and vectors (as `seq` variables pushed and popped). Every loop is a method whose invariant ties it to the matching function, and `Parse` is proved to return `Parsed(str)`.

**The main results:**

- `Printing.ParseShow`: printing a tree with the fewest brackets that precedence and left association need, then parsing the text, gives the same tree. So `*` and `/` bind tighter than `+` and `-`, and equal priorities group to the left.
- `BuildFacts.BuildPostfix` and `BuildFacts.BuildInverse`: the building pass succeeds exactly on postfix forms of trees, and it returns that tree.
- `Semantics.CalculateExact`: evaluation succeeds exactly when every intermediate value exists and fits in 64 bits (plus the subtraction rule below). It then returns the exact value.

**Behaviour of the code worth knowing:**

- `Token::priority` gives a Number token -1 and a Var token 0 (`kofax/node.cpp:28-44`). Neither kind is ever pushed on the operator stack, so the difference is not observable.
- `"(1+2"` fails with "Invalid expression" from the final loop (`kofax/node.cpp:162-165`), not with the bracket-sequence error. See `Examples.UnclosedBracketLine`.
- There is no unary minus: `-7/2` gives "Wrong expression", because the `-` finds only one operand when the tree is built (`Examples.UnaryMinus`).
- `(0-7)/2` evaluates to -3, because division truncates toward zero (`Examples.CalculateNegativeQuotient`; the operator fact alone is `Semantics.DivTruncates`).
- `SubNode::func` rejects a right operand of -2^63 even when the difference fits: `-1 - (-2^63)` is 2^63 - 1, yet it is "Overflow". The model keeps this behaviour (`Semantics.SubRejectsLeast`).

## Model

| member | source | states |
|---|---|---|
| Numeric.TruncDiv | kofax/node.h:206-211 | the C++ quotient: \|q\|·\|b\| ≤ \|a\| < (\|q\|+1)·\|b\|, and q is negative exactly when the operands' signs differ (unless q is 0) |
| Numeric.TruncDivProduct | kofax/node.h:194-199 | dividing a product by a non-zero left factor gives back the right factor, the identity the multiplication check relies on |
| Numeric.QuotientFits | kofax/node.h:206-211 | a quotient of two 64-bit values fits in 64 bits exactly unless it is -2^63 / -1 |
| Results.Result.IsError | kofax/node.cpp:57-63 | a result is an error exactly when its text is non-empty; a numeric result carries the empty text, so it is never an error |
| Tokens.Priority | kofax/node.cpp:28-44 | exactly the four operators have positive priority; Add/Sub have 1 and Mul/Div have 2; a bracket's priority is below every operator's |
| Tokens.CharOp | kofax/node.cpp:138-151 | the operator read from `+ - * /` is the one spelled by that character |
| Contexts.Context.constructor | kofax/node.h:44-51 | a new store has no variables |
| Contexts.Context.Get | kofax/node.cpp:76-83 | fails exactly when the name is absent, with "Unknown variable " followed by the name; otherwise returns the stored value |
| Contexts.Context.Set | kofax/node.cpp:89-96 | afterwards the name is present and reads back as the new value; every other name reads as before; the map is the old map updated at that name |
| Nodes.CheckedAdd | kofax/node.h:167-173 | "Overflow" exactly when the mathematical sum is outside [-2^63, 2^63-1], else the sum; the body keeps the source's sign-aware test |
| Nodes.CheckedSub | kofax/node.h:180-187 | "Overflow" when the right operand is -2^63, else exactly when the mathematical difference is out of range; otherwise the difference |
| Nodes.CheckedMul | kofax/node.h:194-199 | "Overflow" exactly when the mathematical product is out of range, so a zero left operand gives 0; a successful product divided by a non-zero left operand gives the right operand |
| Nodes.CheckedDiv | kofax/node.h:206-211 | "Division by zero" for a zero divisor; otherwise the quotient truncated toward zero, or "Overflow" when it has no 64-bit value (see Findings) |
| Parser.ReadNumber | kofax/node.cpp:117-129 | a successful digit loop ends inside the line at the end of the digit run |
| Parser.IdentEnd | kofax/node.cpp:130-137 | the identifier loop stops at the end of the maximal run of letters and digits |
| Parser.Step | kofax/node.cpp:103-160 | every successful pass of the scanning loop consumes at least one character and no more than remain |
| Parser.ReadDigits | kofax/node.cpp:118-127 | the source's digit loop computes ReadNumber on the rest of the line |
| Parser.ReadIdentifier | kofax/node.cpp:131-134 | the source's identifier loop computes IdentEnd on the rest of the line |
| Parser.PopToBracket | kofax/node.cpp:108-115 | the ')' loop computes CloseBracket on the stack and output |
| Parser.PopOperators | kofax/node.cpp:152-155 | the operator loop computes PopWhile for the incoming priority |
| Parser.ScanLine | kofax/node.cpp:102-161 | the scanning loop, with its `i += len - 1` index updates, computes Scan of the whole line |
| Parser.DrainStack | kofax/node.cpp:162-169 | the final loop computes Drain |
| Parser.BuildTree | kofax/node.cpp:172-211 | the building loop and its checks compute Build of the postfix tokens |
| Parser.Parse | kofax/node.cpp:98-212 | Node::parse returns Parsed(str) |
| ParserFacts.ReadNumberReadsRun | kofax/node.cpp:117-129 | from any point in a digit run, the digit loop fails with "Too big number" exactly when the value of the whole run exceeds 65535; otherwise it reads the whole run and its value |
| ParserFacts.NumberToken | kofax/node.cpp:117-129 | a digit starts one Number token: "Too big number" exactly when the maximal run's value exceeds MAXCONST (65535, line 99); otherwise that value, with the stack unchanged |
| ParserFacts.IdentifierToken | kofax/node.cpp:130-137 | a letter starts one Var token; its name begins with a letter and is the maximal alphanumeric run; only the output changes |
| ParserFacts.StepFailures | kofax/node.cpp:103-160 | one pass fails in exactly three ways: "Wrong symbol" iff the character is none of the known classes; "Incorrect bracket sequence" iff it is ')' with no bracket on the stack; "Too big number" iff it starts an over-limit run |
| ParserFacts.ScanErrors | kofax/node.cpp:103-161 | the scanning loop fails only with those three messages |
| ParserFacts.SpaceSkipped | kofax/node.cpp:158-160 | a space consumes one character and changes nothing |
| ParserFacts.CloseBracketResult | kofax/node.cpp:107-116 | ')' moves the entries above the topmost bracket to the output, nearest first, and drops that bracket; with no bracket on the stack it is the bracket error |
| ParserFacts.PopWhileResult | kofax/node.cpp:152-156 | an incoming operator pops the maximal top segment whose priorities are ≥ its own, onto the output top first; the entry below it, if any, has lower priority |
| ParserFacts.PopWhileKeepsBrackets | kofax/node.cpp:152-156 | an operator never pops a bracket |
| ParserFacts.DrainResult | kofax/node.cpp:162-169 | the final loop appends the stack top first when it holds only operators, and otherwise fails with "Invalid expression" |
| ParserFacts.ScanKeepsShape | kofax/node.cpp:103-161 | the stack only ever holds brackets and operators; the output only holds numbers, variables and operators |
| ParserFacts.UnclosedBracket | kofax/node.cpp:162-165 | after a successful scan, the final loop fails exactly when a '(' is still open, with "Invalid expression" rather than the bracket error |
| BuildFacts.BuildFromPostfix | kofax/node.cpp:176-207 | the building loop consumes a tree's postfix form by pushing exactly that tree, whatever is below and whatever follows; the earlier operand becomes the left child |
| BuildFacts.BuildPostfix | kofax/node.cpp:171-211 | building the postfix form of an error-free tree gives that tree back |
| BuildFacts.BuildFromFlatten | kofax/node.cpp:176-207 | every operand stack the loop reaches holds error-free trees, whose postfix forms concatenate to the tokens consumed |
| BuildFacts.BuildInverse | kofax/node.cpp:171-211 | when building yields a tree, that tree is error-free and its postfix form is the input; with BuildPostfix, a token sequence builds exactly when it is some tree's postfix form |
| BuildFacts.BuildFromErrors | kofax/node.cpp:176-207 | the building loop fails only with "Wrong expression" |
| BuildFacts.BuildFromKeepsNoErrors | kofax/node.cpp:176-207 | the building loop never puts an error node on its stack |
| BuildFacts.BuildErrors | kofax/node.cpp:171-211 | a built tree is "Empty expression" exactly for empty input, "Wrong expression" for any other failure, and otherwise contains no error node |
| Printing.PopHeld | kofax/node.cpp:152-156 | the operator loop pops exactly the held operators binding at least as tightly as the incoming one, when the entry below them binds less tightly |
| Printing.CloseHeld | kofax/node.cpp:107-116 | ')' pops exactly the operators above the bracket and the bracket |
| Printing.ScanShow | kofax/node.cpp:103-161 | scanning a printed tree, from any stack whose top binds less tightly, holds its right-spine operators on the stack and emits the rest of its postfix form |
| Printing.ParseShow | kofax/node.cpp:98-212 | parsing the minimal-bracket text of any printable tree gives that tree: precedence, left association and brackets are respected |
| Printing.ParsedPrintable | kofax/node.cpp:98-212 | every tree Node::parse returns without error has literals ≤ 65535, identifier names and no error node |
| Printing.ParseNormalForm | kofax/node.cpp:98-212 | for every line that parses, printing the tree and parsing again gives the same tree |
| Semantics.CalculateExact | kofax/node.h:148-158 | evaluation succeeds exactly when every subtree has an exact value that fits in 64 bits, with no unknown variable, no zero divisor and no subtraction of -2^63; it then returns the exact value |
| Semantics.CalculateErrors | kofax/node.h:94-211 | an evaluation error is the tree's own error text, "Overflow", "Division by zero", or "Unknown variable x" for a variable x of the tree that the context lacks |
| Semantics.CalculateReadsVars | kofax/node.h:117-158 | evaluation reads the context only at the tree's variables |
| Semantics.Leaves | kofax/node.h:102-130 | a number evaluates to itself; a variable evaluates to the context's get; an error node evaluates to its message; only the error node is in error |
| Semantics.LeftErrorFirst | kofax/node.h:148-152 | a left operand's error is the result, whatever the right operand is |
| Semantics.RightErrorSecond | kofax/node.h:153-156 | otherwise a right operand's error is the result, whatever the operator is |
| Semantics.SubRejectsLeast | kofax/node.h:180-187 | subtracting -2^63 fails even where the difference fits |
| Semantics.DivTruncates | kofax/node.h:206-211 | 7/2 is 3, -7/2 and 7/-2 are -3, and division by 0 is an error |
| Semantics.DivAsWritten | kofax/node.h:206-211 | the source's quotient `l / r`, with no range test, is never larger in magnitude than `l` |
| Semantics.DivAsWrittenOverflows | kofax/node.h:210 | the as-written quotient of -2^63 by -1 is 2^63 and is the only one without a 64-bit value; CheckedDiv agrees with it everywhere else |
| Ast.ParsedMessages | kofax/node.cpp:98-212 | Node::parse fails only with its six messages, and otherwise returns a printable tree |
| Ast.AST.constructor | kofax/node.cpp:215-217 | a new holder is valid and in error with the message "Empty" |
| Ast.AST.ErrorMessage | kofax/node.cpp:240-247 | the root's message when in error, else "No errors"; for a valid holder the two cases never give the same text |
| Ast.AST.Calculate | kofax/node.cpp:232-234 | a holder in error yields its own message; otherwise it succeeds exactly on representable trees, with the exact value |
| Ast.AST.Parse | kofax/node.cpp:227-230 | the root becomes Parsed(str); the holder stays valid; a successful root reparses from its printed form |
| Ast.AST.Swap | kofax/node.cpp:223-225 | the two roots are exchanged, and with them error state and message; validity is kept |
| Examples.EmptyLines | kofax/node.cpp:173-175 | "", " " and "()" give "Empty expression" |
| Examples.UnclosedBracketLine | kofax/node.cpp:162-165 | "(1+2" gives "Invalid expression" |
| Examples.UnopenedBracketLine | kofax/node.cpp:107-114 | "1+2)" gives "Incorrect bracket sequence" |
| Examples.TwoOperands | kofax/node.cpp:208-210 | "1 2" gives "Wrong expression" |
| Examples.MissingOperand | kofax/node.cpp:177-183 | "1+" gives "Wrong expression" |
| Examples.UnknownCharacter | kofax/node.cpp:158-160 | "a#" gives "Wrong symbol" |
| Examples.LiteralLimit | kofax/node.cpp:117-129 | "65535" is a number and "65536" is "Too big number" |
| Examples.LeftAssociation | kofax/node.cpp:152-156 | "1-2-3" groups as (1-2)-3, and "1-(2-3)" keeps its brackets |
| Examples.Precedence | kofax/node.cpp:152-156 | "1+2*3" groups as 1+(2*3), and "(1+2)*3" keeps its brackets |
| Examples.Variables | kofax/node.cpp:76-83 | with x = 5, x+1 is 6, and y+z fails naming y |
| Examples.Arithmetic | kofax/node.h:164-211 | 7/2 = 3; 7/0 is "Division by zero"; MAX+1 and MIN-1 are "Overflow"; 0·MAX = 0 |
| Examples.UnaryMinus | kofax/node.cpp:138-183 | "-7/2" scans to 7 2 / - and the building pass gives "Wrong expression", as '-' is binary only |
| Examples.ParseNegativeQuotient | kofax/node.cpp:98-212 | "(0-7)/2" parses to (0-7)/2 with the difference as left operand |
| Examples.CalculateNegativeQuotient | kofax/node.h:206-211 | (0-7)/2 evaluates to -3: the quotient truncates toward zero |
| Examples.ParseLeastOverMinusOne | kofax/node.cpp:98-212 | the line "(0-32768)*32768*32768*32768*8/(0-1)" parses to the expected tree |
| Examples.CalculateLeastOverMinusOne | kofax/node.h:206-211 | that tree's left operand is -2^63, and the corrected division reports "Overflow" |

## Left out

- `kofax/kofax.cpp`, the console loop, is not part of this model. It reads lines, prints messages and validates `name = expr` assignments, which is I/O.
- `operator<<` for `Result` (`kofax/node.cpp:65-73`) only formats output.
- Memory is not modelled: the union payloads, placement new, explicit destructors, the `Token` copy constructor, and the `delete` of children and of partial operand stacks. Tokens and nodes are datatypes, which own their children by construction.
- The `Error` token variant is declared but `Node::parse` never creates one. The model declares it and gives it priority -1, as the source does.
- `Result("")` is not modelled. It would be a message result that is not an error. Messages are non-empty by type, and every message the source builds is non-empty.
- Nodes.CheckedMul: does not model the C++ test `l * r / l != r`. That test relies on signed overflow, which is undefined in C++. The model states the intended meaning instead: "Overflow" exactly when the product is out of range.
- Character classes are the ASCII ("C" locale) ones. Locale-dependent `isdigit`/`isalpha`/`isalnum` and negative `char` values are not modelled.
- `Contexts.Context.In` and `Ast.AST.IsError` are plain predicates with no contract of their own. Their meaning is stated by `Context.Get` and `AST.ErrorMessage`.
- `Nodes.Calculate`, `Nodes.Func`, `Nodes.Node.IsError` and `Tokens.IsOp2` are definitions with no contract of their own; lemmas and neighbouring contracts state what they mean:
  - `Nodes.Calculate` (`kofax/node.h:102-104`, `117-119`, `128-130`, `148-158`) by `Semantics.CalculateExact` (the exact value when every step fits), `Semantics.CalculateErrors` and `Semantics.CalculateReadsVars` (which failures it can report and which variables it reads), and `Semantics.LeftErrorFirst` / `Semantics.RightErrorSecond` (the order in which errors win).
  - `Nodes.Func` (`kofax/node.h:160`) by the contracts of `Nodes.CheckedAdd`, `Nodes.CheckedSub`, `Nodes.CheckedMul` and `Nodes.CheckedDiv`, which it dispatches to, and through them by `Semantics.CalculateExact`.
  - `Nodes.Node.IsError` (`kofax/node.h:89-91`, `105-107`) by `Semantics.Leaves` and by `Results.Result.IsError`'s contract on the calculated result.
  - `Tokens.IsOp2` (`kofax/node.cpp:46-48`) by `Tokens.Priority`'s contract (`IsOp2(t)` exactly when the priority is positive) and by `ParserFacts.DrainResult`.

## Findings

| source | as written | input that shows it | evidently intended | confidence | as-written member | corrected member |
|---|---|---|---|---|---|---|
| kofax/node.h:206-211 | `DivNode::func` returns `l / r` for every non-zero `r`. -2^63 / -1 has no 64-bit value, which is undefined behaviour in C++ (a trap on x86-64). | the line `(0-32768)*32768*32768*32768*8/(0-1)`, whose left operand evaluates to -2^63 | the range check of the other three operators: "Overflow" when the quotient does not fit | not executed | Semantics.DivAsWrittenOverflows | Nodes.CheckedDiv |
