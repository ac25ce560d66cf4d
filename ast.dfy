/** The AST holder of node.cpp: a mutable reference to the current root,
    which starts as the error "Empty" and is replaced by parsing or by
    swapping with another holder. */
module Ast {
  import opened Results
  import opened Contexts
  import opened Nodes
  import opened Parser
  import opened ParserFacts
  import opened BuildFacts
  import opened Printing
  import opened Semantics

  /** Every error text a holder can carry: the initial one and those of
      Node::parse. None of them is "No errors". */
  const HolderMessages: set<string> := {
    "Empty", "Wrong symbol", "Incorrect bracket sequence", "Too big number",
    "Invalid expression", "Empty expression", "Wrong expression"
  }

  /** Node::parse fails only with its own six messages, and what it returns
      otherwise is a printable tree. */
  lemma ParsedMessages(str: string)
    ensures Parsed(str).IsError() ==> Parsed(str).message in HolderMessages - {"Empty"}
    ensures !Parsed(str).IsError() ==> Printable(Parsed(str))
  {
    var start := Shunt([], []);
    ScanErrors(str, start);
    ParsedPrintable(str);
    match Scan(str, start)
    case Fail(_) =>
    case Ok(st) =>
      UnclosedBracket(str);
      match Drain(st)
      case Fail(_) =>
      case Ok(postfix) => BuildErrors(postfix);
  }

  class AST {
    var root: Node

    /** The holder's invariant: its root is the initial error, a parse
        error, or a printable tree. */
    predicate Valid()
      reads this
    {
      if root.IsError() then root.message in HolderMessages else Printable(root)
    }

    /** AST(): a fresh holder is in error with the message "Empty". */
    constructor ()
      ensures Valid() && root == ErrorNode("Empty")
      ensures IsError() && ErrorMessage() == "Empty"
    {
      root := ErrorNode("Empty");
    }

    /** AST::error: whether the root is an error node. */
    predicate IsError()
      reads this
    {
      root.IsError()
    }

    /** AST::errorMessage: the root's message, or "No errors" for a tree
        that is not in error. For a valid holder the two cases never give
        the same text. */
    function ErrorMessage(): (m: string)
      reads this
      ensures IsError() ==> m == root.message
      ensures Valid() ==> (IsError() <==> m != "No errors")
    {
      if IsError() then root.message else "No errors"
    }

    /** AST::calculate: the root evaluated in the context. A holder in
        error yields its own error message; otherwise evaluation succeeds
        exactly on representable trees and gives the exact value. The
        context is only read. */
    function Calculate(ctx: Context): (r: Result)
      reads this, ctx
      ensures IsError() ==> r.IsError() && r.message == ErrorMessage()
      ensures !r.IsError() <==> Representable(root, ctx)
      ensures !r.IsError() ==> Exact(root, ctx) == Some(r.number)
    {
      CalculateExact(root, ctx);
      Nodes.Calculate(root, ctx)
    }

    /** AST::parse: the root becomes what Node::parse returns for the
        line, and the holder stays valid. */
    method Parse(str: string)
      modifies this
      ensures root == Parsed(str)
      ensures Valid()
      ensures !IsError() ==> Parsed(Show(root)) == root
    {
      root := Parser.Parse(str);
      ParsedMessages(str);
      if !root.IsError() {
        ParseShow(root);
      }
    }

    /** AST::swap: the two holders exchange roots, so each one's error
        state and evaluation are now the other's. Swapping with itself
        changes nothing. */
    method Swap(other: AST)
      modifies this, other
      ensures root == old(other.root) && other.root == old(root)
      ensures old(Valid()) && old(other.Valid()) ==> Valid() && other.Valid()
      ensures IsError() == old(other.IsError()) && ErrorMessage() == old(other.ErrorMessage())
    {
      var mine := root;
      root := other.root;
      other.root := mine;
    }
  }
}
