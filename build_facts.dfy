/** The tree-building pass of Node::parse inverts the postfix order of a
    tree: building the postfix form of an error-free tree gives that tree
    back, and every tree the pass builds has the postfix sequence it was
    built from. */
module BuildFacts {
  import opened Tokens
  import opened Nodes
  import opened Parser

  /** A tree with no error node in it: what a successful parse produces. */
  predicate NoErrors(t: Node) {
    match t
    case ErrorNode(_) => false
    case NumberNode(_) => true
    case VarNode(_) => true
    case Op2Node(_, l, r) => NoErrors(l) && NoErrors(r)
  }

  /** The postfix (reverse Polish) token sequence of a tree: operands
      first, left before right, then the operator. */
  function Postfix(t: Node): (p: seq<Token>)
    requires NoErrors(t)
    ensures p != []
  {
    match t
    case NumberNode(v) => [Number(v)]
    case VarNode(x) => [Var(x)]
    case Op2Node(op, l, r) => Postfix(l) + Postfix(r) + [Op2(op)]
  }

  /** The postfix sequences of a stack of trees, bottom first. */
  function Flatten(nodes: seq<Node>): seq<Token>
    requires forall i :: 0 <= i < |nodes| ==> NoErrors(nodes[i])
  {
    if nodes == [] then [] else Flatten(DropLast(nodes)) + Postfix(Last(nodes))
  }

  /** Tokens the building pass gives meaning to. */
  predicate PostfixTokens(tokens: seq<Token>) {
    forall j :: 0 <= j < |tokens| ==> tokens[j].Number? || tokens[j].Var? || IsOp2(tokens[j])
  }

  /** The building pass consumes the postfix form of a tree by pushing
      exactly that tree, whatever lies below it and whatever follows. */
  lemma {:induction false} BuildFromPostfix(nodes: seq<Node>, t: Node, rest: seq<Token>)
    requires NoErrors(t)
    ensures BuildFrom(nodes, Postfix(t) + rest) == BuildFrom(nodes + [t], rest)
    decreases t
  {
    match t
    case NumberNode(v) =>
      assert ([Number(v)] + rest)[1..] == rest;
    case VarNode(x) =>
      assert ([Var(x)] + rest)[1..] == rest;
    case Op2Node(op, l, r) =>
      var tail := [Op2(op)] + rest;
      assert Postfix(t) + rest == Postfix(l) + (Postfix(r) + tail);
      BuildFromPostfix(nodes, l, Postfix(r) + tail);
      BuildFromPostfix(nodes + [l], r, tail);
      var both := nodes + [l] + [r];
      assert both[..|both| - 2] == nodes;
      assert tail[1..] == rest;
  }

  /** Round trip: the tree built from the postfix form of an error-free
      tree is that tree. */
  lemma BuildPostfix(t: Node)
    requires NoErrors(t)
    ensures Build(Postfix(t)) == t
  {
    BuildFromPostfix([], t, []);
    assert Postfix(t) + [] == Postfix(t);
    assert BuildFrom([t], []) == Ok([t]);
  }

  lemma FlattenPush(nodes: seq<Node>, t: Node)
    requires forall i :: 0 <= i < |nodes| ==> NoErrors(nodes[i])
    requires NoErrors(t)
    ensures Flatten(nodes + [t]) == Flatten(nodes) + Postfix(t)
  {
    assert DropLast(nodes + [t]) == nodes;
  }

  /** Every stack the building pass reaches from error-free trees holds
      error-free trees, and its postfix form is the postfix form of the
      stack it started from followed by the tokens it consumed. */
  lemma {:induction false} BuildFromFlatten(nodes: seq<Node>, tokens: seq<Token>)
    requires forall i :: 0 <= i < |nodes| ==> NoErrors(nodes[i])
    requires PostfixTokens(tokens)
    ensures BuildFrom(nodes, tokens).Ok? ==>
      var res := BuildFrom(nodes, tokens).value;
      && (forall i :: 0 <= i < |res| ==> NoErrors(res[i]))
      && Flatten(res) == Flatten(nodes) + tokens
    decreases |tokens|
  {
    if tokens != [] {
      var t := tokens[0];
      var tail := tokens[1..];
      assert tokens == [t] + tail;
      assert PostfixTokens(tail) by {
        forall j | 0 <= j < |tail| ensures tail[j].Number? || tail[j].Var? || IsOp2(tail[j]) {
          assert tail[j] == tokens[j + 1];
        }
      }
      if IsOp2(t) {
        if |nodes| >= 2 {
          var pre := nodes[..|nodes| - 2];
          var l, r := nodes[|nodes| - 2], nodes[|nodes| - 1];
          var n := Op2Node(t.op, l, r);
          var next := pre + [n];
          assert nodes == pre + [l] + [r];
          FlattenPush(pre, l);
          FlattenPush(pre + [l], r);
          FlattenPush(pre, n);
          BuildFromFlatten(next, tail);
        }
      } else {
        var n := if t.Number? then NumberNode(t.value) else VarNode(t.name);
        FlattenPush(nodes, n);
        BuildFromFlatten(nodes + [n], tail);
      }
    }
  }

  /** The converse of the round trip: whenever the building pass yields a
      tree, that tree is error-free and its postfix form is the input. So
      a postfix sequence builds without error exactly when it is the
      postfix form of some tree. */
  lemma BuildInverse(postfix: seq<Token>)
    requires PostfixTokens(postfix)
    ensures !Build(postfix).IsError() ==>
      NoErrors(Build(postfix)) && Postfix(Build(postfix)) == postfix
  {
    if postfix != [] {
      BuildFromFlatten([], postfix);
      var out := BuildFrom([], postfix);
      if out.Ok? && |out.value| == 1 {
        var n := out.value[0];
        assert out.value == [] + [n];
        FlattenPush([], n);
        assert Flatten(out.value) == Postfix(n);
        assert Flatten([]) + postfix == postfix;
      }
    }
  }

  /** The building pass fails only with its own two messages: no tokens
      at all, or tokens that do not form exactly one tree. */
  lemma {:induction false} BuildFromErrors(nodes: seq<Node>, tokens: seq<Token>)
    ensures BuildFrom(nodes, tokens).Fail? ==> BuildFrom(nodes, tokens).message == "Wrong expression"
    decreases |tokens|
  {
    if tokens != [] {
      var t := tokens[0];
      if IsOp2(t) {
        if |nodes| >= 2 {
          BuildFromErrors(nodes[..|nodes| - 2] + [Op2Node(t.op, nodes[|nodes| - 2], nodes[|nodes| - 1])], tokens[1..]);
        }
      } else if t.Number? {
        BuildFromErrors(nodes + [NumberNode(t.value)], tokens[1..]);
      } else if t.Var? {
        BuildFromErrors(nodes + [VarNode(t.name)], tokens[1..]);
      } else {
        BuildFromErrors(nodes, tokens[1..]);
      }
    }
  }

  /** The building pass never puts an error node on its stack. */
  lemma {:induction false} BuildFromKeepsNoErrors(nodes: seq<Node>, tokens: seq<Token>)
    requires forall i :: 0 <= i < |nodes| ==> NoErrors(nodes[i])
    ensures BuildFrom(nodes, tokens).Ok? ==>
      forall i :: 0 <= i < |BuildFrom(nodes, tokens).value| ==> NoErrors(BuildFrom(nodes, tokens).value[i])
    decreases |tokens|
  {
    if tokens != [] {
      var t := tokens[0];
      if IsOp2(t) {
        if |nodes| >= 2 {
          var next := nodes[..|nodes| - 2] + [Op2Node(t.op, nodes[|nodes| - 2], nodes[|nodes| - 1])];
          assert forall i :: 0 <= i < |next| ==> NoErrors(next[i]);
          BuildFromKeepsNoErrors(next, tokens[1..]);
        }
      } else if t.Number? {
        BuildFromKeepsNoErrors(nodes + [NumberNode(t.value)], tokens[1..]);
      } else if t.Var? {
        BuildFromKeepsNoErrors(nodes + [VarNode(t.name)], tokens[1..]);
      } else {
        BuildFromKeepsNoErrors(nodes, tokens[1..]);
      }
    }
  }

  /** A built tree is either an error node carrying one of the two build
      messages, or a tree with no error node in it. */
  lemma BuildErrors(postfix: seq<Token>)
    ensures Build(postfix).IsError() ==>
      Build(postfix).message == (if postfix == [] then "Empty expression" else "Wrong expression")
    ensures !Build(postfix).IsError() ==> NoErrors(Build(postfix))
  {
    if postfix != [] {
      BuildFromErrors([], postfix);
      BuildFromKeepsNoErrors([], postfix);
      match BuildFrom([], postfix)
      case Fail(m) => assert Build(postfix) == ErrorNode(m);
      case Ok(nodes) =>
    }
  }
}
