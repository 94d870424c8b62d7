/** The route linter's rule 7: bare `rel: true` legs whose nearest enclosing block is `include`. */
module RouteCoverage {

  const INCLUDE := "include"
  const COUNT_LEG := "_count"

  /** What the scanner sees in a source text with its comments blanked: an opening brace with the key before it
      (empty when there is none), a closing brace, a bare true leg, or anything else. */
  datatype Token = Open(key: string) | Close | TrueLeg(name: string) | Other

  /** The blocks the text is written in. */
  datatype Node = Leg(name: string) | Block(key: string, children: seq<Node>) | Text

  function Render(nodes: seq<Node>): seq<Token>
    decreases nodes
  {
    if nodes == [] then []
    else RenderNode(nodes[0]) + Render(nodes[1..])
  }

  function RenderNode(node: Node): seq<Token>
    decreases node
  {
    match node
    case Leg(name) => [TrueLeg(name)]
    case Block(key, children) => [Open(key)] + Render(children) + [Close]
    case Text => [Other]
  }

  /** The legs to report: every bare leg but `_count` directly inside an `include` block, in source order. */
  function BareLegs(nodes: seq<Node>, enclosing: string): seq<string>
    decreases nodes
  {
    if nodes == [] then []
    else BareLegsOf(nodes[0], enclosing) + BareLegs(nodes[1..], enclosing)
  }

  function BareLegsOf(node: Node, enclosing: string): seq<string>
    decreases node
  {
    match node
    case Leg(name) => if enclosing == INCLUDE && name != COUNT_LEG then [name] else []
    case Block(key, children) => BareLegs(children, key)
    case Text => []
  }

  /** The node stands somewhere among these, at any depth. */
  predicate Occurs(node: Node, nodes: seq<Node>)
    decreases nodes
  {
    nodes != [] && (OccursIn(node, nodes[0]) || Occurs(node, nodes[1..]))
  }

  predicate OccursIn(node: Node, within: Node)
    decreases within
  {
    node == within || (within.Block? && Occurs(node, within.children))
  }

  ghost predicate InIncludeBlock(nodes: seq<Node>, name: string) {
    exists children :: Occurs(Block("include", children), nodes) && Leg(name) in children
  }

  lemma {:induction false} ReportedUnder(nodes: seq<Node>, enclosing: string, name: string)
    ensures name in BareLegs(nodes, enclosing) <==>
              name != "_count" && ((enclosing == "include" && Leg(name) in nodes) || InIncludeBlock(nodes, name))
    decreases nodes
  {
    if nodes != [] {
      var first, rest := nodes[0], nodes[1..];
      ReportedInNode(first, enclosing, name);
      ReportedUnder(rest, enclosing, name);
      assert nodes == [first] + rest;
      assert InIncludeBlock(nodes, name) <==> InIncludeBlock([first], name) || InIncludeBlock(rest, name) by {
        assert [first][1..] == [];
        assert forall children :: Occurs(Block("include", children), nodes)
                                  <==> Occurs(Block("include", children), [first]) || Occurs(Block("include", children), rest);
      }
    }
  }

  lemma {:induction false} ReportedInNode(node: Node, enclosing: string, name: string)
    ensures name in BareLegsOf(node, enclosing) <==>
              name != "_count" && ((enclosing == "include" && node == Leg(name)) || InIncludeBlock([node], name))
    decreases node
  {
    assert [node][1..] == [];
    match node
    case Leg(_) =>
      assert forall inner :: !Occurs(Block("include", inner), [node]);
    case Text =>
      assert forall inner :: !Occurs(Block("include", inner), [node]);
    case Block(key, children) =>
      ReportedUnder(children, key, name);
      assert forall inner :: Occurs(Block("include", inner), [node])
                             <==> (key == "include" && inner == children) || Occurs(Block("include", inner), children);
      if key == "include" && Leg(name) in children {
        assert Occurs(Block("include", children), [node]);
      }
  }

  /** The legs to report are, all of them and no others, the bare ones but `_count` that stand directly in some `include`
      block, however deep. */
  lemma ReportedIff(nodes: seq<Node>, name: string)
    ensures name in BareLegs(nodes, "") <==> name != "_count" && InIncludeBlock(nodes, name)
  {
    ReportedUnder(nodes, "", name);
  }

  // ---------------------------------------------------------------------------
  // The stack scanner
  // ---------------------------------------------------------------------------

  function Top(stack: seq<string>): string {
    if stack == [] then "" else stack[|stack| - 1]
  }

  /** `stack.pop()`, a no-op on an empty stack. */
  function Pop(stack: seq<string>): seq<string> {
    if stack == [] then [] else stack[..|stack| - 1]
  }

  function Shift(stack: seq<string>, token: Token): seq<string> {
    match token
    case Open(key) => stack + [key]
    case Close => Pop(stack)
    case _ => stack
  }

  function StackAfter(tokens: seq<Token>, stack: seq<string>): seq<string> {
    if tokens == [] then stack else StackAfter(tokens[1..], Shift(stack, tokens[0]))
  }

  function HitsIn(tokens: seq<Token>, stack: seq<string>): seq<string> {
    if tokens == [] then []
    else
      (if tokens[0].TrueLeg? && Top(stack) == INCLUDE && tokens[0].name != COUNT_LEG then [tokens[0].name] else [])
      + HitsIn(tokens[1..], Shift(stack, tokens[0]))
  }

  lemma {:induction false} ScanAppend(a: seq<Token>, b: seq<Token>, stack: seq<string>)
    ensures StackAfter(a + b, stack) == StackAfter(b, StackAfter(a, stack))
    ensures HitsIn(a + b, stack) == HitsIn(a, stack) + HitsIn(b, StackAfter(a, stack))
    decreases |a|
  {
    if a == [] {
      assert a + b == b;
    } else {
      assert (a + b)[1..] == a[1..] + b;
      ScanAppend(a[1..], b, Shift(stack, a[0]));
    }
  }

  /** Scanning one rendered node reports its legs and leaves the stack as it found it. */
  lemma {:induction false} ScanNode(node: Node, stack: seq<string>)
    ensures StackAfter(RenderNode(node), stack) == stack
    ensures HitsIn(RenderNode(node), stack) == BareLegsOf(node, Top(stack))
    decreases node
  {
    match node
    case Leg(name) =>
      assert [TrueLeg(name)][1..] == [];
    case Text =>
      assert [Other][1..] == [];
    case Block(key, children) =>
      var inner := stack + [key];
      var body := Render(children);
      ScanNodes(children, inner);
      ScanAppend(body, [Close], inner);
      assert [Close][1..] == [] && Pop(inner) == stack;
      var tokens := [Open(key)] + body + [Close];
      assert tokens[1..] == body + [Close];
      assert Top(inner) == key;
  }

  lemma {:induction false} ScanNodes(nodes: seq<Node>, stack: seq<string>)
    ensures StackAfter(Render(nodes), stack) == stack
    ensures HitsIn(Render(nodes), stack) == BareLegs(nodes, Top(stack))
    decreases nodes
  {
    if nodes != [] {
      ScanNode(nodes[0], stack);
      ScanNodes(nodes[1..], stack);
      ScanAppend(RenderNode(nodes[0]), Render(nodes[1..]), stack);
    }
  }

  /** `findBareIncludeLegs`: for any nested blocks the names reported are exactly the legs to report. */
  method FindBareIncludeLegs(tokens: seq<Token>) returns (hits: seq<string>)
    ensures hits == HitsIn(tokens, [])
    ensures forall nodes | tokens == Render(nodes) :: hits == BareLegs(nodes, "")
  {
    hits := [];
    var stack: seq<string> := [];
    for i := 0 to |tokens|
      invariant stack == StackAfter(tokens[..i], [])
      invariant hits == HitsIn(tokens[..i], [])
    {
      var token := tokens[i];
      assert tokens[..i + 1] == tokens[..i] + [token] && [token][1..] == [];
      ScanAppend(tokens[..i], [token], []);
      if token.Open? {
        stack := stack + [token.key];
        continue;
      }
      if token.Close? {
        if |stack| > 0 {
          stack := stack[..|stack| - 1];
        }
        continue;
      }
      if |stack| == 0 || stack[|stack| - 1] != INCLUDE {
        continue;
      }
      if token.TrueLeg? {
        if token.name != COUNT_LEG {
          hits := hits + [token.name];
        }
      }
    }
    assert tokens[..|tokens|] == tokens;
    forall nodes | tokens == Render(nodes) ensures hits == BareLegs(nodes, "") {
      ScanNodes(nodes, []);
    }
  }
}
