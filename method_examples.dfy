/** Two worked methods, computed through the recursive definition of the complexity. */
module MethodExamples {
  import opened Cst
  import opened MethodMetrics

  // ---------------------------------------------------------------------------
  // Two worked methods
  // ---------------------------------------------------------------------------

  function Leaf(kind: string, text: string, role: Option<string>): Node
  {
    Node(kind, text, 0, role, [])
  }

  /** `void name() body` */
  function MethodOf(name: string, body: Node): Node
  {
    Node("method_declaration", "void " + name + "() { ... }", 0, None,
      [Leaf("void_type", "void", Some("type")), Leaf("identifier", name, Some("name")),
       Leaf("formal_parameters", "()", Some("parameters")), body])
  }

  /** `{ stmt }` as a method body */
  function BlockOf(stmt: Node): Node
  {
    Node("block", "{ ... }", 0, Some("body"), [stmt])
  }

  lemma MethodOfIncrements(name: string, body: Node)
    ensures TreeIncrements(MethodOf(name, body)) == TreeIncrements(body)
  {
    var m := MethodOf(name, body);
    assert TreeIncrementsFrom(m.children, 4) == 0;
    assert TreeIncrementsFrom(m.children, 3) == TreeIncrements(body);
    assert TreeIncrementsFrom(m.children, 2) == TreeIncrements(body);
    assert TreeIncrementsFrom(m.children, 1) == TreeIncrements(body);
    assert TreeIncrementsFrom(m.children, 0) == TreeIncrements(body);
    assert !IsStop(m.kind) && OwnIncrement(m) == 0 && !IsConditional(m.kind);
  }

  lemma BlockOfIncrements(stmt: Node)
    ensures TreeIncrements(BlockOf(stmt)) == TreeIncrements(stmt)
  {
    var b := BlockOf(stmt);
    assert TreeIncrementsFrom(b.children, 1) == 0;
    assert TreeIncrementsFrom(b.children, 0) == TreeIncrements(stmt);
    assert !IsStop(b.kind) && OwnIncrement(b) == 0 && !IsConditional(b.kind);
  }

  /** `(a && b)` */
  function ParenAnd(): Node
  {
    Node("parenthesized_expression", "(a && b)", 0, Some("condition"),
      [Node("binary_expression", "a && b", 0, None,
        [Leaf("identifier", "a", Some("left")), Leaf("&&", "&&", Some("operator")), Leaf("identifier", "b", Some("right"))])])
  }

  /** `if (c) { }` as the `else` branch of another `if` */
  function ElseIf(): Node
  {
    Node("if_statement", "if (c) { }", 0, Some("alternative"),
      [Leaf("if", "if", None),
       Node("parenthesized_expression", "(c)", 0, Some("condition"), [Leaf("identifier", "c", None)]),
       Leaf("block", "{ }", Some("consequence"))])
  }

  /** `if (a && b) { } else if (c) { }` */
  function IfElseIf(): Node
  {
    Node("if_statement", "if (a && b) { } else if (c) { }", 0, None,
      [Leaf("if", "if", None), ParenAnd(), Leaf("block", "{ }", Some("consequence")),
       Leaf("else", "else", None), ElseIf()])
  }

  /** A node without children counts only itself. */
  lemma LeafCounts(v: Node)
    requires v.children == [] && !IsConditional(v.kind) && v.kind != "switch_expression"
    ensures TreeOperators(v) == if IsLogicalOperator(v) then 1 else 0
    ensures TreeIncrements(v) == if IsStop(v.kind) then 0 else OwnIncrement(v)
  {
    assert TreeOperatorsFrom(v.children, 0) == 0;
    assert TreeIncrementsFrom(v.children, 0) == 0;
  }

  /** `a && b` under a parenthesis: one operator, no increment. */
  lemma ParenAndIncrements()
    ensures TreeOperators(ParenAnd()) == 1 && TreeIncrements(ParenAnd()) == 0
  {
    var p := ParenAnd();
    var b := p.children[0];
    LeafCounts(b.children[0]);
    LeafCounts(b.children[1]);
    LeafCounts(b.children[2]);
    assert TreeOperatorsFrom(b.children, 3) == 0;
    assert TreeOperatorsFrom(b.children, 2) == 0;
    assert TreeOperatorsFrom(b.children, 1) == 1;
    assert TreeOperators(b) == 1;
    assert TreeOperatorsFrom(p.children, 1) == 0;
    assert TreeOperatorsFrom(p.children, 0) == 1;
    assert TreeIncrementsFrom(b.children, 3) == 0;
    assert TreeIncrementsFrom(b.children, 2) == 0;
    assert TreeIncrementsFrom(b.children, 1) == 0;
    assert TreeIncrements(b) == 0;
    assert TreeIncrementsFrom(p.children, 1) == 0;
    assert TreeIncrementsFrom(p.children, 0) == 0;
  }

  lemma ElseIfIncrements()
    ensures TreeIncrements(ElseIf()) == 1
  {
    var s := ElseIf();
    var p := s.children[1];
    LeafCounts(s.children[0]);
    LeafCounts(s.children[2]);
    LeafCounts(p.children[0]);
    assert TreeOperatorsFrom(p.children, 1) == 0;
    assert TreeOperators(p) == 0;
    assert TreeIncrementsFrom(p.children, 1) == 0;
    assert TreeIncrements(p) == 0;
    assert FirstWithRole(s.children, "condition", 1) == 1;
    assert ChildByRole(s, "condition") == Some(p);
    assert TreeIncrementsFrom(s.children, 3) == 0;
    assert TreeIncrementsFrom(s.children, 2) == 0;
    assert TreeIncrementsFrom(s.children, 1) == 0;
    assert TreeIncrementsFrom(s.children, 0) == 0;
  }

  lemma IfElseIfIncrements()
    ensures TreeIncrements(IfElseIf()) == 3
  {
    var s := IfElseIf();
    ParenAndIncrements();
    ElseIfIncrements();
    LeafCounts(s.children[0]);
    LeafCounts(s.children[2]);
    LeafCounts(s.children[3]);
    assert FirstWithRole(s.children, "condition", 1) == 1;
    assert ChildByRole(s, "condition") == Some(ParenAnd());
    assert TreeIncrementsFrom(s.children, 5) == 0;
    assert TreeIncrementsFrom(s.children, 4) == 1;
    assert TreeIncrementsFrom(s.children, 3) == 1;
    assert TreeIncrementsFrom(s.children, 2) == 1;
    assert TreeIncrementsFrom(s.children, 1) == 1;
    assert TreeIncrementsFrom(s.children, 0) == 1;
  }

  /** `void f() { if (a && b) { } else if (c) { } }` has complexity 4: one for the method,
      one per `if` and one for the `&&`. */
  lemma ElseIfComplexity()
    ensures Cyclomatic(MethodOf("f", BlockOf(IfElseIf()))) == 4
  {
    IfElseIfIncrements();
    BlockOfIncrements(IfElseIf());
    MethodOfIncrements("f", BlockOf(IfElseIf()));
    CyclomaticIsTreeIncrements(MethodOf("f", BlockOf(IfElseIf())));
  }

  /** `x -> a && b` */
  function AndLambda(): Node
  {
    Node("lambda_expression", "x -> a && b", 0, None,
      [Leaf("identifier", "x", Some("parameters")), Leaf("->", "->", None),
       Node("binary_expression", "a && b", 0, Some("body"),
        [Leaf("identifier", "a", Some("left")), Leaf("&&", "&&", Some("operator")), Leaf("identifier", "b", Some("right"))])])
  }

  /** `(x -> a && b)` */
  function LambdaArgument(): Node
  {
    Node("argument_list", "(x -> a && b)", 0, Some("arguments"), [Leaf("(", "(", None), AndLambda(), Leaf(")", ")", None)])
  }

  /** `xs.any(x -> a && b)` */
  function AnyCall(): Node
  {
    Node("method_invocation", "xs.any(x -> a && b)", 0, None,
      [Leaf("identifier", "xs", Some("object")), Leaf(".", ".", None), Leaf("identifier", "any", Some("name")),
       LambdaArgument()])
  }

  /** `if (e) { }` */
  function IfOn(e: Node): Node
  {
    Node("if_statement", "if (" + e.text + ") { }", 0, None,
      [Leaf("if", "if", None),
       Node("parenthesized_expression", "(" + e.text + ")", 0, Some("condition"), [e]),
       Leaf("block", "{ }", Some("consequence"))])
  }

  /** An `if` counts one, plus the operators of its condition, plus whatever the condition
      expression itself contains. */
  lemma IfOnIncrements(e: Node)
    ensures TreeIncrements(IfOn(e)) == 1 + TreeOperators(e) + TreeIncrements(e)
  {
    var s := IfOn(e);
    var p := s.children[1];
    assert TreeOperatorsFrom(p.children, 1) == 0;
    assert TreeOperators(p) == TreeOperators(e);
    assert TreeIncrementsFrom(p.children, 1) == 0;
    assert TreeIncrements(p) == TreeIncrements(e);
    assert FirstWithRole(s.children, "condition", 1) == 1;
    assert ChildByRole(s, "condition") == Some(p);
    assert TreeIncrementsFrom(s.children, 3) == 0;
    assert TreeIncrementsFrom(s.children, 2) == 0;
    assert TreeIncrementsFrom(s.children, 1) == TreeIncrements(e);
    assert TreeIncrementsFrom(s.children, 0) == TreeIncrements(e);
  }

  lemma AndLambdaIncrements()
    ensures TreeOperators(AndLambda()) == 1 && TreeIncrements(AndLambda()) == 0
  {
    var l := AndLambda();
    var b := l.children[2];
    LeafCounts(l.children[0]);
    LeafCounts(l.children[1]);
    LeafCounts(b.children[0]);
    LeafCounts(b.children[1]);
    LeafCounts(b.children[2]);
    assert TreeOperatorsFrom(b.children, 3) == 0;
    assert TreeOperatorsFrom(b.children, 2) == 0;
    assert TreeOperatorsFrom(b.children, 1) == 1;
    assert TreeOperators(b) == 1;
    assert TreeOperatorsFrom(l.children, 3) == 0;
    assert TreeOperatorsFrom(l.children, 2) == 1;
    assert TreeOperatorsFrom(l.children, 1) == 1;
    assert TreeOperatorsFrom(l.children, 0) == 1;
  }

  lemma LambdaArgumentIncrements()
    ensures TreeOperators(LambdaArgument()) == 1 && TreeIncrements(LambdaArgument()) == 0
  {
    var a := LambdaArgument();
    AndLambdaIncrements();
    LeafCounts(a.children[0]);
    LeafCounts(a.children[2]);
    assert TreeOperatorsFrom(a.children, 2) == 0;
    assert TreeOperatorsFrom(a.children, 1) == 1;
    assert TreeOperatorsFrom(a.children, 0) == 1;
    assert TreeIncrementsFrom(a.children, 2) == 0;
    assert TreeIncrementsFrom(a.children, 1) == 0;
    assert TreeIncrementsFrom(a.children, 0) == 0;
  }

  lemma AnyCallIncrements()
    ensures TreeOperators(AnyCall()) == 1 && TreeIncrements(AnyCall()) == 0
  {
    var c := AnyCall();
    LambdaArgumentIncrements();
    LeafCounts(c.children[0]);
    LeafCounts(c.children[1]);
    LeafCounts(c.children[2]);
    assert TreeOperatorsFrom(c.children, 4) == 0;
    assert TreeOperatorsFrom(c.children, 3) == 1;
    assert TreeOperatorsFrom(c.children, 2) == 1;
    assert TreeOperatorsFrom(c.children, 1) == 1;
    assert TreeOperatorsFrom(c.children, 0) == 1;
    assert TreeIncrementsFrom(c.children, 4) == 0;
    assert TreeIncrementsFrom(c.children, 3) == 0;
    assert TreeIncrementsFrom(c.children, 2) == 0;
    assert TreeIncrementsFrom(c.children, 1) == 0;
    assert TreeIncrementsFrom(c.children, 0) == 0;
  }

  lemma IfAnyIncrements()
    ensures TreeIncrements(IfOn(AnyCall())) == 2
  {
    AnyCallIncrements();
    IfOnIncrements(AnyCall());
  }

  /** `void g() { if (xs.any(x -> a && b)) { } }` has complexity 3: the `&&` sits inside a
      lambda, but the condition search does not stop at lambdas, so it still counts. */
  lemma LambdaInConditionComplexity()
    ensures Cyclomatic(MethodOf("g", BlockOf(IfOn(AnyCall())))) == 3
  {
    IfAnyIncrements();
    BlockOfIncrements(IfOn(AnyCall()));
    MethodOfIncrements("g", BlockOf(IfOn(AnyCall())));
    CyclomaticIsTreeIncrements(MethodOf("g", BlockOf(IfOn(AnyCall()))));
  }
}
