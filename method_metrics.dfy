/** Metrics of one method or constructor: cyclomatic complexity and the set of names
    its body refers to (`MetricsMethod` in src/metrics.rs). */
module MethodMetrics {
  import opened Cst

  // ---------------------------------------------------------------------------
  // Cyclomatic complexity: the per-kind rules
  // ---------------------------------------------------------------------------

  /** Kinds whose subtree the complexity walk does not enter (and which add nothing). */
  predicate IsStop(k: string)
  {
    k == "lambda_expression" || k == "assert_statement" || k == "class_body"
  }

  /** Kinds that add one and whose `condition` child, if any, is searched for `&&`/`||`. */
  predicate IsConditional(k: string)
  {
    k == "if_statement" || k == "while_statement" || k == "do_statement"
    || k == "for_statement" || k == "ternary_expression"
  }

  /** Kinds that add one and nothing more. */
  predicate IsPlainBranch(k: string)
  {
    k == "enhanced_for_statement" || k == "catch_clause" || k == "throw_statement"
  }

  /** A `case` label of a switch (the `default` label's text is exactly "default"). */
  predicate IsCaseLabel(v: Node)
  {
    v.kind == "switch_label" && v.text != "default"
  }

  predicate IsLogicalOperator(v: Node)
  {
    v.kind == "&&" || v.kind == "||"
  }

  /** The increment a node gives by its own kind. */
  function OwnIncrement(v: Node): nat
  {
    if IsConditional(v.kind) || IsPlainBranch(v.kind) || IsCaseLabel(v) then 1 else 0
  }

  /** Number of `&&`/`||` nodes among `s`. */
  function LogicalOperators(s: seq<Node>): nat
  {
    if s == [] then 0
    else LogicalOperators(s[..|s| - 1]) + (if IsLogicalOperator(s[|s| - 1]) then 1 else 0)
  }

  /** `compute_condition_complexity`: every `&&`/`||` anywhere in the condition's subtree. */
  function ConditionOperators(cond: Node): nat
  {
    LogicalOperators(Preorder(cond))
  }

  /** The increment a node gives through its `condition` child: for the five conditional
      kinds when the child is present, and for a `switch_expression`. */
  function ConditionIncrement(v: Node): nat
  {
    if IsConditional(v.kind) || v.kind == "switch_expression" then
      match ChildByRole(v, "condition")
      case Some(c) => ConditionOperators(c)
      case None => 0
    else 0
  }

  function Weight(v: Node): nat
  {
    OwnIncrement(v) + ConditionIncrement(v)
  }

  function Weights(s: seq<Node>): nat
  {
    if s == [] then 0 else Weights(s[..|s| - 1]) + Weight(s[|s| - 1])
  }

  /** The nodes `compute_cyclomatic` visits below and including `n`, in visiting order:
      pre-order, except that a stop node is not visited and its subtree is skipped. */
  function CycloWalk(n: Node): seq<Node>
    decreases n
  {
    if IsStop(n.kind) then [] else [n] + CycloWalkSeq(n.children)
  }

  function CycloWalkSeq(cs: seq<Node>): seq<Node>
    decreases cs
  {
    if cs == [] then [] else CycloWalkSeq(cs[..|cs| - 1]) + CycloWalk(cs[|cs| - 1])
  }

  /** The complexity of a method: one plus the weights of the nodes the walk visits. */
  function Cyclomatic(m: Node): nat
  {
    1 + Weights(CycloWalk(m))
  }

  /** The same counts computed the way the source's recursion does it: a condition's
      operators ... */
  function TreeOperators(n: Node): nat
    decreases n, 1
  {
    (if IsLogicalOperator(n) then 1 else 0) + TreeOperatorsFrom(n.children, 0)
  }

  function TreeOperatorsFrom(cs: seq<Node>, i: nat): nat
    decreases cs, 0, |cs| - i
  {
    if i >= |cs| then 0 else TreeOperators(cs[i]) + TreeOperatorsFrom(cs, i + 1)
  }

  /** ... and a node's increments: its own, its condition's, and those of each child in turn,
      none at all at a stop node. */
  function TreeIncrements(n: Node): nat
    decreases n, 1
  {
    if IsStop(n.kind) then 0
    else
      OwnIncrement(n)
      + (if IsConditional(n.kind) || n.kind == "switch_expression" then
           match ChildByRole(n, "condition")
           case Some(c) => TreeOperators(c)
           case None => 0
         else 0)
      + TreeIncrementsFrom(n.children, 0)
  }

  function TreeIncrementsFrom(cs: seq<Node>, i: nat): nat
    decreases cs, 0, |cs| - i
  {
    if i >= |cs| then 0 else TreeIncrements(cs[i]) + TreeIncrementsFrom(cs, i + 1)
  }

  // ---------------------------------------------------------------------------
  // Usage set
  // ---------------------------------------------------------------------------

  /** The names one node contributes: an identifier's text, a field access's field text. */
  function NamesOf(v: Node): set<string>
  {
    if v.kind == "identifier" then {v.text}
    else if v.kind == "field_access" then
      match ChildByRole(v, "field")
      case Some(f) => {f.text}
      case None => {}
    else {}
  }

  function NamesOfAll(s: seq<Node>): set<string>
  {
    if s == [] then {} else NamesOfAll(s[..|s| - 1]) + NamesOf(s[|s| - 1])
  }

  /** `compute_usage_field`: the names of the whole subtree, with no stop points. */
  function Usage(m: Node): set<string>
  {
    NamesOfAll(Preorder(m))
  }

  // ---------------------------------------------------------------------------
  // What the Rust unwraps: the shapes a method subtree must have
  // ---------------------------------------------------------------------------

  /** Every `switch_expression` that the complexity walk reaches has a `condition` child. */
  predicate CycloWF(n: Node)
    decreases n
  {
    IsStop(n.kind)
    || ((n.kind == "switch_expression" ==> ChildByRole(n, "condition").Some?)
        && forall k :: 0 <= k < |n.children| ==> CycloWF(n.children[k]))
  }

  /** Every `field_access` in the subtree has a `field` child. */
  predicate UsageWF(n: Node)
    decreases n
  {
    (n.kind == "field_access" ==> ChildByRole(n, "field").Some?)
    && forall k :: 0 <= k < |n.children| ==> UsageWF(n.children[k])
  }

  predicate MethodWF(m: Node)
  {
    ChildByRole(m, "name").Some? && CycloWF(m) && UsageWF(m)
  }

  // ---------------------------------------------------------------------------
  // The finished record and its specification
  // ---------------------------------------------------------------------------

  /** What `MetricsMethod` holds once computed and moved into its class's list. */
  datatype MethodSummary = MethodSummary(name: string, cyclomatic: nat, usage: set<string>)

  /** The record `MetricsMethod::new` followed by `compute` produces for method node `m`. */
  function MethodSpec(m: Node): MethodSummary
  {
    MethodSummary(RoleText(m, "name"), Cyclomatic(m), Usage(m))
  }

  // ---------------------------------------------------------------------------
  // The source's imperative computation
  // ---------------------------------------------------------------------------

  class MetricsMethod {
    var name: string
    var cyclomatic: nat
    var usageFieldList: set<string>

    /** `MetricsMethod::new`. */
    constructor ()
      ensures name == "" && cyclomatic == 1 && usageFieldList == {}
    {
      name := "";
      cyclomatic := 1;
      usageFieldList := {};
    }

    function Summary(): MethodSummary
      reads this
    {
      MethodSummary(name, cyclomatic, usageFieldList)
    }

    /** `compute`, run (as everywhere in the source) on a record fresh from `new`. */
    method Compute(m: Node)
      requires MethodWF(m)
      requires cyclomatic == 1 && usageFieldList == {}
      modifies this
      ensures Summary() == MethodSpec(m)
    {
      name := ChildByRole(m, "name").value.text;
      ComputeCyclomatic(m);
      ComputeUsageField(m);
    }

    /** `compute_cyclomatic`: the pre-order walk with its per-kind increments. */
    method ComputeCyclomatic(n: Node)
      requires CycloWF(n)
      modifies this`cyclomatic
      ensures cyclomatic == old(cyclomatic) + Weights(CycloWalk(n))
      decreases n
    {
      if IsConditional(n.kind) {
        cyclomatic := cyclomatic + 1;
        var cond := ChildByRole(n, "condition");
        if cond.Some? {
          ComputeConditionComplexity(cond.value);
        }
      } else if n.kind == "enhanced_for_statement" {
        cyclomatic := cyclomatic + 1;
      } else if n.kind == "switch_expression" {
        ComputeConditionComplexity(ChildByRole(n, "condition").value);
      } else if n.kind == "switch_label" && n.text != "default" {
        cyclomatic := cyclomatic + 1;
      } else if n.kind == "catch_clause" || n.kind == "throw_statement" {
        cyclomatic := cyclomatic + 1;
      } else if n.kind == "lambda_expression" || n.kind == "assert_statement" {
        return;
      } else if n.kind == "class_body" {
        return;
      }
      assert cyclomatic == old(cyclomatic) + Weight(n);
      var i := 0;
      while i < |n.children|
        invariant i <= |n.children|
        invariant cyclomatic == old(cyclomatic) + Weight(n) + Weights(CycloWalkSeq(n.children[..i]))
      {
        ComputeCyclomatic(n.children[i]);
        CycloWalkSeqSnoc(n.children, i);
        WeightsAppend(CycloWalkSeq(n.children[..i]), CycloWalk(n.children[i]));
        i := i + 1;
      }
      assert n.children[..i] == n.children;
      WeightsAppend([n], CycloWalkSeq(n.children));
    }

    /** `compute_condition_complexity`: one for each `&&`/`||` below and including `n`. */
    method ComputeConditionComplexity(n: Node)
      modifies this`cyclomatic
      ensures cyclomatic == old(cyclomatic) + ConditionOperators(n)
      decreases n
    {
      if n.kind == "&&" || n.kind == "||" {
        cyclomatic := cyclomatic + 1;
      }
      var i := 0;
      while i < |n.children|
        invariant i <= |n.children|
        invariant cyclomatic == old(cyclomatic) + LogicalOperators([n])
                                + LogicalOperators(PreorderSeq(n.children[..i]))
      {
        ComputeConditionComplexity(n.children[i]);
        PreorderSeqSnoc(n.children, i);
        LogicalOperatorsAppend(PreorderSeq(n.children[..i]), Preorder(n.children[i]));
        i := i + 1;
      }
      assert n.children[..i] == n.children;
      LogicalOperatorsAppend([n], PreorderSeq(n.children));
    }

    /** `compute_usage_field`: inserts every identifier and field-access name of the subtree. */
    method ComputeUsageField(n: Node)
      requires UsageWF(n)
      modifies this`usageFieldList
      ensures usageFieldList == old(usageFieldList) + Usage(n)
      decreases n
    {
      if n.kind == "identifier" {
        usageFieldList := usageFieldList + {n.text};
      } else if n.kind == "field_access" {
        var fieldName := ChildByRole(n, "field").value.text;
        usageFieldList := usageFieldList + {fieldName};
      }
      ghost var own := old(usageFieldList) + NamesOf(n);
      assert usageFieldList == own;
      var i := 0;
      while i < |n.children|
        invariant i <= |n.children|
        invariant usageFieldList == own + NamesOfAll(PreorderSeq(n.children[..i]))
      {
        ghost var before := NamesOfAll(PreorderSeq(n.children[..i]));
        ComputeUsageField(n.children[i]);
        PreorderSeqSnoc(n.children, i);
        NamesOfAllAppend(PreorderSeq(n.children[..i]), Preorder(n.children[i]));
        UnionAssoc(own, before, Usage(n.children[i]));
        i := i + 1;
      }
      assert n.children[..i] == n.children;
      NamesOfAllAppend([n], PreorderSeq(n.children));
      assert NamesOfAll([n]) == NamesOf(n);
      UnionAssoc(old(usageFieldList), NamesOf(n), NamesOfAll(PreorderSeq(n.children)));
    }
  }

  // ---------------------------------------------------------------------------
  // Lemmas
  // ---------------------------------------------------------------------------

  lemma CycloWalkSeqSnoc(cs: seq<Node>, i: nat)
    requires i < |cs|
    ensures CycloWalkSeq(cs[..i + 1]) == CycloWalkSeq(cs[..i]) + CycloWalk(cs[i])
  {
    assert cs[..i + 1][..i] == cs[..i];
  }

  lemma {:induction false} WeightsAppend(a: seq<Node>, b: seq<Node>)
    ensures Weights(a + b) == Weights(a) + Weights(b)
    decreases |b|
  {
    if b != [] {
      assert (a + b)[..|a + b| - 1] == a + b[..|b| - 1];
      WeightsAppend(a, b[..|b| - 1]);
    } else {
      assert a + b == a;
    }
  }

  lemma {:induction false} LogicalOperatorsAppend(a: seq<Node>, b: seq<Node>)
    ensures LogicalOperators(a + b) == LogicalOperators(a) + LogicalOperators(b)
    decreases |b|
  {
    if b != [] {
      assert (a + b)[..|a + b| - 1] == a + b[..|b| - 1];
      LogicalOperatorsAppend(a, b[..|b| - 1]);
    } else {
      assert a + b == a;
    }
  }

  lemma UnionAssoc(a: set<string>, b: set<string>, c: set<string>)
    ensures a + b + c == a + (b + c)
  {
  }

  lemma {:induction false} NamesOfAllAppend(a: seq<Node>, b: seq<Node>)
    ensures NamesOfAll(a + b) == NamesOfAll(a) + NamesOfAll(b)
    decreases |b|
  {
    if b != [] {
      assert (a + b)[..|a + b| - 1] == a + b[..|b| - 1];
      NamesOfAllAppend(a, b[..|b| - 1]);
    } else {
      assert a + b == a;
    }
  }

  // ---------------------------------------------------------------------------
  // Base complexity
  // ---------------------------------------------------------------------------

  lemma {:induction false} WeightsZero(s: seq<Node>)
    ensures Weights(s) == 0 <==> forall k :: 0 <= k < |s| ==> Weight(s[k]) == 0
    decreases |s|
  {
    if s != [] {
      WeightsZero(s[..|s| - 1]);
      assert forall k :: 0 <= k < |s| - 1 ==> s[..|s| - 1][k] == s[k];
    }
  }

  /** The nodes the complexity walk visits are nodes of the subtree, and none is a stop node. */
  lemma {:induction false} CycloWalkInPreorder(n: Node)
    ensures forall v :: v in CycloWalk(n) ==> v in Preorder(n) && !IsStop(v.kind)
    decreases n
  {
    if !IsStop(n.kind) {
      CycloWalkSeqInPreorderSeq(n.children);
    }
  }

  lemma {:induction false} CycloWalkSeqInPreorderSeq(cs: seq<Node>)
    ensures forall v :: v in CycloWalkSeq(cs) ==> v in PreorderSeq(cs) && !IsStop(v.kind)
    decreases cs
  {
    if cs != [] {
      CycloWalkSeqInPreorderSeq(cs[..|cs| - 1]);
      CycloWalkInPreorder(cs[|cs| - 1]);
    }
  }

  /** A method's complexity is 1 exactly when no node the walk visits carries an increment. */
  lemma BaseComplexity(m: Node)
    ensures Cyclomatic(m) >= 1
    ensures Cyclomatic(m) == 1 <==> forall k :: 0 <= k < |CycloWalk(m)| ==> Weight(CycloWalk(m)[k]) == 0
  {
    var w := CycloWalk(m);
    WeightsZero(w);
    assert Cyclomatic(m) == 1 + Weights(w);
    if Cyclomatic(m) != 1 {
      var k :| 0 <= k < |w| && Weight(w[k]) != 0;
      assert Weight(CycloWalk(m)[k]) != 0;
    }
  }

  /** A node of none of the counted kinds has weight 0. */
  predicate Uncounted(v: Node)
  {
    !IsConditional(v.kind) && !IsPlainBranch(v.kind) && !IsCaseLabel(v) && v.kind != "switch_expression"
  }

  /** A method whose subtree holds no branching, looping, switch case, catch, throw or
      ternary node has complexity exactly 1. */
  lemma StraightLineComplexity(m: Node)
    requires forall v :: v in Preorder(m) ==> Uncounted(v)
    ensures Cyclomatic(m) == 1
  {
    CycloWalkInPreorder(m);
    var w := CycloWalk(m);
    forall k | 0 <= k < |w| ensures Weight(w[k]) == 0 {
      assert w[k] in w;
    }
    WeightsZero(w);
  }

  // ---------------------------------------------------------------------------
  // Stop points: what lies inside a stop node does not matter
  // ---------------------------------------------------------------------------

  /** `path` leads from `n` to a node of the tree, one child index per step. */
  predicate ValidPath(n: Node, path: seq<nat>)
    decreases |path|
  {
    path == [] || (path[0] < |n.children| && ValidPath(n.children[path[0]], path[1..]))
  }

  function NodeAt(n: Node, path: seq<nat>): Node
    requires ValidPath(n, path)
    decreases |path|
  {
    if path == [] then n else NodeAt(n.children[path[0]], path[1..])
  }

  /** No child stepped into along `path` is held under the field name `condition`. */
  predicate OffConditions(n: Node, path: seq<nat>)
    requires ValidPath(n, path)
    decreases |path|
  {
    path == []
    || (n.children[path[0]].role != Some("condition") && OffConditions(n.children[path[0]], path[1..]))
  }

  /** The tree `n` with the subtree at `path` replaced by `s`. */
  function ReplaceAt(n: Node, path: seq<nat>, s: Node): Node
    requires ValidPath(n, path)
    decreases |path|
  {
    if path == [] then s
    else n.(children := n.children[path[0] := ReplaceAt(n.children[path[0]], path[1..], s)])
  }

  lemma {:induction false} ReplaceAtKeepsRole(n: Node, path: seq<nat>, s: Node)
    requires ValidPath(n, path) && s.role == NodeAt(n, path).role
    ensures ReplaceAt(n, path, s).role == n.role
    decreases |path|
  {
    if path != [] {
      ReplaceAtKeepsRole(n.children[path[0]], path[1..], s);
    }
  }

  lemma {:induction false} FirstWithRoleSameRoles(cs: seq<Node>, ds: seq<Node>, r: string, from: nat)
    requires from <= |cs| == |ds| && forall k :: 0 <= k < |cs| ==> cs[k].role == ds[k].role
    ensures FirstWithRole(cs, r, from) == FirstWithRole(ds, r, from)
    decreases |cs| - from
  {
    if from < |cs| && cs[from].role != Some(r) {
      FirstWithRoleSameRoles(cs, ds, r, from + 1);
    }
  }

  lemma {:induction false} CycloWalkSeqReplace(cs: seq<Node>, k: nat, c: Node)
    requires k < |cs| && Weights(CycloWalk(c)) == Weights(CycloWalk(cs[k]))
    ensures Weights(CycloWalkSeq(cs[k := c])) == Weights(CycloWalkSeq(cs))
    decreases |cs|
  {
    var ds := cs[k := c];
    var last := |cs| - 1;
    assert CycloWalkSeq(ds) == CycloWalkSeq(ds[..last]) + CycloWalk(ds[last]);
    assert CycloWalkSeq(cs) == CycloWalkSeq(cs[..last]) + CycloWalk(cs[last]);
    WeightsAppend(CycloWalkSeq(ds[..last]), CycloWalk(ds[last]));
    WeightsAppend(CycloWalkSeq(cs[..last]), CycloWalk(cs[last]));
    if k < last {
      assert ds[..last] == cs[..last][k := c];
      assert ds[last] == cs[last];
      CycloWalkSeqReplace(cs[..last], k, c);
    } else {
      assert ds[..last] == cs[..last];
      assert ds[last] == c;
    }
  }

  /** Replacing a stop node that no enclosing condition contains by any other stop node
      held under the same field name leaves the complexity unchanged: the walk visits
      nothing at a lambda, an assert or a class body, whatever lies below it. (Inside a `condition` child this fails:
      the condition search counts `&&`/`||` even within a lambda.) */
  lemma {:induction false} StopInteriorIrrelevant(n: Node, path: seq<nat>, s: Node)
    requires ValidPath(n, path) && OffConditions(n, path)
    requires IsStop(NodeAt(n, path).kind) && IsStop(s.kind) && s.role == NodeAt(n, path).role
    ensures Cyclomatic(ReplaceAt(n, path, s)) == Cyclomatic(n)
    decreases |path|
  {
    if path != [] && !IsStop(n.kind) {
      var k := path[0];
      var c := n.children[k];
      var c' := ReplaceAt(c, path[1..], s);
      var n' := ReplaceAt(n, path, s);
      StopInteriorIrrelevant(c, path[1..], s);
      ReplaceAtKeepsRole(c, path[1..], s);
      assert n'.children == n.children[k := c'];
      FirstWithRoleSameRoles(n.children, n'.children, "condition", 0);
      assert ChildByRole(n', "condition") == ChildByRole(n, "condition");
      assert Weight(n') == Weight(n);
      CycloWalkSeqReplace(n.children, k, c');
      WeightsAppend([n'], CycloWalkSeq(n'.children));
      WeightsAppend([n], CycloWalkSeq(n.children));
    }
  }

  // ---------------------------------------------------------------------------
  // Usage set
  // ---------------------------------------------------------------------------

  lemma {:induction false} NamesOfAllMembers(s: seq<Node>, x: string)
    ensures x in NamesOfAll(s) <==> exists k :: 0 <= k < |s| && x in NamesOf(s[k])
    decreases |s|
  {
    if s != [] {
      NamesOfAllMembers(s[..|s| - 1], x);
      assert forall k :: 0 <= k < |s| - 1 ==> s[..|s| - 1][k] == s[k];
    }
  }

  /** A name is in a method's usage set exactly when some node of its whole subtree (lambdas
      and nested class bodies included) is an identifier with that text or a field access
      whose field has that text. */
  lemma UsageMembers(m: Node, x: string)
    ensures x in Usage(m) <==>
      exists v :: v in Preorder(m) &&
        ((v.kind == "identifier" && v.text == x)
         || (v.kind == "field_access" && ChildByRole(v, "field").Some? && ChildByRole(v, "field").value.text == x))
  {
    NamesOfAllMembers(Preorder(m), x);
  }

  /** The usage walk has no stop points: a child's names are all in its parent's set. */
  lemma UsageCoversChildren(m: Node, k: nat)
    requires k < |m.children|
    ensures Usage(m.children[k]) <= Usage(m)
  {
    PreorderContainsChildren(m, k);
    forall x | x in Usage(m.children[k]) ensures x in Usage(m) {
      UsageMembers(m.children[k], x);
      UsageMembers(m, x);
    }
  }

  // ---------------------------------------------------------------------------
  // The walk-based counts agree with the source's recursion
  // ---------------------------------------------------------------------------

  lemma {:induction false} CycloWalkSeqConcat(a: seq<Node>, b: seq<Node>)
    ensures CycloWalkSeq(a + b) == CycloWalkSeq(a) + CycloWalkSeq(b)
    decreases |b|
  {
    if b == [] {
      assert a + b == a;
    } else {
      assert (a + b)[..|a + b| - 1] == a + b[..|b| - 1];
      CycloWalkSeqConcat(a, b[..|b| - 1]);
    }
  }

  lemma {:induction false} TreeOperatorsCountsPreorder(n: Node)
    ensures TreeOperators(n) == ConditionOperators(n)
    decreases n, 1
  {
    TreeOperatorsFromCountsPreorder(n.children, 0);
    assert n.children[0..] == n.children;
    LogicalOperatorsAppend([n], PreorderSeq(n.children));
    assert [n][..0] == [];
  }

  lemma {:induction false} TreeOperatorsFromCountsPreorder(cs: seq<Node>, i: nat)
    requires i <= |cs|
    ensures TreeOperatorsFrom(cs, i) == LogicalOperators(PreorderSeq(cs[i..]))
    decreases cs, 0, |cs| - i
  {
    if i < |cs| {
      TreeOperatorsCountsPreorder(cs[i]);
      TreeOperatorsFromCountsPreorder(cs, i + 1);
      PreorderSeqUncons(cs, i);
      LogicalOperatorsAppend(Preorder(cs[i]), PreorderSeq(cs[i + 1..]));
    } else {
      assert cs[i..] == [];
    }
  }

  /** The recursive count the source performs equals the weights of the visited nodes. */
  lemma {:induction false} TreeIncrementsIsWalk(n: Node)
    ensures TreeIncrements(n) == Weights(CycloWalk(n))
    decreases n, 1
  {
    if !IsStop(n.kind) {
      match ChildByRole(n, "condition") {
        case Some(c) => TreeOperatorsCountsPreorder(c);
        case None =>
      }
      TreeIncrementsFromIsWalk(n.children, 0);
      assert n.children[0..] == n.children;
      WeightsAppend([n], CycloWalkSeq(n.children));
      assert [n][..0] == [];
    }
  }

  lemma {:induction false} TreeIncrementsFromIsWalk(cs: seq<Node>, i: nat)
    requires i <= |cs|
    ensures TreeIncrementsFrom(cs, i) == Weights(CycloWalkSeq(cs[i..]))
    decreases cs, 0, |cs| - i
  {
    if i < |cs| {
      TreeIncrementsIsWalk(cs[i]);
      TreeIncrementsFromIsWalk(cs, i + 1);
      assert cs[i..] == [cs[i]] + cs[i + 1..];
      CycloWalkSeqConcat([cs[i]], cs[i + 1..]);
      assert [cs[i]][..0] == [];
      assert CycloWalkSeq([cs[i]]) == CycloWalk(cs[i]);
      WeightsAppend(CycloWalk(cs[i]), CycloWalkSeq(cs[i + 1..]));
    } else {
      assert cs[i..] == [];
    }
  }

  /** A method's complexity is one plus the count the source's recursion arrives at. */
  lemma CyclomaticIsTreeIncrements(m: Node)
    ensures Cyclomatic(m) == 1 + TreeIncrements(m)
  {
    TreeIncrementsIsWalk(m);
  }
}
