/** The concrete syntax tree of one Java compilation unit, as the parser hands it over,
    and the few queries the metrics engine asks of it. */
module Cst {

  datatype Option<T> = None | Some(value: T)

  /** One tree node: its grammar kind ("class_declaration", "&&", ...), the exact source
      text of its span, the zero-based row where the span starts, the field name under
      which its parent holds it (None for an unnamed child) and its children in source order. */
  datatype Node = Node(kind: string, text: string, row: nat, role: Option<string>, children: seq<Node>)

  /** Index of the first node of `cs` at or after `from` held under field name `r`,
      or |cs| when there is none. */
  function FirstWithRole(cs: seq<Node>, r: string, from: nat := 0): (i: nat)
    requires from <= |cs|
    ensures from <= i <= |cs|
    ensures i < |cs| ==> cs[i].role == Some(r)
    decreases |cs| - from
  {
    if from == |cs| then |cs|
    else if cs[from].role == Some(r) then from
    else FirstWithRole(cs, r, from + 1)
  }

  /** No node before the one `FirstWithRole` finds has role `r`. */
  lemma {:induction false} FirstWithRoleIsFirst(cs: seq<Node>, r: string, from: nat)
    requires from <= |cs|
    ensures forall j :: from <= j < FirstWithRole(cs, r, from) ==> cs[j].role != Some(r)
    decreases |cs| - from
  {
    if from < |cs| && cs[from].role != Some(r) {
      FirstWithRoleIsFirst(cs, r, from + 1);
    }
  }

  /** Index of the first node of `cs` at or after `from` of kind `k`, or |cs| when there is none. */
  function FirstWithKind(cs: seq<Node>, k: string, from: nat := 0): (i: nat)
    requires from <= |cs|
    ensures from <= i <= |cs|
    ensures i < |cs| ==> cs[i].kind == k
    decreases |cs| - from
  {
    if from == |cs| then |cs|
    else if cs[from].kind == k then from
    else FirstWithKind(cs, k, from + 1)
  }

  /** No node before the one `FirstWithKind` finds has kind `k`. */
  lemma {:induction false} FirstWithKindIsFirst(cs: seq<Node>, k: string, from: nat)
    requires from <= |cs|
    ensures forall j :: from <= j < FirstWithKind(cs, k, from) ==> cs[j].kind != k
    decreases |cs| - from
  {
    if from < |cs| && cs[from].kind != k {
      FirstWithKindIsFirst(cs, k, from + 1);
    }
  }

  /** `FirstWithKind` finds `i` when `i` is the first position of kind `k` (or |cs|
      when there is none). */
  lemma FirstWithKindAt(cs: seq<Node>, k: string, i: nat)
    requires i <= |cs| && (i < |cs| ==> cs[i].kind == k)
    requires forall j :: 0 <= j < i ==> cs[j].kind != k
    ensures FirstWithKind(cs, k) == i
  {
    FirstWithKindIsFirst(cs, k, 0);
  }

  /** `child_by_field_name`: the first child held under field name `r`. */
  function ChildByRole(n: Node, r: string): (c: Option<Node>)
    ensures c.Some? ==> c.value in n.children && c.value.role == Some(r)
  {
    var i := FirstWithRole(n.children, r);
    if i < |n.children| then Some(n.children[i]) else None
  }

  /** A child is found exactly when some child has role `r`. */
  lemma ChildByRoleNone(n: Node, r: string)
    ensures ChildByRole(n, r).None? <==> forall j :: 0 <= j < |n.children| ==> n.children[j].role != Some(r)
  {
    FirstWithRoleIsFirst(n.children, r, 0);
  }

  /** The source text of the child held under `r`, or "" when there is none. */
  function RoleText(n: Node, r: string): string
  {
    match ChildByRole(n, r)
    case Some(c) => c.text
    case None => ""
  }

  /** The nodes a cursor visits when it is placed on the first child of `n` and stepped
      through the siblings: the children, or `n` itself when it has no children (the cursor
      then stays where it was). */
  function CursorItems(n: Node): (items: seq<Node>)
    ensures |items| > 0
    ensures |n.children| > 0 ==> items == n.children
  {
    if |n.children| == 0 then [n] else n.children
  }

  /** Every node of the subtree rooted at `n`, in pre-order (the order of a recursive
      cursor walk: a node, then each child's subtree in turn). */
  function Preorder(n: Node): seq<Node>
    decreases n
  {
    [n] + PreorderSeq(n.children)
  }

  /** The pre-order walks of the trees `cs`, one after the other. */
  function PreorderSeq(cs: seq<Node>): seq<Node>
    decreases cs
  {
    if cs == [] then [] else PreorderSeq(cs[..|cs| - 1]) + Preorder(cs[|cs| - 1])
  }

  /** Step of a loop over the children: one more child appends its subtree's walk. */
  lemma PreorderSeqSnoc(cs: seq<Node>, i: nat)
    requires i < |cs|
    ensures PreorderSeq(cs[..i + 1]) == PreorderSeq(cs[..i]) + Preorder(cs[i])
  {
    assert cs[..i + 1][..i] == cs[..i];
  }

  lemma {:induction false} PreorderSeqConcat(a: seq<Node>, b: seq<Node>)
    ensures PreorderSeq(a + b) == PreorderSeq(a) + PreorderSeq(b)
    decreases |b|
  {
    if b == [] {
      assert a + b == a;
    } else {
      assert (a + b)[..|a + b| - 1] == a + b[..|b| - 1];
      PreorderSeqConcat(a, b[..|b| - 1]);
    }
  }

  /** The walks of `cs` from index `i` on: the walk of `cs[i]`, then those after it. */
  lemma PreorderSeqUncons(cs: seq<Node>, i: nat)
    requires i < |cs|
    ensures PreorderSeq(cs[i..]) == Preorder(cs[i]) + PreorderSeq(cs[i + 1..])
  {
    assert cs[i..] == [cs[i]] + cs[i + 1..];
    PreorderSeqConcat([cs[i]], cs[i + 1..]);
    assert [cs[i]][..0] == [];
  }

  /** The walk of a subtree starts at its root, and every node of a child's subtree is in it. */
  lemma {:induction false} PreorderContainsChildren(n: Node, k: nat)
    requires k < |n.children|
    ensures Preorder(n)[0] == n
    ensures forall v :: v in Preorder(n.children[k]) ==> v in Preorder(n)
  {
    PreorderSeqContains(n.children, k);
  }

  lemma {:induction false} PreorderSeqContains(cs: seq<Node>, k: nat)
    requires k < |cs|
    ensures forall v :: v in Preorder(cs[k]) ==> v in PreorderSeq(cs)
    decreases |cs|
  {
    if k < |cs| - 1 {
      PreorderSeqContains(cs[..|cs| - 1], k);
    }
  }

  /** The height of a tree: the measure by which a type and the types nested in its body
      are computed one inside the other. */
  function Height(n: Node): (h: nat)
    ensures h > 0
    decreases n, 1
  {
    1 + MaxHeight(n.children)
  }

  function MaxHeight(cs: seq<Node>): (h: nat)
    ensures forall k :: 0 <= k < |cs| ==> Height(cs[k]) <= h
    decreases cs, 0
  {
    if cs == [] then 0
    else
      var a := MaxHeight(cs[..|cs| - 1]);
      var b := Height(cs[|cs| - 1]);
      assert forall k :: 0 <= k < |cs| - 1 ==> cs[k] == cs[..|cs| - 1][k];
      if a < b then b else a
  }

  lemma {:induction false} MaxHeightAtMost(cs: seq<Node>, h: nat)
    requires forall k :: 0 <= k < |cs| ==> Height(cs[k]) <= h
    ensures MaxHeight(cs) <= h
    decreases |cs|
  {
    if cs != [] {
      var p := cs[..|cs| - 1];
      assert forall k :: 0 <= k < |p| ==> p[k] == cs[k];
      MaxHeightAtMost(p, h);
    }
  }

  /** `as_bytes()[0].is_ascii_uppercase()`: the first byte of a UTF-8 string is an ASCII
      capital exactly when its first character is one. */
  predicate IsAsciiUpper(c: char)
  {
    'A' <= c <= 'Z'
  }

  predicate StartsWith(s: string, prefix: string)
  {
    |prefix| <= |s| && s[..|prefix|] == prefix
  }

  /** Number of bytes of the UTF-8 encoding of one character. */
  function Utf8Width(c: char): (w: nat)
    ensures 1 <= w <= 4
    ensures w == 1 <==> c as int < 0x80
  {
    if c as int < 0x80 then 1
    else if c as int < 0x800 then 2
    else if c as int < 0x10000 then 3
    else 4
  }

  /** `str::len`: the length in bytes of the UTF-8 encoding of `s`. */
  function Utf8Len(s: string): (r: nat)
    ensures r >= |s|
  {
    if s == [] then 0 else Utf8Width(s[0]) + Utf8Len(s[1..])
  }

  /** The byte length equals the character count exactly for ASCII text. */
  lemma {:induction false} Utf8LenAscii(s: string)
    ensures Utf8Len(s) == |s| <==> forall i :: 0 <= i < |s| ==> s[i] as int < 0x80
  {
    if s != [] {
      Utf8LenAscii(s[1..]);
      assert forall i :: 1 <= i < |s| ==> s[i] == s[1..][i - 1];
    }
  }
}
