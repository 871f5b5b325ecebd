/** What the record of one class or enum guarantees: TCC is a fraction in [0, 1], WMC is at
    least the number of methods, the verdict is the three threshold tests, the field list
    is exactly the declarators of the body's field declarations, and ATFD only falls when
    more fields are declared. */
module ClassProperties {
  import opened Cst
  import opened MethodMetrics
  import opened Tcc
  import opened ClassMetrics

  // ---------------------------------------------------------------------------
  // TCC
  // ---------------------------------------------------------------------------

  /** TCC is a fraction between 0 and 1: it is 1 exactly when every pair of considered
      methods shares a field (or there are fewer than two of them and no pair at all is
      cohesive, which the Rust leaves at 0.0), and 0 exactly when no pair does. */
  lemma TccBounds(n: Node, isClass: bool)
    ensures ClassSpec(n, isClass).tccDen > 0
    ensures ClassSpec(n, isClass).tccNum <= ClassSpec(n, isClass).tccDen
    ensures ClassSpec(n, isClass).tccNum == 0
            <==> NoneCohesive(ClassSpec(n, isClass).methods, ClassSpec(n, isClass).name,
                              ClassSpec(n, isClass).fieldNames, |ClassSpec(n, isClass).methods|)
  {
    var c := ClassSpec(n, isClass);
    var k := ConsideredBefore(c.methods, c.name, |c.methods|);
    assert c.tccNum == CohesivePairs(c.methods, c.name, c.fieldNames, |c.methods|);
    assert c.tccDen == TccDivisor(k);
    CohesivePairsBound(c.methods, c.name, c.fieldNames, |c.methods|);
    CohesivePairsZero(c.methods, c.name, c.fieldNames, |c.methods|);
  }

  /** With two or more considered methods, TCC is 1 exactly when every pair of them
      shares a field. */
  lemma TccOne(n: Node, isClass: bool)
    requires ConsideredBefore(ClassSpec(n, isClass).methods, ClassSpec(n, isClass).name,
                              |ClassSpec(n, isClass).methods|) > 1
    ensures ClassSpec(n, isClass).tccNum == ClassSpec(n, isClass).tccDen
            <==> AllCohesive(ClassSpec(n, isClass).methods, ClassSpec(n, isClass).name,
                             ClassSpec(n, isClass).fieldNames, |ClassSpec(n, isClass).methods|)
  {
    var c := ClassSpec(n, isClass);
    var k := ConsideredBefore(c.methods, c.name, |c.methods|);
    assert c.tccNum == CohesivePairs(c.methods, c.name, c.fieldNames, |c.methods|);
    assert c.tccDen == Pairs(k);
    CohesivePairsBound(c.methods, c.name, c.fieldNames, |c.methods|);
  }

  /** With at most one method that is not a constructor, TCC stays 0, so the cohesion test
      of the verdict always passes. */
  lemma TccFewMethods(n: Node, isClass: bool)
    requires ConsideredBefore(ClassSpec(n, isClass).methods, ClassSpec(n, isClass).name,
                              |ClassSpec(n, isClass).methods|) <= 1
    ensures ClassSpec(n, isClass).tccNum == 0 && ClassSpec(n, isClass).tccDen == 1
    ensures ClassSpec(n, isClass).isGod
            <==> ClassSpec(n, isClass).atfd > AtfdMin && ClassSpec(n, isClass).wmc >= WmcMin
  {
    var c := ClassSpec(n, isClass);
    assert c.tccNum == CohesivePairs(c.methods, c.name, c.fieldNames, |c.methods|);
    CohesivePairsFewMethods(c.methods, c.name, c.fieldNames, |c.methods|);
  }

  // ---------------------------------------------------------------------------
  // The verdict
  // ---------------------------------------------------------------------------

  /** The verdict, read over the reals: ATFD above 5, WMC at least 47 and TCC below one third. */
  lemma IsGodOverReals(atfd: nat, wmc: nat, tccNum: nat, tccDen: nat)
    requires tccDen > 0
    ensures IsGod(atfd, wmc, tccNum, tccDen)
            <==> atfd > 5 && wmc >= 47 && (tccNum as real) / (tccDen as real) < 1.0 / 3.0
  {
    var t := (tccNum as real) / (tccDen as real);
    assert t * (tccDen as real) == tccNum as real;
    if tccNum * 3 < tccDen {
      assert (tccNum as real) * 3.0 < tccDen as real;
      assert t * 3.0 * (tccDen as real) < (tccDen as real);
    } else {
      assert (tccNum as real) * 3.0 >= tccDen as real;
      assert t * 3.0 * (tccDen as real) >= (tccDen as real);
    }
  }

  /** The record's verdict is the three threshold tests on its own counts. */
  lemma VerdictOfRecord(n: Node, isClass: bool)
    ensures ClassSpec(n, isClass).isGod
            <==> ClassSpec(n, isClass).atfd > 5 && ClassSpec(n, isClass).wmc >= 47
                 && (ClassSpec(n, isClass).tccNum as real) / (ClassSpec(n, isClass).tccDen as real) < 1.0 / 3.0
  {
    var c := ClassSpec(n, isClass);
    TccBounds(n, isClass);
    assert c.isGod == IsGod(c.atfd, c.wmc, c.tccNum, c.tccDen);
    IsGodOverReals(c.atfd, c.wmc, c.tccNum, c.tccDen);
  }

  // ---------------------------------------------------------------------------
  // WMC
  // ---------------------------------------------------------------------------

  /** Every method record has complexity at least one. */
  lemma {:induction false} MethodSpecsComplexity(items: seq<Node>)
    ensures forall k :: 0 <= k < |MethodSpecs(items)| ==> MethodSpecs(items)[k].cyclomatic >= 1
  {
    if items != [] {
      var p := items[..|items| - 1];
      MethodSpecsComplexity(p);
      var last := items[|items| - 1];
      if IsMethodDeclaration(last) {
        BaseComplexity(last);
        assert MethodSpecs(items) == MethodSpecs(p) + [MethodSpec(last)];
      }
    }
  }

  /** A sum of complexities that are each at least one is at least the number of terms,
      and equals it exactly when every term is one. */
  lemma {:induction false} SumCyclomaticAtLeastCount(ms: seq<MethodSummary>)
    requires forall k :: 0 <= k < |ms| ==> ms[k].cyclomatic >= 1
    ensures SumCyclomatic(ms) >= |ms|
    ensures SumCyclomatic(ms) == |ms| <==> forall k :: 0 <= k < |ms| ==> ms[k].cyclomatic == 1
  {
    if ms != [] {
      var p := ms[..|ms| - 1];
      assert forall k :: 0 <= k < |p| ==> p[k] == ms[k];
      SumCyclomaticAtLeastCount(p);
    }
  }

  /** WMC counts each method at least once, and exactly once when none of them branches. */
  lemma WmcAtLeastMethods(n: Node, isClass: bool)
    ensures ClassSpec(n, isClass).wmc >= |ClassSpec(n, isClass).methods|
    ensures ClassSpec(n, isClass).wmc == |ClassSpec(n, isClass).methods|
            <==> forall k :: 0 <= k < |ClassSpec(n, isClass).methods| ==> ClassSpec(n, isClass).methods[k].cyclomatic == 1
  {
    var c := ClassSpec(n, isClass);
    var items := Items(n, isClass);
    assert c.methods == MethodSpecs(items);
    assert c.wmc == SumCyclomatic(c.methods);
    MethodSpecsComplexity(items);
    SumCyclomaticAtLeastCount(c.methods);
  }

  // ---------------------------------------------------------------------------
  // The members of the body
  // ---------------------------------------------------------------------------

  /** A name is in the field list exactly when some field declaration among the members
      has a declarator of that name. */
  lemma {:induction false} DeclaredFieldsMembers(items: seq<Node>, x: string)
    ensures x in DeclaredFields(items)
            <==> exists i, j :: 0 <= i < |items| && items[i].kind == "field_declaration"
                   && 0 <= j < |items[i].children| && items[i].children[j].role == Some("declarator")
                   && RoleText(items[i].children[j], "name") == x
  {
    if items != [] {
      var p := items[..|items| - 1];
      var last := items[|items| - 1];
      DeclaredFieldsMembers(p, x);
      if last.kind == "field_declaration" {
        DeclaratorNamesMembers(last.children, x);
      }
      if x in DeclaredFields(items) && x !in DeclaredFields(p) {
        assert last.kind == "field_declaration";
        var j :| 0 <= j < |last.children| && last.children[j].role == Some("declarator")
                 && RoleText(last.children[j], "name") == x;
        assert items[|items| - 1].children[j] == last.children[j];
      }
      if x !in DeclaredFields(items) {
        forall i, j | 0 <= i < |items| && items[i].kind == "field_declaration"
                      && 0 <= j < |items[i].children| && items[i].children[j].role == Some("declarator")
          ensures RoleText(items[i].children[j], "name") != x
        {
          if i < |p| {
            assert items[i] == p[i];
          }
        }
      } else if x in DeclaredFields(p) {
        var i, j :| 0 <= i < |p| && p[i].kind == "field_declaration"
                    && 0 <= j < |p[i].children| && p[i].children[j].role == Some("declarator")
                    && RoleText(p[i].children[j], "name") == x;
        assert items[i] == p[i];
      }
    }
  }

  /** A name is among the declarator names exactly when some declarator child carries it. */
  lemma {:induction false} DeclaratorNamesMembers(cs: seq<Node>, x: string)
    ensures x in DeclaratorNames(cs)
            <==> exists j :: 0 <= j < |cs| && cs[j].role == Some("declarator") && RoleText(cs[j], "name") == x
  {
    if cs != [] {
      var p := cs[..|cs| - 1];
      DeclaratorNamesMembers(p, x);
      assert forall j :: 0 <= j < |p| ==> p[j] == cs[j];
    }
  }

  /** The record's field list holds exactly the declarator names of the field declarations
      the body walk visits. */
  lemma FieldNamesOfRecord(n: Node, isClass: bool, x: string)
    ensures x in ClassSpec(n, isClass).fieldNames
            <==> exists i, j :: 0 <= i < |Items(n, isClass)| && Items(n, isClass)[i].kind == "field_declaration"
                   && 0 <= j < |Items(n, isClass)[i].children|
                   && Items(n, isClass)[i].children[j].role == Some("declarator")
                   && RoleText(Items(n, isClass)[i].children[j], "name") == x
  {
    assert ClassSpec(n, isClass).fieldNames == DeclaredFields(Items(n, isClass));
    DeclaredFieldsMembers(Items(n, isClass), x);
  }

  /** A type whose body walk visits no member has no fields, no methods and no nested
      types, WMC and TCC 0, and is never a God Class. */
  lemma NoMembers(n: Node, isClass: bool)
    requires Items(n, isClass) == []
    ensures ClassSpec(n, isClass).fieldNames == [] && ClassSpec(n, isClass).methods == []
    ensures ClassSpec(n, isClass).nested == []
    ensures ClassSpec(n, isClass).wmc == 0 && ClassSpec(n, isClass).tccNum == 0
    ensures !ClassSpec(n, isClass).isGod
  {
    var c := ClassSpec(n, isClass);
    assert c.methods == MethodSpecs([]);
    assert c.wmc == SumCyclomatic(c.methods);
  }

  /** An enum whose body holds no `enum_body_declarations` (only constants) gets no member
      at all: the enum's walk finds nothing to hand to `walk_body`. */
  lemma EnumConstantsOnly(n: Node, body: Node)
    requires ChildByRole(n, "body") == Some(body)
    requires body.kind != "enum_body_declarations"
    requires forall k :: 0 <= k < |body.children| ==> body.children[k].kind != "enum_body_declarations"
    ensures Items(n, false) == []
    ensures ClassSpec(n, false).methods == [] && ClassSpec(n, false).wmc == 0
    ensures !ClassSpec(n, false).isGod
  {
    var scan := CursorItems(body);
    FirstWithKindAt(scan, "enum_body_declarations", |scan|);
    NoMembers(n, false);
  }

  // ---------------------------------------------------------------------------
  // ATFD
  // ---------------------------------------------------------------------------

  /** Declaring more fields can only lower ATFD: an access to a declared field is not
      foreign. */
  lemma {:induction false} AtfdCountAntitone(s: seq<Node>, f: seq<string>, g: seq<string>)
    requires forall x :: x in f ==> x in g
    ensures AtfdCount(s, g) <= AtfdCount(s, f)
  {
    if s != [] {
      AtfdCountAntitone(s[..|s| - 1], f, g);
      var v := s[|s| - 1];
      if AtfdHit(v, g) && ForeignFieldAccess(v, g) {
        assert ForeignFieldAccess(v, f);
      }
    }
  }

  /** ATFD of a subtree is at most its number of nodes, and 0 exactly when no node of it is
      a foreign access. */
  lemma {:induction false} AtfdCountBounds(s: seq<Node>, f: seq<string>)
    ensures AtfdCount(s, f) <= |s|
    ensures AtfdCount(s, f) == 0 <==> forall k :: 0 <= k < |s| ==> !AtfdHit(s[k], f)
  {
    if s != [] {
      var p := s[..|s| - 1];
      AtfdCountBounds(p, f);
      assert forall k :: 0 <= k < |p| ==> p[k] == s[k];
    }
  }

  lemma AtfdAntitone(n: Node, f: seq<string>, g: seq<string>)
    requires forall x :: x in f ==> x in g
    ensures Atfd(n, g) <= Atfd(n, f)
  {
    AtfdCountAntitone(Preorder(n), f, g);
  }

  /** ATFD counts the whole subtree: a child's subtree never counts more than its parent's
      (so a nested type's foreign accesses also count for the type around it). */
  lemma AtfdChildBound(n: Node, k: nat, f: seq<string>)
    requires k < |n.children|
    ensures Atfd(n.children[k], f) <= Atfd(n, f)
  {
    var cs := n.children;
    assert cs == cs[..k] + [cs[k]] + cs[k + 1..];
    PreorderSeqConcat(cs[..k] + [cs[k]], cs[k + 1..]);
    PreorderSeqConcat(cs[..k], [cs[k]]);
    assert [cs[k]][..0] == [];
    var a := PreorderSeq(cs[..k]);
    var b := Preorder(cs[k]);
    var c := PreorderSeq(cs[k + 1..]);
    assert Preorder(n) == [n] + (a + b + c);
    AtfdCountAppend([n], a + b + c, f);
    AtfdCountAppend(a + b, c, f);
    AtfdCountAppend(a, b, f);
  }
}
