/** Metrics of one class or enum declaration: its declared fields, its methods, the types
    nested in its body, and the derived ATFD, WMC, TCC and God-Class verdict. */
module ClassMetrics {
  import opened Cst
  import opened MethodMetrics
  import opened Tcc

  // ---------------------------------------------------------------------------
  // Thresholds of `compute_is_god`
  // ---------------------------------------------------------------------------

  /** ATFD must exceed this. */
  const AtfdMin: nat := 5
  /** WMC must reach this. */
  const WmcMin: nat := 47
  /** TCC must stay below TccMaxNum / TccMaxDen, that is below one third. */
  const TccMaxNum: nat := 1
  const TccMaxDen: nat := 3

  /** The verdict for the given counts, with TCC given as the fraction tccNum / tccDen. */
  predicate IsGod(atfd: nat, wmc: nat, tccNum: nat, tccDen: nat)
  {
    atfd > AtfdMin && wmc >= WmcMin && tccNum * TccMaxDen < TccMaxNum * tccDen
  }

  // ---------------------------------------------------------------------------
  // The body walk
  // ---------------------------------------------------------------------------

  predicate IsTypeDeclaration(v: Node)
  {
    v.kind == "class_declaration" || v.kind == "enum_declaration"
  }

  predicate IsMethodDeclaration(v: Node)
  {
    v.kind == "constructor_declaration" || v.kind == "method_declaration"
  }

  /** The members an enum's body walk visits: those of the first `enum_body_declarations`
      among the body's children, none when there is no such child. (A childless
      declarations node leaves the cursor on itself, so the walk goes on over it and its
      later siblings.) */
  function EnumItems(body: Node): (items: seq<Node>)
    ensures forall k :: 0 <= k < |items| ==> Height(items[k]) <= Height(body)
  {
    var scan := CursorItems(body);
    var k := FirstWithKind(scan, "enum_body_declarations");
    if k == |scan| then []
    else if |scan[k].children| > 0 then scan[k].children
    else scan[k..]
  }

  /** The members the body walk of declaration `n` visits, in source order. */
  function Items(n: Node, isClass: bool): (items: seq<Node>)
    ensures MaxHeight(items) < Height(n)
  {
    match ChildByRole(n, "body")
    case None => []
    case Some(body) =>
      var items := if isClass then CursorItems(body) else EnumItems(body);
      MaxHeightAtMost(items, Height(body));
      items
  }

  /** The names of the `declarator` children of one field declaration, in order. */
  function DeclaratorNames(cs: seq<Node>): seq<string>
  {
    if cs == [] then []
    else
      DeclaratorNames(cs[..|cs| - 1])
      + (if cs[|cs| - 1].role == Some("declarator") then [RoleText(cs[|cs| - 1], "name")] else [])
  }

  /** `field_name_list`: the declarator names of every field declaration among `items`. */
  function DeclaredFields(items: seq<Node>): seq<string>
  {
    if items == [] then []
    else
      DeclaredFields(items[..|items| - 1])
      + (if items[|items| - 1].kind == "field_declaration" then DeclaratorNames(items[|items| - 1].children) else [])
  }

  /** `metrics_method_list`: one record per method or constructor among `items`. */
  function MethodSpecs(items: seq<Node>): seq<MethodSummary>
  {
    if items == [] then []
    else
      MethodSpecs(items[..|items| - 1])
      + (if IsMethodDeclaration(items[|items| - 1]) then [MethodSpec(items[|items| - 1])] else [])
  }

  // ---------------------------------------------------------------------------
  // ATFD: access to foreign data
  // ---------------------------------------------------------------------------

  /** `is_static`: the object's text begins with an ASCII capital (a type name). */
  predicate IsStatic(objectText: string)
  {
    |objectText| > 0 && IsAsciiUpper(objectText[0])
  }

  /** A field access read off another object: not through `this` or `super`, not through a
      type name, and not of a field the type itself declares. */
  predicate ForeignFieldAccess(v: Node, fields: seq<string>)
  {
    v.kind == "field_access"
    && RoleText(v, "object") != "this" && RoleText(v, "object") != "super"
    && !IsStatic(RoleText(v, "object"))
    && RoleText(v, "field") !in fields
  }

  /** A getter (`get…`/`is…` with the argument text `()`, two bytes long) or a setter
      (`set…` with a longer argument text) called on some object other than `this`. */
  predicate ForeignAccessorCall(v: Node)
  {
    v.kind == "method_invocation"
    && match ChildByRole(v, "object")
       case None => false
       case Some(obj) =>
         var name := RoleText(v, "name");
         var argLen := Utf8Len(RoleText(v, "arguments"));
         obj.kind != "this"
         && (((StartsWith(name, "get") || StartsWith(name, "is")) && argLen == 2)
             || (StartsWith(name, "set") && argLen > 2))
  }

  predicate AtfdHit(v: Node, fields: seq<string>)
  {
    ForeignFieldAccess(v, fields) || ForeignAccessorCall(v)
  }

  function AtfdCount(s: seq<Node>, fields: seq<string>): nat
  {
    if s == [] then 0
    else AtfdCount(s[..|s| - 1], fields) + (if AtfdHit(s[|s| - 1], fields) then 1 else 0)
  }

  /** ATFD of the subtree rooted at `n`, nested types included. */
  function Atfd(n: Node, fields: seq<string>): nat
  {
    AtfdCount(Preorder(n), fields)
  }

  /** `wmc`: the sum of the methods' complexities. */
  function SumCyclomatic(ms: seq<MethodSummary>): nat
  {
    if ms == [] then 0 else SumCyclomatic(ms[..|ms| - 1]) + ms[|ms| - 1].cyclomatic
  }

  // ---------------------------------------------------------------------------
  // The finished record and its specification
  // ---------------------------------------------------------------------------

  /** What `MetricsClass` holds once computed; `tcc` is the fraction tccNum / tccDen. */
  datatype ClassSummary = ClassSummary(
    name: string, isClass: bool, atfd: nat, wmc: nat, tccNum: nat, tccDen: nat, isGod: bool,
    fieldNames: seq<string>, nested: seq<ClassSummary>, methods: seq<MethodSummary>, line: nat)

  /** The record `MetricsClass::new(isClass)` holds. */
  function InitialSummary(isClass: bool): ClassSummary
  {
    ClassSummary("", isClass, 0, 0, 0, 1, false, [], [], [], 0)
  }

  /** The one-based line of the declaration's name. */
  function NameLine(n: Node): nat
  {
    match ChildByRole(n, "name")
    case Some(c) => c.row + 1
    case None => 0
  }

  /** The record `MetricsClass::new(isClass)` followed by `compute` produces for
      declaration `n`. */
  function ClassSpec(n: Node, isClass: bool): ClassSummary
    decreases Height(n), 1
  {
    var name := RoleText(n, "name");
    var items := Items(n, isClass);
    var fields := DeclaredFields(items);
    var methods := MethodSpecs(items);
    var atfd := Atfd(n, fields);
    var wmc := SumCyclomatic(methods);
    var num := CohesivePairs(methods, name, fields, |methods|);
    var den := TccDivisor(ConsideredBefore(methods, name, |methods|));
    ClassSummary(name, isClass, atfd, wmc, num, den, IsGod(atfd, wmc, num, den),
                 fields, NestedSpecs(items), methods, NameLine(n))
  }

  /** `metrics_class_list`: one record per class or enum declaration among `items`. */
  function NestedSpecs(items: seq<Node>): seq<ClassSummary>
    decreases MaxHeight(items), 2, |items|
  {
    if items == [] then []
    else
      var last := items[|items| - 1];
      NestedSpecs(items[..|items| - 1])
      + (if IsTypeDeclaration(last) then [ClassSpec(last, last.kind == "class_declaration")] else [])
  }

  // ---------------------------------------------------------------------------
  // What the Rust unwraps: the shapes a declaration must have
  // ---------------------------------------------------------------------------

  /** A field access has an object with non-empty text and a field; a method call on an
      object has a name and arguments. */
  predicate AtfdNodeWF(v: Node)
  {
    (v.kind == "field_access" ==>
       ChildByRole(v, "object").Some? && |ChildByRole(v, "object").value.text| > 0
       && ChildByRole(v, "field").Some?)
    && (v.kind == "method_invocation" && ChildByRole(v, "object").Some? ==>
          ChildByRole(v, "name").Some? && ChildByRole(v, "arguments").Some?)
  }

  predicate AtfdWF(n: Node)
    decreases n
  {
    AtfdNodeWF(n) && forall k :: 0 <= k < |n.children| ==> AtfdWF(n.children[k])
  }

  /** A declaration has a name and a body; every member the body walk reaches is well formed. */
  predicate ClassWF(n: Node, isClass: bool)
    decreases Height(n), 1
  {
    ChildByRole(n, "name").Some? && ChildByRole(n, "body").Some? && AtfdWF(n)
    && var items := Items(n, isClass);
       forall k :: 0 <= k < |items| ==> ItemWF(items[k])
  }

  /** A field declaration has children and each of its declarators a name; a method is well
      formed; a nested type is well formed. */
  predicate ItemWF(v: Node)
    decreases Height(v), 2
  {
    (v.kind == "field_declaration" ==>
       |v.children| > 0
       && forall k :: 0 <= k < |v.children| && v.children[k].role == Some("declarator")
                      ==> ChildByRole(v.children[k], "name").Some?)
    && (IsMethodDeclaration(v) ==> MethodWF(v))
    && (IsTypeDeclaration(v) ==> ClassWF(v, v.kind == "class_declaration"))
  }

  // ---------------------------------------------------------------------------
  // The source's imperative computation
  // ---------------------------------------------------------------------------

  class MetricsClass {
    var name: string
    var isClass: bool
    var atfd: nat
    var wmc: nat
    var tccNum: nat
    var tccDen: nat
    var isGod: bool
    var fieldNameList: seq<string>
    var metricsClassList: seq<ClassSummary>
    var metricsMethodList: seq<MethodSummary>
    var line: nat

    /** `MetricsClass::new`. */
    constructor (isClass: bool)
      ensures Summary() == InitialSummary(isClass)
    {
      name := "";
      this.isClass := isClass;
      atfd := 0;
      wmc := 0;
      tccNum := 0;
      tccDen := 1;
      isGod := false;
      fieldNameList := [];
      metricsClassList := [];
      metricsMethodList := [];
      line := 0;
    }

    function Summary(): ClassSummary
      reads this
    {
      ClassSummary(name, isClass, atfd, wmc, tccNum, tccDen, isGod,
                   fieldNameList, metricsClassList, metricsMethodList, line)
    }

    /** `compute`, run (as everywhere in the source) on a record fresh from `new`. */
    method Compute(n: Node)
      requires ClassWF(n, isClass)
      requires Summary() == InitialSummary(isClass)
      modifies this`name, this`line, this`atfd, this`wmc, this`tccNum, this`tccDen, this`isGod
      modifies this`fieldNameList, this`metricsClassList, this`metricsMethodList
      ensures Summary() == ClassSpec(n, isClass)
      decreases Height(n), 3
    {
      ComputeHeader(n);
      assert AtfdWF(n) && atfd == 0 && wmc == 0 && tccNum == 0 && tccDen == 1;
      WalkMembers(n);
      ComputeDerived(n);
    }

    /** The name of the declaration and the line it starts on. */
    method ComputeHeader(n: Node)
      requires ChildByRole(n, "name").Some?
      modifies this`name, this`line
      ensures name == RoleText(n, "name") && line == NameLine(n)
    {
      name := ChildByRole(n, "name").value.text;
      line := ChildByRole(n, "name").value.row + 1;
    }

    /** The four `compute_*` calls that follow the body walk, on the counters `new` left at
        zero (and `tcc` at 0.0, the fraction 0 / 1). */
    method ComputeDerived(n: Node)
      requires AtfdWF(n)
      requires atfd == 0 && wmc == 0 && tccNum == 0 && tccDen == 1
      modifies this`atfd, this`wmc, this`tccNum, this`tccDen, this`isGod
      ensures atfd == Atfd(n, fieldNameList)
      ensures wmc == SumCyclomatic(metricsMethodList)
      ensures tccNum == CohesivePairs(metricsMethodList, name, fieldNameList, |metricsMethodList|)
      ensures tccDen == TccDivisor(ConsideredBefore(metricsMethodList, name, |metricsMethodList|))
      ensures isGod == IsGod(atfd, wmc, tccNum, tccDen)
    {
      ComputeAtfd(n);
      ComputeWmc();
      ComputeTcc();
      ComputeIsGod(5, 47, 1, 3);
    }

    /** The members `compute` hands to `walk_body`: a class's body, or an enum's first
        `enum_body_declarations`, and nothing when an enum has none. */
    method WalkMembers(n: Node)
      requires ChildByRole(n, "body").Some?
      requires forall k :: 0 <= k < |Items(n, isClass)| ==> ItemWF(Items(n, isClass)[k])
      requires fieldNameList == [] && metricsMethodList == [] && metricsClassList == []
      modifies this`fieldNameList, this`metricsMethodList, this`metricsClassList
      ensures fieldNameList == DeclaredFields(Items(n, isClass))
      ensures metricsMethodList == MethodSpecs(Items(n, isClass))
      ensures metricsClassList == NestedSpecs(Items(n, isClass))
      decreases Height(n), 2
    {
      var body := ChildByRole(n, "body").value;
      ghost var items := Items(n, isClass);
      assert items == if isClass then CursorItems(body) else EnumItems(body);
      assert forall k :: 0 <= k < |items| ==> ItemWF(items[k]);
      if isClass {
        WalkBody(CursorItems(body));
      } else {
        var scan := CursorItems(body);
        var i := 0;
        while i < |scan|
          invariant i <= |scan|
          invariant forall j :: 0 <= j < i ==> scan[j].kind != "enum_body_declarations"
          invariant fieldNameList == [] && metricsMethodList == [] && metricsClassList == []
        {
          if scan[i].kind == "enum_body_declarations" {
            FirstWithKindAt(scan, "enum_body_declarations", i);
            var decl := scan[i];
            WalkBody(if |decl.children| > 0 then decl.children else scan[i..]);
            return;
          }
          i := i + 1;
        }
        FirstWithKindAt(scan, "enum_body_declarations", i);
        assert items == [];
      }
    }

    /** `walk_body`: the members of a body, in order, each handled by `WalkItem`. */
    method WalkBody(items: seq<Node>)
      requires forall k :: 0 <= k < |items| ==> ItemWF(items[k])
      modifies this`fieldNameList, this`metricsMethodList, this`metricsClassList
      ensures fieldNameList == old(fieldNameList) + DeclaredFields(items)
      ensures metricsMethodList == old(metricsMethodList) + MethodSpecs(items)
      ensures metricsClassList == old(metricsClassList) + NestedSpecs(items)
      decreases MaxHeight(items), 6
    {
      var i := 0;
      while i < |items|
        invariant i <= |items|
        invariant fieldNameList == old(fieldNameList) + DeclaredFields(items[..i])
        invariant metricsMethodList == old(metricsMethodList) + MethodSpecs(items[..i])
        invariant metricsClassList == old(metricsClassList) + NestedSpecs(items[..i])
      {
        WalkStep(items, i);
        WalkItem(items[i]);
        Assoc(old(fieldNameList), DeclaredFields(items[..i]),
              if items[i].kind == "field_declaration" then DeclaratorNames(items[i].children) else []);
        Assoc(old(metricsMethodList), MethodSpecs(items[..i]),
              if IsMethodDeclaration(items[i]) then [MethodSpec(items[i])] else []);
        Assoc(old(metricsClassList), NestedSpecs(items[..i]),
              if IsTypeDeclaration(items[i]) then [ClassSpec(items[i], items[i].kind == "class_declaration")] else []);
        i := i + 1;
      }
      assert items[..i] == items;
    }

    /** One arm of the `match` in `walk_body`: a nested class or enum is computed and its
        record appended, likewise a method or constructor; a field declaration appends the
        name of each of its declarators; any other member is passed over. */
    method WalkItem(item: Node)
      requires ItemWF(item)
      modifies this`fieldNameList, this`metricsMethodList, this`metricsClassList
      ensures fieldNameList == old(fieldNameList)
                + (if item.kind == "field_declaration" then DeclaratorNames(item.children) else [])
      ensures metricsMethodList == old(metricsMethodList)
                + (if IsMethodDeclaration(item) then [MethodSpec(item)] else [])
      ensures metricsClassList == old(metricsClassList)
                + (if IsTypeDeclaration(item) then [ClassSpec(item, item.kind == "class_declaration")] else [])
      decreases Height(item), 5
    {
      if IsTypeDeclaration(item) {
        WalkNestedType(item);
      } else if IsMethodDeclaration(item) {
        WalkMethod(item);
      } else if item.kind == "field_declaration" {
        WalkDeclarators(item);
      }
    }

    /** The type-declaration arm: a record computed for the nested type, appended. */
    method WalkNestedType(item: Node)
      requires IsTypeDeclaration(item) && ClassWF(item, item.kind == "class_declaration")
      modifies this`metricsClassList
      ensures metricsClassList == old(metricsClassList) + [ClassSpec(item, item.kind == "class_declaration")]
      decreases Height(item), 4
    {
      var metrics := new MetricsClass(item.kind == "class_declaration");
      metrics.Compute(item);
      metricsClassList := metricsClassList + [metrics.Summary()];
    }

    /** The method-declaration arm: a record computed for the method, appended. */
    method WalkMethod(item: Node)
      requires MethodWF(item)
      modifies this`metricsMethodList
      ensures metricsMethodList == old(metricsMethodList) + [MethodSpec(item)]
    {
      var metrics := new MetricsMethod();
      metrics.Compute(item);
      metricsMethodList := metricsMethodList + [metrics.Summary()];
    }

    /** The `field_declaration` arm: the name of each child held as a `declarator`. */
    method WalkDeclarators(item: Node)
      requires forall k :: 0 <= k < |item.children| && item.children[k].role == Some("declarator")
                 ==> ChildByRole(item.children[k], "name").Some?
      modifies this`fieldNameList
      ensures fieldNameList == old(fieldNameList) + DeclaratorNames(item.children)
    {
      var j := 0;
      while j < |item.children|
        invariant j <= |item.children|
        invariant fieldNameList == old(fieldNameList) + DeclaratorNames(item.children[..j])
      {
        ghost var names := DeclaratorNames(item.children[..j]);
        if item.children[j].role == Some("declarator") {
          var fieldName := ChildByRole(item.children[j], "name").value.text;
          fieldNameList := fieldNameList + [fieldName];
          Assoc(old(fieldNameList), names, [fieldName]);
        }
        assert item.children[..j + 1][..j] == item.children[..j];
        j := j + 1;
      }
      assert item.children[..j] == item.children;
    }

    /** `compute_atfd`: one for each foreign field access or foreign accessor call in the
        subtree rooted at `n`, then the same for each child's subtree in turn. */
    method ComputeAtfd(n: Node)
      requires AtfdWF(n)
      modifies this`atfd
      ensures atfd == old(atfd) + Atfd(n, fieldNameList)
      decreases n
    {
      CountForeignAccess(n);
      AtfdCountOne(n, fieldNameList);
      var i := 0;
      while i < |n.children|
        invariant i <= |n.children|
        invariant atfd == old(atfd) + AtfdCount([n], fieldNameList) + AtfdCount(PreorderSeq(n.children[..i]), fieldNameList)
      {
        ComputeAtfd(n.children[i]);
        PreorderSeqSnoc(n.children, i);
        AtfdCountAppend(PreorderSeq(n.children[..i]), Preorder(n.children[i]), fieldNameList);
        i := i + 1;
      }
      assert n.children[..i] == n.children;
      AtfdCountAppend([n], PreorderSeq(n.children), fieldNameList);
    }

    /** The `match` at the head of `compute_atfd`: the increment node `n` itself gives. */
    method CountForeignAccess(n: Node)
      requires AtfdNodeWF(n)
      modifies this`atfd
      ensures atfd == old(atfd) + (if AtfdHit(n, fieldNameList) then 1 else 0)
    {
      if n.kind == "field_access" {
        var objectName := ChildByRole(n, "object").value.text;
        var fieldName := ChildByRole(n, "field").value.text;
        var isStatic := IsAsciiUpper(objectName[0]);
        assert isStatic == IsStatic(RoleText(n, "object"));
        if objectName != "this" && objectName != "super" && !isStatic && fieldName !in fieldNameList {
          atfd := atfd + 1;
        }
      } else if n.kind == "method_invocation" {
        var objectNode := ChildByRole(n, "object");
        if objectNode.Some? {
          var objectName := objectNode.value.kind;
          var methodName := ChildByRole(n, "name").value.text;
          var methodArgs := ChildByRole(n, "arguments").value.text;
          assert methodName == RoleText(n, "name") && methodArgs == RoleText(n, "arguments");
          var isGetter := (StartsWith(methodName, "get") || StartsWith(methodName, "is")) && Utf8Len(methodArgs) == 2;
          var isSetter := StartsWith(methodName, "set") && Utf8Len(methodArgs) > 2;
          if objectName != "this" && (isGetter || isSetter) {
            atfd := atfd + 1;
          }
        }
      }
    }

    /** `compute_wmc`: adds up the methods' complexities. */
    method ComputeWmc()
      modifies this`wmc
      ensures wmc == old(wmc) + SumCyclomatic(metricsMethodList)
    {
      var i := 0;
      while i < |metricsMethodList|
        invariant i <= |metricsMethodList|
        invariant wmc == old(wmc) + SumCyclomatic(metricsMethodList[..i])
      {
        assert metricsMethodList[..i + 1][..i] == metricsMethodList[..i];
        wmc := wmc + metricsMethodList[i].cyclomatic;
        i := i + 1;
      }
      assert metricsMethodList[..i] == metricsMethodList;
    }

    /** `compute_tcc`: one added to `tcc` per cohesive pair, then `tcc` divided by the
        number of pairs when there are at least two considered methods. */
    method ComputeTcc()
      modifies this`tccNum, this`tccDen
      ensures tccNum == old(tccNum) + old(tccDen) * CohesivePairs(metricsMethodList, name, fieldNameList, |metricsMethodList|)
      ensures tccDen == old(tccDen) * TccDivisor(ConsideredBefore(metricsMethodList, name, |metricsMethodList|))
    {
      var ms := metricsMethodList;
      var n := |ms|;
      var numMethod := 0;
      for i := 0 to n
        invariant numMethod == ConsideredBefore(ms, name, i)
        invariant tccDen == old(tccDen)
        invariant tccNum == old(tccNum) + tccDen * CohesivePairs(ms, name, fieldNameList, i)
      {
        if ms[i].name == name {
          continue;
        }
        numMethod := numMethod + 1;
        var usage1 := FieldUsage(ms[i], fieldNameList);
        CountCohesiveRow(i, usage1);
        MulAdd(tccDen, CohesivePairs(ms, name, fieldNameList, i), CohesiveInRow(ms, name, fieldNameList, i, i));
      }
      DivideByPairs(numMethod);
    }

    /** The division that ends `compute_tcc`: by the number of pairs of the `k` considered
        methods, once there are at least two of them. */
    method DivideByPairs(k: nat)
      modifies this`tccDen
      ensures tccDen == old(tccDen) * TccDivisor(k)
    {
      if k > 1 {
        tccDen := tccDen * (k * (k - 1) / 2);
      }
    }

    /** The inner loop of `compute_tcc`: one added to `tcc` for each earlier considered
        method whose field usage meets `usage1`, the usage of method `i`. */
    method CountCohesiveRow(i: nat, usage1: set<string>)
      requires i < |metricsMethodList| && usage1 == FieldUsage(metricsMethodList[i], fieldNameList)
      modifies this`tccNum
      ensures tccNum == old(tccNum) + tccDen * CohesiveInRow(metricsMethodList, name, fieldNameList, i, i)
    {
      for j := 0 to i
        invariant tccNum == old(tccNum) + tccDen * CohesiveInRow(metricsMethodList, name, fieldNameList, i, j)
      {
        if metricsMethodList[j].name == name {
          continue;
        }
        var usage2 := FieldUsage(metricsMethodList[j], fieldNameList);
        if usage1 * usage2 != {} {
          MulAdd(tccDen, CohesiveInRow(metricsMethodList, name, fieldNameList, i, j), 1);
          tccNum := tccNum + tccDen;
        }
      }
    }

    /** `compute_is_god`, with the TCC ceiling given as the fraction tccMaxNum / tccMaxDen. */
    method ComputeIsGod(atfdMin: nat, wmcMin: nat, tccMaxNum: nat, tccMaxDen: nat)
      modifies this`isGod
      ensures isGod <==> atfd > atfdMin && wmc >= wmcMin && tccNum * tccMaxDen < tccMaxNum * tccDen
    {
      isGod := atfd > atfdMin && wmc >= wmcMin && tccNum * tccMaxDen < tccMaxNum * tccDen;
    }
  }

  // ---------------------------------------------------------------------------
  // Lemmas
  // ---------------------------------------------------------------------------

  /** One more member of the body extends each list by what that member contributes. */
  lemma WalkStep(items: seq<Node>, i: nat)
    requires i < |items|
    ensures DeclaredFields(items[..i + 1]) == DeclaredFields(items[..i])
              + (if items[i].kind == "field_declaration" then DeclaratorNames(items[i].children) else [])
    ensures MethodSpecs(items[..i + 1]) == MethodSpecs(items[..i])
              + (if IsMethodDeclaration(items[i]) then [MethodSpec(items[i])] else [])
    ensures NestedSpecs(items[..i + 1]) == NestedSpecs(items[..i])
              + (if IsTypeDeclaration(items[i]) then [ClassSpec(items[i], items[i].kind == "class_declaration")] else [])
  {
    assert items[..i + 1][..i] == items[..i];
  }

  lemma Assoc<T>(a: seq<T>, b: seq<T>, c: seq<T>)
    ensures a + b + c == a + (b + c)
  {
  }

  lemma MulAdd(d: nat, x: nat, y: nat)
    ensures d * (x + y) == d * x + d * y
  {
  }

  lemma AtfdCountOne(v: Node, fields: seq<string>)
    ensures AtfdCount([v], fields) == if AtfdHit(v, fields) then 1 else 0
  {
    assert [v][..0] == [];
  }

  lemma {:induction false} AtfdCountAppend(a: seq<Node>, b: seq<Node>, fields: seq<string>)
    ensures AtfdCount(a + b, fields) == AtfdCount(a, fields) + AtfdCount(b, fields)
    decreases |b|
  {
    if b == [] {
      assert a + b == a;
    } else {
      assert (a + b)[..|a + b| - 1] == a + b[..|b| - 1];
      AtfdCountAppend(a, b[..|b| - 1], fields);
    }
  }
}
