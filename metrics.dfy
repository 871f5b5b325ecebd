/** The entry point of the metrics engine: the records of the top-level types of one
    compilation unit, and the God-Class report over all of them. */
module Metrics {
  import opened Cst
  import opened ClassMetrics
  import opened Report

  /** Every class or enum declaration at the top of the tree is well formed (the shapes
      `MetricsClass::compute` unwraps). */
  predicate RootWF(root: Node)
  {
    var items := CursorItems(root);
    forall k :: 0 <= k < |items| && IsTypeDeclaration(items[k])
                ==> ClassWF(items[k], items[k].kind == "class_declaration")
  }

  /** The records `Metrics::compute` collects: one per top-level class or enum, in order. */
  function TopSpecs(root: Node): seq<ClassSummary>
  {
    NestedSpecs(CursorItems(root))
  }

  /** What the `dump_god_class` entry point prints for the tree, as line numbers. */
  function GodClassReport(root: Node): seq<nat>
  {
    GodLinesSeq(TopSpecs(root))
  }

  class Metrics {
    var metricsClassList: seq<ClassSummary>

    /** `Metrics::new`. */
    constructor ()
      ensures metricsClassList == []
    {
      metricsClassList := [];
    }

    /** `Metrics::compute`: a record for each class or enum among the root's children. */
    method Compute(root: Node)
      requires RootWF(root) && metricsClassList == []
      modifies this
      ensures metricsClassList == TopSpecs(root)
    {
      var items := CursorItems(root);
      var i := 0;
      while i < |items|
        invariant i <= |items|
        invariant metricsClassList == NestedSpecs(items[..i])
      {
        var item := items[i];
        assert items[..i + 1][..i] == items[..i];
        if IsTypeDeclaration(item) {
          var metrics := new MetricsClass(item.kind == "class_declaration");
          metrics.Compute(item);
          metricsClassList := metricsClassList + [metrics.Summary()];
        }
        i := i + 1;
      }
      assert items[..i] == items;
    }

    /** `Metrics::dump_god_class`: the report of each top-level record in turn. */
    method DumpGodClass() returns (lines: seq<nat>)
      ensures lines == GodLinesSeq(metricsClassList)
    {
      lines := [];
      for i := 0 to |metricsClassList|
        invariant lines == GodLinesSeq(metricsClassList[..i])
      {
        var sub := Report.DumpGodClass(metricsClassList[i]);
        assert metricsClassList[..i + 1][..i] == metricsClassList[..i];
        assert GodLinesSeq(metricsClassList[..i + 1]) == lines + sub;
        lines := lines + sub;
      }
      assert metricsClassList[..|metricsClassList|] == metricsClassList;
    }
  }

  /** The public `dump_god_class`: compute the records of the tree, then report. */
  method DumpGodClassReport(root: Node) returns (lines: seq<nat>)
    requires RootWF(root)
    ensures lines == GodClassReport(root)
  {
    var metrics := new Metrics();
    metrics.Compute(root);
    lines := metrics.DumpGodClass();
  }

  // ---------------------------------------------------------------------------
  // Properties of the report
  // ---------------------------------------------------------------------------

  /** Every record of the forest `cs`, in pre-order. */
  lemma {:induction false} GodLinesSeqMembers(cs: seq<ClassSummary>, x: nat)
    ensures x in GodLinesSeq(cs)
            <==> exists k :: 0 <= k < |FlattenSeq(cs)| && FlattenSeq(cs)[k].isGod && FlattenSeq(cs)[k].line == x
  {
    GodLinesSeqAreFlattenedGods(cs);
    LinesOfGodsMembers(FlattenSeq(cs), x);
  }

  /** A line is in the report exactly when some type of the unit, at any depth, is a
      God Class declared on that line. */
  lemma ReportMembers(root: Node, x: nat)
    ensures x in GodClassReport(root)
            <==> exists k :: 0 <= k < |FlattenSeq(TopSpecs(root))|
                   && FlattenSeq(TopSpecs(root))[k].isGod && FlattenSeq(TopSpecs(root))[k].line == x
  {
    GodLinesSeqMembers(TopSpecs(root), x);
  }

  /** A tree without any class or enum at its top produces no records and an empty report. */
  lemma NoTypesNoReport(root: Node)
    requires forall k :: 0 <= k < |CursorItems(root)| ==> !IsTypeDeclaration(CursorItems(root)[k])
    ensures TopSpecs(root) == [] && GodClassReport(root) == []
  {
    NestedSpecsNone(CursorItems(root));
  }

  lemma {:induction false} NestedSpecsNone(items: seq<Node>)
    requires forall k :: 0 <= k < |items| ==> !IsTypeDeclaration(items[k])
    ensures NestedSpecs(items) == []
  {
    if items != [] {
      var p := items[..|items| - 1];
      assert forall k :: 0 <= k < |p| ==> p[k] == items[k];
      NestedSpecsNone(p);
    }
  }
}
