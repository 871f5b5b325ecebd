/** The God-Class report of one record: the line of the record itself when it is a
    God Class, then the report of each nested type in turn. */
module Report {
  import opened ClassMetrics

  /** What `dump_god_class` prints for `c`, one line number per printed `path:line:`. */
  function GodLines(c: ClassSummary): seq<nat>
    decreases c
  {
    (if c.isGod then [c.line] else []) + GodLinesSeq(c.nested)
  }

  function GodLinesSeq(cs: seq<ClassSummary>): seq<nat>
    decreases cs
  {
    if cs == [] then [] else GodLinesSeq(cs[..|cs| - 1]) + GodLines(cs[|cs| - 1])
  }

  // ---------------------------------------------------------------------------
  // A reference definition: every record of the tree, then the God Classes among them
  // ---------------------------------------------------------------------------

  /** Every record of the tree rooted at `c`, in pre-order. */
  function Flatten(c: ClassSummary): seq<ClassSummary>
    decreases c
  {
    [c] + FlattenSeq(c.nested)
  }

  function FlattenSeq(cs: seq<ClassSummary>): seq<ClassSummary>
    decreases cs
  {
    if cs == [] then [] else FlattenSeq(cs[..|cs| - 1]) + Flatten(cs[|cs| - 1])
  }

  /** The lines of the God Classes among `rs`, in order. */
  function LinesOfGods(rs: seq<ClassSummary>): (lines: seq<nat>)
    ensures |lines| <= |rs|
  {
    if rs == [] then []
    else LinesOfGods(rs[..|rs| - 1]) + (if rs[|rs| - 1].isGod then [rs[|rs| - 1].line] else [])
  }

  lemma {:induction false} LinesOfGodsAppend(a: seq<ClassSummary>, b: seq<ClassSummary>)
    ensures LinesOfGods(a + b) == LinesOfGods(a) + LinesOfGods(b)
    decreases |b|
  {
    if b == [] {
      assert a + b == a;
    } else {
      assert (a + b)[..|a + b| - 1] == a + b[..|b| - 1];
      LinesOfGodsAppend(a, b[..|b| - 1]);
    }
  }

  /** A line is listed exactly when some record among `rs` is a God Class on that line. */
  lemma {:induction false} LinesOfGodsMembers(rs: seq<ClassSummary>, x: nat)
    ensures x in LinesOfGods(rs) <==> exists k :: 0 <= k < |rs| && rs[k].isGod && rs[k].line == x
  {
    if rs != [] {
      var p := rs[..|rs| - 1];
      LinesOfGodsMembers(p, x);
      assert forall k :: 0 <= k < |p| ==> p[k] == rs[k];
    }
  }

  /** The report lists the lines of the God Classes of the whole tree, nested types at any
      depth included, in pre-order. */
  lemma {:induction false} GodLinesAreFlattenedGods(c: ClassSummary)
    ensures GodLines(c) == LinesOfGods(Flatten(c))
    decreases c
  {
    GodLinesSeqAreFlattenedGods(c.nested);
    LinesOfGodsAppend([c], FlattenSeq(c.nested));
    assert [c][..0] == [];
  }

  lemma {:induction false} GodLinesSeqAreFlattenedGods(cs: seq<ClassSummary>)
    ensures GodLinesSeq(cs) == LinesOfGods(FlattenSeq(cs))
    decreases cs
  {
    if cs != [] {
      GodLinesSeqAreFlattenedGods(cs[..|cs| - 1]);
      GodLinesAreFlattenedGods(cs[|cs| - 1]);
      LinesOfGodsAppend(FlattenSeq(cs[..|cs| - 1]), Flatten(cs[|cs| - 1]));
    }
  }

  /** A line is reported exactly when some record of the tree is a God Class on it, and
      no more lines are reported than there are records. */
  lemma GodLinesMembers(c: ClassSummary, x: nat)
    ensures x in GodLines(c) <==> exists k :: 0 <= k < |Flatten(c)| && Flatten(c)[k].isGod && Flatten(c)[k].line == x
    ensures |GodLines(c)| <= |Flatten(c)|
  {
    GodLinesAreFlattenedGods(c);
    LinesOfGodsMembers(Flatten(c), x);
  }

  /** `dump_god_class` on a record: its own line when it is a God Class, then each nested
      type's report, appended in order. */
  method DumpGodClass(c: ClassSummary) returns (lines: seq<nat>)
    ensures lines == GodLines(c)
    decreases c
  {
    lines := if c.isGod then [c.line] else [];
    for i := 0 to |c.nested|
      invariant lines == (if c.isGod then [c.line] else []) + GodLinesSeq(c.nested[..i])
    {
      var sub := DumpGodClass(c.nested[i]);
      assert c.nested[..i + 1][..i] == c.nested[..i];
      Assoc(if c.isGod then [c.line] else [], GodLinesSeq(c.nested[..i]), sub);
      lines := lines + sub;
    }
    assert c.nested[..|c.nested|] == c.nested;
  }
}
