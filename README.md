# gc_sniffer metrics engine in Dafny

gc_sniffer reads a Java compilation unit and prints the line of every class or enum
that is a *God Class*. It decides this from three measures of each class or enum it
records: the top-level ones and those nested in their bodies:

- ATFD (access to foreign data): field reads and getter/setter calls on other objects;
- WMC (weighted methods per class): the sum of the cyclomatic complexities of the
  type's methods and constructors;
- TCC (tight class cohesion): the share of pairs of methods that use a common
  declared field.

A type is a God Class when ATFD > 5, WMC >= 47 and TCC < 1/3.

This project models the metrics engine of `src/metrics.rs`. It covers the three
builder structs `Metrics`, `MetricsClass` and `MetricsMethod` with their in-place
computations, and the public `dump_god_class` entry point. The concrete syntax tree
the parser produces is the input. A tree node is a datatype (`Cst.Node`) with:

- its grammar kind;
- the exact source text of its span;
- its starting row;
- the field name under which its parent holds it;
- its children.

Each builder is a `class` whose methods update its fields as the Rust does. Each
method is proved against a specification function of the tree:

- `MethodMetrics.MethodSpec` for a method;
- `ClassMetrics.ClassSpec` for a type;
- `Metrics.GodClassReport` for the whole report.

The lemmas state what those functions promise. A record pushed into its parent's
`Vec` (a Rust move) becomes an immutable snapshot (`MethodSummary`,
`ClassSummary`).

Files:

- `cst.dfy`: the tree and the queries the engine uses (`child_by_field_name`, a
  cursor's sibling walk, pre-order, UTF-8 byte length).
- `method_metrics.dfy`: cyclomatic complexity, the condition operator count, and the
  usage set of one method.
- `method_examples.dfy`: two worked methods.
- `tcc.dfy`: cohesive-pair counting.
- `class_metrics.dfy`: one class or enum record and its computation.
- `class_properties.dfy`: what a record guarantees.
- `report.dfy`: the report of one record.
- `metrics.dfy`: the entry point.

Modelling choices:

- `tcc` is the exact fraction `tccNum / tccDen`. `tcc += 1.0` adds the denominator to
  the numerator. `tcc /= d` multiplies the denominator. The test `tcc < 1.0 / 3.0`
  becomes `3 * tccNum < tccDen` (`ClassMetrics.IsGod`).
- Every `unwrap()` of a missing child becomes a precondition on the tree's shape
  (`CycloWF`, `UsageWF`, `MethodWF`, `AtfdWF`, `ClassWF`, `ItemWF`, `RootWF`). The
  specification functions are total.
- A `TreeCursor` walk becomes a loop or recursion over `children`. A cursor placed
  on a node without children stays on that node (`Cst.CursorItems`). For an
  `enum_body_declarations` without children, the walk goes on over that node and
  its later siblings (`ClassMetrics.EnumItems`).
- `str::len` is the UTF-8 byte length (`Cst.Utf8Len`).
- `is_ascii_uppercase` of the first byte is `'A' <= c <= 'Z'` on the first character.
  A non-ASCII character's first byte is never an ASCII capital.
- Records exist only for `class_declaration` and `enum_declaration` nodes that are
  children of the root, or members of a recorded class body or of the
  `enum_body_declarations` of a recorded enum. Interfaces, records and annotation
  types get no record, and neither does any type nested in them. Classes declared
  inside a method, constructor or initializer get none, and anonymous classes get none.
- The report is the sequence of line numbers printed, in printing order. The
  `path` prefix and the trailing `:` of each line are left to the caller.

Three behaviours of the code worth knowing:

- An `assert_statement` adds nothing to the complexity: the walk returns at it
  without descending. A common convention counts an assert as an implicit branch;
  this code does not.
- The `&&`/`||` search of a condition does not stop at lambdas. An operator inside
  a lambda inside an `if` condition counts
  (`MethodExamples.LambdaInConditionComplexity`). Only the complexity walk itself
  stops at lambdas, asserts and class bodies.
- ATFD walks the whole declaration, nested types included, with the outer type's
  field list. A nested type's foreign accesses therefore count for the type around
  it too (`ClassProperties.AtfdChildBound`).

## Model

| member | source | states |
|---|---|---|
| Cst.ChildByRoleNone | src/metrics.rs:277 | no `condition` child is found exactly when no child is held under that field name |
| Cst.Utf8LenAscii | src/metrics.rs:167-173 | the byte length of the argument text equals its character count exactly when the text is ASCII |
| MethodMetrics.MetricsMethod.constructor | src/metrics.rs:256-262 | a fresh record has the empty name, complexity 1 and an empty usage set |
| MethodMetrics.MetricsMethod.Compute | src/metrics.rs:264-271 | the finished record is the method's name, its cyclomatic complexity and its usage set (`MethodSpec`) |
| MethodMetrics.MetricsMethod.ComputeCyclomatic | src/metrics.rs:273-314 | adds the increments of every node the walk visits: pre-order, skipping the subtree of each lambda, assert and class body |
| MethodMetrics.MetricsMethod.ComputeConditionComplexity | src/metrics.rs:316-331 | adds one per `&&`/`||` node anywhere in the condition's subtree |
| MethodMetrics.MetricsMethod.ComputeUsageField | src/metrics.rs:333-360 | adds the text of every identifier and the field name of every field access of the whole subtree, with no stop points |
| MethodMetrics.BaseComplexity | src/metrics.rs:255-314 | a method's complexity is at least 1, and exactly 1 when no visited node carries an increment |
| MethodMetrics.StraightLineComplexity | src/metrics.rs:273-305 | a method with no branching, looping, switch case, catch, throw or ternary node has complexity 1 |
| MethodMetrics.StopInteriorIrrelevant | src/metrics.rs:298-303 | swapping a stop node outside every condition for another stop node leaves the complexity unchanged |
| MethodMetrics.CycloWalkInPreorder | src/metrics.rs:298-313 | every node the complexity walk reaches lies in the subtree and is not a stop node |
| MethodMetrics.TreeOperatorsCountsPreorder | src/metrics.rs:316-331 | the source's recursive operator count equals the number of `&&`/`||` nodes in the subtree's pre-order |
| MethodMetrics.CyclomaticIsTreeIncrements | src/metrics.rs:273-331 | the walk-based complexity equals one plus the count the source's recursion reaches child by child |
| MethodMetrics.UsageMembers | src/metrics.rs:333-360 | a name is used exactly when some node of the subtree is an identifier with that text or a field access of that field |
| MethodMetrics.UsageCoversChildren | src/metrics.rs:353-359 | every name a child's subtree uses is also used by its parent |
| MethodExamples.IfOnIncrements | src/metrics.rs:275-279 | `if (e) { }` counts one, plus the operators of its condition, plus the increments inside `e` |
| MethodExamples.ElseIfComplexity | src/metrics.rs:273-331 | `void f() { if (a && b) { } else if (c) { } }` has complexity 4 |
| MethodExamples.LambdaInConditionComplexity | src/metrics.rs:273-331 | `void g() { if (xs.any(x -> a && b)) { } }` has complexity 3: the lambda does not hide the `&&` from the condition search |
| Tcc.RowBound | src/metrics.rs:210-221 | a method's cohesive partners before it are at most the considered methods before it; all of them or none of them exactly when it shares a field with all or none |
| Tcc.CohesivePairsCountsSet | src/metrics.rs:201-222 | the two nested loops count exactly the unordered pairs of considered methods that share a declared field |
| Tcc.AllPairsIsPairs | src/metrics.rs:224-226 | `k` considered methods form `k(k-1)/2` pairs, the divisor the source uses |
| Tcc.CohesivePairsBound | src/metrics.rs:197-227 | the cohesive count is at most the number of pairs, with equality exactly when every pair of considered methods is cohesive |
| Tcc.CohesivePairsZero | src/metrics.rs:218-220 | the cohesive count is 0 exactly when no pair of considered methods shares a field |
| Tcc.CohesivePairsFewMethods | src/metrics.rs:224-226 | with fewer than two considered methods no pair is counted |
| ClassMetrics.MetricsClass.constructor | src/metrics.rs:52-65 | a fresh record has empty name and lists, counters at 0, `tcc` 0/1 and no verdict |
| ClassMetrics.MetricsClass.Compute | src/metrics.rs:67-97 | the finished record of a declaration is `ClassSpec`: its name and line, its body's fields, methods and nested types, and ATFD, WMC, TCC and the verdict derived from them |
| ClassMetrics.MetricsClass.ComputeHeader | src/metrics.rs:68-72 | the name is the text of the `name` child, and the line is that child's row plus one |
| ClassMetrics.MetricsClass.WalkMembers | src/metrics.rs:74-91 | a class walks its body; an enum walks only its first `enum_body_declarations` and nothing when there is none |
| ClassMetrics.MetricsClass.ComputeDerived | src/metrics.rs:93-96 | ATFD, WMC, TCC and the verdict are those of the lists the walk built, with thresholds 5, 47 and 1/3 |
| ClassMetrics.MetricsClass.WalkBody | src/metrics.rs:99-138 | each list grows by exactly the field names, method records and nested type records of the members, in member order |
| ClassMetrics.MetricsClass.WalkItem | src/metrics.rs:102-131 | one member extends exactly the list of its kind and leaves the other two alone |
| ClassMetrics.MetricsClass.WalkNestedType | src/metrics.rs:103-107 | a nested class or enum appends its own computed record |
| ClassMetrics.MetricsClass.WalkMethod | src/metrics.rs:108-112 | a method or constructor appends its computed record |
| ClassMetrics.MetricsClass.WalkDeclarators | src/metrics.rs:113-129 | a field declaration appends the name of each `declarator` child, in order |
| ClassMetrics.MetricsClass.ComputeAtfd | src/metrics.rs:140-189 | adds the number of foreign accesses in the whole subtree, counted in pre-order |
| ClassMetrics.MetricsClass.CountForeignAccess | src/metrics.rs:141-180 | adds one when the node is a foreign field access or a getter/setter call on another object, and nothing otherwise |
| ClassMetrics.MetricsClass.ComputeWmc | src/metrics.rs:191-195 | adds the sum of the method records' complexities |
| ClassMetrics.MetricsClass.ComputeTcc | src/metrics.rs:197-227 | `tcc` grows by the number of cohesive pairs and is then divided by the number of pairs when there are at least two considered methods |
| ClassMetrics.MetricsClass.CountCohesiveRow | src/metrics.rs:210-221 | the inner loop adds the number of earlier considered methods whose field usage meets the current one's |
| ClassMetrics.MetricsClass.DivideByPairs | src/metrics.rs:224-226 | the divisor is `k(k-1)/2` once there are two considered methods, and 1 otherwise |
| ClassMetrics.MetricsClass.ComputeIsGod | src/metrics.rs:229-231 | the verdict holds exactly when ATFD exceeds its minimum, WMC reaches its minimum and TCC stays below its ceiling |
| ClassProperties.TccBounds | src/metrics.rs:197-227 | a record's TCC is a fraction with positive denominator between 0 and 1, and it is 0 exactly when no pair of considered methods is cohesive |
| ClassProperties.TccOne | src/metrics.rs:197-227 | with two or more considered methods, TCC is 1 exactly when every pair of them shares a field |
| ClassProperties.TccFewMethods | src/metrics.rs:224-231 | with at most one non-constructor method TCC stays 0, and the verdict is ATFD > 5 and WMC >= 47 alone |
| ClassProperties.IsGodOverReals | src/metrics.rs:229-231 | the integer test on the fraction is the real-valued test ATFD > 5, WMC >= 47, TCC < 1/3 |
| ClassProperties.VerdictOfRecord | src/metrics.rs:93-96 | a record is a God Class exactly when its own ATFD > 5, WMC >= 47 and TCC < 1/3 |
| ClassProperties.MethodSpecsComplexity | src/metrics.rs:108-112 | every method record in a body has complexity at least 1 |
| ClassProperties.SumCyclomaticAtLeastCount | src/metrics.rs:191-195 | a sum of complexities of at least 1 is at least the number of methods, with equality exactly when each is 1 |
| ClassProperties.WmcAtLeastMethods | src/metrics.rs:191-195 | a record's WMC is at least its number of methods, with equality exactly when no method branches |
| ClassProperties.DeclaratorNamesMembers | src/metrics.rs:114-127 | a name is among a field declaration's names exactly when one of its `declarator` children has it |
| ClassProperties.DeclaredFieldsMembers | src/metrics.rs:113-129 | a name is in the field list exactly when some field declaration among the members declares it |
| ClassProperties.FieldNamesOfRecord | src/metrics.rs:74-129 | a record's field list holds exactly the names declared by the field declarations its body walk visits; nested types' fields are excluded |
| ClassProperties.NoMembers | src/metrics.rs:67-97 | a type whose walk visits no member has no fields, methods or nested types, WMC and TCC 0, and is not a God Class |
| ClassProperties.EnumConstantsOnly | src/metrics.rs:80-91 | an enum body without `enum_body_declarations` gets no members, WMC 0 and no verdict |
| ClassProperties.AtfdCountAntitone | src/metrics.rs:154 | declaring more fields can only lower the count, since an access to a declared field is not foreign |
| ClassProperties.AtfdAntitone | src/metrics.rs:140-189 | a subtree's ATFD can only fall when the field list grows |
| ClassProperties.AtfdCountBounds | src/metrics.rs:140-189 | ATFD is at most the number of nodes visited, and 0 exactly when none is a foreign access |
| ClassProperties.AtfdChildBound | src/metrics.rs:182-188 | a child's subtree never counts more foreign accesses than its parent's |
| Report.DumpGodClass | src/metrics.rs:233-246 | a record reports its own line when it is a God Class, then the reports of its nested types in order |
| Report.GodLinesAreFlattenedGods | src/metrics.rs:233-246 | the report equals the lines of the God Classes among all records of the tree in pre-order |
| Report.GodLinesMembers | src/metrics.rs:233-246 | a line is reported exactly when some record of the tree, at any depth, is a God Class on that line; there are no more lines than records |
| Metrics.Metrics.constructor | src/metrics.rs:9-13 | a fresh engine holds no records |
| Metrics.Metrics.Compute | src/metrics.rs:15-29 | the engine holds one computed record per class or enum at the top of the tree, in order |
| Metrics.Metrics.DumpGodClass | src/metrics.rs:31-35 | the report is the reports of the top-level records, one after the other |
| Metrics.DumpGodClassReport | src/metrics.rs:369-373 | the entry point prints exactly `GodClassReport` of the tree |
| Metrics.GodLinesSeqMembers | src/metrics.rs:31-35 | a line is in the report of a list of records exactly when some record of their trees is a God Class on it |
| Metrics.ReportMembers | src/metrics.rs:369-373 | a line is printed exactly when some class or enum record reached from the top-level declarations through their bodies is a God Class declared on that line |
| Metrics.NoTypesNoReport | src/metrics.rs:15-29 | a unit without a class or enum at its top yields no records and an empty report |

## Left out

- The parser: `src/parser.rs`, tree-sitter and its foreign calls are not part of this model. The tree is an input value.
- `src/main.rs` and `src/error.rs`: argument handling, file reading and error reporting are not part of this model.
- Printing: `println!` is modelled by returning the printed line numbers. The file path, the `:` separators and the output stream are left out.
- `MetricsMethod::dump_metrics` (src/metrics.rs:362-366) only prints and is never called, so it is left out.
- Cursor movement: `goto_first_child`, `goto_next_sibling` and `goto_parent` are modelled by loops and recursion over `children`. The cursor's position is not a separate state.
- ClassMetrics.MetricsClass.ComputeTcc: `tcc` is an exact fraction, not an `f32`. The rounding of the division, and of the comparison with `1.0 / 3.0`, is not modelled.
- ClassMetrics.MetricsClass.ComputeWmc: `usize` is unbounded here. The `atfd`, `wmc`, `cyclomatic` and pair-count additions, and `num_method * (num_method - 1)`, cannot overflow in the model.
- ClassMetrics.MetricsClass.WalkItem: a `field_declaration` without children is excluded by `ItemWF`. The source's cursor would then stay on that node and scan its later siblings for declarators. Then `goto_parent` puts the cursor back on the body, and the walk of the remaining members ends there. The Java grammar never produces one.
- Unwrap panics: a tree missing a child that the Rust unwraps is excluded by the preconditions named above. The panic itself is not modelled.
- `utf8_text(code).unwrap()`: node text is given as a string, so invalid UTF-8 in the source is not modelled.
