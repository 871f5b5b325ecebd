/** Tight class cohesion: the share of pairs of a type's methods that use a common
    declared field. */
module Tcc {
  import opened MethodMetrics

  /** The names `m` uses that are declared fields of its type (`usage_field_list`
      filtered by `field_name_list`). */
  function FieldUsage(m: MethodSummary, fields: seq<string>): (u: set<string>)
    ensures forall x :: x in u <==> x in m.usage && x in fields
  {
    set x | x in m.usage && x in fields
  }

  /** A method counts for cohesion unless it carries the type's own name (a constructor). */
  predicate Considered(m: MethodSummary, className: string)
  {
    m.name != className
  }

  /** Two methods are cohesive when their field usages are not disjoint. */
  predicate Cohesive(a: MethodSummary, b: MethodSummary, fields: seq<string>)
  {
    FieldUsage(a, fields) * FieldUsage(b, fields) != {}
  }

  /** Number of considered methods among `ms[..i]`. */
  function ConsideredBefore(ms: seq<MethodSummary>, className: string, i: nat): nat
    requires i <= |ms|
  {
    if i == 0 then 0
    else ConsideredBefore(ms, className, i - 1) + (if Considered(ms[i - 1], className) then 1 else 0)
  }

  /** Number of considered methods among `ms[..j]` that are cohesive with `ms[i]`. */
  function CohesiveInRow(ms: seq<MethodSummary>, className: string, fields: seq<string>, i: nat, j: nat): nat
    requires i < |ms| && j <= |ms|
  {
    if j == 0 then 0
    else
      CohesiveInRow(ms, className, fields, i, j - 1)
      + (if Considered(ms[j - 1], className) && Cohesive(ms[i], ms[j - 1], fields) then 1 else 0)
  }

  /** Number of cohesive pairs `j < i < n` of considered methods, counted row by row as the
      two nested loops of `compute_tcc` count them. */
  function CohesivePairs(ms: seq<MethodSummary>, className: string, fields: seq<string>, n: nat): nat
    requires n <= |ms|
  {
    if n == 0 then 0
    else
      CohesivePairs(ms, className, fields, n - 1)
      + (if Considered(ms[n - 1], className) then CohesiveInRow(ms, className, fields, n - 1, n - 1) else 0)
  }

  /** Number of unordered pairs of `k` things. */
  function Pairs(k: nat): nat
  {
    if k == 0 then 0 else k * (k - 1) / 2
  }

  /** What `tcc` is divided by at the end: the pair count once there are two methods. */
  function TccDivisor(k: nat): (d: nat)
    ensures d > 0
  {
    if k > 1 then Pairs(k) else 1
  }

  // ---------------------------------------------------------------------------
  // A reference definition: the set of cohesive pairs
  // ---------------------------------------------------------------------------

  predicate CohesivePair(ms: seq<MethodSummary>, className: string, fields: seq<string>, j: nat, i: nat)
    requires j < i < |ms|
  {
    Considered(ms[i], className) && Considered(ms[j], className) && Cohesive(ms[i], ms[j], fields)
  }

  /** The cohesive pairs among the first `n` methods, each as (earlier, later). */
  function CohesiveSet(ms: seq<MethodSummary>, className: string, fields: seq<string>, n: nat): set<(nat, nat)>
    requires n <= |ms|
  {
    set i: nat, j: nat | j < i < n && CohesivePair(ms, className, fields, j, i) :: (j, i)
  }

  function RowSet(ms: seq<MethodSummary>, className: string, fields: seq<string>, i: nat, j: nat): set<(nat, nat)>
    requires j <= i < |ms|
  {
    set k: nat | k < j && CohesivePair(ms, className, fields, k, i) :: (k, i)
  }

  lemma {:induction false} RowSetSize(ms: seq<MethodSummary>, className: string, fields: seq<string>, i: nat, j: nat)
    requires j <= i < |ms| && Considered(ms[i], className)
    ensures |RowSet(ms, className, fields, i, j)| == CohesiveInRow(ms, className, fields, i, j)
  {
    if j > 0 {
      RowSetSize(ms, className, fields, i, j - 1);
      var a := RowSet(ms, className, fields, i, j - 1);
      if CohesivePair(ms, className, fields, j - 1, i) {
        assert RowSet(ms, className, fields, i, j) == a + {(j - 1, i)};
        assert (j - 1, i) !in a;
      } else {
        assert RowSet(ms, className, fields, i, j) == a;
      }
    } else {
      assert RowSet(ms, className, fields, i, j) == {};
    }
  }

  /** The row-by-row count is the number of cohesive unordered pairs. */
  lemma {:induction false} CohesivePairsCountsSet(ms: seq<MethodSummary>, className: string, fields: seq<string>, n: nat)
    requires n <= |ms|
    ensures |CohesiveSet(ms, className, fields, n)| == CohesivePairs(ms, className, fields, n)
  {
    if n == 0 {
      assert CohesiveSet(ms, className, fields, n) == {};
    } else {
      CohesivePairsCountsSet(ms, className, fields, n - 1);
      var a := CohesiveSet(ms, className, fields, n - 1);
      if Considered(ms[n - 1], className) {
        var r := RowSet(ms, className, fields, n - 1, n - 1);
        RowSetSize(ms, className, fields, n - 1, n - 1);
        assert CohesiveSet(ms, className, fields, n) == a + r;
        assert a * r == {} by {
          forall p | p in r ensures p !in a {
          }
        }
        assert |a + r| == |a| + |r| by {
          DisjointUnionSize(a, r);
        }
      } else {
        assert CohesiveSet(ms, className, fields, n) == a;
      }
    }
  }

  lemma {:induction false} DisjointUnionSize<T>(a: set<T>, b: set<T>)
    requires a * b == {}
    ensures |a + b| == |a| + |b|
    decreases |b|
  {
    if b != {} {
      var x :| x in b;
      DisjointUnionSize(a, b - {x});
      assert a + b == (a + (b - {x})) + {x};
    } else {
      assert a + b == a;
    }
  }

  // ---------------------------------------------------------------------------
  // Bounds
  // ---------------------------------------------------------------------------

  /** Every pair of considered methods among the first `n` shares a field. */
  predicate AllCohesive(ms: seq<MethodSummary>, className: string, fields: seq<string>, n: nat)
    requires n <= |ms|
  {
    forall j, i :: 0 <= j < i < n && Considered(ms[i], className) && Considered(ms[j], className)
                   ==> Cohesive(ms[i], ms[j], fields)
  }

  /** No pair of considered methods among the first `n` shares a field. */
  predicate NoneCohesive(ms: seq<MethodSummary>, className: string, fields: seq<string>, n: nat)
    requires n <= |ms|
  {
    forall j, i :: 0 <= j < i < n ==> !CohesivePair(ms, className, fields, j, i)
  }

  /** Considered pairs `j < i < n`, counted the same way: every considered method pairs
      with each considered one before it. */
  function AllPairs(ms: seq<MethodSummary>, className: string, n: nat): nat
    requires n <= |ms|
  {
    if n == 0 then 0
    else AllPairs(ms, className, n - 1) + (if Considered(ms[n - 1], className) then ConsideredBefore(ms, className, n - 1) else 0)
  }

  lemma PairsStep(k: nat)
    ensures Pairs(k + 1) == Pairs(k) + k
  {
    if k > 0 {
      assert (k + 1) * k == k * (k - 1) + 2 * k;
    }
  }

  /** There are k(k-1)/2 pairs of the k considered methods. */
  lemma {:induction false} AllPairsIsPairs(ms: seq<MethodSummary>, className: string, n: nat)
    requires n <= |ms|
    ensures AllPairs(ms, className, n) == Pairs(ConsideredBefore(ms, className, n))
  {
    if n > 0 {
      AllPairsIsPairs(ms, className, n - 1);
      PairsStep(ConsideredBefore(ms, className, n - 1));
    }
  }

  lemma {:induction false} RowBound(ms: seq<MethodSummary>, className: string, fields: seq<string>, i: nat, j: nat)
    requires i < |ms| && j <= |ms|
    ensures CohesiveInRow(ms, className, fields, i, j) <= ConsideredBefore(ms, className, j)
    ensures CohesiveInRow(ms, className, fields, i, j) == ConsideredBefore(ms, className, j)
            <==> forall k :: 0 <= k < j && Considered(ms[k], className) ==> Cohesive(ms[i], ms[k], fields)
    ensures CohesiveInRow(ms, className, fields, i, j) == 0
            <==> forall k :: 0 <= k < j && Considered(ms[k], className) ==> !Cohesive(ms[i], ms[k], fields)
  {
    if j > 0 {
      RowBound(ms, className, fields, i, j - 1);
    }
  }

  /** At most all pairs are cohesive, and exactly all of them when every considered pair
      shares a field. */
  lemma {:induction false} CohesivePairsBound(ms: seq<MethodSummary>, className: string, fields: seq<string>, n: nat)
    requires n <= |ms|
    ensures CohesivePairs(ms, className, fields, n) <= Pairs(ConsideredBefore(ms, className, n))
    ensures CohesivePairs(ms, className, fields, n) == Pairs(ConsideredBefore(ms, className, n))
            <==> AllCohesive(ms, className, fields, n)
  {
    AllPairsIsPairs(ms, className, n);
    CohesiveBelowAll(ms, className, fields, n);
  }

  lemma {:induction false} CohesiveBelowAll(ms: seq<MethodSummary>, className: string, fields: seq<string>, n: nat)
    requires n <= |ms|
    ensures CohesivePairs(ms, className, fields, n) <= AllPairs(ms, className, n)
    ensures CohesivePairs(ms, className, fields, n) == AllPairs(ms, className, n)
            <==> AllCohesive(ms, className, fields, n)
  {
    if n > 0 {
      CohesiveBelowAll(ms, className, fields, n - 1);
      RowBound(ms, className, fields, n - 1, n - 1);
    }
  }

  /** No pair is cohesive exactly when the count is zero. */
  lemma {:induction false} CohesivePairsZero(ms: seq<MethodSummary>, className: string, fields: seq<string>, n: nat)
    requires n <= |ms|
    ensures CohesivePairs(ms, className, fields, n) == 0
            <==> NoneCohesive(ms, className, fields, n)
  {
    if n > 0 {
      CohesivePairsZero(ms, className, fields, n - 1);
      RowBound(ms, className, fields, n - 1, n - 1);
      if Considered(ms[n - 1], className) {
        assert NoneCohesive(ms, className, fields, n)
               <==> NoneCohesive(ms, className, fields, n - 1) && CohesiveInRow(ms, className, fields, n - 1, n - 1) == 0 by {
          if NoneCohesive(ms, className, fields, n) {
            forall k | 0 <= k < n - 1 && Considered(ms[k], className)
              ensures !Cohesive(ms[n - 1], ms[k], fields)
            {
              assert !CohesivePair(ms, className, fields, k, n - 1);
            }
          }
        }
      } else {
        assert NoneCohesive(ms, className, fields, n) <==> NoneCohesive(ms, className, fields, n - 1);
      }
    }
  }

  /** With fewer than two considered methods there is no pair at all. */
  lemma CohesivePairsFewMethods(ms: seq<MethodSummary>, className: string, fields: seq<string>, n: nat)
    requires n <= |ms| && ConsideredBefore(ms, className, n) <= 1
    ensures CohesivePairs(ms, className, fields, n) == 0
  {
    CohesivePairsBound(ms, className, fields, n);
  }
}
