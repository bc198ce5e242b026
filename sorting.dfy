/** `problems.sort((a, b) => a.operandCount - b.operandCount)`: the library sort is stable,
    so it is specified here as a stable insertion sort on the operand count. */
module Sorting {
  import opened Types

  predicate SortedByOperandCount(s: seq<MathProblem>) {
    forall i, j :: 0 <= i < j < |s| ==> s[i].operandCount <= s[j].operandCount
  }

  /** The problems with operand count k, in the order they occur. */
  function WithCount(s: seq<MathProblem>, k: nat): seq<MathProblem> {
    if s == [] then []
    else WithCount(s[..|s| - 1], k) + (if s[|s| - 1].operandCount == k then [s[|s| - 1]] else [])
  }

  function ExpressionsOf(s: seq<MathProblem>): set<string> {
    set p | p in s :: p.expression
  }

  predicate DistinctExpressions(s: seq<MathProblem>) {
    forall i, j :: 0 <= i < j < |s| ==> s[i].expression != s[j].expression
  }

  /** Puts p after every element whose operand count is not larger than its own. */
  function Insert(sorted: seq<MathProblem>, p: MathProblem): (r: seq<MathProblem>)
    ensures |r| == |sorted| + 1
    decreases |sorted|
  {
    if sorted == [] || sorted[|sorted| - 1].operandCount <= p.operandCount then sorted + [p]
    else Insert(sorted[..|sorted| - 1], p) + [sorted[|sorted| - 1]]
  }

  function SortByOperandCount(s: seq<MathProblem>): (r: seq<MathProblem>)
    ensures |r| == |s|
    decreases |s|
  {
    if s == [] then [] else Insert(SortByOperandCount(s[..|s| - 1]), s[|s| - 1])
  }

  lemma {:induction false} InsertPermutes(sorted: seq<MathProblem>, p: MathProblem)
    ensures multiset(Insert(sorted, p)) == multiset(sorted) + multiset{p}
    decreases |sorted|
  {
    if !(sorted == [] || sorted[|sorted| - 1].operandCount <= p.operandCount) {
      var init, last := sorted[..|sorted| - 1], sorted[|sorted| - 1];
      assert sorted == init + [last];
      InsertPermutes(init, p);
    }
  }

  /** Elements of a sequence, and only those, are elements of any permutation of it. */
  lemma PermutationMembers(a: seq<MathProblem>, b: seq<MathProblem>, q: MathProblem)
    requires multiset(a) == multiset(b)
    ensures q in a <==> q in b
  {
    assert q in a <==> q in multiset(a);
    assert q in b <==> q in multiset(b);
  }

  lemma InsertBounded(sorted: seq<MathProblem>, p: MathProblem, bound: int)
    requires forall i :: 0 <= i < |sorted| ==> sorted[i].operandCount <= bound
    requires p.operandCount <= bound
    ensures forall i :: 0 <= i < |Insert(sorted, p)| ==> Insert(sorted, p)[i].operandCount <= bound
  {
    var r := Insert(sorted, p);
    InsertPermutes(sorted, p);
    forall i | 0 <= i < |r|
      ensures r[i].operandCount <= bound
    {
      assert r[i] in multiset(r);
      if r[i] != p {
        assert r[i] in multiset(sorted);
      }
    }
  }

  lemma {:induction false} InsertKeepsSorted(sorted: seq<MathProblem>, p: MathProblem)
    requires SortedByOperandCount(sorted)
    ensures SortedByOperandCount(Insert(sorted, p))
    decreases |sorted|
  {
    if !(sorted == [] || sorted[|sorted| - 1].operandCount <= p.operandCount) {
      var init, last := sorted[..|sorted| - 1], sorted[|sorted| - 1];
      InsertKeepsSorted(init, p);
      InsertBounded(init, p, last.operandCount);
    }
  }

  lemma {:induction false} InsertIsStable(sorted: seq<MathProblem>, p: MathProblem, k: nat)
    requires SortedByOperandCount(sorted)
    ensures WithCount(Insert(sorted, p), k) == WithCount(sorted, k) + (if p.operandCount == k then [p] else [])
    decreases |sorted|
  {
    if sorted == [] || sorted[|sorted| - 1].operandCount <= p.operandCount {
      assert (sorted + [p])[..|sorted|] == sorted;
    } else {
      var init, last := sorted[..|sorted| - 1], sorted[|sorted| - 1];
      var front := Insert(init, p);
      assert (front + [last])[..|front|] == front;
      InsertIsStable(init, p, k);
      assert sorted == init + [last];
    }
  }

  lemma {:induction false} InsertKeepsDistinct(sorted: seq<MathProblem>, p: MathProblem)
    requires DistinctExpressions(sorted)
    requires p.expression !in ExpressionsOf(sorted)
    ensures DistinctExpressions(Insert(sorted, p))
    decreases |sorted|
  {
    if sorted == [] || sorted[|sorted| - 1].operandCount <= p.operandCount {
      forall i | 0 <= i < |sorted|
        ensures sorted[i].expression != p.expression
      {
        assert sorted[i] in sorted;
      }
    } else {
      var init, last := sorted[..|sorted| - 1], sorted[|sorted| - 1];
      assert sorted == init + [last];
      assert ExpressionsOf(init) <= ExpressionsOf(sorted);
      InsertKeepsDistinct(init, p);
      InsertPermutes(init, p);
      var front := Insert(init, p);
      forall i | 0 <= i < |front|
        ensures front[i].expression != last.expression
      {
        assert front[i] in multiset(front);
        if front[i] != p {
          assert front[i] in multiset(init);
          var j :| 0 <= j < |init| && init[j] == front[i];
          assert sorted[j] == front[i];
        } else {
          assert last in sorted;
        }
      }
    }
  }

  lemma {:induction false} SortPermutes(s: seq<MathProblem>)
    ensures multiset(SortByOperandCount(s)) == multiset(s)
    decreases |s|
  {
    if s != [] {
      var init, last := s[..|s| - 1], s[|s| - 1];
      SortPermutes(init);
      InsertPermutes(SortByOperandCount(init), last);
      assert s == init + [last];
    }
  }

  /** The sort orders by operand count and only reorders: the result is a permutation of the
      input, non-decreasing in operand count. */
  lemma {:induction false} SortSorts(s: seq<MathProblem>)
    ensures SortedByOperandCount(SortByOperandCount(s))
    ensures multiset(SortByOperandCount(s)) == multiset(s)
    decreases |s|
  {
    SortPermutes(s);
    if s != [] {
      SortSorts(s[..|s| - 1]);
      InsertKeepsSorted(SortByOperandCount(s[..|s| - 1]), s[|s| - 1]);
    }
  }

  /** The sort is stable: among problems with the same operand count, the order is kept. */
  lemma {:induction false} SortIsStable(s: seq<MathProblem>, k: nat)
    ensures WithCount(SortByOperandCount(s), k) == WithCount(s, k)
    decreases |s|
  {
    if s != [] {
      var init := s[..|s| - 1];
      SortSorts(init);
      SortIsStable(init, k);
      InsertIsStable(SortByOperandCount(init), s[|s| - 1], k);
    }
  }

  lemma PermutationKeepsExpressions(a: seq<MathProblem>, b: seq<MathProblem>)
    requires multiset(a) == multiset(b)
    ensures ExpressionsOf(a) == ExpressionsOf(b)
  {
    forall e | e in ExpressionsOf(a)
      ensures e in ExpressionsOf(b)
    {
      var q :| q in a && q.expression == e;
      PermutationMembers(a, b, q);
    }
    forall e | e in ExpressionsOf(b)
      ensures e in ExpressionsOf(a)
    {
      var q :| q in b && q.expression == e;
      PermutationMembers(a, b, q);
    }
  }

  lemma ExpressionsOfAppend(s: seq<MathProblem>, p: MathProblem)
    ensures ExpressionsOf(s + [p]) == ExpressionsOf(s) + {p.expression}
  {
    forall e | e in ExpressionsOf(s + [p])
      ensures e in ExpressionsOf(s) + {p.expression}
    {
      var q :| q in s + [p] && q.expression == e;
      if q != p {
        assert q in s;
      }
    }
    forall e | e in ExpressionsOf(s)
      ensures e in ExpressionsOf(s + [p])
    {
      var q :| q in s && q.expression == e;
      assert q in s + [p];
    }
    assert p in s + [p];
  }

  lemma DistinctSplit(s: seq<MathProblem>)
    requires s != [] && DistinctExpressions(s)
    ensures DistinctExpressions(s[..|s| - 1])
    ensures s[|s| - 1].expression !in ExpressionsOf(s[..|s| - 1])
  {
  }

  /** Sorting neither merges nor invents expressions. */
  lemma {:induction false} SortKeepsDistinct(s: seq<MathProblem>)
    requires DistinctExpressions(s)
    ensures DistinctExpressions(SortByOperandCount(s))
    ensures ExpressionsOf(SortByOperandCount(s)) == ExpressionsOf(s)
    decreases |s|
  {
    SortPermutes(s);
    PermutationKeepsExpressions(SortByOperandCount(s), s);
    if s != [] {
      var init := s[..|s| - 1];
      DistinctSplit(s);
      SortKeepsDistinct(init);
      InsertKeepsDistinct(SortByOperandCount(init), s[|s| - 1]);
    }
  }
}
