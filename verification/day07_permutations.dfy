/**
 * `permutations` of src/y2019/day07.rs: five nested ascending loops over `start..end` that
 * skip a value already chosen by an outer loop and collect every 5-tuple they reach.
 */
module Day07Permutations {

  /**
   * The tuples the loops below a chosen prefix p produce: p itself once five values are
   * chosen, otherwise the sweep of the next value over the whole range.
   */
  function Below(p: seq<int>, start: int, end: int): seq<seq<int>>
    requires |p| <= 5
    decreases 5 - |p|, 1
  {
    if |p| == 5 then [p] else SweepTo(p, start, end, end)
  }

  /** The next value swept over `start..hi` in ascending order, skipping values already in p. */
  function SweepTo(p: seq<int>, start: int, end: int, hi: int): seq<seq<int>>
    requires |p| < 5
    decreases 5 - |p|, 0, hi - start
  {
    if hi <= start then []
    else SweepTo(p, start, end, hi - 1) + (if hi - 1 in p then [] else Below(p + [hi - 1], start, end))
  }

  /** Everything `permutations(start, end)` returns, in order. */
  function Permutations(start: int, end: int): seq<seq<int>>
  {
    Below([], start, end)
  }

  /** Pairwise-distinct values drawn from `start..end`. */
  ghost predicate DistinctIn(t: seq<int>, start: int, end: int)
  {
    (forall i | 0 <= i < |t| :: start <= t[i] < end)
    && (forall i, j | 0 <= i < j < |t| :: t[i] != t[j])
  }

  /** Strict lexicographic order on sequences of equal length. */
  ghost predicate LexLess(s: seq<int>, t: seq<int>)
  {
    exists i | 0 <= i < |s| && i < |t| :: s[..i] == t[..i] && s[i] < t[i]
  }

  ghost predicate StrictlySorted(ts: seq<seq<int>>)
  {
    forall i, j | 0 <= i < j < |ts| :: LexLess(ts[i], ts[j])
  }

  /** `permutations`. */
  method ComputePermutations(start: int, end: int) returns (res: seq<seq<int>>)
    ensures res == Permutations(start, end)
  {
    res := ChooseFrom([], start, end);
  }

  /**
   * The loop nest below the prefix p of values the outer loops chose: the next value
   * ascends over `start..end`, a value already chosen is skipped (the source's `continue`),
   * and each remaining one runs the loops below it; the fifth level pushes the tuple.
   */
  method ChooseFrom(p: seq<int>, start: int, end: int) returns (res: seq<seq<int>>)
    requires |p| <= 5
    ensures res == Below(p, start, end)
    decreases 5 - |p|
  {
    if |p| == 5 {
      return [p];
    }
    res := [];
    var x := start;
    while x < end
      invariant x == start || start < x <= end
      invariant res == SweepTo(p, start, end, x)
    {
      SweepStep(p, start, end, x);
      if x !in p {
        var block := ChooseFrom(p + [x], start, end);
        res := res + block;
      }
      x := x + 1;
    }
  }

  /** One more value of the sweep appends its block. */
  lemma SweepStep(p: seq<int>, start: int, end: int, x: int)
    requires |p| < 5 && start <= x
    ensures SweepTo(p, start, end, x + 1)
         == SweepTo(p, start, end, x) + (if x in p then [] else Below(p + [x], start, end))
  {
  }

  // ---------------------------------------------------------------- what the loops produce

  /** Every tuple below p has five values, starts with p, and the swept value is below hi. */
  lemma {:induction false} BelowShape(p: seq<int>, start: int, end: int)
    requires |p| <= 5
    ensures forall t | t in Below(p, start, end) :: |t| == 5 && t[..|p|] == p
    decreases 5 - |p|, 1
  {
    if |p| < 5 {
      SweepShape(p, start, end, end);
    }
  }

  lemma {:induction false} SweepShape(p: seq<int>, start: int, end: int, hi: int)
    requires |p| < 5
    ensures forall t | t in SweepTo(p, start, end, hi) ::
      |t| == 5 && t[..|p|] == p && start <= t[|p|] < hi && t[|p|] !in p
    decreases 5 - |p|, 0, hi - start
  {
    if hi > start {
      SweepShape(p, start, end, hi - 1);
      if hi - 1 !in p {
        var q := p + [hi - 1];
        BelowShape(q, start, end);
        forall t | t in Below(q, start, end)
          ensures t[..|p|] == p && t[|p|] == hi - 1
        {
          assert t[..|p|] == t[..|q|][..|p|];
          assert t[|p|] == t[..|q|][|p|];
        }
      }
    }
  }

  /** Below a prefix of distinct values in range, every tuple is distinct and in range. */
  lemma {:induction false} BelowDistinct(p: seq<int>, start: int, end: int)
    requires |p| <= 5 && DistinctIn(p, start, end)
    ensures forall t | t in Below(p, start, end) :: DistinctIn(t, start, end)
    decreases 5 - |p|, 1
  {
    if |p| < 5 {
      SweepDistinct(p, start, end, end);
    }
  }

  lemma {:induction false} SweepDistinct(p: seq<int>, start: int, end: int, hi: int)
    requires |p| < 5 && DistinctIn(p, start, end) && hi <= end
    ensures forall t | t in SweepTo(p, start, end, hi) :: DistinctIn(t, start, end)
    decreases 5 - |p|, 0, hi - start
  {
    if hi > start {
      SweepDistinct(p, start, end, hi - 1);
      if hi - 1 !in p {
        var q := p + [hi - 1];
        assert DistinctIn(q, start, end) by {
          forall i, j | 0 <= i < j < |q| ensures q[i] != q[j] {
            if j == |p| {
              assert q[i] == p[i];
            }
          }
        }
        BelowDistinct(q, start, end);
      }
    }
  }

  /** Every tuple of distinct values in range that extends p is produced below p. */
  lemma {:induction false} BelowComplete(p: seq<int>, start: int, end: int, t: seq<int>)
    requires |p| <= 5 && |t| == 5 && DistinctIn(t, start, end) && t[..|p|] == p
    ensures t in Below(p, start, end)
    decreases 5 - |p|, 1
  {
    if |p| == 5 {
      assert t == t[..5];
    } else {
      assert t[|p|] !in p by {
        forall i | 0 <= i < |p| ensures p[i] != t[|p|] {
          assert p[i] == t[i];
        }
      }
      SweepComplete(p, start, end, end, t);
    }
  }

  lemma {:induction false} SweepComplete(p: seq<int>, start: int, end: int, hi: int, t: seq<int>)
    requires |p| < 5 && |t| == 5 && DistinctIn(t, start, end) && t[..|p|] == p
    requires t[|p|] !in p && t[|p|] < hi
    ensures t in SweepTo(p, start, end, hi)
    decreases 5 - |p|, 0, hi - start
  {
    assert start <= t[|p|];
    if t[|p|] == hi - 1 {
      assert t[..|p| + 1] == p + [hi - 1];
      BelowComplete(p + [hi - 1], start, end, t);
    } else {
      SweepComplete(p, start, end, hi - 1, t);
    }
  }

  /** Concatenating two sorted runs, everything in the first below everything in the second. */
  lemma SortedAppend(xs: seq<seq<int>>, ys: seq<seq<int>>)
    requires StrictlySorted(xs) && StrictlySorted(ys)
    requires forall x, y | x in xs && y in ys :: LexLess(x, y)
    ensures StrictlySorted(xs + ys)
  {
    var zs := xs + ys;
    forall i, j | 0 <= i < j < |zs| ensures LexLess(zs[i], zs[j]) {
      if j < |xs| {
        assert zs[i] == xs[i] && zs[j] == xs[j];
      } else if i >= |xs| {
        assert zs[i] == ys[i - |xs|] && zs[j] == ys[j - |xs|];
      } else {
        assert zs[i] in xs && zs[j] in ys;
      }
    }
  }

  /** The loops produce their tuples in strictly increasing lexicographic order. */
  lemma {:induction false} BelowSorted(p: seq<int>, start: int, end: int)
    requires |p| <= 5
    ensures StrictlySorted(Below(p, start, end))
    decreases 5 - |p|, 1
  {
    if |p| < 5 {
      SweepSorted(p, start, end, end);
    }
  }

  lemma {:induction false} SweepSorted(p: seq<int>, start: int, end: int, hi: int)
    requires |p| < 5
    ensures StrictlySorted(SweepTo(p, start, end, hi))
    decreases 5 - |p|, 0, hi - start
  {
    if hi > start {
      var xs := SweepTo(p, start, end, hi - 1);
      SweepSorted(p, start, end, hi - 1);
      if hi - 1 !in p {
        var q := p + [hi - 1];
        var ys := Below(q, start, end);
        BelowSorted(q, start, end);
        SweepShape(p, start, end, hi - 1);
        SweepShape(p, start, end, hi);
        forall x, y | x in xs && y in ys ensures LexLess(x, y) {
          assert y in SweepTo(p, start, end, hi);
          BelowShape(q, start, end);
          assert y[..|q|] == q;
          assert y[|p|] == y[..|q|][|p|] == hi - 1;
          assert x[..|p|] == p == y[..|p|];
        }
        SortedAppend(xs, ys);
      } else {
        assert SweepTo(p, start, end, hi) == xs + [];
      }
    }
  }

  /**
   * `permutations(start, end)` holds exactly the 5-tuples of pairwise-distinct values from
   * `start..end`, each once, in lexicographic order.
   */
  lemma PermutationsCorrect(start: int, end: int)
    ensures forall t :: t in Permutations(start, end) <==> |t| == 5 && DistinctIn(t, start, end)
    ensures StrictlySorted(Permutations(start, end))
  {
    BelowShape([], start, end);
    BelowDistinct([], start, end);
    forall t | |t| == 5 && DistinctIn(t, start, end) ensures t in Permutations(start, end) {
      BelowComplete([], start, end, t);
    }
    BelowSorted([], start, end);
  }
}
