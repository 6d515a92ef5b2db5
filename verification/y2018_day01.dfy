/**
 * The frequency drift of src/y2018/day01.rs: the sum of the changes, and the first running
 * total seen twice while the changes are applied over and over in order.
 */
module Frequencies {

  /** `answer1`: the sum of all the changes. */
  function Sum(freqs: seq<int>): int
  {
    if |freqs| == 0 then 0 else Sum(freqs[..|freqs| - 1]) + freqs[|freqs| - 1]
  }

  /** The k-th change applied: the list is taken over and over, in order. */
  function Change(freqs: seq<int>, k: nat): int
    requires |freqs| > 0
    decreases k
  {
    if k < |freqs| then freqs[k] else Change(freqs, k - |freqs|)
  }

  /** In pass p the change at position i is freqs[i]. */
  lemma {:induction false} ChangeAt(freqs: seq<int>, p: nat, i: nat)
    requires i < |freqs|
    ensures Change(freqs, p * |freqs| + i) == freqs[i]
    decreases p
  {
    if p > 0 {
      ChangeAt(freqs, p - 1, i);
      assert p * |freqs| + i - |freqs| == (p - 1) * |freqs| + i;
    }
  }

  /** The running total after n changes. */
  function Total(freqs: seq<int>, n: nat): int
    requires |freqs| > 0
  {
    if n == 0 then 0 else Total(freqs, n - 1) + Change(freqs, n - 1)
  }

  /** Within the first pass the running total is the sum of the changes applied so far. */
  lemma {:induction false} TotalPrefix(freqs: seq<int>, n: nat)
    requires 0 < |freqs| && n <= |freqs|
    ensures Total(freqs, n) == Sum(freqs[..n])
  {
    if n > 0 {
      TotalPrefix(freqs, n - 1);
      assert freqs[..n][..n - 1] == freqs[..n - 1];
    }
  }

  /** After one whole pass the running total is `answer1`'s sum. */
  lemma OnePass(freqs: seq<int>)
    requires |freqs| > 0
    ensures Total(freqs, |freqs|) == Sum(freqs)
  {
    TotalPrefix(freqs, |freqs|);
    assert freqs[..|freqs|] == freqs;
  }

  /** Every further pass adds the sum once more. */
  lemma {:induction false} TotalPeriodic(freqs: seq<int>, n: nat)
    requires |freqs| > 0
    ensures Total(freqs, n + |freqs|) == Total(freqs, n) + Sum(freqs)
  {
    if n == 0 {
      OnePass(freqs);
    } else {
      TotalPeriodic(freqs, n - 1);
    }
  }

  /** The running totals 0 .. n - 1 are pairwise different. */
  ghost predicate Distinct(freqs: seq<int>, n: nat)
    requires |freqs| > 0
  {
    forall i, j | 0 <= i < j < n :: Total(freqs, i) != Total(freqs, j)
  }

  /** The n-th running total is the first to equal an earlier one. */
  ghost predicate FirstRepeatAt(freqs: seq<int>, n: nat)
    requires |freqs| > 0
  {
    Distinct(freqs, n) && exists m | 0 <= m < n :: Total(freqs, m) == Total(freqs, n)
  }

  /** There is only one first repeat. */
  lemma FirstRepeatUnique(freqs: seq<int>, n1: nat, n2: nat)
    requires |freqs| > 0 && FirstRepeatAt(freqs, n1) && FirstRepeatAt(freqs, n2)
    ensures n1 == n2
  {
  }

  /** When the changes cancel out, the total after one pass repeats the starting 0. */
  lemma ZeroSumRepeats(freqs: seq<int>)
    requires |freqs| > 0 && Sum(freqs) == 0
    ensures !Distinct(freqs, |freqs| + 1)
  {
    OnePass(freqs);
    assert Total(freqs, 0) == Total(freqs, |freqs|);
  }

  /** What `answer2` ends with. */
  datatype Search = Repeat(value: int) | NoFrequencies | OutOfFuel

  /**
   * `answer2`: the loop over the cycled changes (i is the position `cycle` is at), checking the running total against the
   * set of totals seen before adding the next change.  An empty list ends the loop at once;
   * otherwise the source loops until a repeat, which fuel bounds here: fuel + 1 totals are
   * checked.
   */
  method FirstRepeat(freqs: seq<int>, fuel: nat) returns (r: Search)
    ensures r.NoFrequencies? <==> |freqs| == 0
    ensures r.Repeat? ==> |freqs| > 0 && exists n :: FirstRepeatAt(freqs, n) && r.value == Total(freqs, n)
    ensures r.OutOfFuel? ==> |freqs| > 0 && Distinct(freqs, fuel + 1)
  {
    if |freqs| == 0 {
      return NoFrequencies;
    }
    var seen: set<int> := {};
    var current := 0;
    var n := 0;
    var i := 0;
    ghost var passes := 0;
    while n <= fuel
      invariant n <= fuel + 1
      invariant i < |freqs| && n == passes * |freqs| + i
      invariant current == Total(freqs, n)
      invariant seen == set k | 0 <= k < n :: Total(freqs, k)
      invariant Distinct(freqs, n)
    {
      if current in seen {
        var m :| 0 <= m < n && Total(freqs, m) == current;
        assert FirstRepeatAt(freqs, n);
        return Repeat(current);
      }
      seen := seen + {current};
      ChangeAt(freqs, passes, i);
      current := current + freqs[i];
      n := n + 1;
      i := i + 1;
      if i == |freqs| {
        i := 0;
        passes := passes + 1;
      }
    }
    return OutOfFuel;
  }

  /** With changes that cancel out, one pass of fuel is enough to find the repeat. */
  lemma ZeroSumFuel(freqs: seq<int>, fuel: nat)
    requires |freqs| > 0 && Sum(freqs) == 0 && fuel >= |freqs|
    ensures !Distinct(freqs, fuel + 1)
  {
    ZeroSumRepeats(freqs);
  }
}
