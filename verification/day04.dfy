/**
 * The password rules of src/y2019/day04.rs.  Each rule walks the decimal digits of a number
 * from the least significant one up (`n % 10`, `n / 10` until `n == 0`); the model states
 * each rule on the digit sequence read from the left.
 */
module Day04Passwords {

  const MIN_VAL: nat := 273025
  const MAX_VAL: nat := 767253

  /** The decimal digits of n, most significant first; 0 has the one digit 0. */
  function Digits(n: nat): seq<nat>
  {
    if n < 10 then [n] else Digits(n / 10) + [n % 10]
  }

  /** Every number has at least one digit, each below ten, and only numbers below ten have one. */
  lemma {:induction false} DigitsShape(n: nat)
    ensures |Digits(n)| >= 1 && forall i | 0 <= i < |Digits(n)| :: Digits(n)[i] < 10
    ensures (|Digits(n)| == 1) == (n < 10)
  {
    if n >= 10 {
      DigitsShape(n / 10);
    }
  }

  /** The digits never decrease from left to right. */
  ghost predicate NonDecreasing(ds: seq<nat>)
  {
    forall i | 0 <= i < |ds| - 1 :: ds[i] <= ds[i + 1]
  }

  /** Some two adjacent digits are equal. */
  ghost predicate HasAdjacentPair(ds: seq<nat>)
  {
    exists i | 0 <= i < |ds| - 1 :: ds[i] == ds[i + 1]
  }

  /** A maximal run of equal digits of length exactly two starts at i. */
  ghost predicate PairAt(ds: seq<nat>, i: int)
  {
    && 0 <= i && i + 1 < |ds| && ds[i] == ds[i + 1]
    && (i == 0 || ds[i - 1] != ds[i])
    && (i + 2 == |ds| || ds[i + 2] != ds[i])
  }

  ghost predicate HasExactPair(ds: seq<nat>)
  {
    exists i :: PairAt(ds, i)
  }

  /** The digits of n that the walk has not read yet, n being what is left of the number. */
  function Unread(n: nat): seq<nat>
  {
    if n == 0 then [] else Digits(n)
  }

  /** One step of the walk reads the last unread digit. */
  lemma UnreadStep(n: nat)
    requires n != 0
    ensures Unread(n) == Unread(n / 10) + [n % 10]
  {
  }

  /** Reading one more digit: it goes in front of the digits read so far. */
  lemma ReadOne(number: nat, n: nat, read: seq<nat>)
    requires n != 0 && Digits(number) == Unread(n) + read
    ensures Digits(number) == Unread(n / 10) + [n % 10] + read
  {
    UnreadStep(n);
  }

  /** The walk starts with the last digit read. */
  lemma UnreadStart(number: nat)
    requires number >= 10
    ensures Digits(number) == Unread(number / 10) + [number % 10]
  {
  }

  /** A digit above the next one breaks the order, whatever surrounds them. */
  lemma DescentBreaksOrder(pre: seq<nat>, d: nat, read: seq<nat>)
    requires |read| >= 1 && d > read[0]
    ensures !NonDecreasing(pre + [d] + read)
  {
    var full := pre + [d] + read;
    assert full[|pre|] == d && full[|pre| + 1] == read[0];
  }

  lemma ConsNonDecreasing(d: nat, read: seq<nat>)
    requires |read| >= 1 && d <= read[0] && NonDecreasing(read)
    ensures NonDecreasing([d] + read)
  {
    var next := [d] + read;
    forall i | 0 < i < |next| - 1 ensures next[i] <= next[i + 1] {
      assert next[i] == read[i - 1] && next[i + 1] == read[i];
    }
  }

  /** `has_increasing_digits`. */
  method HasIncreasingDigits(number: nat) returns (r: bool)
    ensures r <==> NonDecreasing(Digits(number))
  {
    if number < 10 {
      return true;
    }
    UnreadStart(number);
    var n: nat := number / 10;
    var lastDigit: nat := number % 10;
    ghost var read: seq<nat> := [lastDigit];
    while n != 0
      invariant Digits(number) == Unread(n) + read
      invariant |read| >= 1 && read[0] == lastDigit && NonDecreasing(read)
    {
      ReadOne(number, n, read);
      var d: nat := n % 10;
      if d > lastDigit {
        DescentBreaksOrder(Unread(n / 10), d, read);
        return false;
      }
      ConsNonDecreasing(d, read);
      read := [d] + read;
      lastDigit := d;
      n := n / 10;
    }
    r := true;
  }

  /** Two equal neighbours, whatever surrounds them. */
  lemma EqualNeighbours(pre: seq<nat>, d: nat, read: seq<nat>)
    requires |read| >= 1 && d == read[0]
    ensures HasAdjacentPair(pre + [d] + read)
  {
    var full := pre + [d] + read;
    assert full[|pre|] == d && full[|pre| + 1] == read[0];
  }

  lemma ConsNoPair(d: nat, read: seq<nat>)
    requires |read| >= 1 && d != read[0] && !HasAdjacentPair(read)
    ensures !HasAdjacentPair([d] + read)
  {
    var next := [d] + read;
    forall i | 0 < i < |next| - 1 ensures next[i] != next[i + 1] {
      assert next[i] == read[i - 1] && next[i + 1] == read[i];
    }
  }

  /** `has_two_consecutive_identical_digits`. */
  method HasTwoConsecutiveIdenticalDigits(number: nat) returns (r: bool)
    ensures r <==> HasAdjacentPair(Digits(number))
  {
    if number < 10 {
      return false;
    }
    UnreadStart(number);
    var n: nat := number / 10;
    var lastDigit: nat := number % 10;
    ghost var read: seq<nat> := [lastDigit];
    while n != 0
      invariant Digits(number) == Unread(n) + read
      invariant |read| >= 1 && read[0] == lastDigit && !HasAdjacentPair(read)
    {
      ReadOne(number, n, read);
      var d: nat := n % 10;
      if lastDigit == d {
        EqualNeighbours(Unread(n / 10), d, read);
        return true;
      }
      ConsNoPair(d, read);
      read := [d] + read;
      lastDigit := d;
      n := n / 10;
    }
    r := false;
  }

  /**
   * What `not_part_larget_group` knows about the digits it has read: they begin with a run
   * of len copies of last, and no run of exactly two starts after that run.
   */
  ghost predicate RunState(read: seq<nat>, last: nat, len: nat)
  {
    && 1 <= len <= |read|
    && (forall j | 0 <= j < len :: read[j] == last)
    && (len == |read| || read[len] != last)
    && (forall i | len <= i :: !PairAt(read, i))
  }

  /** A digit equal to the leading run extends it. */
  lemma RunGrows(d: nat, read: seq<nat>, len: nat)
    requires RunState(read, d, len)
    ensures RunState([d] + read, d, len + 1)
  {
    var next := [d] + read;
    assert forall k | 0 <= k < |read| :: next[k + 1] == read[k];
    forall i | len + 1 <= i ensures !PairAt(next, i) {
      assert !PairAt(read, i - 1);
    }
  }

  /** A different digit closes a leading run that is not exactly two and starts a new one. */
  lemma RunCloses(d: nat, read: seq<nat>, last: nat, len: nat)
    requires RunState(read, last, len) && d != last && len != 2
    ensures RunState([d] + read, d, 1)
  {
    var next := [d] + read;
    assert forall k | 0 <= k < |read| :: next[k + 1] == read[k];
    forall i | 1 <= i ensures !PairAt(next, i) {
      if i == 1 {
        if len == 1 {
          assert |read| == 1 || read[1] != read[0];
        } else {
          assert read[2] == read[0];
        }
      } else if i - 1 < len {
        assert i >= |next| || next[i - 1] == next[i];
      } else {
        assert !PairAt(read, i - 1);
      }
    }
  }

  /** A different digit before a leading run of exactly two makes that run maximal. */
  lemma RunOfTwo(pre: seq<nat>, d: nat, read: seq<nat>, last: nat)
    requires RunState(read, last, 2) && d != last
    ensures HasExactPair(pre + [d] + read)
  {
    var full := pre + [d] + read;
    var at := |pre| + 1;
    assert full[at - 1] == d && full[at] == read[0] && full[at + 1] == read[1];
    assert at + 2 == |full| || full[at + 2] == read[2];
    assert PairAt(full, at);
  }

  /** When every digit is read, there is a run of exactly two iff the leading run is one. */
  lemma RunEnd(read: seq<nat>, last: nat, len: nat)
    requires RunState(read, last, len)
    ensures HasExactPair(read) <==> len == 2
  {
    if len == 2 {
      assert PairAt(read, 0);
    } else {
      forall i ensures !PairAt(read, i) {
        if 0 < i < len {
          assert read[i - 1] == read[i];
        } else if i == 0 && len < |read| {
          assert len == 1 || read[2] == last;
        }
      }
    }
  }

  /**
   * `not_part_larget_group`: true when some maximal run of equal digits has length exactly
   * two, and (as written) for every single-digit number.
   */
  method NotPartOfLargerGroup(number: nat) returns (r: bool)
    ensures r <==> number < 10 || HasExactPair(Digits(number))
  {
    if number < 10 {
      return true;
    }
    UnreadStart(number);
    var n: nat := number / 10;
    var lastDigit: nat := number % 10;
    var seqLen: nat := 1;
    ghost var read: seq<nat> := [lastDigit];
    while n != 0
      invariant Digits(number) == Unread(n) + read
      invariant RunState(read, lastDigit, seqLen)
    {
      ReadOne(number, n, read);
      var d: nat := n % 10;
      if lastDigit == d {
        RunGrows(d, read, seqLen);
        seqLen := seqLen + 1;
      } else {
        if seqLen == 2 {
          RunOfTwo(Unread(n / 10), d, read, lastDigit);
          return true;
        }
        RunCloses(d, read, lastDigit, seqLen);
        seqLen := 1;
        lastDigit := d;
      }
      read := [d] + read;
      n := n / 10;
    }
    assert Digits(number) == read;
    RunEnd(read, lastDigit, seqLen);
    r := seqLen == 2;
  }

  /** `is_potential_password1`: non-decreasing digits with two equal neighbours. */
  method IsPotentialPassword1(number: nat) returns (r: bool)
    ensures r <==> NonDecreasing(Digits(number)) && HasAdjacentPair(Digits(number))
  {
    r := HasIncreasingDigits(number);
    if r {
      r := HasTwoConsecutiveIdenticalDigits(number);
    }
  }

  /** `is_potential_password2`: non-decreasing digits with a run of exactly two. */
  method IsPotentialPassword2(number: nat) returns (r: bool)
    ensures r <==> NonDecreasing(Digits(number)) && (number < 10 || HasExactPair(Digits(number)))
  {
    r := HasIncreasingDigits(number);
    if r {
      r := NotPartOfLargerGroup(number);
    }
  }

  /** Which of the two rules a count uses. */
  datatype Part = Part1 | Part2

  ghost predicate Potential(part: Part, x: nat)
  {
    var ds := Digits(x);
    NonDecreasing(ds) && (if part == Part1 then HasAdjacentPair(ds) else x < 10 || HasExactPair(ds))
  }

  /** The numbers of lo..=hi that meet the rule. */
  ghost function Passwords(part: Part, lo: nat, hi: nat): set<nat>
  {
    set x: nat | lo <= x <= hi && Potential(part, x)
  }

  /** The numbers of lo..x (x excluded) that meet the rule. */
  ghost function Counted(part: Part, lo: nat, x: nat): set<nat>
  {
    set y: nat | lo <= y < x && Potential(part, y)
  }

  /** Moving the bound past x adds x exactly when it meets the rule. */
  lemma CountedNext(part: Part, lo: nat, x: nat)
    requires lo <= x
    ensures |Counted(part, lo, x + 1)| == |Counted(part, lo, x)| + if Potential(part, x) then 1 else 0
  {
    if Potential(part, x) {
      assert Counted(part, lo, x + 1) == Counted(part, lo, x) + {x};
    } else {
      assert Counted(part, lo, x + 1) == Counted(part, lo, x);
    }
  }

  /** The filter over `lo..hi + 1` in `answer1` and `answer2`, counted. */
  method CountPasswords(part: Part, lo: nat, hi: nat) returns (count: nat)
    ensures count == |Passwords(part, lo, hi)|
  {
    count := 0;
    var x := lo;
    while x <= hi
      invariant lo <= x <= hi + 1 || (x == lo && hi < lo)
      invariant count == |Counted(part, lo, x)|
    {
      var ok;
      if part == Part1 {
        ok := IsPotentialPassword1(x);
      } else {
        ok := IsPotentialPassword2(x);
      }
      assert ok <==> Potential(part, x);
      CountedNext(part, lo, x);
      if ok {
        count := count + 1;
      }
      x := x + 1;
    }
    assert Counted(part, lo, x) == Passwords(part, lo, hi);
  }

  /** `answer1`: how many numbers of the puzzle range meet the first rule. */
  method Answer1() returns (count: nat)
    ensures count == |Passwords(Part1, MIN_VAL, MAX_VAL)|
  {
    count := CountPasswords(Part1, MIN_VAL, MAX_VAL);
  }

  /** `answer2`: how many numbers of the puzzle range meet the second rule. */
  method Answer2() returns (count: nat)
    ensures count == |Passwords(Part2, MIN_VAL, MAX_VAL)|
  {
    count := CountPasswords(Part2, MIN_VAL, MAX_VAL);
  }

  // ---------------------------------------------------------------- properties

  /** Non-decreasing neighbours make the whole sequence sorted. */
  lemma {:induction false} NonDecreasingSorted(ds: seq<nat>, i: nat, j: nat)
    requires NonDecreasing(ds) && i <= j < |ds|
    ensures ds[i] <= ds[j]
    decreases j - i
  {
    if i < j {
      NonDecreasingSorted(ds, i + 1, j);
    }
  }

  /** A run of exactly two is a pair of equal neighbours, so the second rule implies the first. */
  lemma Part2ImpliesPart1(x: nat)
    requires x >= 10 && Potential(Part2, x)
    ensures Potential(Part1, x)
  {
    var i :| PairAt(Digits(x), i);
  }
}

/** The tests of src/y2019/day04.rs, stated on the digit rules. */
module Day04Examples {
  import opened Day04Passwords

  /** The tests of `has_increasing_digits` on short numbers. */
  lemma IncreasingTests()
    ensures NonDecreasing(Digits(1)) && NonDecreasing(Digits(123)) && NonDecreasing(Digits(111))
    ensures !NonDecreasing(Digits(132))
  {
    assert Digits(123) == [1, 2, 3] && Digits(111) == [1, 1, 1];
    var ds := Digits(132);
    assert ds == [1, 3, 2] && ds[1] > ds[2];
  }

  /** The test of `has_increasing_digits` on 315999. */
  lemma IncreasingTestLong()
    ensures !NonDecreasing(Digits(315999))
  {
    var ds := Digits(315999);
    assert ds == [3, 1, 5, 9, 9, 9] && ds[0] > ds[1];
  }

  /** The tests of `has_two_consecutive_identical_digits` on short numbers. */
  lemma AdjacentPairTests()
    ensures !HasAdjacentPair(Digits(1)) && !HasAdjacentPair(Digits(12))
    ensures HasAdjacentPair(Digits(11)) && HasAdjacentPair(Digits(12443))
  {
    assert Digits(12) == [1, 2];
    var ds := Digits(11);
    assert ds == [1, 1] && ds[0] == ds[1];
    var es := Digits(12443);
    assert es == [1, 2, 4, 4, 3] && es[2] == es[3];
  }

  /** The test of `has_two_consecutive_identical_digits` on 123123. */
  lemma AdjacentPairTestLong()
    ensures !HasAdjacentPair(Digits(123123))
  {
    assert Digits(123123) == [1, 2, 3, 1, 2, 3];
  }

  /** The test of `is_potential_password1` on 111111. */
  lemma Password1TestFirst()
    ensures Potential(Part1, 111111)
  {
    var ds := Digits(111111);
    assert ds == [1, 1, 1, 1, 1, 1] && ds[0] == ds[1];
  }

  /** The test of `is_potential_password1` on 223450. */
  lemma Password1TestSecond()
    ensures !Potential(Part1, 223450)
  {
    var ds := Digits(223450);
    assert ds == [2, 2, 3, 4, 5, 0] && ds[4] > ds[5];
  }

  /** The test of `is_potential_password1` on 123789. */
  lemma Password1TestLast()
    ensures !Potential(Part1, 123789)
  {
    assert Digits(123789) == [1, 2, 3, 7, 8, 9];
  }

  /** The tests of `not_part_larget_group` on 112233 and 111122. */
  lemma ExactPairTrueTests()
    ensures HasExactPair(Digits(112233)) && HasExactPair(Digits(111122))
  {
    var ds := Digits(112233);
    assert ds == [1, 1, 2, 2, 3, 3] && PairAt(ds, 0);
    var es := Digits(111122);
    assert es == [1, 1, 1, 1, 2, 2] && PairAt(es, 4);
  }

  /** The test of `not_part_larget_group` on 116666. */
  lemma ExactPairTrueTestLast()
    ensures HasExactPair(Digits(116666))
  {
    var ds := Digits(116666);
    assert ds == [1, 1, 6, 6, 6, 6] && PairAt(ds, 0);
  }

  /** Three or four equal digits at the end and no other neighbours equal: no run of exactly two. */
  lemma ExactPairFalseTests()
    ensures !HasExactPair(Digits(123444)) && !HasExactPair(Digits(126666))
  {
    var ds := Digits(123444);
    assert ds == [1, 2, 3, 4, 4, 4];
    forall i ensures !PairAt(ds, i) {
    }
    var es := Digits(126666);
    assert es == [1, 2, 6, 6, 6, 6];
    forall i ensures !PairAt(es, i) {
    }
  }

  /** Four equal digits at either end: no run of exactly two. */
  lemma ExactPairFalseTestsMore()
    ensures !HasExactPair(Digits(111123)) && !HasExactPair(Digits(689999))
  {
    var ds := Digits(111123);
    assert ds == [1, 1, 1, 1, 2, 3];
    forall i ensures !PairAt(ds, i) {
    }
    var es := Digits(689999);
    assert es == [6, 8, 9, 9, 9, 9];
    forall i ensures !PairAt(es, i) {
    }
  }
}
