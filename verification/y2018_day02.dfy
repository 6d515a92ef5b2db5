/**
 * The box ids of src/y2018/day02.rs: a checksum from ids having some letter exactly twice
 * or three times, and the letters two ids share when they differ in one position.
 */
module BoxIds {

  /**
   * The per-id map of `answer1`: each character of the id to how many times it occurs.
   * The loop adds one to a character's entry, creating it at 1.
   */
  method LetterCounts(id: string) returns (m: map<char, nat>)
    ensures forall c :: c in m <==> c in id
    ensures forall c | c in m :: m[c] == multiset(id)[c]
  {
    m := map[];
    for k := 0 to |id|
      invariant forall c :: c in m <==> c in id[..k]
      invariant forall c | c in m :: m[c] == multiset(id[..k])[c]
    {
      var c := id[k];
      assert id[..k + 1] == id[..k] + [c];
      m := m[c := if c in m then m[c] + 1 else 1];
    }
    assert id[..|id|] == id;
  }

  /** `has_value`: some entry of the map holds x. */
  function HasValue<K, V(==)>(m: map<K, V>, x: V): (r: bool)
    ensures r <==> exists k | k in m :: m[k] == x
  {
    x in m.Values
  }

  /** Some letter occurs exactly n times in the id. */
  ghost predicate HasExactly(id: string, n: nat)
  {
    exists c | c in id :: multiset(id)[c] == n
  }

  /** On an id's letter counts, `has_value` for n > 0 asks whether some letter occurs n times. */
  lemma HasValueCounts(id: string, m: map<char, nat>, n: nat)
    requires forall c :: c in m <==> c in id
    requires forall c | c in m :: m[c] == multiset(id)[c]
    requires n > 0
    ensures HasValue(m, n) <==> HasExactly(id, n)
  {
    if HasExactly(id, n) {
      var c :| c in id && multiset(id)[c] == n;
      assert m[c] == n;
    }
  }

  /** How many of the ids have some letter exactly n times. */
  ghost function CountWith(ids: seq<string>, n: nat): (r: nat)
    ensures r <= |ids|
  {
    if |ids| == 0 then 0
    else CountWith(ids[..|ids| - 1], n) + (if HasExactly(ids[|ids| - 1], n) then 1 else 0)
  }

  /** The two `has_value` tests of `answer1` on one id's letter counts. */
  method Flags(id: string) returns (three: bool, two: bool)
    ensures three <==> HasExactly(id, 3)
    ensures two <==> HasExactly(id, 2)
  {
    var counts := LetterCounts(id);
    HasValueCounts(id, counts, 3);
    HasValueCounts(id, counts, 2);
    three := HasValue(counts, 3);
    two := HasValue(counts, 2);
  }

  lemma CountWithStep(ids: seq<string>, k: nat, n: nat)
    requires k < |ids|
    ensures CountWith(ids[..k + 1], n) == CountWith(ids[..k], n) + (if HasExactly(ids[k], n) then 1 else 0)
  {
    assert ids[..k + 1][..k] == ids[..k];
  }

  /** Counting id k in: each count grows by one exactly when its flag is set. */
  lemma TallyStep(ids: seq<string>, k: nat, has3: nat, has2: nat, three: bool, two: bool)
    requires k < |ids| && has3 == CountWith(ids[..k], 3) && has2 == CountWith(ids[..k], 2)
    requires (three <==> HasExactly(ids[k], 3)) && (two <==> HasExactly(ids[k], 2))
    ensures CountWith(ids[..k + 1], 3) == has3 + (if three then 1 else 0)
    ensures CountWith(ids[..k + 1], 2) == has2 + (if two then 1 else 0)
  {
    CountWithStep(ids, k, 3);
    CountWithStep(ids, k, 2);
  }

  function Times(a: nat, b: nat): nat
  {
    a * b
  }

  /**
   * `answer1`: the number of ids with a letter exactly three times, times the number with
   * a letter exactly twice.  One id may count for both.
   */
  method Checksum(ids: seq<string>) returns (checksum: nat)
    ensures checksum == CountWith(ids, 3) * CountWith(ids, 2)
  {
    var has3: nat := 0;
    var has2: nat := 0;
    for k := 0 to |ids|
      invariant has3 == CountWith(ids[..k], 3)
      invariant has2 == CountWith(ids[..k], 2)
    {
      var three, two := Flags(ids[k]);
      TallyStep(ids, k, has3, has2, three, two);
      if three {
        has3 := has3 + 1;
      }
      if two {
        has2 := has2 + 1;
      }
    }
    assert ids[..|ids|] == ids;
    checksum := Times(has3, has2);
  }

  /** An id with one letter twice and another three times counts for both factors. */
  lemma CountsForBoth()
    ensures HasExactly("bababc", 2) && HasExactly("bababc", 3)
  {
    assert multiset("bababc")['a'] == 2;
    assert multiset("bababc")['b'] == 3;
  }

  /**
   * `common_letters`: zip the two ids, keep the pairs that agree, take their character.
   * The zip stops at the shorter id.
   */
  function CommonLetters(x: string, y: string): (r: string)
    ensures |r| <= |x| && |r| <= |y|
  {
    if |x| == 0 || |y| == 0 then ""
    else (if x[0] == y[0] then [x[0]] else []) + CommonLetters(x[1..], y[1..])
  }

  /** The positions, up to the shorter length, where the two ids differ. */
  function Differences(x: string, y: string): nat
  {
    if |x| == 0 || |y| == 0 then 0
    else (if x[0] == y[0] then 0 else 1) + Differences(x[1..], y[1..])
  }

  function Min(a: nat, b: nat): nat
  {
    if a <= b then a else b
  }

  /** Every position up to the shorter length is either kept or a difference. */
  lemma {:induction false} CommonAndDifferences(x: string, y: string)
    ensures |CommonLetters(x, y)| + Differences(x, y) == Min(|x|, |y|)
  {
    if |x| > 0 && |y| > 0 {
      CommonAndDifferences(x[1..], y[1..]);
    }
  }

  /** The common letters are x's letters at the agreeing positions, in order. */
  lemma {:induction false} CommonLettersKeep(x: string, y: string, i: nat)
    requires i <= |x| && i <= |y| && forall j | 0 <= j < i :: x[j] == y[j]
    ensures CommonLetters(x, y) == x[..i] + CommonLetters(x[i..], y[i..])
  {
    if i > 0 {
      CommonLettersKeep(x[1..], y[1..], i - 1);
      assert x[1..][..i - 1] == x[..i][1..];
      assert x[1..][i - 1..] == x[i..] && y[1..][i - 1..] == y[i..];
      assert x[..i] == [x[0]] + x[..i][1..];
    }
  }

  /** From a differing position on, with no difference after it, the ids share what follows it. */
  lemma CommonAfterDifference(x: string, y: string, i: nat)
    requires |x| == |y| && i < |x| && x[i] != y[i]
    requires forall j | i < j < |x| :: x[j] == y[j]
    ensures CommonLetters(x[i..], y[i..]) == x[i + 1..]
  {
    var x', y' := x[i..], y[i..];
    assert x'[1..] == x[i + 1..] && y'[1..] == y[i + 1..];
    assert CommonLetters(x', y') == CommonLetters(x[i + 1..], y[i + 1..]);
    CommonLettersKeep(x[i + 1..], y[i + 1..], |x| - i - 1);
    assert x[i + 1..][..|x| - i - 1] == x[i + 1..];
    assert x[i + 1..][|x| - i - 1..] == [];
  }

  /** Ids of equal length that differ only at i share x without its i-th letter. */
  lemma OneDifference(x: string, y: string, i: nat)
    requires |x| == |y| && i < |x| && x[i] != y[i]
    requires forall j | 0 <= j < |x| && j != i :: x[j] == y[j]
    ensures CommonLetters(x, y) == x[..i] + x[i + 1..]
    ensures |CommonLetters(x, y)| == |x| - 1
  {
    CommonLettersKeep(x, y, i);
    CommonAfterDifference(x, y, i);
  }

  /** Equal-length ids have one letter fewer in common exactly when they differ at one position. */
  lemma OneFewerIffOneDifference(x: string, y: string)
    requires |x| == |y| && |x| > 0
    ensures |CommonLetters(x, y)| == |x| - 1 <==> Differences(x, y) == 1
  {
    CommonAndDifferences(x, y);
  }

  /** The number of bytes the UTF-8 encoding of c takes. */
  function CharBytes(c: char): nat
  {
    if c as int < 0x80 then 1 else if c as int < 0x800 then 2 else if c as int < 0x1_0000 then 3 else 4
  }

  /** Every character encodes as a single byte. */
  predicate Ascii(s: string)
  {
    forall k | 0 <= k < |s| :: s[k] as int < 0x80
  }

  /** Rust's `str::len`: the length of the UTF-8 encoding in bytes, not in characters. */
  function Utf8Len(s: string): (n: nat)
    ensures |s| <= n <= 4 * |s|
  {
    if |s| == 0 then 0 else CharBytes(s[0]) + Utf8Len(s[1..])
  }

  /** The byte length equals the character count exactly on ASCII text. */
  lemma {:induction false} Utf8LenAscii(s: string)
    ensures Utf8Len(s) == |s| <==> Ascii(s)
  {
    if |s| > 0 {
      Utf8LenAscii(s[1..]);
      assert Ascii(s) <==> s[0] as int < 0x80 && Ascii(s[1..]) by {
        if s[0] as int < 0x80 && Ascii(s[1..]) {
          forall k | 0 < k < |s| ensures s[k] as int < 0x80 {
            assert s[k] == s[1..][k - 1];
          }
        }
      }
    }
  }

  /** The common letters of an ASCII id are ASCII: each is a letter of the first id. */
  lemma {:induction false} CommonLettersAscii(x: string, y: string)
    requires Ascii(x)
    ensures Ascii(CommonLetters(x, y))
  {
    if |x| > 0 && |y| > 0 {
      CommonLettersAscii(x[1..], y[1..]);
      assert x[0] as int < 0x80;
      var rest := CommonLetters(x[1..], y[1..]);
      assert CommonLetters(x, y) == (if x[0] == y[0] then [x[0]] else []) + rest;
    }
  }

  /**
   * The scan of `answer2` stops at pair (i, j): either the subtraction `l - 1` on the empty
   * id i underflows, or the common letters take one byte fewer than id i.
   */
  predicate Stops(ids: seq<string>, i: nat, j: nat)
    requires i < |ids| && j < |ids|
  {
    Utf8Len(ids[i]) == 0 || Utf8Len(CommonLetters(ids[i], ids[j])) == Utf8Len(ids[i]) - 1
  }

  /** On ASCII ids of equal length the scan stops exactly at an empty id or one difference. */
  lemma StopsAscii(ids: seq<string>, i: nat, j: nat)
    requires i < |ids| && j < |ids| && Ascii(ids[i]) && |ids[i]| == |ids[j]|
    ensures Stops(ids, i, j) <==> |ids[i]| == 0 || Differences(ids[i], ids[j]) == 1
  {
    var x, y := ids[i], ids[j];
    Utf8LenAscii(x);
    CommonLettersAscii(x, y);
    Utf8LenAscii(CommonLetters(x, y));
    if |x| > 0 {
      OneFewerIffOneDifference(x, y);
    }
  }

  /**
   * Lengths are bytes: "éa" and "xa" differ in one character, but "é" takes two bytes, so
   * the single common letter "a" is not one byte fewer than the three of "éa".
   */
  lemma ByteLengthExample()
    ensures Differences(['\U{E9}', 'a'], "xa") == 1
    ensures CommonLetters(['\U{E9}', 'a'], "xa") == "a"
    ensures !Stops([['\U{E9}', 'a'], "xa"], 0, 1)
  {
    var x: string := ['\U{E9}', 'a'];
    assert x[1..] == "a" && "xa"[1..] == "a";
    assert Utf8Len(x) == 3 by {
      assert CharBytes(x[0]) == 2;
      assert Utf8Len(x[1..]) == 1;
    }
  }

  /** No pair before (i, j) in scan order (by i, then by j > i) stops the scan. */
  ghost predicate NoStopBefore(ids: seq<string>, i: nat, j: nat)
  {
    forall a, b | 0 <= a < b < |ids| && (a < i || (a == i && b < j)) :: !Stops(ids, a, b)
  }

  /** What `answer2` ends with. */
  datatype Found = Common(letters: string) | Underflow | Unreachable

  /**
   * `answer2`: for each id, in order, the later ids in order; the first pair whose common
   * letters take one byte fewer than the first id reports them (`len` counts UTF-8 bytes).
   * An empty id reaching the comparison panics on `l - 1`; running out of pairs reaches
   * `unreachable!`.
   */
  method FindBoxes(ids: seq<string>) returns (r: Found)
    ensures r.Common? ==> exists i, j | 0 <= i < j < |ids| ::
      NoStopBefore(ids, i, j) && Utf8Len(ids[i]) > 0
      && Utf8Len(CommonLetters(ids[i], ids[j])) == Utf8Len(ids[i]) - 1
      && r.letters == CommonLetters(ids[i], ids[j])
    ensures r.Underflow? ==> exists i, j | 0 <= i < j < |ids| :: NoStopBefore(ids, i, j) && |ids[i]| == 0
    ensures r.Unreachable? ==> forall a, b | 0 <= a < b < |ids| :: !Stops(ids, a, b)
  {
    for i := 0 to |ids|
      invariant NoStopBefore(ids, i, 0)
    {
      var l := Utf8Len(ids[i]);
      for j := i + 1 to |ids|
        invariant NoStopBefore(ids, i, j)
      {
        var common := CommonLetters(ids[i], ids[j]);
        if l == 0 {
          return Underflow;
        }
        if Utf8Len(common) == l - 1 {
          return Common(common);
        }
      }
    }
    return Unreachable;
  }
}
