/**
 * The first Intcode interpreter, written inline in `answer1` of src/y2019/day02.rs: opcodes
 * 1, 2 and 99 only, every parameter an address, memory a vector of unsigned words that is
 * patched at cells 1 and 2 and then executed in place.
 */
module Day02 {

  /** Why the source panics: an index past the end of memory, or an opcode outside 1, 2, 99. */
  datatype Panic = IndexOutOfBounds(index: nat) | UnknownCode(code: nat)

  /** Where execution ends: the loop left with the final memory, or a panic. */
  datatype Outcome = Finished(codes: seq<nat>) | Panicked(reason: Panic)

  /** What `answer1` reports: cell 0 of the final memory, or the panic. */
  datatype Report = Answer(value: nat) | Aborted(reason: Panic)

  /**
   * One arithmetic instruction at idx.  The reads happen in the source's order (the three
   * parameters, then the two operands) and the first index past the end panics; otherwise
   * the sum or product is written at the third parameter.
   */
  function Arith(c: seq<nat>, idx: nat): (r: Outcome)
    requires idx < |c| && c[idx] in {1, 2}
    ensures r.Finished? ==> |r.codes| == |c|
    ensures r.Finished? <==> idx + 3 < |c| && c[idx + 1] < |c| && c[idx + 2] < |c| && c[idx + 3] < |c|
  {
    if idx + 1 >= |c| then Panicked(IndexOutOfBounds(idx + 1))
    else if idx + 2 >= |c| then Panicked(IndexOutOfBounds(idx + 2))
    else if idx + 3 >= |c| then Panicked(IndexOutOfBounds(idx + 3))
    else if c[idx + 1] >= |c| then Panicked(IndexOutOfBounds(c[idx + 1]))
    else if c[idx + 2] >= |c| then Panicked(IndexOutOfBounds(c[idx + 2]))
    else if c[idx + 3] >= |c| then Panicked(IndexOutOfBounds(c[idx + 3]))
    else
      var a, b := c[c[idx + 1]], c[c[idx + 2]];
      Finished(c[c[idx + 3] := if c[idx] == 1 then a + b else a * b])
  }

  /** The loop from instruction index idx: stop past the end or at 99, else advance by 4. */
  function Exec(c: seq<nat>, idx: nat): (r: Outcome)
    ensures r.Finished? ==> |r.codes| == |c|
    decreases |c| - idx
  {
    if idx >= |c| then Finished(c)
    else if c[idx] == 99 then Finished(c)
    else if c[idx] !in {1, 2} then Panicked(UnknownCode(c[idx]))
    else match Arith(c, idx)
      case Panicked(p) => Panicked(p)
      case Finished(next) => Exec(next, idx + 4)
  }

  /** `answer1` on the parsed words: patch cells 1 and 2, run, report cell 0. */
  function Answer1(input: seq<nat>): (r: Report)
  {
    if |input| <= 1 then Aborted(IndexOutOfBounds(1))
    else if |input| <= 2 then Aborted(IndexOutOfBounds(2))
    else match Exec(input[1 := 12][2 := 2], 0)
      case Panicked(p) => Aborted(p)
      case Finished(c) => Answer(c[0])
  }

  /** One step of the loop at an arithmetic opcode: a panic, or on to idx + 4 in the new memory. */
  lemma ExecArith(c: seq<nat>, idx: nat)
    requires idx < |c| && c[idx] in {1, 2}
    ensures Arith(c, idx).Panicked? ==> Exec(c, idx) == Panicked(Arith(c, idx).reason)
    ensures Arith(c, idx).Finished? ==> Exec(c, idx) == Exec(Arith(c, idx).codes, idx + 4)
  {
  }

  /**
   * The body of `answer1`'s loop for opcode 1 or 2, in place: the checks in the source's
   * order, then the write.  A panic leaves the memory as it was.
   */
  method ArithInPlace(codes: array<nat>, idx: nat) returns (failed: bool, reason: Panic)
    requires idx < codes.Length && codes[idx] in {1, 2}
    modifies codes
    ensures failed <==> Arith(old(codes[..]), idx).Panicked?
    ensures failed ==> reason == Arith(old(codes[..]), idx).reason && codes[..] == old(codes[..])
    ensures !failed ==> codes[..] == Arith(old(codes[..]), idx).codes
  {
    reason := IndexOutOfBounds(0);
    if idx + 3 >= codes.Length {
      return true, IndexOutOfBounds(if idx + 1 >= codes.Length then idx + 1
                                    else if idx + 2 >= codes.Length then idx + 2 else idx + 3);
    }
    var idx1, idx2, idxRes := codes[idx + 1], codes[idx + 2], codes[idx + 3];
    if idx1 >= codes.Length {
      return true, IndexOutOfBounds(idx1);
    } else if idx2 >= codes.Length {
      return true, IndexOutOfBounds(idx2);
    } else if idxRes >= codes.Length {
      return true, IndexOutOfBounds(idxRes);
    }
    var result := if codes[idx] == 1 then codes[idx1] + codes[idx2] else codes[idx1] * codes[idx2];
    codes[idxRes] := result;
    failed := false;
  }

  /** `answer1`, with the parsed words as its input and the printed value as its result. */
  method RunAnswer1(input: seq<nat>) returns (r: Report)
    ensures r == Answer1(input)
  {
    var codes := new nat[|input|](i requires 0 <= i < |input| => input[i]);
    if codes.Length <= 1 {
      return Aborted(IndexOutOfBounds(1));
    }
    codes[1] := 12;
    if codes.Length <= 2 {
      return Aborted(IndexOutOfBounds(2));
    }
    codes[2] := 2;
    ghost var start := codes[..];
    assert start == input[1 := 12][2 := 2];
    var idx := 0;
    while idx < codes.Length
      invariant Exec(codes[..], idx) == Exec(start, 0)
      decreases codes.Length - idx
    {
      var ins := codes[idx];
      if ins == 99 {
        break;
      } else if ins != 1 && ins != 2 {
        return Aborted(UnknownCode(ins));
      }
      ExecArith(codes[..], idx);
      var failed, reason := ArithInPlace(codes, idx);
      if failed {
        return Aborted(reason);
      }
      idx := idx + 4;
    }
    r := Answer(codes[0]);
  }

  /** The loop may stop here: past the end of memory, or at a 99. */
  ghost predicate StopsAt(c: seq<nat>, j: nat)
  {
    j >= |c| || c[j] == 99
  }

  /** An arithmetic instruction writes its result at the third parameter and nowhere else. */
  lemma ArithEffect(c: seq<nat>, idx: nat)
    requires idx < |c| && c[idx] in {1, 2} && Arith(c, idx).Finished?
    ensures var r, a, b := Arith(c, idx).codes, c[c[idx + 1]], c[c[idx + 2]];
      && |r| == |c|
      && r[c[idx + 3]] == (if c[idx] == 1 then a + b else a * b)
      && forall j | 0 <= j < |c| && j != c[idx + 3] :: r[j] == c[j]
  {
  }

  /**
   * When the loop finishes, it stopped at an instruction index reached from idx in steps of
   * exactly 4, and there the memory has ended or holds 99.
   */
  lemma {:induction false} ExecEndsAtStop(c: seq<nat>, idx: nat)
    requires Exec(c, idx).Finished?
    ensures exists j: nat :: j >= idx && (j - idx) % 4 == 0 && StopsAt(Exec(c, idx).codes, j)
    decreases |c| - idx
  {
    if idx >= |c| || c[idx] == 99 {
      assert StopsAt(Exec(c, idx).codes, idx);
    } else {
      var next := Arith(c, idx).codes;
      ExecEndsAtStop(next, idx + 4);
      var j: nat :| j >= idx + 4 && (j - idx - 4) % 4 == 0 && StopsAt(Exec(next, idx + 4).codes, j);
      assert (j - idx) % 4 == 0;
    }
  }

  /** A word outside 1, 2 and 99 where the loop reads an opcode is a panic, whatever follows. */
  lemma ExecUnknownPanics(c: seq<nat>, idx: nat)
    requires idx < |c| && c[idx] !in {1, 2, 99}
    ensures Exec(c, idx) == Panicked(UnknownCode(c[idx]))
  {
  }

  /** A worked program: 30 + 40 goes to cell 3, then 70 * 50 to cell 0, then 99 stops. */
  lemma ExampleProgram()
    ensures Exec([1, 9, 10, 3, 2, 3, 11, 0, 99, 30, 40, 50], 0)
         == Finished([3500, 9, 10, 70, 2, 3, 11, 0, 99, 30, 40, 50])
  {
  }
}
