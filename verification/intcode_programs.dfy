/**
 * Two Intcode programs from the repository's tests, run on the model: the self-reproducing
 * program of src/y2019/day09.rs and the compare-to-8 program of src/y2019/computer.rs.
 */
module IntcodePrograms {
  import opened IntcodeSpec
  import opened IntcodeProperties
  import IntcodeComputer

  // ---------------------------------------------------------------- the quine

  const Quine: seq<int> := [109, 1, 204, -1, 1001, 100, 1, 100, 1008, 100, 16, 101, 1006, 101, 0, 99]

  /**
   * Memory of the quine once cell 100 has been read: the program, 88 zero cells, the
   * counter in cell 100 and the loop flag in cell 101.
   */
  function QuineMemory(counter: int, flag: int): (c: seq<int>)
    ensures |c| == 104 && c[100] == counter && c[101] == flag
    ensures forall i | 0 <= i < 16 :: c[i] == Quine[i]
  {
    (Quine + seq(88, _ => 0))[100 := counter][101 := flag]
  }

  /** The quine's memory at the top of the loop after k outputs. */
  function QuineCodes(k: nat): seq<int>
  {
    if k == 0 then Quine else QuineMemory(k, 0)
  }

  /** The machine at the top of the loop after k outputs. */
  function QuineTop(k: nat): Machine
    requires k <= 16
  {
    Machine(0, QuineCodes(k), [], 0, Quine[..k], k)
  }

  /** The machine at the final `99`, with the whole program in its output log. */
  function QuineEnd(): Machine
  {
    Machine(15, QuineMemory(16, 1), [], 0, Quine, 16)
  }

  /** The machine at instruction index ip with no input, output log outs and relative base rb. */
  function At(ip: nat, c: seq<int>, outs: seq<int>, rb: int): Machine
  {
    Machine(ip, c, [], 0, outs, rb)
  }

  /** `109,1`: raise the relative base by one. */
  lemma StepRaiseBase(c: seq<int>, outs: seq<int>, rb: int, rule: InputRule)
    requires 2 <= |c| && c[0] == 109 && c[1] == 1
    ensures Stepper(rule)(At(0, c, outs, rb)) == Stepped(At(2, c, outs, rb + 1), Ok(Continue))
  {
    DecodeEncode(9, Immediate, Position, Position);
    assert Encode(9, Immediate, Position, Position) == 109;
    StepAdjustBase(At(0, c, outs, rb), rule);
  }

  /** `204,-1`: output the cell just below the relative base. */
  lemma StepEcho(c: seq<int>, outs: seq<int>, rb: int, rule: InputRule)
    requires 4 <= |c| && c[2] == 204 && c[3] == -1 && 0 <= rb - 1 < |c|
    ensures Stepper(rule)(At(2, c, outs, rb))
      == Stepped(At(4, c, outs + [c[rb - 1]], rb), Ok(StepResult.Output(c[rb - 1])))
  {
    DecodeEncode(4, Relative, Position, Position);
    assert Encode(4, Relative, Position, Position) == 204;
    StepOutput(At(2, c, outs, rb), rule);
  }

  /** `1001,100,1,100` on memory that already holds cell 100: add one to the counter. */
  lemma StepCount(c: seq<int>, outs: seq<int>, rb: int, rule: InputRule)
    requires |c| == 104 && c[4] == 1001 && c[5] == 100 && c[6] == 1 && c[7] == 100
    ensures Stepper(rule)(At(4, c, outs, rb))
      == Stepped(At(8, c[100 := c[100] + 1], outs, rb), Ok(Continue))
  {
    DecodeEncode(1, Position, Immediate, Position);
    assert Encode(1, Position, Immediate, Position) == 1001;
    StepArithmetic(At(4, c, outs, rb), rule);
  }

  /** The first `1001,100,1,100`: reading cell 100 of a 16-cell memory grows it to 104 cells. */
  lemma StepCountFirst(c: seq<int>, outs: seq<int>, rb: int, rule: InputRule)
    requires |c| == 16 && c[4] == 1001 && c[5] == 100 && c[6] == 1 && c[7] == 100
    ensures Stepper(rule)(At(4, c, outs, rb))
      == Stepped(At(8, (c + seq(88, _ => 0))[100 := 1], outs, rb), Ok(Continue))
  {
    var m := At(4, c, outs, rb);
    var grown := c + seq(88, _ => 0);
    DecodeEncode(1, Position, Immediate, Position);
    assert Encode(1, Position, Immediate, Position) == 1001;
    assert GetVal(m, 1001, 1) == Fetched(m.(codes := grown), Ok(0));
    assert Stepper(rule)(m) == Step(m, rule);
  }

  /** `1008,100,16,101`: the flag records whether the counter reached 16. */
  lemma StepSetFlag(c: seq<int>, outs: seq<int>, rb: int, rule: InputRule)
    requires |c| == 104 && c[8] == 1008 && c[9] == 100 && c[10] == 16 && c[11] == 101
    ensures Stepper(rule)(At(8, c, outs, rb))
      == Stepped(At(12, c[101 := if c[100] == 16 then 1 else 0], outs, rb), Ok(Continue))
  {
    DecodeEncode(8, Position, Immediate, Position);
    assert Encode(8, Position, Immediate, Position) == 1008;
    StepEquals(At(8, c, outs, rb), rule);
  }

  /** `1006,101,0`: back to the top while the flag is 0, on to cell 15 otherwise. */
  lemma StepLoop(c: seq<int>, outs: seq<int>, rb: int, rule: InputRule)
    requires |c| == 104 && c[12] == 1006 && c[13] == 101 && c[14] == 0
    ensures Stepper(rule)(At(12, c, outs, rb))
      == Stepped(At(if c[101] == 0 then 0 else 15, c, outs, rb), Ok(Continue))
  {
    DecodeEncode(6, Position, Immediate, Position);
    assert Encode(6, Position, Immediate, Position) == 1006;
    StepJump(At(12, c, outs, rb), rule);
  }

  /** The first two instructions of pass k: raise the base, output cell k. */
  ghost predicate QuineEchoes(step: Machine -> Stepped, k: nat)
    requires k < 16
  {
    var c := QuineCodes(k);
    && step(At(0, c, Quine[..k], k)) == Stepped(At(2, c, Quine[..k], k + 1), Ok(Continue))
    && step(At(2, c, Quine[..k], k + 1))
       == Stepped(At(4, c, Quine[..k + 1], k + 1), Ok(StepResult.Output(Quine[k])))
  }

  /** The third instruction of pass k: count. */
  ghost predicate QuineCounts(step: Machine -> Stepped, k: nat)
    requires k < 16
  {
    step(At(4, QuineCodes(k), Quine[..k + 1], k + 1))
      == Stepped(At(8, QuineMemory(k + 1, 0), Quine[..k + 1], k + 1), Ok(Continue))
  }

  /** The last two instructions of pass k: set the flag, and loop or fall through. */
  ghost predicate QuineLoops(step: Machine -> Stepped, k: nat)
    requires k < 16
  {
    var flag := if k + 1 == 16 then 1 else 0;
    && step(At(8, QuineMemory(k + 1, 0), Quine[..k + 1], k + 1))
       == Stepped(At(12, QuineMemory(k + 1, flag), Quine[..k + 1], k + 1), Ok(Continue))
    && step(At(12, QuineMemory(k + 1, flag), Quine[..k + 1], k + 1))
       == Stepped(if k + 1 < 16 then QuineTop(k + 1) else QuineEnd(), Ok(Continue))
  }

  /** The quine's memory at the top of pass k starts with the program itself. */
  lemma QuineCodesProgram(k: nat)
    ensures |QuineCodes(k)| >= 16 && forall i | 0 <= i < 16 :: QuineCodes(k)[i] == Quine[i]
  {
  }

  /** Pass k, first instruction: the base goes from k to k + 1. */
  lemma QuineRaises(k: nat, rule: InputRule)
    requires k < 16
    ensures Stepper(rule)(At(0, QuineCodes(k), Quine[..k], k))
      == Stepped(At(2, QuineCodes(k), Quine[..k], k + 1), Ok(Continue))
  {
    var c := QuineCodes(k);
    QuineCodesProgram(k);
    assert c[0] == Quine[0] && c[1] == Quine[1];
    StepRaiseBase(c, Quine[..k], k, rule);
  }

  /** Echoing word k of a program p that memory holds at cell k extends the log by that word. */
  lemma StepEchoPrefix(c: seq<int>, p: seq<int>, k: nat, rule: InputRule)
    requires k < |p| && k < |c| && 4 <= |c| && c[2] == 204 && c[3] == -1 && c[k] == p[k]
    ensures Stepper(rule)(At(2, c, p[..k], k + 1))
      == Stepped(At(4, c, p[..k + 1], k + 1), Ok(StepResult.Output(p[k])))
  {
    StepEcho(c, p[..k], k + 1, rule);
    assert p[..k] + [p[k]] == p[..k + 1];
  }

  /** Pass k, second instruction: cell k, which holds the program's k-th word, is output. */
  lemma QuineOutputs(k: nat, rule: InputRule)
    requires k < 16
    ensures Stepper(rule)(At(2, QuineCodes(k), Quine[..k], k + 1))
      == Stepped(At(4, QuineCodes(k), Quine[..k + 1], k + 1), Ok(StepResult.Output(Quine[k])))
  {
    QuineCodesProgram(k);
    StepEchoPrefix(QuineCodes(k), Quine, k, rule);
  }

  lemma QuineEchoesHolds(k: nat, rule: InputRule)
    requires k < 16
    ensures QuineEchoes(Stepper(rule), k)
  {
    QuineRaises(k, rule);
    QuineOutputs(k, rule);
  }

  /** After the first count, memory is the program, zeros, and the counter at 1. */
  lemma FirstGrowth()
    ensures (Quine + seq(88, _ => 0))[100 := 1] == QuineMemory(1, 0)
  {
    var z := Quine + seq(88, _ => 0);
    assert z[101] == 0;
    assert z[100 := 1] == z[101 := 0][100 := 1];
  }

  /** Counting on a memory that already holds the counter k. */
  lemma QuineCountsLater(k: nat, outs: seq<int>, rule: InputRule)
    requires 0 < k
    ensures Stepper(rule)(At(4, QuineMemory(k, 0), outs, k + 1))
      == Stepped(At(8, QuineMemory(k + 1, 0), outs, k + 1), Ok(Continue))
  {
    var c := QuineMemory(k, 0);
    assert c[4] == Quine[4] && c[5] == Quine[5] && c[6] == Quine[6] && c[7] == Quine[7];
    StepCount(c, outs, k + 1, rule);
    assert c[100 := c[100] + 1] == QuineMemory(k + 1, 0);
  }

  lemma QuineCountsHolds(k: nat, rule: InputRule)
    requires k < 16
    ensures QuineCounts(Stepper(rule), k)
  {
    if k == 0 {
      StepCountFirst(Quine, Quine[..1], 1, rule);
      FirstGrowth();
    } else {
      QuineCountsLater(k, Quine[..k + 1], rule);
    }
  }

  /** Setting the flag after count n: 1 exactly when n is 16. */
  lemma QuineSetsFlag(n: nat, outs: seq<int>, rule: InputRule)
    ensures Stepper(rule)(At(8, QuineMemory(n, 0), outs, n))
      == Stepped(At(12, QuineMemory(n, if n == 16 then 1 else 0), outs, n), Ok(Continue))
  {
    var c := QuineMemory(n, 0);
    assert c[8] == Quine[8] && c[9] == Quine[9] && c[10] == Quine[10] && c[11] == Quine[11];
    StepSetFlag(c, outs, n, rule);
    assert c[101 := if n == 16 then 1 else 0] == QuineMemory(n, if n == 16 then 1 else 0);
  }

  /** The conditional jump after count n: to the top, or on to the final `99`. */
  lemma QuineJumps(n: nat, flag: int, outs: seq<int>, rule: InputRule)
    ensures Stepper(rule)(At(12, QuineMemory(n, flag), outs, n))
      == Stepped(At(if flag == 0 then 0 else 15, QuineMemory(n, flag), outs, n), Ok(Continue))
  {
    var c := QuineMemory(n, flag);
    assert c[12] == Quine[12] && c[13] == Quine[13] && c[14] == Quine[14];
    StepLoop(c, outs, n, rule);
  }

  lemma QuineLoopsHolds(k: nat, rule: InputRule)
    requires k < 16
    ensures QuineLoops(Stepper(rule), k)
  {
    var flag := if k + 1 == 16 then 1 else 0;
    QuineSetsFlag(k + 1, Quine[..k + 1], rule);
    QuineJumps(k + 1, flag, Quine[..k + 1], rule);
    assert Quine[..16] == Quine;
  }

  /** A run to halt that neither stops nor fails at this step moves on to the next state. */
  lemma HaltLoopOn(step: Machine -> Stepped, m: Machine, fuel: nat, s: Stepped)
    requires fuel > 0 && step(m) == s
    requires s.res == Ok(Continue) || (s.res.Ok? && s.res.value.Output?)
    ensures HaltLoop(step, m, fuel) == HaltLoop(step, s.m, fuel - 1)
  {
  }

  /** From the top of the loop after k outputs, the program halts with itself as output. */
  lemma {:induction false} QuineFrom(step: Machine -> Stepped, k: nat, fuel: nat)
    requires k <= 15 && fuel >= 5 * (16 - k) + 1
    requires forall j | k <= j < 16 :: QuineEchoes(step, j) && QuineCounts(step, j) && QuineLoops(step, j)
    requires step(QuineEnd()) == Stepped(QuineEnd(), Ok(StepResult.Done))
    ensures HaltLoop(step, QuineTop(k), fuel) == Ran(QuineEnd(), Returned(Ok(RunResult.Done)))
    decreases 16 - k
  {
    assert QuineEchoes(step, k) && QuineCounts(step, k) && QuineLoops(step, k);
    var c, outs := QuineCodes(k), Quine[..k + 1];
    var flag := if k + 1 == 16 then 1 else 0;
    HaltLoopOn(step, At(0, c, Quine[..k], k), fuel, Stepped(At(2, c, Quine[..k], k + 1), Ok(Continue)));
    HaltLoopOn(step, At(2, c, Quine[..k], k + 1), fuel - 1,
      Stepped(At(4, c, outs, k + 1), Ok(StepResult.Output(Quine[k]))));
    HaltLoopOn(step, At(4, c, outs, k + 1), fuel - 2,
      Stepped(At(8, QuineMemory(k + 1, 0), outs, k + 1), Ok(Continue)));
    HaltLoopOn(step, At(8, QuineMemory(k + 1, 0), outs, k + 1), fuel - 3,
      Stepped(At(12, QuineMemory(k + 1, flag), outs, k + 1), Ok(Continue)));
    var next := if k + 1 < 16 then QuineTop(k + 1) else QuineEnd();
    HaltLoopOn(step, At(12, QuineMemory(k + 1, flag), outs, k + 1), fuel - 4, Stepped(next, Ok(Continue)));
    if k < 15 {
      QuineFrom(step, k + 1, fuel - 5);
    }
  }

  /**
   * The self-reproducing program run to halt outputs exactly its own code (whichever
   * input rule, since it reads no input), and stops with Done after 81 steps.
   */
  lemma QuineOutputsItself(rule: InputRule, fuel: nat)
    requires fuel >= 81
    ensures RunUntilHalt(Init(Quine), rule, fuel).outcome == Returned(Ok(RunResult.Done))
    ensures RunUntilHalt(Init(Quine), rule, fuel).m.outputs == Quine
  {
    forall j | 0 <= j < 16
      ensures QuineEchoes(Stepper(rule), j) && QuineCounts(Stepper(rule), j) && QuineLoops(Stepper(rule), j)
    {
      QuineEchoesHolds(j, rule);
      QuineCountsHolds(j, rule);
      QuineLoopsHolds(j, rule);
    }
    var e := QuineEnd();
    assert e.codes[15] == 99;
    StepHalt(e, rule);
    assert Stepper(rule)(e) == Step(e, rule);
    assert Init(Quine) == QuineTop(0);
    QuineFrom(Stepper(rule), 0, fuel);
  }

  /** The quine test driven through the class: outputs equal the program. */
  method RunQuine(fuel: nat) returns (outputs: seq<int>, r: RunOutcome)
    requires fuel >= 81
    ensures outputs == Quine && r == Returned(Ok(RunResult.Done))
  {
    var c := new IntcodeComputer.Computer(Quine);
    r := c.RunUntilHalt(fuel);
    QuineOutputsItself(AsWritten, fuel);
    outputs := c.outputs;
  }

  // ---------------------------------------------------------------- compare to 8

  /** The test program that outputs 999, 1000 or 1001 as its input is below, at or above 8. */
  const Compare8: seq<int> :=
    [3, 21, 1008, 21, 8, 20, 1005, 20, 22, 107] + [8, 21, 20, 1006, 20, 31, 1106, 0, 36, 98] +
    [0, 0, 1002, 21, 125, 20, 4, 20, 1105, 1] + [46, 104, 999, 1105, 1, 46, 1101, 1000, 1, 20] +
    [4, 20, 1105, 1, 46, 98, 99]

  /** Memory that holds the program text everywhere except cell 0 and the cells 20 and 21 it writes. */
  ghost predicate Compare8Text(c: seq<int>)
  {
    |c| == 47 && forall i | 1 <= i < 47 && i != 20 && i != 21 :: c[i] == Compare8[i]
  }

  /** A machine running the program (it never moves the relative base). */
  function Cmp(ip: nat, c: seq<int>, ins: seq<int>, idx: nat, outs: seq<int>): Machine
  {
    Machine(ip, c, ins, idx, outs, 0)
  }

  /** `1008,21,8,20`: cell 20 records whether cell 21 equals 8. */
  lemma Compare8At2(c: seq<int>, ins: seq<int>, idx: nat, outs: seq<int>, rule: InputRule)
    requires Compare8Text(c)
    ensures Stepper(rule)(Cmp(2, c, ins, idx, outs))
      == Stepped(Cmp(6, c[20 := if c[21] == 8 then 1 else 0], ins, idx, outs), Ok(Continue))
  {
    assert c[2] == 1008 && c[3] == 21 && c[4] == 8 && c[5] == 20;
    DecodeEncode(8, Position, Immediate, Position);
    assert Encode(8, Position, Immediate, Position) == 1008;
    StepEquals(Cmp(2, c, ins, idx, outs), rule);
  }

  /** `1005,20,22`: to 22 when cell 20 is non-zero. */
  lemma Compare8At6(c: seq<int>, ins: seq<int>, idx: nat, outs: seq<int>, rule: InputRule)
    requires Compare8Text(c)
    ensures Stepper(rule)(Cmp(6, c, ins, idx, outs))
      == Stepped(Cmp(if c[20] != 0 then 22 else 9, c, ins, idx, outs), Ok(Continue))
  {
    assert c[6] == 1005 && c[7] == 20 && c[8] == 22;
    DecodeEncode(5, Position, Immediate, Position);
    assert Encode(5, Position, Immediate, Position) == 1005;
    StepJump(Cmp(6, c, ins, idx, outs), rule);
  }

  /** `107,8,21,20`: cell 20 records whether 8 is below cell 21. */
  lemma Compare8At9(c: seq<int>, ins: seq<int>, idx: nat, outs: seq<int>, rule: InputRule)
    requires Compare8Text(c)
    ensures Stepper(rule)(Cmp(9, c, ins, idx, outs))
      == Stepped(Cmp(13, c[20 := if 8 < c[21] then 1 else 0], ins, idx, outs), Ok(Continue))
  {
    assert c[9] == 107 && c[10] == 8 && c[11] == 21 && c[12] == 20;
    DecodeEncode(7, Immediate, Position, Position);
    assert Encode(7, Immediate, Position, Position) == 107;
    StepLessThan(Cmp(9, c, ins, idx, outs), rule);
  }

  /** `1006,20,31`: to 31 when cell 20 is zero. */
  lemma Compare8At13(c: seq<int>, ins: seq<int>, idx: nat, outs: seq<int>, rule: InputRule)
    requires Compare8Text(c)
    ensures Stepper(rule)(Cmp(13, c, ins, idx, outs))
      == Stepped(Cmp(if c[20] == 0 then 31 else 16, c, ins, idx, outs), Ok(Continue))
  {
    assert c[13] == 1006 && c[14] == 20 && c[15] == 31;
    DecodeEncode(6, Position, Immediate, Position);
    assert Encode(6, Position, Immediate, Position) == 1006;
    StepJump(Cmp(13, c, ins, idx, outs), rule);
  }

  /** `1106,0,36`: always to 36. */
  lemma Compare8At16(c: seq<int>, ins: seq<int>, idx: nat, outs: seq<int>, rule: InputRule)
    requires Compare8Text(c)
    ensures Stepper(rule)(Cmp(16, c, ins, idx, outs)) == Stepped(Cmp(36, c, ins, idx, outs), Ok(Continue))
  {
    assert c[16] == 1106 && c[17] == 0 && c[18] == 36;
    DecodeEncode(6, Immediate, Immediate, Position);
    assert Encode(6, Immediate, Immediate, Position) == 1106;
    StepJump(Cmp(16, c, ins, idx, outs), rule);
  }

  /** `1002,21,125,20`: cell 20 gets 125 times cell 21. */
  lemma Compare8At22(c: seq<int>, ins: seq<int>, idx: nat, outs: seq<int>, rule: InputRule)
    requires Compare8Text(c)
    ensures Stepper(rule)(Cmp(22, c, ins, idx, outs))
      == Stepped(Cmp(26, c[20 := c[21] * 125], ins, idx, outs), Ok(Continue))
  {
    assert c[22] == 1002 && c[23] == 21 && c[24] == 125 && c[25] == 20;
    DecodeEncode(2, Position, Immediate, Position);
    assert Encode(2, Position, Immediate, Position) == 1002;
    StepArithmetic(Cmp(22, c, ins, idx, outs), rule);
  }

  /** `4,20` at 26 and at 40: output cell 20. */
  lemma Compare8Print(ip: nat, c: seq<int>, ins: seq<int>, idx: nat, outs: seq<int>, rule: InputRule)
    requires Compare8Text(c) && ip in {26, 40}
    ensures Stepper(rule)(Cmp(ip, c, ins, idx, outs))
      == Stepped(Cmp(ip + 2, c, ins, idx, outs + [c[20]]), Ok(StepResult.Output(c[20])))
  {
    assert c[ip] == 4 && c[ip + 1] == 20;
    DecodeEncode(4, Position, Position, Position);
    assert Encode(4, Position, Position, Position) == 4;
    StepOutput(Cmp(ip, c, ins, idx, outs), rule);
  }

  /** `1105,1,46` at 28, 33 and 42: always to 46. */
  lemma Compare8ToEnd(ip: nat, c: seq<int>, ins: seq<int>, idx: nat, outs: seq<int>, rule: InputRule)
    requires Compare8Text(c) && ip in {28, 33, 42}
    ensures Stepper(rule)(Cmp(ip, c, ins, idx, outs)) == Stepped(Cmp(46, c, ins, idx, outs), Ok(Continue))
  {
    assert c[ip] == 1105 && c[ip + 1] == 1 && c[ip + 2] == 46;
    DecodeEncode(5, Immediate, Immediate, Position);
    assert Encode(5, Immediate, Immediate, Position) == 1105;
    StepJump(Cmp(ip, c, ins, idx, outs), rule);
  }

  /** `104,999`: output 999. */
  lemma Compare8At31(c: seq<int>, ins: seq<int>, idx: nat, outs: seq<int>, rule: InputRule)
    requires Compare8Text(c)
    ensures Stepper(rule)(Cmp(31, c, ins, idx, outs))
      == Stepped(Cmp(33, c, ins, idx, outs + [999]), Ok(StepResult.Output(999)))
  {
    assert c[31] == 104 && c[32] == 999;
    DecodeEncode(4, Immediate, Position, Position);
    assert Encode(4, Immediate, Position, Position) == 104;
    StepOutput(Cmp(31, c, ins, idx, outs), rule);
  }

  /** `1101,1000,1,20`: cell 20 gets 1001. */
  lemma Compare8At36(c: seq<int>, ins: seq<int>, idx: nat, outs: seq<int>, rule: InputRule)
    requires Compare8Text(c)
    ensures Stepper(rule)(Cmp(36, c, ins, idx, outs))
      == Stepped(Cmp(40, c[20 := 1001], ins, idx, outs), Ok(Continue))
  {
    assert c[36] == 1101 && c[37] == 1000 && c[38] == 1 && c[39] == 20;
    DecodeEncode(1, Immediate, Immediate, Position);
    assert Encode(1, Immediate, Immediate, Position) == 1101;
    StepArithmetic(Cmp(36, c, ins, idx, outs), rule);
  }

  /** `99` at 46. */
  lemma Compare8At46(c: seq<int>, ins: seq<int>, idx: nat, outs: seq<int>, rule: InputRule)
    requires Compare8Text(c)
    ensures Stepper(rule)(Cmp(46, c, ins, idx, outs)) == Stepped(Cmp(46, c, ins, idx, outs), Ok(StepResult.Done))
  {
    assert c[46] == 99;
    StepHalt(Cmp(46, c, ins, idx, outs), rule);
  }

  /** What a step function does on every instruction of the program after the first. */
  ghost predicate Compare8Steps(step: Machine -> Stepped)
  {
    && (forall c, ins, idx, outs | Compare8Text(c) :: step(Cmp(2, c, ins, idx, outs))
          == Stepped(Cmp(6, c[20 := if c[21] == 8 then 1 else 0], ins, idx, outs), Ok(Continue)))
    && (forall c, ins, idx, outs | Compare8Text(c) :: step(Cmp(6, c, ins, idx, outs))
          == Stepped(Cmp(if c[20] != 0 then 22 else 9, c, ins, idx, outs), Ok(Continue)))
    && (forall c, ins, idx, outs | Compare8Text(c) :: step(Cmp(9, c, ins, idx, outs))
          == Stepped(Cmp(13, c[20 := if 8 < c[21] then 1 else 0], ins, idx, outs), Ok(Continue)))
    && (forall c, ins, idx, outs | Compare8Text(c) :: step(Cmp(13, c, ins, idx, outs))
          == Stepped(Cmp(if c[20] == 0 then 31 else 16, c, ins, idx, outs), Ok(Continue)))
    && (forall c, ins, idx, outs | Compare8Text(c) :: step(Cmp(16, c, ins, idx, outs))
          == Stepped(Cmp(36, c, ins, idx, outs), Ok(Continue)))
    && (forall c, ins, idx, outs | Compare8Text(c) :: step(Cmp(22, c, ins, idx, outs))
          == Stepped(Cmp(26, c[20 := c[21] * 125], ins, idx, outs), Ok(Continue)))
    && (forall ip, c, ins, idx, outs | Compare8Text(c) && ip in {26, 40} :: step(Cmp(ip, c, ins, idx, outs))
          == Stepped(Cmp(ip + 2, c, ins, idx, outs + [c[20]]), Ok(StepResult.Output(c[20]))))
    && (forall ip, c, ins, idx, outs | Compare8Text(c) && ip in {28, 33, 42} :: step(Cmp(ip, c, ins, idx, outs))
          == Stepped(Cmp(46, c, ins, idx, outs), Ok(Continue)))
    && (forall c, ins, idx, outs | Compare8Text(c) :: step(Cmp(31, c, ins, idx, outs))
          == Stepped(Cmp(33, c, ins, idx, outs + [999]), Ok(StepResult.Output(999))))
    && (forall c, ins, idx, outs | Compare8Text(c) :: step(Cmp(36, c, ins, idx, outs))
          == Stepped(Cmp(40, c[20 := 1001], ins, idx, outs), Ok(Continue)))
    && (forall c, ins, idx, outs | Compare8Text(c) :: step(Cmp(46, c, ins, idx, outs))
          == Stepped(Cmp(46, c, ins, idx, outs), Ok(StepResult.Done)))
  }

  lemma Compare8StepsHold(rule: InputRule)
    ensures Compare8Steps(Stepper(rule))
  {
    forall c, ins, idx, outs | Compare8Text(c)
      ensures Stepper(rule)(Cmp(2, c, ins, idx, outs))
        == Stepped(Cmp(6, c[20 := if c[21] == 8 then 1 else 0], ins, idx, outs), Ok(Continue))
    {
      Compare8At2(c, ins, idx, outs, rule);
    }
    forall c, ins, idx, outs | Compare8Text(c)
      ensures Stepper(rule)(Cmp(6, c, ins, idx, outs))
        == Stepped(Cmp(if c[20] != 0 then 22 else 9, c, ins, idx, outs), Ok(Continue))
    {
      Compare8At6(c, ins, idx, outs, rule);
    }
    forall c, ins, idx, outs | Compare8Text(c)
      ensures Stepper(rule)(Cmp(9, c, ins, idx, outs))
        == Stepped(Cmp(13, c[20 := if 8 < c[21] then 1 else 0], ins, idx, outs), Ok(Continue))
    {
      Compare8At9(c, ins, idx, outs, rule);
    }
    forall c, ins, idx, outs | Compare8Text(c)
      ensures Stepper(rule)(Cmp(13, c, ins, idx, outs))
        == Stepped(Cmp(if c[20] == 0 then 31 else 16, c, ins, idx, outs), Ok(Continue))
    {
      Compare8At13(c, ins, idx, outs, rule);
    }
    forall c, ins, idx, outs | Compare8Text(c)
      ensures Stepper(rule)(Cmp(16, c, ins, idx, outs)) == Stepped(Cmp(36, c, ins, idx, outs), Ok(Continue))
    {
      Compare8At16(c, ins, idx, outs, rule);
    }
    forall c, ins, idx, outs | Compare8Text(c)
      ensures Stepper(rule)(Cmp(22, c, ins, idx, outs))
        == Stepped(Cmp(26, c[20 := c[21] * 125], ins, idx, outs), Ok(Continue))
    {
      Compare8At22(c, ins, idx, outs, rule);
    }
    forall ip, c, ins, idx, outs | Compare8Text(c) && ip in {26, 40}
      ensures Stepper(rule)(Cmp(ip, c, ins, idx, outs))
        == Stepped(Cmp(ip + 2, c, ins, idx, outs + [c[20]]), Ok(StepResult.Output(c[20])))
    {
      Compare8Print(ip, c, ins, idx, outs, rule);
    }
    forall ip, c, ins, idx, outs | Compare8Text(c) && ip in {28, 33, 42}
      ensures Stepper(rule)(Cmp(ip, c, ins, idx, outs)) == Stepped(Cmp(46, c, ins, idx, outs), Ok(Continue))
    {
      Compare8ToEnd(ip, c, ins, idx, outs, rule);
    }
    forall c, ins, idx, outs | Compare8Text(c)
      ensures Stepper(rule)(Cmp(31, c, ins, idx, outs))
        == Stepped(Cmp(33, c, ins, idx, outs + [999]), Ok(StepResult.Output(999)))
    {
      Compare8At31(c, ins, idx, outs, rule);
    }
    forall c, ins, idx, outs | Compare8Text(c)
      ensures Stepper(rule)(Cmp(36, c, ins, idx, outs)) == Stepped(Cmp(40, c[20 := 1001], ins, idx, outs), Ok(Continue))
    {
      Compare8At36(c, ins, idx, outs, rule);
    }
    forall c, ins, idx, outs | Compare8Text(c)
      ensures Stepper(rule)(Cmp(46, c, ins, idx, outs)) == Stepped(Cmp(46, c, ins, idx, outs), Ok(StepResult.Done))
    {
      Compare8At46(c, ins, idx, outs, rule);
    }
  }

  /** The answer the program is written to give for input n. */
  function Compare8Verdict(n: int): (v: int)
    ensures v in {999, 1000, 1001}
    ensures v == 1000 <==> n == 8
    ensures v == 999 <==> n < 8
  {
    if n < 8 then 999 else if n == 8 then 1000 else 1001
  }

  lemma RunLoopOn(step: Machine -> Stepped, m: Machine, fuel: nat, s: Stepped)
    requires fuel > 0 && step(m) == s && s.res == Ok(Continue)
    ensures RunLoop(step, m, fuel) == RunLoop(step, s.m, fuel - 1)
  {
  }

  /**
   * Once the first instruction has stored the input somewhere and left the program text in
   * place, `run` stops at the one output and `run_until_halt` halts after it; the output is
   * decided by cell 21 alone.
   */
  lemma Compare8After(step: Machine -> Stepped, x: int, c1: seq<int>, fuel: nat)
    requires Compare8Steps(step) && Compare8Text(c1) && fuel >= 10
    requires step(Cmp(0, Compare8, [x], 0, [])) == Stepped(Cmp(2, c1, [x], 1, []), Ok(Continue))
    ensures var r := RunLoop(step, Cmp(0, Compare8, [x], 0, []), fuel);
      r.outcome == Returned(Ok(RunResult.Output(Compare8Verdict(c1[21])))) && r.m.outputs == [Compare8Verdict(c1[21])]
    ensures var r := HaltLoop(step, Cmp(0, Compare8, [x], 0, []), fuel);
      r.outcome == Returned(Ok(RunResult.Done)) && r.m.outputs == [Compare8Verdict(c1[21])]
  {
    var ins := [x];
    var m0 := Cmp(0, Compare8, ins, 0, []);
    var m1 := Cmp(2, c1, ins, 1, []);
    var c2 := c1[20 := if c1[21] == 8 then 1 else 0];
    assert Compare8Text(c2);
    var m2 := Cmp(6, c2, ins, 1, []);
    RunLoopOn(step, m0, fuel, step(m0));
    HaltLoopOn(step, m0, fuel, step(m0));
    RunLoopOn(step, m1, fuel - 1, step(m1));
    HaltLoopOn(step, m1, fuel - 1, step(m1));
    if c1[21] == 8 {
      var m3 := Cmp(22, c2, ins, 1, []);
      var c3 := c2[20 := c2[21] * 125];
      assert Compare8Text(c3) && c3[20] == 1000;
      var m4 := Cmp(26, c3, ins, 1, []);
      var m5 := Cmp(28, c3, ins, 1, [1000]);
      RunLoopOn(step, m2, fuel - 2, step(m2));
      HaltLoopOn(step, m2, fuel - 2, step(m2));
      RunLoopOn(step, m3, fuel - 3, step(m3));
      HaltLoopOn(step, m3, fuel - 3, step(m3));
      assert [] + [c3[20]] == [1000];
      assert step(m4) == Stepped(m5, Ok(StepResult.Output(1000)));
      HaltLoopOn(step, m4, fuel - 4, step(m4));
      HaltLoopOn(step, m5, fuel - 5, step(m5));
      assert step(Cmp(46, c3, ins, 1, [1000])) == Stepped(Cmp(46, c3, ins, 1, [1000]), Ok(StepResult.Done));
    } else {
      var m3 := Cmp(9, c2, ins, 1, []);
      var c3 := c2[20 := if 8 < c2[21] then 1 else 0];
      assert Compare8Text(c3);
      var m4 := Cmp(13, c3, ins, 1, []);
      RunLoopOn(step, m2, fuel - 2, step(m2));
      HaltLoopOn(step, m2, fuel - 2, step(m2));
      RunLoopOn(step, m3, fuel - 3, step(m3));
      HaltLoopOn(step, m3, fuel - 3, step(m3));
      RunLoopOn(step, m4, fuel - 4, step(m4));
      HaltLoopOn(step, m4, fuel - 4, step(m4));
      if c1[21] < 8 {
        var m5 := Cmp(31, c3, ins, 1, []);
        var m6 := Cmp(33, c3, ins, 1, [999]);
        assert step(m5) == Stepped(m6, Ok(StepResult.Output(999)));
        HaltLoopOn(step, m5, fuel - 5, step(m5));
        HaltLoopOn(step, m6, fuel - 6, step(m6));
        assert step(Cmp(46, c3, ins, 1, [999])) == Stepped(Cmp(46, c3, ins, 1, [999]), Ok(StepResult.Done));
      } else {
        var m5 := Cmp(16, c3, ins, 1, []);
        var m6 := Cmp(36, c3, ins, 1, []);
        var c4 := c3[20 := 1001];
        assert Compare8Text(c4);
        var m7 := Cmp(40, c4, ins, 1, []);
        var m8 := Cmp(42, c4, ins, 1, [1001]);
        RunLoopOn(step, m5, fuel - 5, step(m5));
        HaltLoopOn(step, m5, fuel - 5, step(m5));
        RunLoopOn(step, m6, fuel - 6, step(m6));
        HaltLoopOn(step, m6, fuel - 6, step(m6));
        assert [] + [c4[20]] == [1001];
        assert step(m7) == Stepped(m8, Ok(StepResult.Output(1001)));
        HaltLoopOn(step, m7, fuel - 7, step(m7));
        HaltLoopOn(step, m8, fuel - 8, step(m8));
        assert step(Cmp(46, c4, ins, 1, [1001])) == Stepped(Cmp(46, c4, ins, 1, [1001]), Ok(StepResult.Done));
      }
    }
  }

  /** Storing the input in cell 0 or cell 21 leaves the program text in place. */
  lemma Compare8Stored(i: nat, x: int)
    requires i == 0 || i == 21
    ensures Compare8Text(Compare8[i := x])
    ensures Compare8[i := x][21] == if i == 21 then x else 0
  {
  }

  /** As written, `3,21` stores the input at the cell cell 21 names (cell 0), not at cell 21. */
  lemma Compare8FirstAsWritten(x: int)
    ensures Stepper(AsWritten)(Cmp(0, Compare8, [x], 0, []))
      == Stepped(Cmp(2, Compare8[0 := x], [x], 1, []), Ok(Continue))
  {
    DecodeEncode(3, Position, Position, Position);
    assert Encode(3, Position, Position, Position) == 3;
    StepInputAsWritten(Cmp(0, Compare8, [x], 0, []));
  }

  /** With the intended rule, `3,21` stores the input at cell 21. */
  lemma Compare8FirstIntended(x: int)
    ensures Stepper(Intended)(Cmp(0, Compare8, [x], 0, []))
      == Stepped(Cmp(2, Compare8[21 := x], [x], 1, []), Ok(Continue))
  {
    StepInputIntended(Cmp(0, Compare8, [x], 0, []));
  }

  /**
   * The three tests of the program as the source's opcode 3 is written: whatever the input,
   * `run`, `run_with_inputs` and `run_until_halt` all see the single output 999.
   */
  lemma Compare8AsWritten(x: int, fuel: nat)
    requires fuel >= 10
    ensures var r := Run(WithInput(Init(Compare8), [x]), AsWritten, fuel);
      r.outcome == Returned(Ok(RunResult.Output(999))) && r.m.outputs == [999]
    ensures RunWithInputs(Init(Compare8), [x], AsWritten, fuel) == Run(WithInput(Init(Compare8), [x]), AsWritten, fuel)
    ensures var r := RunUntilHalt(WithInput(Init(Compare8), [x]), AsWritten, fuel);
      r.outcome == Returned(Ok(RunResult.Done)) && r.m.outputs == [999]
  {
    assert [] + [x] == [x];
    Compare8StepsHold(AsWritten);
    Compare8FirstAsWritten(x);
    Compare8Stored(0, x);
    assert WithInput(Init(Compare8), [x]) == Cmp(0, Compare8, [x], 0, []);
    Compare8After(Stepper(AsWritten), x, Compare8[0 := x], fuel);
  }

  /**
   * The same tests with the intended opcode 3: the single output is 999, 1000 or 1001 as the
   * input is below, equal to or above 8.
   */
  lemma Compare8Intended(x: int, fuel: nat)
    requires fuel >= 10
    ensures var r := Run(WithInput(Init(Compare8), [x]), Intended, fuel);
      r.outcome == Returned(Ok(RunResult.Output(Compare8Verdict(x)))) && r.m.outputs == [Compare8Verdict(x)]
    ensures RunWithInputs(Init(Compare8), [x], Intended, fuel) == Run(WithInput(Init(Compare8), [x]), Intended, fuel)
    ensures var r := RunUntilHalt(WithInput(Init(Compare8), [x]), Intended, fuel);
      r.outcome == Returned(Ok(RunResult.Done)) && r.m.outputs == [Compare8Verdict(x)]
  {
    assert [] + [x] == [x];
    Compare8StepsHold(Intended);
    Compare8FirstIntended(x);
    Compare8Stored(21, x);
    assert WithInput(Init(Compare8), [x]) == Cmp(0, Compare8, [x], 0, []);
    Compare8After(Stepper(Intended), x, Compare8[21 := x], fuel);
  }

  /** The first test on the `Computer` object itself: input 1, `run_until_halt`, last output 999. */
  method RunCompare8(x: int, fuel: nat) returns (outputs: seq<int>, r: RunOutcome)
    requires fuel >= 10
    ensures r == Returned(Ok(RunResult.Done)) && outputs == [999]
  {
    var c := new IntcodeComputer.Computer(Compare8);
    c.WithInput([x]);
    r := c.RunUntilHalt(fuel);
    outputs := c.outputs;
    Compare8AsWritten(x, fuel);
  }
}
