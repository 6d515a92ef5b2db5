/**
 * The three tests of src/y2019/day05.rs: the compare-to-8 program run on the two-mode
 * interpreter.  Its input instruction stores at the raw address, so here the outputs are
 * 999, 1000 and 1001 as the input is below, equal to or above 8.
 */
module Day05Programs {
  import IntcodeSpec
  import opened Day05Spec
  import opened IntcodePrograms
  import Day05Computer

  /** `3,21`: the input goes to cell 21. */
  lemma At0(c: seq<int>, x: int, outs: seq<int>)
    requires Compare8Text(c) && c[0] == 3
    ensures Step(Machine(0, c, x, outs)) == Stepped(Machine(2, c[21 := x], x, outs), Ok(Continue))
  {
    assert c[1] == 21;
  }

  /** `1008,21,8,20`. */
  lemma At2(c: seq<int>, x: int, outs: seq<int>)
    requires Compare8Text(c)
    ensures Step(Machine(2, c, x, outs))
      == Stepped(Machine(6, c[20 := if c[21] == 8 then 1 else 0], x, outs), Ok(Continue))
  {
    assert c[2] == 1008 && c[3] == 21 && c[4] == 8 && c[5] == 20;
    assert IntcodeSpec.Opcode(1008) == 8 && IntcodeSpec.ModeDigit(1008, 1) == 0 && IntcodeSpec.ModeDigit(1008, 2) == 1;
  }

  /** `1005,20,22`. */
  lemma At6(c: seq<int>, x: int, outs: seq<int>)
    requires Compare8Text(c)
    ensures Step(Machine(6, c, x, outs)) == Stepped(Machine(if c[20] != 0 then 22 else 9, c, x, outs), Ok(Continue))
  {
    assert c[6] == 1005 && c[7] == 20 && c[8] == 22;
    assert IntcodeSpec.Opcode(1005) == 5 && IntcodeSpec.ModeDigit(1005, 1) == 0 && IntcodeSpec.ModeDigit(1005, 2) == 1;
    assert AsUsize(22) == 22;
  }

  /** `107,8,21,20`. */
  lemma At9(c: seq<int>, x: int, outs: seq<int>)
    requires Compare8Text(c)
    ensures Step(Machine(9, c, x, outs))
      == Stepped(Machine(13, c[20 := if 8 < c[21] then 1 else 0], x, outs), Ok(Continue))
  {
    assert c[9] == 107 && c[10] == 8 && c[11] == 21 && c[12] == 20;
    assert IntcodeSpec.Opcode(107) == 7 && IntcodeSpec.ModeDigit(107, 1) == 1 && IntcodeSpec.ModeDigit(107, 2) == 0;
  }

  /** `1006,20,31`. */
  lemma At13(c: seq<int>, x: int, outs: seq<int>)
    requires Compare8Text(c)
    ensures Step(Machine(13, c, x, outs)) == Stepped(Machine(if c[20] == 0 then 31 else 16, c, x, outs), Ok(Continue))
  {
    assert c[13] == 1006 && c[14] == 20 && c[15] == 31;
    assert IntcodeSpec.Opcode(1006) == 6 && IntcodeSpec.ModeDigit(1006, 1) == 0 && IntcodeSpec.ModeDigit(1006, 2) == 1;
    assert AsUsize(31) == 31;
  }

  /** `1106,0,36`. */
  lemma At16(c: seq<int>, x: int, outs: seq<int>)
    requires Compare8Text(c)
    ensures Step(Machine(16, c, x, outs)) == Stepped(Machine(36, c, x, outs), Ok(Continue))
  {
    assert c[16] == 1106 && c[17] == 0 && c[18] == 36;
    assert IntcodeSpec.Opcode(1106) == 6 && IntcodeSpec.ModeDigit(1106, 1) == 1 && IntcodeSpec.ModeDigit(1106, 2) == 1;
    assert AsUsize(36) == 36;
  }

  /** `1002,21,125,20`. */
  lemma At22(c: seq<int>, x: int, outs: seq<int>)
    requires Compare8Text(c)
    ensures Step(Machine(22, c, x, outs)) == Stepped(Machine(26, c[20 := c[21] * 125], x, outs), Ok(Continue))
  {
    assert c[22] == 1002 && c[23] == 21 && c[24] == 125 && c[25] == 20;
    assert IntcodeSpec.Opcode(1002) == 2 && IntcodeSpec.ModeDigit(1002, 1) == 0 && IntcodeSpec.ModeDigit(1002, 2) == 1;
  }

  /** `4,20` at 26 and 40: cell 20 is logged. */
  lemma Print(ip: nat, c: seq<int>, x: int, outs: seq<int>)
    requires Compare8Text(c) && ip in {26, 40}
    ensures Step(Machine(ip, c, x, outs)) == Stepped(Machine(ip + 2, c, x, outs + [c[20]]), Ok(Continue))
  {
    assert c[ip] == 4 && c[ip + 1] == 20;
    assert IntcodeSpec.Opcode(4) == 4 && IntcodeSpec.ModeDigit(4, 1) == 0;
  }

  /** `1105,1,46` at 28, 33 and 42. */
  lemma ToEnd(ip: nat, c: seq<int>, x: int, outs: seq<int>)
    requires Compare8Text(c) && ip in {28, 33, 42}
    ensures Step(Machine(ip, c, x, outs)) == Stepped(Machine(46, c, x, outs), Ok(Continue))
  {
    assert c[ip] == 1105 && c[ip + 1] == 1 && c[ip + 2] == 46;
    assert IntcodeSpec.Opcode(1105) == 5 && IntcodeSpec.ModeDigit(1105, 1) == 1 && IntcodeSpec.ModeDigit(1105, 2) == 1;
    assert AsUsize(46) == 46;
  }

  /** `104,999`. */
  lemma At31(c: seq<int>, x: int, outs: seq<int>)
    requires Compare8Text(c)
    ensures Step(Machine(31, c, x, outs)) == Stepped(Machine(33, c, x, outs + [999]), Ok(Continue))
  {
    assert c[31] == 104 && c[32] == 999;
    assert IntcodeSpec.Opcode(104) == 4 && IntcodeSpec.ModeDigit(104, 1) == 1;
  }

  /** `1101,1000,1,20`. */
  lemma At36(c: seq<int>, x: int, outs: seq<int>)
    requires Compare8Text(c)
    ensures Step(Machine(36, c, x, outs)) == Stepped(Machine(40, c[20 := 1001], x, outs), Ok(Continue))
  {
    assert c[36] == 1101 && c[37] == 1000 && c[38] == 1 && c[39] == 20;
    assert IntcodeSpec.Opcode(1101) == 1 && IntcodeSpec.ModeDigit(1101, 1) == 1 && IntcodeSpec.ModeDigit(1101, 2) == 1;
  }

  /** `99`. */
  lemma At46(c: seq<int>, x: int, outs: seq<int>)
    requires Compare8Text(c)
    ensures Step(Machine(46, c, x, outs)) == Stepped(Machine(46, c, x, outs), Ok(Done))
  {
    assert c[46] == 99;
    assert IntcodeSpec.Opcode(99) == 99;
  }

  lemma RunOn(m: Machine, fuel: nat, next: Machine)
    requires fuel > 0 && Step(m) == Stepped(next, Ok(Continue))
    ensures Run(m, fuel) == Run(next, fuel - 1)
  {
  }

  /**
   * The tests at inputs 1, 8 and 10, for every input: `run` halts with cell 0 (still 3) and
   * the one logged output is 999, 1000 or 1001 as the input is below, at or above 8.
   */
  lemma Compare8Outputs(x: int, fuel: nat)
    requires fuel >= 11
    ensures Run(Init(Compare8, x), fuel).outcome == Returned(Ok(3))
    ensures Run(Init(Compare8, x), fuel).m.outputs == [Compare8Verdict(x)]
  {
    var c1 := Compare8[21 := x];
    Compare8Stored(21, x);
    At0(Compare8, x, []);
    RunOn(Init(Compare8, x), fuel, Machine(2, c1, x, []));
    var c2 := c1[20 := if c1[21] == 8 then 1 else 0];
    assert Compare8Text(c2);
    At2(c1, x, []);
    RunOn(Machine(2, c1, x, []), fuel - 1, Machine(6, c2, x, []));
    At6(c2, x, []);
    var end: Machine;
    var f: nat;
    if x == 8 {
      var c3 := c2[20 := c2[21] * 125];
      assert Compare8Text(c3) && c3[20] == 1000 && [] + [c3[20]] == [1000];
      RunOn(Machine(6, c2, x, []), fuel - 2, Machine(22, c2, x, []));
      At22(c2, x, []);
      RunOn(Machine(22, c2, x, []), fuel - 3, Machine(26, c3, x, []));
      Print(26, c3, x, []);
      RunOn(Machine(26, c3, x, []), fuel - 4, Machine(28, c3, x, [1000]));
      ToEnd(28, c3, x, [1000]);
      RunOn(Machine(28, c3, x, [1000]), fuel - 5, Machine(46, c3, x, [1000]));
      end, f := Machine(46, c3, x, [1000]), fuel - 6;
    } else {
      var c3 := c2[20 := if 8 < c2[21] then 1 else 0];
      assert Compare8Text(c3);
      RunOn(Machine(6, c2, x, []), fuel - 2, Machine(9, c2, x, []));
      At9(c2, x, []);
      RunOn(Machine(9, c2, x, []), fuel - 3, Machine(13, c3, x, []));
      At13(c3, x, []);
      if x < 8 {
        RunOn(Machine(13, c3, x, []), fuel - 4, Machine(31, c3, x, []));
        At31(c3, x, []);
        assert [] + [999] == [999];
        RunOn(Machine(31, c3, x, []), fuel - 5, Machine(33, c3, x, [999]));
        ToEnd(33, c3, x, [999]);
        RunOn(Machine(33, c3, x, [999]), fuel - 6, Machine(46, c3, x, [999]));
        end, f := Machine(46, c3, x, [999]), fuel - 7;
      } else {
        var c4 := c3[20 := 1001];
        assert Compare8Text(c4) && [] + [c4[20]] == [1001];
        RunOn(Machine(13, c3, x, []), fuel - 4, Machine(16, c3, x, []));
        At16(c3, x, []);
        RunOn(Machine(16, c3, x, []), fuel - 5, Machine(36, c3, x, []));
        At36(c3, x, []);
        RunOn(Machine(36, c3, x, []), fuel - 6, Machine(40, c4, x, []));
        Print(40, c4, x, []);
        RunOn(Machine(40, c4, x, []), fuel - 7, Machine(42, c4, x, [1001]));
        ToEnd(42, c4, x, [1001]);
        RunOn(Machine(42, c4, x, [1001]), fuel - 8, Machine(46, c4, x, [1001]));
        end, f := Machine(46, c4, x, [1001]), fuel - 9;
      }
    }
    At46(end.codes, x, end.outputs);
    assert end.codes[0] == 3;
    assert Run(end, f) == Ran(end, Returned(Ok(3)));
  }

  /** The tests on the `Computer` object: the last output after `run` is the verdict on the input. */
  method LastOutput(x: int, fuel: nat) returns (r: RunOutcome, last: int)
    requires fuel >= 11
    ensures r == Returned(Ok(3)) && last == Compare8Verdict(x)
  {
    var c := new Day05Computer.Computer(Compare8, x);
    r := c.Run(fuel);
    Compare8Outputs(x, fuel);
    last := c.outputs[|c.outputs| - 1];
  }
}
