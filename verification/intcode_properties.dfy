/**
 * Properties of the Intcode machine of src/y2019/computer.rs, proved about the pure
 * functions of IntcodeSpec (and so, through the class's postconditions, about `Computer`).
 *
 * The per-opcode lemmas compare `Step` with the instruction table read directly: when
 * every cell an instruction touches already exists, `Operand` is the value of a parameter
 * by its mode and each instruction has the effect the table gives it.
 */
module IntcodeProperties {
  import opened IntcodeSpec

  // ---------------------------------------------------------------- decoding

  /** An instruction word built from an opcode and three mode digits. */
  function Encode(op: nat, m1: Mode, m2: Mode, m3: Mode): int
    requires op < 100
  {
    op + 100 * Digit(m1) + 1000 * Digit(m2) + 10000 * Digit(m3)
  }

  function Digit(mode: Mode): nat
  {
    match mode
    case Position => 0
    case Immediate => 1
    case Relative => 2
  }

  /** Decoding an encoded word gives back its opcode and its three modes. */
  lemma DecodeEncode(op: nat, m1: Mode, m2: Mode, m3: Mode)
    requires op < 100
    ensures Opcode(Encode(op, m1, m2, m3)) == op
    ensures GetMode(Encode(op, m1, m2, m3), 1) == Ok(m1)
    ensures GetMode(Encode(op, m1, m2, m3), 2) == Ok(m2)
    ensures GetMode(Encode(op, m1, m2, m3), 3) == Ok(m3)
  {
    var code := Encode(op, m1, m2, m3);
    assert 0 <= code < USIZE_MODULUS;
    assert code % USIZE_MODULUS == code;
    assert Pow10(2) == 100 && Pow10(3) == 1000 && Pow10(4) == 10000;
    assert code / 100 == Digit(m1) + 10 * Digit(m2) + 100 * Digit(m3);
    assert code / 1000 == Digit(m2) + 10 * Digit(m3);
    assert code / 10000 == Digit(m3);
  }

  /** The word 1002 has modes Position, Immediate, Position. */
  lemma ModesOf1002()
    ensures GetMode(1002, 1) == Ok(Position)
    ensures GetMode(1002, 2) == Ok(Immediate)
    ensures GetMode(1002, 3) == Ok(Position)
  {
    assert Pow10(2) == 100 && Pow10(3) == 1000 && Pow10(4) == 10000;
  }

  // ---------------------------------------------------------------- memory

  /** Growing is idempotent and never disturbs an index that is already in range. */
  lemma GrownInRange(codes: seq<int>, i: nat)
    requires i < |codes|
    ensures Grown(codes, i) == codes
  {
  }

  /** A cell that exists reads the same after any growth. */
  lemma ExtendsAt(before: seq<int>, after: seq<int>, k: nat)
    requires Extends(before, after) && k < |before|
    ensures after[k] == before[k]
  {
    assert after[..|before|][k] == after[k];
  }

  lemma ExtendsTrans(a: seq<int>, b: seq<int>, c: seq<int>)
    requires Extends(a, b) && Extends(b, c)
    ensures Extends(a, c)
  {
    assert c[..|a|] == c[..|b|][..|a|];
    forall k | |a| <= k < |c|
      ensures c[k] == 0
    {
      if k < |b| {
        ExtendsAt(b, c, k);
      }
    }
  }

  /**
   * Reading the same parameter again on the memory the first read left behind gives the
   * same value and grows nothing: each access grows memory at most once.
   */
  lemma GetValStable(m: Machine, code: int, nth: nat, m': Machine)
    requires m'.codes == GetVal(m, code, nth).m.codes
    requires m'.ip == m.ip && m'.relativeBase == m.relativeBase
    ensures GetVal(m', code, nth) == Fetched(m', GetVal(m, code, nth).val)
  {
    var f := GetVal(m, code, nth);
    if GetMode(code, nth).Ok? {
      var i := m.ip + nth;
      var c := Grown(m.codes, i);
      assert Extends(c, f.m.codes) by {
        if GetMode(code, nth).value != Immediate {
          var addr := if GetMode(code, nth).value == Position then c[i] else c[i] + m.relativeBase;
          if addr >= 0 {
            assert f.m.codes == Grown(c, addr);
          }
        }
      }
      ExtendsAt(c, f.m.codes, i);
      GrownInRange(f.m.codes, i);
    }
  }

  /** Reading the raw parameter again likewise changes nothing. */
  lemma RawParamStable(m: Machine, nth: nat, m': Machine)
    requires m'.codes == RawParam(m, nth).m.codes && m'.ip == m.ip
    ensures RawParam(m', nth) == Fetched(m', RawParam(m, nth).val)
  {
    var c := Grown(m.codes, m.ip + nth);
    GrownInRange(c, m.ip + nth);
  }

  // ---------------------------------------------------------------- the table

  /** The word the next step decodes (0 beyond the end of memory). */
  function CodeAt(m: Machine): (code: int)
    ensures m.ip < |m.codes| ==> code == m.codes[m.ip]
    ensures m.ip >= |m.codes| ==> code == 0
  {
    Grown(m.codes, m.ip)[m.ip]
  }

  /** Parameter nth names an existing cell for its mode (or is an immediate value). */
  ghost predicate Resolvable(m: Machine, code: int, nth: nat)
  {
    && GetMode(code, nth).Ok?
    && m.ip + nth < |m.codes|
    && match GetMode(code, nth).value
       case Position => 0 <= m.codes[m.ip + nth] < |m.codes|
       case Immediate => true
       case Relative => 0 <= m.codes[m.ip + nth] + m.relativeBase < |m.codes|
  }

  /** The value of a parameter by its mode, read straight from the table. */
  ghost function Operand(m: Machine, code: int, nth: nat): int
    requires Resolvable(m, code, nth)
  {
    var raw := m.codes[m.ip + nth];
    match GetMode(code, nth).value
    case Position => m.codes[raw]
    case Immediate => raw
    case Relative => m.codes[raw + m.relativeBase]
  }

  /** Every instruction that reads parameters in range agrees with the table. */
  lemma GetValInRange(m: Machine, code: int, nth: nat)
    requires Resolvable(m, code, nth)
    ensures GetVal(m, code, nth) == Fetched(m, Ok(Operand(m, code, nth)))
  {
  }

  /** The destination parameter (the raw word at ip + 3) names an existing cell. */
  ghost predicate DestInRange(m: Machine)
  {
    m.ip + 3 < |m.codes| && 0 <= m.codes[m.ip + 3] < |m.codes|
  }

  /** Opcodes 1 and 2 store the sum or product at the raw third parameter and advance by 4. */
  lemma StepArithmetic(m: Machine, rule: InputRule)
    requires m.ip < |m.codes| && Opcode(m.codes[m.ip]) in {1, 2}
    requires Resolvable(m, m.codes[m.ip], 1) && Resolvable(m, m.codes[m.ip], 2) && DestInRange(m)
    ensures var code := m.codes[m.ip];
      var a, b := Operand(m, code, 1), Operand(m, code, 2);
      Step(m, rule) == Stepped(
        m.(codes := m.codes[m.codes[m.ip + 3] := if Opcode(code) == 1 then a + b else a * b],
           ip := m.ip + 4),
        Ok(Continue))
  {
    var code := m.codes[m.ip];
    GetValInRange(m, code, 1);
    GetValInRange(m, code, 2);
  }

  /** Opcode 7 stores 1 or 0 at the raw third parameter, which must already exist. */
  lemma StepLessThan(m: Machine, rule: InputRule)
    requires m.ip < |m.codes| && Opcode(m.codes[m.ip]) == 7
    requires Resolvable(m, m.codes[m.ip], 1) && Resolvable(m, m.codes[m.ip], 2) && m.ip + 3 < |m.codes|
    ensures var code := m.codes[m.ip];
      var dst := m.codes[m.ip + 3];
      var a, b := Operand(m, code, 1), Operand(m, code, 2);
      Step(m, rule) == if 0 <= dst < |m.codes|
        then Stepped(m.(codes := m.codes[dst := if a < b then 1 else 0], ip := m.ip + 4), Ok(Continue))
        else Stepped(m, Err(IndexOutOfBounds(dst)))
  {
    var code := m.codes[m.ip];
    GetValInRange(m, code, 1);
    GetValInRange(m, code, 2);
  }

  /** Opcode 8 stores 1 or 0 at the raw third parameter and advances by 4. */
  lemma StepEquals(m: Machine, rule: InputRule)
    requires m.ip < |m.codes| && Opcode(m.codes[m.ip]) == 8
    requires Resolvable(m, m.codes[m.ip], 1) && Resolvable(m, m.codes[m.ip], 2) && DestInRange(m)
    ensures var code := m.codes[m.ip];
      var a, b := Operand(m, code, 1), Operand(m, code, 2);
      Step(m, rule) == Stepped(
        m.(codes := m.codes[m.codes[m.ip + 3] := if a == b then 1 else 0], ip := m.ip + 4),
        Ok(Continue))
  {
    var code := m.codes[m.ip];
    GetValInRange(m, code, 1);
    GetValInRange(m, code, 2);
  }

  /** Opcode 4 appends its operand to the output log, advances by 2 and reports it. */
  lemma StepOutput(m: Machine, rule: InputRule)
    requires m.ip < |m.codes| && Opcode(m.codes[m.ip]) == 4
    requires Resolvable(m, m.codes[m.ip], 1)
    ensures var v := Operand(m, m.codes[m.ip], 1);
      Step(m, rule) == Stepped(m.(outputs := m.outputs + [v], ip := m.ip + 2), Ok(StepResult.Output(v)))
  {
    GetValInRange(m, m.codes[m.ip], 1);
  }

  /** Opcodes 5 and 6 jump to the second operand when the first is non-zero (5) or zero (6). */
  lemma StepJump(m: Machine, rule: InputRule)
    requires m.ip < |m.codes| && Opcode(m.codes[m.ip]) in {5, 6}
    requires Resolvable(m, m.codes[m.ip], 1) && Resolvable(m, m.codes[m.ip], 2)
    requires Operand(m, m.codes[m.ip], 2) >= 0
    ensures var code := m.codes[m.ip];
      var jump := if Opcode(code) == 5 then Operand(m, code, 1) != 0 else Operand(m, code, 1) == 0;
      Step(m, rule) == Stepped(m.(ip := if jump then Operand(m, code, 2) else m.ip + 3), Ok(Continue))
  {
    GetValInRange(m, m.codes[m.ip], 1);
    GetValInRange(m, m.codes[m.ip], 2);
  }

  /** Opcode 9 adds its operand to the relative base and advances by 2. */
  lemma StepAdjustBase(m: Machine, rule: InputRule)
    requires m.ip < |m.codes| && Opcode(m.codes[m.ip]) == 9
    requires Resolvable(m, m.codes[m.ip], 1)
    ensures Step(m, rule) == Stepped(
      m.(relativeBase := m.relativeBase + Operand(m, m.codes[m.ip], 1), ip := m.ip + 2), Ok(Continue))
  {
    GetValInRange(m, m.codes[m.ip], 1);
  }

  /**
   * Opcode 3 with the raw destination in range: with unread input it stores the next input,
   * moves the cursor and advances by 2; with none it suspends and changes nothing.
   */
  lemma StepInputIntended(m: Machine)
    requires m.ip + 1 < |m.codes| && Opcode(m.codes[m.ip]) == 3
    requires 0 <= m.codes[m.ip + 1] < |m.codes|
    ensures Step(m, Intended) == if m.inputIdx < |m.inputs|
      then Stepped(m.(codes := m.codes[m.codes[m.ip + 1] := m.inputs[m.inputIdx]],
                      inputIdx := m.inputIdx + 1, ip := m.ip + 2), Ok(Continue))
      else Stepped(m, Ok(StepResult.AwaitInput))
  {
  }

  /**
   * Opcode 3 as written: the destination is the VALUE of parameter 1 by its mode, so in
   * position mode the input goes to the cell named by the cell the parameter names.
   */
  lemma StepInputAsWritten(m: Machine)
    requires m.ip < |m.codes| && Opcode(m.codes[m.ip]) == 3
    requires Resolvable(m, m.codes[m.ip], 1)
    requires 0 <= Operand(m, m.codes[m.ip], 1) < |m.codes|
    ensures Step(m, AsWritten) == if m.inputIdx < |m.inputs|
      then Stepped(m.(codes := m.codes[Operand(m, m.codes[m.ip], 1) := m.inputs[m.inputIdx]],
                      inputIdx := m.inputIdx + 1, ip := m.ip + 2), Ok(Continue))
      else Stepped(m, Ok(StepResult.AwaitInput))
  {
    GetValInRange(m, m.codes[m.ip], 1);
  }

  /** Opcode 99 reports Done and changes nothing. */
  lemma StepHalt(m: Machine, rule: InputRule)
    requires m.ip < |m.codes| && Opcode(m.codes[m.ip]) == 99
    ensures Step(m, rule) == Stepped(m, Ok(StepResult.Done))
  {
  }

  /** Any word outside the table is UnknownCode carrying `code % 100`; only growth happens. */
  lemma StepUnknown(m: Machine, rule: InputRule)
    requires Opcode(CodeAt(m)) !in {1, 2, 3, 4, 5, 6, 7, 8, 9, 99}
    ensures Step(m, rule) == Stepped(m.(codes := Grown(m.codes, m.ip)), Err(UnknownCode(Opcode(CodeAt(m)))))
  {
  }

  // ---------------------------------------------------------------- one step, any state

  /**
   * A suspension happens exactly at opcode 3 with the cursor past the inputs and a
   * destination that resolved; it leaves the instruction index, cursor, inputs, outputs and base as
   * they were, and memory only grown.
   */
  lemma AwaitInputChangesNoRegister(m: Machine, rule: InputRule)
    ensures var s := Step(m, rule);
      s.res == Ok(StepResult.AwaitInput) <==>
        Opcode(CodeAt(m)) == 3 && m.inputIdx >= |m.inputs|
        && InputAddress(m.(codes := Grown(m.codes, m.ip)), CodeAt(m), rule).val.Ok?
    ensures var s := Step(m, rule);
      s.res == Ok(StepResult.AwaitInput) ==>
        && s.m.ip == m.ip && s.m.inputIdx == m.inputIdx && s.m.inputs == m.inputs
        && s.m.outputs == m.outputs && s.m.relativeBase == m.relativeBase
        && Extends(m.codes, s.m.codes)
  {
    var s := Step(m, rule);
    var c := Grown(m.codes, m.ip);
    var code := c[m.ip];
    var m0 := m.(codes := c);
    if Opcode(code) == 3 {
      var a := InputAddress(m0, code, rule);
      if s.res == Ok(StepResult.AwaitInput) {
        InputAddressExtends(m0, code, rule);
        ExtendsTrans(m.codes, c, a.m.codes);
      }
    }
  }

  /** The reads that fetch an operand only append zero cells to memory. */
  lemma InputAddressExtends(m: Machine, code: int, rule: InputRule)
    ensures Extends(m.codes, InputAddress(m, code, rule).m.codes)
  {
    var nth := 1;
    var c := Grown(m.codes, m.ip + nth);
    if rule == AsWritten && GetMode(code, nth).Ok? && GetMode(code, nth).value != Immediate {
      var addr := if GetMode(code, nth).value == Position then c[m.ip + nth] else c[m.ip + nth] + m.relativeBase;
      if addr >= 0 {
        ExtendsTrans(m.codes, c, Grown(c, addr));
      }
    }
  }

  /**
   * Resuming after a suspension: once input is appended to a machine whose cursor had
   * reached the end of its inputs, the same instruction runs again, finds the same
   * destination on the memory it grew, stores the first new value there (or hits a
   * negative destination), moves the cursor by one and the instruction index by two.
   */
  lemma ResumeAfterAwait(m: Machine, rule: InputRule, more: seq<int>)
    requires Step(m, rule).res == Ok(StepResult.AwaitInput)
    requires m.inputIdx == |m.inputs| && more != []
    ensures var s := Step(m, rule).m;
      var resumed := s.(inputs := s.inputs + more);
      var dst := InputAddress(s, CodeAt(s), rule).val;
      && dst.Ok?
      && Step(resumed, rule) == if dst.value >= 0
        then Stepped(resumed.(codes := Stored(s.codes, dst.value, more[0]),
                              inputIdx := m.inputIdx + 1, ip := m.ip + 2), Ok(Continue))
        else Stepped(resumed, Err(NegativeAddress(dst.value)))
  {
    AwaitInputChangesNoRegister(m, rule);
    var s := Step(m, rule).m;
    var c := Grown(m.codes, m.ip);
    var code := c[m.ip];
    var m0 := m.(codes := c);
    var resumed := s.(inputs := s.inputs + more);
    InputAddressExtends(m0, code, rule);
    ExtendsAt(c, s.codes, m.ip);
    GrownInRange(s.codes, m.ip);
    assert CodeAt(s) == code && CodeAt(resumed) == code;
    match rule
    case AsWritten =>
      GetValStable(m0, code, 1, s);
      GetValStable(m0, code, 1, resumed);
    case Intended =>
      RawParamStable(m0, 1, s);
      RawParamStable(m0, 1, resumed);
  }

  // ---------------------------------------------------------------- the loops, any step

  /** The output log grows by the reported value on an Output and stays put otherwise. */
  ghost predicate LogsOutputs(step: Machine -> Stepped)
  {
    forall x: Machine :: step(x).m.outputs ==
      if step(x).res.Ok? && step(x).res.value.Output?
      then x.outputs + [step(x).res.value.value] else x.outputs
  }

  /** More fuel never changes a `run` loop that already returned. */
  lemma {:induction false} RunLoopFuelMonotone(step: Machine -> Stepped, m: Machine, fuel: nat, more: nat)
    requires RunLoop(step, m, fuel).outcome.Returned?
    ensures RunLoop(step, m, fuel + more) == RunLoop(step, m, fuel)
    decreases fuel
  {
    if step(m).res == Ok(Continue) {
      RunLoopFuelMonotone(step, step(m).m, fuel - 1, more);
    }
  }

  /** More fuel never changes a `run_until_halt` loop that already returned. */
  lemma {:induction false} HaltLoopFuelMonotone(step: Machine -> Stepped, m: Machine, fuel: nat, more: nat)
    requires HaltLoop(step, m, fuel).outcome.Returned?
    ensures HaltLoop(step, m, fuel + more) == HaltLoop(step, m, fuel)
    decreases fuel
  {
    var s := step(m);
    if s.res == Ok(Continue) || (s.res.Ok? && s.res.value.Output?) {
      HaltLoopFuelMonotone(step, s.m, fuel - 1, more);
    }
  }

  /**
   * The halting loop is the `run` loop restarted after every Output: when `run` stops at
   * an Output, running to halt from the start ends where running to halt from there ends;
   * when it stops at Done or AwaitInput, running to halt stops there with Done or
   * MissingInput; an error is the same error.
   */
  lemma {:induction false} HaltLoopResumesRunLoop(step: Machine -> Stepped, m: Machine, fuel: nat, fuel2: nat)
    requires RunLoop(step, m, fuel).outcome.Returned?
    ensures var r := RunLoop(step, m, fuel);
      match r.outcome.result
      case Ok(Output(_)) =>
        HaltLoop(step, r.m, fuel2).outcome.Returned? ==>
          HaltLoop(step, m, fuel + fuel2) == HaltLoop(step, r.m, fuel2)
      case Ok(AwaitInput) => HaltLoop(step, m, fuel) == Ran(r.m, Returned(Err(MissingInput)))
      case _ => HaltLoop(step, m, fuel) == r
    decreases fuel
  {
    var s := step(m);
    if s.res == Ok(Continue) {
      HaltLoopResumesRunLoop(step, s.m, fuel - 1, fuel2);
    } else if s.res.Ok? && s.res.value.Output? {
      if HaltLoop(step, s.m, fuel2).outcome.Returned? {
        HaltLoopFuelMonotone(step, s.m, fuel2, fuel - 1);
      }
    }
  }

  /** With a step that logs outputs, the halting loop only appends to the output log. */
  lemma {:induction false} HaltLoopOutputsAppendOnly(step: Machine -> Stepped, m: Machine, fuel: nat)
    requires LogsOutputs(step)
    ensures var r := HaltLoop(step, m, fuel);
      |m.outputs| <= |r.m.outputs| && r.m.outputs[..|m.outputs|] == m.outputs
    decreases fuel
  {
    if fuel > 0 {
      var s := step(m);
      if s.res == Ok(Continue) || (s.res.Ok? && s.res.value.Output?) {
        HaltLoopOutputsAppendOnly(step, s.m, fuel - 1);
        var r := HaltLoop(step, s.m, fuel - 1);
        assert r.m.outputs[..|m.outputs|] == r.m.outputs[..|s.m.outputs|][..|m.outputs|];
      }
    }
  }

  /**
   * With a step that logs outputs, the value the `run` loop reports with an Output is the
   * one entry it added to the log, and any other ending leaves the log as it was.
   */
  lemma {:induction false} RunLoopOutputIsLastLogged(step: Machine -> Stepped, m: Machine, fuel: nat)
    requires LogsOutputs(step)
    ensures var r := RunLoop(step, m, fuel);
      if r.outcome.Returned? && r.outcome.result.Ok? && r.outcome.result.value.Output?
      then r.m.outputs == m.outputs + [r.outcome.result.value.value]
      else r.m.outputs == m.outputs
    decreases fuel
  {
    if fuel > 0 && step(m).res == Ok(Continue) {
      RunLoopOutputIsLastLogged(step, step(m).m, fuel - 1);
    }
  }

  // ---------------------------------------------------------------- runs of the machine

  lemma StepperLogsOutputs(rule: InputRule)
    ensures LogsOutputs(Stepper(rule))
  {
    forall x: Machine
      ensures Stepper(rule)(x).m.outputs ==
        if Stepper(rule)(x).res.Ok? && Stepper(rule)(x).res.value.Output?
        then x.outputs + [Stepper(rule)(x).res.value.value] else x.outputs
    {
      assert Stepper(rule)(x) == Step(x, rule);
    }
  }

  /** A halted machine stays halted: every later run returns Done and changes nothing. */
  lemma HaltedStaysHalted(m: Machine, rule: InputRule, fuel: nat)
    requires Step(m, rule).res == Ok(StepResult.Done) && fuel > 0
    ensures Run(m, rule, fuel) == Ran(m, Returned(Ok(RunResult.Done)))
    ensures RunUntilHalt(m, rule, fuel) == Ran(m, Returned(Ok(RunResult.Done)))
  {
    assert Stepper(rule)(m) == Step(m, rule);
  }

  /** More fuel never changes a run (or a run to halt) that already returned. */
  lemma RunFuelMonotone(m: Machine, rule: InputRule, fuel: nat, more: nat)
    ensures Run(m, rule, fuel).outcome.Returned? ==> Run(m, rule, fuel + more) == Run(m, rule, fuel)
    ensures RunUntilHalt(m, rule, fuel).outcome.Returned? ==>
      RunUntilHalt(m, rule, fuel + more) == RunUntilHalt(m, rule, fuel)
  {
    if Run(m, rule, fuel).outcome.Returned? {
      RunLoopFuelMonotone(Stepper(rule), m, fuel, more);
    }
    if RunUntilHalt(m, rule, fuel).outcome.Returned? {
      HaltLoopFuelMonotone(Stepper(rule), m, fuel, more);
    }
  }

  /** `run_until_halt` is `run` called again after every Output. */
  lemma RunUntilHaltResumesRun(m: Machine, rule: InputRule, fuel: nat, fuel2: nat)
    requires Run(m, rule, fuel).outcome.Returned?
    ensures var r := Run(m, rule, fuel);
      match r.outcome.result
      case Ok(Output(_)) =>
        RunUntilHalt(r.m, rule, fuel2).outcome.Returned? ==>
          RunUntilHalt(m, rule, fuel + fuel2) == RunUntilHalt(r.m, rule, fuel2)
      case Ok(AwaitInput) => RunUntilHalt(m, rule, fuel) == Ran(r.m, Returned(Err(MissingInput)))
      case _ => RunUntilHalt(m, rule, fuel) == r
  {
    HaltLoopResumesRunLoop(Stepper(rule), m, fuel, fuel2);
  }

  /** Outputs are append-only: a run to halt keeps the log it started with as a prefix. */
  lemma RunUntilHaltOutputsAppendOnly(m: Machine, rule: InputRule, fuel: nat)
    ensures var r := RunUntilHalt(m, rule, fuel);
      |m.outputs| <= |r.m.outputs| && r.m.outputs[..|m.outputs|] == m.outputs
  {
    StepperLogsOutputs(rule);
    HaltLoopOutputsAppendOnly(Stepper(rule), m, fuel);
  }

  /** The value `run` reports with an Output is the last entry of the output log. */
  lemma RunOutputIsLastLogged(m: Machine, rule: InputRule, fuel: nat)
    ensures var r := Run(m, rule, fuel);
      if r.outcome.Returned? && r.outcome.result.Ok? && r.outcome.result.value.Output?
      then r.m.outputs == m.outputs + [r.outcome.result.value.value]
      else r.m.outputs == m.outputs
  {
    StepperLogsOutputs(rule);
    RunLoopOutputIsLastLogged(Stepper(rule), m, fuel);
  }
}
