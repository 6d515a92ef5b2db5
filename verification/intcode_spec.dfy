/**
 * The Intcode machine of src/y2019/computer.rs as pure functions over a machine state.
 *
 * The machine state mirrors the fields of the source's `Computer`: instruction index,
 * growable memory (`codes`), the input vector with its read cursor, the append-only output
 * log and the relative base.  Every memory access goes through `Grown`, which is the
 * source's resize-to-`i + 4` on an out-of-range index.  The class in IntcodeComputer is
 * proved to follow these functions step for step.
 */
module IntcodeSpec {

  /** Addressing mode of one instruction parameter. */
  datatype Mode = Position | Immediate | Relative

  /**
   * Errors of a step.  UnknownCode and MissingInput are the source's ComputerError; the
   * other three stand for the places where the source panics: a mode digit outside 0..2,
   * a negative value used as a memory address or jump target (a wrapped `as usize` that
   * the following resize or index cannot serve), and opcode 7 indexing past the end.
   */
  datatype ComputerError =
    | UnknownCode(code: int)
    | MissingInput
    | BadModeDigit(code: int, nth: nat)
    | NegativeAddress(addr: int)
    | IndexOutOfBounds(addr: int)

  datatype Result<T> = Ok(value: T) | Err(error: ComputerError)

  /** What one step reports to the run loop. */
  datatype StepResult = Done | AwaitInput | Output(value: int) | Continue

  /** What a run reports to its caller. */
  datatype RunResult = Done | AwaitInput | Output(value: int)

  /**
   * Where opcode 3 stores its input.  AsWritten is the source: the destination is
   * `get_val(code, 1)`, which in position mode reads memory once more than any other write.
   * Intended is the raw parameter, as every other write of the machine and the input
   * instruction of src/y2019/day05.rs do.
   */
  datatype InputRule = AsWritten | Intended

  datatype Machine = Machine(
    ip: nat,
    codes: seq<int>,
    inputs: seq<int>,
    inputIdx: nat,
    outputs: seq<int>,
    relativeBase: int)

  /** A memory read that may have grown memory, with its value or the fault it hit. */
  datatype Fetched = Fetched(m: Machine, val: Result<int>)

  /** The state after one step and what the step reported. */
  datatype Stepped = Stepped(m: Machine, res: Result<StepResult>)

  /** A run either returns to its caller or exhausts the step budget the model gives it. */
  datatype RunOutcome = Returned(result: Result<RunResult>) | OutOfFuel

  datatype Ran = Ran(m: Machine, outcome: RunOutcome)

  /** A fresh machine, as `Computer::new` builds it. */
  function Init(codes: seq<int>): Machine
  {
    Machine(0, codes, [], 0, [], 0)
  }

  // ---------------------------------------------------------------- memory

  /** `after` is `before` followed by zero cells only. */
  ghost predicate Extends(before: seq<int>, after: seq<int>)
  {
    && |before| <= |after|
    && after[..|before|] == before
    && forall k | |before| <= k < |after| :: after[k] == 0
  }

  /** Memory after an access at index i: resized with zeros to i + 4 when i is out of range. */
  function Grown(codes: seq<int>, i: nat): (r: seq<int>)
    ensures Extends(codes, r) && i < |r|
    ensures |r| == if i < |codes| then |codes| else i + 4
  {
    if i < |codes| then codes else codes + seq(i + 4 - |codes|, _ => 0)
  }

  /** Memory after `set_at_mem(i, v)`: only cell i differs from the grown memory. */
  function Stored(codes: seq<int>, i: nat, v: int): (r: seq<int>)
    ensures |r| == |Grown(codes, i)| && r[i] == v
    ensures forall k | 0 <= k < |r| && k != i :: r[k] == if k < |codes| then codes[k] else 0
  {
    Grown(codes, i)[i := v]
  }

  /** A read at address addr after a parameter was loaded; a negative address is a fault. */
  function Deref(m: Machine, addr: int): Fetched
  {
    if addr < 0 then Fetched(m, Err(NegativeAddress(addr)))
    else
      var c := Grown(m.codes, addr);
      Fetched(m.(codes := c), Ok(c[addr]))
  }

  // ---------------------------------------------------------------- decoding

  /** `code as usize` reinterprets a word modulo 2^64. */
  const USIZE_MODULUS: int := 0x1_0000_0000_0000_0000

  function Pow10(n: nat): (r: nat)
    ensures r >= 1
  {
    if n == 0 then 1 else 10 * Pow10(n - 1)
  }

  /** The decimal digit of the word that selects the mode of parameter nth. */
  function ModeDigit(code: int, nth: nat): nat
  {
    (code % USIZE_MODULUS) / Pow10(nth + 1) % 10
  }

  /** `get_mode`: digit 0, 1, 2 select Position, Immediate, Relative; any other digit panics. */
  function GetMode(code: int, nth: nat): (r: Result<Mode>)
    ensures r.Err? <==> ModeDigit(code, nth) > 2
  {
    match ModeDigit(code, nth)
    case 0 => Ok(Position)
    case 1 => Ok(Immediate)
    case 2 => Ok(Relative)
    case _ => Err(BadModeDigit(code, nth))
  }

  /** `code % 100` with Rust's remainder, which truncates toward zero. */
  function Opcode(code: int): int
  {
    if code >= 0 then code % 100 else -((-code) % 100)
  }

  // ---------------------------------------------------------------- parameters

  /** `get_val`: the value of parameter nth of the instruction at ip, resolved by its mode. */
  function GetVal(m: Machine, code: int, nth: nat): (f: Fetched)
    ensures f.m == m.(codes := f.m.codes) && |m.codes| <= |f.m.codes|
  {
    match GetMode(code, nth)
    case Err(e) => Fetched(m, Err(e))
    case Ok(mode) =>
      var c := Grown(m.codes, m.ip + nth);
      var raw := c[m.ip + nth];
      match mode
      case Immediate => Fetched(m.(codes := c), Ok(raw))
      case Position => Deref(m.(codes := c), raw)
      case Relative => Deref(m.(codes := c), raw + m.relativeBase)
  }

  /** The raw parameter at ip + nth, read with `get_at_mem` (no mode applied). */
  function RawParam(m: Machine, nth: nat): (f: Fetched)
    ensures f.m == m.(codes := f.m.codes) && |m.codes| <= |f.m.codes| && f.val.Ok?
  {
    var c := Grown(m.codes, m.ip + nth);
    Fetched(m.(codes := c), Ok(c[m.ip + nth]))
  }

  // ---------------------------------------------------------------- instructions

  /**
   * What no instruction touches: the input vector, and the place of every existing memory
   * cell (memory only grows).
   */
  ghost predicate Keeps(m: Machine, s: Stepped)
  {
    s.m.inputs == m.inputs && |m.codes| <= |s.m.codes|
  }

  function Add(x: int, y: int): int { x + y }
  function Mul(x: int, y: int): int { x * y }
  function LessFlag(x: int, y: int): int { if x < y then 1 else 0 }
  function EqualFlag(x: int, y: int): int { if x == y then 1 else 0 }

  /** `binary_op`: two operands by mode, destination is the raw third parameter. */
  function BinaryOp(m: Machine, code: int, f: (int, int) -> int): (s: Stepped)
    ensures Keeps(m, s) && s.m.inputIdx == m.inputIdx && s.m.outputs == m.outputs
    ensures s.m.relativeBase == m.relativeBase
    ensures s.res.Ok? ==> s.res.value == Continue && s.m.ip == m.ip + 4
  {
    var a := GetVal(m, code, 1);
    if a.val.Err? then Stepped(a.m, Err(a.val.error)) else
    var b := GetVal(a.m, code, 2);
    if b.val.Err? then Stepped(b.m, Err(b.val.error)) else
    var d := RawParam(b.m, 3);
    var dst := d.val.value;
    if dst < 0 then Stepped(d.m, Err(NegativeAddress(dst)))
    else Stepped(d.m.(codes := Stored(d.m.codes, dst, f(a.val.value, b.val.value)), ip := m.ip + 4), Ok(Continue))
  }

  /** The destination of opcode 3 under each rule. */
  function InputAddress(m: Machine, code: int, rule: InputRule): (f: Fetched)
    ensures f.m == m.(codes := f.m.codes) && |m.codes| <= |f.m.codes|
  {
    match rule
    case AsWritten => GetVal(m, code, 1)
    case Intended => RawParam(m, 1)
  }

  /** Opcode 3: the destination is computed first; with no unread input the step suspends. */
  function InputOp(m: Machine, code: int, rule: InputRule): (s: Stepped)
    ensures Keeps(m, s) && s.m.outputs == m.outputs && s.m.relativeBase == m.relativeBase
    ensures s.res == Ok(Continue) ==>
      m.inputIdx < |m.inputs| && s.m.inputIdx == m.inputIdx + 1 && s.m.ip == m.ip + 2
    ensures s.res != Ok(Continue) ==> s.m.inputIdx == m.inputIdx && s.m.ip == m.ip
    ensures s.res.Ok? ==> s.res.value in {Continue, StepResult.AwaitInput}
    ensures s.res == Ok(StepResult.AwaitInput) <==>
      InputAddress(m, code, rule).val.Ok? && m.inputIdx >= |m.inputs|
  {
    var a := InputAddress(m, code, rule);
    if a.val.Err? then Stepped(a.m, Err(a.val.error))
    else if a.m.inputIdx >= |a.m.inputs| then Stepped(a.m, Ok(StepResult.AwaitInput))
    else if a.val.value < 0 then Stepped(a.m, Err(NegativeAddress(a.val.value)))
    else
      Stepped(a.m.(codes := Stored(a.m.codes, a.val.value, a.m.inputs[a.m.inputIdx]),
                   inputIdx := a.m.inputIdx + 1,
                   ip := m.ip + 2),
              Ok(Continue))
  }

  /** Opcode 4. */
  function OutputOp(m: Machine, code: int): (s: Stepped)
    ensures Keeps(m, s) && s.m.inputIdx == m.inputIdx && s.m.relativeBase == m.relativeBase
    ensures s.res.Ok? ==> s.res.value.Output? && s.m.outputs == m.outputs + [s.res.value.value]
    ensures s.res.Err? ==> s.m.outputs == m.outputs
  {
    var a := GetVal(m, code, 1);
    if a.val.Err? then Stepped(a.m, Err(a.val.error))
    else Stepped(a.m.(outputs := a.m.outputs + [a.val.value], ip := m.ip + 2), Ok(StepResult.Output(a.val.value)))
  }

  /** Opcodes 5 (jumpIfNonZero) and 6 (not jumpIfNonZero). */
  function JumpOp(m: Machine, code: int, jumpIfNonZero: bool): (s: Stepped)
    ensures Keeps(m, s) && s.m.inputIdx == m.inputIdx && s.m.outputs == m.outputs
    ensures s.m.relativeBase == m.relativeBase
    ensures s.res.Ok? ==> s.res.value == Continue
  {
    var a := GetVal(m, code, 1);
    if a.val.Err? then Stepped(a.m, Err(a.val.error))
    else if (a.val.value != 0) == jumpIfNonZero then
      var t := GetVal(a.m, code, 2);
      if t.val.Err? then Stepped(t.m, Err(t.val.error))
      else if t.val.value < 0 then Stepped(t.m, Err(NegativeAddress(t.val.value)))
      else Stepped(t.m.(ip := t.val.value), Ok(Continue))
    else Stepped(a.m.(ip := m.ip + 3), Ok(Continue))
  }

  /** Opcode 7: the destination is indexed directly, so it must already be in range. */
  function LessThanOp(m: Machine, code: int): (s: Stepped)
    ensures Keeps(m, s) && s.m.inputIdx == m.inputIdx && s.m.outputs == m.outputs
    ensures s.m.relativeBase == m.relativeBase
    ensures s.res.Ok? ==> s.res.value == Continue && s.m.ip == m.ip + 4
  {
    var a := GetVal(m, code, 1);
    if a.val.Err? then Stepped(a.m, Err(a.val.error)) else
    var b := GetVal(a.m, code, 2);
    if b.val.Err? then Stepped(b.m, Err(b.val.error)) else
    var d := RawParam(b.m, 3);
    var dst := d.val.value;
    if dst < 0 || dst >= |d.m.codes| then Stepped(d.m, Err(IndexOutOfBounds(dst)))
    else Stepped(d.m.(codes := d.m.codes[dst := LessFlag(a.val.value, b.val.value)], ip := m.ip + 4), Ok(Continue))
  }

  /** Opcode 9. */
  function AdjustBaseOp(m: Machine, code: int): (s: Stepped)
    ensures Keeps(m, s) && s.m.inputIdx == m.inputIdx && s.m.outputs == m.outputs
    ensures s.res.Ok? ==> s.res.value == Continue && s.m.ip == m.ip + 2
  {
    var a := GetVal(m, code, 1);
    if a.val.Err? then Stepped(a.m, Err(a.val.error))
    else Stepped(a.m.(relativeBase := m.relativeBase + a.val.value, ip := m.ip + 2), Ok(Continue))
  }

  /** `run_step`: fetch the word at ip (growing memory if needed) and execute it. */
  function Step(m: Machine, rule: InputRule): (s: Stepped)
    ensures Keeps(m, s)
    ensures if s.res.Ok? && s.res.value.Output?
      then s.m.outputs == m.outputs + [s.res.value.value]
      else s.m.outputs == m.outputs
    ensures s.m.inputIdx == m.inputIdx
         || (s.m.inputIdx == m.inputIdx + 1 && m.inputIdx < |m.inputs| && s.res == Ok(Continue))
    ensures s.res == Ok(StepResult.Done) ==> s.m == m
  {
    var c := Grown(m.codes, m.ip);
    var code := c[m.ip];
    var m0 := m.(codes := c);
    match Opcode(code)
    case 1 => BinaryOp(m0, code, Add)
    case 2 => BinaryOp(m0, code, Mul)
    case 3 => InputOp(m0, code, rule)
    case 4 => OutputOp(m0, code)
    case 5 => JumpOp(m0, code, true)
    case 6 => JumpOp(m0, code, false)
    case 7 => LessThanOp(m0, code)
    case 8 => BinaryOp(m0, code, EqualFlag)
    case 9 => AdjustBaseOp(m0, code)
    case 99 => Stepped(m0, Ok(StepResult.Done))
    case op => Stepped(m0, Err(UnknownCode(op)))
  }

  // ---------------------------------------------------------------- run loops

  /**
   * The loop of `run` around a single-step function: stop at Done, AwaitInput, an Output or
   * an error, go on at Continue; at most fuel steps.
   */
  function RunLoop(step: Machine -> Stepped, m: Machine, fuel: nat): Ran
    decreases fuel
  {
    if fuel == 0 then Ran(m, OutOfFuel) else
    var s := step(m);
    match s.res
    case Err(e) => Ran(s.m, Returned(Err(e)))
    case Ok(Done) => Ran(s.m, Returned(Ok(RunResult.Done)))
    case Ok(AwaitInput) => Ran(s.m, Returned(Ok(RunResult.AwaitInput)))
    case Ok(Output(x)) => Ran(s.m, Returned(Ok(RunResult.Output(x))))
    case Ok(Continue) => RunLoop(step, s.m, fuel - 1)
  }

  /**
   * The loop of `run_until_halt` around a single-step function: outputs do not stop it and
   * a suspension is MissingInput.
   */
  function HaltLoop(step: Machine -> Stepped, m: Machine, fuel: nat): Ran
    decreases fuel
  {
    if fuel == 0 then Ran(m, OutOfFuel) else
    var s := step(m);
    match s.res
    case Err(e) => Ran(s.m, Returned(Err(e)))
    case Ok(Done) => Ran(s.m, Returned(Ok(RunResult.Done)))
    case Ok(AwaitInput) => Ran(s.m, Returned(Err(MissingInput)))
    case Ok(Output(_)) => HaltLoop(step, s.m, fuel - 1)
    case Ok(Continue) => HaltLoop(step, s.m, fuel - 1)
  }

  /** `run_step` under an input rule, as a value the loops can call. */
  function Stepper(rule: InputRule): Machine -> Stepped
  {
    x => Step(x, rule)
  }

  /** `run`. */
  function Run(m: Machine, rule: InputRule, fuel: nat): Ran
  {
    RunLoop(Stepper(rule), m, fuel)
  }

  /** `run_until_halt`. */
  function RunUntilHalt(m: Machine, rule: InputRule, fuel: nat): Ran
  {
    HaltLoop(Stepper(rule), m, fuel)
  }

  /** `with_input`: replaces the inputs and keeps the read cursor. */
  function WithInput(m: Machine, inputs: seq<int>): Machine
  {
    m.(inputs := inputs)
  }

  /** `run_with_inputs`: appends to the inputs, keeps the read cursor, then runs. */
  function RunWithInputs(m: Machine, inputs: seq<int>, rule: InputRule, fuel: nat): Ran
  {
    Run(m.(inputs := m.inputs + inputs), rule, fuel)
  }
}
