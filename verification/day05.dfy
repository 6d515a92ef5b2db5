/**
 * The second, simpler Intcode interpreter of src/y2019/day05.rs: two parameter modes, one
 * fixed input value that every input instruction stores, outputs that are only logged, and
 * a memory vector that is never resized.  The pure functions give the meaning of one step
 * and of a run; the class `Computer` keeps memory in an array updated in place and is
 * proved to follow them.
 */
module Day05Spec {
  import IntcodeSpec

  /** Addressing mode of a parameter; this interpreter knows only two. */
  datatype Mode = Position | Immediate

  /**
   * OutOfBound and UnknownCode are the source's ComputerError.  BadModeDigit and IndexPanic
   * stand for the places where the source panics: a mode digit other than 0 or 1, and a
   * vector index past the end (a negative i32 cast to usize is at least 2^63, so it is
   * past the end of every vector too).
   */
  datatype Fault = OutOfBound | UnknownCode(code: int) | BadModeDigit(code: int, nth: nat) | IndexPanic(index: int)

  datatype Result<T> = Ok(value: T) | Err(error: Fault)

  datatype StepResult = Done | Continue

  datatype Machine = Machine(ip: nat, codes: seq<int>, input: int, outputs: seq<int>)

  datatype Stepped = Stepped(m: Machine, res: Result<StepResult>)

  /** `run` returns `codes[0]` once the program halts, or a fault; the model bounds its steps. */
  datatype RunOutcome = Returned(result: Result<int>) | OutOfFuel

  datatype Ran = Ran(m: Machine, outcome: RunOutcome)

  /** `Computer::new`. */
  function Init(codes: seq<int>, input: int): Machine
  {
    Machine(0, codes, input, [])
  }

  /** `get_mode`: the same digit as the growable machine reads, but only 0 and 1 are accepted. */
  function GetMode(code: int, nth: nat): (r: Result<Mode>)
    ensures r == Ok(Position) <==> IntcodeSpec.ModeDigit(code, nth) == 0
    ensures r == Ok(Immediate) <==> IntcodeSpec.ModeDigit(code, nth) == 1
    ensures r.Err? <==> IntcodeSpec.ModeDigit(code, nth) >= 2
  {
    match IntcodeSpec.ModeDigit(code, nth)
    case 0 => Ok(Position)
    case 1 => Ok(Immediate)
    case _ => Err(BadModeDigit(code, nth))
  }

  /** `get_val`: the value of parameter nth by its mode; reads only, never writes. */
  function GetVal(m: Machine, code: int, nth: nat): Result<int>
  {
    match GetMode(code, nth)
    case Err(e) => Err(e)
    case Ok(Position) =>
      var i := m.ip + nth;
      if i >= |m.codes| then Err(IndexPanic(i))
      else if 0 <= m.codes[i] < |m.codes| then Ok(m.codes[m.codes[i]])
      else Err(IndexPanic(m.codes[i]))
    case Ok(Immediate) =>
      var i := m.ip + nth;
      if i < |m.codes| then Ok(m.codes[i]) else Err(IndexPanic(i))
  }

  /** `x as usize` for a jump target. */
  function AsUsize(x: int): (r: nat)
    ensures 0 <= x < IntcodeSpec.USIZE_MODULUS ==> r == x
    ensures -IntcodeSpec.USIZE_MODULUS <= x < 0 ==> r == x + IntcodeSpec.USIZE_MODULUS
  {
    x % IntcodeSpec.USIZE_MODULUS
  }

  /** `binary_op`: checks the instruction fits in memory before reading anything. */
  function BinaryOp(m: Machine, code: int, f: (int, int) -> int): (s: Stepped)
  {
    if m.ip + 3 >= |m.codes| then Stepped(m, Err(OutOfBound))
    else match (GetVal(m, code, 1), GetVal(m, code, 2))
      case (Err(e), _) => Stepped(m, Err(e))
      case (_, Err(e)) => Stepped(m, Err(e))
      case (Ok(a), Ok(b)) =>
        var dst := m.codes[m.ip + 3];
        if 0 <= dst < |m.codes| then Stepped(m.(codes := m.codes[dst := f(a, b)], ip := m.ip + 4), Ok(Continue))
        else Stepped(m, Err(IndexPanic(dst)))
  }

  /** Opcodes 7 and 8: like `binary_op` but without its bounds check, so a short program panics. */
  function CompareOp(m: Machine, code: int, f: (int, int) -> int): (s: Stepped)
  {
    match (GetVal(m, code, 1), GetVal(m, code, 2))
    case (Err(e), _) => Stepped(m, Err(e))
    case (_, Err(e)) => Stepped(m, Err(e))
    case (Ok(a), Ok(b)) =>
      if m.ip + 3 >= |m.codes| then Stepped(m, Err(IndexPanic(m.ip + 3)))
      else
        var dst := m.codes[m.ip + 3];
        if 0 <= dst < |m.codes| then Stepped(m.(codes := m.codes[dst := f(a, b)], ip := m.ip + 4), Ok(Continue))
        else Stepped(m, Err(IndexPanic(dst)))
  }

  /** Opcodes 5 and 6. */
  function JumpOp(m: Machine, code: int, jumpIfNonZero: bool): (s: Stepped)
  {
    match GetVal(m, code, 1)
    case Err(e) => Stepped(m, Err(e))
    case Ok(v) =>
      if (v != 0) == jumpIfNonZero then
        match GetVal(m, code, 2)
        case Err(e) => Stepped(m, Err(e))
        case Ok(t) => Stepped(m.(ip := AsUsize(t)), Ok(Continue))
      else Stepped(m.(ip := m.ip + 3), Ok(Continue))
  }

  /** Opcode 3: the fixed input goes to the cell the raw parameter names; nothing is consumed. */
  function InputOp(m: Machine): (s: Stepped)
  {
    if m.ip + 1 >= |m.codes| then Stepped(m, Err(IndexPanic(m.ip + 1)))
    else
      var dst := m.codes[m.ip + 1];
      if 0 <= dst < |m.codes| then Stepped(m.(codes := m.codes[dst := m.input], ip := m.ip + 2), Ok(Continue))
      else Stepped(m, Err(IndexPanic(dst)))
  }

  /** Opcode 4: the value is logged and the machine goes on. */
  function OutputOp(m: Machine, code: int): (s: Stepped)
  {
    match GetVal(m, code, 1)
    case Err(e) => Stepped(m, Err(e))
    case Ok(v) => Stepped(m.(outputs := m.outputs + [v], ip := m.ip + 2), Ok(Continue))
  }

  /**
   * `run_step`.  A step never resizes memory, never changes the input, only appends to the
   * outputs, and a failing step (error or panic) has changed nothing yet.
   */
  function Step(m: Machine): (s: Stepped)
    ensures |s.m.codes| == |m.codes| && s.m.input == m.input
    ensures s.m.outputs == m.outputs
      || (s.res == Ok(Continue) && |s.m.outputs| == |m.outputs| + 1 && s.m.outputs[..|m.outputs|] == m.outputs)
    ensures s.res.Err? ==> s.m == m
    ensures s.res == Ok(Done) ==> s.m == m && m.ip < |m.codes|
  {
    if m.ip >= |m.codes| then Stepped(m, Err(OutOfBound))
    else
      var code := m.codes[m.ip];
      match IntcodeSpec.Opcode(code)
      case 1 => BinaryOp(m, code, IntcodeSpec.Add)
      case 2 => BinaryOp(m, code, IntcodeSpec.Mul)
      case 3 => InputOp(m)
      case 4 => OutputOp(m, code)
      case 5 => JumpOp(m, code, true)
      case 6 => JumpOp(m, code, false)
      case 7 => CompareOp(m, code, IntcodeSpec.LessFlag)
      case 8 => CompareOp(m, code, IntcodeSpec.EqualFlag)
      case 99 => Stepped(m, Ok(Done))
      case c => Stepped(m, Err(UnknownCode(c)))
  }

  /** `run`: steps until the program halts, then reports cell 0; a fault is passed on. */
  function Run(m: Machine, fuel: nat): Ran
    decreases fuel
  {
    if fuel == 0 then Ran(m, OutOfFuel)
    else
      var s := Step(m);
      match s.res
      case Err(e) => Ran(s.m, Returned(Err(e)))
      case Ok(Done) => Ran(s.m, Returned(Ok(s.m.codes[0])))
      case Ok(Continue) => Run(s.m, fuel - 1)
  }
}

/** The interpreter of src/y2019/day05.rs as a class whose memory is an array updated in place. */
module Day05Computer {
  import IntcodeSpec
  import opened Day05Spec

  class Computer {
    var instructionIdx: nat
    var codes: array<int>
    var input: int
    var outputs: seq<int>

    /** The abstract state of the object. */
    function State(): Machine
      reads this, codes
    {
      Machine(instructionIdx, codes[..], input, outputs)
    }

    /** `Computer::new`. */
    constructor (codes: seq<int>, input: int)
      ensures State() == Init(codes, input) && fresh(this.codes)
    {
      instructionIdx := 0;
      this.codes := new int[|codes|](i requires 0 <= i < |codes| => codes[i]);
      this.input := input;
      outputs := [];
    }

    /** `run`: at most fuel steps. */
    method Run(fuel: nat) returns (r: RunOutcome)
      modifies this, codes
      ensures codes == old(codes)
      ensures Ran(State(), r) == Day05Spec.Run(old(State()), fuel)
    {
      var n := fuel;
      while true
        invariant codes == old(codes)
        invariant Day05Spec.Run(old(State()), fuel) == Day05Spec.Run(State(), n)
        decreases n
      {
        if n == 0 {
          return OutOfFuel;
        }
        var s := RunStep();
        match s {
          case Err(e) => return Returned(Err(e));
          case Ok(Done) => return Returned(Ok(codes[0]));
          case Ok(Continue) =>
        }
        n := n - 1;
      }
    }

    /** `run_step`. */
    method RunStep() returns (r: Result<StepResult>)
      modifies this, codes
      ensures codes == old(codes)
      ensures Stepped(State(), r) == Step(old(State()))
    {
      if instructionIdx >= codes.Length {
        return Err(OutOfBound);
      }
      var code := codes[instructionIdx];
      match IntcodeSpec.Opcode(code) {
        case 1 => r := BinaryOp(code, IntcodeSpec.Add);
        case 2 => r := BinaryOp(code, IntcodeSpec.Mul);
        case 3 => r := Input();
        case 4 => r := Output(code);
        case 5 => r := Jump(code, true);
        case 6 => r := Jump(code, false);
        case 7 => r := Compare(code, IntcodeSpec.LessFlag);
        case 8 => r := Compare(code, IntcodeSpec.EqualFlag);
        case 99 => r := Ok(Done);
        case c => r := Err(UnknownCode(c));
      }
    }

    /** Opcode 3, written inline in `run_step`. */
    method Input() returns (r: Result<StepResult>)
      requires instructionIdx < codes.Length
      modifies this, codes
      ensures codes == old(codes)
      ensures Stepped(State(), r) == InputOp(old(State()))
    {
      if instructionIdx + 1 >= codes.Length {
        return Err(IndexPanic(instructionIdx + 1));
      }
      var addr := codes[instructionIdx + 1];
      if addr < 0 || addr >= codes.Length {
        return Err(IndexPanic(addr));
      }
      codes[addr] := input;
      instructionIdx := instructionIdx + 2;
      r := Ok(Continue);
    }

    /** Opcode 4, written inline in `run_step`. */
    method Output(code: int) returns (r: Result<StepResult>)
      modifies this
      ensures codes == old(codes)
      ensures Stepped(State(), r) == OutputOp(old(State()), code)
    {
      var v := GetVal(code, 1);
      if v.Err? {
        return Err(v.error);
      }
      outputs := outputs + [v.value];
      instructionIdx := instructionIdx + 2;
      r := Ok(Continue);
    }

    /** Opcodes 5 and 6, written inline in `run_step`. */
    method Jump(code: int, jumpIfNonZero: bool) returns (r: Result<StepResult>)
      modifies this
      ensures codes == old(codes)
      ensures Stepped(State(), r) == JumpOp(old(State()), code, jumpIfNonZero)
    {
      var v := GetVal(code, 1);
      if v.Err? {
        return Err(v.error);
      }
      if (v.value != 0) == jumpIfNonZero {
        var t := GetVal(code, 2);
        if t.Err? {
          return Err(t.error);
        }
        instructionIdx := AsUsize(t.value);
      } else {
        instructionIdx := instructionIdx + 3;
      }
      r := Ok(Continue);
    }

    /** Opcodes 7 and 8, written inline in `run_step`. */
    method Compare(code: int, f: (int, int) -> int) returns (r: Result<StepResult>)
      modifies this, codes
      ensures codes == old(codes)
      ensures Stepped(State(), r) == CompareOp(old(State()), code, f)
    {
      var a := GetVal(code, 1);
      if a.Err? {
        return Err(a.error);
      }
      var b := GetVal(code, 2);
      if b.Err? {
        return Err(b.error);
      }
      if instructionIdx + 3 >= codes.Length {
        return Err(IndexPanic(instructionIdx + 3));
      }
      var addr := codes[instructionIdx + 3];
      if addr < 0 || addr >= codes.Length {
        return Err(IndexPanic(addr));
      }
      codes[addr] := f(a.value, b.value);
      instructionIdx := instructionIdx + 4;
      r := Ok(Continue);
    }

    /** `get_val`: changes nothing. */
    method GetVal(code: int, nth: nat) returns (r: Result<int>)
      ensures r == Day05Spec.GetVal(State(), code, nth)
    {
      var mode := GetMode(code, nth);
      if mode.Err? {
        return Err(mode.error);
      }
      var i := instructionIdx + nth;
      if i >= codes.Length {
        return Err(IndexPanic(i));
      }
      if mode.value == Immediate {
        return Ok(codes[i]);
      }
      var addr := codes[i];
      if addr < 0 || addr >= codes.Length {
        return Err(IndexPanic(addr));
      }
      r := Ok(codes[addr]);
    }

    /** `binary_op`. */
    method BinaryOp(code: int, f: (int, int) -> int) returns (r: Result<StepResult>)
      modifies this, codes
      ensures codes == old(codes)
      ensures Stepped(State(), r) == Day05Spec.BinaryOp(old(State()), code, f)
    {
      if instructionIdx + 3 >= codes.Length {
        return Err(OutOfBound);
      }
      var a := GetVal(code, 1);
      if a.Err? {
        return Err(a.error);
      }
      var b := GetVal(code, 2);
      if b.Err? {
        return Err(b.error);
      }
      var addr := codes[instructionIdx + 3];
      if addr < 0 || addr >= codes.Length {
        return Err(IndexPanic(addr));
      }
      codes[addr] := f(a.value, b.value);
      instructionIdx := instructionIdx + 4;
      r := Ok(Continue);
    }
  }
}

/** What src/y2019/day05.rs promises about single steps and whole runs. */
module Day05Properties {
  import IntcodeSpec
  import opened Day05Spec

  /** The test of `get_mode` on 1002. */
  lemma ModesOf1002()
    ensures GetMode(1002, 1) == Ok(Position)
    ensures GetMode(1002, 2) == Ok(Immediate)
    ensures GetMode(1002, 3) == Ok(Position)
  {
    assert IntcodeSpec.ModeDigit(1002, 1) == 0;
    assert IntcodeSpec.ModeDigit(1002, 2) == 1;
    assert IntcodeSpec.ModeDigit(1002, 3) == 0;
  }

  /** An instruction index past the end is the OutOfBound error, with nothing changed. */
  lemma StepPastEnd(m: Machine)
    requires m.ip >= |m.codes|
    ensures Step(m) == Stepped(m, Err(OutOfBound))
  {
  }

  /** Opcodes 1 and 2 report OutOfBound before reading anything when the instruction is cut short. */
  lemma StepArithmeticCutShort(m: Machine)
    requires m.ip < |m.codes| && IntcodeSpec.Opcode(m.codes[m.ip]) in {1, 2}
    requires m.ip + 3 >= |m.codes|
    ensures Step(m) == Stepped(m, Err(OutOfBound))
  {
  }

  /** Opcodes 1 and 2 store the sum or product at the raw third parameter and move on by 4. */
  lemma StepArithmetic(m: Machine)
    requires m.ip + 3 < |m.codes| && IntcodeSpec.Opcode(m.codes[m.ip]) in {1, 2}
    requires GetVal(m, m.codes[m.ip], 1).Ok? && GetVal(m, m.codes[m.ip], 2).Ok?
    requires 0 <= m.codes[m.ip + 3] < |m.codes|
    ensures var a, b := GetVal(m, m.codes[m.ip], 1).value, GetVal(m, m.codes[m.ip], 2).value;
      Step(m) == Stepped(m.(codes := m.codes[m.codes[m.ip + 3] :=
                              if IntcodeSpec.Opcode(m.codes[m.ip]) == 1 then a + b else a * b],
                            ip := m.ip + 4), Ok(Continue))
  {
  }

  /** Opcode 3 stores the fixed input at the raw parameter and keeps it for the next one. */
  lemma StepInput(m: Machine)
    requires m.ip + 1 < |m.codes| && IntcodeSpec.Opcode(m.codes[m.ip]) == 3
    requires 0 <= m.codes[m.ip + 1] < |m.codes|
    ensures Step(m) == Stepped(m.(codes := m.codes[m.codes[m.ip + 1] := m.input], ip := m.ip + 2), Ok(Continue))
  {
  }

  /** Opcode 4 logs its operand and carries on: it never hands control back to the caller. */
  lemma StepOutput(m: Machine)
    requires m.ip < |m.codes| && IntcodeSpec.Opcode(m.codes[m.ip]) == 4
    requires GetVal(m, m.codes[m.ip], 1).Ok?
    ensures Step(m) == Stepped(m.(outputs := m.outputs + [GetVal(m, m.codes[m.ip], 1).value], ip := m.ip + 2),
                               Ok(Continue))
  {
  }

  /** Opcodes 5 and 6 jump to the second operand, cast to usize, on a non-zero (zero) first one, else skip 3. */
  lemma StepJump(m: Machine)
    requires m.ip < |m.codes| && IntcodeSpec.Opcode(m.codes[m.ip]) in {5, 6}
    requires GetVal(m, m.codes[m.ip], 1).Ok? && GetVal(m, m.codes[m.ip], 2).Ok?
    ensures var v := GetVal(m, m.codes[m.ip], 1).value;
      Step(m) == if (v != 0) == (IntcodeSpec.Opcode(m.codes[m.ip]) == 5)
        then Stepped(m.(ip := AsUsize(GetVal(m, m.codes[m.ip], 2).value)), Ok(Continue))
        else Stepped(m.(ip := m.ip + 3), Ok(Continue))
  {
  }

  /** Opcodes 7 and 8 store 1 or 0 at the raw third parameter and move on by 4. */
  lemma StepCompare(m: Machine)
    requires m.ip + 3 < |m.codes| && IntcodeSpec.Opcode(m.codes[m.ip]) in {7, 8}
    requires GetVal(m, m.codes[m.ip], 1).Ok? && GetVal(m, m.codes[m.ip], 2).Ok?
    requires 0 <= m.codes[m.ip + 3] < |m.codes|
    ensures var a, b := GetVal(m, m.codes[m.ip], 1).value, GetVal(m, m.codes[m.ip], 2).value;
      var holds := if IntcodeSpec.Opcode(m.codes[m.ip]) == 7 then a < b else a == b;
      Step(m) == Stepped(m.(codes := m.codes[m.codes[m.ip + 3] := if holds then 1 else 0], ip := m.ip + 4),
                         Ok(Continue))
  {
  }

  /** Opcode 99 halts; any opcode outside the table is UnknownCode; neither changes anything. */
  lemma StepHaltOrUnknown(m: Machine)
    requires m.ip < |m.codes| && IntcodeSpec.Opcode(m.codes[m.ip]) !in {1, 2, 3, 4, 5, 6, 7, 8}
    ensures Step(m) == if IntcodeSpec.Opcode(m.codes[m.ip]) == 99 then Stepped(m, Ok(Done))
      else Stepped(m, Err(UnknownCode(IntcodeSpec.Opcode(m.codes[m.ip]))))
  {
  }

  /**
   * Over a whole run memory keeps its size, the input is never consumed (every input
   * instruction stores the same value), and the output log only grows.
   */
  lemma {:induction false} RunInvariants(m: Machine, fuel: nat)
    ensures var r := Run(m, fuel).m;
      |r.codes| == |m.codes| && r.input == m.input
      && |m.outputs| <= |r.outputs| && r.outputs[..|m.outputs|] == m.outputs
    decreases fuel
  {
    if fuel > 0 {
      var s := Step(m);
      if s.res == Ok(Continue) {
        RunInvariants(s.m, fuel - 1);
        var r := Run(m, fuel).m;
        assert r == Run(s.m, fuel - 1).m;
        assert r.outputs[..|m.outputs|] == r.outputs[..|s.m.outputs|][..|m.outputs|];
      }
    }
  }

  /** A run that returns a value has halted on opcode 99, and the value is cell 0. */
  lemma {:induction false} RunReturnsCellZero(m: Machine, fuel: nat)
    requires Run(m, fuel).outcome.Returned? && Run(m, fuel).outcome.result.Ok?
    ensures var r := Run(m, fuel);
      |r.m.codes| > 0 && r.outcome.result.value == r.m.codes[0] && Step(r.m) == Stepped(r.m, Ok(Done))
    decreases fuel
  {
    var s := Step(m);
    if s.res == Ok(Continue) {
      RunReturnsCellZero(s.m, fuel - 1);
      assert Run(m, fuel) == Run(s.m, fuel - 1);
    } else {
      assert s.res == Ok(Done) && Run(m, fuel).m == m;
    }
  }

  /** Giving a run more steps does not change a result it already returned. */
  lemma {:induction false} RunFuelMonotone(m: Machine, fuel: nat, more: nat)
    requires Run(m, fuel).outcome.Returned? && fuel <= more
    ensures Run(m, more) == Run(m, fuel)
    decreases fuel
  {
    var s := Step(m);
    if s.res == Ok(Continue) {
      RunFuelMonotone(s.m, fuel - 1, more - 1);
      assert Run(m, more) == Run(s.m, more - 1);
    } else {
      assert Run(m, more) == Run(m, 1);
    }
  }
}
