/**
 * The `Computer` of src/y2019/computer.rs as a class whose methods update its fields in
 * place.  Memory is a `seq<int>` field that the accessors reassign (the source resizes a
 * `Vec<i64>`).  Every method is proved to leave the object in the state that the pure
 * functions of IntcodeSpec compute from the old state, with the source's opcode 3 as written.
 */
module IntcodeComputer {
  import opened IntcodeSpec

  class Computer {
    var instructionIdx: nat
    var codes: seq<int>
    var inputs: seq<int>
    var inputIdx: nat
    var outputs: seq<int>
    var relativeBase: int

    /** The abstract state of the object. */
    function State(): Machine
      reads this
    {
      Machine(instructionIdx, codes, inputs, inputIdx, outputs, relativeBase)
    }

    /** `Computer::new`: instruction index, cursor and base at 0, no inputs, no outputs. */
    constructor (codes: seq<int>)
      ensures State() == Init(codes)
      ensures instructionIdx == 0 && this.codes == codes && inputs == [] && inputIdx == 0
      ensures outputs == [] && relativeBase == 0
    {
      instructionIdx := 0;
      this.codes := codes;
      inputs := [];
      inputIdx := 0;
      outputs := [];
      relativeBase := 0;
    }

    /** `with_input`: replaces the inputs; the read cursor is not reset. */
    method WithInput(inputs: seq<int>)
      modifies this
      ensures State() == IntcodeSpec.WithInput(old(State()), inputs)
      ensures this.inputs == inputs && inputIdx == old(inputIdx)
    {
      this.inputs := inputs;
    }

    /** `run`: steps until Done, AwaitInput or an Output; at most fuel steps are taken. */
    method Run(fuel: nat) returns (r: RunOutcome)
      modifies this
      ensures Ran(State(), r) == IntcodeSpec.Run(old(State()), AsWritten, fuel)
    {
      var n := fuel;
      while true
        invariant IntcodeSpec.Run(old(State()), AsWritten, fuel) == IntcodeSpec.Run(State(), AsWritten, n)
        decreases n
      {
        if n == 0 {
          return OutOfFuel;
        }
        var s := RunStep();
        match s {
          case Err(e) => return Returned(Err(e));
          case Ok(Done) => return Returned(Ok(RunResult.Done));
          case Ok(AwaitInput) => return Returned(Ok(RunResult.AwaitInput));
          case Ok(Output(x)) => return Returned(Ok(RunResult.Output(x)));
          case Ok(Continue) =>
        }
        n := n - 1;
      }
    }

    /** `run_until_halt`: outputs are passed over; a suspension becomes MissingInput. */
    method RunUntilHalt(fuel: nat) returns (r: RunOutcome)
      modifies this
      ensures Ran(State(), r) == IntcodeSpec.RunUntilHalt(old(State()), AsWritten, fuel)
    {
      var n := fuel;
      while true
        invariant IntcodeSpec.RunUntilHalt(old(State()), AsWritten, fuel)
               == IntcodeSpec.RunUntilHalt(State(), AsWritten, n)
        decreases n
      {
        if n == 0 {
          return OutOfFuel;
        }
        var s := RunStep();
        if s.Err? {
          return Returned(Err(s.error));
        } else if s.value == StepResult.Done {
          return Returned(Ok(RunResult.Done));
        } else if s.value == StepResult.AwaitInput {
          return Returned(Err(MissingInput));
        }
        n := n - 1;
      }
    }

    /** `run_with_inputs`: appends to the inputs (cursor kept), then `run`. */
    method RunWithInputs(more: seq<int>, fuel: nat) returns (r: RunOutcome)
      modifies this
      ensures Ran(State(), r) == IntcodeSpec.RunWithInputs(old(State()), more, AsWritten, fuel)
    {
      inputs := inputs + more;
      r := Run(fuel);
    }

    /** `run_step`: decode the word at the instruction index and execute one instruction. */
    method RunStep() returns (r: Result<StepResult>)
      modifies this
      ensures Stepped(State(), r) == Step(old(State()), AsWritten)
    {
      var code := GetAtMem(instructionIdx);
      match Opcode(code) {
        case 1 =>
          var b := BinaryOp(code, Add);
          r := if b.Err? then Err(b.error) else Ok(Continue);
        case 2 =>
          var b := BinaryOp(code, Mul);
          r := if b.Err? then Err(b.error) else Ok(Continue);
        case 3 =>
          r := Input(code);
        case 4 =>
          r := Output(code);
        case 5 =>
          r := Jump(code, true);
        case 6 =>
          r := Jump(code, false);
        case 7 =>
          r := LessThan(code);
        case 8 =>
          var b := BinaryOp(code, EqualFlag);
          r := if b.Err? then Err(b.error) else Ok(Continue);
        case 9 =>
          r := AdjustBase(code);
        case 99 =>
          r := Ok(StepResult.Done);
        case c =>
          r := Err(UnknownCode(c));
      }
    }

    /** Opcode 3, written inline in `run_step`: the destination is read with `get_val`. */
    method Input(code: int) returns (r: Result<StepResult>)
      modifies this
      ensures Stepped(State(), r) == InputOp(old(State()), code, AsWritten)
    {
      var addr := GetVal(code, 1);
      if addr.Err? {
        r := Err(addr.error);
      } else if inputIdx >= |inputs| {
        r := Ok(StepResult.AwaitInput);
      } else if addr.value < 0 {
        r := Err(NegativeAddress(addr.value));
      } else {
        SetAtMem(addr.value, inputs[inputIdx]);
        inputIdx := inputIdx + 1;
        instructionIdx := instructionIdx + 2;
        r := Ok(Continue);
      }
    }

    /** Opcode 4, written inline in `run_step`. */
    method Output(code: int) returns (r: Result<StepResult>)
      modifies this
      ensures Stepped(State(), r) == OutputOp(old(State()), code)
    {
      var outputVal := GetVal(code, 1);
      if outputVal.Err? {
        r := Err(outputVal.error);
      } else {
        outputs := outputs + [outputVal.value];
        instructionIdx := instructionIdx + 2;
        r := Ok(StepResult.Output(outputVal.value));
      }
    }

    /** Opcode 7, written inline in `run_step`: indexes memory without growing it. */
    method LessThan(code: int) returns (r: Result<StepResult>)
      modifies this
      ensures Stepped(State(), r) == LessThanOp(old(State()), code)
    {
      ghost var m := State();
      var val1 := GetVal(code, 1);
      ghost var a := IntcodeSpec.GetVal(m, code, 1);
      if val1.Err? {
        return Err(val1.error);
      }
      var val2 := GetVal(code, 2);
      ghost var b := IntcodeSpec.GetVal(a.m, code, 2);
      if val2.Err? {
        return Err(val2.error);
      }
      assert State() == b.m;
      r := SetIndexed(LessFlag(val1.value, val2.value));
    }

    /**
     * The end of opcode 7: the raw third parameter indexes memory directly; out of range it
     * panics, otherwise the cell takes v and the instruction index moves past the instruction.
     */
    method SetIndexed(v: int) returns (r: Result<StepResult>)
      modifies this
      ensures var d := RawParam(old(State()), 3); var dst := d.val.value;
        if dst < 0 || dst >= |d.m.codes| then Stepped(State(), r) == Stepped(d.m, Err(IndexOutOfBounds(dst)))
        else Stepped(State(), r) == Stepped(d.m.(codes := d.m.codes[dst := v], ip := old(instructionIdx) + 4), Ok(Continue))
    {
      var addr := GetAtMem(instructionIdx + 3);
      if addr < 0 || addr >= |codes| {
        return Err(IndexOutOfBounds(addr));
      }
      codes := codes[addr := v];
      instructionIdx := instructionIdx + 4;
      r := Ok(Continue);
    }

    /** Opcode 9, written inline in `run_step`. */
    method AdjustBase(code: int) returns (r: Result<StepResult>)
      modifies this
      ensures Stepped(State(), r) == AdjustBaseOp(old(State()), code)
    {
      var delta := GetVal(code, 1);
      if delta.Err? {
        r := Err(delta.error);
      } else {
        relativeBase := relativeBase + delta.value;
        instructionIdx := instructionIdx + 2;
        r := Ok(Continue);
      }
    }

    /** Opcodes 5 and 6, written inline in `run_step`. */
    method Jump(code: int, jumpIfNonZero: bool) returns (r: Result<StepResult>)
      modifies this
      ensures Stepped(State(), r) == JumpOp(old(State()), code, jumpIfNonZero)
    {
      var val1 := GetVal(code, 1);
      if val1.Err? {
        return Err(val1.error);
      }
      if (val1.value != 0) == jumpIfNonZero {
        var target := GetVal(code, 2);
        if target.Err? {
          return Err(target.error);
        }
        if target.value < 0 {
          return Err(NegativeAddress(target.value));
        }
        instructionIdx := target.value;
      } else {
        instructionIdx := instructionIdx + 3;
      }
      r := Ok(Continue);
    }

    /** `get_at_mem`: grows memory to i + 4 zero-filled cells when i is out of range. */
    method GetAtMem(i: nat) returns (v: int)
      modifies this`codes
      ensures codes == Grown(old(codes), i) && v == codes[i]
    {
      if i >= |codes| {
        codes := codes + seq(i + 4 - |codes|, _ => 0);
      }
      v := codes[i];
    }

    /** `set_at_mem`: grows like `get_at_mem`, then overwrites cell i. */
    method SetAtMem(i: nat, val: int)
      modifies this`codes
      ensures codes == Stored(old(codes), i, val)
    {
      if i >= |codes| {
        codes := codes + seq(i + 4 - |codes|, _ => 0);
      }
      codes := codes[i := val];
    }

    /** `get_val`: the value of parameter nth, resolved by its mode. */
    method GetVal(code: int, nth: nat) returns (r: Result<int>)
      modifies this`codes
      ensures Fetched(State(), r) == IntcodeSpec.GetVal(old(State()), code, nth)
    {
      var mode := GetMode(code, nth);
      if mode.Err? {
        return Err(mode.error);
      }
      match mode.value {
        case Position =>
          var addr := GetAtMem(instructionIdx + nth);
          if addr < 0 {
            return Err(NegativeAddress(addr));
          }
          var v := GetAtMem(addr);
          r := Ok(v);
        case Immediate =>
          var v := GetAtMem(instructionIdx + nth);
          r := Ok(v);
        case Relative =>
          var raw := GetAtMem(instructionIdx + nth);
          var addr := raw + relativeBase;
          if addr < 0 {
            return Err(NegativeAddress(addr));
          }
          var v := GetAtMem(addr);
          r := Ok(v);
      }
    }

    /** `binary_op`: applies f to the two operands and stores at the raw third parameter. */
    method BinaryOp(code: int, f: (int, int) -> int) returns (r: Result<()>)
      modifies this
      ensures var s := IntcodeSpec.BinaryOp(old(State()), code, f);
        State() == s.m && (s.res.Ok? <==> r.Ok?) && (r.Err? ==> s.res == Err(r.error))
    {
      ghost var m := State();
      var val1 := GetVal(code, 1);
      ghost var a := IntcodeSpec.GetVal(m, code, 1);
      if val1.Err? {
        return Err(val1.error);
      }
      var val2 := GetVal(code, 2);
      ghost var b := IntcodeSpec.GetVal(a.m, code, 2);
      if val2.Err? {
        return Err(val2.error);
      }
      assert State() == b.m;
      r := SetResult(f(val1.value, val2.value));
    }

    /**
     * The end of `binary_op`: the raw third parameter is the destination; a negative one is
     * a fault, otherwise `set_at_mem` stores v and the instruction index moves past the
     * instruction.
     */
    method SetResult(v: int) returns (r: Result<()>)
      modifies this
      ensures var d := RawParam(old(State()), 3); var dst := d.val.value;
        if dst < 0 then State() == d.m && r == Err(NegativeAddress(dst))
        else State() == d.m.(codes := Stored(d.m.codes, dst, v), ip := old(instructionIdx) + 4) && r == Ok(())
    {
      var idxRes := GetAtMem(instructionIdx + 3);
      if idxRes < 0 {
        return Err(NegativeAddress(idxRes));
      }
      SetAtMem(idxRes, v);
      instructionIdx := instructionIdx + 4;
      r := Ok(());
    }
  }
}
