/**
 * `run_sequence` of src/y2019/day07.rs, built on the Intcode machine of src/y2019/computer.rs:
 * one fresh machine per phase, chained once from signal 0.  Every `unwrap` and `panic!` of
 * the source is a `Panicked` result naming the reason.
 */
module Day07Amplifiers {
  import opened IntcodeSpec
  import opened IntcodeProperties
  import IntcodeComputer

  /** Why a driver panics. */
  datatype Failure =
    | ComputerFailed(error: ComputerError)  // `unwrap` on an error of the machine
    | HaltedWithoutOutput                   // Done where `run_sequence` wants an output
    | WaitedForInput                        // AwaitInput, in either driver
    | OutOfSteps                            // the fuel bound ran out

  /** The signal a driver returns, or the panic that stops it. */
  datatype Signal = Signal(value: int) | Panicked(why: Failure)

  // ---------------------------------------------------------------- run_sequence

  /** What `run_sequence` makes of one machine's `run`: its output, or a panic. */
  function FirstOutput(o: RunOutcome): (s: Signal)
    ensures s.Signal? <==> o.Returned? && o.result.Ok? && o.result.value.Output?
    ensures s.Signal? ==> s.value == o.result.value.value
    ensures o == Returned(Ok(RunResult.Done)) ==> s == Panicked(HaltedWithoutOutput)
    ensures o == Returned(Ok(RunResult.AwaitInput)) ==> s == Panicked(WaitedForInput)
  {
    match o
    case OutOfFuel => Panicked(OutOfSteps)
    case Returned(Err(e)) => Panicked(ComputerFailed(e))
    case Returned(Ok(Done)) => Panicked(HaltedWithoutOutput)
    case Returned(Ok(AwaitInput)) => Panicked(WaitedForInput)
    case Returned(Ok(Output(x))) => Signal(x)
  }

  /** One amplifier: a fresh machine given `[phase, signal]` and run to its first output. */
  function Amplify(codes: seq<int>, phase: int, signal: int, rule: InputRule, fuel: nat): Signal
  {
    FirstOutput(RunWithInputs(Init(codes), [phase, signal], rule, fuel).outcome)
  }

  /** The amplifiers of one program as a function of phase and incoming signal. */
  function Amplifier(codes: seq<int>, rule: InputRule, fuel: nat): (int, int) -> Signal
  {
    (phase, signal) => Amplify(codes, phase, signal, rule, fuel)
  }

  /** The fold over the phases with any amplifier: each phase in turn, a panic stops it. */
  function Fold(amp: (int, int) -> Signal, phases: seq<int>, signal: int): Signal
    decreases |phases|
  {
    if |phases| == 0 then Signal(signal)
    else match amp(phases[0], signal)
      case Panicked(f) => Panicked(f)
      case Signal(x) => Fold(amp, phases[1..], x)
  }

  /** The fold of `run_sequence` from a given signal. */
  function Chain(codes: seq<int>, phases: seq<int>, signal: int, rule: InputRule, fuel: nat): Signal
  {
    Fold(Amplifier(codes, rule, fuel), phases, signal)
  }

  /** `run_sequence`: the fold starts from signal 0. */
  function RunSequence(codes: seq<int>, phases: seq<int>, rule: InputRule, fuel: nat): Signal
  {
    Chain(codes, phases, 0, rule, fuel)
  }

  /** `run_sequence` on `Computer` objects: one fresh computer per phase. */
  method ComputeRunSequence(codes: seq<int>, phases: seq<int>, fuel: nat) returns (r: Signal)
    ensures r == RunSequence(codes, phases, AsWritten, fuel)
  {
    var signal := 0;
    for i := 0 to |phases|
      invariant Chain(codes, phases[i..], signal, AsWritten, fuel) == RunSequence(codes, phases, AsWritten, fuel)
    {
      assert phases[i..][1..] == phases[i + 1..];
      var computer := new IntcodeComputer.Computer(codes);
      var o := computer.RunWithInputs([phases[i], signal], fuel);
      match o {
        case Returned(Ok(Output(x))) => signal := x;
        case Returned(Ok(Done)) => return Panicked(HaltedWithoutOutput);
        case Returned(Ok(AwaitInput)) => return Panicked(WaitedForInput);
        case Returned(Err(e)) => return Panicked(ComputerFailed(e));
        case OutOfFuel => return Panicked(OutOfSteps);
      }
    }
    assert phases[|phases|..] == [];
    r := Signal(signal);
  }

  /** The fold splits at any point: folding p then q is folding q from p's signal. */
  lemma {:induction false} FoldAppend(amp: (int, int) -> Signal, p: seq<int>, q: seq<int>, signal: int)
    ensures Fold(amp, p + q, signal) ==
      match Fold(amp, p, signal)
      case Panicked(f) => Panicked(f)
      case Signal(x) => Fold(amp, q, x)
    decreases |p|
  {
    if |p| == 0 {
      assert p + q == q;
    } else {
      assert (p + q)[0] == p[0] && (p + q)[1..] == p[1..] + q;
      var a := amp(p[0], signal);
      if a.Signal? {
        FoldAppend(amp, p[1..], q, a.value);
      }
    }
  }

  /** The fold of `run_sequence` splits at any point: running p then q is running q from p's signal. */
  lemma ChainAppend(codes: seq<int>, p: seq<int>, q: seq<int>, signal: int, rule: InputRule, fuel: nat)
    ensures Chain(codes, p + q, signal, rule, fuel) ==
      match Chain(codes, p, signal, rule, fuel)
      case Panicked(f) => Panicked(f)
      case Signal(x) => Chain(codes, q, x, rule, fuel)
  {
    FoldAppend(Amplifier(codes, rule, fuel), p, q, signal);
  }

  /** An amplifier with an output hands it on to the rest of the phases. */
  lemma ChainPasses(codes: seq<int>, phases: seq<int>, signal: int, rule: InputRule, fuel: nat, x: int)
    requires |phases| > 0 && Amplify(codes, phases[0], signal, rule, fuel) == Signal(x)
    ensures Chain(codes, phases, signal, rule, fuel) == Chain(codes, phases[1..], x, rule, fuel)
  {
    assert Amplifier(codes, rule, fuel)(phases[0], signal) == Signal(x);
  }

  /** An amplifier that panics ends the fold with its panic. */
  lemma ChainPanics(codes: seq<int>, phases: seq<int>, signal: int, rule: InputRule, fuel: nat)
    requires |phases| > 0 && Amplify(codes, phases[0], signal, rule, fuel).Panicked?
    ensures Chain(codes, phases, signal, rule, fuel) == Amplify(codes, phases[0], signal, rule, fuel)
  {
    assert Amplifier(codes, rule, fuel)(phases[0], signal) == Amplify(codes, phases[0], signal, rule, fuel);
  }

  /** When the first i phases pass a signal on, the rest of the fold starts from it. */
  lemma {:induction false} FoldSplit(amp: (int, int) -> Signal, phases: seq<int>, i: nat, signal: int)
    requires i <= |phases| && Fold(amp, phases[..i], signal).Signal?
    ensures Fold(amp, phases, signal) == Fold(amp, phases[i..], Fold(amp, phases[..i], signal).value)
    decreases i
  {
    if i > 0 {
      assert phases[..i][0] == phases[0] && phases[..i][1..] == phases[1..][..i - 1];
      var a := amp(phases[0], signal);
      FoldSplit(amp, phases[1..], i - 1, a.value);
      assert phases[1..][i - 1..] == phases[i..];
    }
  }

  /** When the first i amplifiers pass a signal on, the rest of `run_sequence` starts from it. */
  lemma ChainSplit(codes: seq<int>, phases: seq<int>, i: nat, signal: int, rule: InputRule, fuel: nat)
    requires i <= |phases| && Chain(codes, phases[..i], signal, rule, fuel).Signal?
    ensures Chain(codes, phases, signal, rule, fuel)
         == Chain(codes, phases[i..], Chain(codes, phases[..i], signal, rule, fuel).value, rule, fuel)
  {
    FoldSplit(Amplifier(codes, rule, fuel), phases, i, signal);
  }

  /** An amplifier that stops without an output stops the whole sequence with that panic. */
  lemma ChainStopsAtPanic(codes: seq<int>, phases: seq<int>, i: nat, rule: InputRule, fuel: nat)
    requires i < |phases| && Chain(codes, phases[..i], 0, rule, fuel).Signal?
    requires Amplify(codes, phases[i], Chain(codes, phases[..i], 0, rule, fuel).value, rule, fuel).Panicked?
    ensures RunSequence(codes, phases, rule, fuel)
         == Amplify(codes, phases[i], Chain(codes, phases[..i], 0, rule, fuel).value, rule, fuel)
  {
    var q := phases[i..];
    assert q[0] == phases[i];
    ChainSplit(codes, phases, i, 0, rule, fuel);
    ChainPanics(codes, q, Chain(codes, phases[..i], 0, rule, fuel).value, rule, fuel);
  }

  // ---------------------------------------------------------------- the first thruster test

  /** The program of the first `run_sequence` test: output ten times the signal plus the phase. */
  const Thruster1: seq<int> := [3, 15, 3, 16, 1002, 16, 10, 16, 1, 16] + [15, 15, 4, 15, 99, 0, 0]

  /** Memory holding the program's instructions; cells 0, 15 and 16 are free to change. */
  ghost predicate Thruster1Text(c: seq<int>)
  {
    |c| == 17 && forall i | 1 <= i < 15 :: c[i] == Thruster1[i]
  }

  function Amp(ip: nat, c: seq<int>, ins: seq<int>, idx: nat, outs: seq<int>): Machine
  {
    Machine(ip, c, ins, idx, outs, 0)
  }

  /** Where `3,k` at ip stores its input: cell k when intended, the cell cell k names as written. */
  function Thruster1Dest(c: seq<int>, ip: nat, rule: InputRule): int
    requires Thruster1Text(c) && ip in {0, 2}
  {
    var k := c[ip + 1];
    if rule == Intended then k else c[k]
  }

  /** `3,15` and `3,16`: the next input goes to the destination of the rule. */
  lemma Thruster1Input(ip: nat, c: seq<int>, ins: seq<int>, idx: nat, outs: seq<int>, rule: InputRule)
    requires Thruster1Text(c) && ip in {0, 2} && c[ip] == 3 && idx < |ins|
    requires 0 <= Thruster1Dest(c, ip, rule) < 17
    ensures Step(Amp(ip, c, ins, idx, outs), rule)
      == Stepped(Amp(ip + 2, c[Thruster1Dest(c, ip, rule) := ins[idx]], ins, idx + 1, outs), Ok(Continue))
  {
    var m := Amp(ip, c, ins, idx, outs);
    assert c[ip + 1] in {15, 16};
    DecodeEncode(3, Position, Position, Position);
    assert Encode(3, Position, Position, Position) == 3;
    if rule == Intended {
      StepInputIntended(m);
    } else {
      StepInputAsWritten(m);
    }
  }

  /** `1002,16,10,16`: cell 16 times ten. */
  lemma Thruster1Scale(c: seq<int>, ins: seq<int>, idx: nat, outs: seq<int>, rule: InputRule)
    requires Thruster1Text(c)
    ensures Step(Amp(4, c, ins, idx, outs), rule)
      == Stepped(Amp(8, c[16 := c[16] * 10], ins, idx, outs), Ok(Continue))
  {
    assert c[4] == 1002 && c[5] == 16 && c[6] == 10 && c[7] == 16;
    DecodeEncode(2, Position, Immediate, Position);
    assert Encode(2, Position, Immediate, Position) == 1002;
    StepArithmetic(Amp(4, c, ins, idx, outs), rule);
  }

  /** `1,16,15,15`: cell 15 gets cell 16 plus cell 15. */
  lemma Thruster1Sum(c: seq<int>, ins: seq<int>, idx: nat, outs: seq<int>, rule: InputRule)
    requires Thruster1Text(c)
    ensures Step(Amp(8, c, ins, idx, outs), rule)
      == Stepped(Amp(12, c[15 := c[16] + c[15]], ins, idx, outs), Ok(Continue))
  {
    var m := Amp(8, c, ins, idx, outs);
    assert c[8] == 1 && c[9] == 16 && c[10] == 15 && c[11] == 15;
    DecodeEncode(1, Position, Position, Position);
    assert Encode(1, Position, Position, Position) == 1;
    assert Resolvable(m, 1, 1) && Operand(m, 1, 1) == c[16];
    assert Resolvable(m, 1, 2) && Operand(m, 1, 2) == c[15];
    StepArithmetic(m, rule);
  }

  /** `4,15`: cell 15 is the output. */
  lemma Thruster1Print(c: seq<int>, ins: seq<int>, idx: nat, outs: seq<int>, rule: InputRule)
    requires Thruster1Text(c)
    ensures Step(Amp(12, c, ins, idx, outs), rule)
      == Stepped(Amp(14, c, ins, idx, outs + [c[15]]), Ok(StepResult.Output(c[15])))
  {
    assert c[12] == 4 && c[13] == 15;
    DecodeEncode(4, Position, Position, Position);
    assert Encode(4, Position, Position, Position) == 4;
    StepOutput(Amp(12, c, ins, idx, outs), rule);
  }

  /** The memory after `1002,16,10,16` and `1,16,15,15`. */
  function Computed(c: seq<int>): seq<int>
    requires |c| == 17
  {
    var scaled := c[16 := c[16] * 10];
    scaled[15 := scaled[16] + scaled[15]]
  }

  /** Storing into cells 0, 15 and 16 leaves the instructions alone. */
  lemma Thruster1TextKept(c: seq<int>, k: int, v: int)
    requires Thruster1Text(c) && k in {0, 15, 16}
    ensures Thruster1Text(c[k := v])
  {
  }

  /** After the computation cell 15 holds the signal times ten plus the phase. */
  lemma ComputedText(c: seq<int>)
    requires Thruster1Text(c)
    ensures Thruster1Text(Computed(c)) && Computed(c)[15] == c[16] * 10 + c[15]
  {
    Thruster1TextKept(c, 16, c[16] * 10);
    Thruster1TextKept(c[16 := c[16] * 10], 15, c[16] * 10 + c[15]);
  }

  /** The memory once both inputs are stored: cells 15 and 16 when intended, cell 0 twice as written. */
  function Thruster1Loaded(phase: int, signal: int, rule: InputRule): seq<int>
  {
    if rule == Intended then Thruster1[15 := phase][16 := signal] else Thruster1[0 := signal]
  }

  /** The loaded memory keeps the instructions; cells 15 and 16 hold phase and signal, or 0. */
  lemma Thruster1LoadedText(phase: int, signal: int, rule: InputRule)
    ensures var c := Thruster1Loaded(phase, signal, rule);
      Thruster1Text(c) && c[16] * 10 + c[15] == if rule == Intended then signal * 10 + phase else 0
  {
    assert Thruster1Text(Thruster1) && Thruster1[15] == 0 && Thruster1[16] == 0;
    if rule == Intended {
      Thruster1TextKept(Thruster1, 15, phase);
      Thruster1TextKept(Thruster1[15 := phase], 16, signal);
    } else {
      Thruster1TextKept(Thruster1, 0, signal);
    }
  }

  /** What each instruction of the first test program does, for a step function. */
  ghost predicate Thruster1Steps(step: Machine -> Stepped, rule: InputRule)
  {
    && (forall ip: nat, c, ins, idx: nat, outs |
          Thruster1Text(c) && ip in {0, 2} && c[ip] == 3 && idx < |ins| && 0 <= Thruster1Dest(c, ip, rule) < 17 ::
          step(Amp(ip, c, ins, idx, outs))
          == Stepped(Amp(ip + 2, c[Thruster1Dest(c, ip, rule) := ins[idx]], ins, idx + 1, outs), Ok(Continue)))
    && (forall c, ins, idx: nat, outs | Thruster1Text(c) :: step(Amp(4, c, ins, idx, outs))
          == Stepped(Amp(8, c[16 := c[16] * 10], ins, idx, outs), Ok(Continue)))
    && (forall c, ins, idx: nat, outs | Thruster1Text(c) :: step(Amp(8, c, ins, idx, outs))
          == Stepped(Amp(12, c[15 := c[16] + c[15]], ins, idx, outs), Ok(Continue)))
    && (forall c, ins, idx: nat, outs | Thruster1Text(c) :: step(Amp(12, c, ins, idx, outs))
          == Stepped(Amp(14, c, ins, idx, outs + [c[15]]), Ok(StepResult.Output(c[15]))))
  }

  /** The machine's step does what the instruction lemmas say. */
  lemma Thruster1StepsHold(rule: InputRule)
    ensures Thruster1Steps(Stepper(rule), rule)
  {
    forall ip: nat, c, ins, idx: nat, outs |
      Thruster1Text(c) && ip in {0, 2} && c[ip] == 3 && idx < |ins| && 0 <= Thruster1Dest(c, ip, rule) < 17
      ensures Stepper(rule)(Amp(ip, c, ins, idx, outs))
        == Stepped(Amp(ip + 2, c[Thruster1Dest(c, ip, rule) := ins[idx]], ins, idx + 1, outs), Ok(Continue))
    {
      Thruster1Input(ip, c, ins, idx, outs, rule);
    }
    forall c, ins, idx: nat, outs | Thruster1Text(c)
      ensures Stepper(rule)(Amp(4, c, ins, idx, outs)) == Stepped(Amp(8, c[16 := c[16] * 10], ins, idx, outs), Ok(Continue))
    {
      Thruster1Scale(c, ins, idx, outs, rule);
    }
    forall c, ins, idx: nat, outs | Thruster1Text(c)
      ensures Stepper(rule)(Amp(8, c, ins, idx, outs)) == Stepped(Amp(12, c[15 := c[16] + c[15]], ins, idx, outs), Ok(Continue))
    {
      Thruster1Sum(c, ins, idx, outs, rule);
    }
    forall c, ins, idx: nat, outs | Thruster1Text(c)
      ensures Stepper(rule)(Amp(12, c, ins, idx, outs))
        == Stepped(Amp(14, c, ins, idx, outs + [c[15]]), Ok(StepResult.Output(c[15])))
    {
      Thruster1Print(c, ins, idx, outs, rule);
    }
  }

  lemma LoopOn(step: Machine -> Stepped, m: Machine, fuel: nat, next: Machine)
    requires fuel > 0 && step(m) == Stepped(next, Ok(Continue))
    ensures RunLoop(step, m, fuel) == RunLoop(step, next, fuel - 1)
  {
  }

  /** The two inputs: where `3,15` and `3,16` put the phase and the signal. */
  lemma Thruster1Head(step: Machine -> Stepped, phase: int, signal: int, rule: InputRule, fuel: nat)
    requires Thruster1Steps(step, rule) && fuel >= 2
    ensures RunLoop(step, Amp(0, Thruster1, [phase, signal], 0, []), fuel)
         == RunLoop(step, Amp(4, Thruster1Loaded(phase, signal, rule), [phase, signal], 2, []), fuel - 2)
  {
    var ins := [phase, signal];
    assert Thruster1Text(Thruster1) && Thruster1[0] == 3 && Thruster1[15] == 0 && Thruster1[16] == 0;
    var c1 := Thruster1[Thruster1Dest(Thruster1, 0, rule) := phase];
    LoopOn(step, Amp(0, Thruster1, ins, 0, []), fuel, Amp(2, c1, ins, 1, []));
    assert Thruster1Text(c1) && c1[2] == 3 && c1[16] == 0;
    var c2 := c1[Thruster1Dest(c1, 2, rule) := signal];
    LoopOn(step, Amp(2, c1, ins, 1, []), fuel - 1, Amp(4, c2, ins, 2, []));
    assert c2 == Thruster1Loaded(phase, signal, rule);
  }

  /** After both inputs: compute, then stop at the output of cell 15. */
  lemma Thruster1Tail(step: Machine -> Stepped, c: seq<int>, ins: seq<int>, rule: InputRule, fuel: nat)
    requires Thruster1Steps(step, rule) && Thruster1Text(c) && fuel >= 3
    ensures RunLoop(step, Amp(4, c, ins, 2, []), fuel).outcome == Returned(Ok(RunResult.Output(c[16] * 10 + c[15])))
  {
    var scaled := c[16 := c[16] * 10];
    var summed := scaled[15 := scaled[16] + scaled[15]];
    assert summed == Computed(c);
    LoopOn(step, Amp(4, c, ins, 2, []), fuel, Amp(8, scaled, ins, 2, []));
    Thruster1TextKept(c, 16, c[16] * 10);
    LoopOn(step, Amp(8, scaled, ins, 2, []), fuel - 1, Amp(12, summed, ins, 2, []));
    ComputedText(c);
    assert step(Amp(12, summed, ins, 2, [])).res == Ok(StepResult.Output(summed[15]));
  }

  /** A whole amplifier run of the first test program, for a step function. */
  lemma Thruster1Runs(step: Machine -> Stepped, phase: int, signal: int, rule: InputRule, fuel: nat)
    requires Thruster1Steps(step, rule) && fuel >= 5
    ensures RunLoop(step, Amp(0, Thruster1, [phase, signal], 0, []), fuel).outcome
         == Returned(Ok(RunResult.Output(if rule == Intended then signal * 10 + phase else 0)))
  {
    Thruster1Head(step, phase, signal, rule, fuel);
    Thruster1LoadedText(phase, signal, rule);
    Thruster1Tail(step, Thruster1Loaded(phase, signal, rule), [phase, signal], rule, fuel - 2);
  }

  /** An amplifier is a run of a fresh machine holding the phase and the signal as inputs. */
  lemma AmplifyRuns(codes: seq<int>, phase: int, signal: int, rule: InputRule, fuel: nat)
    ensures Amplify(codes, phase, signal, rule, fuel)
         == FirstOutput(RunLoop(Stepper(rule), Amp(0, codes, [phase, signal], 0, []), fuel).outcome)
  {
    assert Init(codes).(inputs := Init(codes).inputs + [phase, signal]) == Amp(0, codes, [phase, signal], 0, []);
  }

  /**
   * One amplifier on the first test program.  With the intended opcode 3 it outputs ten times
   * the signal plus the phase; as written both inputs land in cell 0 (cells 15 and 16 hold 0),
   * so it outputs 0 whatever it is given.
   */
  lemma Thruster1Amplify(phase: int, signal: int, rule: InputRule, fuel: nat)
    requires fuel >= 5
    ensures Amplify(Thruster1, phase, signal, rule, fuel)
         == Signal(if rule == Intended then signal * 10 + phase else 0)
  {
    AmplifyRuns(Thruster1, phase, signal, rule, fuel);
    Thruster1StepsHold(rule);
    Thruster1Runs(Stepper(rule), phase, signal, rule, fuel);
  }

  /** The decimal number the phases spell after the starting signal, most significant first. */
  function Spelled(phases: seq<int>, signal: int): int
    decreases |phases|
  {
    if |phases| == 0 then signal else Spelled(phases[1..], signal * 10 + phases[0])
  }

  /** With the intended opcode 3 the first test program chains into the spelled number. */
  lemma {:induction false} Thruster1ChainIntended(phases: seq<int>, signal: int, fuel: nat)
    requires fuel >= 5
    ensures Chain(Thruster1, phases, signal, Intended, fuel) == Signal(Spelled(phases, signal))
    decreases |phases|
  {
    if |phases| > 0 {
      Thruster1Amplify(phases[0], signal, Intended, fuel);
      ChainPasses(Thruster1, phases, signal, Intended, fuel, signal * 10 + phases[0]);
      Thruster1ChainIntended(phases[1..], signal * 10 + phases[0], fuel);
    }
  }

  /** As written, every amplifier after the first is fed 0 and answers 0. */
  lemma {:induction false} Thruster1ChainAsWritten(phases: seq<int>, signal: int, fuel: nat)
    requires fuel >= 5
    ensures Chain(Thruster1, phases, signal, AsWritten, fuel) == Signal(if |phases| == 0 then signal else 0)
    decreases |phases|
  {
    if |phases| > 0 {
      Thruster1Amplify(phases[0], signal, AsWritten, fuel);
      ChainPasses(Thruster1, phases, signal, AsWritten, fuel, 0);
      Thruster1ChainAsWritten(phases[1..], 0, fuel);
    }
  }

  /** The first test: phases 4,3,2,1,0 give 43210 when intended, and 0 as written. */
  lemma Thruster1Test(fuel: nat)
    requires fuel >= 5
    ensures RunSequence(Thruster1, [4, 3, 2, 1, 0], Intended, fuel) == Signal(43210)
    ensures RunSequence(Thruster1, [4, 3, 2, 1, 0], AsWritten, fuel) == Signal(0)
  {
    Thruster1ChainIntended([4, 3, 2, 1, 0], 0, fuel);
    Thruster1ChainAsWritten([4, 3, 2, 1, 0], 0, fuel);
    assert Spelled([4, 3, 2, 1, 0], 0) == 43210;
  }
}
