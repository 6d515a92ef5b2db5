/**
 * `run_sequence2` of src/y2019/day07.rs: one machine per phase, primed with its phase, and
 * a `while !done` loop whose every round feeds the signal through the machines in index
 * order.  The machines keep their state from round to round.
 */
module Day07Feedback {
  import opened IntcodeSpec
  import opened IntcodeProperties
  import IntcodeComputer
  import opened Day07Amplifiers

  /** One turn of a machine: given the next input, `run_with_inputs` and what it leaves. */
  function Runner(rule: InputRule, fuel: nat): (Machine, int) -> Ran
  {
    (m, x) => RunWithInputs(m, [x], rule, fuel)
  }

  /** The state after the machines from some index on have had their turn in a round. */
  datatype Pass =
    | Pass(ms: seq<Machine>, input: int, start: int, done: bool)
    | Stopped(why: Failure)

  /**
   * One round from machine k: machine k is given `input` and run; an output becomes the next
   * input and the new `start`; Done sets `done` and hands `start` on; AwaitInput, an error
   * or running out of fuel panics.  Machines before k are left alone.
   */
  function RoundFrom(run: (Machine, int) -> Ran, ms: seq<Machine>, k: nat, input: int, start: int, done: bool): (r: Pass)
    requires k <= |ms|
    ensures r.Pass? ==> |r.ms| == |ms| && forall j | 0 <= j < k :: r.ms[j] == ms[j]
    decreases |ms| - k
  {
    if k == |ms| then Pass(ms, input, start, done) else
    var ran := run(ms[k], input);
    match ran.outcome
    case OutOfFuel => Stopped(OutOfSteps)
    case Returned(Err(e)) => Stopped(ComputerFailed(e))
    case Returned(Ok(Done)) => RoundFrom(run, ms[k := ran.m], k + 1, start, start, true)
    case Returned(Ok(AwaitInput)) => Stopped(WaitedForInput)
    case Returned(Ok(Output(x))) => RoundFrom(run, ms[k := ran.m], k + 1, x, x, done)
  }

  /** The machines and the signal the feedback loop ends with. */
  datatype Feedback = Feedback(ms: seq<Machine>, result: Signal)

  /** The `while !done` loop, with at most `rounds` rounds. */
  function Rounds(run: (Machine, int) -> Ran, ms: seq<Machine>, start: int, done: bool, rounds: nat): Feedback
    decreases rounds
  {
    if done then Feedback(ms, Signal(start))
    else if rounds == 0 then Feedback(ms, Panicked(OutOfSteps))
    else match RoundFrom(run, ms, 0, start, start, false)
      case Stopped(f) => Feedback(ms, Panicked(f))
      case Pass(ms', _, start', done') => Rounds(run, ms', start', done', rounds - 1)
  }

  /** One fresh machine per phase, the phase as its only input. */
  function Primed(codes: seq<int>, phases: seq<int>): (ms: seq<Machine>)
    ensures |ms| == |phases|
    ensures forall i | 0 <= i < |ms| :: ms[i] == Init(codes).(inputs := [phases[i]])
  {
    seq(|phases|, i requires 0 <= i < |phases| => WithInput(Init(codes), [phases[i]]))
  }

  /** `run_sequence2`. */
  function RunSequence2(codes: seq<int>, phases: seq<int>, rule: InputRule, rounds: nat, fuel: nat): Feedback
  {
    Rounds(Runner(rule, fuel), Primed(codes, phases), 0, false, rounds)
  }

  // ---------------------------------------------------------------- the value handed on

  /**
   * The value handed from machine to machine is always `start`: an output sets both, and
   * after a Done the closure hands on `start` itself.
   */
  lemma {:induction false} RoundHandsOnStart(run: (Machine, int) -> Ran, ms: seq<Machine>, k: nat, start: int, done: bool)
    requires k <= |ms|
    ensures var r := RoundFrom(run, ms, k, start, start, done);
      r.Pass? ==> r.input == r.start
    decreases |ms| - k
  {
    if k < |ms| {
      var ran := run(ms[k], start);
      if ran.outcome.Returned? && ran.outcome.result.Ok? {
        match ran.outcome.result.value
        case Done => RoundHandsOnStart(run, ms[k := ran.m], k + 1, start, true);
        case AwaitInput =>
        case Output(x) => RoundHandsOnStart(run, ms[k := ran.m], k + 1, x, done);
      }
    }
  }

  // ---------------------------------------------------------------- when the loop stops

  /** The machine sits on a `99`: its next step reports Done. */
  ghost predicate Halted(m: Machine)
  {
    Opcode(CodeAt(m)) == 99
  }

  /** A step reports Done exactly on a `99`, whatever the inputs. */
  lemma StepDoneIffHalted(m: Machine, rule: InputRule)
    ensures Step(m, rule).res == Ok(StepResult.Done) <==> Halted(m)
  {
  }

  /** A step function that reports Done only on a `99`, and then changes nothing. */
  ghost predicate DoneOnlyWhenHalted(step: Machine -> Stepped)
  {
    forall x: Machine :: step(x).res == Ok(StepResult.Done) ==> step(x).m == x && Halted(x)
  }

  lemma StepperDoneOnlyWhenHalted(rule: InputRule)
    ensures DoneOnlyWhenHalted(Stepper(rule))
  {
    forall x: Machine | Stepper(rule)(x).res == Ok(StepResult.Done)
      ensures Stepper(rule)(x).m == x && Halted(x)
    {
      assert Stepper(rule)(x) == Step(x, rule);
      StepDoneIffHalted(x, rule);
    }
  }

  /** A `run` loop that returns Done leaves the machine on its `99`. */
  lemma {:induction false} RunLoopDoneIsHalted(step: Machine -> Stepped, m: Machine, fuel: nat)
    requires DoneOnlyWhenHalted(step)
    ensures var r := RunLoop(step, m, fuel);
      r.outcome == Returned(Ok(RunResult.Done)) ==> Halted(r.m)
    decreases fuel
  {
    if fuel > 0 && step(m).res == Ok(Continue) {
      RunLoopDoneIsHalted(step, step(m).m, fuel - 1);
    }
  }

  /** A turn ends with Done exactly when it leaves the machine on a `99` it started on. */
  ghost predicate HaltsAtNinetyNine(run: (Machine, int) -> Ran)
  {
    forall m: Machine, x: int ::
      && (run(m, x).outcome == Returned(Ok(RunResult.Done)) ==> Halted(run(m, x).m))
      && (Halted(m) ==> run(m, x).outcome == Returned(Ok(RunResult.Done)))
  }

  /** With fuel for one step, a turn of the machine behaves so. */
  lemma RunnerHaltsAtNinetyNine(rule: InputRule, fuel: nat)
    requires fuel > 0
    ensures HaltsAtNinetyNine(Runner(rule, fuel))
  {
    StepperDoneOnlyWhenHalted(rule);
    forall m: Machine, x: int
      ensures Runner(rule, fuel)(m, x).outcome == Returned(Ok(RunResult.Done)) ==> Halted(Runner(rule, fuel)(m, x).m)
      ensures Halted(m) ==> Runner(rule, fuel)(m, x).outcome == Returned(Ok(RunResult.Done))
    {
      var m' := m.(inputs := m.inputs + [x]);
      assert Runner(rule, fuel)(m, x) == RunLoop(Stepper(rule), m', fuel);
      RunLoopDoneIsHalted(Stepper(rule), m', fuel);
      if Halted(m) {
        assert Halted(m');
        StepDoneIffHalted(m', rule);
        HaltedStaysHalted(m', rule, fuel);
      }
    }
  }

  /** Once set, `done` stays set for the rest of the round. */
  lemma {:induction false} RoundStaysDone(run: (Machine, int) -> Ran, ms: seq<Machine>, k: nat, input: int, start: int)
    requires k <= |ms|
    ensures var r := RoundFrom(run, ms, k, input, start, true);
      r.Pass? ==> r.done
    decreases |ms| - k
  {
    if k < |ms| {
      var ran := run(ms[k], input);
      if ran.outcome.Returned? && ran.outcome.result.Ok? {
        match ran.outcome.result.value
        case Done => RoundStaysDone(run, ms[k := ran.m], k + 1, start, start);
        case AwaitInput =>
        case Output(x) => RoundStaysDone(run, ms[k := ran.m], k + 1, x, x);
      }
    }
  }

  /**
   * A round that was not yet done ends done only if some machine that had its turn now sits
   * on its `99`.
   */
  lemma {:induction false} RoundDoneMeansHalted(run: (Machine, int) -> Ran, ms: seq<Machine>, k: nat, input: int, start: int)
    requires k <= |ms| && HaltsAtNinetyNine(run)
    ensures var r := RoundFrom(run, ms, k, input, start, false);
      r.Pass? && r.done ==> exists j | k <= j < |ms| :: Halted(r.ms[j])
    decreases |ms| - k
  {
    if k < |ms| {
      var ran := run(ms[k], input);
      var ms' := ms[k := ran.m];
      if ran.outcome.Returned? && ran.outcome.result.Ok? {
        match ran.outcome.result.value
        case Done =>
          assert Halted(ms'[k]);
          var r := RoundFrom(run, ms', k + 1, start, start, true);
          if r.Pass? {
            assert r.ms[k] == ms'[k];
          }
        case AwaitInput =>
        case Output(x) =>
          RoundDoneMeansHalted(run, ms', k + 1, x, x);
      }
    }
  }

  /**
   * A machine that already sits on its `99` returns Done again when its turn comes, so the
   * round it is in ends the loop.
   */
  lemma {:induction false} HaltedEndsRound(run: (Machine, int) -> Ran, ms: seq<Machine>, k: nat, j: nat, input: int, start: int, done: bool)
    requires k <= j < |ms| && Halted(ms[j]) && HaltsAtNinetyNine(run)
    ensures var r := RoundFrom(run, ms, k, input, start, done);
      r.Pass? ==> r.done
    decreases |ms| - k
  {
    var ran := run(ms[k], input);
    var ms' := ms[k := ran.m];
    if j == k {
      assert ran.outcome == Returned(Ok(RunResult.Done));
      RoundStaysDone(run, ms', k + 1, start, start);
    } else if ran.outcome.Returned? && ran.outcome.result.Ok? {
      match ran.outcome.result.value
      case Done => RoundStaysDone(run, ms', k + 1, start, start);
      case AwaitInput =>
      case Output(x) => HaltedEndsRound(run, ms', k + 1, j, x, x, done);
    }
  }

  /**
   * Once some machine sits on its `99`, the loop makes exactly one more round: it returns
   * the `start` that round ends with, or the panic that stops it.
   */
  lemma LastRoundAfterHalt(run: (Machine, int) -> Ran, ms: seq<Machine>, j: nat, start: int, rounds: nat)
    requires j < |ms| && Halted(ms[j]) && HaltsAtNinetyNine(run) && rounds > 0
    ensures Rounds(run, ms, start, false, rounds).result ==
      match RoundFrom(run, ms, 0, start, start, false)
      case Stopped(f) => Panicked(f)
      case Pass(_, _, s, _) => Signal(s)
  {
    HaltedEndsRound(run, ms, 0, j, start, start, false);
  }

  // ---------------------------------------------------------------- what the loop returns

  /** `v` is 0 or the latest entry of some machine's output log. */
  ghost predicate Seen(ms: seq<Machine>, v: int)
  {
    v == 0 || exists j | 0 <= j < |ms| :: |ms[j].outputs| > 0 && ms[j].outputs[|ms[j].outputs| - 1] == v
  }

  /** A turn adds its output to the machine's log and otherwise leaves the log alone. */
  ghost predicate LogsOutputs(run: (Machine, int) -> Ran)
  {
    forall m: Machine, x: int :: run(m, x).m.outputs ==
      if run(m, x).outcome.Returned? && run(m, x).outcome.result.Ok? && run(m, x).outcome.result.value.Output?
      then m.outputs + [run(m, x).outcome.result.value.value]
      else m.outputs
  }

  lemma RunnerLogsOutputs(rule: InputRule, fuel: nat)
    ensures LogsOutputs(Runner(rule, fuel))
  {
    forall m: Machine, x: int
      ensures Runner(rule, fuel)(m, x).m.outputs ==
        if Runner(rule, fuel)(m, x).outcome.Returned? && Runner(rule, fuel)(m, x).outcome.result.Ok?
           && Runner(rule, fuel)(m, x).outcome.result.value.Output?
        then m.outputs + [Runner(rule, fuel)(m, x).outcome.result.value.value]
        else m.outputs
    {
      RunOutputIsLastLogged(m.(inputs := m.inputs + [x]), rule, fuel);
    }
  }

  /** Replacing a machine by one with the same log keeps what was seen. */
  lemma SeenKept(ms: seq<Machine>, k: nat, m: Machine, v: int)
    requires k < |ms| && m.outputs == ms[k].outputs && Seen(ms, v)
    ensures Seen(ms[k := m], v)
  {
    if v != 0 {
      var j :| 0 <= j < |ms| && |ms[j].outputs| > 0 && ms[j].outputs[|ms[j].outputs| - 1] == v;
      assert ms[k := m][j].outputs == ms[j].outputs;
    }
  }

  /** A machine whose log ends with x makes x seen. */
  lemma SeenLogged(ms: seq<Machine>, k: nat, m: Machine, x: int)
    requires k < |ms| && |m.outputs| > 0 && m.outputs[|m.outputs| - 1] == x
    ensures Seen(ms[k := m], x)
  {
    assert ms[k := m][k] == m;
  }

  /** A round keeps `start` an output some machine has logged last (or 0). */
  lemma {:induction false} RoundKeepsSeen(run: (Machine, int) -> Ran, ms: seq<Machine>, k: nat, input: int, start: int, done: bool)
    requires k <= |ms| && Seen(ms, start) && LogsOutputs(run)
    ensures var r := RoundFrom(run, ms, k, input, start, done);
      r.Pass? ==> Seen(r.ms, r.start)
    decreases |ms| - k
  {
    if k < |ms| {
      var ran := run(ms[k], input);
      var ms' := ms[k := ran.m];
      if ran.outcome.Returned? && ran.outcome.result.Ok? {
        match ran.outcome.result.value
        case Done =>
          SeenKept(ms, k, ran.m, start);
          RoundKeepsSeen(run, ms', k + 1, start, start, true);
        case AwaitInput =>
        case Output(x) =>
          SeenLogged(ms, k, ran.m, x);
          RoundKeepsSeen(run, ms', k + 1, x, x, done);
      }
    }
  }

  /** The loop of rounds keeps `start` an output some machine logged last (or 0). */
  lemma {:induction false} RoundsReturnSeen(run: (Machine, int) -> Ran, ms: seq<Machine>, start: int, done: bool, rounds: nat)
    requires Seen(ms, start) && LogsOutputs(run)
    ensures var f := Rounds(run, ms, start, done, rounds);
      f.result.Signal? ==> Seen(f.ms, f.result.value)
    decreases rounds
  {
    if !done && rounds > 0 {
      var r := RoundFrom(run, ms, 0, start, start, false);
      RoundKeepsSeen(run, ms, 0, start, start, false);
      if r.Pass? {
        RoundsReturnSeen(run, r.ms, r.start, r.done, rounds - 1);
      }
    }
  }

  /**
   * `run_sequence2` returns 0 or the last output one of its machines logged: the signal it
   * returns was seen, it is not made up.
   */
  lemma RunSequence2ReturnsSeen(codes: seq<int>, phases: seq<int>, rule: InputRule, rounds: nat, fuel: nat)
    ensures var f := RunSequence2(codes, phases, rule, rounds, fuel);
      f.result.Signal? ==> Seen(f.ms, f.result.value)
  {
    RunnerLogsOutputs(rule, fuel);
    RoundsReturnSeen(Runner(rule, fuel), Primed(codes, phases), 0, false, rounds);
  }

  // ---------------------------------------------------------------- the last output produced

  /** The last entry of s, or d when s is empty. */
  function LastOr(s: seq<int>, d: int): int
  {
    if |s| == 0 then d else s[|s| - 1]
  }

  lemma LastOrAppend(a: seq<int>, b: seq<int>, d: int)
    ensures LastOr(a + b, d) == LastOr(b, LastOr(a, d))
  {
  }

  /**
   * The outputs a round produces from machine k on, in the order the machines produce them;
   * it ends at the machine that panics, if one does.
   */
  function RoundOutputs(run: (Machine, int) -> Ran, ms: seq<Machine>, k: nat, signal: int): seq<int>
    requires k <= |ms|
    decreases |ms| - k
  {
    if k == |ms| then [] else
    var ran := run(ms[k], signal);
    if ran.outcome.Returned? && ran.outcome.result.Ok? then
      match ran.outcome.result.value
      case Done => RoundOutputs(run, ms[k := ran.m], k + 1, signal)
      case AwaitInput => []
      case Output(x) => [x] + RoundOutputs(run, ms[k := ran.m], k + 1, x)
    else []
  }

  /** Every output produced over the rounds, in order, up to the end of the loop or its panic. */
  function RoundsOutputs(run: (Machine, int) -> Ran, ms: seq<Machine>, start: int, done: bool, rounds: nat): seq<int>
    decreases rounds
  {
    if done || rounds == 0 then []
    else match RoundFrom(run, ms, 0, start, start, false)
      case Stopped(_) => RoundOutputs(run, ms, 0, start)
      case Pass(ms', _, start', done') => RoundOutputs(run, ms, 0, start) + RoundsOutputs(run, ms', start', done', rounds - 1)
  }

  /** A round ends with `start` the last output it produced, or the `start` it began with. */
  lemma {:induction false} RoundEndsOnLastOutput(run: (Machine, int) -> Ran, ms: seq<Machine>, k: nat, start: int, done: bool)
    requires k <= |ms|
    ensures var r := RoundFrom(run, ms, k, start, start, done);
      r.Pass? ==> r.start == LastOr(RoundOutputs(run, ms, k, start), start)
    decreases |ms| - k
  {
    if k < |ms| {
      var ran := run(ms[k], start);
      var ms' := ms[k := ran.m];
      if ran.outcome.Returned? && ran.outcome.result.Ok? {
        match ran.outcome.result.value
        case Done => RoundEndsOnLastOutput(run, ms', k + 1, start, true);
        case AwaitInput =>
        case Output(x) =>
          RoundEndsOnLastOutput(run, ms', k + 1, x, done);
          LastOrAppend([x], RoundOutputs(run, ms', k + 1, x), start);
      }
    }
  }

  /** The loop of rounds returns the last output produced over all its rounds, or `start`. */
  lemma {:induction false} RoundsReturnLast(run: (Machine, int) -> Ran, ms: seq<Machine>, start: int, done: bool, rounds: nat)
    ensures var f := Rounds(run, ms, start, done, rounds);
      f.result.Signal? ==> f.result.value == LastOr(RoundsOutputs(run, ms, start, done, rounds), start)
    decreases rounds
  {
    if !done && rounds > 0 {
      var r := RoundFrom(run, ms, 0, start, start, false);
      RoundEndsOnLastOutput(run, ms, 0, start, false);
      if r.Pass? {
        RoundsReturnLast(run, r.ms, r.start, r.done, rounds - 1);
        LastOrAppend(RoundOutputs(run, ms, 0, start), RoundsOutputs(run, r.ms, r.start, r.done, rounds - 1), start);
      }
    }
  }

  /** Every output the machines of `run_sequence2` produce, in the order they produce them. */
  function RunSequence2Outputs(codes: seq<int>, phases: seq<int>, rule: InputRule, rounds: nat, fuel: nat): seq<int>
  {
    RoundsOutputs(Runner(rule, fuel), Primed(codes, phases), 0, false, rounds)
  }

  /** `run_sequence2` returns the last output produced anywhere during the run, or 0 if there was none. */
  lemma RunSequence2ReturnsLast(codes: seq<int>, phases: seq<int>, rule: InputRule, rounds: nat, fuel: nat)
    ensures var f := RunSequence2(codes, phases, rule, rounds, fuel);
      f.result.Signal? ==> f.result.value == LastOr(RunSequence2Outputs(codes, phases, rule, rounds, fuel), 0)
  {
    RoundsReturnLast(Runner(rule, fuel), Primed(codes, phases), 0, false, rounds);
  }

  // ---------------------------------------------------------------- on Computer objects

  /** The boxed computers of `run_sequence2`, each given its phase with `with_input`. */
  method Prime(codes: seq<int>, phases: seq<int>) returns (computers: seq<IntcodeComputer.Computer>)
    ensures |computers| == |phases|
    ensures forall j | 0 <= j < |phases| :: fresh(computers[j]) && computers[j].State() == Primed(codes, phases)[j]
    ensures forall j, k | 0 <= j < k < |phases| :: computers[j] != computers[k]
  {
    computers := [];
    for i := 0 to |phases|
      invariant |computers| == i
      invariant forall j | 0 <= j < i :: fresh(computers[j]) && computers[j].State() == Primed(codes, phases)[j]
      invariant forall j, k | 0 <= j < k < i :: computers[j] != computers[k]
    {
      var c := new IntcodeComputer.Computer(codes);
      c.WithInput([phases[i]]);
      computers := computers + [c];
    }
  }

  /**
   * One pass of the fold over the computers, starting from `start`: each computer is run in
   * place on the current input.  The outcome and the new states are those of RoundFrom.
   */
  method Round(computers: seq<IntcodeComputer.Computer>, ghost ms: seq<Machine>, start: int, fuel: nat)
      returns (ghost ms': seq<Machine>, start': int, done: bool, stop: Signal)
    requires |computers| == |ms|
    requires forall j | 0 <= j < |ms| :: computers[j].State() == ms[j]
    requires forall j, k | 0 <= j < k < |ms| :: computers[j] != computers[k]
    modifies set j | 0 <= j < |computers| :: computers[j]
    ensures |ms'| == |ms|
    ensures forall j | 0 <= j < |ms| :: computers[j].State() == ms'[j]
    ensures match RoundFrom(Runner(AsWritten, fuel), ms, 0, start, start, false)
      case Stopped(f) => stop == Panicked(f)
      case Pass(ms2, _, s, d) => stop == Signal(s) && ms' == ms2 && start' == s && done == d
  {
    ms', start', done := ms, start, false;
    var input := start;
    for idx := 0 to |computers|
      invariant |ms'| == |ms|
      invariant forall j | 0 <= j < |ms| :: computers[j].State() == ms'[j]
      invariant RoundFrom(Runner(AsWritten, fuel), ms', idx, input, start', done)
             == RoundFrom(Runner(AsWritten, fuel), ms, 0, start, start, false)
    {
      var o := computers[idx].RunWithInputs([input], fuel);
      ms' := ms'[idx := computers[idx].State()];
      match o {
        case Returned(Ok(Done)) =>
          done := true;
          input := start';
        case Returned(Ok(Output(x))) =>
          start' := x;
          input := x;
        case Returned(Ok(AwaitInput)) => return ms', start', done, Panicked(WaitedForInput);
        case Returned(Err(e)) => return ms', start', done, Panicked(ComputerFailed(e));
        case OutOfFuel => return ms', start', done, Panicked(OutOfSteps);
      }
    }
    stop := Signal(start');
  }

  /** A round of the loop that is not yet done. */
  lemma RoundsUnfold(run: (Machine, int) -> Ran, ms: seq<Machine>, start: int, n: nat, left: nat)
    requires left + 1 == n
    ensures RoundFrom(run, ms, 0, start, start, false).Stopped? ==>
      Rounds(run, ms, start, false, n) == Feedback(ms, Panicked(RoundFrom(run, ms, 0, start, start, false).why))
    ensures RoundFrom(run, ms, 0, start, start, false).Pass? ==>
      Rounds(run, ms, start, false, n) == Rounds(run, RoundFrom(run, ms, 0, start, start, false).ms,
        RoundFrom(run, ms, 0, start, start, false).start, RoundFrom(run, ms, 0, start, start, false).done, left)
  {
  }

  /** One pass of the `while !done` loop: what is left of the rounds after it, or where it panicked. */
  method Advance(computers: seq<IntcodeComputer.Computer>, ghost ms: seq<Machine>, start: int, n: nat, fuel: nat)
      returns (ghost ms': seq<Machine>, start': int, done: bool, stop: Signal, left: nat)
    requires n > 0 && |computers| == |ms|
    requires forall j | 0 <= j < |ms| :: computers[j].State() == ms[j]
    requires forall j, k | 0 <= j < k < |ms| :: computers[j] != computers[k]
    modifies set j | 0 <= j < |computers| :: computers[j]
    ensures |ms'| == |ms|
    ensures forall j | 0 <= j < |ms| :: computers[j].State() == ms'[j]
    ensures stop.Panicked? ==> stop == Rounds(Runner(AsWritten, fuel), ms, start, false, n).result
    ensures left == n - 1
    ensures !stop.Panicked? ==>
      Rounds(Runner(AsWritten, fuel), ms', start', done, left).result == Rounds(Runner(AsWritten, fuel), ms, start, false, n).result
  {
    left := n - 1;
    RoundsUnfold(Runner(AsWritten, fuel), ms, start, n, left);
    ms', start', done, stop := Round(computers, ms, start, fuel);
  }

  /** The `while !done` loop of `run_sequence2` on computers already primed with their phases. */
  method RunRounds(computers: seq<IntcodeComputer.Computer>, ghost ms: seq<Machine>, start: int, n: nat, fuel: nat)
      returns (r: Signal)
    requires |computers| == |ms|
    requires forall j | 0 <= j < |ms| :: computers[j].State() == ms[j]
    requires forall j, k | 0 <= j < k < |ms| :: computers[j] != computers[k]
    modifies set j | 0 <= j < |computers| :: computers[j]
    ensures r == Rounds(Runner(AsWritten, fuel), ms, start, false, n).result
  {
    ghost var ms' := ms;
    var start' := start;
    var done := false;
    var k := n;
    while !done
      invariant |computers| == |ms'|
      invariant forall j | 0 <= j < |ms'| :: computers[j].State() == ms'[j]
      invariant Rounds(Runner(AsWritten, fuel), ms', start', done, k).result
             == Rounds(Runner(AsWritten, fuel), ms, start, false, n).result
      decreases k
    {
      if k == 0 {
        return Panicked(OutOfSteps);
      }
      var stop;
      ms', start', done, stop, k := Advance(computers, ms', start', k, fuel);
      if stop.Panicked? {
        return stop;
      }
    }
    r := Signal(start');
  }

  /** `run_sequence2` on `Computer` objects: one boxed computer per phase, updated in place. */
  method ComputeRunSequence2(codes: seq<int>, phases: seq<int>, rounds: nat, fuel: nat) returns (r: Signal)
    ensures r == RunSequence2(codes, phases, AsWritten, rounds, fuel).result
  {
    var computers := Prime(codes, phases);
    r := RunRounds(computers, Primed(codes, phases), 0, rounds, fuel);
  }
}
