# Advent of Code 2018/2019 solutions — a Dafny model

This project models the algorithmic core of a Rust collection of Advent of Code solutions.

**Intcode virtual machine (`src/y2019/computer.rs`).** A word decodes into an opcode (`code % 100`) and three parameter modes. The machine runs ten instructions against a memory that grows on demand. Its state is:
- an instruction index;
- a relative base;
- an input vector with a read cursor;
- an append-only output log.

Two layers model it:
- `IntcodeSpec` is the machine as pure functions over a `Machine` value.
- `IntcodeComputer.Computer` is the source's mutable `Computer` as a class. Every method is proved to leave the object in the state the matching function computes.

`IntcodeProperties` holds the per-opcode behaviour, fuel monotonicity and how the run loops relate. `IntcodePrograms` holds two concrete programs:
- the self-reproducing program of the day 9 test;
- the compare-to-8 program of the machine's own tests.

**The other interpreters and puzzle solutions:**
- `Day05Spec`, `Day05Computer`, `Day05Properties`, `Day05Programs`: the older two-mode interpreter. Its memory is a fixed array, it has one fixed input and it reports explicit `OutOfBound` errors.
- `Day02`: the interpreter loop of day 2, which knows opcodes 1, 2 and 99 only.
- `Day07Amplifiers`, `Day07Feedback`, `Day07Permutations`: the day 7 enumerator of phase settings, and the two drivers that chain Intcode machines (one pass, and the feedback loop).
- `Day03Wires`: wire walking, parsing and intersection search.
- `Day04Passwords`: digit predicates and the password count.
- `Day06Orbits`, `Day06Transfers`: the orbit tree, the orbit count and the unit-weight Dijkstra search.
- `Day08Image`: image layers.
- `Day01Fuel`: iterated fuel.
- `Frequencies`: first repeated running total (2018 day 1).
- `BoxIds`: letter-count checksum and common letters (2018 day 2).

**Loops.** Every loop of the source that may not terminate takes a `fuel` bound and reports running out of it as an outcome of its own. This covers the machine's run loops, the feedback rounds, the orbit recursion, the heap loop and the cyclic frequency search.

**Panics.** A `panic!`, `unwrap` on an error or out-of-range index becomes a result value: `Err`, `Panicked`, `Panic` or `IndexOutOfBounds`. This lets the model state when the source panics.

## Model

| member | source | states |
|---|---|---|
| IntcodeSpec.Grown | src/y2019/computer.rs:173-179 | Reading index i: memory is left as it is when i is in range, and is otherwise resized to exactly i + 4 cells; existing cells never change and i is then in range. |
| IntcodeSpec.Stored | src/y2019/computer.rs:181-187 | Writing v at i: cell i holds v, every other old cell keeps its value, cells added by the resize read 0. |
| IntcodeSpec.GetMode | src/y2019/computer.rs:222-234 | The mode lookup fails (the source's panic) exactly when the selected decimal digit of the word is above 2. |
| IntcodeProperties.DecodeEncode | src/y2019/computer.rs:222-234 | For every opcode below 100 and three modes, the word built from them decodes back to the same opcode and modes. |
| IntcodeProperties.ModesOf1002 | src/y2019/computer.rs:250-255 | For the word 1002, parameters 1, 2, 3 are Position, Immediate, Position. |
| IntcodeSpec.GetVal | src/y2019/computer.rs:189-209 | Resolving a parameter changes no register and only ever grows memory. |
| IntcodeProperties.GetValInRange | src/y2019/computer.rs:189-209 | With every address in range, a parameter resolves to the raw word (Immediate), the word it points to (Position), or the word at the parameter plus the relative base (Relative), and memory is untouched. |
| IntcodeSpec.RawParam | src/y2019/computer.rs:211-216 | A destination parameter is read as a raw word with no mode applied; it cannot fail and only grows memory. |
| IntcodeSpec.BinaryOp | src/y2019/computer.rs:211-219 | Opcodes 1, 2 and 8 leave the cursor, outputs and relative base alone, and on success advance the instruction index by 4 and continue. |
| IntcodeProperties.StepArithmetic | src/y2019/computer.rs:91-97 | Opcode 1 (2) writes the sum (product) of the resolved operands to the raw address at ip + 3, changes no other cell and moves ip by 4. |
| IntcodeSpec.InputOp | src/y2019/computer.rs:99-110 | Opcode 3 either consumes exactly one input (cursor + 1, ip + 2) or changes no register; it suspends with AwaitInput exactly when its address resolves and the inputs are used up. |
| IntcodeProperties.StepInputAsWritten | src/y2019/computer.rs:99-110 | As written, the input lands at the address `get_val(code, 1)` yields — one dereference more than the raw parameter in position mode. With no input left the machine is unchanged and AwaitInput is returned. |
| IntcodeProperties.StepInputIntended | src/y2019/computer.rs:101 | With the raw-parameter destination (the commented-out line), the input lands at `codes[ip + 1]`. |
| IntcodeProperties.AwaitInputChangesNoRegister | src/y2019/computer.rs:99-110 | A step returns AwaitInput iff the opcode is 3, the inputs are used up and its address resolves; then ip, cursor, inputs, outputs and relative base are unchanged and memory only grew. |
| IntcodeProperties.ResumeAfterAwait | src/y2019/computer.rs:80-110 | A machine suspended on input and then given more inputs stores the first new input at the suspended instruction's destination and advances. |
| IntcodeSpec.OutputOp | src/y2019/computer.rs:112-117 | Opcode 4 returns Output(v) and appends exactly v to the output log; nothing else but memory growth changes. |
| IntcodeProperties.StepOutput | src/y2019/computer.rs:112-117 | With its operand in range, opcode 4 appends the operand to the outputs and moves ip by 2. |
| IntcodeSpec.JumpOp | src/y2019/computer.rs:119-137 | Opcodes 5 and 6 change only the instruction index (and memory growth) and continue. |
| IntcodeProperties.StepJump | src/y2019/computer.rs:119-137 | Opcode 5 (6) jumps to the second operand when the first is non-zero (zero), otherwise moves ip by 3. |
| IntcodeSpec.LessThanOp | src/y2019/computer.rs:139-147 | Opcode 7 leaves cursor, outputs and base alone and on success moves ip by 4. |
| IntcodeProperties.StepLessThan | src/y2019/computer.rs:139-147 | Opcode 7 writes 1 or 0 at the raw address ip + 3 when that address is already in memory, and fails with an index error otherwise (the source indexes without resizing). |
| IntcodeProperties.StepEquals | src/y2019/computer.rs:149-157 | Opcode 8 writes 1 if the operands are equal, else 0, at the raw address ip + 3 and moves ip by 4. |
| IntcodeSpec.AdjustBaseOp | src/y2019/computer.rs:159-165 | Opcode 9 leaves cursor and outputs alone and on success moves ip by 2. |
| IntcodeProperties.StepAdjustBase | src/y2019/computer.rs:159-165 | Opcode 9 adds its operand to the relative base and moves ip by 2. |
| IntcodeProperties.StepHalt | src/y2019/computer.rs:167 | Opcode 99 returns Done and changes nothing. |
| IntcodeProperties.StepUnknown | src/y2019/computer.rs:169 | Any other opcode fails with UnknownCode carrying `code % 100`. |
| IntcodeSpec.Step | src/y2019/computer.rs:85-171 | One step keeps the inputs and every existing memory cell's position, appends to the outputs exactly when it returns an Output, moves the cursor by at most one (only when it continues), and Done changes nothing. |
| IntcodeProperties.HaltedStaysHalted | src/y2019/computer.rs:56-78 | A machine at opcode 99 returns Done, unchanged, from every later `run` and `run_until_halt`. |
| IntcodeProperties.RunFuelMonotone | src/y2019/computer.rs:56-78 | Once a run returns within some fuel, more fuel gives the same machine and result. |
| IntcodeProperties.RunUntilHaltResumesRun | src/y2019/computer.rs:56-78 | `run_until_halt` behaves as `run` followed, after an Output, by `run_until_halt` on the resulting machine; AwaitInput becomes MissingInput; Done and errors are the same. |
| IntcodeProperties.RunUntilHaltOutputsAppendOnly | src/y2019/computer.rs:68-78 | `run_until_halt` only appends to the output log. |
| IntcodeProperties.RunOutputIsLastLogged | src/y2019/computer.rs:56-66 | `run` that returns Output(v) has appended exactly v to the log; any other result leaves the log unchanged. |
| IntcodeComputer.Computer.constructor | src/y2019/computer.rs:41-50 | A new computer is at ip 0 with the given memory, no inputs, cursor 0, no outputs and base 0. |
| IntcodeComputer.Computer.WithInput | src/y2019/computer.rs:52-54 | Replaces the inputs and keeps the read cursor and everything else. |
| IntcodeComputer.Computer.Run | src/y2019/computer.rs:56-66 | The loop leaves the object in the state, and returns the result, of `IntcodeSpec.Run` on the old state. |
| IntcodeComputer.Computer.RunUntilHalt | src/y2019/computer.rs:68-78 | As `IntcodeSpec.RunUntilHalt` on the old state. |
| IntcodeComputer.Computer.RunWithInputs | src/y2019/computer.rs:80-83 | Appends the inputs without resetting the cursor, then runs; as `IntcodeSpec.RunWithInputs`. |
| IntcodeComputer.Computer.RunStep | src/y2019/computer.rs:85-171 | The new fields and the result are those of `IntcodeSpec.Step` (as written) on the old fields. |
| IntcodeComputer.Computer.Input | src/y2019/computer.rs:99-110 | Opcode 3 in place, as `IntcodeSpec.InputOp`. |
| IntcodeComputer.Computer.Output | src/y2019/computer.rs:112-117 | Opcode 4 in place, as `IntcodeSpec.OutputOp`. |
| IntcodeComputer.Computer.Jump | src/y2019/computer.rs:119-137 | Opcodes 5/6 in place, as `IntcodeSpec.JumpOp`. |
| IntcodeComputer.Computer.LessThan | src/y2019/computer.rs:139-147 | Opcode 7 in place, as `IntcodeSpec.LessThanOp`. |
| IntcodeComputer.Computer.SetIndexed | src/y2019/computer.rs:143-146 | The end of opcode 7 in place: the raw third parameter out of memory faults with IndexOutOfBounds; otherwise exactly that cell takes the flag and ip moves by 4. |
| IntcodeComputer.Computer.AdjustBase | src/y2019/computer.rs:159-165 | Opcode 9 in place, as `IntcodeSpec.AdjustBaseOp`. |
| IntcodeComputer.Computer.GetAtMem | src/y2019/computer.rs:173-179 | Memory becomes `Grown(old, i)` and the value read is its cell i. |
| IntcodeComputer.Computer.SetAtMem | src/y2019/computer.rs:181-187 | Memory becomes `Stored(old, i, v)`; nothing else changes. |
| IntcodeComputer.Computer.GetVal | src/y2019/computer.rs:189-209 | Memory and result are those of `IntcodeSpec.GetVal`. |
| IntcodeComputer.Computer.BinaryOp | src/y2019/computer.rs:211-219 | The new state is that of `IntcodeSpec.BinaryOp`, and the method fails exactly when it does. |
| IntcodeComputer.Computer.SetResult | src/y2019/computer.rs:214-217 | The end of `binary_op` in place: a negative destination faults with NegativeAddress and writes nothing; otherwise memory becomes `Stored(..., dst, v)` and ip moves by 4. |
| IntcodePrograms.QuineOutputsItself | src/y2019/day09.rs:27-33 | The self-reproducing program run to halt returns Done with an output log equal to its own text, under either input rule. |
| IntcodePrograms.RunQuine | src/y2019/day09.rs:27-33 | The computer object running the same program ends with outputs equal to the program. |
| IntcodePrograms.Compare8Verdict | src/y2019/computer.rs:257-293 | The expected answer of the compare-to-8 program: 999 iff below 8, 1000 iff equal to 8, 1001 otherwise. |
| IntcodePrograms.Compare8AsWritten | src/y2019/computer.rs:257-293 | As written, for every input the program's first output and its whole output log are 999, through `run`, `run_with_inputs` and `run_until_halt`. |
| IntcodePrograms.Compare8Intended | src/y2019/computer.rs:257-293 | With the raw-address input, for every input x the program outputs `Compare8Verdict(x)`, through all three run methods. |
| IntcodePrograms.RunCompare8 | src/y2019/computer.rs:270-281 | The computer object given any input and run to halt ends Done with outputs [999]. |
| Day05Spec.GetMode | src/y2019/day05.rs:160-171 | Digit 0 gives Position, 1 gives Immediate, and any other digit fails (the panic), each as an iff. |
| Day05Spec.AsUsize | src/y2019/day05.rs:90-107 | `as usize` on a jump target keeps a non-negative value and adds 2^64 to a negative one. |
| Day05Spec.Step | src/y2019/day05.rs:62-129 | A step never changes the memory length or the input, appends at most one output (only when continuing), changes nothing on an error, and Done leaves the machine unchanged at an in-range ip. |
| Day05Properties.ModesOf1002 | src/y2019/day05.rs:187-192 | For 1002 the modes are Position, Immediate, Position. |
| Day05Properties.StepPastEnd | src/y2019/day05.rs:63-65 | An instruction index at or past the end of memory fails with OutOfBound and changes nothing. |
| Day05Properties.StepArithmeticCutShort | src/y2019/day05.rs:145-148 | An arithmetic instruction whose ip + 3 is not in memory fails with OutOfBound before any write. |
| Day05Properties.StepArithmetic | src/y2019/day05.rs:145-157 | Opcodes 1/2 store the sum/product at `codes[ip + 3]` and move ip by 4. |
| Day05Properties.StepInput | src/y2019/day05.rs:78-83 | Opcode 3 stores the fixed input at `codes[codes[ip + 1]]` and moves ip by 2; the input is never consumed. |
| Day05Properties.StepOutput | src/y2019/day05.rs:84-89 | Opcode 4 appends its operand to the outputs, moves ip by 2 and continues. |
| Day05Properties.StepJump | src/y2019/day05.rs:90-107 | Opcode 5/6 jumps to the second operand (as usize) on non-zero/zero, else moves ip by 3. |
| Day05Properties.StepCompare | src/y2019/day05.rs:108-125 | Opcodes 7/8 store 1 or 0 at `codes[ip + 3]` and move ip by 4. |
| Day05Properties.StepHaltOrUnknown | src/y2019/day05.rs:126-127 | Opcode 99 is Done and any other unknown opcode fails with UnknownCode, both changing nothing. |
| Day05Properties.RunInvariants | src/y2019/day05.rs:52-157 | However long it runs, the machine keeps its memory length and input, and only appends to its outputs. |
| Day05Properties.RunReturnsCellZero | src/y2019/day05.rs:52-60 | A run that returns a value stopped at opcode 99 and returns memory cell 0. |
| Day05Properties.RunFuelMonotone | src/y2019/day05.rs:52-60 | A run that returns within some fuel returns the same with more. |
| Day05Computer.Computer.constructor | src/y2019/day05.rs:43-50 | The array holds the program, ip is 0, outputs are empty and the input is stored. |
| Day05Computer.Computer.Run | src/y2019/day05.rs:52-60 | The loop over the array leaves the state and the result of `Day05Spec.Run` on the old state; the array is never replaced. |
| Day05Computer.Computer.RunStep | src/y2019/day05.rs:62-129 | In-place step, as `Day05Spec.Step`. |
| Day05Computer.Computer.Input | src/y2019/day05.rs:78-83 | In-place input, as the spec's input step. |
| Day05Computer.Computer.Output | src/y2019/day05.rs:84-89 | In-place output, as the spec's output step. |
| Day05Computer.Computer.Jump | src/y2019/day05.rs:90-107 | In-place jump, as the spec's jump step. |
| Day05Computer.Computer.Compare | src/y2019/day05.rs:108-125 | In-place compare, as the spec's compare step. |
| Day05Computer.Computer.GetVal | src/y2019/day05.rs:131-143 | Reads a parameter without changing anything, as the spec's `GetVal`. |
| Day05Computer.Computer.BinaryOp | src/y2019/day05.rs:145-157 | In-place arithmetic, as the spec's `BinaryOp`, including its OutOfBound check. |
| Day05Programs.Compare8Outputs | src/y2019/day05.rs:194-228 | On the compare-to-8 program every input x yields the output log [`Compare8Verdict(x)`] (999/1000/1001 for 1/8/10), and the run returns cell 0, which still holds the opcode 3. |
| Day05Programs.LastOutput | src/y2019/day05.rs:194-228 | Running the array-based computer gives `Compare8Verdict(x)` as its last output. |
| Day02.Arith | src/y2019/day02.rs:25-38 | An add/multiply finishes (and keeps the length) exactly when ip + 3 and all three operands index into memory; otherwise it panics. |
| Day02.ArithEffect | src/y2019/day02.rs:25-38 | A finished add/multiply writes the sum/product of the two addressed cells at the third address and changes no other cell. |
| Day02.Exec | src/y2019/day02.rs:20-43 | A finished run keeps the length of memory. |
| Day02.ExecEndsAtStop | src/y2019/day02.rs:21-43 | A finished run stopped at some ip = start + 4k that holds 99 or lies past the end. |
| Day02.ExecUnknownPanics | src/y2019/day02.rs:40 | Any opcode other than 1, 2, 99 at the instruction index panics with that code. |
| Day02.ExecArith | src/y2019/day02.rs:25-38 | At opcode 1 or 2 the run panics with the step's panic, or goes on at idx + 4 in the memory the step wrote. |
| Day02.ArithInPlace | src/y2019/day02.rs:25-38 | The loop body on the array fails exactly when the pure step panics, with the same index and memory unchanged; otherwise the array becomes the step's memory. |
| Day02.RunAnswer1 | src/y2019/day02.rs:17-45 | The in-place loop (after patching cells 1 and 2 to 12 and 2) reports cell 0, or the panic, exactly as the functional `Answer1`. |
| Day02.ExampleProgram | src/y2019/day02.rs:20-43 | The puzzle's sample program ends with 3500 in cell 0. |
| Day07Permutations.PermutationsCorrect | src/y2019/day07.rs:23-50 | A sequence is listed iff it has length 5 with pairwise-distinct values in [start, end); the list is strictly lexicographically increasing, so each appears once. |
| Day07Permutations.ComputePermutations | src/y2019/day07.rs:23-50 | The enumeration returns `Permutations(start, end)`. |
| Day07Permutations.ChooseFrom | src/y2019/day07.rs:26-43 | Extending a prefix returns every completion of it, in ascending order. |
| Day07Amplifiers.FirstOutput | src/y2019/day07.rs:56-62 | A machine's run yields a signal exactly when it returns an Output, with that value; Done and AwaitInput panic. |
| Day07Amplifiers.ComputeRunSequence | src/y2019/day07.rs:52-64 | The fold over fresh computers returns `RunSequence`, the chain from signal 0 where each machine gets inputs [phase, signal]. |
| Day07Amplifiers.FoldAppend | src/y2019/day07.rs:53-63 | For any amplifier function, folding p + q is folding q from the signal p ends with, and a panic in p is the result. |
| Day07Amplifiers.ChainSplit | src/y2019/day07.rs:53-63 | When the first i amplifiers pass a signal on, the whole chain is the rest of the chain started from that signal. |
| Day07Amplifiers.ChainAppend | src/y2019/day07.rs:52-64 | Chaining p then q is chaining q from p's signal, and a panic in p ends the chain. |
| Day07Amplifiers.ChainStopsAtPanic | src/y2019/day07.rs:58-62 | The first amplifier that panics decides the result of the whole sequence. |
| Day07Amplifiers.Thruster1Amplify | src/y2019/day07.rs:103-109 | On the test program, one amplifier with the raw-address input yields signal * 10 + phase; as written it yields 0. |
| Day07Amplifiers.Thruster1ChainIntended | src/y2019/day07.rs:103-109 | With the raw-address input, the chain spells the phases as decimal digits after the incoming signal. |
| Day07Amplifiers.Thruster1ChainAsWritten | src/y2019/day07.rs:103-109 | As written, any non-empty chain on the test program yields 0. |
| Day07Amplifiers.Thruster1Test | src/y2019/day07.rs:103-109 | Phases 4,3,2,1,0 give 43210 with the raw-address input, and 0 as written. |
| Day07Feedback.Primed | src/y2019/day07.rs:67-73 | One fresh machine per phase, each holding its phase as its only input. |
| Day07Feedback.RoundFrom | src/y2019/day07.rs:74-94 | A round keeps the number of machines and does not touch machines before the current one. |
| Day07Feedback.RoundHandsOnStart | src/y2019/day07.rs:74-94 | After a round the signal handed on is the value `start` holds. |
| Day07Feedback.RoundStaysDone | src/y2019/day07.rs:82-88 | Once a machine has returned Done in a round, the round stays marked done. |
| Day07Feedback.RoundDoneMeansHalted | src/y2019/day07.rs:82-88 | A round marked done has some machine sitting at opcode 99. |
| Day07Feedback.HaltedEndsRound | src/y2019/day07.rs:82-88 | A round that reaches a halted machine ends done. |
| Day07Feedback.LastRoundAfterHalt | src/y2019/day07.rs:74-96 | With a halted machine, the loop ends after one more round, whose last signal is the result. |
| Day07Feedback.RunSequence2ReturnsSeen | src/y2019/day07.rs:66-97 | The returned signal is the initial 0 or the latest entry of some machine's output log. |
| Day07Feedback.RoundEndsOnLastOutput | src/y2019/day07.rs:77-94 | A round ends with `start` equal to the last output its machines produced, in turn order, or to the `start` it began with when none produced one. |
| Day07Feedback.RoundsReturnLast | src/y2019/day07.rs:76-96 | The `while !done` loop returns the last output produced over all its rounds, or its initial `start`. |
| Day07Feedback.RunSequence2ReturnsLast | src/y2019/day07.rs:66-97 | `run_sequence2` returns the last output produced anywhere during the run, in production order, or 0 when no machine produced one. |
| Day07Feedback.Prime | src/y2019/day07.rs:67-73 | Builds distinct fresh computers, each in the state `Primed` describes. |
| Day07Feedback.Round | src/y2019/day07.rs:76-93 | One pass of the `while !done` loop over the objects: the new states, signal and flag are those of `RoundFrom`, and a panic is reported as such. |
| Day07Feedback.RunRounds | src/y2019/day07.rs:74-96 | The `while !done` loop returns the result of `Rounds` on the primed states. |
| Day07Feedback.ComputeRunSequence2 | src/y2019/day07.rs:66-97 | `run_sequence2` returns `RunSequence2(...).result` under the source's input rule. |
| Day03Wires.ParseDirection | src/y2019/day03.rs:122-141 | Succeeds iff the text is one of U/L/D/R followed by one or more decimal digits whose value fits an i32; the variant matches the letter and holds the value; an over-large number panics. |
| Day03Wires.ParseShow | src/y2019/day03.rs:122-141 | Parsing the printed form of any direction gives it back. |
| Day03Wires.Split | src/y2019/day03.rs:119 | `split(',')` yields at least one piece and no piece contains a comma. |
| Day03Wires.SplitJoin | src/y2019/day03.rs:119 | Splitting comma-joined comma-free pieces gives the pieces back. |
| Day03Wires.ParseAll | src/y2019/day03.rs:119 | A successful collect has one direction per piece, each the parse of its piece. |
| Day03Wires.ParsePathShow | src/y2019/day03.rs:118-120 | Parsing a printed path gives it back. |
| Day03Wires.ParseDirectionTests | src/y2019/day03.rs:158-164 | U12, L1, D123, R42 parse to Up(12), Left(1), Down(123), Right(42). |
| Day03Wires.ParsePathTest | src/y2019/day03.rs:166-172 | "U7,R6" parses to [Up(7), Right(6)]. |
| Day03Wires.WalkDirection | src/y2019/day03.rs:91-106 | The loop returns the move's segment (start + i·step for i below n, see SegmentPoints) and the endpoint start + n·step. |
| Day03Wires.SegmentPoints | src/y2019/day03.rs:91-106 | A move's segment has one point per step, point i is start + i·step, the first is the start and the endpoint is one step past the last. |
| Day03Wires.WalkPath | src/y2019/day03.rs:80-89 | The in-place loop builds `Path`, the segments concatenated from (0, 0), each starting where the previous ended. |
| Day03Wires.PathLength | src/y2019/day03.rs:80-89 | A path has as many points as the sum of the step counts. |
| Day03Wires.PathAppend | src/y2019/day03.rs:80-89 | Walking a + b is walking a, then b from a's end point. |
| Day03Wires.PathStartsAtStart | src/y2019/day03.rs:80-89 | A non-empty path starts at its start point. |
| Day03Wires.Distance | src/y2019/day03.rs:114-116 | The Manhattan distance is non-negative and zero only at the origin. |
| Day03Wires.SortedUnique | src/y2019/day03.rs:31-32 | Collecting into an ordered set gives a strictly increasing sequence with the same elements. |
| Day03Wires.Intersections | src/y2019/day03.rs:34 | The intersection is strictly increasing and holds exactly the points in both paths. |
| Day03Wires.SortByDistance | src/y2019/day03.rs:35 | The sort is by distance and a permutation of its input. |
| Day03Wires.SecondIsNearest | src/y2019/day03.rs:35-38 | When the origin is common, element 1 of the sorted intersections exists iff some other common point exists, and it is then a nearest non-origin common point. |
| Day03Wires.ClosestIsNearest | src/y2019/day03.rs:27-39 | For every pair of wires, including wires that cover no point: `closest_intersection` returns a point iff the wires cross away from the origin, and that crossing has the least distance of all crossings; otherwise `[1]` panics. |
| Day03Wires.FirstIndex | src/y2019/day03.rs:58-70 | The index found is where the point first occurs in the path. |
| Day03Wires.FindFirst | src/y2019/day03.rs:58-70 | The search loop returns the first index, or keeps the previous step when the point is absent. |
| Day03Wires.ShortestIntersection | src/y2019/day03.rs:41-78 | The result is 0 iff the wires share no point but the origin; otherwise it is the least, over those points, of first index in path 1 plus first index in path 2. |
| Day03Wires.BestUpToBounds | src/y2019/day03.rs:54-75 | The running minimum after k points is 0 only when all were the origin, is the cost of one of them otherwise, and bounds all of their costs. |
| Day04Passwords.DigitsShape | src/y2019/day04.rs:31-48 | A number has at least one decimal digit, all below 10, and exactly one iff it is below 10. |
| Day04Passwords.HasIncreasingDigits | src/y2019/day04.rs:31-48 | The right-to-left loop returns true iff the digits never decrease left to right. |
| Day04Passwords.HasTwoConsecutiveIdenticalDigits | src/y2019/day04.rs:50-67 | True iff some two adjacent digits are equal. |
| Day04Passwords.NotPartOfLargerGroup | src/y2019/day04.rs:69-92 | True iff the number has one digit, or some maximal run of equal digits has length exactly 2. |
| Day04Passwords.IsPotentialPassword1 | src/y2019/day04.rs:22-24 | Non-decreasing digits and an adjacent equal pair. |
| Day04Passwords.IsPotentialPassword2 | src/y2019/day04.rs:26-29 | Non-decreasing digits and a run of exactly two. |
| Day04Passwords.CountPasswords | src/y2019/day04.rs:4-20 | The loop counts exactly the numbers of the inclusive range satisfying the part's predicate. |
| Day04Passwords.Answer1 | src/y2019/day04.rs:4-11 | The count for part 1 over 273025..=767253. |
| Day04Passwords.Answer2 | src/y2019/day04.rs:13-20 | The count for part 2 over 273025..=767253. |
| Day04Passwords.NonDecreasingSorted | src/y2019/day04.rs:31-48 | Non-decreasing digits are sorted: every earlier digit is at most every later one. |
| Day04Passwords.Part2ImpliesPart1 | src/y2019/day04.rs:22-29 | Every multi-digit part-2 password is a part-1 password. |
| Day04Examples.IncreasingTests | src/y2019/day04.rs:99-103 | 1, 123, 111 have non-decreasing digits and 132 does not. |
| Day04Examples.IncreasingTestLong | src/y2019/day04.rs:104 | 315999 does not. |
| Day04Examples.AdjacentPairTests | src/y2019/day04.rs:109-113 | 1 and 12 have no adjacent pair; 11 and 12443 do. |
| Day04Examples.AdjacentPairTestLong | src/y2019/day04.rs:111 | 123123 has none. |
| Day04Examples.Password1TestFirst | src/y2019/day04.rs:118 | 111111 is a part-1 password. |
| Day04Examples.Password1TestSecond | src/y2019/day04.rs:119 | 223450 is not. |
| Day04Examples.Password1TestLast | src/y2019/day04.rs:120 | 123789 is not. |
| Day04Examples.ExactPairTrueTests | src/y2019/day04.rs:125-127 | 112233 and 111122 have a run of exactly two. |
| Day04Examples.ExactPairTrueTestLast | src/y2019/day04.rs:131 | 116666 has one. |
| Day04Examples.ExactPairFalseTests | src/y2019/day04.rs:126-130 | 123444 and 126666 do not. |
| Day04Examples.ExactPairFalseTestsMore | src/y2019/day04.rs:128-129 | 111123 and 689999 do not. |
| Day06Orbits.OrbitersMembers | src/y2019/day06.rs:40-47 | x is listed under center c iff some edge is (c, x). |
| Day06Orbits.BuildTree | src/y2019/day06.rs:40-47 | The map's keys are exactly the centers of the edges, and each maps to its orbiters in edge order. |
| Day06Orbits.Both | src/y2019/day06.rs:50-60 | Every edge appears in both directions, in order. |
| Day06Orbits.BuildGraph | src/y2019/day06.rs:50-60 | The keys are exactly the endpoints of the edges, each mapping to its neighbours in both directions. |
| Day06Orbits.GraphNeighbours | src/y2019/day06.rs:50-60 | b is a neighbour of a iff an edge joins them either way, so adjacency is symmetric. |
| Day06Orbits.CountShift | src/y2019/day06.rs:62-73 | Counting from depth c is counting from depth 0 plus c for every node below the source, and succeeds for exactly the fuel that the node count does. |
| Day06Orbits.CountIsDepthSum | src/y2019/day06.rs:62-73 | `count_orbits(orbits, source, c)` is the sum, over the nodes of the walk below source, of c plus the node's depth. It runs out of fuel exactly when the walk does. |
| Day06Orbits.WalkChains | src/y2019/day06.rs:62-73 | Every entry of the walk is a chain of nodes, each orbiting the one before it and the first orbiting source, so the entry's length is that node's depth. |
| Day06Orbits.WalkExample | src/y2019/day06.rs:62-73 | The walk of COM)B, B)C, B)D holds chains of depths 0, 1, 2 and 2. |
| Day06Orbits.CountExample | src/y2019/day06.rs:62-73 | COM)B, B)C, B)D counts 5 orbits, and too little fuel reports none. |
| Day06Transfers.CmpIsOrder | src/y2019/day06.rs:82-89 | The state order is total, antisymmetric and transitive; a state ranks at least as high as another iff it costs less, or costs the same with a name not smaller. |
| Day06Transfers.PopsCheapest | src/y2019/day06.rs:82-89 | The maximum the heap pops has the least cost in the heap. |
| Day06Transfers.ShortestPath | src/y2019/day06.rs:98-129 | A finished search records exactly the nodes reachable from the source, the source at 0 and each at the length of a shortest walk to it; a node with no adjacency entry that is reached is reported (the `unwrap` panic). |
| Day06Transfers.Step | src/y2019/day06.rs:107-125 | One iteration of the heap loop keeps the search invariant: recorded distances are lengths of walks, and each is either pending on the heap or settled. |
| Day06Transfers.PopStale | src/y2019/day06.rs:108-112 | Skipping a popped entry whose cost exceeds the recorded distance keeps the invariant. |
| Day06Transfers.Relax | src/y2019/day06.rs:116-125 | After expanding a node at cost c, every neighbour has a recorded distance at most c + 1, stored distances only decrease, and each improvement is pushed. |
| Day06Transfers.WalkBound | src/y2019/day06.rs:98-129 | When every recorded node is settled, no walk from the source reaches a node sooner than its recorded distance. |
| Day06Transfers.OrbitTransfers | src/y2019/day06.rs:16-21 | The answer plus 2 is the length of a shortest walk from YOU to SAN; an unreached SAN (the `unwrap`) means no walk exists. |
| Day08Image.FromChar | src/y2019/day08.rs:11-18 | A colour is read exactly for '0', '1' and '2'. |
| Day08Image.FromCharRoundTrip | src/y2019/day08.rs:11-18 | Reading back a colour's digit gives the colour, and that digit is the only character that does. |
| Day08Image.PrettyChar | src/y2019/day08.rs:20-26 | Black, White and Transparent print as blank, filled square and underscore, each iff. |
| Day08Image.NumberOf | src/y2019/day08.rs:65-67 | The count is at most the slice length. |
| Day08Image.NumberOfMultiplicity | src/y2019/day08.rs:65-67 | The count equals the multiplicity of the target. |
| Day08Image.NumberOfPartition | src/y2019/day08.rs:65-67 | The three colour counts of a layer sum to its length. |
| Day08Image.Layers | src/y2019/day08.rs:80-83 | A pixel list splits into |pixels| / len layers of len pixels each, layer k being the k-th slice. |
| Day08Image.FirstOpaque | src/y2019/day08.rs:95-103 | The first layer where pixel i is not transparent: all layers before it are transparent there. |
| Day08Image.PixelColorFirstOpaque | src/y2019/day08.rs:95-103 | `pixel_color` is the colour of the first layer opaque at i, or Transparent if there is none. |
| Day08Image.PixelColorOnTop | src/y2019/day08.rs:95-103 | A layer on top shows through unless it is transparent at i. |
| Day08Image.MergeImage | src/y2019/day08.rs:69-93 | Merging panics iff the pixel count is not a multiple of width·height (or the layer is empty); otherwise it yields width·height pixels. |
| Day08Image.MergedPixelAt | src/y2019/day08.rs:84-92 | Merged entry y·width + x is `pixel_color` at that index. |
| Day08Image.MergeExample | src/y2019/day08.rs:118-142 | The 2×2 example merges to Black, White, White, Black. |
| Day08Image.FewestBlack | src/y2019/day08.rs:43-46 | The chosen layer has the fewest black pixels, and is the first of those. |
| Day08Image.LayerChecksum | src/y2019/day08.rs:29-49 | Part 1 has an answer iff the image splits into at least one whole non-empty layer. |
| Day01Fuel.Fuel | src/y2019/day01.rs:20-28 | The loop returns the recurrence: nothing for a mass not above 0, else f = max(mass/3 − 2, 0) plus the fuel for f. |
| Day01Fuel.FuelSmall | src/y2019/day01.rs:20-28 | Masses up to 8 need no fuel, and 9 and above need some. |
| Day01Fuel.FuelHalf | src/y2019/day01.rs:20-28 | The fuel is at most half the mass. |
| Day01Fuel.FuelMonotone | src/y2019/day01.rs:20-28 | More mass never needs less fuel. |
| Day01Fuel.FuelAtLeastFormula | src/y2019/day01.rs:6-28 | The recursive fuel is at least the part-1 formula. |
| Day01Fuel.Part1Append | src/y2019/day01.rs:6-11 | The part-1 sum splits over concatenated module lists. |
| Day01Fuel.Part2AtLeastPart1 | src/y2019/day01.rs:6-18 | The part-2 answer is never below the part-1 answer. |
| Day01Fuel.TotalFuel | src/y2019/day01.rs:13-18 | Summing `fuel` over the modules gives the part-2 answer. |
| Frequencies.OnePass | src/y2018/day01.rs:6-23 | After one pass the running total equals `answer1`'s sum. |
| Frequencies.TotalPeriodic | src/y2018/day01.rs:17 | Every further pass of the cycled list adds the sum once more. |
| Frequencies.FirstRepeatUnique | src/y2018/day01.rs:18-20 | There is at most one first repeated running total. |
| Frequencies.ZeroSumRepeats | src/y2018/day01.rs:12-25 | When the changes cancel, the total after one pass repeats the initial 0. |
| Frequencies.FirstRepeat | src/y2018/day01.rs:12-25 | Reports the first running total that equals an earlier one; nothing for an empty list; running out of fuel means all totals so far are distinct. |
| Frequencies.ZeroSumFuel | src/y2018/day01.rs:12-25 | With cancelling changes, one pass of fuel is enough to find the repeat. |
| BoxIds.LetterCounts | src/y2018/day02.rs:9-17 | The map's keys are the id's characters, each mapped to its number of occurrences. |
| BoxIds.HasValue | src/y2018/day02.rs:53-57 | True iff some entry of the map holds the value. |
| BoxIds.HasValueCounts | src/y2018/day02.rs:19-57 | On letter counts, `has_value` for n > 0 asks whether some letter occurs exactly n times. |
| BoxIds.Flags | src/y2018/day02.rs:19-26 | The two flags of one id: a letter exactly 3 times, a letter exactly twice. |
| BoxIds.Checksum | src/y2018/day02.rs:7-27 | The checksum is (#ids with a letter exactly 3 times) × (#ids with a letter exactly twice). |
| BoxIds.CountsForBoth | src/y2018/day02.rs:19-26 | One id can count for both factors. |
| BoxIds.CommonLetters | src/y2018/day02.rs:59-64 | The common letters are no longer than either id. |
| BoxIds.CommonAndDifferences | src/y2018/day02.rs:59-64 | Common letters plus differing positions make up the shorter length. |
| BoxIds.OneDifference | src/y2018/day02.rs:59-64 | Equal-length ids differing only at i share the first id with letter i removed. |
| BoxIds.OneFewerIffOneDifference | src/y2018/day02.rs:29-64 | Equal-length ids share one letter fewer than their length iff they differ in exactly one position. |
| BoxIds.FindBoxes | src/y2018/day02.rs:29-43 | The letters of the first pair i < j, in scan order, whose common letters take one UTF-8 byte fewer than id i; or the `l - 1` underflow on an empty id; or, when no pair qualifies, `unreachable!`. |
| BoxIds.Utf8Len | src/y2018/day02.rs:33-36 | `len` counts UTF-8 bytes: at least one and at most four per character. |
| BoxIds.Utf8LenAscii | src/y2018/day02.rs:33-36 | The byte length equals the character count iff every character is ASCII. |
| BoxIds.StopsAscii | src/y2018/day02.rs:29-43 | On an ASCII id i and an id j of the same length, the scan stops at (i, j) iff id i is empty or the two differ at exactly one position. |
| BoxIds.ByteLengthExample | src/y2018/day02.rs:33-36 | "éa" and "xa" differ at one position, but "é" takes two bytes, so the scan does not stop at them. |

## Left out

- Reading and parsing input files is not part of this model: `read_codes`, the file parse of day 2, `read_wires`, `read_edges`, `read_data` and the other readers. Each core function takes its parsed input as a parameter. Command-line dispatch and every `println!` are left out too, including the image rendering loop of day 8.
- Machine integers are unbounded `int`. i32/i64/usize overflow is not modelled, including overflow of `i32::abs` in `distance`. Four exceptions are written out:
  - `as usize` on a negative jump target in day 5 adds 2^64;
  - the 2019 Intcode machine reports a negative address as an error instead of attempting a huge resize;
  - BoxIds.FindBoxes reports `Underflow` when `l - 1` is computed for an empty id (src/y2018/day02.rs:36);
  - Day06Transfers.OrbitTransfers reports `TooClose` when SAN's distance is below 2, so that `- 2` would underflow (src/y2019/day06.rs:20).

  The last two follow a debug build, where a `usize` subtraction below zero panics. A release build wraps around instead, and the model does not capture that.
- Rust's truncating `/` and `%` are modelled where operands can be negative: `Opcode`, and `TruncDiv` for the day 1 formula. Digit code wrapping goes through `as usize` modulo 2^64.
- IntcodeSpec.Run, IntcodeSpec.RunUntilHalt, Day05Spec.Run, Day07Feedback.Rounds, Day06Orbits.CountOrbits, Day06Transfers.ShortestPath and Frequencies.FirstRepeat all take a `fuel` bound. They report running out as an outcome of its own, so the model says nothing about runs longer than the fuel.
- Day07Permutations.ChooseFrom: the five nested loops of `permutations` are written as recursion on a prefix of chosen values. The output order is the same.
- Day06Transfers.ShortestPath: the binary heap is a multiset with "pop a maximum under the state order". Heap internals and pop order among equal states are not modelled.
- Day03Wires.ParseDirection: the regex `\d` is modelled as ASCII digits. Rust's regex also accepts other Unicode decimal digits, which `from_str_radix` would then reject.
- Day03Wires.SortByDistance: the sort is specified by its order and by being a permutation. Stability of `sort_by` among equal distances is not stated.
- Day03Wires.ClosestIsNearest: the concrete closest and shortest tests (src/y2019/day03.rs:174-238) are not proved. The general properties are proved instead.
- BoxIds.HasValue is modelled on maps only. The source's generic `HashMap<K, V>` bound is not reproduced.
- Day06Orbits.CountExample: the two day 6 tests read data files that are not part of this model. A small inline example is proved instead.
- Day07Feedback.Primed: `run_sequence2` calls `with_initial_input` (src/y2019/day07.rs:71), which `computer.rs` does not define. It is modelled as `with_input` of `[phase]`.
- Day07Feedback.Primed: day 7 passes `i32` programs where the computer takes `i64`. Both are `int` here.
- Day07Amplifiers.Thruster1Test: the run_sequence tests for 54321 and 65210 and the run_sequence2 tests for 139629729 and 18216 (src/y2019/day07.rs:111-146) are not proved. They rely on the raw-address input that the machine as written does not have (see Findings); the first test is proved in both forms.
- IntcodePrograms.Compare8AsWritten: the tests expecting 1000 and 1001 (src/y2019/computer.rs:270-293) are not true of the code as written. The model proves what the code does, and proves the expected values for the corrected input rule.

## Findings

| source | as written | input that shows it | evidently intended | confidence | as-written member | corrected member |
|---|---|---|---|---|---|---|
| src/y2019/computer.rs:100 | Opcode 3 takes its destination from `get_val(code, 1)`. In position mode this reads the cell the parameter points to and stores there, one dereference more than any other write (lines 143, 153, 214) and than the day 5 machine (src/y2019/day05.rs:79). | The compare-to-8 program of src/y2019/computer.rs:270-293 with input 8 or 10. `3,21` stores the input at `codes[codes[21]] = codes[0]` instead of cell 21, so the program always prints 999, where the tests expect 1000 and 1001. | Store the input at the raw parameter `codes[ip + 1]`, as in the commented-out line 101. The program then prints 999, 1000 or 1001 for input below, equal to or above 8. | not executed | IntcodePrograms.Compare8AsWritten | IntcodePrograms.Compare8Intended |
| src/y2019/computer.rs:100 | The same destination rule makes the day 7 amplifier test program write both its phase and its signal into cell 0, not into cells 15 and 16. Cells 15 and 16 both hold 0 when `3,15` and `3,16` run, so each input lands in the cell that 0 names. | `run_sequence` on the test program with phases 4,3,2,1,0 (src/y2019/day07.rs:103-109) gives 0 instead of 43210. | With the raw-address input, each amplifier multiplies the incoming signal by 10 and adds its phase, giving 43210. | not executed | Day07Amplifiers.Thruster1ChainAsWritten | Day07Amplifiers.Thruster1ChainIntended |

The `IntcodeComputer.Computer` class and the day 7 drivers run the machine as written, so the model follows the code. The corrected rule is the `Intended` value of `IntcodeSpec.InputRule`, which every spec function and lemma accepts as a parameter.
