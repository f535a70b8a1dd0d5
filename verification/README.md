# A verified model of the quantum simulation server

The server keeps quantum systems in shared containers, compiles small assembly programs
and runs them on a stabilizer simulator in the manner of CHP (Aaronson and Gottesman,
"Improved Simulation of Stabilizer Circuits", Phys. Rev. A 70, 052328, section III). This
project models its core in Dafny and proves what that core is for.

`dafny verify dfyconfig.toml` checks everything.

## What is proved

**The simulator means what it says.** A tableau row is a phased Pauli operator, a state
is a vector of unnormalised amplitudes over the Gaussian integers (`Amplitudes`). Gate
updates are conjugation (`Conjugation`) and homomorphisms of the Pauli product
(`Gates`). One invariant of the tableau - symplectic pairing of the rows and the
completeness identity, by which every operator is recovered from its products with the
rows - is established by init and kept by gates, by both kinds of measurement and by
elimination (`Tableaus`, `RowOps`). From it follow the deterministic measurement, the
exact signed group after a random one (`Measurement`, `SignedGroup`), and the end-to-end
result: on the same random bits the simulator records what a simulation of the state
vector records (`Programs`). Each instruction is pinned on its own, on rows and on
amplitudes (`Instructions`), and programs without superposition compute with bits
(`Classical`). A tableau describes one state and no other, up to a factor
(`Descriptions`). The class `ChpState` does all this in place on words of 64
bits, 32 columns to a word, and each of its methods is proved against the function it
implements; `pt(31)` shifts a 32-bit int and is therefore a negative number when widened,
and the class invariant (every word is the sign extension of its low half) shows that it
does no harm. The scratch row is not part of the abstraction, so no result depends on
what it holds.

**Elimination and back substitution do what their comments say**, though nothing in the
repository calls them: `gaussian` keeps the signed group and reaches the documented form,
its result is the rank of the X block it was given and the logarithm of the number of
basis states with an amplitude, and the string that `seed` finds is one of them
(`Echelon`, `Elimination`, `Ranks`, `Supports`).

**The containers are safe, and free of deadlock while bodies return.** Any number of
threads take the steps of the server's operations in any order (`Containers`,
`Universe`, `Interleaving`). Every operation takes its locks in increasing rank and
touches only what it has locked; for every run it follows that bodies exclude each
other, that erasing never frees an item in use, that keys are fresh until the generator
wraps, that a registered name is never rebound, that edits of an item are serial
(`Safety`, `Guarantees`). In every state with something left to do, some thread can go on,
or some thread spins on a flag that nobody will clear; a run that cannot go on has ended
all its operations exactly if no thread does (`Progress`). Such a flag is left behind by a
throw inside a body, and by nothing else; so while bodies return there is no deadlock, and
every run that begins no new operation ends all of them within a bound. An operation that
nothing in it throws touches exactly what is its own, in its order (`Effects`). Which operations
can throw inside a body, and where, is listed and proved complete (`Failures`); `Strays`
has a run in which one text that does not parse stops another thread for ever.

**Text and memory formats.** Parsing undoes printing for exactly the line delimiters that
are not digits (`Numerals`, `Assembler`, `Listing`); a program sent as text records what
the state vector simulation records (`EndToEnd`); the hybrid buffer is a plain sequence
(`Buffers`); the packed look-up of a call finds what a linear search finds, for exactly
the requests it says (`Actions`).

## Where the code and its documentation disagree

The model follows the code.

- `universe.hpp:93-94` and its siblings promise `false` for a state or system that is not
  found. The code throws `std::invalid_argument` (`ms_container.hpp:121`) and catches
  only `std::out_of_range`. A look-up that fails is an exception in the model. For a system
  that is absent nothing else happens (`Failures.AbsentSystemHarmless`); for a state that is
  absent the exception leaves the flag of its system set (`Failures.AbsentStateLeaks`), and
  the system is shut to everyone until it is erased (`Failures.ShutForAll`).
- The `macro` instruction constructs an exception and does not throw it
  (`state/chp_state.hpp:537-543`): it does nothing, in the model too.
- The stack capacity of the buffer is said to be a multiple of the word size
  (`managed_container.hpp:16-19`); it is the word size rounded up to a multiple of the
  template argument.
- `over32` is said to be `floor(n/8)+1` (`state/chp_state.hpp:112`); it is `n/32 + 1`.
- `stuif` is said to throw for characters that are not digits (`utility.hpp:52-54`);
  without `SABOT_THROW` it computes with whatever it finds, and with it the exception for
  a bad character is constructed and not thrown. A numeral of no characters has the value
  of the character behind it.

## Model

| member | source | states |
|---|---|---|
| Paulis.TimesAssociative | state/chp_state.hpp:251-312 | the product that clifford and rowmult compute, phase counter included, is associative |
| Paulis.TimesCommutes | state/chp_state.hpp:251-299 | operators that commute symplectically commute with their phases; the others differ by the factor -1 |
| Paulis.CliffordParity | state/chp_state.hpp:251-299 | the phase counter is odd exactly for rows that anticommute |
| Paulis.TimesSelf | state/chp_state.hpp:306-312 | a row with phase 0 or 2 is its own inverse |
| Gates.SympGate | state/chp_state.hpp:155-202 | every gate update keeps the symplectic product of any two rows |
| Gates.GateHomomorphism | state/chp_state.hpp:155-202 | updating the product of two rows is the product of the updated rows, phases included |
| Amplitudes.ProductActs | state/chp_state.hpp:306-312 | acting with a product of rows is acting with one after the other, on every state |
| Conjugation.CnotConjugates | state/chp_state.hpp:155-172 | CNOT: the updated row after the gate is the gate after the row, at every basis string |
| Conjugation.HadamardConjugates | state/chp_state.hpp:179-188 | the same for the Hadamard gate, with the flip tested on the new bits |
| Conjugation.PhaseConjugates | state/chp_state.hpp:195-202 | the same for the phase gate |
| Conjugation.GateConjugates | state/chp_state.hpp:155-202 | gate updates mean conjugation, for every gate, phased row and state |
| Projections.FairOutcomes | state/chp_state.hpp:431-437 | if a stabilizer anticommutes with Z_b, both outcomes carry the same nonzero weight of the state |
| Projections.DefiniteOutcome | state/chp_state.hpp:449-471 | if (-1)^o Z_b fixes a nonzero state, outcome o is possible, the other is not, and projecting changes nothing |
| Tableaus.InitialInvariant | state/chp_state.hpp:500-508 | the tableau that init lays out satisfies the invariant: pairing of the rows and completeness |
| Tableaus.GateInvariant | state/chp_state.hpp:155-202 | every gate keeps the invariant |
| Tableaus.RandomInvariant | state/chp_state.hpp:431-443 | the whole update of a random measurement keeps the invariant |
| Measurement.PivotExists | state/chp_state.hpp:449-459 | when no stabilizer has an X at the qubit, the search of the destabilizers stops before n |
| Measurement.DeterministicRow | state/chp_state.hpp:449-471 | the accumulated scratch row is then +Z_b or -Z_b exactly: no X, one Z, phase 0 or 2 |
| Measurement.MeasureSound | state/chp_state.hpp:416-472 | a measurement projects the state it describes; its outcome was possible; a random bit is drawn exactly when both outcomes are, and then they are equally likely; otherwise no row changes |
| SignedGroup.GroupElement | state/chp_state.hpp:108-110 | every element of the stabilizer group has a real phase and commutes with all stabilizers |
| SignedGroup.GroupCommutes | state/chp_state.hpp:251-312 | elements of the group commute with their phases |
| SignedGroup.RandomGroup | state/chp_state.hpp:431-443 | the signed group after a random measurement is exactly: the earlier elements that commute with Z_b, and those times the signed Z_b |
| SignedGroup.MeasureGroup | state/chp_state.hpp:416-472 | after either branch the group holds the signed Z_b and every earlier element that commutes with it |
| Programs.RunSplit | state/chp_state.hpp:532-608 | running p and then q is running p followed by q, on the same random bits |
| Programs.RunRecord | state/chp_state.hpp:568-573 | the record only grows, and what it holds has no influence on the run |
| Programs.InitialDescribes | state/chp_state.hpp:479-508 | the tableau after init describes the basis state 0...0 |
| Programs.RunRefines | state/chp_state.hpp:532-608 | end to end: the tableau run and the state vector run record the same characters and draw as many bits, and the final tableau describes the final, nonzero state |
| Instructions.LegalOperands | state/chp_state.hpp:536-604 | which operands are legal, instruction by instruction |
| Instructions.StepRows | state/chp_state.hpp:554-604 | each row after c, h, p, x, y or z, written out: the first operand of c is the control, the second the target; i and macro change nothing |
| Instructions.StepNothing | state/chp_state.hpp:537-557 | macro and i leave the whole configuration as it is |
| Instructions.StepInitialize | state/chp_state.hpp:544-553 | after init n, row i is X_i and row n + i is Z_i |
| Instructions.IdealAmplitude | README.md:164-175 | each amplitude after c, h, p, x, y or z, written out, up to the factors 2 and -2 of x and y |
| Classical.ClassicalRuns | state/chp_state.hpp:532-608 | a program of init, i, x, c and m alone records what computing with bits records, and draws no random bit |
| Classical.HadamardTosses | state/chp_state.hpp:558-573 | h on a definite bit and then m draws one random bit and records it |
| Programs.DrawsAreFair | state/chp_state.hpp:416-472 | after any run, a measurement that draws has two outcomes of equal nonzero weight, and one that does not has only one outcome of nonzero weight |
| Programs.MeasureAgain | state/chp_state.hpp:416-472 | in every tableau with the invariant, measuring a qubit again after any run of other measurements draws nothing, gives the same outcome and leaves rows 0..2n-1 as they are |
| Descriptions.DescribesSome | state/chp_state.hpp:106-110 | every tableau with the invariant describes a nonzero state |
| Descriptions.DescribesOne | state/chp_state.hpp:106-110 | together with a state it describes exactly the nonzero multiples of that state |
| Programs.GatesRunByRow | state/chp_state.hpp:579-604 | a composed gate treats each row on its own |
| Programs.PauliGates | state/chp_state.hpp:579-604 | x, y, z only flip the sign of the rows with z, x xor z, x at the qubit |
| RowOps.SwapInvariant | state/chp_state.hpp:337-338 | swapping stabilizers and their destabilizers keeps the invariant |
| RowOps.AddInvariant | state/chp_state.hpp:342-343 | the two rowmults of an elimination step together keep the invariant |
| RowOps.AddGroup | state/chp_state.hpp:342-343 | and keep the signed group |
| RowOps.SameGroupElements | state/chp_state.hpp:324-375 | two tableaus whose generators generate each other have the same signed group |
| RowOps.SameGroupDescribes | state/chp_state.hpp:324-375 | and describe the same states |
| Elimination.FormReached | state/chp_state.hpp:327-374 | two finished phases leave the documented form: the second phase uses up all rows, because an independent row is never empty |
| Echelon.KernelTrivial | state/chp_state.hpp:314-323 | in that form a string that vanishes on the leading X columns and is orthogonal to all Z-only rows is zero |
| Supports.SupportIs | state/chp_state.hpp:377-385 | a basis string has an amplitude exactly if it satisfies the sign equation of every Z-only generator |
| Supports.SeedStep | state/chp_state.hpp:394-408 | flipping a row's leading column solves its equation and breaks none solved before |
| Supports.SeedHasAmplitude | state/chp_state.hpp:377-380 | the string that seed leaves occurs with nonzero amplitude |
| Supports.SupportCount | state/chp_state.hpp:319 | gaussian's result g is the logarithm: 2^g basis states have an amplitude |
| Ranks.XPart | state/chp_state.hpp:251-312 | the X part of a group element is the sum of the X parts of the stabilizers whose destabilizers anticommute with it |
| Ranks.LeadingColumns | state/chp_state.hpp:314-323 | in the documented form, group elements have their first X in exactly the leading columns of the g rows with an X part |
| Ranks.GaussianRank | state/chp_state.hpp:324-375 | gaussian's result is the rank of the X block of the tableau it was run on, whatever state is described |
| Ranks.FormsAgree | state/chp_state.hpp:317-319 | two tableaus in the documented form with the same signed group have equally many rows with an X part |
| Supports.GaussianReads | state/chp_state.hpp:314-385 | all of this for the state that was described before the elimination |
| Words.PtBits | state/chp_state.hpp:146-148 | for every i below 32, pt(i) has the one low bit i, and its high half is empty except for i = 31, where it is all ones |
| Words.BitTest | state/chp_state.hpp:155-202 | on such words a mask test sees exactly one column |
| Words.FlipColumn | state/chp_state.hpp:157-162 | xor with pt flips one column of a packed row and keeps the padding empty |
| Words.CopyColumn | state/chp_state.hpp:181-183 | the masked exchange of hadamard copies one column |
| Words.AddColumn | state/chp_state.hpp:200 | the masked xor of phase adds one column |
| Words.XorRows | state/chp_state.hpp:308-311 | xor of whole words adds all columns |
| ChpStates.ChpState.Cnot | state/chp_state.hpp:155-172 | in place, every tableau row becomes its CNOT update |
| ChpStates.ChpState.Hadamard | state/chp_state.hpp:179-188 | in place, every tableau row becomes its Hadamard update |
| ChpStates.ChpState.Phase | state/chp_state.hpp:195-202 | in place, every tableau row becomes its phase update |
| ChpStates.ChpState.RowCopy | state/chp_state.hpp:209-215 | one row becomes another, word for word; all others stay |
| ChpStates.ChpState.RowSwap | state/chp_state.hpp:222-226 | two rows trade places through the scratch row; all others stay |
| ChpStates.ChpState.RowSet | state/chp_state.hpp:233-244 | a row becomes X_q or Z_q |
| ChpStates.ChpState.Clifford | state/chp_state.hpp:251-299 | the loop over whole words, padding included, computes the phase of the product |
| ChpStates.ChpState.RowMult | state/chp_state.hpp:306-312 | in place, a row becomes the product of two |
| ChpStates.ChpState.Gaussian | state/chp_state.hpp:324-375 | in place elimination: the documented form, the same signed group, the invariant, and the rank of the X block as the result |
| ChpStates.ChpState.Residue | state/chp_state.hpp:395-403 | whether a string violates a row's equation, and the row's leading column |
| ChpStates.ChpState.Seed | state/chp_state.hpp:386-409 | back substitution leaves an X-only scratch row whose string solves every equation, and no other row changes |
| ChpStates.ChpState.Measure | state/chp_state.hpp:416-472 | in place measurement is the measurement of the tableau, whatever the scratch row held |
| ChpStates.ChpState.Init | state/chp_state.hpp:479-508 | a fresh tableau of n qubits, from arrays whose scratch row holds a stray bit and an unset phase |
| ChpStates.ChpState.RunGates | state/chp_state.hpp:536-605 | the cases of the switch that apply gates, in place |
| ChpStates.ChpState.RunProgram | state/chp_state.hpp:532-608 | running on the arrays, with results going to the buffer, is the run that Programs defines |
| QuantumStates.EncodeState | state/chp_state.cpp:29-35 | a new state is the run of the program from the beginning |
| QuantumStates.ModifyState | state/chp_state.cpp:40-42 | a stored state is run on, its results dropped |
| QuantumStates.MeasureState | state/chp_state.cpp:47-49 | a stored state is run on, its results recorded |
| QuantumStates.ComputeResult | state/chp_state.cpp:54-58 | the results of a run on a state that is not kept |
| QuantumStates.ComputeIsEncodeThenMeasure | state/quantum_state.hpp:32-66 | computing p followed by q records what p records and then what measuring with q records on the state encoded with p; tableaus and random bits agree |
| LockOrder.AfterWell | ms_container.hpp:94-131 | a disciplined step keeps locks in rank order and what was looked up under a lock |
| Universe.ScriptDisciplined | universe.cpp:14-146 | every operation of the server takes locks in strictly increasing rank, touches only what it has locked, and ends with none held, whatever a count returns |
| Effects.ScriptYields | universe.cpp:14-146 | what each operation looks up, inserts, edits, erases and draws when nothing throws, in order, written out; at most the dialect asked for is registered besides |
| Effects.OperationTouches | universe.cpp:14-146 | in every run, between its beginning and its end, an operation that nothing in it throws does exactly that |
| Effects.UntouchedStays | ms_container.hpp:48-131 | all other steps leave all containers as they are |
| Effects.DeleteSystemDone | universe.cpp:62-64 | delete_system makes one erasure, of that system; if it was there, it and what is inside it are gone afterwards and all else is there |
| Effects.CreateSystemDone | universe.cpp:55-60 | create_system makes one insertion, and the systems afterwards are those before and one under the next key |
| Effects.CreateStateDone | universe.cpp:66-82 | the same of create_state for the states of that system |
| Effects.DeleteStateDone | universe.cpp:118-129 | delete_state erases that state of that system and nothing else |
| Effects.EditDone | universe.cpp:84-116 | modify_state and measure_state edit that state of that system, once |
| Safety.FoundSurvives | ms_container.hpp:94-131 | an item that some thread has looked up survives every step of every thread |
| Safety.GoKeepsInv | ms_container.hpp:48-131 | every step of every thread, exceptions included, keeps the invariant of the containers |
| Safety.RunInvariant | ms_container.hpp:48-131 | the invariant holds in every state of every run |
| Guarantees.OneBody | ms_container.hpp:116-131 | at most one thread runs a body on an item, and the item is there |
| Guarantees.WriterExcludesBodies | ms_container.hpp:94-131 | while a writer holds a list, no body runs on its items or on anything inside them |
| Guarantees.EraseIsSafe | ms_container.hpp:94-102 | erasing an item that is there removes it and what is inside it, nothing else, and none of it is in use |
| Guarantees.FreshKey | ms_container.hpp:149-156 | before the generator wraps, the keys after an insertion are those before and, unless the constructor throws, one that is larger than all of them, for a new item |
| Guarantees.KeysIncrease | ms_container.hpp:48-71 | keys increase from insertion to insertion of a container, whatever is erased between |
| Guarantees.NameNeverRebound | universe.cpp:14-18 | a registered interpreter stays the same object: the race between count and insert is benign |
| Guarantees.InterpreterFound | universe.cpp:20-29 | compiling always finds its interpreter |
| Guarantees.EditsAreSerial | ms_container.hpp:116-131 | the value of an item is what its editors, in the order they finished, made of it: no edit is lost |
| Progress.ProgressOrStuck | ms_container.hpp:116-131 | in every state of every run with something left to do, some thread can take a step without spinning, even if waiting writers hold readers off, or some thread spins on a flag left behind |
| Progress.StandstillIsDone | ms_container.hpp:116-131 | where nothing can move, every operation has ended if and only if no thread spins on a flag left behind |
| Progress.ReturningLeavesNothing | ms_container.hpp:127-130 | if no event so far was a throw inside a body, no flag is left behind |
| Progress.NoDeadlock | ms_container.hpp:116-131 | so if every body has returned so far, some unfinished thread can take a step without spinning |
| Progress.StepDecreases | universe.cpp:14-146 | every step, a throw too, brings its thread nearer to the end |
| Progress.OperationEnds | universe.cpp:14-146 | spinning aside, an operation takes no more steps than its script is long, in every run |
| Progress.RunsDown | universe.cpp:14-146 | every run can go on, without new operations, to a state in which nothing can move |
| Progress.EverythingEnds | universe.cpp:14-146 | a run without new operations has a bound on its length; when nothing can move, every operation has ended exactly if no thread is stuck, and in any case if every body returned |
| Progress.OnlyThrowingLeaks | ms_container.hpp:127-130 | a step leaves a flag behind exactly if it throws while its thread holds that flag |
| Progress.StuckForEver | ms_container.hpp:127 | a thread that spins on such a flag spins for ever, in every continuation |
| Strays.ThrowingBodyDeadlocks | universe.cpp:20-29 | there is a run in which a text that does not parse leaves another thread so |
| Failures.ScriptListed | universe.cpp:14-146 | which commands of which operation can throw while it holds which flags: dialect and text inside an edit, an absent state, an insertion into an item, and nothing else |
| Failures.FailuresByOperation | universe.cpp:66-146 | in every run a throw inside a body is one of those listed for the operation its thread is in, and leaves behind exactly the flags the thread held |
| Failures.AbsentStateLeaks | state/quantum_state.hpp:39-55 | modifying or measuring a state that is absent leaves the flag of its system set |
| Failures.AbsentSystemHarmless | universe.cpp:89-95 | looking up a system or kernel that is absent throws and leaves no flag |
| Failures.ShutForAll | ms_container.hpp:127 | a system, kernel or interpreter whose flag was left behind is shut to every thread for as long as it is not erased |
| Failures.EraseTakesFlag | ms_container.hpp:94-102 | erasing an item takes its flag and those inside it along |
| Numerals.ReadNumeral | utility.hpp:56-82 | the loop computes, in unsigned 64-bit arithmetic, the number that Stuif defines |
| Numerals.StuifOfDecimal | utility.hpp:56-82 | of a decimal numeral that is its value modulo 2^64, whatever text follows |
| Numerals.PrintedIsRead | utility.hpp:56-82 | a printed number is read back exactly if it is less than 2^64 |
| Assembler.FindDefinition | language/dialect.hpp:42-52 | the definition with the mnemonic, or none if no operation has it |
| Assembler.MnemonicsDistinct | language/dialects/chpext.cpp:11-23 | no two operations share a mnemonic |
| Assembler.ReadInto | language/interpreter.cpp:25-41 | the operand loop fills the array with the operands that the text holds, and leaves the rest of it as it was |
| Assembler.ParseProgram | language/interpreter.cpp:12-60 | the cursor stays in the text and the instructions are its lines; an unknown opcode fails; so does a text that would be read past its end |
| Listing.OneOperandLine | language/dialects/chpext.cpp:11-22 | a line of init, i, h, p, m, x, y or z with one decimal operand is read as that operation with the operand modulo 2^64, whatever follows |
| Listing.TwoOperandLine | language/dialects/chpext.cpp:11-22 | a line of macro or c with two operands and a comma likewise |
| Listing.OtherWords | language/interpreter.cpp:18-23 | a line whose first word is none of the ten mnemonics is refused |
| Listing.TooFewOperands | language/interpreter.cpp:28-37 | a text that ends before the operands do is read past its end |
| Listing.LineRead | language/interpreter.cpp:17-57 | a printed line is read as that line, whatever follows |
| Listing.ClosedRead | language/interpreter.cpp:17-57 | a printed program followed by any text is that program followed by what the text holds |
| Listing.ParseUndoesPrint | language/interpreter.cpp:12-60 | parsing undoes printing, for every delimiter but digits, with or without a last delimiter, with blanks before; operands come back exactly if they fit a word |
| Listing.DelimitersThatWork | language/interpreter.cpp:32-36 | the delimiters for which every printed program is read back are exactly those that are not digits |
| Listing.JoinedTexts | language/interpreter.cpp:17-57 | any text whose last operand is closed by a delimiter, joined with any other text, is the one program followed by the other |
| EndToEnd.AlikeRun | language/interpreter.cpp:26-53 | operands that an operation does not use, which the parser never sets, make no difference to a run |
| EndToEnd.TextToRecord | state/quantum_state.hpp:60-66 | a program printed, parsed and run from the beginning records what the state vector simulation of it records |
| Utility.RoundsUp | utility.hpp:10-25 | rounding up gives the least multiple that is not below the number |
| Buffers.ManagedContainer.constructor | managed_container.hpp:16-42 | an empty container on the stack whose capacity is the word size rounded up |
| Buffers.ManagedContainer.Moved | managed_container.hpp:52-61 | a move loses nothing although it copies only stackCapacity bytes, and empties the other container |
| Buffers.ManagedContainer.MoveFrom | managed_container.hpp:71-82 | the same for assignment; assigning a container to itself empties it |
| Buffers.ManagedContainer.Add | managed_container.hpp:135-175 | the contents grow by the new bytes, in place or on a new heap block, and never exceed the capacity |
| Buffers.ManagedContainer.Trim | managed_container.hpp:184-192 | the last items are dropped |
| Buffers.DecodeEncoded | managed_container.hpp:108-116 | the heap capacity kept in the stack bytes is read back as it was written |
| Buffers.StringBuffer.FromString | string_buffer.hpp:60-65 | the string with its terminator, or nothing for a null pointer |
| Buffers.StringBuffer.FromData | string_buffer.hpp:74-77 | exactly the data |
| Buffers.StringBuffer.Append | string_buffer.hpp:109-114 | the text that was there, without its last byte if that is a terminator and whole otherwise, then the string, then a terminator |
| Buffers.AppendedIsJoined | string_buffer.hpp:103-114 | repeated += on any buffer leaves the text that was there and everything appended, with one terminator |
| Actions.ShiftedWord | actions.cpp:53-70 | the shifted word is zero exactly if all later attributes are, and its low byte is the attribute of the slot |
| Actions.RegisteredCalls.RegisterCall | actions.cpp:8-41 | the call goes into the first slot that looks free, behind the others, unless there is none or the name is empty or too long, in that order; only three bits of the parameter count are kept; a call whose name begins with a zero byte gives way to the next one |
| Actions.RegisteredCalls.FindCall | actions.cpp:43-81 | the packed scan with its early exit calls the first entry that a linear search for the request, as its byte of attributes shows it, finds, and none if there is none |
| Actions.RegisterAll | actions.cpp:8-41 | registering calls one after the other leaves the registry with them, in order, as many as there is room for |
| Actions.FindAmong | actions.cpp:43-81 | of any calls that were registered, the first with the request's name and its number of parameters is found, and none exactly if there is none |
| Actions.PackedIsLinear | net/request.hpp:120-131 | that is the first entry with the request's own name and parameter count, in every registry, for exactly these requests: names under 32 bytes with at most 7 parameters, and names cut down to what no call is named |

## Left out

- ChpStates.ChpState.RunProgram: operands must address existing qubits and a CNOT two
  different ones, as the source presumes; allocation failure is not modelled.
- ChpStates.ChpState.Init: a second init starts over; the arrays it replaces are garbage
  collected, so the leak of the source is not visible.
- ChpStates.ChpState.Seed: needs at least one qubit, since the loop counts an unsigned
  index down from 2n - 1; machine overflow of 2n + 1 is not modelled.
- ChpStates.ChpState.Measure: the random bit is a parameter; the generator appears only
  as a lock.
- Words.PtBits: a 64-bit word is the sequence of its bits, not a machine integer.
- Projections.FairOutcomes: amplitudes are unnormalised; weights are compared, not
  probabilities computed.
- Guarantees.EraseIsSafe: erasing a key that is absent dereferences the end iterator in
  the source; in the model it marks the state faulty and nothing is claimed of it.
- Progress.NoDeadlock: spinning threads do not starve anyone in the model; fairness of the
  mutexes is not modelled.
- Numerals.ReadNumeral: characters above 127, which the source reads as negative, have
  their code as value.
- Assembler.ParseProgram: what lies behind the end of a text is not modelled; a text that
  would be read there is an error.
- Buffers.ManagedContainer.Trim: trimming more than there is, which the source checks only
  with SABOT_THROW, is excluded.
- Buffers.ManagedContainer.Add: sizes near 2^64 are excluded, and items that the container
  owns are not deleted.
- Macros and kernels beyond their containers: the instruction does nothing yet.
- The network layer, JSON requests and responses, command line and signals.
- The random number engine and its floating point distributions.
- Factories and static self-registration of dialects, states and actions.
