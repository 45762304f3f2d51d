# comp-arch-lab3 in Dafny: the accumulator machine and its assembler

This project models the core of comp-arch-lab3, a simulator for an
accumulator machine plus the assembler that feeds it.

**The simulator** (`pkg/machine`) has three parts:

- A data path: seven registers (AC, IP, CR, PS, SP, DR, AR), a memory of
  integer cells, and an ALU.
- A control unit. It runs each instruction as a sequence of ticks:
  instruction fetch, operand fetch, then execution by opcode class.
- `RunSimulation`. It starts the control unit at the program's start address
  and reports how the run ended.

**The assembler** (`pkg/translator`) turns source text into a program. It
splits the text into lines, parses each line into cells (an instruction, or
a `word:` constant that may span several cells), numbers the cells, resolves
label operands to addresses, and finds the cell labelled `start`.

**The earlier ALU** under `cmd/machine` is modelled too, together with its
data path. It has a two's-complement `wrapOverflow` helper and flags held as
bits of an int.

Go's behaviour is modelled explicitly throughout:

- A Go panic (index out of range, a nil map entry, a zero divisor, an
  explicit `panic`) is a value of the model: `Panicked`, `Panic`,
  `AluPanic` or `IndexOutOfRange`. It is never a precondition.
- Go's truncating `/` and `%` and its bitwise operators on negative numbers
  are written out in module `Bits`.
- The strings and strconv functions the assembler calls are written out in
  module `GoStrings`.

**How the proofs are organised.** Each state-changing routine is a method of
a class proved against a function of the state:

- `ControlUnit` methods against the `CycleSpec` functions on a `Cpu` value.
- `AsmTranslator` methods against the `TranslatorSpec` functions.

The properties the code promises are lemmas about those functions
(`CycleProperties`, `TranslatorProperties`, `Machine`, `Alu`, `Legacy`).

**A tick is modelled exactly as `doInOneTick` runs it.** Every latched value
is computed by the caller before the tick, from the registers as they were.
The operations then run in order. The trace then reads `mem[AR]`, which
panics when AR is outside memory. Finally the tick counter advances.

Some of the code's behaviour differs from what its names and comments
suggest; the model follows the code:

- SP starts at 0, like every other register.
- Registers hold plain integers; nothing brings them into the word range.
- Memory starts as zeros. The instructions are read from the program
  itself, and nothing copies them into memory.
- The ALU keeps its flags to itself and never writes them to PS.
  `GetFlags` decodes PS with `& 0x2 == 1` and `& 0x4 == 1`, which never
  hold. So NEGATIVE and CARRY always read false, and only EI and DI change
  PS.
  - As a result JNC and JNNEG always jump, and every other branch never
    jumps (`CycleProperties.BranchTable`).
  - `IsInterruptRequired` is always false.
- A taken branch latches AR into IP. After the fetch, AR holds the address
  the branch itself came from; the branch's operand is never used.
- PUSH and POP are not symmetric. POP never writes AC, and `popFromStack`
  reads back the cell below the one `pushOnStack` wrote
  (`CycleProperties.StackHelpersBalance`).
- Multiplication, AND, OR, INC and DEC have no entry in the opcode table,
  so they panic in the ALU.
- The control unit has no limit on instructions or ticks. The loop ends only
  past the last instruction, on a ControlUnitError, or on a panic.

## Model

| member | source | states |
|---|---|---|
| `Isa.GetOpcodeFromString` | pkg/translator/translator.go:275-278 | a mnemonic that is found names an opcode whose mnemonic it is |
| `Isa.FindMnemonic` | pkg/translator/translator.go:275-278 | the search over a list of opcodes finds one whose mnemonic matches, or proves that none in the list has it |
| `Isa.MnemonicRoundTrip` | pkg/translator/translator.go:275 | looking up the mnemonic of any opcode gives that opcode back |
| `Isa.UnknownMnemonic` | pkg/translator/translator.go:275-278 | a failed lookup means no opcode has that mnemonic |
| `Isa.MnemonicInjective` | pkg/translator/translator.go:275 | no two opcodes share a mnemonic |
| `Alu.OpcodeTableEntries` | pkg/machine/alu.go:20-28 | exactly ADD, SUB, CMP, CLA and MOD are mapped: ADD to add, SUB and CMP to sub, CLA to takeRight, MOD to mod; any other opcode reads as the zero operation |
| `Alu.BinaryOperationFails` | pkg/machine/alu.go:65-77 | an operation fails exactly when NewAlu registers no function for it or it is a remainder by zero |
| `Alu.ModSign` | pkg/machine/alu.go:49-51 | Go's remainder satisfies left == q * right + r, with r taking the sign of left and smaller than the divisor |
| `Alu.BitwiseOperations` | pkg/machine/alu.go:53-59 | or and and act bit by bit, negative operands included |
| `Alu.ExecutionParams.SetLeft` | pkg/machine/alu.go:103-106 | only the left word changes |
| `Alu.ExecutionParams.SetLeftValue` | pkg/machine/alu.go:108-111 | the left word becomes the number n; nothing else changes |
| `Alu.ExecutionParams.SetRight` | pkg/machine/alu.go:113-116 | only the right word changes |
| `Alu.ExecutionParams.SetRightValue` | pkg/machine/alu.go:118-121 | the right word becomes the number n; nothing else changes |
| `Alu.ExecutionParams.UpdateFlags` | pkg/machine/alu.go:123-126 | only the update-flags switch changes |
| `Alu.NewAluOp` | pkg/machine/alu.go:94-101 | both operands are the number 0 and flags are not updated |
| `Alu.ExecuteKeepsLeftWord` | pkg/machine/alu.go:132-134 | the result is the left operand's word with only its value replaced by the raw output |
| `Alu.ExecuteDoesNotWrap` | pkg/machine/alu.go:132-138 | an illustration on one input: adding 1 to the largest word gives a value past the range, and the carry flag records it (the general fact follows from ExecuteKeepsLeftWord and ExecuteSetsFlags) |
| `Alu.ExecuteSetsFlags` | pkg/machine/alu.go:81-85 | an updating call sets zero, negative and carry from the raw output |
| `Alu.ExecuteKeepsFlags` | pkg/machine/alu.go:135-138 | a call that does not update flags returns the flags of the last updating call |
| `Alu.ExecutePanics` | pkg/machine/alu.go:129-131 | Execute panics exactly for the zero operation or a remainder by zero |
| `Alu.UnmappedOpcodePanics` | pkg/machine/alu.go:21-27 | an opcode missing from the table makes Execute panic with "unknown operation" |
| `Alu.Alu.constructor` | pkg/machine/alu.go:65-77 | a new ALU has all flags clear |
| `Alu.Alu.SetFlags` | pkg/machine/alu.go:81-85 | carry iff out of the word range, zero iff 0, negative iff below 0 |
| `Alu.Alu.Execute` | pkg/machine/alu.go:128-139 | the result is the ALU function of its parameters and the old flags; the ALU keeps the flags it returns; a panic leaves them |
| `Datapath.FlagsOf` | pkg/machine/datapath.go:109-115 | ZERO is bit 0 of PS; NEGATIVE and CARRY never read true |
| `Datapath.InterruptRequired` | pkg/machine/datapath.go:117-120 | an interrupt is never required, whatever PS holds |
| `Datapath.ReadCell` | pkg/machine/datapath.go:134-136 | a read succeeds exactly inside memory and gives the cell |
| `Datapath.DataPath.constructor` | pkg/machine/datapath.go:95-107 | all seven registers are 0, memory has AddrMaxValue + 1 zero cells, the ALU flags are clear |
| `Datapath.DataPath.SigLatchRegister` | pkg/machine/datapath.go:126-128 | one register takes the value; no other changes |
| `Datapath.DataPath.ReadMemory` | pkg/machine/datapath.go:134-136 | the cell at an address inside memory, a panic outside |
| `Datapath.DataPath.WriteMemory` | pkg/machine/datapath.go:138-140 | mem[AR] := DR and nothing else; an AR outside memory panics and changes nothing |
| `CycleSpec.ApplyOps` | pkg/machine/controlunit.go:283-286 | the operations of one tick keep the tick count and memory size and never stop the cycle |
| `CycleSpec.ApplyOpsPanicStays` | pkg/machine/controlunit.go:284-286 | after a panicking operation the rest of the tick has no effect |
| `CycleSpec.Tick` | pkg/machine/controlunit.go:283-300 | a tick that does not panic counts exactly one and leaves AR inside memory |
| `CycleSpec.HelperParamValues` | pkg/machine/controlunit.go:260-271 | the increment, decrement and passthrough parameter sets compute v + 1, v - 1 and v |
| `CycleSpec.AddresslessSpec` | pkg/machine/controlunit.go:201-246 | only HLT and IRET stop the cycle, with "Halt" and "Interrupt return" |
| `CycleSpec.AluAddresslessSpec` | pkg/machine/controlunit.go:240-243 | the ALU default of the addressless switch latches AC op AC into AC or panics, and never stops the cycle |
| `CycleSpec.RunFromDecoded` | pkg/machine/controlunit.go:84-96 | after one instruction, the run goes on from the new state at the next counter, or ends there with the instruction's error |
| `CycleProperties.TickOne` | pkg/machine/controlunit.go:58-62 | a one-latch tick sets that register and counts one, or panics when AR is outside memory |
| `CycleProperties.TickTwo` | pkg/machine/controlunit.go:283-291 | a two-latch tick applies both latches, the second last |
| `CycleProperties.TickNone` | pkg/machine/controlunit.go:204 | an empty tick only counts |
| `CycleProperties.TickWrite` | pkg/machine/controlunit.go:64-68 | a write tick stores DR at AR |
| `CycleProperties.FetchEffect` | pkg/machine/controlunit.go:160-165 | fetch: AR := IP, IP := IP + 1 with DR := mem[IP], CR := DR, in three ticks; it panics exactly when IP is not an address |
| `CycleProperties.OperandFetchEffect` | pkg/machine/controlunit.go:174-179 | operand fetch: AR := DR, DR := mem[AR], in two ticks; it panics when DR is not an address |
| `CycleProperties.LoadEffect` | pkg/machine/controlunit.go:188-189 | LD: AC becomes the cell at the operand address |
| `CycleProperties.StoreEffect` | pkg/machine/controlunit.go:190-192 | ST: AC is written to the operand address |
| `CycleProperties.ArithmeticEffect` | pkg/machine/controlunit.go:194-196 | other address opcodes: AC := op(AC, operand cell) through the table, or the table's panic |
| `CycleProperties.ArithmeticTable` | pkg/machine/controlunit.go:273-276 | MUL, AND and OR have no table entry and panic |
| `CycleProperties.HaltAndIret` | pkg/machine/controlunit.go:203-208 | HLT and IRET take one tick and stop with "Halt" or "Interrupt return" |
| `CycleProperties.NopEffect` | pkg/machine/controlunit.go:238-239 | NOP only takes one tick |
| `CycleProperties.ClaEffect` | pkg/machine/controlunit.go:235-237 | CLA computes takeRight(AC, AC), so AC keeps its value |
| `CycleProperties.EiTick` | pkg/machine/controlunit.go:231-232 | EI is one tick that latches PS OR (1 << 4) into PS |
| `CycleProperties.DiTick` | pkg/machine/controlunit.go:233-234 | DI is one tick that latches PS & ^(1 << 4) into PS |
| `CycleProperties.UnmappedAddresslessPanics` | pkg/machine/controlunit.go:240-243 | INC and DEC panic with "unknown operation" |
| `CycleProperties.EiEffect` | pkg/machine/controlunit.go:231-232 | EI sets bit 4 of PS and keeps every other bit and register |
| `CycleProperties.DiEffect` | pkg/machine/controlunit.go:233-234 | DI clears bit 4 of PS and keeps every other bit and register |
| `CycleProperties.PushEffect` | pkg/machine/controlunit.go:209-220 | PUSH writes AC at SP and decrements SP in three ticks, or panics when SP is not an address |
| `CycleProperties.PopEffect` | pkg/machine/controlunit.go:221-229 | POP increments SP; DR receives the cell at the previous AR; AC is never written |
| `CycleProperties.PushThenPop` | pkg/machine/controlunit.go:209-229 | PUSH then POP, for any SP inside memory: SP is restored, AC keeps its value, and the pushed value stays in the cell SP named |
| `CycleProperties.PushOnStackEffect` | pkg/machine/controlunit.go:139-146 | pushOnStack writes the register at SP and decrements SP, in three ticks |
| `CycleProperties.PopFromStackEffect` | pkg/machine/controlunit.go:148-158 | popFromStack increments SP, and the target receives the cell at the old SP |
| `CycleProperties.StackHelpersBalance` | pkg/machine/controlunit.go:139-158 | push then pop restores SP, but the value read back is mem[SP - 1], not the pushed register |
| `CycleProperties.BranchTable` | pkg/machine/controlunit.go:248-252 | with flags decoded from PS, JNC and JNNEG always jump and every other branch never does |
| `CycleProperties.BranchEffect` | pkg/machine/controlunit.go:248-258 | a branch whose condition holds sets IP := AR in one tick; otherwise nothing happens |
| `CycleProperties.IoInstruction` | pkg/machine/controlunit.go:107-115 | an IO-class instruction costs the fetch and nothing more |
| `CycleProperties.DecodeOutsideProgram` | pkg/machine/controlunit.go:103 | an IP outside the program panics with an index error |
| `CycleProperties.PushInstruction` | pkg/machine/controlunit.go:102-116 | a whole PUSH: six ticks, AC stored at SP, SP decremented, IP advanced |
| `CycleProperties.PopInstruction` | pkg/machine/controlunit.go:221-229 | a whole POP: five ticks, SP incremented, AC untouched, IP advanced, DR holds the instruction's own cell |
| `CycleProperties.PushPopInstructions` | pkg/machine/controlunit.go:102-116 | a PUSH instruction then a POP instruction, each with its fetch: SP and AC restored, IP past both, the pushed AC left in the cell SP named, DR holding the POP's own cell, eleven ticks |
| `CycleProperties.DecodeStopped` | pkg/machine/controlunit.go:201-208 | only HLT and IRET end an instruction with a control unit error |
| `CycleProperties.DecodeTicks` | pkg/machine/controlunit.go:160-165 | an instruction that ends normally costs at least three ticks and keeps the memory size |
| `CycleProperties.RunOutcome` | pkg/machine/controlunit.go:82-100 | a run stops with an error only from HLT or IRET; a normal end took at least three ticks for every remaining index (a lower bound on ticks, not a count of instructions) |
| `Control.ControlUnit.constructor` | pkg/machine/controlunit.go:52-54 | both counters start at 0 |
| `Control.ControlUnit.Tick` | pkg/machine/controlunit.go:293-295 | the tick counter goes up by one |
| `Control.ControlUnit.Calculate` | pkg/machine/controlunit.go:78-80 | the ALU's result for the parameters; flags are kept unless the call updates them |
| `Control.ControlUnit.DoInOneTick` | pkg/machine/controlunit.go:283-291 | the new state is CycleSpec.Tick of the old one |
| `Control.ControlUnit.InstructionFetch` | pkg/machine/controlunit.go:160-165 | the new state is FetchSpec of the old one |
| `Control.ControlUnit.OperandFetch` | pkg/machine/controlunit.go:174-179 | the new state is OperandFetchSpec of the old one |
| `Control.ControlUnit.DecodeAndExecuteAddressInstruction` | pkg/machine/controlunit.go:182-199 | the new state is AddressSpec of the old one |
| `Control.ControlUnit.ExecutePush` | pkg/machine/controlunit.go:209-220 | the new state is PushSpec of the old one |
| `Control.ControlUnit.ExecutePop` | pkg/machine/controlunit.go:221-229 | the new state is PopSpec of the old one |
| `Control.ControlUnit.DecodeAndExecuteAddresslessInstruction` | pkg/machine/controlunit.go:201-246 | the new state is AddresslessSpec of the old one |
| `Control.ControlUnit.ExecuteAluAddressless` | pkg/machine/controlunit.go:240-243 | the new state is AluAddresslessSpec of the old one, and the ALU flags are kept |
| `Control.ControlUnit.DecodeAndExecuteBranchInstruction` | pkg/machine/controlunit.go:248-258 | the new state is BranchSpec of the old one |
| `Control.ControlUnit.DecodeAndExecuteInstruction` | pkg/machine/controlunit.go:102-116 | the new state is DecodeSpec of the old one |
| `Control.ControlUnit.ExecuteNext` | pkg/machine/controlunit.go:85-88 | the run from the old state at the counter equals the run from the new state at the next counter, or ends here with the returned error |
| `Control.ControlUnit.RunNext` | pkg/machine/controlunit.go:85-96 | one pass of the loop: the same relation, with the counter advanced by one when the pass goes on |
| `Control.ControlUnit.RunLoop` | pkg/machine/controlunit.go:84-99 | the final state and error are the run from the old state at the old counter; a normal end leaves the counter at exactly the larger of its old value and the program length, so the loop made one pass per remaining index |
| `Control.ControlUnit.PushOnStack` | pkg/machine/controlunit.go:139-146 | the new state is PushOnStackSpec of the old one |
| `Control.ControlUnit.PopFromStack` | pkg/machine/controlunit.go:148-158 | the new state is PopFromStackSpec of the old one |
| `Control.ControlUnit.PresetInstructionCounter` | pkg/machine/controlunit.go:278-281 | IP and the instruction counter both take the value |
| `Control.ControlUnit.RunInstructionCycle` | pkg/machine/controlunit.go:82-100 | the new state is RunSpec of the old one; a normal end leaves the counter at exactly the larger of the start address and the program length: one pass per instruction from the start address on |
| `Machine.Classify` | pkg/machine/machine.go:39-48 | a control unit error is a normal finish; no error at all is "simulation should finish with HLT"; a panic crashes |
| `Machine.RunSimulation` | pkg/machine/machine.go:31-49 | the outcome is that of running a fresh machine from the start address |
| `Machine.FinishedMeansHalted` | pkg/machine/machine.go:38-48 | a finished simulation executed HLT or IRET |
| `Machine.StartPastEndFails` | pkg/machine/machine.go:38-42 | a start address past the last instruction reports "simulation should finish with HLT" |
| `Machine.HaltFirstFinishes` | pkg/machine/machine.go:38-48 | a program whose start instruction is HLT finishes |
| `GoStrings.Split` | pkg/translator/translator.go:138 | at least one piece, none holding the separator |
| `GoStrings.JoinSplit` | pkg/translator/translator.go:138 | joining the pieces with the separator gives the text back |
| `GoStrings.SplitJoin` | pkg/translator/translator.go:138 | splitting a join of separator-free pieces gives the pieces back |
| `GoStrings.SplitHead` | pkg/translator/translator.go:140 | the first piece is the text before the first separator |
| `GoStrings.TrimLeft` | pkg/translator/translator.go:141 | a suffix of the text, everything cut being white space and the first kept character not |
| `GoStrings.TrimRight` | pkg/translator/translator.go:141 | a prefix of the text, everything cut being white space and the last kept character not |
| `GoStrings.TrimIdempotent` | pkg/translator/translator.go:141 | trimming twice is trimming once |
| `GoStrings.Fields` | pkg/translator/translator.go:153 | every field is non-empty and holds no white space |
| `GoStrings.FieldsJoin` | pkg/translator/translator.go:153 | splitting a space-joined list of fields gives the fields back |
| `GoStrings.BlankHasNoFields` | pkg/translator/translator.go:155-157 | an all-white-space line has no fields |
| `GoStrings.Atoi` | pkg/translator/translator.go:232 | a parsed number is a 64-bit int written as optional sign and digits |
| `GoStrings.AtoiOfNumber` | pkg/translator/translator.go:193-194 | a sign-and-digits text fails to parse exactly when its value is outside 64 bits |
| `GoStrings.AtoiItoa` | pkg/translator/translator.go:232 | parsing the decimal form of a 64-bit int gives the int back |
| `AsmUtils.HasLabel` | pkg/translator/asm_utils.go:10-12 | true iff the first field ends with ':' |
| `AsmUtils.IsConstantDeclaration` | pkg/translator/asm_utils.go:6-8 | a labelled first field with no second field is an index panic; otherwise true iff labelled and the second field is "word:" |
| `AsmUtils.AddIndices` | pkg/translator/asm_utils.go:14-19 | the cells come back unchanged, because the loop updates a copy |
| `TranslatorSpec.FindLabel` | pkg/translator/translator.go:253-260 | the index of the first cell carrying the label; none iff no cell carries it |
| `TranslatorSpec.IndexOfStart` | pkg/translator/translator.go:320-322 | the position of the first term labelled "start", or -1 iff there is none |
| `TranslatorSpec.AddStartAddress` | pkg/translator/translator.go:319-332 | the program keeps the terms and starts at the index of the first "start" term; the error is "start label not found" iff there is none |
| `TranslatorSpec.LinesTermsStop` | pkg/translator/translator.go:142-145 | once a line fails, later lines change nothing |
| `TranslatorSpec.ConvertStop` | pkg/translator/translator.go:270-278 | once a cell fails to convert, later cells change nothing |
| `TranslatorSpec.ConvertSpec` | pkg/translator/translator.go:262-295 | a successful conversion of n cells has n terms |
| `Translator.ParseConstString` | pkg/translator/translator.go:220-229 | computes ConstStringSpec: one cell per character, the label on the first, a 0 terminator, an index panic for an empty string |
| `Translator.ParseConstantDeclaration` | pkg/translator/translator.go:181-198 | computes ConstantDeclarationSpec: a quoted string, a number or a label reference; a missing argument panics |
| `Translator.AsmTranslator.constructor` | pkg/translator/translator.go:85-88 | no cells and the next index 0 |
| `Translator.AsmTranslator.AddInstruction` | pkg/translator/translator.go:247-251 | the cell is appended with the next index, and the next index grows by one |
| `Translator.AsmTranslator.AddCells` | pkg/translator/translator.go:168-171 | the constant's cells are appended in order, each with the line's meta information and the next index |
| `Translator.AsmTranslator.ParseLine` | pkg/translator/translator.go:151-179 | the line's cells are appended and its status returned; on an error or a panic nothing is appended |
| `Translator.AsmTranslator.ParseDeclaration` | pkg/translator/translator.go:163-176 | the same for a non-blank line: a constant's cells or the instruction's one cell |
| `Translator.AsmTranslator.ParseConstantLine` | pkg/translator/translator.go:163-171 | a constant's cells, or its error wrapped into a ParseError at the line |
| `Translator.AsmTranslator.ParseNextLine` | pkg/translator/translator.go:140-145 | one loop pass: the parse of one more line, the comment cut and the text trimmed |
| `Translator.AsmTranslator.ParseInstructions` | pkg/translator/translator.go:137-149 | the cells of every line up to the first failure are appended, numbered on from the existing ones; the status is that failure or success |
| `Translator.AsmTranslator.LabelToAddress` | pkg/translator/translator.go:253-260 | the index of the first cell carrying the label, or "label '…' not found" iff none does |
| `Translator.AsmTranslator.InferOperand` | pkg/translator/translator.go:297-317 | no operand, the literal operand, or the resolved label; an empty label operand panics |
| `Translator.AsmTranslator.ConvertTermsToMachineCode` | pkg/translator/translator.go:262-295 | computes ConvertSpec: one term per cell, stopping at the first failure |
| `Translator.AsmTranslator.Renumber` | pkg/translator/translator.go:129 | renumbering leaves the cells as they are |
| `Translator.AsmTranslator.Assemble` | pkg/translator/translator.go:130-134 | conversion and the start search; any error comes with the empty program |
| `Translator.AsmTranslator.Translate` | pkg/translator/translator.go:125-135 | the program or error of TranslateSpec, with the parsed cells appended to those held before |
| `TranslatorProperties.TrimSpaceOfField` | pkg/translator/translator.go:188 | trimming a field changes nothing |
| `TranslatorProperties.ConstantCellsNameLabels` | pkg/translator/translator.go:187-197 | a constant that refers to a label names a non-empty one |
| `TranslatorProperties.LineCellsNameLabels` | pkg/translator/translator.go:200-218 | every parsed cell that refers to a label names a non-empty one |
| `TranslatorProperties.DeclarationNamesLabels` | pkg/translator/translator.go:163-176 | every cell of a constant or instruction line that refers to a label names a non-empty one |
| `TranslatorProperties.ParsedCellsNameLabels` | pkg/translator/translator.go:137-149 | the same for every cell of a whole parse |
| `TranslatorProperties.TermShape` | pkg/translator/translator.go:262-317 | a converted term keeps index, meta information and label, takes the named opcode and an operand chosen by value type; a failure iff unknown mnemonic or missing label; a panic iff an empty label operand |
| `TranslatorProperties.ConvertTerms` | pkg/translator/translator.go:264-293 | a successful conversion has one term per cell, each the conversion of its cell |
| `TranslatorProperties.ConvertTermAt` | pkg/translator/translator.go:264-293 | the k-th term of a successful conversion is the conversion of the k-th cell |
| `TranslatorProperties.ConvertShape` | pkg/translator/translator.go:262-295 | every term of a successful conversion is converted from its cell as described |
| `TranslatorProperties.ConvertNeverPanics` | pkg/translator/translator.go:307-311 | cells whose label operands are non-empty never panic in conversion |
| `TranslatorProperties.TranslatePanicsOnlyWhileParsing` | pkg/translator/translator.go:125-135 | Translate panics iff parsing panicked: the "label operand is empty" panic is unreachable |
| `TranslatorProperties.AssembleStart` | pkg/translator/translator.go:319-332 | for cells numbered by position: one term per cell, no Address operand left, and the start is the first "start" cell |
| `TranslatorProperties.FirstStartIndexed` | pkg/translator/translator.go:247-251 | numbering cells does not move the first "start" label |
| `TranslatorProperties.FreshAssembleStart` | pkg/translator/translator.go:126-134 | AssembleStart for a fresh translator's cells |
| `TranslatorProperties.TranslateStart` | pkg/translator/translator.go:125-135 | a fresh translator's program has one term per parsed cell, no Address operand, and starts at the position of the first "start" cell |
| `TranslatorProperties.FirstFailureStops` | pkg/translator/translator.go:139-145 | the first line that fails decides the status, and the cells before it are kept |
| `TranslatorProperties.ReservedWordStops` | pkg/translator/translator.go:159-161 | a line starting with "word:" stops the parse with a ParseError at line 0 |
| `TranslatorProperties.ConstStringLayout` | pkg/translator/translator.go:220-229 | a string constant has one Char cell per character, the label on the first only, and a 0 terminator; nothing between the quotes panics |
| `Legacy.WrapOverflow` | cmd/machine/datapath/alu.go:66-71 | the identity inside the range; from Min up the congruent word; below Min at most Min, and equal to Min iff the shifted value is a multiple of the span (the same code is at cmd/machine/datapath.go:136-141) |
| `Legacy.WrapMaxPlusOne` | cmd/machine/datapath/alu.go:67-68 | Max + 1 wraps to Min |
| `Legacy.WrapIdempotentAbove` | cmd/machine/datapath.go:136-139 | from Min up, wrapping twice is wrapping once |
| `Legacy.WrapMinMinusOne` | cmd/machine/datapath/alu.go:67-68 | Min - 1 is returned unchanged, still outside the range |
| `Legacy.WrapOverflowFixed` | cmd/machine/datapath.go:137-138 | always in range, congruent to the value, the identity inside the range |
| `Legacy.WrapFixedProperties` | cmd/machine/datapath.go:136-141 | the corrected wrap is idempotent, agrees with the written one from Min up, and sends Min - 1 to Max |
| `Legacy.UniqueWord` | cmd/machine/datapath/alu.go:68 | two congruent words are equal |
| `Legacy.ApplyPanics` | cmd/machine/datapath/alu.go:97-101 | an operation panics iff its code is outside the table or it divides by zero; an unknown code panics with "unknown operation" |
| `Legacy.DivModTruncate` | cmd/machine/datapath/alu.go:36-42 | div truncates and mod keeps the dividend's sign, with left == q * right + r |
| `Legacy.SetBitValue` | cmd/machine/datapath/alu.go:84-90 | exactly the named bit takes the value |
| `Legacy.FlagsAfter` | cmd/machine/datapath/alu.go:92-95 | ZERO iff the output is 0, NEGATIVE iff it is below 0, other bits kept |
| `Legacy.LegacyAlu.constructor` | cmd/machine/datapath/alu.go:52-64 | no flag bit set |
| `Legacy.LegacyAlu.SetBit` | cmd/machine/datapath.go:154-160 | the named bit takes the value; every other bit is kept |
| `Legacy.LegacyAlu.SetFlags` | cmd/machine/datapath.go:162-165 | the flags become FlagsAfter of the old flags |
| `Legacy.LegacyAlu.Execute` | cmd/machine/datapath/alu.go:97-105 | returns the raw, unwrapped output and refreshes ZERO and NEGATIVE from it; a panic leaves the flags (the same code is at cmd/machine/datapath.go:167-175) |
| `Legacy.LegacyDataPath.constructor` | cmd/machine/datapath.go:63-65 | only the input is set; registers are 0 and memory is empty |
| `Legacy.LegacyDataPath.SignalLatchAccumulator` | cmd/machine/datapath.go:71-73 | AC := mem[IP] and nothing else; an IP outside memory, as in every fresh data path, is an index panic that changes nothing |

## Left out

- **Trace and console output.** The text of `dumpState`, `dumpInstructionEnd`, `formatFlags`, `formatCurrentInstruction`, the log lines and "Program finished" are not modelled, and neither is a failing write to the trace output. The `mem[AR]` read that `dumpState` makes after every tick is kept, because it can panic.
- **Input and output buffers.** They are not modelled for the pkg/machine data path, and no instruction reads or writes them. The earlier data path holds them as byte sequences that nothing changes.
- **`processInterrupt`.** It is only reached while `IsInterruptRequired` is true, which never happens (`Datapath.InterruptRequired`).
- **`AddressFetch`.** It is never called.
- **The clock argument.** pkg/machine/machine.go calls `NewDataPath` and `NewControlUnit` with different arguments (a clock, an output writer) than the constructors in datapath.go and controlunit.go take. The model builds both the way those files define them.
- **The isa package.** It is not part of this model: the shown pkg/isa/isa.go does not define opcodes, words or programs. So these are chosen here:
  - the opcodes and their mnemonics;
  - the opcode classes: Address is LD to CMP, Addressless is NOP to DI, Branch is the jumps, IO is IN and OUT;
  - WordMaxValue = 2^31 - 1, WordMinValue = -2^31 and AddrMaxValue = 2047;
  - the error text of an unknown mnemonic.
- **Helpers that are not shown.** `isNumber` is taken to accept exactly the syntax `strconv.Atoi` accepts. `wrapInSlice` is taken to wrap the one cell in a slice and pass the error along.
- **Byte-level strings.** Go strings are bytes, and `range` over a string, `strings.Fields` and `strings.TrimSpace` decode them as UTF-8, reading each invalid byte as U+FFFD. Here a string is a sequence of characters, so the source text is taken to be valid UTF-8.
- **Error text formatting.** `ParseError.Error()` formatting is not modelled; a ParseError is kept as its three fields.
- **`ExecutionParams` setters.** They are modelled as value updates, because every caller dereferences the result at once.
- **Go's 64-bit int.** Arithmetic is unbounded, so wrap-around at 64 bits is not modelled. Go's bitwise operators are modelled on unbounded two's complement, which agrees on every 64-bit value.
- **RunSimulation's other-error branch.** The branch that returns an error other than a ControlUnitError cannot be reached, because RunInstructionCycle returns only nil or a ControlUnitError.
- **The translator's unknown-value-type panic.** The `default` panic of `inferOperand` cannot be reached, because the value-type enumeration is closed.
- **`getBit` in cmd/machine.** As written it does not compile (an int used as a bool). It is read as "the bit is set", and `Legacy.LegacyAlu.GetBit` has no contract of its own.

## Findings

| source | as written | input that shows it | evidently intended | confidence | as-written member | corrected member |
|---|---|---|---|---|---|---|
| cmd/machine/datapath/alu.go:66-71 (and cmd/machine/datapath.go:136-141) | `wrapOverflow` reduces with Go's `%`, which keeps the sign of the dividend, so a value below WORD_MIN_VALUE is not brought into range | value = WORD_MIN_VALUE - 1 comes back as itself | the two's-complement word congruent to the value, for values on both sides of the range | high (not executed) | `Legacy.WrapMinMinusOne` | `Legacy.WrapOverflowFixed` |
