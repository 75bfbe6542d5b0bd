# kasm in Dafny

kasm compiles a small structured language to assembly, assembles it in one pass with backpatching, and runs
the image on a 32-bit register machine. This project models that toolchain from syntax trees to exit codes
and proves that the stages do what they are for, one by one and together.

The main results:

* **Compiler correctness** (`Correctness.RunExpr`, `Correctness.RunStmt`): wherever generated code is linked,
  running it on the machine does what the source run does, for expressions with pointers, assignments and
  nullary calls, and for nested `if`, `while` and `for`, with recursion up to the stack's 32 frames and 64
  pending operands.
* **One pass equals two** (`Assembler.Assembler.Assemble`): the assembler succeeds exactly when every literal
  and every name can be read, no label is defined twice and every used label is defined, and then every location of the
  image decodes to what a two-pass reference puts there, whatever the uninitialised bits of the
  instruction words and the placeholders held.
* **End to end** (`Toolchain.CompileAndRun`): compiling, assembling, loading and running a program stops with
  the exit code its source run returns, and the program is rejected exactly when a literal is too large, a name
  is declared twice, not at all, or is an instruction's or a generated label's. If the source run never ends,
  the machine never stops and nothing in it goes wrong (`EndlessRuns.EndlessProgram`).
* **Compound input** (`CompoundStream.CompoundInputFileStream.Run` with `CompoundStream.RunEdits`): for every
  list of operations pushing text is insertion at the cursor, and macro ends are announced in stack order,
  each once; positions stay contiguous exactly when every push comes at a character.
* **Macro labels** (`MacroRuns.ParserContext.Run` with `MacroRuns.LabelOfRun`): over any nesting of macro calls all
  labels stay distinct, and a label means its own definition in every call with as many arguments as parameters;
  for the other calls the exact condition is given.

## How it is laid out

| file | part |
|---|---|
| `Words`, `Isa`, `Machine` | words and bytes, instruction fields and forms, the machine as a transition function |
| `Assembly` | assembly lines, what each emits, and the two-pass reference assembler |
| `Names`, `Source`, `CodeGeneration` | label names, the source language and its meaning, the lines generated for each node |
| `Compiler` | the code generator as an object that appends lines and keeps its static counters |
| `BinaryBuilder`, `Backpatching`, `Assembler` | the output streams, the invariant of a half-finished assembly, the one-pass assembler |
| `Loading`, `VirtualMachine` | the file format and memory map, the machine as an object |
| `Execution`, `Frames`, `Fragments`, `Correctness` | running generated lines, memory discipline, cutting code in pieces, compiler correctness |
| `Linking`, `Declarations`, `EndToEnd`, `Naming`, `Toolchain` | from an image to a linked program, where variables live, the whole chain, which programs are accepted |
| `EndlessRuns` | source runs that never end |
| `InstructionLaws`, `MemoryLaws`, `DirectiveLaws`, `StatementLaws`, `SourceLaws` | what instructions, memory, directives, statements and the source language mean, said without the functions that define them |
| `Calls`, `PseudoInstructions`, `SpillBound`, `ZeroRegister`, `SelfModification` | results about the machine code by itself |
| `MacroLabels`, `MacroRuns` | what names mean in a macro body, fresh labels, runs of calls and labels |
| `CompoundInputFileStream` | the assembler's input |

Objects whose methods update fields are classes (`Compiler`, `BinaryBuilder`, `Assembler`, `Program`,
`VirtualMachine`, `ParserContext`, `FileData`, `MacroCalls`, `CompoundInputFileStream`); each method is tied to a
function of the old state, and the lemmas are about those functions. A step whose effect C++ leaves
undefined, or that throws, sets a `fault` flag in the transition function; the machine object reports it.
Uninitialised instruction bits are arbitrary values in the methods that emit.

## Where the documentation and the code differ

The code is followed.

* The README of the program writes `bgez`, `blez` and the like as comparisons with zero (lines 131-136). Registers
  are unsigned, so `bgez` and `bgezal` always branch, `bltz` never does, and `bltzal` skips an instruction; the
  four without a link are the signed comparisons exactly for registers below 2^31
  (`PseudoInstructions.AgainstZeroExact`). For `slt`, `blt` and the other orderings that README does not say which
  order it means; the code's is the unsigned one, which is the signed one exactly when both operands are on the
  same side of 2^31 (`PseudoInstructions.SignedExact`).
* That README calls `sra` a signed shift. The code fills with ones for either sign; it is a signed shift exactly
  for negative numbers, or by zero (`InstructionLaws.ArithmeticExact`).
* `bgtu` branches for equal registers as well, in that README's own expansion and in the code
  (`StatementLaws.RunBgtu`).
* That README ends `blt` in `beq` (line 186); the code ends it in `bne`, which is what the name says.
* That README has the code of a system call in `$a0` and EXIT's argument in `$a1`; the code takes them from `$v0`
  and `$a0`.
* `$zero` is documented as hard-wired. The register file lets it be written (`ZeroRegister.ZeroCanBeWritten`).
  Programs whose source run is defined never do (`ZeroRegister.DefinedRunsKeepZero`); an accepted program that
  stores through a bad pointer can (`SelfModification.ZeroIsLost`).
* A label in a macro body gets its name from the innermost call when its statement has been read, not from
  the call it stands in. The lexers' skip looks for the end of input right behind each character, so a
  labelled statement on the last line of a body finds its call gone (`MacroLabels.LabelOnLastLine`); the
  exact condition is `MacroLabels.OwnCall`.
* A macro call may have more or fewer arguments than the macro has parameters. Then a label of its body need not
  mean its own definition (`MacroLabels.WrongArguments`); `MacroLabels.LabelMeansItself` and
  `MacroRuns.LabelOfRun` say exactly when it does.
* The lexers look ahead by marking and going back. If the end of a macro call is announced in between, it is
  announced again later (`CompoundInputFileStream.LookAhead`: the macro calls are in order afterwards if and only
  if no end was passed).
* `&&` evaluates both operands. A `for` condition is generated twice, so a declaration in it is a
  redefinition.
* `beq` and `bne` with a literal compare with its low sixteen bits only
  (`PseudoInstructions.LiteralBranchExact` says when that is the literal).
* `.align X` goes to the least multiple of 2^X not below the cursor, not to the nearest one
  (`DirectiveLaws.Align`).
* The compiler prints literals unsigned and the assembler refuses 2^31 and above, so such a literal in a
  program is an assembly error (part of `Naming.WellNamed`). So is a variable or a function that is called like
  an instruction, in either case of letters, such as `b` or `J` (`Naming.WordRefused`).
* Pushing a string that is also the name of an included file pushes that file's contents
  (`CompoundStream.NameClash`; the exact condition is in `CompoundInputFileStream.PushString`).

## Model

| member | source | states |
|---|---|---|
| `Isa.EmitRRR` | src/assembler.yy:67-73 | the word decodes to the same opcode and registers, whatever its unset bits hold |
| `Isa.EmitRRL` | src/assembler.yy:75-81 | the word decodes to the opcode, two registers and the literal's low half; an RRR opcode reads its third register out of the literal |
| `Isa.EmitRR` | src/assembler.yy:94-99 | two-register emission decodes to its operands and keeps the fields a later patch relies on, for any junk |
| `Isa.EmitRL` | src/assembler.yy:101-106 | register and literal survive emission and decoding for any junk |
| `Isa.EmitR` | src/assembler.yy:118-122 | one-register emission decodes to its operand and keeps the fields a later patch relies on |
| `Isa.EmitO` | src/assembler.yy:133-136 | a bare opcode survives emission and decoding for any junk |
| `Isa.PatchBranch` | src/assembler_util.cpp:23-29 | filling the 16-bit distance keeps opcode and registers, and the word decodes to the distance cut to sixteen bits and sign-extended |
| `Isa.PatchIndirect` | src/assembler_util.cpp:30-43 | filling base register and distance keeps opcode and first register; the word decodes to both |
| `Isa.PatchJump` | src/assembler_util.cpp:16-22 | filling the absolute address keeps the opcode; the word decodes to the address modulo 2^26 |
| `InstructionLaws.FieldsOf` | src/common.hpp:18-38 | a word is its opcode times 2^26, its registers times 2^21, 2^16 and 2^11, and the rest; the immediate is the lower half, the absolute address the lower 26 bits |
| `InstructionLaws.EncodesRegisters` | src/assembler.yy:67-73 | an emitted three-register word, as a number; `add` has opcode 0, as its documented encoding says |
| `InstructionLaws.EncodesImmediate` | src/assembler.yy:75-81 | an emitted word with an immediate, as a number; `addi` has opcode 1 |
| `InstructionLaws.NumberIsPosition` | src/common.hpp:63-115 | every opcode's number is its place in the enumeration |
| `Machine.WriteThenRead` | src/virtualMachine.hpp:70-90 | a written word reads back, a word that shares no byte with it does not change, and no buffer is resized |
| `Machine.RunForSum` | src/virtualMachine.cpp:40-47 | a run is the run of its first part followed by the run of the rest |
| `Machine.HaltedStays` | src/virtualMachine.cpp:42 | once the loop condition fails, further turns change nothing |
| `InstructionLaws.StopsBehindText` | src/virtualMachine.cpp:42 | behind the text, or once EXIT has been called, nothing changes any more |
| `InstructionLaws.RunsInside` | src/virtualMachine.cpp:42-46 | in front of it every turn executes the word under the program counter |
| `MemoryLaws.MemoryMap` | src/virtualMachine.hpp:114-132 | which byte of image, stack area or global area each address names, by its number, and that others name none |
| `MemoryLaws.ReadLittleEndian` | src/virtualMachine.hpp:70-90 | byte k of a word that is read is the word divided by 256^k, modulo 256; byte loads inside a part of the map see the same |
| `MemoryLaws.WriteLittleEndian` | src/virtualMachine.hpp:70-90 | the same for the bytes after a word has been written |
| `MemoryLaws.WriteKeepsBytes` | src/virtualMachine.hpp:70-90 | no byte outside a written word changes |
| `MemoryLaws.WriteByteThenRead` | src/virtualMachine.hpp:134-152 | a written byte reads back, all others are as they were |
| `Virtual.Program.Open` | src/virtualMachine.hpp:56-68 | memory after loading is what the header and the file say; where the file is shorter than its header says, the bytes of a program opened before show through, and zeros beyond those |
| `Virtual.Program.GetWord` | src/virtualMachine.hpp:70-90 | the word of the memory map at the address, or nothing when the address is in no buffer (little-endian by `MemoryLaws.ReadLittleEndian`) |
| `Virtual.Program.PutWord` | src/virtualMachine.hpp:70-90 | assigning through the reference changes the four bytes of the memory map there and no others |
| `Virtual.Program.GetByte` | src/virtualMachine.hpp:114-132 | the byte of the memory map at the address |
| `Virtual.Program.PutByte` | src/virtualMachine.hpp:134-152 | only the addressed byte of the memory map changes |
| `Virtual.VirtualMachine.ExecuteInstruction` | src/virtualMachine.cpp:60-284 | the object's step is the transition function's for every opcode, and it reports exactly the faulting and illegal ones; what the function does is the subject of `InstructionLaws` and `MemoryLaws` |
| `InstructionLaws.Adds` | src/virtualMachine.cpp:64-86 | `add`, `addu`: the result minus both operands is zero or one lost carry |
| `InstructionLaws.Subtracts` | src/virtualMachine.cpp:248-255 | `sub`, `subu`: the result and the subtrahend add up to the minuend, up to one borrow |
| `InstructionLaws.AddsImmediate` | src/virtualMachine.cpp:68-82 | `addi` adds its immediate as a signed number, `addiu` as an unsigned one |
| `InstructionLaws.Compares` | src/virtualMachine.cpp:212-235 | `slt`, `sltu`, `seq`, `sne` leave 1 or 0, by unsigned comparison |
| `InstructionLaws.ComparesImmediate` | src/virtualMachine.cpp:216-223 | `slti`, `sltiu` compare with the immediate not extended by its sign |
| `InstructionLaws.BitwiseBits` | src/virtualMachine.cpp:87-90 | `and`, `or`, `xor`, `nor`: every bit of the result, by the operands' bits there |
| `InstructionLaws.BitwiseImmediateBits` | src/virtualMachine.cpp:91-94 | `andi`, `ori`, `xori`: the same, the immediate's upper half being zero |
| `InstructionLaws.ShiftBits` | src/virtualMachine.cpp:204-243 | `sll`, `srl`, `sra`: where every bit comes from; `sra` fills with ones for either sign; 32 and more is undefined |
| `InstructionLaws.ShiftVariableBits` | src/virtualMachine.cpp:208-247 | `sllv`, `srlv`: the same by all of the register |
| `InstructionLaws.ArithmeticExact` | src/virtualMachine.cpp:236-239 | `sra` is the division of a signed number by a power of two if and only if the number is negative or not moved |
| `InstructionLaws.LoadsUpper` | src/virtualMachine.cpp:160-163 | `lui`: the upper half is the immediate, the lower half zero |
| `InstructionLaws.Multiplies` | src/virtualMachine.cpp:176-191 | `mult`, `multu`: `hi` times 2^32 plus `lo` is the product |
| `InstructionLaws.Divides` | src/virtualMachine.cpp:136-145 | `div`, `divu`: quotient times divisor plus remainder is the dividend, the remainder less than the divisor; by zero undefined |
| `InstructionLaws.MovesFrom` | src/virtualMachine.cpp:168-175 | `mfhi` and `mflo` copy their register |
| `InstructionLaws.Jumps` | src/virtualMachine.cpp:146-152 | `j` goes to its target and links nothing; `jal` links `$ra` |
| `InstructionLaws.JumpsThrough` | src/virtualMachine.cpp:272-275 | `jr` goes where its register points; `jalr` links first, so that jumping through the link register goes on behind it |
| `InstructionLaws.Branches` | src/virtualMachine.cpp:95-97 | `beq`, `bne` go by their distance from themselves, or four on |
| `InstructionLaws.BranchesOnZero` | src/virtualMachine.cpp:98-120 | `bgez` always branches, `bltz` never, `bgtz` and `blez` by whether the register is zero |
| `InstructionLaws.BranchesAndLinks` | src/virtualMachine.cpp:101-132 | `bgezal` always links and branches; `bltzal` goes eight on and links nothing |
| `MemoryLaws.WordThrough` | src/virtualMachine.cpp:164-167 | what `sw` stores `lw` loads, and `sw` changes nothing but memory |
| `MemoryLaws.ByteThrough` | src/virtualMachine.cpp:156-159 | what `sb` stores `lb` loads, the low byte without sign, and `sb` changes nothing but memory |
| `MemoryLaws.LowByteFirst` | src/virtualMachine.cpp:256-259 | `sw` and then `lb` at the same address give the lowest byte |
| `Virtual.VirtualMachine.SystemCall` | src/virtualMachine.cpp:325-332 | only EXIT succeeds; it sets the stop flag and the exit code read as a signed word |
| `Virtual.VirtualMachine.Run` | src/virtualMachine.cpp:40-47 | the loop reaches the state of the unrolled transition function, or the run faults |
| `Virtual.VirtualMachine.Reset` | src/virtualMachine.cpp:49-58 | every register but the two stack pointers is zero, memory and division registers are untouched |
| `InstructionLaws.ResetClears` | src/virtualMachine.cpp:49-58 | each register after a reset by its number, and all else |
| `Builder.BinaryBuilder.WriteWord` | src/binaryBuilder.cpp:50-61 | the whole new state of both streams, both write positions and the cursor |
| `Builder.BinaryBuilder.WriteByte` | src/binaryBuilder.cpp:63-67 | bytes go to the data stream whatever the cursor says |
| `Builder.BinaryBuilder.FillTo` | src/binaryBuilder.cpp:113-116 | the zero-fill loop writes just the missing number of zeros, to the data stream |
| `Builder.BinaryBuilder.SetLocation` | src/binaryBuilder.cpp:91-149 | inside a segment only the write position moves; past its end the gap is filled, past the end of text in the data stream |
| `Builder.BinaryBuilder.Align` | src/binaryBuilder.cpp:44-48 | the state after padding to the alignment |
| `Builder.BinaryBuilder.SetSegmentType` | src/binaryBuilder.cpp:157-171 | cursor and write position are at the end of the chosen segment, no byte changes |
| `Builder.BinaryBuilder.Close` | src/binaryBuilder.cpp:25-42 | the file is header, text and data with lengths and beginnings that match |
| `MemoryLaws.FileBytes` | src/binaryBuilder.cpp:25-42 | every byte of the file: four header words, least significant byte first, then text, then data |
| `Builder.AppendWord` | src/binaryBuilder.cpp:50-61 | at the end of both streams a word extends the current segment and leaves the builder at its end |
| `Builder.PadGrows` | src/binaryBuilder.cpp:81-84 | padding appends that many zeros exactly when the location does not run past the address space |
| `Builder.AlignGrows` | src/binaryBuilder.cpp:44-48 | the cursor comes to the least multiple not below it, and exactly the gap is zero-filled |
| `Builder.SwitchKeepsEnd` | src/binaryBuilder.cpp:157-171 | any switching between segments keeps cursor = segment base + segment length |
| `Builder.MovingKeeps` | src/binaryBuilder.cpp:91-149 | moving the cursor never touches text, never shortens data, keeps what is in front of the data position and writes nothing but zeros |
| `Builder.MovingInside` | src/binaryBuilder.cpp:91-149 | a location inside a segment becomes the write position and changes no byte |
| `Builder.PatchWord` | src/assembler.yy:924-944 | writing over written bytes replaces those bytes only, changes no length and reaches no padding loop |
| `Backpatching.FilledDecodes` | src/assembler_util.cpp:12-56 | a queued word, filled, decodes to the reference instruction of the slot it serves |
| `Backpatching.FillsWhenResolvable` | src/assembler_util.cpp:12-65 | an address is filled exactly when the label its slot needs is known |
| `Backpatching.PatchSettles` | src/assembler.yy:924-944 | patching one slot makes it right and leaves every other slot as right as it was, because slots are disjoint |
| `Backpatching.PartialDefine` | src/assembler_util.cpp:67-75 | defining a new label keeps every emission made so far right or queued |
| `Assembly.EndGrows` | src/binaryBuilder.cpp:50-84 | no line shrinks a segment |
| `DirectiveLaws.LabelHere` | src/assembler.yy:193-215 | a label in front of any statement but `.word`, labels between or not, has the location the statement finds |
| `DirectiveLaws.WordLabel` | src/assembler.yy:220-224 | a label in front of `.word` has the first location divisible by four that is not below |
| `DirectiveLaws.FirstWord` | src/assembler.yy:220-239 | in any image of the program, the word at such a label is the first item, or the value of the label it names |
| `DirectiveLaws.WordHeld` | src/assembler.yy:220-239 | all items of `.word` stand one behind the other from there on |
| `DirectiveLaws.WordPadding` | src/assembler.yy:223 | the bytes skipped for alignment are zero |
| `DirectiveLaws.Bytes` | src/assembler.yy:241-260 | each item of `.byte` is its low byte, one behind the other |
| `DirectiveLaws.Text` | src/assembler.yy:261-272 | `.ascii` and `.asciiz` put their characters, `.asciiz` a zero behind them |
| `DirectiveLaws.FirstByte` | src/assembler.yy:241-272 | the byte at the label of a `.byte` or of a string is its first |
| `DirectiveLaws.Align` | src/assembler.yy:273-283 | `.align X` puts zeros up to the first multiple of 2^X that is not below, and the cursor there |
| `DirectiveLaws.Space` | src/assembler.yy:284-288 | `.space` puts as many zeros |
| `DirectiveLaws.Sizes` | src/assembler.yy:220-288 | how far each of these moves the cursor |
| `DirectiveLaws.CodeHeld` | src/assembler.yy:299-442 | the words of an instruction statement decode to what the reference lists for it |
| `DirectiveLaws.FirstInstruction` | src/assembler.yy:299-442 | the word at the label of an instruction decodes to it |
| `DirectiveLaws.InnerFirst` | src/assembler.yy:193-215 | of two labels in front of a statement the inner one is defined first |
| `Assembler.Assembler.ResolveAddress` | src/assembler_util.cpp:12-65 | the address comes back filled, queued unchanged, or refused, by whether its label is known and must be |
| `Assembler.Assembler.DefineLabel` | src/assembler_util.cpp:67-75 | succeeds exactly when the name is neither a label nor a macro; all definitions stay distinct |
| `Assembler.Assembler.Emit` | src/assembler.yy:67-136 | one emission adds its slot at the cursor and keeps every slot right or queued |
| `Assembler.Assembler.EmitLoadAddress` | src/assembler.yy:431-441 | `la` takes eight bytes, right now or after both halves are patched |
| `Assembler.Assembler.Statement` | src/assembler.yy:218-442 | a statement adds what the reference emits for it where the reference puts it, and yields the location a label in front of it gets (what they are, in bytes and words of the image: `DirectiveLaws`) |
| `Assembler.Assembler.WordStatement` | src/assembler.yy:220-239 | aligns, and yields the aligned location for the labels in front (what that is: `DirectiveLaws.WordLabel`) |
| `Assembler.Assembler.DefineWaiting` | src/assembler.yy:193-215 | waiting labels are defined innermost first at the statement's location, or the first name defined again is reported |
| `Assembler.Assembler.ReadLine` | src/assembler.yy:188-442 | after each line, what was done so far and what is left are together the whole reference; a failure is an unreadable line, or the first name the program defines again |
| `Assembler.Assembler.Patch` | src/assembler.yy:924-944 | a turn of the patch loop settles the next queue entry, or reports a name some slot needs and that is no label |
| `Assembler.Assembler.PatchAll` | src/assembler.yy:924-944 | the patch loop settles the whole queue, or reports such a name |
| `Assembler.Assembler.Assemble` | src/assembler.yy:904-948 | assembly succeeds if and only if literals and names are readable, labels distinct and uses defined; the file is then the reference's image, padded to whole words; the error otherwise is the first unreadable line, the first name defined again, or a name used that is no label |
| `Assembler.ClashIsUnique` | src/assembler_util.cpp:67-75 | there is only one first name defined again |
| `Assembler.AllSettled` | src/assembler.yy:924-947 | with the queue worked off the output realises the two-pass reference |
| `Assembler.FinalAlign` | src/assembler.yy:946-947 | the last steps pad the data segment to a word boundary with zeros and touch nothing else |
| `Loading.OpenedImage` | src/virtualMachine.hpp:56-68 | a closed file opens to text and data back to back |
| `Loading.ReopenedComplete` | src/virtualMachine.hpp:65-67 | a complete file opens the same whatever was open before |
| `MemoryLaws.LengthsRead` | src/virtualMachine.hpp:65-66 | the two lengths are read from the second and fourth word of the file, least significant byte first |
| `MemoryLaws.ReadOver` | src/virtualMachine.hpp:66-67 | the file's bytes, then what the vector held, then zeros |
| `Loading.LayoutAgrees` | src/virtualMachine.hpp:70-132 | every byte and word the builder holds at a location below the stack is what the machine reads there after close and open |
| `MemoryLaws.SegmentsLittleEndian` | src/binaryBuilder.cpp:50-61 | byte k of a word the builder holds is the word divided by 256^k, modulo 256 |
| `Execution.RelativeAddress` | src/virtualMachine.cpp:436-446 | base + 16-bit distance + pc gives target + base back if and only if target - pc, as a signed word, lies in [-2^15, 2^15) |
| `Linking.OperandResolves` | src/virtualMachine.cpp:436-446 | at a place where the image holds a load, store or branch, the machine executes the reference's instruction, and the address it works out is label + offset + register if and only if label + offset - pc, as a signed word, lies in [-2^15, 2^15) |
| `PseudoInstructions.LiLoads` | src/assembler.yy:417-430 | both lengths of `li` load any 32-bit value into any register and change nothing else but the pc |
| `PseudoInstructions.LaLoads` | src/assembler.yy:431-441 | `la` loads the label's location into any register and changes nothing else but the pc |
| `Execution.RunBranch` | src/assembler.yy:355-362 | `bne` with `$zero`, `beqz` and `b` go to the label exactly when taken |
| `Execution.RunRem` | src/assembler.yy:367 | `rem` leaves the unsigned remainder |
| `PseudoInstructions.RunCompare` | src/assembler.yy:357-360 | `bgt`, `blt`, `bge`, `ble` branch exactly on the unsigned comparison and change only `$at` and the pc |
| `PseudoInstructions.SignedExact` | src/assembler.yy:357-360 | for any operands, the branch is that of the signed comparison if and only if both are on the same side of 2^31 |
| `PseudoInstructions.AgainstZeroExact` | src/virtualMachine.cpp:98-120 | `bgez`, `bgtz`, `blez`, `bltz` do what the signed comparison with zero asks for if and only if the register is below 2^31, unless the branch leads to the next instruction anyway |
| `PseudoInstructions.RunLiteralBranch` | src/assembler.yy:363-364 | `beq` and `bne` with a literal branch on the literal's low half; comparing `$at` always finds it equal |
| `PseudoInstructions.LiteralBranchExact` | src/assembler.yy:363-364 | that is comparison with the literal itself, for all register values, if and only if the literal has no bits above the sixteenth |
| `PseudoInstructions.PushPop` | src/assembler.yy:369-380 | for any two registers, `pushw` then `popw` moves the word, restores `$sp` and changes only the word below the stack top; the same register gets its own value back, even `$sp` |
| `PseudoInstructions.RunProduct` | src/assembler.yy:365-366 | three-register `mult` and `div` leave the low word of the product and the unsigned quotient |
| `PseudoInstructions.RunNot` | src/assembler.yy:368 | `not` inverts every bit |
| `StatementLaws.RunNop` | src/assembler.yy:354 | `nop` changes nothing |
| `StatementLaws.RunClr` | src/assembler.yy:351 | `clr` clears any register |
| `StatementLaws.RunBal` | src/assembler.yy:356 | `bal` goes to its label and leaves the address behind it in `$ra` |
| `StatementLaws.RunBgtu` | src/assembler.yy:361 | `bgtu` branches if the first register is not below the second, for equal ones too |
| `StatementLaws.RunAgainstZero` | src/assembler.yy:307-311 | `bgez`, `bgtz`, `blez`, `bltz` go to their label if the unsigned test holds |
| `StatementLaws.RunJump` | src/assembler.yy:316-317 | `j` and `jal` go to any label below 2^26; only `jal` links |
| `StatementLaws.RunTwoRegisters` | src/assembler.yy:314-346 | two-register `mult`, `div` and `jalr` use their registers in the order written |
| `StatementLaws.RunOneRegister` | src/assembler.yy:318-324 | `lui`, `jr`, `mfhi`, `mflo` with any register |
| `StatementLaws.PushPopByte` | src/assembler.yy:381-392 | `pushb` then `popb`: the low byte arrives, `$sp` is back, one byte has changed |
| `Frames.RunEnter` | src/assembler.yy:393-401 | `enter` stores return address and frame pointer below `$sp` and starts a frame there |
| `Frames.RunRet` | src/assembler.yy:402-411 | `ret` restores from the frame wherever `$sp` is by then, and jumps to the saved address |
| `Frames.StoreVariable` | src/virtualMachine.cpp:256-259 | storing to one variable changes that variable only, and neither stack nor text |
| `Frames.StoreScratch` | src/virtualMachine.cpp:256-259 | a store to either scratch area changes that word only: no variable, no text, nothing else stacked |
| `Calls.CallsBalance` | src/assembler.yy:393-416 | for any nesting the stack has room for, whatever is pushed in front of a call, code that keeps its own frame gets `$fp` and everything stacked above it back, and each activation lands behind its call with the caller's `$sp` and stack and its return address in `$ra` |
| `Calls.RunEntering` | src/virtualMachine.cpp:149-152 | `call` and `enter` save the return address and the caller's frame pointer and keep the caller's stack |
| `ZeroRegister.WritesDestination` | src/virtualMachine.cpp:60-284 | an instruction changes no register but its destination |
| `ZeroRegister.ZeroCanBeWritten` | src/virtualMachine.hpp:163-164 | the machine itself does not protect `$zero` |
| `ZeroRegister.DefinedRunsKeepZero` | src/compiler_util.cpp:354-695 | for an installed program whose source run returns, or never ends and is never undefined, `$zero` is 0 in every state of the machine's run |
| `ZeroRegister.ZeroStays` | src/compiler_util.cpp:354-695 | for any program, defined or not, ending or not: `$zero` is 0 as long as the text has not been overwritten and execution stays on its instructions |
| `SelfModification.Accepted` | src/compiler_util.cpp:528-538 | the program `p = 76, @p = 1342177281, return 0` is accepted by the toolchain |
| `SelfModification.SourceUndefined` | src/compiler_util.cpp:528-538 | its source run is undefined: the second store is to no variable |
| `SelfModification.ZeroIsLost` | src/virtualMachine.cpp:160-163 | every run of it writes `lui $zero, 1` over its own next instruction and executes it, after which `$zero` is not 0 |
| `CodeGeneration.LvalAfter` | src/compiler_util.cpp:528-531 | the static `lval` flag survives exactly the expressions that assign nothing |
| `Compiling.Compiler.GenerateExpression` | src/compiler_util.cpp:507-677 | the lines appended for an expression and the `lval` flag left behind |
| `Compiling.Compiler.GenerateAssignment` | src/compiler_util.cpp:528-538 | address first, with the flag set, then value, then store |
| `Compiling.Compiler.GenerateStatement` | src/compiler_util.cpp:360-506 | the lines appended for a statement and the label numbers used up |
| `Compiling.Compiler.GenerateFor` | src/compiler_util.cpp:490-506 | the rotated loop with its condition generated twice |
| `Compiling.Compiler.GenerateTopLevel` | src/compiler_util.cpp:384-422 | the lines of a nullary function or a global variable |
| `Compiling.Compiler.CodeGeneration` | src/compiler_util.cpp:364-367 | the lines of a whole program, in order |
| `Correctness.RunExpr` | src/compiler_util.cpp:507-677 | from any ready state the code lands behind itself with the source value in `$t0`, the variables as the source run leaves them, `$gp`, `$sp`, `$fp` restored and every pending operand and frame untouched |
| `Correctness.RunAddress` | src/compiler_util.cpp:621-677 | with the flag set, the code of an assignable expression leaves its address |
| `Correctness.RunBinary` | src/compiler_util.cpp:510-587 | spilling the left operand around the right one computes the operator, even when the right one calls functions |
| `Correctness.RunAssignment` | src/compiler_util.cpp:528-538 | an assignment through a variable, a declaration or a chain of pointers stores the value where the source does |
| `Correctness.RunFunctionCall` | src/compiler_util.cpp:423-446 | a nullary call runs the callee's body in a frame of its own and comes back with its value and the caller's pending operands intact |
| `Correctness.RunOperate` | src/compiler_util.cpp:510-587 | each operator's instructions compute it: `+` modulo 2^32, unsigned `%` and `<=`, strict `&&` |
| `Correctness.RunStmt` | src/compiler_util.cpp:360-506 | every terminating source run of a statement is matched by a machine run to just behind the code, back to the caller, or to the exit, with the same variables |
| `Correctness.RunIfThenElse` | src/compiler_util.cpp:447-459 | the branch the source takes is the one executed |
| `Correctness.RunWhile` | src/compiler_util.cpp:469-480 | the loop entered at its test at the bottom runs as the source loop does |
| `Correctness.RunForLoop` | src/compiler_util.cpp:490-506 | the skipping test in front and the repeating test behind together run as the source loop does |
| `Correctness.RunTest` | src/compiler_util.cpp:477-478 | from the repeated test on, the machine follows the source loop |
| `Correctness.RunLeaveEntry` | src/compiler_util.cpp:368-375 | `return` in the entry function stops the machine with the value as exit code |
| `Fragments.FragmentProgram` | src/compiler_util.cpp:643-652 | generated lines are all accepted by the assembler's grammar, keep data directives in the data segment, and end in the text segment |
| `Linking.LinkLines` | src/assembler.yy:193-215 | what the two-pass reference says about slots and definitions is what running needs: every line's code at its cursor, every label where its line is |
| `Linking.LoadedImage` | src/virtualMachine.hpp:56-90 | the loaded image of an assembly decodes to the listing of its lines |
| `Declarations.ProgramDeclares` | src/compiler_util.cpp:643-652 | every four-byte declaration anywhere in a program is generated |
| `Declarations.Place` | src/compiler_util.cpp:643-652 | a declared variable has the four bytes at its label to itself, and they are zero |
| `Declarations.DeclarationReserves` | src/compiler_util.cpp:643-652 | a declaration reserves four bytes, one or none, by its type |
| `EndToEnd.VariablesApart` | src/compiler_util.cpp:643-652 | no two variables share a byte |
| `EndToEnd.VariableMeant` | src/compiler_util.cpp:643-652 | a declared variable lives at its label and begins at zero |
| `EndToEnd.FunctionMeant` | src/compiler_util.cpp:384-422 | a function whose name no other has is what a call of that name runs |
| `EndToEnd.StartsReady` | src/virtualMachine.cpp:49-58 | after loading and reset the machine stands in front of `entry` with zeroed variables and empty stacks |
| `EndToEnd.ProgramRuns` | src/compiler_util.cpp:368-395 | a program whose entry body returns v runs to the exit code v from every image that realises its assembly, whatever the scratch buffers and division registers hold; no state on the way faults and `$zero` is 0 in all of them |
| `Source.StarvedHasNoOutcome` | src/compiler_util.cpp:360-506 | a source run that runs out of fuel has no outcome yet |
| `Source.MoreFuelIn` | src/compiler_util.cpp:360-506 | a source run that does not run out of fuel has its outcome, or is undefined, with more of it just the same |
| `SourceLaws.OperatorLaws` | src/compiler_util.cpp:510-587 | `<=` is a total order with zero least, `+` wraps around, `&&` and `==` give truth values |
| `SourceLaws.RemainderLaws` | src/compiler_util.cpp:510-587 | `%` leaves the remainder; by zero it is undefined |
| `SourceLaws.WhileUnrolls` | src/compiler_util.cpp:469-480 | `while (c) s` means `if (c) { s while (c) s }` |
| `SourceLaws.ForIsWhile` | src/compiler_util.cpp:490-506 | `for (i; c; n) s` means `i; while (c) { s n; }` |
| `SourceLaws.Branches` | src/compiler_util.cpp:447-468 | a branch is taken exactly when its condition is not zero |
| `SourceLaws.Assigns` | src/compiler_util.cpp:528-538 | an assignment is the value assigned, and the variable reads it afterwards, also through its address |
| `EndlessRuns.SurviveExpr` | src/compiler_util.cpp:507-677 | where the evaluation runs out of fuel, the machine takes at least as many steps as there was fuel, live and with `$zero` zero and the text intact in all of them |
| `EndlessRuns.SurviveStmt` | src/compiler_util.cpp:360-506 | the same for statements, through any nesting of loops and calls |
| `EndlessRuns.StarvingRuns` | src/compiler_util.cpp:368-395 | an installed program whose source run is not at its end after `fuel` calls and loop turns is running, with nothing faulted and `$zero` 0, in each of its first `fuel` states |
| `EndlessRuns.EndlessProgram` | src/virtualMachine.cpp:40-47 | if the source run never ends and is never undefined, the run loop never stops and never faults |
| `EndlessRuns.RunSettles` | src/compiler_util.cpp:368-395 | every other source run has, from some fuel on, always the same outcome |
| `Naming.LinesAssemble` | src/assembler.yy:904-948 | lines assemble if and only if their literals can be read, no name is defined twice or is an instruction's, and every used name is defined |
| `Naming.NeededMentioned` | src/assembler.yy:840-863 | every name a statement needs is one of the names the lexer reads in it |
| `Naming.LabelsOnce` | src/compiler_util.cpp:357 | each label number gives one name, different from all others |
| `Naming.StmtMatches` | src/compiler_util.cpp:447-506 | generated statements define what the source declares plus exactly one name for each label number they take, and use nothing else |
| `Naming.LabelCount` | src/compiler_util.cpp:447-506 | how many label numbers a statement takes |
| `Naming.ProgramVariables` | src/compiler_util.cpp:643-652 | in a program of four-byte declarations, every defined name is a declared variable's or a function's, wherever it is declared |
| `Naming.ProgramAssembles` | src/compiler_util.cpp:354-695 | a generated program is accepted by the assembler if and only if its literals are below 2^31, every name is declared once, is read as a name by the assembler and is not a generated label, and every used name is declared |
| `Naming.WordRefused` | src/assembler.yy:766-837 | a program that declares a name spelled like an instruction, in either case of letters, does not assemble |
| `Names.UidLabelIsName` | src/compiler_util.cpp:357 | every generated label is read as a name |
| `Toolchain.CompileAndRun` | src/virtualMachine.cpp:18-25 | compile, assemble, load, run: accepted exactly when well named, and then the exit code and the variables in memory are the source run's |
| `SpillBound.RoomNeeded` | src/compiler_util.cpp:510-587 | a call-free evaluation needs exactly its recursively computed depth of pending operands: with less it has no result, with more always the same |
| `SpillBound.HighestSpill` | src/compiler_util.cpp:510-587 | the code of a call-free expression moves `$gp` by nothing in the end, never below its start, and at most and at least once by four bytes for each operand of the depth |
| `SpillBound.SpillPeak` | src/compiler_util.cpp:510-587 | on the machine, for any run through the code that does not fault or overwrite the text: the highest `$gp` is exactly the entry value plus four times the depth |
| `SpillBound.SpillPeakDefined` | src/compiler_util.cpp:510-587 | the same for every defined evaluation of a call-free expression in front of a ready machine, with nothing assumed of the machine's run |
| `SpillBound.FitsGlobalArea` | src/common.hpp:171-174 | the 256-byte scratch area is enough for exactly the call-free expressions of depth at most 64 |
| `Names.DecimalInjective` | src/assembler.yy:201 | different numbers have different decimal suffixes |
| `Names.DecimalValue` | src/assembler.yy:201 | the suffix is the number, in decimal and without leading zeros |
| `MacroLabels.FreshName` | src/assembler.yy:199-204 | the search ends after no more tries than names are taken, with the first free suffix |
| `MacroLabels.LabelMeansItself` | src/assembler.yy:205-206 | after its definition a label's uses mean that definition if and only if the call has as many arguments as parameters, or the first argument too many happens to be the generated name |
| `MacroLabels.OthersKeepMeaning` | src/assembler.yy:205-206 | every other name keeps its meaning; one read past the end of the arguments may get the label's |
| `MacroLabels.WrongArguments` | src/assembler.yy:297 | with `7` passed to a macro without parameters the label `x` means `7`; with an argument missing it is read past the end, and the parameter means the label |
| `MacroRuns.ParserContext.ReduceLabel` | src/assembler.yy:193-214 | a label that was in a macro at its colon goes to the innermost call there is by now, under its name with the first number that is free; any other is defined as written; refused exactly when no call is left, or the name is defined already; the whole new stack of calls |
| `MacroRuns.ParserContext.Run` | src/assembler.yy:193-297 | for every list of calls begun, calls ended, colons and labels, up to the first label refused: the definitions are the old ones and one for each label at its location, all distinct, and every call still on the stack has its own parameters and arguments and just the labels reduced while it was innermost; a label whose colon came inside a call is refused only when no call is left, another only when its name is defined; if every colon and every label is inside a call, none is refused |
| `MacroRuns.ParserContext.ReadColon` | src/assembler.yy:194 | notes whether a call is on the stack |
| `MacroRuns.ParserContext.DefinedBySteps` | src/assembler.yy:194-212 | in every state of a run, by the steps alone: a label whose colon came while a call was open is defined as its name followed by a number, any other as written |
| `MacroRuns.ParserContext.RefusedBySteps` | src/assembler.yy:194-212 | by the steps alone: when the next label is refused |
| `MacroRuns.ParserContext.KeptByItsCall` | src/assembler.yy:205-206 | a label of a macro is with the call that was innermost when it was reduced, until that call ends |
| `MacroRuns.EveryLabelCloses` | src/assembler.yy:194 | every label of a run has a colon of its own, with nested ones between |
| `MacroRuns.LabelOfRun` | src/assembler.yy:842-853 | in any call of a run, a label that is the first of its name means its own definition if and only if the call began with as many arguments as parameters, or the one too many in its place happens to be the generated name |
| `MacroRuns.ParameterOfRun` | src/assembler.yy:842-853 | a parameter keeps its argument over all labels of its call |
| `MacroRuns.ParserContext.LabelsMean` | src/assembler.yy:193-214 | in every state of a run: the exact meaning of each label of each call on the stack, and the label table has that label's own location under its name |
| `MacroLabels.OwnCall` | src/assembler.yy:193-214 | that call is the one the label stands in if and only if, from the colon to the end of the statement and the ends directly behind it, that call has not ended and every call begun has |
| `MacroLabels.OwnCallPlain` | src/assembler.yy:193-214 | for a statement that calls no macro: if and only if no end is announced |
| `MacroLabels.LabelOnLastLine` | src/assembler.yy:740 | with the body `x: nop` and a line end, the call is on the stack at the colon and gone when the statement has been read |
| `MacroLabels.Replacement` | src/assembler.yy:842-853 | an identifier stands for the argument at the place of the first parameter of that name, which may lie past the end of the arguments |
| `CompoundStream.MacroCalls.EofCallback` | src/assembler.yy:58-63 | the two assertions hold as preconditions: the stack is not empty and the announced number is on top |
| `CompoundStream.CompoundInputFileStream.Eof` | src/compoundInputFileStream.cpp:70-110 | used-up entries are left and their ends announced in stack order, nothing unread is lost; with the stub flag nothing is announced |
| `CompoundStream.CompoundInputFileStream.Get` | src/compoundInputFileStream.cpp:112-116 | the next character of the remaining text, taken off it |
| `CompoundStream.CompoundInputFileStream.Peek` | src/compoundInputFileStream.cpp:30-34 | the next character, left in place |
| `CompoundStream.CompoundInputFileStream.Tellg` | src/compoundInputFileStream.cpp:58-68 | a position inside the current entry, or none exactly at the end of all input |
| `CompoundStream.CompoundInputFileStream.Seekg` | src/compoundInputFileStream.cpp:42-56 | the one entry that has the position, at that position, be it before or behind the current one; refused exactly past the end |
| `CompoundStream.CompoundInputFileStream.LookAhead` | src/assembler.yy:740-742 | mark, read on for any length over any entries, go back: everything still to be read is as before; the macro calls are if and only if no end stands among or directly behind the characters read |
| `CompoundStream.PassedEnds` | src/assembler.yy:740 | skipping announces no end exactly when none stands among or directly behind the next characters |
| `CompoundStream.CompoundInputFileStream.Split` | src/compoundInputFileStream.cpp:200-216 | splitting the current entry puts the new text in front of the remaining text, each entry running to the end of its file; entries are contiguous afterwards if and only if they were before |
| `CompoundStream.CompoundInputFileStream.PushEntry` | src/compoundInputFileStream.cpp:181-224 | what is left to read becomes the pushed text, its end, and what was left before, even when entries share a stream; nothing is announced; positions are contiguous exactly when they were and a character comes before the next end |
| `CompoundStream.CompoundInputFileStream.PushString` | src/compoundInputFileStream.cpp:159-169 | what was first opened under the name is inserted; it is the string itself if and only if no included file of that name has other contents; contiguity as for `PushEntry` |
| `CompoundStream.CompoundInputFileStream.Put` | src/compoundInputFileStream.cpp:171-174 | the character is read next, however often it was put before, unless an included file is named so; contiguity as for `PushEntry` |
| `CompoundStream.CompoundInputFileStream.Include` | src/compoundInputFileStream.cpp:143-157 | what was first opened under the name comes before everything unread; contiguity as for `PushEntry` |
| `CompoundStream.CompoundInputFileStream.ExpandMacro` | src/assembler.yy:297 | the body comes before everything unread, also at a second expansion; its end is the next to be announced, all numbers stay different, and the stack assumed by the callback is kept; contiguity as for `PushEntry` |
| `CompoundStream.CompoundInputFileStream.Run` | src/compoundInputFileStream.cpp:30-224 | for every list of pushes, macro calls, includes, reads, looks and skips: what is read and what is left are what the operations do to the tape of characters and ends; every macro call that ended was on top of the stack when it did; no number ended twice; positions are contiguous at the end if and only if they were at the start and every push came at a character |
| `CompoundStream.RunEdits` | src/compoundInputFileStream.cpp:181-224 | for every such list, what is read and what is left are those of one text with a cursor at which every push is inserted |
| `CompoundStream.NameClash` | src/compoundInputFileStream.cpp:159-168 | after including a file `a` that holds `b`, pushing the string `a` reads `b` |
| `CompoundStream.CompoundInputFileStream.SkipOne` | src/assembler.yy:740 | the lexers' skip takes a character and announces every end directly behind it |
| `CompoundStream.EndGoesWithLast` | src/assembler.yy:740 | the end of a pushed text is announced with the skip of its last character, not before and not after |
| `CompoundStream.PushInserts` | src/compoundInputFileStream.cpp:181-224 | as text: pushed text, then the old remaining text |
| `CompoundStream.SplitContiguous` | src/compoundInputFileStream.cpp:200-213 | shifting the later entries by the pushed length closes the positions up again, and hides no gap there was |

## Left out

- Text: lexing, parsing and printing; the model starts from syntax trees and assembly lines. Which words the assembler reads as names is modelled (`Names.IsName`).
- Function parameters and call arguments: locals are keyed by the function's name and the stored register is chosen by a byte offset; functions are nullary and variables global.
- String literals, inline `asm` blocks, `do`-`while` (refused by semantic analysis), an empty `for` condition, top-level statements other than variable declarations and functions.
- Operators the grammar cannot build: `!=`, `<`, `>`, `>=`, `!` and negation.
- One-byte variables: `u8` reserves one byte and is stored to as a word; such a declaration is generated and placed, but reading or assigning it is an undefined source run.
- Assignments to anything but a variable, a declaration or a chain of `@` on one: undefined source runs, though their code is generated. `&` of anything but a name is not in the syntax.
- `semanticAnalysis`: that it marks the function called `entry` and its returns is the `entry` parameter of the generator.
- `StatementLaws.PushPopByte`: for two registers that are not `$sp`.
- Every system call but EXIT, and C++ undefined behaviour (an access outside every buffer, division by zero, a shift of 32 or more, signed overflow in `addi`): the first ones are faults of the model, signed addition wraps around.
- `Virtual.VirtualMachine.Run`: only runs that end, within a number of turns given as a ghost argument; `EndlessRuns` speaks of the others.
- `Toolchain.CompileAndRun`: needs text below 2^15 bytes and data below the stack, and a source run that returns. Source runs that never end are the subject of `EndlessRuns`, as lemmas: a method that runs forever cannot be written. What the machine does for a source run that is undefined, which includes one that needs more than 64 pending operands or 32 frames, is not stated.
- `ZeroRegister.DefinedRunsKeepZero`: one direction; an undefined source run may leave `$zero` alone too, depending on what its bad pointer hits. `ZeroRegister.ZeroStays` covers those as well, but assumes text and program counter intact.
- `SpillBound.SpillPeak`: assumes no fault and intact text; `SpillBound.SpillPeakDefined` assumes neither.
- `Assembler.Assembler.Assemble`: data directives are in the data segment (the original asserts it in debug builds), `.align` has an exponent below 32 and locations do not run past the address space; `Builder.PadGrows` says what happens otherwise.
- `Assembly.Realises` compares decoded instructions: bits no instruction reads may differ from run to run of the original.
- Repeated items `x:n` of `.word` and `.byte` are the repeated list; `.include`, `.define`, `.macro`, `.message`, `.error` are read by the input part, which is not connected to the line part.
- `Virtual.Program.Open`: files shorter than their 16-byte header, which leave the header read before in place.
- `CompoundStream.CompoundInputFileStream.LookAhead`: begins at a character, on contiguous entries; behind the last one the original marks the greatest position and throws when it goes back there.
- `CompoundStream.CompoundInputFileStream.PushEntry`: a push after all input is read dereferences the end of the list in the original and is excluded. `read` across two entries is not modelled.
- `CompoundStream.CompoundInputFileStream.Seekg`: positions inside the head of an entry that was split are excluded; no lexer goes back over a push.
- `MacroRuns.ParserContext.ReduceLabel`: with no call left the original reads past the end of an empty vector; the model only reports it. `MacroLabels.Replacement` reports an argument past the end, where the original reads on.
- `MacroRuns.ParserContext.Run`: emissions between labels are left to `Assembler.Assembler.Assemble`; locations are given with the labels.
- Label numbers, macro numbers and positions are unbounded integers; the original's counters are 32-bit and 64-bit. The static label counter is the compiler object's, starting at 0 for each compilation.
- The disassembler, the debugger, symbol-table files and the command line.
