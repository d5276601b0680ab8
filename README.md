# runtime-systems-VERSE in Dafny

A model of the core of runtime-systems-VERSE, which holds two small bytecode
virtual machines written in C, with their assemblers:

- **The register machine** (`reg/vm.h`, `reg/interpreter.h`). It has sixteen
  64-bit registers and a 64-bit result slot. Each instruction is one 16-bit
  word: a 4-bit opcode, then either three 4-bit register fields or one
  register field and an 8-bit immediate. `interpret` fetches a word, decodes
  it and runs the opcode's case until DONE, an unknown opcode or a division
  by zero.
- **The stack machine** (`stack/vm.h`, `stack/interpreter.h`). It has a
  256-slot operand stack of 64-bit values and a stack cursor, and runs a
  byte-code program; the machine of `stack/vm.h` also has a result slot.
  There are two interpreters over the same opcodes. `interpret_function_dispatch` calls one handler per opcode.
  `interpret_inline` spells each handler out in its switch.
- **The assemblers** (`stack/assembler.c`, `reg/assembler.c`). Each reads
  the source file line by line and matches each line whole against its
  mnemonics; in the stack assembler the line after PUSH_IMM is instead read
  as a decimal immediate. `imm_bin_str` renders an 8-bit immediate as eight
  binary digits.

Files and modules:

| file | module | what it holds |
|---|---|---|
| `vm_result.dfy` | `VmResult` | the `result` enum shared by both machines |
| `uint64.dfy` | `Uint64` | `uint64_t`, with wrapping `+ - *` and unsigned `/` |
| `reg_codec.dfy` | `RegCodec` | the `ENCODE_*` and `DECODE_*` macros on 16-bit words |
| `reg_vm.dfy` | `RegVm` | the register machine: a pure step and run, and the `vm` struct as a class |
| `operand_stack.dfy` | `OperandStack` | the operand stack as a value: reset, push and pop |
| `stack_interpreter.dfy` | `StackInterpreter` | `stack/interpreter.h`'s struct with reset, push and pop |
| `stack_vm.dfy` | `StackVm` | the stack machine: its handlers, both interpreters, and the proof that they agree |
| `imm_bin.dfy` | `ImmBin` | `imm_bin_str`, which both assemblers copy |
| `decimal.dfy` | `Decimal` | the leading decimal number of a line, as `strtoul(line, NULL, 10)` reads it |
| `stack_asm.dfy` | `StackAsm` | the stack assembler's line loop |
| `reg_asm.dfy` | `RegAsm` | the register assembler's line loop |
| `stack_toolchain.dfy` | `StackToolchain` | the stack assembler's output for the driver's program, fed to the stack machine |

Modelling choices:

- **Machine state.** The C globals become classes. Their arrays stay arrays
  and their pointers become indices. Every method is specified by a pure
  function of the state, and an interpreter's loop keeps the invariant that
  the pure run from the current state equals the pure run from the start.
- **Undefined behaviour.** Fetching past the end of the code, a push on a
  full stack and a pop on an empty one are undefined in C. They are the
  `Undefined` step and the `Undef` outcome of the pure stack-machine runs,
  and the methods require a run that avoids them. For the register machine,
  `Run` and `Interpret` require a run that returns inside the code: on
  DONE, on an unknown opcode, or on a DIV by zero.
- **Division by zero.** `do_div` calls `exit`. That is modelled as its own
  outcome (`Exited`, `ProcessExit`, `exited`), never as `ERR_DIV_ZERO`.
- **Opcode numbering.** The stack assembler numbers POP_RES 11 and DONE 12,
  while the stack machine numbers them 5 and 6. Both tables are modelled as
  written. `StackToolchain` shows that the driver's program, once assembled,
  stops the machine with `ERR_UNKNOWN_OPCODE` at byte 11.
- **Reset differs between headers.** `reset_vm` of `stack/vm.h` resets only
  the stack cursor, not the slots or `res`. The model follows that code
  rather than a reset that zeroes everything.

## Model

| member | source | states |
|---|---|---|
| Uint64.Add | reg/vm.h:261-261 | uint64_t `+`: the sum when it fits, else the sum less 2^64 (also stack/vm.h:70) |
| Uint64.Sub | reg/vm.h:265-265 | uint64_t `-`: the difference when b <= a, else the difference plus 2^64 (also stack/vm.h:76) |
| Uint64.Mul | reg/vm.h:269-269 | uint64_t `*`: the product when it fits, and in every case congruent to the product modulo 2^64 (also stack/vm.h:82) |
| Uint64.Div | reg/vm.h:276-276 | uint64_t `/` by a nonzero divisor: the quotient rounded down, r * b <= a < (r + 1) * b (also stack/vm.h:98) |
| RegCodec.DecodeOp | reg/interpreter.h:19-19 | the opcode field is the top 4 bits, so it is below 16 |
| RegCodec.DecodeR0 | reg/interpreter.h:20-20 | the r0 field is below 16 |
| RegCodec.DecodeR1 | reg/interpreter.h:21-21 | the r1 field is below 16 |
| RegCodec.DecodeR2 | reg/interpreter.h:22-22 | the r2 field is below 16 |
| RegCodec.DecodeImm | reg/interpreter.h:23-23 | the immediate is the low byte, so it is below 256 |
| RegCodec.OpValue | reg/vm.h:25-25 | the decoded opcode, as the `uint8_t` the handlers receive, is below 16 |
| RegCodec.Reg0 | reg/vm.h:26-26 | r0 is a valid register index (below NUM_REGS) |
| RegCodec.Reg1 | reg/vm.h:27-27 | r1 is a valid register index |
| RegCodec.Reg2 | reg/vm.h:28-28 | r2 is a valid register index |
| RegCodec.ImmValue | reg/vm.h:29-29 | the immediate, as a `uint8_t`, is below 256 |
| RegCodec.EncodeOp | reg/interpreter.h:11-11 | decoding gives back the opcode, and every other bit is zero |
| RegCodec.EncodeOpReg | reg/interpreter.h:12-12 | decoding gives back the opcode and r0, and the low byte is zero |
| RegCodec.EncodeOpRegImm | reg/interpreter.h:13-13 | decoding gives back the opcode, r0 and the immediate |
| RegCodec.EncodeOpRegs | reg/interpreter.h:14-14 | decoding gives back the opcode and all three registers |
| RegCodec.EncodeDecodeRegs | reg/interpreter.h:11-23 | encoding the decoded opcode and registers of any word rebuilds that word |
| RegCodec.EncodeDecodeRegImm | reg/interpreter.h:11-23 | encoding the decoded opcode, r0 and immediate of any word rebuilds that word |
| RegCodec.ImmOverlapsRegisters | reg/interpreter.h:21-23 | the immediate field is r1 and r2 side by side |
| RegCodec.DecodeInjective | reg/interpreter.h:19-23 | two words with the same four fields are the same word |
| RegCodec.EncodeVectors | reg/test_encode.c:6-10 | the five encodings the test file asserts |
| RegVm.ResetState | reg/vm.h:67-70 | after a reset every register and the result slot are zero |
| RegVm.ExecuteFields | reg/vm.h:251-288 | one pass of `interpret`'s switch keeps the state well formed, and it stops exactly on DONE, an unknown opcode, or DIV with a zero r1 |
| RegVm.Execute | reg/vm.h:244-288 | the same, stated on the fetched word |
| RegVm.FirstTerminal | reg/vm.h:239-290 | the first DONE or unknown-opcode word at or after ip, with no such word before it |
| RegVm.Run | reg/vm.h:239-290 | the loop ends in a well-formed state, with the instruction pointer one past a word inside the code |
| RegVm.HaltsPast | reg/vm.h:239-290 | a word that does not end the loop is followed by a word that does |
| RegVm.HaltsStops | reg/vm.h:239-290 | a program with a DONE or unknown-opcode word at or after ip returns inside the code from every state |
| RegVm.DivByZeroWithoutDone | reg/vm.h:271-275 | a run can also return without any terminal word: a lone DIV on the reset machine returns ERR_DIV_ZERO after one fetch |
| RegVm.RunContinue | reg/vm.h:239-290 | a pass that goes on leaves the rest of the run unchanged |
| RegVm.RunStopsAtFirstTerminal | reg/vm.h:239-290 | the loop fetches one word per pass and stops at the first terminal word k, after k+1 fetches, unless a DIV with a zero divisor stops it earlier; it returns SUCCESS exactly when word k is DONE |
| RegVm.LoadImmEffect | reg/vm.h:255-258 | LOAD_IMM writes the zero-extended immediate to r0 and nothing else |
| RegVm.ArithmeticEffect | reg/vm.h:259-270 | ADD, SUB and MUL write r0 op r1, modulo 2^64, to r2 and nothing else |
| RegVm.DivEffect | reg/vm.h:271-277 | DIV with a zero r1 returns ERR_DIV_ZERO and changes nothing; otherwise it writes the unsigned quotient to r2 only |
| RegVm.MovResEffect | reg/vm.h:278-281 | MOV_RES copies r0 to the result slot and changes no register |
| RegVm.TerminalEffect | reg/vm.h:282-288 | DONE returns SUCCESS and any opcode 7..15 returns ERR_UNKNOWN_OPCODE, with the state untouched |
| RegVm.LoadMoveDone | reg/vm.c:44-48 | the driver's three-word program ends in a terminal word |
| RegVm.LoadMoveDoneRun | reg/vm.c:56-60 | from a reset machine that program returns SUCCESS with 5 in r3 and in the result slot |
| RegVm.Machine.constructor | reg/vm.h:39-43 | the global starts zeroed, as static storage is |
| RegVm.Machine.Reset | reg/vm.h:67-70 | `reset_vm` zeroes the registers and the result, and the instruction pointer becomes index 0 |
| RegVm.Machine.DoLoadImm | reg/vm.h:77-79 | `do_load_imm` makes the step LOAD_IMM specifies |
| RegVm.Machine.DoAdd | reg/vm.h:81-83 | `do_add` makes the step ADD specifies |
| RegVm.Machine.DoSub | reg/vm.h:85-87 | `do_sub` makes the step SUB specifies |
| RegVm.Machine.DoMul | reg/vm.h:89-91 | `do_mul` makes the step MUL specifies |
| RegVm.Machine.DoDiv | reg/vm.h:93-99 | `do_div` exits, with nothing written, exactly where `interpret` returns ERR_DIV_ZERO; otherwise it makes DIV's step |
| RegVm.Machine.DoMovRes | reg/vm.h:101-103 | `do_mov_res` makes the step MOV_RES specifies |
| RegVm.Machine.Dispatch | reg/vm.h:251-288 | the switch for one word stops or goes on exactly as Execute says; on a stop the state is unchanged |
| RegVm.Machine.Interpret | reg/vm.h:227-291 | `interpret` ends with the status, state and instruction pointer of Run |
| RegVm.RunLoadMoveDone | reg/interpreter.c:6-14 | the driver's asserts: SUCCESS, and 5 in the result slot |
| OperandStack.Contents | stack/vm.h:14-19 | the live part of the stack has as many values as the cursor counts |
| OperandStack.Reset | stack/vm.h:40-43 | a reset empties the stack and leaves the slots alone |
| OperandStack.Push | stack/vm.h:49-53 | a push appends the value, moves the cursor up one, and changes only the slot at the old cursor |
| OperandStack.Pop | stack/vm.h:55-60 | a pop returns the top value, moves the cursor down one, and writes no slot |
| OperandStack.PushThenPop | stack/vm.h:49-60 | popping after a push returns the pushed value and restores the contents |
| OperandStack.PopThenPush | stack/vm.h:49-60 | pushing after a pop restores the stack exactly when the pushed value is the popped one |
| StackInterpreter.Machine.constructor | stack/interpreter.h:8-12 | the global starts zeroed, its NULL `stack_top` taken as index 0 |
| StackInterpreter.Machine.Reset | stack/interpreter.h:30-32 | `reset_vm` is OperandStack.Reset |
| StackInterpreter.Machine.StackPush | stack/interpreter.h:34-37 | `stack_push` is OperandStack.Push on the array |
| StackInterpreter.Machine.StackPop | stack/interpreter.h:39-42 | `stack_pop` is OperandStack.Pop on the array |
| StackVm.PushImmStep | stack/vm.h:62-65 | PUSH_IMM pushes the next byte, zero-extended, and skips it; it is undefined past the end of the code or on a full stack |
| StackVm.PopTwoContents | stack/vm.h:67-71 | two pops return the top value, then the one below it, and leave the rest |
| StackVm.BinaryStep | stack/vm.h:67-83 | ADD, SUB and MUL replace the top two values by below op top, modulo 2^64; they are undefined with fewer than two values |
| StackVm.DivStep | stack/vm.h:85-99 | DIV exits exactly when the top value is zero, is undefined with fewer than two values, and otherwise replaces the two by their quotient |
| StackVm.PopResStep | stack/vm.h:101-103 | POP_RES moves the top value into `res`; it is undefined on an empty stack |
| StackVm.DispatchSwitch | stack/vm.h:112-145 | a pass of the function-dispatch switch keeps the instruction pointer in the code and the stack well formed |
| StackVm.FunctionDispatchStep | stack/vm.h:108-147 | each defined pass advances the instruction pointer |
| StackVm.InlinePushCase | stack/vm.h:157-162 | the inline PUSH_IMM case keeps the instruction pointer in the code; its only failure is undefined behaviour |
| StackVm.InlineBinaryCase | stack/vm.h:163-197 | the inline arithmetic cases leave the instruction pointer alone and never exit; only DIV halts, with ERR_DIV_ZERO |
| StackVm.InlinePopResCase | stack/vm.h:198-206 | the inline POP_RES case leaves the instruction pointer alone; its only failure is undefined behaviour |
| StackVm.InlineSwitch | stack/vm.h:156-215 | no inline case exits the process |
| StackVm.InlineStep | stack/vm.h:152-217 | each defined inline pass advances the instruction pointer and never exits |
| StackVm.RunFunctionDispatch | stack/vm.h:108-147 | a run that returns leaves a well-formed stack |
| StackVm.RunInline | stack/vm.h:152-217 | a run that returns leaves a well-formed stack, and the inline loop never exits the process |
| StackVm.SwitchesAgree | stack/vm.h:108-217 | on every byte the two switches do the same, except that where the inline switch returns ERR_DIV_ZERO the handler exits |
| StackVm.DispatchStrategiesAgree | stack/vm.h:108-217 | the function-dispatch run exits exactly when the inline run returns ERR_DIV_ZERO; otherwise both end in the same way |
| StackVm.SameOutcomeWithoutDivZero | stack/vm.h:108-217 | a program whose inline run does not divide by zero ends the same under both interpreters |
| StackVm.InstructionLength | stack/vm.h:112-136 | PUSH_IMM takes two bytes and every other opcode one |
| StackVm.BinaryDepth | stack/vm.h:163-197 | an arithmetic opcode lowers the depth by one and keeps every slot below its operands |
| StackVm.InlineDivByZero | stack/vm.h:184-197 | inline DIV by zero returns ERR_DIV_ZERO with both operands popped and `res` unchanged |
| StackVm.TerminalBytes | stack/vm.h:137-144 | DONE returns SUCCESS and any byte from 7 up returns ERR_UNKNOWN_OPCODE, the same under both interpreters |
| StackVm.DispatchUnfold | stack/vm.h:108-147 | a defined function-dispatch run is one defined pass followed by the rest of the run |
| StackVm.InlineUnfold | stack/vm.h:152-217 | a defined inline run is one defined pass followed by the rest of the run |
| StackVm.Machine.constructor | stack/vm.h:14-19 | the global starts zeroed, its NULL `stack_top` and instruction pointer taken as index 0 |
| StackVm.Machine.Reset | stack/vm.h:40-43 | `reset_vm` empties the stack and keeps the slots, `res` and the instruction pointer |
| StackVm.Machine.StackPush | stack/vm.h:49-53 | `stack_push` is OperandStack.Push on the array |
| StackVm.Machine.StackPop | stack/vm.h:55-60 | `stack_pop` is OperandStack.Pop on the array |
| StackVm.Machine.DoPushImm | stack/vm.h:62-65 | `do_push_imm` makes PushImmStep's step |
| StackVm.Machine.DoAdd | stack/vm.h:67-71 | `do_add` makes ADD's step |
| StackVm.Machine.DoSub | stack/vm.h:73-77 | `do_sub` makes SUB's step |
| StackVm.Machine.DoMul | stack/vm.h:79-83 | `do_mul` makes MUL's step |
| StackVm.Machine.DoDiv | stack/vm.h:85-99 | `do_div` exits exactly when DivStep does, and otherwise makes DIV's step |
| StackVm.Machine.DoPopRes | stack/vm.h:101-103 | `do_pop_res` makes POP_RES's step |
| StackVm.Machine.Dispatch | stack/vm.h:112-145 | the function-dispatch switch goes on, returns or exits exactly as DispatchSwitch says |
| StackVm.Machine.InterpretFunctionDispatch | stack/vm.h:108-147 | `interpret_function_dispatch` ends as RunFunctionDispatch does from instruction pointer 0 |
| StackVm.Machine.InlinePushImm | stack/vm.h:157-162 | the inline PUSH_IMM case makes InlinePushCase's step |
| StackVm.Machine.InlineArithmetic | stack/vm.h:163-183 | the inline ADD, SUB and MUL cases make InlineBinaryCase's step |
| StackVm.Machine.InlineDiv | stack/vm.h:184-197 | the inline DIV case returns ERR_DIV_ZERO or goes on exactly as InlineBinaryCase says |
| StackVm.Machine.InlinePopRes | stack/vm.h:198-206 | the inline POP_RES case makes InlinePopResCase's step |
| StackVm.Machine.InlineDispatch | stack/vm.h:156-215 | the inline switch goes on or returns exactly as InlineSwitch says |
| StackVm.Machine.InterpretInline | stack/vm.h:152-217 | `interpret_inline` ends as RunInline does from instruction pointer 0 |
| StackVm.AddProgram | stack/interpreter.c:8-16 | the driver's program is seven bytes |
| StackVm.AddProgramRuns | stack/interpreter.c:7-18 | from an empty stack both interpreters return SUCCESS with 15 in `res` and the stack empty again |
| StackVm.DivByZeroProgramRuns | stack/vm.h:85-99 | dividing 5 by 0 returns ERR_DIV_ZERO inline and exits under function dispatch |
| StackVm.RunAddProgram | stack/interpreter.c:7-19 | reset, either interpreter, then `res`: SUCCESS and 15 |
| ImmBin.BitValue | stack/assembler.c:63-66 | a binary digit is worth 0 or 1 |
| ImmBin.ParseBinary | stack/assembler.c:138-139 | an s-digit binary string is worth less than 2^s |
| ImmBin.Digits | stack/assembler.c:56-69 | n written in c binary digits has c characters |
| ImmBin.ShiftOnce | stack/assembler.c:63-66 | each pass of the loop halves the value once more |
| ImmBin.DigitsAt | stack/assembler.c:63-66 | digit i of the string is bit c-1-i of the value |
| ImmBin.DigitsMsbFirst | stack/assembler.c:63-66 | the string holds the bits most significant first |
| ImmBin.DigitsAreBinary | stack/assembler.c:63-66 | every character written is '0' or '1' |
| ImmBin.DigitsCons | stack/assembler.c:63-66 | writing one more digit puts it in front |
| ImmBin.Recombine | stack/assembler.c:63-66 | the low bits and the high part recombine to the value |
| ImmBin.ParseDigits | stack/assembler.c:56-69 | reading the c digits back in base 2 gives n modulo 2^c |
| ImmBin.ParseByteDigits | stack/assembler.c:56-69 | the eight digits of a byte read back in base 2 as that byte |
| ImmBin.FillStep | stack/assembler.c:63-66 | one pass of the fill loop keeps the loop invariant |
| ImmBin.ImmBinStr | stack/assembler.c:56-69 | `imm_bin_str` returns the eight digits, most significant first, and `strtol(s, NULL, 2)` of them is the immediate |
| ImmBin.ParsePrefix | stack/assembler.c:139-139 | reading in base 2 is left to right: one more digit doubles and adds |
| ImmBin.ParseFour | reg/assembler.c:29-35 | the value of a four-digit binary string |
| ImmBin.ParseEight | stack/assembler.c:39-51 | the value of an eight-digit binary string |
| Decimal.DigitValue | stack/assembler.c:138-138 | a decimal digit is worth below 10 |
| Decimal.DigitChar | stack/assembler.c:138-138 | the digit for a value below 10 reads back as that value |
| Decimal.DigitRun | stack/assembler.c:138-138 | `strtoul` reads the longest leading run of digits and stops at the first non-digit |
| Decimal.Render | stack/assembler.c:138-138 | a number's decimal form is a nonempty run of digits |
| Decimal.ValueOfRender | stack/assembler.c:138-138 | a number's decimal form reads back as the number |
| Decimal.DigitRunOfDigits | stack/assembler.c:138-138 | a run of digits followed by a non-digit is read to its end |
| Decimal.ParseDecimal | stack/assembler.c:138-138 | the model gives 0 on a line that does not start with a digit, and, as `strtoul` does, the whole value of a line of digits |
| Decimal.ParseStopsAtNonDigit | stack/assembler.c:138-138 | reading stops at the first non-digit: digits, a non-digit, then anything read as the digits' value |
| Decimal.ParseRenderedLine | stack/assembler.c:138-138 | a line holding a number's decimal form and a newline reads back as the number |
| StackAsm.FindMnemonic | stack/assembler.c:120-176 | the match found is at or after the first mnemonic tested |
| StackAsm.MnemonicIndex | stack/assembler.c:120-176 | the match is one of the thirteen mnemonics |
| StackAsm.FindMnemonicSpec | stack/assembler.c:120-176 | the chain finds the first mnemonic equal to the line, and finds none exactly when no mnemonic from there on equals it |
| StackAsm.MnemonicIndexSpec | stack/assembler.c:120-181 | a line is recognised exactly when it is a mnemonic, and then as that mnemonic |
| StackAsm.Assembled | stack/assembler.c:109-187 | at most one byte per line is written, exactly one per line on success; a successful file starts with a mnemonic, and a PUSH_IMM first line has a line after it; how its bytes are built line by line is stated by StackAsm.UnfoldPushImm, StackAsm.UnfoldPlain, StackAsm.PrependTwice and StackAsm.AssembledAppend |
| StackAsm.MnemonicsDistinct | stack/assembler.c:22-34 | the thirteen mnemonics are different lines |
| StackAsm.MnemonicIndexOf | stack/assembler.c:120-176 | each mnemonic is recognised as itself |
| StackAsm.OpcodeStringsParse | stack/assembler.c:39-51 | the k-th opcode string reads in base 2 as k |
| StackAsm.OpcodeStringParses | stack/assembler.c:39-51 | the same for one k |
| StackAsm.OpcodeStringsLow | stack/assembler.c:39-42 | the same for PUSH_IMM..MUL |
| StackAsm.OpcodeStringsMid | stack/assembler.c:43-46 | the same for DIV..XOR |
| StackAsm.OpcodeStringsHigh | stack/assembler.c:47-51 | the same for NOT..DONE |
| StackAsm.Assemble | stack/assembler.c:109-187 | the loop writes the bytes Assembled gives and ends as it says |
| StackAsm.PrependTwice | stack/assembler.c:127-186 | two writes in a row are one write of both |
| StackAsm.AssembledAppend | stack/assembler.c:109-187 | a source that assembles cleanly followed by more source gives its bytes and then what the rest gives |
| StackAsm.AppendPushImm | stack/assembler.c:120-140 | the same, when the first line is PUSH_IMM |
| StackAsm.AppendPlain | stack/assembler.c:141-176 | the same, when the first line is another mnemonic |
| StackAsm.AppendStep | stack/assembler.c:109-187 | one instruction of the prefix moves from the prefix to the bytes |
| StackAsm.UnfoldPushImm | stack/assembler.c:120-140 | PUSH_IMM writes 0, then the immediate, then goes on after the immediate line |
| StackAsm.UnfoldPlain | stack/assembler.c:141-186 | another mnemonic writes its index and goes on with the next line |
| StackAsm.ImmediateByte | stack/assembler.c:138-138 | the immediate is the `strtoul` value when it fits a byte, and in every case differs from it by a multiple of 256 |
| StackAsm.ImmediateRoundTrip | stack/assembler.c:138-139 | a byte written in decimal on its own line reads back as that byte |
| StackAsm.AssembleRendered | stack/assembler.c:109-187 | every program written out as source assembles, without error, into that program's bytes |
| StackAsm.PushImmOnLastLine | stack/assembler.c:132-136 | a PUSH_IMM on the last line fails for want of an immediate, after its 0 byte was written |
| StackAsm.UnknownLine | stack/assembler.c:177-181 | a line that is no mnemonic stops the loop, keeping what was written before it |
| RegAsm.Recognise | reg/assembler.c:107-125 | the chain accepts a line exactly when one of the mnemonics it tests equals it |
| RegAsm.Assemble | reg/assembler.c:95-131 | one word per accepted line; every line before the stop is a mnemonic and the line it stops at is not; it succeeds exactly when every line is a mnemonic |
| RegAsm.MnemonicsDistinct | reg/assembler.c:14-20 | the seven mnemonics are different lines |
| RegAsm.OpcodeBinsMatchVm | reg/assembler.c:29-35 | the k-th binary string reads as k, which is the register machine's opcode for the k-th mnemonic |
| StackToolchain.AddSourceAssembles | stack/assembler.c:109-187 | the driver's program as source assembles into 0,10,0,5,1,11,12 |
| StackToolchain.MiddleAssembles | stack/assembler.c:109-187 | its last five lines assemble into 0,5,1,11,12 |
| StackToolchain.ImmediateLines | stack/assembler.c:138-139 | its immediate lines read as 10 and 5 |
| StackToolchain.TailAssembles | stack/assembler.c:141-176 | ADD, POP_RES and DONE assemble into 1, 11 and 12 |
| StackToolchain.AssembledAddProgramRuns | stack/vm.h:140-144 | both interpreters stop those bytes at byte 11 with ERR_UNKNOWN_OPCODE, with 15 left on the stack and `res` untouched |

## Left out

- The tracing output of the machines is left out: the `printf` and `fprintf` calls in reg/vm.h (68, 95, 109-220, 256-287) and stack/vm.h (41, 50, 58, 95, 141-142, 211-212). It does not change the machine state.
- Files, `argv`, `fopen`, `fread`, `fwrite`, `printf` and `fflush` in the drivers and assemblers. The assemblers take the list of lines that `fgets` returns and give back the bytes written. Lines longer than 99 characters, which `fgets` splits, are not modelled.
- `exit(EXIT_FAILURE)` in the assemblers is an error status on the result, after the bytes written before it.
- The `malloc` failure in `imm_bin_str` is left out, because allocation is not modelled.
- Decimal.ParseDecimal: models `strtoul` only on a line that starts with digits. It skips no leading whitespace, reads no sign and does not saturate at `ULONG_MAX`. The value is cut to 8 bits, as the `uint8_t` parameter of `imm_bin_str` cuts it.
- RegAsm.Assemble: states only how many words are written. The C code writes an `instruction` variable that is never assigned, so what the words contain is undefined.
- `threaded_interpret` in `reg/vm.h` is left out, because the code as written cannot run a program. `go_next` indexes the label table by the whole 16-bit word, not by its decoded opcode (reg/vm.h:37). The table has six entries and none for DONE (reg/vm.h:120-127). `done_label` is unreachable (reg/vm.h:219). Its handlers (`do_*`) are modelled and proved equal to `interpret`'s cases. The stack machine's `interpret_threaded_dispatch` is declared by its driver but defined nowhere.
- The register machine's instruction pointer is an index into the code, and `reset_vm`'s NULL pointer is index 0.
- The `DEBUG` macro of `stack/vm.h` is left out. Nothing uses it, and its body, which adds string literals to integers, would not compile if it were expanded.
- The stack machines' NULL `stack_top` before the first `reset_vm` is index 0 in StackVm.Machine.constructor and StackInterpreter.Machine.constructor. So a push, a pop or an interpreter run before `reset_vm`, undefined in C, is not excluded by the model.
- `stack/interpreter.h` holds only the struct, the enums, `reset_vm`, `stack_push` and `stack_pop`. The `interpret` that `stack/interpreter.c` calls is declared nowhere, so only those stack operations are modelled. Its driver's program runs on the `stack/vm.h` machine in StackVm.RunAddProgram.
- `decode` and `interpret` in `reg/interpreter.h` are declared with no body. The macros are modelled instead, and `interpret` is the one in `reg/vm.h`.
- The assembler's AND, OR, XOR, NOT, LSHIFT and RSHIFT have no meaning on the stack machine, which treats their bytes 5..10 as its own POP_RES and DONE or as unknown opcodes.
- `stack/compiler.c` is not part of this model.
- `stack/vm.c` reads a program of at most 100 bytes from a file, and `stack/interpreter.c` runs a literal array. The model takes the code as a sequence of any length.
- RegVm.Machine.Interpret: requires a run that returns inside the code. It does not model running past the end of the array, which is undefined in C.
- StackVm.Machine.InterpretInline and StackVm.Machine.InterpretFunctionDispatch: require a run that is not undefined. The pure runs still model the undefined cases as `Undef`.
