/** The stack assembler and the stack machine side by side. The assembler's
    opcode table (stack/assembler.c) numbers POP_RES 11 and DONE 12, the
    machine's enum (stack/vm.h) numbers them 5 and 6, and the machine has no
    AND ... RSHIFT. Both tables are modelled as written; this module shows
    what the mismatch does to the driver's program. */
module StackToolchain {
  import StackAsm
  import StackVm
  import Decimal
  import opened OperandStack
  import opened VmResult
  import opened Uint64

  /** The source text of the stack machine driver's program, line by line. */
  const ADD_SOURCE: seq<string> := ["PUSH_IMM\n", "10\n", "PUSH_IMM\n", "5\n", "ADD\n", "POP_RES\n", "DONE\n"]

  /** The assembler turns the source into one byte per line: POP_RES and
      DONE become 11 and 12. */
  lemma AddSourceAssembles()
    ensures StackAsm.Assembled(ADD_SOURCE) == StackAsm.Assembly([0, 10, 0, 5, 1, 11, 12], StackAsm.Ok)
  {
    var src := ADD_SOURCE;
    MiddleAssembles();
    StackAsm.MnemonicIndexOf(0);
    ImmediateLines();
    StackAsm.UnfoldPushImm(src);
    assert src[2..] == ADD_SOURCE[2..];
  }

  /** From the second PUSH_IMM on: 0, 5, 1, 11, 12. */
  lemma MiddleAssembles()
    ensures StackAsm.Assembled(ADD_SOURCE[2..]) == StackAsm.Assembly([0, 5, 1, 11, 12], StackAsm.Ok)
  {
    var src := ADD_SOURCE[2..];
    TailAssembles();
    StackAsm.MnemonicIndexOf(0);
    ImmediateLines();
    assert src[2..] == ADD_SOURCE[4..];
    StackAsm.UnfoldPushImm(src);
  }

  /** The immediate lines read as 10 and 5. */
  lemma ImmediateLines()
    ensures StackAsm.ImmediateByte(ADD_SOURCE[1]) == 10
    ensures StackAsm.ImmediateByte(ADD_SOURCE[3]) == 5
  {
    assert Decimal.Render(10) + "\n" == ADD_SOURCE[1];
    assert Decimal.Render(5) + "\n" == ADD_SOURCE[3];
    StackAsm.ImmediateRoundTrip(10);
    StackAsm.ImmediateRoundTrip(5);
  }

  /** The last three lines, ADD, POP_RES and DONE, become 1, 11 and 12. */
  lemma TailAssembles()
    ensures StackAsm.Assembled(ADD_SOURCE[4..]) == StackAsm.Assembly([1, 11, 12], StackAsm.Ok)
  {
    var src := ADD_SOURCE;
    StackAsm.MnemonicIndexOf(1);
    StackAsm.MnemonicIndexOf(11);
    StackAsm.MnemonicIndexOf(12);
    assert src[6..] == [StackAsm.MNEMONICS[12]];
    StackAsm.UnfoldPlain(src[6..], 12);
    assert src[5..] == [StackAsm.MNEMONICS[11]] + src[6..];
    StackAsm.UnfoldPlain(src[5..], 11);
    assert src[4..] == [StackAsm.MNEMONICS[1]] + src[5..];
    StackAsm.UnfoldPlain(src[4..], 1);
  }

  /** Loaded as it is written, that bytecode stops both interpreters at
      byte 11 with ERR_UNKNOWN_OPCODE, the sum 15 still on the stack and
      the result slot untouched. */
  lemma AssembledAddProgramRuns(slots: seq<U64>, res: U64)
    requires |slots| == STACK_MAX
    ensures var code: seq<bv8>, s := [0, 10, 0, 5, 1, 11, 12], StackVm.VmState(0, Stack(slots, 0), res);
      var o := StackVm.RunInline(code, s);
      && o.Halted? && o.status == ErrUnknownOpcode && o.state.ip == 6 && o.state.res == res
      && Contents(o.state.stack) == [15]
      && StackVm.RunFunctionDispatch(code, s) == o
  {
    var code: seq<bv8> := [0, 10, 0, 5, 1, 11, 12];
    var s0 := StackVm.VmState(0, Stack(slots, 0), res);
    var s1 := StackVm.VmState(2, Stack(slots[0 := 10], 1), res);
    var s2 := StackVm.VmState(4, Stack(slots[0 := 10][1 := 5], 2), res);
    var s3 := StackVm.VmState(5, Stack(slots[0 := 10][1 := 5][0 := 15], 1), res);
    assert StackVm.InlineStep(code, s0) == StackVm.Next(s1);
    assert StackVm.InlineStep(code, s1) == StackVm.Next(s2);
    assert StackVm.InlineStep(code, s2) == StackVm.Next(s3);
    assert StackVm.InlineStep(code, s3) == StackVm.Halt(ErrUnknownOpcode, s3.(ip := 6));
    assert StackVm.RunInline(code, s2) == StackVm.Halted(ErrUnknownOpcode, s3.(ip := 6));
    assert StackVm.RunInline(code, s1) == StackVm.Halted(ErrUnknownOpcode, s3.(ip := 6));
    assert Contents(s3.stack) == [15];
    StackVm.SameOutcomeWithoutDivZero(code, s0);
  }
}
