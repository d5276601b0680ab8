/** The line-to-byte loop of the stack assembler (stack/assembler.c). The
    source file is the sequence of lines `fgets` returns, each with its
    newline; the destination file is the sequence of bytes written to it.
    A line must be exactly one of thirteen mnemonics, newline included, and
    becomes the byte its binary string reads as; a PUSH_IMM line is followed
    by a line whose leading decimal number, cut to 8 bits, is the immediate.
    Both errors end the process, after the bytes written so far. */
module StackAsm {
  import opened ImmBin
  import Decimal

  /** The mnemonics, in the order the loop compares against them. */
  const MNEMONICS: seq<string> := [
    "PUSH_IMM\n", "ADD\n", "SUB\n", "MUL\n", "DIV\n", "AND\n", "OR\n",
    "XOR\n", "NOT\n", "LSHIFT\n", "RSHIFT\n", "POP_RES\n", "DONE\n"]

  /** The binary string of each mnemonic's opcode, in the same order. */
  const OPCODE_STRS: seq<string> := [
    "00000000", "00000001", "00000010", "00000011", "00000100", "00000101", "00000110",
    "00000111", "00001000", "00001001", "00001010", "00001011", "00001100"]

  /** The position of PUSH_IMM in both tables. */
  const PUSH_IMM_INDEX: nat := 0

  datatype Option<T> = None | Some(value: T)

  datatype AsmError = CannotParseLine | NoImmediate

  datatype Status = Ok | Failed(error: AsmError)

  /** The bytes in the destination file when the loop ends, and how it
      ended. */
  datatype Assembly = Assembly(bytes: seq<Byte>, status: Status)

  /** The `strcmp` tests from mnemonic i on: the index of the first one
      that equals line. */
  function FindMnemonic(line: string, i: nat): (k: Option<nat>)
    requires i <= |MNEMONICS|
    ensures k.Some? ==> i <= k.value < |MNEMONICS|
    decreases |MNEMONICS| - i
  {
    if i == |MNEMONICS| then None
    else if MNEMONICS[i] == line then Some(i)
    else FindMnemonic(line, i + 1)
  }

  /** The chain of `strcmp` tests: which mnemonic the line is, if any. */
  function MnemonicIndex(line: string): (k: Option<nat>)
    ensures k.Some? ==> k.value < |MNEMONICS|
  {
    FindMnemonic(line, 0)
  }

  lemma {:induction false} FindMnemonicSpec(line: string, i: nat)
    requires i <= |MNEMONICS|
    ensures var k := FindMnemonic(line, i);
      && (k.Some? ==> MNEMONICS[k.value] == line && forall j :: i <= j < k.value ==> MNEMONICS[j] != line)
      && (k.None? <==> forall j :: i <= j < |MNEMONICS| ==> MNEMONICS[j] != line)
    decreases |MNEMONICS| - i
  {
    if i < |MNEMONICS| && MNEMONICS[i] != line {
      FindMnemonicSpec(line, i + 1);
    }
  }

  /** The line is recognised exactly when it is one of the mnemonics, and
      then as the first mnemonic equal to it. */
  lemma MnemonicIndexSpec(line: string)
    ensures var k := MnemonicIndex(line);
      && (k.Some? ==> MNEMONICS[k.value] == line && forall j :: 0 <= j < k.value ==> MNEMONICS[j] != line)
      && (k.None? <==> line !in MNEMONICS)
  {
    FindMnemonicSpec(line, 0);
  }

  /** The immediate the line after PUSH_IMM gives: `strtoul` of the line,
      passed to `imm_bin_str` as a uint8_t. */
  function ImmediateByte(line: string): (b: Byte)
    ensures Decimal.ParseDecimal(line) < 256 ==> b == Decimal.ParseDecimal(line)
    ensures (Decimal.ParseDecimal(line) - b) % 256 == 0
  {
    Decimal.ParseDecimal(line) % 256
  }

  /** The bytes written before the rest of the loop's output. */
  function Prepend(bytes: seq<Byte>, a: Assembly): Assembly
  {
    Assembly(bytes + a.bytes, a.status)
  }

  /** What the loop writes for the lines, and how it ends. A mnemonic's
      byte is its index; a missing immediate leaves the PUSH_IMM byte
      written. Each byte stands for one line consumed, so no more bytes
      than lines are written, and exactly as many when the loop succeeds. */
  function Assembled(lines: seq<string>): (a: Assembly)
    ensures |a.bytes| <= |lines|
    ensures a.status == Ok ==> |a.bytes| == |lines|
    ensures a.status == Ok && lines != [] ==> MnemonicIndex(lines[0]).Some?
    ensures a.status == Ok && lines != [] && MnemonicIndex(lines[0]) == Some(PUSH_IMM_INDEX) ==> |lines| >= 2
    decreases |lines|
  {
    if lines == [] then Assembly([], Ok)
    else match MnemonicIndex(lines[0])
      case None => Assembly([], Failed(CannotParseLine))
      case Some(k) =>
        if k == PUSH_IMM_INDEX then
          if |lines| == 1 then Assembly([0], Failed(NoImmediate))
          else Prepend([0, ImmediateByte(lines[1])], Assembled(lines[2..]))
        else Prepend([k], Assembled(lines[1..]))
  }

  /** The mnemonics are thirteen different lines. */
  lemma MnemonicsDistinct()
    ensures forall i, j :: 0 <= i < j < |MNEMONICS| ==> MNEMONICS[i] != MNEMONICS[j]
  {
    forall i, j | 0 <= i < j < |MNEMONICS|
      ensures MNEMONICS[i] != MNEMONICS[j]
    {
      assert MNEMONICS[i][0] != MNEMONICS[j][0] || MNEMONICS[i][1] != MNEMONICS[j][1]
        || |MNEMONICS[i]| != |MNEMONICS[j]|;
    }
  }

  /** Hence each mnemonic line is recognised as itself. */
  lemma MnemonicIndexOf(k: nat)
    requires k < |MNEMONICS|
    ensures MnemonicIndex(MNEMONICS[k]) == Some(k)
  {
    MnemonicIndexSpec(MNEMONICS[k]);
    MnemonicsDistinct();
  }

  /** The binary strings are read by `strtol(_, NULL, 2)` as 0, 1, ..., 12:
      thirteen different bytes in the order of the mnemonics. */
  lemma OpcodeStringsParse()
    ensures forall k :: 0 <= k < |OPCODE_STRS| ==> IsBinary(OPCODE_STRS[k]) && ParseBinary(OPCODE_STRS[k]) == k
  {
    forall k | 0 <= k < |OPCODE_STRS|
      ensures IsBinary(OPCODE_STRS[k]) && ParseBinary(OPCODE_STRS[k]) == k
    {
      OpcodeStringParses(k);
    }
  }

  lemma OpcodeStringParses(k: nat)
    requires k < |OPCODE_STRS|
    ensures IsBinary(OPCODE_STRS[k]) && ParseBinary(OPCODE_STRS[k]) == k
  {
    if k < 4 {
      OpcodeStringsLow(k);
    } else if k < 8 {
      OpcodeStringsMid(k);
    } else {
      OpcodeStringsHigh(k);
    }
  }

  // A few table entries at a time, which keeps each proof small.

  lemma OpcodeStringsLow(k: nat)
    requires k < 4
    ensures IsBinary(OPCODE_STRS[k]) && ParseBinary(OPCODE_STRS[k]) == k
  {
    ParseEight(OPCODE_STRS[k]);
  }

  lemma OpcodeStringsMid(k: nat)
    requires 4 <= k < 8
    ensures IsBinary(OPCODE_STRS[k]) && ParseBinary(OPCODE_STRS[k]) == k
  {
    ParseEight(OPCODE_STRS[k]);
  }

  lemma OpcodeStringsHigh(k: nat)
    requires 8 <= k < |OPCODE_STRS|
    ensures IsBinary(OPCODE_STRS[k]) && ParseBinary(OPCODE_STRS[k]) == k
  {
    ParseEight(OPCODE_STRS[k]);
  }

  /** The loop in `main`: for each line, find its mnemonic or fail; for
      PUSH_IMM write the opcode byte, read the next line or fail, and turn
      it into a byte through `imm_bin_str` and `strtol`; write the byte. */
  method Assemble(lines: seq<string>) returns (bytes: seq<Byte>, status: Status)
    ensures Assembly(bytes, status) == Assembled(lines)
  {
    bytes := [];
    var i := 0;
    while i < |lines|
      invariant 0 <= i <= |lines|
      invariant Prepend(bytes, Assembled(lines[i..])) == Assembled(lines)
      decreases |lines| - i
    {
      ghost var rest, before := lines[i..], bytes;
      var line := lines[i];
      i := i + 1;
      var k := MnemonicIndex(line);
      if k.None? {
        assert Assembled(rest) == Assembly([], Failed(CannotParseLine));
        return bytes, Failed(CannotParseLine);
      }
      OpcodeStringParses(k.value);
      var instruction: Byte := ParseBinary(OPCODE_STRS[k.value]);
      ghost var written: seq<Byte>;
      if k.value == PUSH_IMM_INDEX {
        bytes := bytes + [instruction];
        if i == |lines| {
          assert Assembled(rest) == Assembly([0], Failed(NoImmediate));
          return bytes, Failed(NoImmediate);
        }
        var immStr := ImmBinStr(Decimal.ParseDecimal(lines[i]) % 256);
        instruction := ParseBinary(immStr);
        assert rest[2..] == lines[i + 1..];
        UnfoldPushImm(rest);
        written := [0, instruction];
        assert bytes + [instruction] == before + written;
        i := i + 1;
      } else {
        assert rest[1..] == lines[i..];
        UnfoldPlain(rest, k.value);
        written := [instruction];
      }
      PrependTwice(before, written, Assembled(lines[i..]));
      bytes := bytes + [instruction];
    }
    status := Ok;
    assert lines[i..] == [];
  }

  lemma PrependTwice(a: seq<Byte>, b: seq<Byte>, r: Assembly)
    ensures Prepend(a, Prepend(b, r)) == Prepend(a + b, r)
  {
    assert a + (b + r.bytes) == (a + b) + r.bytes;
  }

  /** Assembling lines that succeed and then more lines writes the first
      part's bytes, then what the rest writes, and ends as the rest ends. */
  lemma {:induction false} AssembledAppend(first: seq<string>, more: seq<string>)
    requires Assembled(first).status == Ok
    ensures Assembled(first + more) == Prepend(Assembled(first).bytes, Assembled(more))
    decreases |first|, 1
  {
    if first == [] {
      assert first + more == more;
    } else if MnemonicIndex(first[0]) == Some(PUSH_IMM_INDEX) {
      AppendPushImm(first, more);
    } else {
      AppendPlain(first, more);
    }
  }

  /** AssembledAppend when the first line is PUSH_IMM. */
  lemma {:induction false} AppendPushImm(first: seq<string>, more: seq<string>)
    requires Assembled(first).status == Ok
    requires first != [] && MnemonicIndex(first[0]) == Some(PUSH_IMM_INDEX)
    ensures Assembled(first + more) == Prepend(Assembled(first).bytes, Assembled(more))
    decreases |first|, 0
  {
    var all := first + more;
    var tail := first[2..];
    assert all[0] == first[0] && all[1] == first[1];
    assert all[2..] == tail + more;
    AssembledAppend(tail, more);
    UnfoldPushImm(first);
    UnfoldPushImm(all);
    AppendStep(first, more, [0, ImmediateByte(first[1])], tail);
  }

  /** AssembledAppend when the first line is any other mnemonic. */
  lemma {:induction false} AppendPlain(first: seq<string>, more: seq<string>)
    requires Assembled(first).status == Ok
    requires first != [] && MnemonicIndex(first[0]) != Some(PUSH_IMM_INDEX)
    ensures Assembled(first + more) == Prepend(Assembled(first).bytes, Assembled(more))
    decreases |first|, 0
  {
    var all := first + more;
    var k := MnemonicIndex(first[0]);
    var tail := first[1..];
    assert all[0] == first[0];
    assert all[1..] == tail + more;
    AssembledAppend(tail, more);
    UnfoldPlain(first, k.value);
    UnfoldPlain(all, k.value);
    AppendStep(first, more, [k.value], tail);
  }

  /** The inductive step of AssembledAppend, once the first instruction's
      bytes are known. */
  lemma AppendStep(first: seq<string>, more: seq<string>, written: seq<Byte>, tail: seq<string>)
    requires Assembled(first) == Prepend(written, Assembled(tail))
    requires Assembled(first + more) == Prepend(written, Assembled(tail + more))
    requires Assembled(tail + more) == Prepend(Assembled(tail).bytes, Assembled(more))
    ensures Assembled(first + more) == Prepend(Assembled(first).bytes, Assembled(more))
  {
    PrependTwice(written, Assembled(tail).bytes, Assembled(more));
  }

  /** One step of Assembled on a PUSH_IMM line with its immediate line. */
  lemma UnfoldPushImm(lines: seq<string>)
    requires |lines| >= 2 && MnemonicIndex(lines[0]) == Some(PUSH_IMM_INDEX)
    ensures Assembled(lines) == Prepend([0, ImmediateByte(lines[1])], Assembled(lines[2..]))
  {
  }

  /** One step of Assembled on any other mnemonic line. */
  lemma UnfoldPlain(lines: seq<string>, k: nat)
    requires |lines| >= 1 && MnemonicIndex(lines[0]) == Some(k) && k != PUSH_IMM_INDEX
    ensures Assembled(lines) == Prepend([k], Assembled(lines[1..]))
  {
  }

  // -----------------------------------------------------------------------
  // Source programs, and the round trip through the assembler.

  /** A source instruction: PUSH_IMM with its immediate, or one of the other
      twelve mnemonics by its index. */
  datatype Instr = PushImm(imm: Byte) | Plain(index: nat)

  predicate ValidInstr(ins: Instr)
  {
    ins.Plain? ==> 0 < ins.index < |MNEMONICS|
  }

  /** The source lines of a program, the immediate in decimal. */
  function Render(prog: seq<Instr>): seq<string>
    requires forall i :: 0 <= i < |prog| ==> ValidInstr(prog[i])
  {
    if prog == [] then []
    else
      assert ValidInstr(prog[0]);
      var lines := match prog[0]
        case PushImm(v) => [MNEMONICS[PUSH_IMM_INDEX], Decimal.Render(v) + "\n"]
        case Plain(k) => [MNEMONICS[k]];
      lines + Render(prog[1..])
  }

  /** The bytes a program stands for. */
  function Encode(prog: seq<Instr>): seq<Byte>
    requires forall i :: 0 <= i < |prog| ==> ValidInstr(prog[i])
  {
    if prog == [] then []
    else
      assert ValidInstr(prog[0]);
      var code: seq<Byte> := match prog[0]
        case PushImm(v) => [0, v]
        case Plain(k) => [k];
      code + Encode(prog[1..])
  }

  /** The immediate's decimal line reads back as the immediate. */
  lemma ImmediateRoundTrip(v: Byte)
    ensures ImmediateByte(Decimal.Render(v) + "\n") == v
  {
    Decimal.ParseRenderedLine(v);
  }

  /** Every program's source assembles without error into the program's
      bytes. */
  lemma {:induction false} AssembleRendered(prog: seq<Instr>)
    requires forall i :: 0 <= i < |prog| ==> ValidInstr(prog[i])
    ensures Assembled(Render(prog)) == Assembly(Encode(prog), Ok)
  {
    if prog != [] {
      var lines := Render(prog);
      var tail := Render(prog[1..]);
      AssembleRendered(prog[1..]);
      match prog[0]
      case PushImm(v) =>
        MnemonicIndexOf(PUSH_IMM_INDEX);
        ImmediateRoundTrip(v);
        assert lines[0] == MNEMONICS[PUSH_IMM_INDEX];
        assert lines[2..] == tail;
      case Plain(k) =>
        MnemonicIndexOf(k);
        assert lines[0] == MNEMONICS[k];
        assert lines[1..] == tail;
    }
  }

  /** A PUSH_IMM on the last line fails for want of an immediate, after its
      opcode byte was written. */
  lemma PushImmOnLastLine(first: seq<string>)
    requires Assembled(first).status == Ok
    ensures Assembled(first + [MNEMONICS[PUSH_IMM_INDEX]])
      == Assembly(Assembled(first).bytes + [0], Failed(NoImmediate))
  {
    AssembledAppend(first, [MNEMONICS[PUSH_IMM_INDEX]]);
    MnemonicIndexOf(PUSH_IMM_INDEX);
  }

  /** A line that is not a mnemonic where an instruction is expected stops
      the loop with what was written before it. */
  lemma UnknownLine(first: seq<string>, line: string, more: seq<string>)
    requires Assembled(first).status == Ok && line !in MNEMONICS
    ensures Assembled(first + [line] + more) == Assembly(Assembled(first).bytes, Failed(CannotParseLine))
  {
    assert first + [line] + more == first + ([line] + more);
    AssembledAppend(first, [line] + more);
    MnemonicIndexSpec(line);
  }
}
