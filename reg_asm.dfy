/** The line loop of the register assembler (reg/assembler.c). Each line
    `fgets` returns must be exactly one of seven mnemonics, newline
    included; any other line ends the process. One 16-bit word is written
    per accepted line, but the word is never assigned a value, so only the
    number of words written is modelled. The binary opcode strings are
    declared but unused by the loop; they are checked against the VM's
    opcode enum. */
module RegAsm {
  import opened ImmBin
  import RegCodec

  /** The mnemonics, in the order the `strcmp` chain tests them. */
  const REG_MNEMONICS: seq<string> := [
    "LOAD_IMM\n", "ADD\n", "SUB\n", "MUL\n", "DIV\n", "MOV_RES\n", "DONE\n"]

  /** The opcode binary strings, in the same order. */
  const REG_OPCODE_BINS: seq<string> := ["0000", "0001", "0010", "0011", "0100", "0101", "0110"]

  /** The register machine's opcodes, in the same order. */
  const VM_OPCODES: seq<bv16> := [
    RegCodec.LOAD_IMM, RegCodec.ADD, RegCodec.SUB, RegCodec.MUL,
    RegCodec.DIV, RegCodec.MOV_RES, RegCodec.DONE]

  /** The chain of `strcmp` tests from index i on: the first mnemonic equal
      to the line, or none. */
  function Recognise(line: string, i: nat): (found: bool)
    requires i <= |REG_MNEMONICS|
    ensures found <==> exists j :: i <= j < |REG_MNEMONICS| && REG_MNEMONICS[j] == line
    decreases |REG_MNEMONICS| - i
  {
    if i == |REG_MNEMONICS| then false
    else REG_MNEMONICS[i] == line || Recognise(line, i + 1)
  }

  /** The loop in `main`: read lines until the end of the file, failing at
      the first line that is no mnemonic. The result is the number of
      two-byte words written and whether the loop reached the end of the
      file. Every line before the one it stopped at is a mnemonic, and the
      line it stopped at is not; so it succeeds exactly when every line is
      a mnemonic. */
  method Assemble(lines: seq<string>) returns (words: nat, ok: bool)
    ensures words <= |lines|
    ensures forall i :: 0 <= i < words ==> lines[i] in REG_MNEMONICS
    ensures words < |lines| ==> lines[words] !in REG_MNEMONICS
    ensures ok <==> words == |lines|
    ensures ok <==> forall i :: 0 <= i < |lines| ==> lines[i] in REG_MNEMONICS
  {
    words := 0;
    while words < |lines|
      invariant words <= |lines|
      invariant forall i :: 0 <= i < words ==> lines[i] in REG_MNEMONICS
    {
      if !Recognise(lines[words], 0) {
        return words, false;
      }
      words := words + 1;
    }
    ok := true;
  }

  /** The seven mnemonics are different lines. */
  lemma MnemonicsDistinct()
    ensures forall i, j :: 0 <= i < j < |REG_MNEMONICS| ==> REG_MNEMONICS[i] != REG_MNEMONICS[j]
  {
    forall i, j | 0 <= i < j < |REG_MNEMONICS|
      ensures REG_MNEMONICS[i] != REG_MNEMONICS[j]
    {
      assert REG_MNEMONICS[i][0] != REG_MNEMONICS[j][0] || REG_MNEMONICS[i][1] != REG_MNEMONICS[j][1];
    }
  }

  /** The binary strings read in base 2 as 0, 1, ..., 6: the values of the
      register machine's opcodes for the same mnemonics, so the strings are
      distinct and follow the enum's order. */
  lemma OpcodeBinsMatchVm()
    ensures forall k :: 0 <= k < |REG_OPCODE_BINS| ==>
      IsBinary(REG_OPCODE_BINS[k]) && ParseBinary(REG_OPCODE_BINS[k]) == k
    ensures forall k :: 0 <= k < |REG_OPCODE_BINS| ==> VM_OPCODES[k] as nat == k
  {
    forall k | 0 <= k < |REG_OPCODE_BINS|
      ensures IsBinary(REG_OPCODE_BINS[k]) && ParseBinary(REG_OPCODE_BINS[k]) == k
    {
      ParseFour(REG_OPCODE_BINS[k]);
    }
  }
}
