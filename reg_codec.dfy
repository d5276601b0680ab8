/** The register machine's instruction word (reg/interpreter.h, repeated in
    reg/vm.h): a 16-bit word holding a 4-bit opcode in bits 15..12, then
    either three 4-bit register fields r0 (bits 11..8), r1 (7..4) and r2
    (3..0), or one register r0 and an 8-bit immediate in bits 7..0 that
    overlaps r1 and r2. */
module RegCodec {

  /** NUM_REGS: the size of the register file. */
  const NUM_REGS: nat := 16

  // The opcode enum.
  const LOAD_IMM: bv16 := 0
  const ADD: bv16 := 1
  const SUB: bv16 := 2
  const MUL: bv16 := 3
  const DIV: bv16 := 4
  const MOV_RES: bv16 := 5
  const DONE: bv16 := 6

  /** The decoded opcodes the enum names; 7..15 decode but name nothing. */
  predicate IsOpcode(op: bv16)
  {
    op <= DONE
  }

  // DECODE_* macros: each field is masked out of the word and shifted down.

  function DecodeOp(w: bv16): (op: bv16)
    ensures op < 16
  {
    (w & 0xF000) >> 12
  }

  function DecodeR0(w: bv16): (r0: bv16)
    ensures r0 < 16
  {
    (w & 0x0F00) >> 8
  }

  function DecodeR1(w: bv16): (r1: bv16)
    ensures r1 < 16
  {
    (w & 0x00F0) >> 4
  }

  function DecodeR2(w: bv16): (r2: bv16)
    ensures r2 < 16
  {
    w & 0x000F
  }

  function DecodeImm(w: bv16): (imm: bv16)
    ensures imm < 256
  {
    w & 0x00FF
  }

  // The fields as the uint8_t numbers `interpret` decodes into: the opcode,
  // the register indices and the immediate it loads.

  function OpValue(w: bv16): (op: nat)
    ensures op < 16
  {
    DecodeOp(w) as nat
  }

  function Reg0(w: bv16): (r: nat)
    ensures r < NUM_REGS
  {
    DecodeR0(w) as nat
  }

  function Reg1(w: bv16): (r: nat)
    ensures r < NUM_REGS
  {
    DecodeR1(w) as nat
  }

  function Reg2(w: bv16): (r: nat)
    ensures r < NUM_REGS
  {
    DecodeR2(w) as nat
  }

  function ImmValue(w: bv16): (imm: nat)
    ensures imm < 256
  {
    DecodeImm(w) as nat
  }

  // ENCODE_* macros. An operand outside its field (an opcode or register of
  // 16 or more, an immediate of 256 or more) spills into the neighbouring
  // field in C; the requires clauses rule those arguments out.

  /** ENCODE_OP: the opcode alone, every operand bit zero. */
  function EncodeOp(op: bv16): (w: bv16)
    requires op < 16
    ensures DecodeOp(w) == op
    ensures w & 0x0FFF == 0
  {
    op << 12
  }

  /** ENCODE_OP_REG: opcode and r0, the low byte zero. */
  function EncodeOpReg(op: bv16, reg: bv16): (w: bv16)
    requires op < 16 && reg < 16
    ensures DecodeOp(w) == op && DecodeR0(w) == reg
    ensures w & 0x00FF == 0
  {
    EncodeOp(op) | (reg << 8)
  }

  /** ENCODE_OP_REG_IMM: opcode, r0 and an 8-bit immediate. */
  function EncodeOpRegImm(op: bv16, reg: bv16, imm: bv16): (w: bv16)
    requires op < 16 && reg < 16 && imm < 256
    ensures DecodeOp(w) == op && DecodeR0(w) == reg && DecodeImm(w) == imm
  {
    EncodeOp(op) | (reg << 8) | imm
  }

  /** ENCODE_OP_REGS: opcode and three registers. */
  function EncodeOpRegs(op: bv16, r0: bv16, r1: bv16, r2: bv16): (w: bv16)
    requires op < 16 && r0 < 16 && r1 < 16 && r2 < 16
    ensures DecodeOp(w) == op && DecodeR0(w) == r0 && DecodeR1(w) == r1 && DecodeR2(w) == r2
  {
    EncodeOp(op) | (r0 << 8) | (r1 << 4) | r2
  }

  /** The four 4-bit fields are disjoint and cover the word: re-encoding the
      decoded fields of any word gives that word back. */
  lemma EncodeDecodeRegs(w: bv16)
    ensures EncodeOpRegs(DecodeOp(w), DecodeR0(w), DecodeR1(w), DecodeR2(w)) == w
  {
  }

  /** The same holds for the register-and-immediate view of a word. */
  lemma EncodeDecodeRegImm(w: bv16)
    ensures EncodeOpRegImm(DecodeOp(w), DecodeR0(w), DecodeImm(w)) == w
  {
  }

  /** The immediate is the r1 and r2 fields read together. */
  lemma ImmOverlapsRegisters(w: bv16)
    ensures DecodeImm(w) == (DecodeR1(w) << 4) | DecodeR2(w)
  {
  }

  /** Hence two words with the same fields are the same word. */
  lemma DecodeInjective(w: bv16, w': bv16)
    requires DecodeOp(w) == DecodeOp(w') && DecodeR0(w) == DecodeR0(w')
    requires DecodeR1(w) == DecodeR1(w') && DecodeR2(w) == DecodeR2(w')
    ensures w == w'
  {
    EncodeDecodeRegs(w);
    EncodeDecodeRegs(w');
  }

  /** The encodings asserted by the encoder's test program. */
  lemma EncodeVectors()
    ensures EncodeOpRegImm(LOAD_IMM, 0, 6) == 0x0006
    ensures EncodeOpRegImm(LOAD_IMM, 1, 2) == 0x0102
    ensures EncodeOpRegs(DIV, 0, 1, 2) == 0x4012
    ensures EncodeOpReg(MOV_RES, 2) == 0x5200
    ensures EncodeOp(DONE) == 0x6000
  {
  }
}
