/** The decoded instruction the simulator consumes, as a native datatype in
    place of the decoder's foreign `instruction` / `instruction_operand`
    structures. Only the fields the execution step reads are kept. */
module Instructions {

  /** A signed 32-bit immediate, as the decoder stores it. */
  newtype int32 = x: int | -0x8000_0000 <= x < 0x8000_0000

  /** The operation kinds the simulator distinguishes; every other kind the
      decoder knows is OtherOp. */
  datatype OperationType = Mov | Add | Sub | Cmp | OtherOp

  /** An operand: a register access (decoder index and byte offset), an
      immediate, or any other kind (memory, relative immediate, none). */
  datatype Operand =
    | Register(index: nat, offset: nat)
    | Immediate(value: int32)
    | OtherOperand

  /** `dst` is the decoder's `Operands[0]`, `src` its `Operands[1]`;
      `flags` is the decoder's instruction flag word. */
  datatype Instruction = Instruction(op: OperationType, flags: bv32, dst: Operand, src: Operand)

  /** The decoder's "wide" flag bit. */
  const INST_WIDE: bv32 := 8

  /** A word-width instruction: `(inst.Flags & 8) == 8`, a test of the
      single wide bit. */
  predicate IsWide(inst: Instruction): (w: bool)
    ensures w <==> inst.flags & INST_WIDE != 0
  {
    inst.flags & INST_WIDE == INST_WIDE
  }

  /** The 32-bit two's-complement pattern of a signed immediate. */
  function Bits(v: int32): bv32 {
    (if v < 0 then v as int + 0x1_0000_0000 else v as int) as bv32
  }

  /** `Value as u16`: the low 16 bits of the immediate's pattern; the
      pattern is its upper half followed by the result. */
  function AsU16(v: int32): (r: bv16)
    ensures (Bits(v) & 0xFFFF_0000) | r as bv32 == Bits(v)
  {
    (Bits(v) & 0xFFFF) as bv16
  }

  /** `Value as u8`: the low 8 bits of the immediate's pattern, which are
      also the low 8 bits of its `as u16` truncation. */
  function AsU8(v: int32): (r: bv8)
    ensures r == (AsU16(v) & 0xFF) as bv8
  {
    (Bits(v) & 0xFF) as bv8
  }
}
