/** The register file: two banks of 16-bit registers and the flag word, how a
    decoder register index resolves to a slot (the source's `register_ptr`
    and `u16_ptr`), and the two byte halves of a word (`into_u8_ptr`). */
module RegisterFile {
  import opened Faults
  import opened Instructions

  /** Number of general word registers. */
  const REG_LEN: nat := 8
  /** Number of slots in the secondary (bus interface unit) bank. */
  const BIU_LEN: nat := 5

  /** A register slot, in place of the raw `*mut u16` the source computes:
      slot i of the general bank or slot i of the secondary bank. */
  datatype Loc = Gen(i: nat) | Biu(i: nat)

  predicate ValidLoc(l: Loc) {
    match l
    case Gen(i) => i < REG_LEN
    case Biu(i) => i < BIU_LEN
  }

  /** The decoder index that names a slot: 1..8 for the general bank,
      9..13 for the secondary bank. */
  function RegisterIndex(l: Loc): nat {
    match l
    case Gen(i) => i + 1
    case Biu(i) => i + REG_LEN + 1
  }

  /** Resolution of a decoder register index (`register_ptr`). Indices above
      REG_LEN go to the secondary bank, and above REG_LEN + BIU_LEN fault;
      index 0 cannot be resolved because `idx - 1` underflows. */
  function RegisterLoc(idx: nat): (r: Result<Loc>)
    ensures r.Ok? <==> 1 <= idx <= REG_LEN + BIU_LEN
    ensures r.Ok? ==> ValidLoc(r.value) && RegisterIndex(r.value) == idx
    ensures idx == 0 ==> r == Err(IndexUnderflow)
    ensures idx > REG_LEN + BIU_LEN ==> r == Err(IllegalAccess)
  {
    if idx > REG_LEN then
      if idx > REG_LEN + BIU_LEN then Err(IllegalAccess)
      else Ok(Biu(idx - (REG_LEN + 1)))
    else if idx == 0 then Err(IndexUnderflow)
    else Ok(Gen(idx - 1))
  }

  /** The word slot an operand denotes (`u16_ptr`): only a register
      operand denotes one. */
  function U16Loc(op: Operand): (r: Result<Loc>)
    ensures r.Ok? ==> op.Register? && r == RegisterLoc(op.index)
    ensures op.Register? ==> r == RegisterLoc(op.index)
    ensures !op.Register? ==> r == Err(NoLegalDestination)
  {
    match op
    case Register(idx, _) => RegisterLoc(idx)
    case _ => Err(NoLegalDestination)
  }

  /** Which byte of a 16-bit register a byte operand addresses, in memory
      order: Byte0 is the byte at the register's own address, Byte1 the next
      one. The simulator assumes a little-endian host, where Byte0 holds bits
      0-7 and Byte1 bits 8-15; GetByte and SetByte encode that assumption. */
  datatype ByteSel = Byte0 | Byte1

  function OtherByte(sel: ByteSel): ByteSel {
    match sel
    case Byte0 => Byte1
    case Byte1 => Byte0
  }

  /** `into_u8_ptr(p, Offset == 0)`: offset 0 keeps the register's own
      address, any other offset moves one byte further. */
  function ByteOf(offset: nat): (sel: ByteSel)
    ensures sel == Byte0 <==> offset == 0
  {
    if offset == 0 then Byte0 else Byte1
  }

  /** Reading one byte of a word through the byte pointer: on a
      little-endian host byte 0 is bits 0-7 and byte 1 bits 8-15. */
  function GetByte(w: bv16, sel: ByteSel): (b: bv8)
    ensures sel == Byte0 ==> b as bv16 == w & 0xFF
    ensures sel == Byte1 ==> b as bv16 == w >> 8
  {
    match sel
    case Byte0 => (w & 0xFF) as bv8
    case Byte1 => (w >> 8) as bv8
  }

  /** Writing one byte of a word through the byte pointer: the selected byte
      becomes b and the other byte keeps its value. */
  function SetByte(w: bv16, sel: ByteSel, b: bv8): (r: bv16)
    ensures GetByte(r, sel) == b
    ensures GetByte(r, OtherByte(sel)) == GetByte(w, OtherByte(sel))
  {
    match sel
    case Byte0 => (w & 0xFF00) | b as bv16
    case Byte1 => (w & 0x00FF) | (b as bv16 << 8)
  }

  /** The source's `Registers` record, as a value: the general bank `arr`,
      the secondary bank `biu` and the flag word. */
  datatype Registers = Registers(arr: seq<bv16>, biu: seq<bv16>, flags: bv16)

  predicate WellFormed(m: Registers) {
    |m.arr| == REG_LEN && |m.biu| == BIU_LEN
  }

  /** The word held in a slot. */
  function Get(m: Registers, l: Loc): bv16
    requires WellFormed(m) && ValidLoc(l)
  {
    match l
    case Gen(i) => m.arr[i]
    case Biu(i) => m.biu[i]
  }

  /** A store of one word into one slot: that slot holds v afterwards, every
      other slot and the flags are as before. */
  function Set(m: Registers, l: Loc, v: bv16): (r: Registers)
    requires WellFormed(m) && ValidLoc(l)
    ensures WellFormed(r) && Get(r, l) == v && r.flags == m.flags
    ensures forall k :: ValidLoc(k) && k != l ==> Get(r, k) == Get(m, k)
  {
    match l
    case Gen(i) => m.(arr := m.arr[i := v])
    case Biu(i) => m.(biu := m.biu[i := v])
  }

  /** Every slot except l holds what it held in m. */
  ghost predicate OthersUnchanged(m: Registers, m': Registers, l: Loc)
    requires WellFormed(m) && WellFormed(m')
  {
    forall k :: ValidLoc(k) && k != l ==> Get(m', k) == Get(m, k)
  }

  /** The register file a fresh simulator starts with: all zero. */
  function Initial(): (m: Registers)
    ensures WellFormed(m) && m.flags == 0
    ensures forall l :: ValidLoc(l) ==> Get(m, l) == 0
  {
    Registers(seq(REG_LEN, _ => 0), seq(BIU_LEN, _ => 0), 0)
  }
}
