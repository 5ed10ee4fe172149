/** Properties of one execution step, stated over the specification
    `Semantics.Step` (which the methods of `Sim86.Simulator` are proved to
    realise). */
module Properties {
  import opened Faults
  import opened Instructions
  import opened RegisterFile
  import opened Flags
  import opened Semantics

  // ---------------------------------------------------------------------
  // Register index resolution

  /** Every slot has exactly one decoder index, and resolving that index
      gives the slot back. */
  lemma IndexRoundTrip(l: Loc)
    requires ValidLoc(l)
    ensures 1 <= RegisterIndex(l) <= REG_LEN + BIU_LEN
    ensures RegisterLoc(RegisterIndex(l)) == Ok(l)
  {
  }

  /** Indices 1..8 name the general bank in order and 9..13 the secondary
      bank in order. */
  lemma IndexBanks(idx: nat)
    ensures 1 <= idx <= REG_LEN ==> RegisterLoc(idx) == Ok(Gen(idx - 1))
    ensures REG_LEN < idx <= REG_LEN + BIU_LEN ==> RegisterLoc(idx) == Ok(Biu(idx - REG_LEN - 1))
  {
    var r := RegisterLoc(idx);
    if r.Ok? {
      match r.value
      case Gen(i) =>
      case Biu(i) =>
    }
  }

  // ---------------------------------------------------------------------
  // Immediates

  /** `as u16` and `as u8` keep the low bits of the two's-complement
      pattern: -1 becomes 0xFFFF, 0x12345 loses its top digit, -2 as a byte
      is 0xFE. */
  lemma TruncationExamples()
    ensures AsU16(-1) == 0xFFFF && AsU16(0x12345) == 0x2345 && AsU16(-0x8000) == 0x8000
    ensures AsU8(-2) == 0xFE && AsU8(0x1FF) == 0xFF
  {
  }

  // ---------------------------------------------------------------------
  // Byte halves

  /** A word is determined by its two bytes. */
  lemma ByteHalvesDetermine(w1: bv16, w2: bv16)
    requires GetByte(w1, Byte0) == GetByte(w2, Byte0)
    requires GetByte(w1, Byte1) == GetByte(w2, Byte1)
    ensures w1 == w2
  {
  }

  /** A byte-width write into slot d: the addressed byte holds b, the other
      byte of d, every other slot and the flags are unchanged. */
  lemma ByteWriteIsolated(m: Registers, d: Loc, sel: ByteSel, b: bv8)
    requires WellFormed(m) && ValidLoc(d)
    ensures var r := Set(m, d, SetByte(Get(m, d), sel, b));
      && GetByte(Get(r, d), sel) == b
      && GetByte(Get(r, d), OtherByte(sel)) == GetByte(Get(m, d), OtherByte(sel))
      && OthersUnchanged(m, r, d)
      && r.flags == m.flags
  {
  }

  // ---------------------------------------------------------------------
  // mov

  /** A wide mov from a register copies the source word into the
      destination slot and changes nothing else, flags included. */
  lemma MovWordRegister(m: Registers, inst: Instruction, d: Loc, s: Loc)
    requires WellFormed(m) && inst.op == Mov && IsWide(inst) && inst.src.Register?
    requires U16Loc(inst.dst) == Ok(d) && RegisterLoc(inst.src.index) == Ok(s)
    ensures Step(m, inst).Ok?
    ensures var r := Step(m, inst).value;
      Get(r, d) == Get(m, s) && OthersUnchanged(m, r, d) && r.flags == m.flags
  {
  }

  /** A wide mov from an immediate stores the immediate truncated to 16
      bits and changes nothing else. */
  lemma MovWordImmediate(m: Registers, inst: Instruction, d: Loc)
    requires WellFormed(m) && inst.op == Mov && IsWide(inst) && inst.src.Immediate?
    requires U16Loc(inst.dst) == Ok(d)
    ensures Step(m, inst).Ok?
    ensures var r := Step(m, inst).value;
      Get(r, d) == AsU16(inst.src.value) && OthersUnchanged(m, r, d) && r.flags == m.flags
  {
  }

  /** A byte mov writes the addressed byte of the destination (offset 0:
      byte 0, any other offset: byte 1) with the source byte (a register's
      addressed byte, or the immediate truncated to 8 bits); the other byte,
      every other slot and the flags are unchanged. */
  lemma MovByte(m: Registers, inst: Instruction, d: Loc)
    requires WellFormed(m) && inst.op == Mov && !IsWide(inst)
    requires U16Loc(inst.dst) == Ok(d)
    requires inst.src.Immediate? || (inst.src.Register? && RegisterLoc(inst.src.index).Ok?)
    ensures Step(m, inst).Ok?
    ensures var r := Step(m, inst).value;
      var sel := ByteOf(inst.dst.offset);
      && GetByte(Get(r, d), sel)
         == (if inst.src.Immediate? then AsU8(inst.src.value)
             else GetByte(Get(m, RegisterLoc(inst.src.index).value), ByteOf(inst.src.offset)))
      && GetByte(Get(r, d), OtherByte(sel)) == GetByte(Get(m, d), OtherByte(sel))
      && OthersUnchanged(m, r, d)
      && r.flags == m.flags
  {
  }

  /** When a mov faults, and with which fault: an unresolvable destination
      first, then an unresolvable register source, and a source that is
      neither register nor immediate; otherwise it succeeds. */
  lemma MovFaults(m: Registers, inst: Instruction)
    requires WellFormed(m) && inst.op == Mov
    ensures U16Loc(inst.dst).Err? ==> Step(m, inst) == Err(U16Loc(inst.dst).fault)
    ensures U16Loc(inst.dst).Ok? && inst.src.OtherOperand? ==> Step(m, inst) == Err(NoLegalDestination)
    ensures U16Loc(inst.dst).Ok? && inst.src.Register? && RegisterLoc(inst.src.index).Err? ==>
      Step(m, inst) == Err(RegisterLoc(inst.src.index).fault)
    ensures Step(m, inst).Ok? <==>
      U16Loc(inst.dst).Ok? && (inst.src.Immediate? || (inst.src.Register? && RegisterLoc(inst.src.index).Ok?))
  {
  }

  // ---------------------------------------------------------------------
  // Word-width add, sub, cmp

  /** Word-width add and sub store dst + src or dst - src (modulo 2^16) in
      the destination slot, leave every other slot alone, and set the flags
      from the stored value. */
  lemma WordAddSub(m: Registers, inst: Instruction, d: Loc, val: bv16)
    requires WellFormed(m) && (inst.op == Add || inst.op == Sub) && IsWide(inst)
    requires U16Loc(inst.dst) == Ok(d) && WordSource(m, inst.src) == Ok(val)
    ensures Step(m, inst).Ok?
    ensures var r := Step(m, inst).value;
      && Get(r, d) == (if inst.op == Add then Add16(Get(m, d), val) else Sub16(Get(m, d), val))
      && OthersUnchanged(m, r, d)
      && FlagsFrom(m.flags, r.flags, Get(r, d))
  {
    ResultFlags(m.flags, Get(Step(m, inst).value, d));
  }

  /** Word-width cmp changes no register; its flags are those of dst - src,
      so the zero bit is set exactly when the two words are equal. */
  lemma WordCmp(m: Registers, inst: Instruction, d: Loc, val: bv16)
    requires WellFormed(m) && inst.op == Cmp && IsWide(inst)
    requires U16Loc(inst.dst) == Ok(d) && WordSource(m, inst.src) == Ok(val)
    ensures Step(m, inst).Ok?
    ensures var r := Step(m, inst).value;
      && r.arr == m.arr && r.biu == m.biu
      && FlagsFrom(m.flags, r.flags, Sub16(Get(m, d), val))
      && ((r.flags & ZERO_FLAG != 0) <==> Get(m, d) == val)
  {
    ResultFlags(m.flags, Sub16(Get(m, d), val));
    SubZero16(Get(m, d), val);
  }

  /** A difference of words is zero exactly when they are equal. */
  lemma SubZero16(a: bv16, b: bv16)
    ensures Sub16(a, b) == 0 <==> a == b
  {
    assert a - b == 0 <==> a == b;
  }

  /** A word add followed by a word sub of the same source restores the
      destination and leaves every other slot as it was; the flags then
      describe the restored word. The source must not be the destination
      slot itself: `add` of a register to itself changes the value the
      `sub` then subtracts. */
  lemma AddThenSubRestores(m: Registers, inst: Instruction, d: Loc, val: bv16)
    requires WellFormed(m) && inst.op == Add && IsWide(inst)
    requires U16Loc(inst.dst) == Ok(d) && WordSource(m, inst.src) == Ok(val)
    requires inst.src.Register? ==> RegisterLoc(inst.src.index) != Ok(d)
    ensures Step(m, inst).Ok?
    ensures var sub := inst.(op := Sub);
      var r := Step(Step(m, inst).value, sub);
      && r.Ok?
      && Get(r.value, d) == Get(m, d)
      && OthersUnchanged(m, r.value, d)
      && FlagsFrom(m.flags, r.value.flags, Get(m, d))
  {
    WordAddSub(m, inst, d, val);
    var m1 := Step(m, inst).value;
    var sub := inst.(op := Sub);
    assert WordSource(m1, sub.src) == Ok(val);
    WordAddSub(m1, sub, d, val);
    AddSubCancel(Get(m, d), val);
  }

  /** Subtraction undoes addition modulo 2^16. */
  lemma AddSubCancel(a: bv16, b: bv16)
    ensures Sub16(Add16(a, b), b) == a
  {
    assert Sub16(a + b, b) == a;
  }

  /** Compare is subtract without the write-back: on the word path, and on
      the byte path with a register source, a cmp faults exactly when the
      matching sub faults, and otherwise leaves every register as it was and
      the flag word as the sub leaves it. */
  lemma CmpIsSubWithoutWrite(m: Registers, inst: Instruction)
    requires WellFormed(m) && inst.op == Cmp
    requires IsWide(inst) || !inst.src.Immediate?
    ensures var sub := inst.(op := Sub);
      && (Step(m, inst).Ok? <==> Step(m, sub).Ok?)
      && (Step(m, inst).Ok? ==> Step(m, inst).value == m.(flags := Step(m, sub).value.flags))
  {
  }

  // ---------------------------------------------------------------------
  // Byte-width add, sub, cmp

  /** Byte-width add and sub with a register source put the sum or the
      difference (modulo 2^8) of the two addressed bytes into the addressed
      byte of the destination; the other byte and every other slot are
      unchanged, and the flags are set from that byte widened to 16 bits. */
  lemma ByteRegisterAddSub(m: Registers, inst: Instruction, d: Loc, s: Loc)
    requires WellFormed(m) && (inst.op == Add || inst.op == Sub) && !IsWide(inst)
    requires U16Loc(inst.dst) == Ok(d) && inst.src.Register? && RegisterLoc(inst.src.index) == Ok(s)
    ensures Step(m, inst).Ok?
    ensures var r := Step(m, inst).value;
      var sel := ByteOf(inst.dst.offset);
      var x := GetByte(Get(m, d), sel);
      var y := GetByte(Get(m, s), ByteOf(inst.src.offset));
      var b := if inst.op == Add then Add8(x, y) else Sub8(x, y);
      && GetByte(Get(r, d), sel) == b
      && GetByte(Get(r, d), OtherByte(sel)) == GetByte(Get(m, d), OtherByte(sel))
      && OthersUnchanged(m, r, d)
      && FlagsFrom(m.flags, r.flags, Widen(b))
  {
    var x := GetByte(Get(m, d), ByteOf(inst.dst.offset));
    var y := GetByte(Get(m, s), ByteOf(inst.src.offset));
    ResultFlags(m.flags, Widen(if inst.op == Add then Add8(x, y) else Sub8(x, y)));
  }

  /** Byte-width cmp with a register source changes no register; its flags
      are those of the byte difference, so the zero bit is set exactly when
      the two addressed bytes are equal. */
  lemma ByteRegisterCmp(m: Registers, inst: Instruction, d: Loc, s: Loc)
    requires WellFormed(m) && inst.op == Cmp && !IsWide(inst)
    requires U16Loc(inst.dst) == Ok(d) && inst.src.Register? && RegisterLoc(inst.src.index) == Ok(s)
    ensures Step(m, inst).Ok?
    ensures var r := Step(m, inst).value;
      var x := GetByte(Get(m, d), ByteOf(inst.dst.offset));
      var y := GetByte(Get(m, s), ByteOf(inst.src.offset));
      && r.arr == m.arr && r.biu == m.biu
      && FlagsFrom(m.flags, r.flags, Widen(Sub8(x, y)))
      && ((r.flags & ZERO_FLAG != 0) <==> x == y)
  {
    var x := GetByte(Get(m, d), ByteOf(inst.dst.offset));
    var y := GetByte(Get(m, s), ByteOf(inst.src.offset));
    ResultFlags(m.flags, Widen(Sub8(x, y)));
    SubZero8(x, y);
  }

  /** A byte difference widened to 16 bits is zero exactly when the bytes
      are equal. */
  lemma SubZero8(a: bv8, b: bv8)
    ensures Widen(Sub8(a, b)) == 0 <==> a == b
  {
    assert a - b == 0 <==> a == b;
    assert (a - b) as bv16 == 0 <==> a - b == 0;
  }

  /** With an immediate source the byte path adds, whatever the operation:
      a byte sub or cmp with an immediate behaves exactly like the byte add,
      which puts the addressed byte plus the immediate's low 8 bits into the
      addressed byte and sets the flags from it. */
  lemma ByteImmediateAlwaysAdds(m: Registers, inst: Instruction, d: Loc)
    requires WellFormed(m) && (inst.op == Add || inst.op == Sub || inst.op == Cmp) && !IsWide(inst)
    requires U16Loc(inst.dst) == Ok(d) && inst.src.Immediate?
    ensures Step(m, inst) == Step(m, inst.(op := Add))
    ensures Step(m, inst).Ok?
    ensures var r := Step(m, inst).value;
      var sel := ByteOf(inst.dst.offset);
      var b := Add8(GetByte(Get(m, d), sel), AsU8(inst.src.value));
      && GetByte(Get(r, d), sel) == b
      && GetByte(Get(r, d), OtherByte(sel)) == GetByte(Get(m, d), OtherByte(sel))
      && OthersUnchanged(m, r, d)
      && FlagsFrom(m.flags, r.flags, Widen(b))
  {
    var sel := ByteOf(inst.dst.offset);
    ResultFlags(m.flags, Widen(Add8(GetByte(Get(m, d), sel), AsU8(inst.src.value))));
  }

  /** The byte path never sets the sign bit: a byte widened to 16 bits has
      bit 14 clear, and bit 14 is the bit the sign test reads. */
  lemma ByteArithClearsSign(m: Registers, inst: Instruction)
    requires WellFormed(m) && (inst.op == Add || inst.op == Sub || inst.op == Cmp) && !IsWide(inst)
    requires Step(m, inst).Ok?
    ensures Step(m, inst).value.flags & SIGN_FLAG == 0
  {
    var b := ByteResult(m, inst).value.result;
    ResultFlags(m.flags, Widen(b));
    assert (b as bv16) & 0x4000 == 0;
  }

  // ---------------------------------------------------------------------
  // Dispatch and faults

  /** When an add, sub or cmp faults, and with which fault: an unresolvable
      destination first, then an unresolvable register source, and a source
      that is neither register nor immediate; otherwise it succeeds. The
      same holds on both paths. */
  lemma ArithFaults(m: Registers, inst: Instruction)
    requires WellFormed(m) && (inst.op == Add || inst.op == Sub || inst.op == Cmp)
    ensures U16Loc(inst.dst).Err? ==> Step(m, inst) == Err(U16Loc(inst.dst).fault)
    ensures U16Loc(inst.dst).Ok? && inst.src.OtherOperand? ==> Step(m, inst) == Err(IllegalOperand)
    ensures U16Loc(inst.dst).Ok? && inst.src.Register? && RegisterLoc(inst.src.index).Err? ==>
      Step(m, inst) == Err(RegisterLoc(inst.src.index).fault)
    ensures Step(m, inst).Ok? <==>
      U16Loc(inst.dst).Ok? && (inst.src.Immediate? || (inst.src.Register? && RegisterLoc(inst.src.index).Ok?))
  {
  }

  /** Of the instruction flag word only the wide bit matters: two
      instructions that differ only in other flag bits step alike. */
  lemma OnlyWideBitMatters(m: Registers, inst: Instruction, f: bv32)
    requires WellFormed(m) && f & INST_WIDE == inst.flags & INST_WIDE
    ensures Step(m, inst.(flags := f)) == Step(m, inst)
  {
  }

  // ---------------------------------------------------------------------
  // A run

  /** From a fresh register file, `mov` of 5 into the first general
      register followed by `sub` of 5 from it leaves zero there and the
      zero and parity bits set, the sign bit clear. */
  lemma MovThenSubToZero()
    ensures var mov := Instruction(Mov, INST_WIDE, Register(1, 0), Immediate(5));
      var sub := Instruction(Sub, INST_WIDE, Register(1, 0), Immediate(5));
      var m1 := Step(Initial(), mov);
      && m1.Ok? && Get(m1.value, Gen(0)) == 5
      && Step(m1.value, sub).Ok?
      && Get(Step(m1.value, sub).value, Gen(0)) == 0
      && Step(m1.value, sub).value.flags == ZERO_FLAG | PARITY_FLAG
  {
    var mov := Instruction(Mov, INST_WIDE, Register(1, 0), Immediate(5));
    var sub := Instruction(Sub, INST_WIDE, Register(1, 0), Immediate(5));
    var m1 := Step(Initial(), mov).value;
    WordAddSub(m1, sub, Gen(0), 5);
    assert Ones(0, 8) == 0;
  }
}
