/** What one call of `execute_instruction` does to the register file, as a
    function from the registers before to the registers after (or the fault
    that aborts the call). All 16- and 8-bit additions and subtractions wrap:
    they are bit-vector operations. */
module Semantics {
  import opened Faults
  import opened Instructions
  import opened RegisterFile
  import opened Flags

  /** 16-bit addition as the release build of the simulator performs it:
      modulo 2^16. */
  function Add16(a: bv16, b: bv16): bv16 { a + b }

  /** 16-bit subtraction modulo 2^16. */
  function Sub16(a: bv16, b: bv16): bv16 { a - b }

  /** 8-bit addition modulo 2^8. */
  function Add8(a: bv8, b: bv8): bv8 { a + b }

  /** 8-bit subtraction modulo 2^8. */
  function Sub8(a: bv8, b: bv8): bv8 { a - b }

  /** A byte result zero-extended to the 16 bits the flag setters take. */
  function Widen(b: bv8): bv16 { b as bv16 }

  /** The 16-bit value a source operand of word-width add/sub/cmp supplies:
      a register's word or the immediate truncated to 16 bits. */
  function WordSource(m: Registers, src: Operand): (r: Result<bv16>)
    requires WellFormed(m)
    ensures src.OtherOperand? ==> r == Err(IllegalOperand)
    ensures src.Immediate? ==> r == Ok(AsU16(src.value))
    ensures src.Register? ==>
      match RegisterLoc(src.index)
      case Ok(s) => r == Ok(Get(m, s))
      case Err(f) => r == Err(f)
  {
    match src
    case Register(idx, _) =>
      (match RegisterLoc(idx)
       case Ok(s) => Ok(Get(m, s))
       case Err(f) => Err(f))
    case Immediate(v) => Ok(AsU16(v))
    case OtherOperand => Err(IllegalOperand)
  }

  /** `execute_mov`. */
  function MovStep(m: Registers, inst: Instruction): (r: Result<Registers>)
    requires WellFormed(m)
    ensures r.Ok? ==> WellFormed(r.value) && r.value.flags == m.flags
  {
    match U16Loc(inst.dst)
    case Err(f) => Err(f)
    case Ok(d) =>
      var dstByte := ByteOf(inst.dst.offset);
      match inst.src
      case Register(idx, offset) =>
        (match RegisterLoc(idx)
         case Err(f) => Err(f)
         case Ok(s) =>
           if IsWide(inst) then Ok(Set(m, d, Get(m, s)))
           else Ok(Set(m, d, SetByte(Get(m, d), dstByte, GetByte(Get(m, s), ByteOf(offset))))))
      case Immediate(v) =>
        if IsWide(inst) then Ok(Set(m, d, AsU16(v)))
        else Ok(Set(m, d, SetByte(Get(m, d), dstByte, AsU8(v))))
      case OtherOperand => Err(NoLegalDestination)
  }

  /** What the operation part of an arithmetic step produces: the register
      file after its write (none for cmp) and the value the flags are then
      derived from (`result_val` in the source). */
  datatype Written<W> = Written(regs: Registers, result: W)

  /** The `result_val` match of `execute_arithmetic`: word-width add, sub
      and cmp on the destination slot. */
  function WordResult(m: Registers, inst: Instruction): (r: Result<Written<bv16>>)
    requires WellFormed(m)
    ensures r.Ok? ==> WellFormed(r.value.regs) && r.value.regs.flags == m.flags
  {
    match U16Loc(inst.dst)
    case Err(f) => Err(f)
    case Ok(d) =>
      match WordSource(m, inst.src)
      case Err(f) => Err(f)
      case Ok(val) =>
        var x := Get(m, d);
        match inst.op
        case Add => Ok(Written(Set(m, d, Add16(x, val)), Add16(x, val)))
        case Cmp => Ok(Written(m, Sub16(x, val)))
        case Sub => Ok(Written(Set(m, d, Sub16(x, val)), Sub16(x, val)))
        case _ => Err(IllegalOperationType)
  }

  /** `execute_arithmetic`: the operation, then the three flag setters on
      its result. */
  function WordArith(m: Registers, inst: Instruction): (r: Result<Registers>)
    requires WellFormed(m)
    ensures r.Ok? ==> WellFormed(r.value)
  {
    match WordResult(m, inst)
    case Err(f) => Err(f)
    case Ok(w) => Ok(w.regs.(flags := WithResultFlags(m.flags, w.result)))
  }

  /** The `result_val` match of `execute_u8_arithmetic`: byte-width add, sub
      and cmp on one byte of the destination slot. A register source is
      dispatched on the operation; an immediate source is always added and
      written back, whatever the operation. */
  function ByteResult(m: Registers, inst: Instruction): (r: Result<Written<bv8>>)
    requires WellFormed(m)
    ensures r.Ok? ==> WellFormed(r.value.regs) && r.value.regs.flags == m.flags
  {
    match U16Loc(inst.dst)
    case Err(f) => Err(f)
    case Ok(d) =>
      var sel := ByteOf(inst.dst.offset);
      var x := GetByte(Get(m, d), sel);
      match inst.src
      case Register(idx, offset) =>
        (match RegisterLoc(idx)
         case Err(f) => Err(f)
         case Ok(s) =>
           var val := GetByte(Get(m, s), ByteOf(offset));
           match inst.op
           case Add => Ok(Written(Set(m, d, SetByte(Get(m, d), sel, Add8(x, val))), Add8(x, val)))
           case Cmp => Ok(Written(m, Sub8(x, val)))
           case Sub => Ok(Written(Set(m, d, SetByte(Get(m, d), sel, Sub8(x, val))), Sub8(x, val)))
           case _ => Err(IllegalOperationType))
      case Immediate(v) =>
        var sum := Add8(x, AsU8(v));
        Ok(Written(Set(m, d, SetByte(Get(m, d), sel, sum)), sum))
      case OtherOperand => Err(IllegalOperand)
  }

  /** `execute_u8_arithmetic`: the byte operation, then the three flag
      setters on its result widened to 16 bits. */
  function ByteArith(m: Registers, inst: Instruction): (r: Result<Registers>)
    requires WellFormed(m)
    ensures r.Ok? ==> WellFormed(r.value)
  {
    match ByteResult(m, inst)
    case Err(f) => Err(f)
    case Ok(w) => Ok(w.regs.(flags := WithResultFlags(m.flags, Widen(w.result))))
  }

  /** `execute_instruction`: dispatch on the operation, and for add, sub and
      cmp on the wide bit. */
  function Step(m: Registers, inst: Instruction): (r: Result<Registers>)
    requires WellFormed(m)
    ensures r.Ok? ==> WellFormed(r.value)
    ensures r == Err(Unimplemented) <==> inst.op == OtherOp
    ensures r != Err(IllegalOperationType)
  {
    match inst.op
    case Mov => MovStep(m, inst)
    case Add | Sub | Cmp =>
      if IsWide(inst) then WordArith(m, inst) else ByteArith(m, inst)
    case OtherOp => Err(Unimplemented)
  }
}
