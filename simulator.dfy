/** The simulator object: the register banks live in arrays that the
    execution methods update in place, and the flag word is a field the flag
    setters reassign. Every method is proved to do what the corresponding
    function of Semantics describes. */
module Sim86 {
  import opened Faults
  import opened Instructions
  import opened RegisterFile
  import opened Flags
  import opened Semantics

  /** A method's outcome agrees with the specification's result: on success
      the registers are the specified ones, on a fault nothing has changed
      and the same fault is reported. */
  ghost predicate Realizes(before: Registers, spec: Result<Registers>, r: Result<()>, after: Registers) {
    match spec
    case Ok(m) => r == Ok(()) && after == m
    case Err(f) => r == Err(f) && after == before
  }

  class Simulator {
    var arr: array<bv16>
    var biu: array<bv16>
    var flags: bv16

    ghost predicate Valid()
      reads this
    {
      arr.Length == REG_LEN && biu.Length == BIU_LEN && arr != biu
    }

    /** The register file as a value. */
    ghost function State(): (m: Registers)
      reads this, arr, biu
      ensures Valid() ==> WellFormed(m)
    {
      Registers(arr[..], biu[..], flags)
    }

    /** `Simulator::new`: both banks and the flag word are zero. */
    constructor ()
      ensures Valid() && fresh(arr) && fresh(biu)
      ensures State() == Initial()
    {
      arr := new bv16[REG_LEN](_ => 0);
      biu := new bv16[BIU_LEN](_ => 0);
      flags := 0;
    }

    /** Reading the word a slot pointer points at. */
    function Load(l: Loc): (v: bv16)
      reads this, arr, biu
      requires Valid() && ValidLoc(l)
      ensures v == Get(State(), l)
    {
      match l
      case Gen(i) => arr[i]
      case Biu(i) => biu[i]
    }

    /** Writing a word through a slot pointer. */
    method Store(l: Loc, v: bv16)
      requires Valid() && ValidLoc(l)
      modifies arr, biu
      ensures State() == Set(old(State()), l, v)
    {
      match l
      case Gen(i) => arr[i] := v;
      case Biu(i) => biu[i] := v;
    }

    /** `execute_instruction`, without its trace output. */
    method ExecuteInstruction(inst: Instruction) returns (r: Result<()>)
      requires Valid()
      modifies this`flags, arr, biu
      ensures Valid()
      ensures Realizes(old(State()), Step(old(State()), inst), r, State())
    {
      match inst.op
      case Mov =>
        r := ExecuteMov(inst);
      case Add | Sub | Cmp =>
        if IsWide(inst) {
          r := ExecuteArithmetic(inst);
        } else {
          r := ExecuteU8Arithmetic(inst);
        }
      case OtherOp =>
        r := Err(Unimplemented);
    }

    /** `execute_mov`. */
    method ExecuteMov(inst: Instruction) returns (r: Result<()>)
      requires Valid()
      modifies arr, biu
      ensures Realizes(old(State()), MovStep(old(State()), inst), r, State())
    {
      var wide := IsWide(inst);
      var dstPtr := U16Loc(inst.dst);
      if dstPtr.Err? {
        return Err(dstPtr.fault);
      }
      var dst := dstPtr.value;
      match inst.src
      case Register(idx, offset) =>
        var srcPtr := RegisterLoc(idx);
        if srcPtr.Err? {
          return Err(srcPtr.fault);
        }
        if wide {
          Store(dst, Load(srcPtr.value));
        } else {
          var val := GetByte(Load(srcPtr.value), ByteOf(offset));
          Store(dst, SetByte(Load(dst), ByteOf(inst.dst.offset), val));
        }
        r := Ok(());
      case Immediate(value) =>
        if wide {
          Store(dst, AsU16(value));
        } else {
          Store(dst, SetByte(Load(dst), ByteOf(inst.dst.offset), AsU8(value)));
        }
        r := Ok(());
      case OtherOperand =>
        r := Err(NoLegalDestination);
    }

    /** `execute_arithmetic`: word-width add, sub and cmp. */
    method ExecuteArithmetic(inst: Instruction) returns (r: Result<()>)
      requires Valid()
      modifies this`flags, arr, biu
      ensures Realizes(old(State()), WordArith(old(State()), inst), r, State())
    {
      var dstPtr := U16Loc(inst.dst);
      if dstPtr.Err? {
        return Err(dstPtr.fault);
      }
      var dst := dstPtr.value;
      var val: bv16;
      match inst.src {
        case Register(idx, _) =>
          var srcPtr := RegisterLoc(idx);
          if srcPtr.Err? {
            return Err(srcPtr.fault);
          }
          val := Load(srcPtr.value);
        case Immediate(value) =>
          val := AsU16(value);
        case OtherOperand =>
          return Err(IllegalOperand);
      }
      ghost var before := State();
      assert WordSource(before, inst.src) == Ok(val);
      var result: bv16;
      match inst.op {
        case Add =>
          result := Add16(Load(dst), val);
          Store(dst, result);
        case Cmp =>
          result := Sub16(Load(dst), val);
        case Sub =>
          result := Sub16(Load(dst), val);
          Store(dst, result);
        case Mov | OtherOp =>
          return Err(IllegalOperationType);
      }
      assert WordResult(before, inst) == Ok(Written(State(), result));
      SetZeroFlag(result);
      SetSignedFlag(result);
      SetParityFlag(result);
      r := Ok(());
    }

    /** `execute_u8_arithmetic`: byte-width add, sub and cmp. */
    method ExecuteU8Arithmetic(inst: Instruction) returns (r: Result<()>)
      requires Valid()
      modifies this`flags, arr, biu
      ensures Realizes(old(State()), ByteArith(old(State()), inst), r, State())
    {
      var dstPtr := U16Loc(inst.dst);
      if dstPtr.Err? {
        return Err(dstPtr.fault);
      }
      var dst := dstPtr.value;
      ghost var before := State();
      var sel := ByteOf(inst.dst.offset);
      var result: bv8;
      match inst.src {
        case Register(idx, offset) =>
          var srcPtr := RegisterLoc(idx);
          if srcPtr.Err? {
            return Err(srcPtr.fault);
          }
          var val := GetByte(Load(srcPtr.value), ByteOf(offset));
          match inst.op {
            case Add =>
              result := Add8(GetByte(Load(dst), sel), val);
              Store(dst, SetByte(Load(dst), sel, result));
            case Cmp =>
              result := Sub8(GetByte(Load(dst), sel), val);
            case Sub =>
              result := Sub8(GetByte(Load(dst), sel), val);
              Store(dst, SetByte(Load(dst), sel, result));
            case Mov | OtherOp =>
              return Err(IllegalOperationType);
          }
        case Immediate(value) =>
          result := Add8(GetByte(Load(dst), sel), AsU8(value));
          Store(dst, SetByte(Load(dst), sel, result));
        case OtherOperand =>
          return Err(IllegalOperand);
      }
      assert ByteResult(before, inst) == Ok(Written(State(), result));
      SetZeroFlag(Widen(result));
      SetSignedFlag(Widen(result));
      SetParityFlag(Widen(result));
      r := Ok(());
    }

    /** `set_zero_flag`. */
    method SetZeroFlag(result: bv16)
      modifies this`flags
      ensures flags == WithZero(old(flags), result)
      ensures State() == old(State()).(flags := flags)
    {
      flags := if result == 0 then flags | 0x0040 else flags & 0xFFBF;
    }

    /** `set_signed_flag`. */
    method SetSignedFlag(result: bv16)
      modifies this`flags
      ensures flags == WithSign(old(flags), result)
      ensures State() == old(State()).(flags := flags)
    {
      flags := if (result & 0x4000) >> 14 == 1 then flags | 0x0080 else flags & 0xFF7F;
    }

    /** `set_parity_flag`: counts the one bits among the lowest eight by
        shifting a copy of the result right eight times. */
    method SetParityFlag(result: bv16)
      modifies this`flags
      ensures flags == WithParity(old(flags), EvenParity(result))
      ensures State() == old(State()).(flags := flags)
    {
      var total: nat := 0;
      var ctr := result;
      for i := 0 to 8
        invariant total + Ones(ctr, 8 - i) == Ones(result, 8)
        invariant total <= i
      {
        total := total + LowBit(ctr);
        ctr := ctr >> 1;
      }
      flags := if total % 2 == 0 then flags | 0x0004 else flags & 0xFFFB;
    }
  }
}
