/**
  The x86 formatter writing to the byte buffer. One ensureSpace(16) covers a whole
  instruction with its immediate.
 */
module X86Formatter {
  import opened AssemblerBuffers
  import opened X86Operands

  const MAX_INSTRUCTION_SIZE := 16

  // An immediate, put unchecked behind its instruction.
  datatype Immediate = NoImm | Imm8(v: int) | Imm16(v: int) | Imm32(v: int) | Imm64(v: int)

  function ImmBytes(imm: Immediate): seq<Byte> {
    match imm
    case NoImm => []
    case Imm8(v) => LittleEndian(v, 1)
    case Imm16(v) => LittleEndian(v, 2)
    case Imm32(v) => LittleEndian(v, 4)
    case Imm64(v) => LittleEndian(v, 8)
  }

  /** The numbers of as many bytes as the immediate takes are counted modulo this. */
  function Modulus(imm: Immediate): nat {
    match imm
    case NoImm => 1
    case Imm8(_) => 0x100
    case Imm16(_) => 0x1_0000
    case Imm32(_) => 0x1_0000_0000
    case Imm64(_) => 0x1_0000_0000_0000_0000
  }

  lemma Modulus256(imm: Immediate)
    ensures Power256(|ImmBytes(imm)|) == Modulus(imm)
  {
    assert Power256(1) == 256 * Power256(0);
    assert Power256(2) == 256 * Power256(1);
    assert Power256(3) == 256 * Power256(2);
    assert Power256(4) == 256 * Power256(3);
    assert Power256(5) == 256 * Power256(4);
    assert Power256(6) == 256 * Power256(5);
    assert Power256(7) == 256 * Power256(6);
    assert Power256(8) == 256 * Power256(7);
  }

  /**
    An instruction and its immediate read back, whatever follows them: the
    immediate stands behind the decoded length, in one, two, four or eight bytes,
    and is the number given, or what of it fits in these bytes.
   */
  lemma ImmediateReadsBack(x64: bool, i: Insn, imm: Immediate, rest: seq<Byte>) returns (high: int)
    requires Legal(x64, i) && !imm.NoImm?
    ensures |ImmBytes(imm)| == match imm case Imm8(_) => 1 case Imm16(_) => 2 case Imm32(_) => 4 case Imm64(_) => 8
    ensures var bytes := Encode(x64, i) + ImmBytes(imm) + rest;
            var d := Decode(x64, KindOf(i), bytes);
            && d.Some? && d.value.fields == FieldsOf(i.operand) && d.value.opcode == i.opcode
            && var v := ReadSigned(bytes, d.value.length, |ImmBytes(imm)|);
               && v.Some? && 0 - Modulus(imm) as int <= 2 * v.value < Modulus(imm)
               && imm.v == v.value + high * Modulus(imm)
               && (0 - Modulus(imm) as int <= 2 * imm.v < Modulus(imm) ==> v.value == imm.v)
  {
    hide LittleEndian, Signed, Decode, Encode, Power256;
    var front, n := Encode(x64, i), |ImmBytes(imm)|;
    var bytes := front + ImmBytes(imm) + rest;
    assert bytes == front + (ImmBytes(imm) + rest);
    PartsRoundTrip(x64, i, ImmBytes(imm) + rest);
    assert bytes[|front|..|front| + n] == LittleEndian(imm.v, n);
    Modulus256(imm);
    high := SignedTruncates(imm.v, n);
    if 0 - Modulus(imm) as int <= 2 * imm.v < Modulus(imm) {
      SignedRoundTrip(imm.v, n);
    }
  }

  /** Only instructions without a ModRM byte have a 64-bit immediate. */
  predicate LegalImm(i: Insn, imm: Immediate) {
    imm.Imm64? ==> !HasModRm(i)
  }

  lemma EncodedLength(x64: bool, i: Insn)
    requires Legal(x64, i)
    ensures |Encode(x64, i)| <= if HasModRm(i) then 9 else 3
  {
  }

  class X86InstructionFormatter {
    const x64: bool
    const buffer: AssemblerBuffer

    constructor (mode64: bool)
      ensures x64 == mode64 && buffer.Valid() && buffer.Contents() == []
      ensures fresh(buffer) && fresh(buffer.storage)
    {
      x64 := mode64;
      buffer := new AssemblerBuffer();
    }

    // ModRM and REX --------------------------------------------------------------

    /** 32-bit x86 has no REX prefix. */
    method EmitRexIf(condition: bool, w: bool, r: Reg, x: Reg, b: Reg)
      requires buffer.Valid() && buffer.Room() >= 4
      modifies buffer`size, buffer.storage
      ensures buffer.Valid()
      ensures buffer.Contents() == old(buffer.Contents()) + if x64 && condition then [RexByte(w, r, x, b)] else []
    {
      hide RexByte;
      if x64 && condition {
        OneByte(RexByte(w, r, x, b));
        buffer.PutByteUnchecked(RexByte(w, r, x, b));
      }
    }

    method EmitRex(i: Insn)
      requires buffer.Valid() && buffer.Room() >= 4
      modifies buffer`size, buffer.storage
      ensures buffer.Valid() && buffer.Contents() == old(buffer.Contents()) + RexBytes(x64, i)
    {
      hide RexByte, Operand.R, Operand.X, Operand.B;
      var r, x, b := i.operand.R(), i.operand.X(), i.operand.B();
      match i.form
      case Normal => EmitRexIf(r >= R8 || x >= R8 || b >= R8, false, r, x, b);
      case Quad => EmitRexIf(true, true, r, x, b);
      case ByteRegisters => EmitRexIf(r >= ESP || b >= ESP, false, r, x, b);
      case ByteGroup => EmitRexIf(b >= ESP, false, r, x, b);
    }

    method PutOpcode(i: Insn)
      requires buffer.Valid() && buffer.Room() >= 5
      requires i.operand.InOpcode? ==> i.opcode % 8 == 0
      modifies buffer`size, buffer.storage
      ensures buffer.Valid() && buffer.Contents() == old(buffer.Contents()) + OpcodeBytes(i)
    {
      hide LittleEndian;
      if i.escape {
        OneByte(OP_2BYTE_ESCAPE);
        buffer.PutByteUnchecked(OP_2BYTE_ESCAPE);
      }
      OneByte(OpcodeOf(i));
      buffer.PutByteUnchecked(OpcodeOf(i));
    }

    method PutModRm(mode: nat, reg: Reg, rm: Reg)
      requires buffer.Valid() && buffer.Room() >= 4 && mode < 4
      modifies buffer`size, buffer.storage
      ensures buffer.Valid() && buffer.Contents() == old(buffer.Contents()) + [ModRm(mode, reg, rm)]
    {
      hide ModRm;
      OneByte(ModRm(mode, reg, rm));
      buffer.PutByteUnchecked(ModRm(mode, reg, rm));
    }

    method PutModRmSib(mode: nat, reg: Reg, base: Reg, index: Reg, scale: nat)
      requires buffer.Valid() && buffer.Room() >= 5 && mode < REGISTER && scale < 4
      modifies buffer`size, buffer.storage
      ensures buffer.Valid()
      ensures buffer.Contents() == old(buffer.Contents()) + [ModRm(mode, reg, ESP), ModRm(scale, index, base)]
    {
      hide ModRm;
      PutModRm(mode, reg, ESP);
      OneByte(ModRm(scale, index, base));
      buffer.PutByteUnchecked(ModRm(scale, index, base));
    }

    method PutDisp(mode: nat, offset: Int32)
      requires buffer.Valid() && buffer.Room() >= 4 && mode < REGISTER
      modifies buffer`size, buffer.storage
      ensures buffer.Valid()
      ensures buffer.Contents() == old(buffer.Contents()) + LittleEndian(offset, DispSize(mode))
    {
      hide LittleEndian;
      if mode == DISP8 {
        buffer.PutByteUnchecked(offset);
      } else if mode == DISP32 {
        buffer.PutIntUnchecked(offset);
      }
    }

    /** esp and r12 as a base would mean a SIB byte, so one is forced. */
    method PutBase(mode: nat, reg: Reg, base: Reg)
      requires buffer.Valid() && buffer.Room() >= 5 && mode < REGISTER
      modifies buffer`size, buffer.storage
      ensures buffer.Valid() && buffer.Contents() == old(buffer.Contents()) + BaseBytes(mode, reg, base)
    {
      if base == ESP || base == R12 {
        PutModRmSib(mode, reg, base, ESP, 0);
      } else {
        PutModRm(mode, reg, base);
      }
    }

    method MemoryModRM(reg: Reg, base: Reg, offset: Int32, forceDisp32: bool)
      requires buffer.Valid() && buffer.Room() >= 6
      modifies buffer`size, buffer.storage
      ensures buffer.Valid()
      ensures buffer.Contents() == old(buffer.Contents()) + OperandBytes(Based(reg, base, offset, forceDisp32))
    {
      hide LittleEndian, BaseBytes, DispMode;
      var mode := if forceDisp32 then DISP32 else DispMode(base, offset);
      PutBase(mode, reg, base);
      PutDisp(mode, offset);
    }

    method MemoryModRMIndexed(reg: Reg, base: Reg, index: Reg, scale: nat, offset: Int32)
      requires buffer.Valid() && buffer.Room() >= 6 && scale < 4
      modifies buffer`size, buffer.storage
      ensures buffer.Valid()
      ensures buffer.Contents() == old(buffer.Contents()) + OperandBytes(Indexed(reg, base, index, scale, offset))
    {
      hide ModRm, LittleEndian;
      var mode := DispMode(base, offset);
      PutModRmSib(mode, reg, base, index, scale);
      PutDisp(mode, offset);
    }

    method PutOperand(o: Operand)
      requires buffer.Valid() && buffer.Room() >= 6 && (o.Indexed? ==> o.scale < 4)
      modifies buffer`size, buffer.storage
      ensures buffer.Valid() && buffer.Contents() == old(buffer.Contents()) + OperandBytes(o)
    {
      hide ModRm, LittleEndian, DispMode;
      match o
      case NoOperand =>
      case InOpcode(_) =>
      case Direct(reg, rm) =>
        PutModRm(REGISTER, reg, rm);
      case Based(reg, base, offset, forceDisp32) =>
        MemoryModRM(reg, base, offset, forceDisp32);
      case Indexed(reg, base, index, scale, offset) =>
        MemoryModRMIndexed(reg, base, index, scale, offset);
      case Absolute(reg, address) =>
        PutModRm(NO_DISP, reg, EBP);
        buffer.PutIntUnchecked(address);
    }

    // Whole instructions -----------------------------------------------------------

    /** The opcode formatters: space, prefix, opcode, operand. */
    method Format(i: Insn)
      requires buffer.Valid() && Legal(x64, i)
      modifies buffer, buffer.storage
      ensures buffer.Valid() && buffer.Contents() == old(buffer.Contents()) + Encode(x64, i)
      ensures buffer.Room() + |Encode(x64, i)| >= MAX_INSTRUCTION_SIZE
      ensures buffer.storage == old(buffer.storage) || fresh(buffer.storage)
    {
      hide Legal, Encode;
      buffer.EnsureSpace(MAX_INSTRUCTION_SIZE);
      FormatUnchecked(i);
    }

    method FormatUnchecked(i: Insn)
      requires buffer.Valid() && buffer.Room() >= MAX_INSTRUCTION_SIZE && Legal(x64, i)
      modifies buffer`size, buffer.storage
      ensures buffer.Valid() && buffer.Contents() == old(buffer.Contents()) + Encode(x64, i)
    {
      hide RexBytes, OpcodeBytes, OperandBytes, LegalOperand;
      PartLengths(x64, i);
      EmitRex(i);
      PutOpcode(i);
      PutOperand(i.operand);
    }

    method PutImmediate(imm: Immediate)
      requires buffer.Valid() && buffer.Room() >= if imm.Imm64? then 8 else 4
      modifies buffer`size, buffer.storage
      ensures buffer.Valid() && buffer.Contents() == old(buffer.Contents()) + ImmBytes(imm)
    {
      hide LittleEndian;
      match imm
      case NoImm =>
      case Imm8(v) => buffer.PutByteUnchecked(v);
      case Imm16(v) => buffer.PutShortUnchecked(v);
      case Imm32(v) => buffer.PutIntUnchecked(v);
      case Imm64(v) => buffer.PutInt64Unchecked(v);
    }

    /** An instruction and its immediate need no second test for space. */
    method Emit(i: Insn, imm: Immediate)
      requires buffer.Valid() && Legal(x64, i) && LegalImm(i, imm)
      modifies buffer, buffer.storage
      ensures buffer.Valid()
      ensures buffer.Contents() == old(buffer.Contents()) + Encode(x64, i) + ImmBytes(imm)
      ensures buffer.storage == old(buffer.storage) || fresh(buffer.storage)
    {
      hide Legal, Encode, LittleEndian;
      EncodedLength(x64, i);
      Format(i);
      PutImmediate(imm);
    }
  }

  lemma OneByte(b: Byte)
    ensures LittleEndian(b, 1) == [b]
  {
    assert LittleEndian(b, 1) == [b % 256] + LittleEndian(b / 256, 0);
  }

  lemma PartLengths(x64: bool, i: Insn)
    requires Legal(x64, i)
    ensures |RexBytes(x64, i)| <= 1 && |OpcodeBytes(i)| <= 2
    ensures i.operand.Indexed? ==> i.operand.scale < 4
  {
  }
}
