/**
  x86 and x86-64 instruction bytes: REX prefix, opcode, ModRM, SIB and
  displacement as the formatter plants them, and a decoder after the Intel 64 and
  IA-32 Software Developer's Manual, Volume 2A, sections 2.1.5 and 2.2.1.
 */
module X86Operands {
  import opened AssemblerBuffers

  type Reg = r: nat | r < 16
  type Int32 = v: int | -0x8000_0000 <= v < 0x8000_0000

  // The registers whose numbers mean something else in a ModRM or SIB byte.
  const ESP: Reg := 4
  const EBP: Reg := 5
  const R8: Reg := 8
  const R12: Reg := 12
  const R13: Reg := 13

  const OP_2BYTE_ESCAPE: Byte := 0x0f
  const PRE_REX: Byte := 0x40

  // What is formatted --------------------------------------------------------------

  datatype Operand =
    | NoOperand
    | InOpcode(rm: Reg)
    | Direct(reg: Reg, rm: Reg)
    | Based(reg: Reg, base: Reg, offset: Int32, forceDisp32: bool)
    | Indexed(reg: Reg, base: Reg, index: Reg, scale: nat, offset: Int32)
    | Absolute(reg: Reg, address: Int32)
  {
    /** The registers that give the bits R, X and B of a REX prefix. */
    function R(): Reg {
      match this case NoOperand => 0 case InOpcode(_) => 0 case _ => reg
    }

    function X(): Reg {
      if Indexed? then index else 0
    }

    function B(): Reg {
      match this
      case NoOperand => 0
      case InOpcode(rm) => rm
      case Direct(_, rm) => rm
      case Based(_, base, _, _) => base
      case Indexed(_, base, _, _, _) => base
      case Absolute(_, _) => 0
    }
  }

  // Normal operations, 64-bit ones, and byte operations on two registers or on
  // one, the reg field being part of the opcode then.
  datatype Form = Normal | Quad | ByteRegisters | ByteGroup

  datatype Insn = Insn(form: Form, escape: bool, opcode: Byte, operand: Operand)

  /** What the formatters are called with. */
  predicate Legal(x64: bool, i: Insn) {
    && LegalOperand(x64, i.operand)
    && (i.form == Quad ==> x64)
    && (i.form == ByteRegisters ==> i.operand.Direct?)
    && (i.form == ByteGroup ==> i.operand.Direct? && i.operand.reg < 8)
    && (i.operand.InOpcode? ==> i.opcode % 8 == 0)
    && (i.escape || LegalOpcode(x64, i.opcode + if i.operand.InOpcode? then i.operand.rm % 8 else 0))
  }

  predicate LegalOperand(x64: bool, o: Operand) {
    && (!x64 ==> o.R() < 8 && o.X() < 8 && o.B() < 8)
    && (o.Indexed? ==> o.index != ESP && o.scale < 4)
    && (o.Absolute? ==> !x64)
  }

  /** Not the escape byte and, in 64-bit mode, not a REX prefix. */
  predicate LegalOpcode(x64: bool, opcode: int) {
    opcode != OP_2BYTE_ESCAPE && (x64 ==> opcode / 16 != 4)
  }

  // The encoder ----------------------------------------------------------------------

  predicate HasRex(x64: bool, i: Insn): (has: bool)
    ensures has ==> x64
  {
    x64 &&
    match i.form
    case Normal => i.operand.R() >= R8 || i.operand.X() >= R8 || i.operand.B() >= R8
    case Quad => true
    case ByteRegisters => i.operand.R() >= ESP || i.operand.B() >= ESP
    case ByteGroup => i.operand.B() >= ESP
  }

  function RexByte(w: bool, r: Reg, x: Reg, b: Reg): Byte {
    PRE_REX + (if w then 8 else 0) + r / 8 * 4 + x / 8 * 2 + b / 8
  }

  function RexBytes(x64: bool, i: Insn): seq<Byte> {
    if !HasRex(x64, i) then []
    else [RexByte(i.form == Quad, i.operand.R(), i.operand.X(), i.operand.B())]
  }

  function OpcodeBytes(i: Insn): seq<Byte>
    requires i.operand.InOpcode? ==> i.opcode % 8 == 0
  {
    (if i.escape then [OP_2BYTE_ESCAPE] else [])
    + [i.opcode + if i.operand.InOpcode? then i.operand.rm % 8 else 0]
  }

  // The mode field of a ModRM byte.
  const NO_DISP := 0
  const DISP8 := 1
  const DISP32 := 2
  const REGISTER := 3

  function ModRm(mode: nat, reg: Reg, rm: Reg): Byte
    requires mode < 4
  {
    mode * 64 + reg % 8 * 8 + rm % 8
  }

  /** The mode for a displacement of `base`; ebp and r13 cannot go without one. */
  function DispMode(base: Reg, offset: Int32): (mode: nat)
    ensures mode < REGISTER
  {
    if offset == 0 && base != EBP && base != R13 then NO_DISP
    else if -128 <= offset < 128 then DISP8
    else DISP32
  }

  function DispSize(mode: nat): nat {
    if mode == DISP8 then 1 else if mode == DISP32 then 4 else 0
  }

  function BaseBytes(mode: nat, reg: Reg, base: Reg): (bytes: seq<Byte>)
    requires mode < REGISTER
    ensures 1 <= |bytes| <= 2
  {
    if base == ESP || base == R12 then [ModRm(mode, reg, ESP), ModRm(0, ESP, base)] else [ModRm(mode, reg, base)]
  }

  function OperandBytes(o: Operand): seq<Byte>
    requires o.Indexed? ==> o.scale < 4
  {
    match o
    case NoOperand => []
    case InOpcode(_) => []
    case Direct(reg, rm) => [ModRm(REGISTER, reg, rm)]
    case Based(reg, base, offset, forceDisp32) =>
      var mode := if forceDisp32 then DISP32 else DispMode(base, offset);
      BaseBytes(mode, reg, base) + LittleEndian(offset, DispSize(mode))
    case Indexed(reg, base, index, scale, offset) =>
      var mode := DispMode(base, offset);
      [ModRm(mode, reg, ESP), ModRm(scale, index, base)] + LittleEndian(offset, DispSize(mode))
    case Absolute(reg, address) =>
      [ModRm(NO_DISP, reg, EBP)] + LittleEndian(address, 4)
  }

  function Encode(x64: bool, i: Insn): seq<Byte>
    requires Legal(x64, i)
  {
    RexBytes(x64, i) + OpcodeBytes(i) + OperandBytes(i.operand)
  }

  // The decoder -------------------------------------------------------------------------

  datatype Option<T> = None | Some(value: T)

  datatype Rm =
    | Register(r: nat)
    | Memory(base: Option<nat>, index: Option<nat>, scale: nat, disp: int)
    | RipRelative(disp: int)

  datatype Fields = NoFields | OpcodeRegister(r: nat) | RegAndRm(reg: nat, rm: Rm)

  // What an opcode has with it: nothing, a register in its low three bits, or a ModRM byte.
  datatype Kind = Plain | WithRegister | WithModRm

  // `length` counts the bytes consumed.
  datatype Decoded = Decoded(w: bool, rex: bool, escape: bool, opcode: Byte, fields: Fields, length: nat)

  function ReadSigned(bytes: seq<Byte>, at: nat, n: nat): Option<int> {
    if n == 0 then Some(0)
    else if at + n <= |bytes| then Some(Signed(bytes[at..at + n]))
    else None
  }

  /** A memory operand whose displacement of `n` bytes stands at `at`. */
  function DecodeMemory(reg: nat, base: Option<nat>, index: Option<nat>, scale: nat, bytes: seq<Byte>, at: nat, n: nat)
      : Option<(Fields, nat)> {
    match ReadSigned(bytes, at, n)
    case None => None
    case Some(disp) => Some((RegAndRm(reg, Memory(base, index, scale, disp)), at + n))
  }

  /** ModRM, SIB and displacement; r, x and b are 8 or 0 for the bits of the REX prefix. */
  function DecodeOperand(x64: bool, r: nat, x: nat, b: nat, bytes: seq<Byte>): Option<(Fields, nat)> {
    if bytes == [] then None
    else
      var mode, reg, rm := bytes[0] / 64, bytes[0] / 8 % 8 + r, bytes[0] % 8;
      if mode == 3 then Some((RegAndRm(reg, Register(rm + b)), 1))
      else if rm == 4 then
        if |bytes| < 2 then None
        else
          var scale, index, base := bytes[1] / 64, bytes[1] / 8 % 8 + x, bytes[1] % 8;
          var noIndex := index == 4;
          var i, s := if noIndex then None else Some(index), if noIndex then 0 else scale;
          if mode == 0 && base == 5 then DecodeMemory(reg, None, i, s, bytes, 2, 4)
          else DecodeMemory(reg, Some(base + b), i, s, bytes, 2, DispSize(mode))
      else if mode == 0 && rm == 5 then
        if !x64 then DecodeMemory(reg, None, None, 0, bytes, 1, 4)
        else
          match ReadSigned(bytes, 1, 4)
          case None => None
          case Some(disp) => Some((RegAndRm(reg, RipRelative(disp)), 5))
      else DecodeMemory(reg, Some(rm + b), None, 0, bytes, 1, DispSize(mode))
  }

  /** The opcode and what follows; `rex` is the prefix consumed before, or 0. */
  function DecodeOpcode(x64: bool, kind: Kind, hasRex: bool, rex: nat, bytes: seq<Byte>): Option<Decoded> {
    if bytes == [] then None
    else
      var escape := bytes[0] == 0x0f;
      var front := if escape then 1 else 0;
      if front == |bytes| then None
      else
        var before := (if hasRex then 1 else 0) + front + 1;
        var w, opcode := rex / 8 % 2 == 1, bytes[front];
        match kind
        case Plain => Some(Decoded(w, hasRex, escape, opcode, NoFields, before))
        case WithRegister =>
          Some(Decoded(w, hasRex, escape, opcode - opcode % 8, OpcodeRegister(opcode % 8 + rex % 2 * 8), before))
        case WithModRm =>
          match DecodeOperand(x64, rex / 4 % 2 * 8, rex / 2 % 2 * 8, rex % 2 * 8, bytes[front + 1..])
          case None => None
          case Some((fields, n)) => Some(Decoded(w, hasRex, escape, opcode, fields, before + n))
  }

  /** One instruction up to its immediate. The opcode map says which kind the opcode is of. */
  function Decode(x64: bool, kind: Kind, bytes: seq<Byte>): Option<Decoded> {
    if x64 && bytes != [] && bytes[0] / 16 == 4 then DecodeOpcode(x64, kind, true, bytes[0], bytes[1..])
    else DecodeOpcode(x64, kind, false, 0, bytes)
  }

  // The round trip --------------------------------------------------------------------------

  /** What the operand stands for. */
  function FieldsOf(o: Operand): Fields {
    match o
    case NoOperand => NoFields
    case InOpcode(rm) => OpcodeRegister(rm)
    case Direct(reg, rm) => RegAndRm(reg, Register(rm))
    case Based(reg, base, offset, _) => RegAndRm(reg, Memory(Some(base), None, 0, offset))
    case Indexed(reg, base, index, scale, offset) => RegAndRm(reg, Memory(Some(base), Some(index), scale, offset))
    case Absolute(reg, address) => RegAndRm(reg, Memory(None, None, 0, address))
  }

  lemma ReadBack(front: seq<Byte>, value: Int32, n: nat, rest: seq<Byte>)
    requires n == 4 || (n == 1 && -128 <= value < 128) || (n == 0 && value == 0)
    ensures ReadSigned(front + LittleEndian(value, n) + rest, |front|, n) == Some(value)
  {
    hide LittleEndian, Signed, Power256;
    if n > 0 {
      var bytes := front + LittleEndian(value, n) + rest;
      assert bytes[|front|..|front| + n] == LittleEndian(value, n);
      PowersOf256();
      SignedRoundTrip(value, n);
    }
  }

  lemma PowersOf256()
    ensures Power256(1) == 0x100 && Power256(4) == 0x1_0000_0000
  {
    assert Power256(1) == 256 * Power256(0);
    assert Power256(2) == 256 * Power256(1);
    assert Power256(3) == 256 * Power256(2);
  }

  lemma ModRmFields(mode: nat, reg: Reg, rm: Reg)
    requires mode < 4
    ensures var m := ModRm(mode, reg, rm); m / 64 == mode && m / 8 % 8 == reg % 8 && m % 8 == rm % 8
  {
    var high, low := mode * 8 + reg % 8, rm % 8;
    assert ModRm(mode, reg, rm) == high * 8 + low;
  }

  lemma SplitRegister(r: Reg)
    ensures r % 8 + r / 8 * 8 == r && r / 8 < 2
    ensures r % 8 == 4 <==> r == ESP || r == R12
    ensures r % 8 == 5 <==> r == EBP || r == R13
  {
  }

  /** Base and displacement, by way of a SIB byte for esp and r12. */
  lemma BasedRoundTrip(x64: bool, o: Operand, rest: seq<Byte>)
    requires o.Based? && LegalOperand(x64, o)
    ensures DecodeOperand(x64, o.reg / 8 * 8, 0, o.base / 8 * 8, OperandBytes(o) + rest)
            == Some((FieldsOf(o), |OperandBytes(o)|))
  {
    hide LittleEndian, Signed, ModRm;
    var mode := if o.forceDisp32 then DISP32 else DispMode(o.base, o.offset);
    ReadBack(BaseBytes(mode, o.reg, o.base), o.offset, DispSize(mode), rest);
    ModRmFields(mode, o.reg, ESP);
    ModRmFields(0, ESP, o.base);
    ModRmFields(mode, o.reg, o.base);
    SplitRegister(o.reg);
    SplitRegister(o.base);
  }

  lemma IndexedRoundTrip(x64: bool, o: Operand, rest: seq<Byte>)
    requires o.Indexed? && LegalOperand(x64, o)
    ensures DecodeOperand(x64, o.reg / 8 * 8, o.index / 8 * 8, o.base / 8 * 8, OperandBytes(o) + rest)
            == Some((FieldsOf(o), |OperandBytes(o)|))
  {
    hide LittleEndian, Signed, ModRm;
    var mode := DispMode(o.base, o.offset);
    ReadBack([ModRm(mode, o.reg, ESP), ModRm(o.scale, o.index, o.base)], o.offset, DispSize(mode), rest);
    ModRmFields(mode, o.reg, ESP);
    ModRmFields(o.scale, o.index, o.base);
    SplitRegister(o.reg);
    SplitRegister(o.base);
    SplitRegister(o.index);
  }

  lemma PlainRoundTrip(x64: bool, o: Operand, rest: seq<Byte>)
    requires (o.Direct? || o.Absolute?) && LegalOperand(x64, o)
    ensures DecodeOperand(x64, o.reg / 8 * 8, 0, o.B() / 8 * 8, OperandBytes(o) + rest)
            == Some((FieldsOf(o), |OperandBytes(o)|))
  {
    hide LittleEndian, Signed, ModRm;
    SplitRegister(o.reg);
    SplitRegister(o.B());
    if o.Direct? {
      ModRmFields(REGISTER, o.reg, o.rm);
    } else {
      ReadBack([ModRm(NO_DISP, o.reg, EBP)], o.address, 4, rest);
      ModRmFields(NO_DISP, o.reg, EBP);
    }
  }

  lemma OperandRoundTrip(x64: bool, o: Operand, rest: seq<Byte>)
    requires LegalOperand(x64, o) && !o.NoOperand? && !o.InOpcode?
    ensures DecodeOperand(x64, o.R() / 8 * 8, o.X() / 8 * 8, o.B() / 8 * 8, OperandBytes(o) + rest)
            == Some((FieldsOf(o), |OperandBytes(o)|))
  {
    hide DecodeOperand, OperandBytes, FieldsOf;
    match o
    case Based(_, _, _, _) => BasedRoundTrip(x64, o, rest);
    case Indexed(_, _, _, _, _) => IndexedRoundTrip(x64, o, rest);
    case _ => PlainRoundTrip(x64, o, rest);
  }

  lemma NoOperandBytes(o: Operand)
    requires o.NoOperand? || o.InOpcode?
    ensures OperandBytes(o) == []
  {
  }

  lemma RexFields(w: bool, r: Reg, x: Reg, b: Reg)
    ensures var rex := RexByte(w, r, x, b);
            && rex / 16 == 4 && (rex / 8 % 2 == 1 <==> w)
            && rex / 4 % 2 == r / 8 && rex / 2 % 2 == x / 8 && rex % 2 == b / 8
  {
    FourBits(if w then 1 else 0, r / 8, x / 8, b / 8);
  }

  lemma FourBits(w: nat, r: nat, x: nat, b: nat)
    requires w < 2 && r < 2 && x < 2 && b < 2
    ensures var n := 64 + w * 8 + r * 4 + x * 2 + b;
            n / 16 == 4 && n / 8 % 2 == w && n / 4 % 2 == r && n / 2 % 2 == x && n % 2 == b
  {
  }

  predicate HasModRm(i: Insn) {
    !i.operand.NoOperand? && !i.operand.InOpcode?
  }

  function KindOf(i: Insn): Kind {
    if i.operand.InOpcode? then WithRegister else if i.operand.NoOperand? then Plain else WithModRm
  }

  function OpcodeOf(i: Insn): Byte
    requires i.operand.InOpcode? ==> i.opcode % 8 == 0
  {
    i.opcode + if i.operand.InOpcode? then i.operand.rm % 8 else 0
  }

  /** Without a REX prefix every register involved is below r8. */
  lemma NoRexNoHighRegister(x64: bool, i: Insn)
    requires Legal(x64, i) && !HasRex(x64, i)
    ensures i.operand.R() < 8 && i.operand.X() < 8 && i.operand.B() < 8 && i.form != Quad
  {
  }

  /** `rex` carries the high bits of the operand's registers. */
  predicate Carries(rex: nat, o: Operand) {
    rex / 4 % 2 == o.R() / 8 && rex / 2 % 2 == o.X() / 8 && rex % 2 == o.B() / 8
  }

  lemma OpcodeRoundTrip(x64: bool, i: Insn, rex: nat, rest: seq<Byte>)
    requires Legal(x64, i) && Carries(rex, i.operand) && (rex / 8 % 2 == 1 <==> i.form == Quad)
    ensures DecodeOpcode(x64, KindOf(i), HasRex(x64, i), rex, OpcodeBytes(i) + (OperandBytes(i.operand) + rest))
            == Some(Decoded(i.form == Quad, HasRex(x64, i), i.escape, i.opcode, FieldsOf(i.operand),
                            |Encode(x64, i)|))
  {
    hide DecodeOperand, OperandBytes, RexByte, Operand.R, Operand.X;
    var o := i.operand;
    var tail := OperandBytes(o) + rest;
    assert (OpcodeBytes(i) + tail)[|OpcodeBytes(i)|..] == tail;
    if HasModRm(i) {
      OperandRoundTrip(x64, o, rest);
    } else {
      NoOperandBytes(o);
      if o.InOpcode? {
        SplitRegister(o.rm);
        LowBits(i.opcode, o.rm % 8);
      }
    }
  }

  lemma LowBits(opcode: nat, low: nat)
    requires opcode % 8 == 0 && low < 8
    ensures (opcode + low) % 8 == low
  {
  }

  lemma PartsRoundTrip(x64: bool, i: Insn, rest: seq<Byte>)
    requires Legal(x64, i)
    ensures Decode(x64, KindOf(i), Encode(x64, i) + rest)
            == Some(Decoded(i.form == Quad, HasRex(x64, i), i.escape, i.opcode, FieldsOf(i.operand), |Encode(x64, i)|))
  {
    hide DecodeOpcode, OperandBytes, HasRex, RexByte, Operand.R, Operand.X, Operand.B;
    var o := i.operand;
    var bytes := Encode(x64, i) + rest;
    var op := OpcodeBytes(i) + (OperandBytes(o) + rest);
    assert bytes == RexBytes(x64, i) + op;
    if HasRex(x64, i) {
      RexFields(i.form == Quad, o.R(), o.X(), o.B());
      assert bytes[1..] == op;
      OpcodeRoundTrip(x64, i, RexByte(i.form == Quad, o.R(), o.X(), o.B()), rest);
    } else {
      NoRexNoHighRegister(x64, i);
      assert bytes == op && op[0] == OpcodeBytes(i)[0];
      OpcodeRoundTrip(x64, i, 0, rest);
    }
  }

  /**
    Decoding the bytes gives the opcode, the registers, scale and offset back, and
    consumes exactly the bytes emitted, whatever follows them.
   */
  lemma RoundTrip(x64: bool, i: Insn, rest: seq<Byte>)
    requires Legal(x64, i)
    ensures var d := Decode(x64, KindOf(i), Encode(x64, i) + rest);
            && d.Some? && d.value.length == |Encode(x64, i)|
            && d.value.escape == i.escape && d.value.opcode == i.opcode && (d.value.w <==> i.form == Quad)
            && d.value.fields ==
               match i.operand
               case NoOperand => NoFields
               case InOpcode(rm) => OpcodeRegister(rm)
               case Direct(reg, rm) => RegAndRm(reg, Register(rm))
               case Based(reg, base, offset, _) => RegAndRm(reg, Memory(Some(base), None, 0, offset))
               case Indexed(reg, base, index, scale, offset) =>
                 RegAndRm(reg, Memory(Some(base), Some(index), scale, offset))
               case Absolute(reg, address) => RegAndRm(reg, Memory(None, None, 0, address))
  {
    hide Decode, Encode;
    PartsRoundTrip(x64, i, rest);
  }

  /** One of the registers named is `n` or above. */
  predicate NamesFrom(fields: Fields, n: nat) {
    match fields
    case NoFields => false
    case OpcodeRegister(r) => r >= n
    case RegAndRm(reg, rm) => reg >= n || RmNamesFrom(rm, n)
  }

  predicate RmNamesFrom(rm: Rm, n: nat) {
    match rm
    case Register(r) => r >= n
    case Memory(base, index, _, _) => (base.Some? && base.value >= n) || (index.Some? && index.value >= n)
    case RipRelative(_) => false
  }

  /** A prefix is planted exactly where the manual asks for one, and for every byte register from 4 on. */
  lemma PrefixWhenNeeded(x64: bool, i: Insn, rest: seq<Byte>)
    requires Legal(x64, i)
    ensures var d := Decode(x64, KindOf(i), Encode(x64, i) + rest);
            && d.Some?
            && (d.value.rex <==>
                  x64 && match i.form
                         case Normal => NamesFrom(d.value.fields, 8)
                         case Quad => true
                         case ByteRegisters => NamesFrom(d.value.fields, 4)
                         case ByteGroup => d.value.fields.RegAndRm? && RmNamesFrom(d.value.fields.rm, 4))
  {
    hide Decode, Encode;
    PartsRoundTrip(x64, i, rest);
  }

  // Displacements ---------------------------------------------------------------------------

  /** A displacement that was forced to four bytes can be overwritten with any other. */
  lemma ForcedCanBePatched(x64: bool, o: Operand, disp: seq<Byte>, rest: seq<Byte>)
    requires o.Based? && o.forceDisp32 && LegalOperand(x64, o) && |disp| == 4
    ensures var bytes := OperandBytes(o);
            && |bytes| >= 5
            && DecodeOperand(x64, o.reg / 8 * 8, 0, o.base / 8 * 8, bytes[..|bytes| - 4] + disp + rest)
               == Some((RegAndRm(o.reg, Memory(Some(o.base), None, 0, Signed(disp))), |bytes|))
  {
    hide LittleEndian, Signed, ModRm;
    var front := BaseBytes(DISP32, o.reg, o.base);
    var bytes := OperandBytes(o);
    assert bytes[..|bytes| - 4] == front;
    assert (front + disp + rest)[|front|..|front| + 4] == disp;
    ModRmFields(DISP32, o.reg, ESP);
    ModRmFields(0, ESP, o.base);
    ModRmFields(DISP32, o.reg, o.base);
    SplitRegister(o.reg);
    SplitRegister(o.base);
  }

  lemma ByteBounds(bytes: seq<Byte>)
    requires |bytes| == 1
    ensures -128 <= Signed(bytes) < 128
  {
    assert Unsigned(bytes) == bytes[0] + 256 * Unsigned(bytes[1..]);
    assert Power256(1) == 256 * Power256(0);
  }

  /** Unless four bytes are forced, no encoding of the operand is shorter. */
  lemma NoShorterOperand(x64: bool, o: Operand, bytes: seq<Byte>, fields: Fields, n: nat)
    requires LegalOperand(x64, o) && HasModRm(Insn(Normal, false, 0, o)) && !(o.Based? && o.forceDisp32)
    requires DecodeOperand(x64, o.R() / 8 * 8, o.X() / 8 * 8, o.B() / 8 * 8, bytes) == Some((fields, n))
    requires fields == FieldsOf(o)
    ensures n >= |OperandBytes(o)|
  {
    hide LittleEndian, Signed, ModRm;
    var mode, rm := bytes[0] / 64, bytes[0] % 8;
    if mode == DISP8 {
      var at := if rm == 4 then 2 else 1;
      if at + 1 <= |bytes| {
        ByteBounds(bytes[at..at + 1]);
      }
    }
    SplitRegister(o.B());
  }

  // Byte registers ------------------------------------------------------------------------------

  // The low byte of a register, or the second byte of one of the first four.
  datatype ByteReg = LowByte(r: nat) | HighByte(r: nat)

  /** With a REX prefix the numbers 4 to 7 are spl to dil, without one ah to bh. */
  function NamedByte(rex: bool, r: nat): ByteReg {
    if !rex && 4 <= r < 8 then HighByte(r - 4) else LowByte(r)
  }

  /** In 64-bit mode the byte formatters always name the low byte. */
  lemma LowBytesNamed(i: Insn)
    requires Legal(true, i) && (i.form == ByteRegisters || i.form == ByteGroup)
    ensures NamedByte(HasRex(true, i), i.operand.rm) == LowByte(i.operand.rm)
    ensures i.form == ByteRegisters ==> NamedByte(HasRex(true, i), i.operand.reg) == LowByte(i.operand.reg)
  {
  }

  /** On 32-bit x86 there is no REX prefix: esp to edi as byte operands mean ah to bh. */
  lemma HighBytesNamed(i: Insn)
    requires Legal(false, i) && i.operand.Direct?
    ensures NamedByte(HasRex(false, i), i.operand.rm) == LowByte(i.operand.rm) <==> i.operand.rm < ESP
    ensures i.form == ByteRegisters ==>
              (NamedByte(HasRex(false, i), i.operand.reg) == LowByte(i.operand.reg) <==> i.operand.reg < ESP)
  {
  }
}
