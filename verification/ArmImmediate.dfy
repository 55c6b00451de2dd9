/**
  ARM modified immediates (ARM Architecture Reference Manual ARMv7-A/R, DDI 0406,
  section A5.2.4): an 8-bit value rotated right by an even amount. How the
  assembler finds one, or a pair of them, for a 32-bit value.
 */
module ArmImmediate {
  // Rotation -------------------------------------------------------------------

  /** Rotate right by two bits. */
  function Turn(x: bv32): bv32 {
    (x >> 2) | (x << 30)
  }

  /** Rotate right by 2 * k bits. */
  function Turns(x: bv32, k: nat): bv32 {
    if k == 0 then x else Turn(Turns(x, k - 1))
  }

  /** Rotate right by 2 * k bits, in one go. */
  function Ror(x: bv32, k: bv32): bv32
    requires k < 16
  {
    (x >> (2 * k)) | (x << (32 - 2 * k))
  }

  lemma {:induction false} TurnsAdd(x: bv32, i: nat, k: nat)
    ensures Turns(Turns(x, i), k) == Turns(x, i + k)
  {
    hide Turn;
    if k > 0 {
      TurnsAdd(x, i, k - 1);
    }
  }

  function Or(x: bv32, y: bv32): bv32 {
    x | y
  }

  function And(x: bv32, y: bv32): bv32 {
    x & y
  }

  function Not(x: bv32): bv32 {
    !x
  }

  lemma TurnDistributes(x: bv32, y: bv32)
    ensures Turn(Or(x, y)) == Or(Turn(x), Turn(y))
  {
  }

  lemma {:induction false} TurnsDistribute(x: bv32, y: bv32, k: nat)
    ensures Turns(Or(x, y), k) == Or(Turns(x, k), Turns(y, k))
  {
    hide Or, Turn;
    if k > 0 {
      TurnsDistribute(x, y, k - 1);
      TurnDistributes(Turns(x, k - 1), Turns(y, k - 1));
    }
  }

  lemma FourTurns(x: bv32)
    ensures Turns(x, 4) == (x >> 8) | (x << 24)
  {
    assert Turns(x, 0) == x;
    assert Turns(x, 1) == Turn(x);
    assert Turns(x, 2) == Turn(Turns(x, 1));
    assert Turns(x, 3) == Turn(Turns(x, 2));
  }

  lemma FullTurn(x: bv32)
    ensures Turns(x, 16) == x
  {
    hide Turns;
    FourTurns(x);
    TurnsAdd(x, 4, 4);
    FourTurns(Turns(x, 4));
    TurnsAdd(x, 8, 4);
    FourTurns(Turns(x, 8));
    TurnsAdd(x, 12, 4);
    FourTurns(Turns(x, 12));
  }

  lemma TurnsModulo(x: bv32, k: nat)
    ensures Turns(x, 16 + k) == Turns(x, k)
  {
    hide Turns;
    FullTurn(x);
    TurnsAdd(x, 16, k);
  }

  lemma RorStep(x: bv32, k: bv32)
    requires 1 <= k < 16
    ensures Turn(Ror(x, k - 1)) == Ror(x, k)
  {
    if k == 1 {} else if k == 2 {} else if k == 3 {} else if k == 4 {} else if k == 5 {}
    else if k == 6 {} else if k == 7 {} else if k == 8 {} else if k == 9 {} else if k == 10 {}
    else if k == 11 {} else if k == 12 {} else if k == 13 {} else if k == 14 {} else {}
  }

  lemma CountDown(k: bv32)
    requires 1 <= k < 16
    ensures 1 <= k as nat < 16 && (k - 1) as nat == k as nat - 1
  {
  }

  /** The turns are the rotation of the architecture manual. */
  lemma {:induction false} RorIsTurns(x: bv32, k: bv32)
    requires k < 16
    ensures Ror(x, k) == Turns(x, k as nat)
    decreases k as nat
  {
    hide Turn;
    if k == 0 {
      RorByNone(x);
    } else {
      hide Ror;
      CountDown(k);
      RorIsTurns(x, k - 1);
      RorStep(x, k);
    }
  }

  lemma RorByNone(x: bv32)
    ensures Ror(x, 0) == x
  {
  }

  lemma SmallCount(k: nat)
    requires k < 16
    ensures k as bv32 < 16 && (k as bv32) as nat == k
  {
  }

  // Operands -------------------------------------------------------------------

  // An operand field as it is added to an instruction word.
  type Operand2 = nat

  const OP2_IMM: Operand2 := 0x0200_0000
  const INVALID_IMM: Operand2 := 0xf000_0000

  /** The flag, four bits of rotation, eight of value, and nothing else. */
  predicate IsImmediate(op2: Operand2) {
    op2 / 0x1000 * 0x1000 == OP2_IMM
  }

  /** ARMExpandImm */
  function Expand(op2: Operand2): bv32 {
    Turns((op2 % 0x100) as bv32, op2 / 0x100 % 16)
  }

  /** OP2_IMM | b | (rol << 8) */
  function Operand(b: bv32, rol: nat): Operand2
    requires b <= 0xff && rol < 16
  {
    OP2_IMM + rol * 0x100 + b as nat
  }

  ghost predicate Encodable(value: bv32) {
    exists b: bv32, k: nat :: b <= 0xff && k < 16 && Turns(b, k) == value
  }

  lemma ByteAsNumber(b: bv32)
    requires b <= 0xff
    ensures b as nat < 0x100 && (b as nat) as bv32 == b
  {
  }

  lemma OperandDigits(n: nat, rol: nat)
    requires n < 0x100 && rol < 16
    ensures var op2 := OP2_IMM + rol * 0x100 + n;
            IsImmediate(op2) && op2 != INVALID_IMM && op2 % 0x100 == n && op2 / 0x100 % 16 == rol
  {
  }

  lemma OperandFields(b: bv32, rol: nat)
    requires b <= 0xff && rol < 16
    ensures var op2 := Operand(b, rol);
            IsImmediate(op2) && op2 != INVALID_IMM && Expand(op2) == Turns(b, rol)
  {
    hide Turns;
    ByteAsNumber(b);
    OperandDigits(b as nat, rol);
  }

  // The conditional shifts both searches are made of -------------------------------

  // A value under way to the top byte, and the rotation that undoes the shifts.
  datatype Shifted = Shifted(imm: bv32, rol: nat)
  {
    function SkipByte(): Shifted {
      if imm & 0xff00_0000 == 0 then Shifted(imm << 8, rol + 4) else this
    }

    function SkipNibble(): Shifted {
      if imm & 0xf000_0000 == 0 then Shifted(imm << 4, rol + 2) else this
    }

    function SkipPair(): Shifted {
      if imm & 0xc000_0000 == 0 then Shifted(imm << 2, rol + 1) else this
    }

    predicate OneByte() {
      imm & 0x00ff_ffff == 0
    }

    function TopByte(): (b: bv32)
      ensures b <= 0xff
    {
      (imm >> 24) & 0xff
    }

    /** Drop the top byte. */
    function Rest(): Shifted {
      Shifted(imm << 8, rol + 4)
    }
  }

  method SkipByte(imm: bv32, rol: nat) returns (imm': bv32, rol': nat)
    ensures Shifted(imm', rol') == Shifted(imm, rol).SkipByte()
  {
    imm', rol' := imm, rol;
    if imm' & 0xff00_0000 == 0 {
      imm' := imm' << 8;
      rol' := rol' + 4;
    }
  }

  method SkipNibble(imm: bv32, rol: nat) returns (imm': bv32, rol': nat)
    ensures Shifted(imm', rol') == Shifted(imm, rol).SkipNibble()
  {
    imm', rol' := imm, rol;
    if imm' & 0xf000_0000 == 0 {
      imm' := imm' << 4;
      rol' := rol' + 2;
    }
  }

  method SkipPair(imm: bv32, rol: nat) returns (imm': bv32, rol': nat)
    ensures Shifted(imm', rol') == Shifted(imm, rol).SkipPair()
  {
    imm', rol' := imm, rol;
    if imm' & 0xc000_0000 == 0 {
      imm' := imm' << 2;
      rol' := rol' + 1;
    }
  }

  // A byte standing `d` bit pairs below the top -----------------------------------

  function At(b: bv32, d: nat): bv32 {
    if d == 0 then b << 24 else if d == 1 then b << 22 else if d == 2 then b << 20
    else if d == 3 then b << 18 else if d == 4 then b << 16 else if d == 5 then b << 14
    else if d == 6 then b << 12 else if d == 7 then b << 10 else if d == 8 then b << 8
    else if d == 9 then b << 6 else if d == 10 then b << 4 else b << 2
  }

  lemma AtStepHigh(b: bv32, d: nat)
    requires b <= 0xff && 1 <= d < 6
    ensures At(b, d) == Turn(At(b, d - 1))
  {
  }

  lemma AtStepLow(b: bv32, d: nat)
    requires b <= 0xff && 6 <= d < 12
    ensures At(b, d) == Turn(At(b, d - 1))
  {
  }

  lemma {:induction false} AtIsTurned(b: bv32, d: nat)
    requires b <= 0xff && d < 12
    ensures At(b, d) == Turns(b, 4 + d)
  {
    if d == 0 {
      FourTurns(b);
    } else {
      hide At, Turn;
      AtIsTurned(b, d - 1);
      if d < 6 {
        AtStepHigh(b, d);
      } else {
        AtStepLow(b, d);
      }
    }
  }

  /** Four turns back from `rol`, a byte at `d` is the byte turned by rol + d. */
  lemma AtTurnedBack(b: bv32, d: nat, rol: nat)
    requires b <= 0xff && d < 12 && rol < 20
    ensures Turns(At(b, d), (rol + 12) % 16) == Turns(b, (rol + d) % 16)
  {
    hide At, Turns;
    var k := (rol + 12) % 16;
    AtIsTurned(b, d);
    TurnsAdd(b, 4 + d, k);
    var n := 4 + d + k;
    assert n % 16 == (rol + d) % 16;
    if n >= 16 {
      TurnsModulo(b, n - 16);
    }
  }

  /**
    What a round of skips undoes: if only the top byte is left, the value it
    started from is that byte, standing lower by the turns recorded.
   */
  predicate Undone(s: Shifted, w: Shifted) {
    w.OneByte() ==> s.rol <= w.rol < s.rol + 8 && s.imm == At(w.TopByte(), w.rol - s.rol)
  }

  lemma NibbleUndone(s: Shifted)
    ensures Undone(s, s.SkipNibble().SkipPair()) && s.rol <= s.SkipNibble().SkipPair().rol <= s.rol + 3
  {
  }

  function DownAByte(x: bv32): bv32 {
    x >> 8
  }

  lemma AtDownAByte(b: bv32, d: nat)
    requires b <= 0xff && d < 4
    ensures DownAByte(At(b, d)) == At(b, d + 4)
  {
  }

  lemma AtDownAByteLow(b: bv32, d: nat)
    requires b <= 0xff && 4 <= d < 8
    ensures DownAByte(At(b, d)) == At(b, d + 4)
  {
  }

  lemma ByteUp(x: bv32)
    requires x & 0xff00_0000 == 0
    ensures DownAByte(x << 8) == x
  {
  }

  lemma SkipByteCases(s: Shifted)
    ensures s.SkipByte() == s || (s.SkipByte() == Shifted(s.imm << 8, s.rol + 4) && s.imm & 0xff00_0000 == 0)
  {
  }

  lemma ByteUndone(s: Shifted)
    ensures Undone(s, s.SkipByte().SkipNibble().SkipPair())
  {
    hide At, DownAByte, Shifted.SkipByte, Shifted.SkipNibble, Shifted.SkipPair, Shifted.OneByte, Shifted.TopByte;
    var t := s.SkipByte();
    NibbleUndone(t);
    SkipByteCases(s);
    var w := t.SkipNibble().SkipPair();
    if t != s && w.OneByte() {
      ByteUp(s.imm);
      AtDownAByte(w.TopByte(), w.rol - t.rol);
    }
  }

  // getOp2 ---------------------------------------------------------------------

  function Start(value: bv32): Shifted {
    if value & 0xff00_0000 == 0 then Shifted(value << 8, 8) else Shifted((value << 24) | (value >> 8), 0)
  }

  function Window(value: bv32): Shifted {
    Start(value).SkipByte().SkipNibble().SkipPair()
  }

  lemma StartTurnedBack(value: bv32)
    ensures Turns(Start(value).imm, (Start(value).rol + 12) % 16) == value
  {
    hide Turns;
    FourTurns(value << 8);
    FourTurns(value);
    assert (value << 24) | (value >> 8) == Turns(value, 4);
    TurnsAdd(value, 4, 12);
    FullTurn(value);
  }

  /** What the window decodes to is the value. */
  lemma WindowIsExact(value: bv32)
    requires value > 0xff && Window(value).OneByte()
    ensures Window(value).rol < 16 && Turns(Window(value).TopByte(), Window(value).rol) == value
  {
    hide Turns, At, Shifted.SkipByte, Shifted.SkipNibble, Shifted.SkipPair, Shifted.OneByte, Shifted.TopByte;
    var s, w := Start(value), Window(value);
    StartTurnedBack(value);
    ByteUndone(s);
    AtTurnedBack(w.TopByte(), w.rol - s.rol, s.rol);
  }

  /** Every window of eight bits is found, also one that wraps around bit 0. */
  lemma WindowIsFound(b: bv32, k: bv32)
    requires b <= 0xff && k < 16 && Ror(b, k) > 0xff
    ensures Window(Ror(b, k)).OneByte()
  {
    hide Ror, Window, Shifted.OneByte;
    if k < 4 {
      WindowAround(b, k);
    } else if k < 8 {
      WindowOnTop(b, k);
    } else if k < 12 {
      WindowBelowTop(b, k);
    } else {
      WindowAtBottom(b, k);
    }
  }

  lemma WindowAround(b: bv32, k: bv32)
    requires b <= 0xff && k < 4 && Ror(b, k) > 0xff
    ensures Window(Ror(b, k)).OneByte()
  {
  }

  lemma WindowOnTop(b: bv32, k: bv32)
    requires b <= 0xff && 4 <= k < 8 && Ror(b, k) > 0xff
    ensures Window(Ror(b, k)).OneByte()
  {
  }

  lemma WindowBelowTop(b: bv32, k: bv32)
    requires b <= 0xff && 8 <= k < 12 && Ror(b, k) > 0xff
    ensures Window(Ror(b, k)).OneByte()
  {
  }

  lemma WindowAtBottom(b: bv32, k: bv32)
    requires b <= 0xff && 12 <= k < 16 && Ror(b, k) > 0xff
    ensures Window(Ror(b, k)).OneByte()
  {
  }

  lemma WindowMissed(value: bv32)
    requires value > 0xff && !Window(value).OneByte()
    ensures !Encodable(value)
  {
    hide Ror, Turns, Window, Shifted.OneByte;
    if Encodable(value) {
      var b: bv32, k: nat :| b <= 0xff && k < 16 && Turns(b, k) == value;
      SmallCount(k);
      RorIsTurns(b, k as bv32);
      WindowIsFound(b, k as bv32);
    }
  }

  lemma EncodableBy(b: bv32, k: nat)
    requires b <= 0xff && k < 16
    ensures Encodable(Turns(b, k))
  {
  }

  /** The window is the value if and only if the value is encodable. */
  lemma WindowFacts(value: bv32)
    requires value > 0xff
    ensures var w := Window(value);
            && (w.OneByte() <==> Encodable(value))
            && (w.OneByte() ==> w.rol < 16)
            && (w.OneByte() ==> var op2 := Operand(w.TopByte(), w.rol);
                                op2 != INVALID_IMM && IsImmediate(op2) && Expand(op2) == value)
  {
    hide Turns, IsImmediate, Expand, Operand, Window, Encodable, Shifted.OneByte, Shifted.TopByte;
    var w := Window(value);
    if w.OneByte() {
      WindowIsExact(value);
      OperandFields(w.TopByte(), w.rol);
      EncodableBy(w.TopByte(), w.rol);
    } else {
      WindowMissed(value);
    }
  }

  method GetOp2(value: bv32) returns (op2: Operand2)
    ensures op2 != INVALID_IMM ==> IsImmediate(op2) && Expand(op2) == value
    ensures op2 == INVALID_IMM <==> !Encodable(value)
  {
    hide Turns, IsImmediate, Expand, Operand, Encodable, Shifted.SkipByte, Shifted.SkipNibble, Shifted.SkipPair;
    var imm, rol := value, 0;
    if imm <= 0xff {
      NoTurns(value);
      OperandFields(imm, 0);
      EncodableBy(imm, 0);
      return Operand(imm, 0);
    }

    if imm & 0xff00_0000 == 0 {
      imm := imm << 8;
      rol := 8;
    } else {
      imm := (imm << 24) | (imm >> 8);
      rol := 0;
    }
    imm, rol := SkipByte(imm, rol);
    imm, rol := SkipNibble(imm, rol);
    imm, rol := SkipPair(imm, rol);

    WindowFacts(value);
    if imm & 0x00ff_ffff == 0 {
      return Operand((imm >> 24) & 0xff, rol);
    }
    return INVALID_IMM;
  }

  lemma NoTurns(value: bv32)
    ensures Turns(value, 0) == value
  {
  }

  // genInt: the search -----------------------------------------------------------

  function Rotl(x: bv32, n: bv32): bv32
    requires n <= 32
  {
    (x << n) | (x >> (32 - n))
  }

  lemma RotlIsUndone(x: bv32, n: bv32)
    requires n < 32 && n & 1 == 0
    ensures Ror(Rotl(x, n), n >> 1) == x
  {
  }

  lemma HighWindow(x: bv32, n: bv32)
    requires 8 <= n < 32 && n & 1 == 0
    ensures x & (0xff00_0000 >> (n - 8)) == 0 <==> LowByte(Rotl(x, n)) == 0
  {
  }

  lemma LowWindow(x: bv32, n: bv32)
    requires 24 <= n < 32 && n & 1 == 0
    ensures x & (0xff00 >> (n - 24)) == 0 <==> LowByte(Rotl(x, n)) == 0
  {
  }

  lemma RotlTwice(x: bv32, n: bv32)
    requires 24 <= n < 32 && n & 1 == 0
    ensures Ror(Rotl(Rotl(x, 8), n), (n - 24) >> 1) == x
  {
    if n == 24 {
    } else if n == 26 {
    } else if n == 28 {
    } else {
    }
  }

  function LowByte(x: bv32): bv32 {
    x & 0xff
  }

  function Pairs(shift: bv32): nat {
    (shift >> 1) as nat
  }

  lemma NextShift(shift: bv32)
    requires 8 <= shift <= 30
    ensures Pairs(shift + 2) == Pairs(shift) + 1
  {
  }

  lemma SearchBounds()
    ensures Pairs(8) == 4 && Pairs(24) == 12 && Pairs(32) == 16
  {
  }

  /** Rotating left by `n` bits is turning right by the rest. */
  lemma RotlIsTurns(x: bv32, n: bv32)
    requires n < 32 && n & 1 == 0
    ensures Pairs(n) < 16 && Rotl(x, n) == Turns(x, 16 - Pairs(n))
  {
    hide Turns, Ror, Rotl;
    RotlIsUndone(x, n);
    CountBelow(n >> 1);
    var y, j := Rotl(x, n), Pairs(n);
    RorIsTurns(y, n >> 1);
    TurnsAdd(y, j, 16 - j);
    FullTurn(y);
  }

  lemma CountBelow(k: bv32)
    requires k < 16
    ensures k as nat < 16
  {
  }

  /** The rotation recorded, taken four turns back, is the one that undoes the search. */
  lemma FoundHigh(imm: bv32, shift: bv32, value: bv32)
    requires 8 <= shift < 32 && Ror(imm, shift >> 1) == value
    ensures Turns(imm, (4 + Pairs(shift) + 12) % 16) == value
  {
    hide Ror, Turns;
    RorIsTurns(imm, shift >> 1);
    CountBelow(shift >> 1);
  }

  lemma FoundLow(imm: bv32, shift: bv32, value: bv32)
    requires 24 <= shift < 32 && Ror(imm, (shift - 24) >> 1) == value
    ensures Pairs(shift) >= 12 && Turns(imm, (Pairs(shift) - 8 + 12) % 16) == value
  {
    hide Ror, Turns;
    RorIsTurns(imm, (shift - 24) >> 1);
    CountBelow((shift - 24) >> 1);
    LastTurns(shift);
  }

  lemma HighMask(mask: bv32, shift: bv32)
    requires 8 <= shift <= 32 && shift & 1 == 0 && mask == 0xff00_0000 >> (shift - 8)
    ensures mask & 3 != 0 <==> shift == 32
  {
  }

  lemma LowMask(mask: bv32, shift: bv32)
    requires 24 <= shift <= 32 && shift & 1 == 0 && mask == 0xff00 >> (shift - 24)
    ensures mask & 3 != 0 <==> shift == 32
  {
  }

  /** None of these turns of the value has a zero byte at the bottom. */
  ghost predicate Tried(value: bv32, from: nat, to: nat) {
    forall t: nat | from <= t < to :: LowByte(Turns(value, t)) != 0
  }

  lemma TriedOneMore(value: bv32, from: nat, to: nat)
    requires from > 0 && Tried(value, from, to) && LowByte(Turns(value, from - 1)) != 0
    ensures Tried(value, from - 1, to)
  {
  }

  /** The two loops try the turns 12 to 1, and then 16 to 13. */
  lemma AllTurnsTried(value: bv32)
    requires Tried(value, 1, 13) && Tried(value, 13, 17)
    ensures Tried(value, 0, 16)
  {
    hide Turns, LowByte;
    FullTurn(value);
    NoTurns(value);
    assert LowByte(Turns(value, 16)) != 0;
  }

  /**
    Rotates a zero byte to the bottom. Taken four turns back, the rotation
    recorded gives the value again. Nothing is missed: all sixteen turns are tried.
   */
  method SearchZeroByte(value: bv32) returns (found: bool, imm: bv32, rol: nat)
    ensures found ==> LowByte(imm) == 0 && rol < 20 && Turns(imm, (rol + 12) % 16) == value
    ensures !found ==> Tried(value, 0, 16)
  {
    hide Ror, Rotl, Turns, Tried, Pairs, LowByte;
    imm := value;
    var mask: bv32 := 0xff00_0000;
    var shift: bv32 := 8;
    SearchBounds();
    NothingTried(value, 13);
    while true
      invariant 8 <= shift <= 30 && shift & 1 == 0
      invariant mask == 0xff00_0000 >> (shift - 8)
      invariant imm == value
      invariant 4 <= Pairs(shift) < 16 && Tried(value, 17 - Pairs(shift), 13)
      decreases 32 - shift
    {
      RotlIsTurns(value, shift);
      NextShift(shift);
      HighWindow(imm, shift);
      if imm & mask == 0 {
        RotlIsUndone(imm, shift);
        FoundHigh(Rotl(imm, shift), shift, value);
        return true, Rotl(imm, shift), 4 + Pairs(shift);
      }
      TriedOneMore(value, 17 - Pairs(shift), 13);
      shift := shift + 2;
      mask := mask >> 2;
      HighMask(mask, shift);
      if mask & 3 != 0 {
        found, imm, rol := SearchAcrossTop(value);
        return;
      }
      PairsBelow(shift);
    }
  }

  lemma NothingTried(value: bv32, t: nat)
    ensures Tried(value, t, t)
  {
  }

  lemma PairsBelow(shift: bv32)
    requires shift < 32
    ensures Pairs(shift) < 16
  {
  }

  /** The second loop: the windows that wrap around bit 0. */
  method SearchAcrossTop(value: bv32) returns (found: bool, imm: bv32, rol: nat)
    requires Tried(value, 1, 13)
    ensures found ==> LowByte(imm) == 0 && rol < 20 && Turns(imm, (rol + 12) % 16) == value
    ensures !found ==> Tried(value, 0, 16)
  {
    hide Ror, Rotl, Turns, Tried, Pairs, LowByte;
    imm := Rotl(value, 8);
    RotlIsTurns(value, 8);
    var mask: bv32 := 0xff00;
    var shift: bv32 := 24;
    SearchBounds();
    NothingTried(value, 17);
    while true
      invariant 24 <= shift <= 30 && shift & 1 == 0
      invariant mask == 0xff00 >> (shift - 24)
      invariant imm == Rotl(value, 8) == Turns(value, 12)
      invariant 12 <= Pairs(shift) < 16 && Tried(value, 29 - Pairs(shift), 17)
      decreases 32 - shift
    {
      RotlIsTurns(imm, shift);
      TurnsAdd(value, 12, 16 - Pairs(shift));
      NextShift(shift);
      LowWindow(imm, shift);
      if imm & mask == 0 {
        RotlTwice(value, shift);
        FoundLow(Rotl(imm, shift), shift, value);
        return true, Rotl(imm, shift), Pairs(shift) - 8;
      }
      TriedOneMore(value, 29 - Pairs(shift), 17);
      shift := shift + 2;
      mask := mask >> 2;
      LowMask(mask, shift);
      if mask & 3 != 0 {
        AllTurnsTried(value);
        return false, imm, 0;
      }
      PairsBelow(shift);
    }
  }

  lemma LastTurns(shift: bv32)
    requires 24 <= shift < 32
    ensures Pairs(shift) == ((shift - 24) >> 1) as nat + 12
  {
  }

  // genInt: the split -----------------------------------------------------------

  /** Two bytes that make up `imm` make up the value it is turned from. */
  lemma TwoBytes(imm: bv32, rol: nat, b1: bv32, d1: nat, b2: bv32, d2: nat)
    requires b1 <= 0xff && b2 <= 0xff && d1 < 12 && d2 < 12 && rol < 20
    requires imm == Or(At(b1, d1), At(b2, d2))
    ensures Turns(imm, (rol + 12) % 16) == Or(Turns(b1, (rol + d1) % 16), Turns(b2, (rol + d2) % 16))
  {
    hide Turns, At, Or;
    TurnsDistribute(At(b1, d1), At(b2, d2), (rol + 12) % 16);
    AtTurnedBack(b1, d1, rol);
    AtTurnedBack(b2, d2, rol);
  }

  lemma SplitMiddle(imm: bv32)
    requires imm & 0xff00_0000 == 0 && LowByte(imm) == 0
    ensures imm == Or(At((imm >> 16) & 0xff, 4), At((imm >> 8) & 0xff, 8))
  {
  }

  lemma SplitTop(s: Shifted)
    ensures s.imm == Or(At(s.TopByte(), 0), DownAByte(s.Rest().imm)) && s.Rest().rol == s.rol + 4
  {
  }

  /** The top byte is full: what is below it, if a byte, ends up at the top. */
  lemma SplitFull(s: Shifted)
    ensures var w := s.Rest().SkipByte().SkipNibble().SkipPair();
            w.OneByte() ==> s.rol + 4 <= w.rol < s.rol + 12
                            && s.imm == Or(At(s.TopByte(), 0), At(w.TopByte(), w.rol - s.rol))
  {
    hide At, Or, DownAByte, Shifted.SkipByte, Shifted.SkipNibble, Shifted.SkipPair, Shifted.OneByte, Shifted.TopByte,
         Shifted.Rest;
    SplitTop(s);
    var w := s.Rest().SkipByte().SkipNibble().SkipPair();
    ByteUndone(s.Rest());
    if w.OneByte() {
      var d := w.rol - s.Rest().rol;
      if d < 4 {
        AtDownAByte(w.TopByte(), d);
      } else {
        AtDownAByteLow(w.TopByte(), d);
      }
    }
  }

  function DownAPair(x: bv32): bv32 {
    x >> 2
  }

  function Down(x: bv32, pairs: nat): bv32 {
    if pairs == 0 then x else DownAPair(Down(x, pairs - 1))
  }

  lemma DownSteps(x: bv32)
    ensures Down(x, 0) == x && Down(x, 1) == DownAPair(x)
    ensures Down(x, 2) == DownAPair(DownAPair(x)) && Down(x, 3) == DownAPair(DownAPair(DownAPair(x)))
  {
    hide DownAPair;
    assert Down(x, 0) == x;
    assert Down(x, 1) == DownAPair(Down(x, 0));
    assert Down(x, 2) == DownAPair(Down(x, 1));
  }

  lemma NibbleUp(x: bv32)
    requires x & 0xf000_0000 == 0
    ensures DownAPair(DownAPair(x << 4)) == x
  {
  }

  lemma PairUp(x: bv32)
    requires x & 0xc000_0000 == 0
    ensures DownAPair(x << 2) == x
  {
  }

  lemma NibbleCases(s: Shifted)
    ensures s.SkipNibble() == s || (s.SkipNibble() == Shifted(s.imm << 4, s.rol + 2) && s.imm & 0xf000_0000 == 0)
  {
  }

  lemma PairCases(s: Shifted)
    ensures s.SkipPair() == s || (s.SkipPair() == Shifted(s.imm << 2, s.rol + 1) && s.imm & 0xc000_0000 == 0)
  {
  }

  lemma NibbleDown(s: Shifted)
    ensures s.SkipNibble() == s || (s.SkipNibble().rol == s.rol + 2 && s.imm == Down(s.SkipNibble().imm, 2))
  {
    hide DownAPair, Down, Shifted.SkipNibble;
    NibbleCases(s);
    if s.SkipNibble() != s {
      NibbleUp(s.imm);
      DownSteps(s.imm << 4);
    }
  }

  lemma PairDown(s: Shifted)
    ensures s.SkipPair() == s || (s.SkipPair().rol == s.rol + 1 && s.imm == Down(s.SkipPair().imm, 1))
  {
    hide DownAPair, Down, Shifted.SkipPair;
    PairCases(s);
    if s.SkipPair() != s {
      PairUp(s.imm);
      DownSteps(s.imm << 2);
    }
  }

  /** Skipping zero bits loses nothing. */
  lemma SkipIsUndone(s: Shifted)
    ensures var v := s.SkipNibble().SkipPair();
            s.rol <= v.rol <= s.rol + 3 && s.imm == Down(v.imm, v.rol - s.rol)
  {
    hide DownAPair, Down, Shifted.SkipNibble, Shifted.SkipPair;
    var v := s.SkipNibble().SkipPair();
    NibbleDown(s);
    PairDown(s.SkipNibble());
    DownSteps(v.imm);
    DownSteps(Down(v.imm, 1));
  }

  lemma DownAPairDistributes(x: bv32, y: bv32)
    ensures DownAPair(Or(x, y)) == Or(DownAPair(x), DownAPair(y))
  {
  }

  lemma {:induction false} DownDistributes(x: bv32, y: bv32, pairs: nat)
    ensures Down(Or(x, y), pairs) == Or(Down(x, pairs), Down(y, pairs))
  {
    hide Or, DownAPair;
    if pairs > 0 {
      DownDistributes(x, y, pairs - 1);
      DownAPairDistributes(Down(x, pairs - 1), Down(y, pairs - 1));
    }
  }

  lemma AtDownAPairHigh(b: bv32, d: nat)
    requires b <= 0xff && (d < 3 || d == 4)
    ensures DownAPair(At(b, d)) == At(b, d + 1)
  {
  }

  lemma AtDownAPairLow(b: bv32, d: nat)
    requires b <= 0xff && 5 <= d < 10
    ensures DownAPair(At(b, d)) == At(b, d + 1)
  {
  }

  lemma {:induction false} AtDown(b: bv32, d: nat, pairs: nat)
    requires b <= 0xff && pairs <= 3 && (d == 0 || 4 <= d < 8)
    ensures Down(At(b, d), pairs) == At(b, d + pairs)
  {
    hide DownAPair, At;
    if pairs > 0 {
      AtDown(b, d, pairs - 1);
      if d + pairs <= 5 {
        AtDownAPairHigh(b, d + pairs - 1);
      } else {
        AtDownAPairLow(b, d + pairs - 1);
      }
    }
  }

  /** The top byte has leading zeros: it is moved up first. */
  lemma SplitMoved(s: Shifted)
    ensures var v := s.SkipNibble().SkipPair();
            var w := v.Rest().SkipNibble().SkipPair();
            w.OneByte() ==> s.rol <= v.rol < s.rol + 12 && s.rol <= w.rol < s.rol + 12
                            && s.imm == Or(At(v.TopByte(), v.rol - s.rol), At(w.TopByte(), w.rol - s.rol))
  {
    var v := s.SkipNibble().SkipPair();
    hide At, Or, Down, DownAByte, Shifted.SkipByte, Shifted.SkipNibble, Shifted.SkipPair, Shifted.OneByte,
         Shifted.TopByte, Shifted.Rest;
    SplitTop(v);
    var w := v.Rest().SkipNibble().SkipPair();
    SkipIsUndone(s);
    NibbleUndone(v.Rest());
    if w.OneByte() {
      var c, e := v.rol - s.rol, w.rol - v.Rest().rol;
      AtDownAByte(w.TopByte(), e);
      DownDistributes(At(v.TopByte(), 0), At(w.TopByte(), e + 4), c);
      AtDown(v.TopByte(), 0, c);
      AtDown(w.TopByte(), e + 4, c);
    }
  }

  /** Both operands are immediates, and the values they stand for make up `value`. */
  predicate IsPair(value: bv32, imm1: Operand2, imm2: Operand2) {
    IsImmediate(imm1) && IsImmediate(imm2) && Or(Expand(imm1), Expand(imm2)) == value
  }

  lemma PairOf(value: bv32, imm: bv32, rol: nat, b1: bv32, d1: nat, b2: bv32, d2: nat)
    requires b1 <= 0xff && b2 <= 0xff && d1 < 12 && d2 < 12 && rol < 20
    requires Turns(imm, (rol + 12) % 16) == value && imm == Or(At(b1, d1), At(b2, d2))
    ensures IsPair(value, Operand(b1, (rol + d1) % 16), Operand(b2, (rol + d2) % 16))
  {
    hide Turns, At, Or, IsImmediate, Expand, Operand;
    TwoBytes(imm, rol, b1, d1, b2, d2);
    OperandFields(b1, (rol + d1) % 16);
    OperandFields(b2, (rol + d2) % 16);
  }

  // genInt: nothing is missed ----------------------------------------------------

  ghost predicate HasPair(value: bv32) {
    exists imm1, imm2 :: IsPair(value, imm1, imm2)
  }

  /** A byte, turned by less than a full turn. */
  ghost predicate IsTurnedByte(x: bv32) {
    exists b: bv32, k: bv32 :: b <= 0xff && k < 16 && x == Ror(b, k)
  }

  ghost predicate AreTwoBytes(value: bv32) {
    exists x: bv32, y: bv32 :: IsTurnedByte(x) && IsTurnedByte(y) && value == Or(x, y)
  }

  lemma ByteOfNumber(n: nat)
    requires n < 0x100
    ensures n as bv32 <= 0xff
  {
  }

  lemma ImmediateIsTurnedByte(op2: Operand2)
    ensures IsTurnedByte(Expand(op2))
  {
    hide Ror, Turns;
    var b, k := (op2 % 0x100) as bv32, op2 / 0x100 % 16;
    ByteOfNumber(op2 % 0x100);
    SmallCount(k);
    RorIsTurns(b, k as bv32);
  }

  lemma PairIsTwoBytes(value: bv32)
    requires HasPair(value)
    ensures AreTwoBytes(value)
  {
    hide Or, Expand, IsTurnedByte;
    var imm1, imm2 :| IsPair(value, imm1, imm2);
    ImmediateIsTurnedByte(imm1);
    ImmediateIsTurnedByte(imm2);
  }

  lemma {:induction false} TurnsRemainder(x: bv32, n: nat)
    ensures Turns(x, n) == Turns(x, n % 16)
  {
    hide Turns;
    if n >= 16 {
      TurnsRemainder(x, n - 16);
      TurnsModulo(x, n - 16);
    }
  }

  lemma TurnedAgain(x: bv32, n: nat)
    requires IsTurnedByte(x)
    ensures IsTurnedByte(Turns(x, n))
  {
    hide Ror, Turns;
    var b: bv32, k: bv32 :| b <= 0xff && k < 16 && x == Ror(b, k);
    RorIsTurns(b, k);
    TurnsAdd(b, k as nat, n);
    TurnsRemainder(b, k as nat + n);
    var m := (k as nat + n) % 16;
    SmallCount(m);
    RorIsTurns(b, m as bv32);
  }

  lemma TwoBytesTurned(value: bv32, n: nat)
    requires AreTwoBytes(value)
    ensures AreTwoBytes(Turns(value, n))
  {
    hide Or, Turns, IsTurnedByte;
    var x: bv32, y: bv32 :| IsTurnedByte(x) && IsTurnedByte(y) && value == Or(x, y);
    TurnsDistribute(x, y, n);
    TurnedAgain(x, n);
    TurnedAgain(y, n);
  }

  /** One byte at the bottom, another anywhere: some byte in between is zero. */
  lemma ByteBetween(b: bv32, c: bv32, k: bv32)
    requires b <= 0xff && c <= 0xff && k < 16
    ensures var v := Or(b, Ror(c, k));
            LowByte(Ror(v, 4)) == 0 || LowByte(Ror(v, 8)) == 0 || LowByte(Ror(v, 12)) == 0
  {
  }

  lemma ZeroByteFromBottom(b: bv32, y: bv32) returns (n: nat)
    requires b <= 0xff && IsTurnedByte(y)
    ensures n < 16 && LowByte(Turns(Or(b, y), n)) == 0
  {
    hide Or, Ror, Turns, LowByte;
    var c: bv32, k: bv32 :| c <= 0xff && k < 16 && y == Ror(c, k);
    ByteBetween(b, c, k);
    RorIsTurns(Or(b, y), 4);
    RorIsTurns(Or(b, y), 8);
    RorIsTurns(Or(b, y), 12);
    n := if LowByte(Ror(Or(b, y), 4)) == 0 then 4 else if LowByte(Ror(Or(b, y), 8)) == 0 then 8 else 12;
  }

  /** Two bytes always leave a byte of zeros somewhere. */
  lemma TwoBytesLeaveOne(value: bv32)
    requires AreTwoBytes(value)
    ensures !Tried(value, 0, 16)
  {
    hide Or, Ror, Turns, LowByte;
    var x: bv32, y: bv32 :| IsTurnedByte(x) && IsTurnedByte(y) && value == Or(x, y);
    var b: bv32, k: bv32 :| b <= 0xff && k < 16 && x == Ror(b, k);
    RorIsTurns(b, k);
    CountBelow(k);
    var back := 16 - k as nat;
    TurnsAdd(b, k as nat, back);
    FullTurn(b);
    TurnsDistribute(x, y, back);
    TurnedAgain(y, back);
    var n := ZeroByteFromBottom(b, Turns(y, back));
    TurnsAdd(value, back, n);
    TurnsRemainder(value, back + n);
    assert LowByte(Turns(value, (back + n) % 16)) == 0;
  }

  /** All bits of `x` lie in the eight from `d` pairs below the top. */
  predicate FitsAt(x: bv32, d: bv32)
    requires d <= 8
  {
    x & !(0xff00_0000 >> (2 * d)) == 0
  }

  lemma FitsSomewhere(b: bv32, k: bv32, d: bv32)
    requires b <= 0xff && k < 16 && LowByte(Ror(b, k)) == 0
    requires d == if k <= 3 then 0 else if k <= 12 then k - 4 else 8
    ensures d <= 8 && FitsAt(Ror(b, k), d)
  {
    hide Ror, FitsAt, LowByte;
    if k <= 3 {
      FitsOnTop(b, k);
    } else if k <= 12 {
      FitsBelowTop(b, k, d);
    } else {
      FitsAtBottom(b, k);
    }
  }

  lemma FitsOnTop(b: bv32, k: bv32)
    requires b <= 0xff && k <= 3 && LowByte(Ror(b, k)) == 0
    ensures FitsAt(Ror(b, k), 0)
  {
  }

  lemma FitsBelowTop(b: bv32, k: bv32, d: bv32)
    requires b <= 0xff && 4 <= k <= 12 && d == k - 4
    ensures FitsAt(Ror(b, k), d)
  {
  }

  lemma FitsAtBottom(b: bv32, k: bv32)
    requires b <= 0xff && 13 <= k < 16 && LowByte(Ror(b, k)) == 0
    ensures FitsAt(Ror(b, k), 8)
  {
  }

  /** What is split off succeeds: the test at the end of either branch. */
  predicate FullSplits(s: Shifted) {
    s.Rest().SkipByte().SkipNibble().SkipPair().OneByte()
  }

  predicate MovedSplits(s: Shifted) {
    s.SkipNibble().SkipPair().Rest().SkipNibble().SkipPair().OneByte()
  }

  predicate Splits(s: Shifted) {
    if s.imm & 0xff00_0000 == 0 then true
    else if s.imm & 0xc000_0000 != 0 then FullSplits(s)
    else MovedSplits(s)
  }

  /** Taking the bytes off from the top is as good as any other way. */
  lemma FromTheTop(x: bv32, y: bv32, d: bv32, e: bv32, rol: nat)
    requires d <= 8 && e <= 8 && FitsAt(x, d) && FitsAt(y, e)
    ensures Splits(Shifted(Or(x, y), rol))
  {
  }

  lemma LowBytesZero(x: bv32, y: bv32)
    requires LowByte(Or(x, y)) == 0
    ensures LowByte(x) == 0 && LowByte(y) == 0
  {
  }

  lemma TwoBytesSplit(imm: bv32, rol: nat)
    requires AreTwoBytes(imm) && LowByte(imm) == 0
    ensures Splits(Shifted(imm, rol))
  {
    hide Or, Ror, LowByte, FitsAt, Splits;
    var x: bv32, y: bv32 :| IsTurnedByte(x) && IsTurnedByte(y) && imm == Or(x, y);
    LowBytesZero(x, y);
    var b: bv32, k: bv32 :| b <= 0xff && k < 16 && x == Ror(b, k);
    var c: bv32, j: bv32 :| c <= 0xff && j < 16 && y == Ror(c, j);
    var d := if k <= 3 then 0 else if k <= 12 then k - 4 else 8;
    var e := if j <= 3 then 0 else if j <= 12 then j - 4 else 8;
    FitsSomewhere(b, k, d);
    FitsSomewhere(c, j, e);
    FromTheTop(x, y, d, e, rol);
  }

  /** The turned value the search ends with has a pair if the value has. */
  lemma PairSplits(value: bv32, imm: bv32, rol: nat)
    requires HasPair(value) && LowByte(imm) == 0 && rol < 20 && Turns(imm, (rol + 12) % 16) == value
    ensures Splits(Shifted(imm, rol))
  {
    hide Turns, LowByte, Splits, HasPair, AreTwoBytes;
    var t := (rol + 12) % 16;
    PairIsTwoBytes(value);
    TwoBytesTurned(value, 16 - t);
    TurnsAdd(imm, t, 16 - t);
    FullTurn(imm);
    TwoBytesSplit(imm, rol);
  }

  /** The second half of the search, the top byte of `imm0` being full. */
  method SplitFullTop(value: bv32, imm0: bv32, rol0: nat) returns (found: bool, imm1: Operand2, imm2: Operand2)
    requires rol0 < 20 && Turns(imm0, (rol0 + 12) % 16) == value
    ensures found <==> FullSplits(Shifted(imm0, rol0))
    ensures found ==> IsPair(value, imm1, imm2)
  {
    hide Turns, At, Or, IsPair, Operand, Shifted.SkipByte, Shifted.SkipNibble, Shifted.SkipPair,
         Shifted.TopByte, Shifted.OneByte, Shifted.Rest;
    var top := Shifted(imm0, rol0);
    var b1 := top.TopByte();
    imm1 := Operand(b1, rol0 % 16);
    var imm, rol := SkipByte(top.Rest().imm, top.Rest().rol);
    imm, rol := SkipNibble(imm, rol);
    imm, rol := SkipPair(imm, rol);
    var rest := Shifted(imm, rol);
    if !rest.OneByte() {
      return false, 0, 0;
    }
    imm2 := Operand(rest.TopByte(), rol % 16);
    SplitFull(top);
    PairOf(value, imm0, rol0, b1, 0, rest.TopByte(), rol - rol0);
    found := true;
  }

  /** The same, the top byte having leading zeros. */
  method SplitMovedTop(value: bv32, imm0: bv32, rol0: nat) returns (found: bool, imm1: Operand2, imm2: Operand2)
    requires rol0 < 20 && Turns(imm0, (rol0 + 12) % 16) == value
    ensures found <==> MovedSplits(Shifted(imm0, rol0))
    ensures found ==> IsPair(value, imm1, imm2)
  {
    hide Turns, At, Or, IsPair, Operand, Shifted.SkipByte, Shifted.SkipNibble, Shifted.SkipPair,
         Shifted.TopByte, Shifted.OneByte, Shifted.Rest;
    var imm, rol := SkipNibble(imm0, rol0);
    imm, rol := SkipPair(imm, rol);
    var top := Shifted(imm, rol);
    var b1 := top.TopByte();
    imm1 := Operand(b1, rol % 16);
    imm, rol := SkipNibble(top.Rest().imm, top.Rest().rol);
    imm, rol := SkipPair(imm, rol);
    var rest := Shifted(imm, rol);
    if !rest.OneByte() {
      return false, 0, 0;
    }
    imm2 := Operand(rest.TopByte(), rol % 16);
    SplitMoved(Shifted(imm0, rol0));
    PairOf(value, imm0, rol0, b1, top.rol - rol0, rest.TopByte(), rol - rol0);
    found := true;
  }

  /** The computation of genInt: a pair of operands for the value if and only if there is one. */
  method SplitInTwo(value: bv32) returns (found: bool, imm1: Operand2, imm2: Operand2)
    ensures found <==> HasPair(value)
    ensures found ==> IsPair(value, imm1, imm2)
  {
    hide Turns, At, Or, LowByte, IsPair, Operand, Tried, AreTwoBytes, FullSplits, MovedSplits;
    var imm, rol;
    found, imm, rol := SearchZeroByte(value);
    if !found {
      if HasPair(value) {
        PairIsTwoBytes(value);
        TwoBytesLeaveOne(value);
      }
      return false, 0, 0;
    }
    if HasPair(value) {
      PairSplits(value, imm, rol);
    }
    if imm & 0xff00_0000 == 0 {
      var b1, b2 := (imm >> 16) & 0xff, (imm >> 8) & 0xff;
      imm1 := Operand(b1, (rol + 4) % 16);
      imm2 := Operand(b2, (rol + 8) % 16);
      SplitMiddle(imm);
      PairOf(value, imm, rol, b1, 4, b2, 8);
    } else if imm & 0xc000_0000 != 0 {
      found, imm1, imm2 := SplitFullTop(value, imm, rol);
    } else {
      found, imm1, imm2 := SplitMovedTop(value, imm, rol);
    }
  }
}
