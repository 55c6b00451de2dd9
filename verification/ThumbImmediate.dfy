/**
  Thumb-2 modified immediates (ARM Architecture Reference Manual ARMv7-A/R,
  DDI 0406, section A6.3.2): how the assembler encodes a 32-bit value, and for
  which values the encoding means another one.
 */
module ThumbImmediate {
  // What the encoding means ----------------------------------------------------

  function RotateRight(x: bv32, n: bv32): bv32
    requires n < 32
  {
    (x >> n) | (x << (32 - n))
  }

  function RotatedByte(imm12: bv32): bv32 { 0x80 | (imm12 & 0x7f) }
  function RotateAmount(imm12: bv32): bv32 { imm12 >> 7 }

  function ThumbExpandImm(imm12: bv32): bv32
    requires imm12 < 0x1000
  {
    var imm8 := imm12 & 0xff;
    if IsRotation(imm12) then RotateRight(RotatedByte(imm12), RotateAmount(imm12))
    else if imm12 & 0x300 == 0 then imm8
    else if imm12 & 0x300 == 0x100 then (imm8 << 16) | imm8
    else if imm12 & 0x300 == 0x200 then (imm8 << 24) | (imm8 << 8)
    else (imm8 << 24) | (imm8 << 16) | (imm8 << 8) | imm8
  }

  /** A rotated value, not one of the byte patterns. */
  predicate IsRotation(imm12: bv32) {
    imm12 & 0xc00 != 0
  }

  ghost predicate Encodable(value: bv32) {
    exists imm12: bv32 :: imm12 < 0x1000 && ThumbExpandImm(imm12) == value
  }

  // Counting leading zeros -------------------------------------------------------

  /** `window` is the value without its lowest bits, `zeros` zeros and then `n` bits being left. */
  predicate Narrowed(value: bv32, window: bv32, zeros: bv32, n: bv32) {
    && n <= 32 && zeros <= 32 - n && window != 0
    && window == value >> (32 - n - zeros)
    && (n < 32 ==> window >> n == 0)
  }

  /** Either half of the window: the upper one if it has a bit, else the lower one. */
  function Half(window: bv32, zeros: bv32, n: bv32): (bv32, bv32)
    requires n <= 16
  {
    if window & !((1 << n) - 1) != 0 then (window >> n, zeros) else (window, zeros + n)
  }

  lemma HalfOf32(value: bv32)
    requires value != 0
    ensures Narrowed(value, Half(value, 0, 16).0, Half(value, 0, 16).1, 16)
  {
    hide Half, Narrowed;
    WholeHalf(value);
    if value & 0xffff_0000 != 0 {
      UpperHalf(value);
    } else {
      LowerHalf(value);
    }
  }

  lemma WholeHalf(value: bv32)
    ensures Half(value, 0, 16) == if value & 0xffff_0000 != 0 then (value >> 16, 0) else (value, 16)
  {
  }

  lemma UpperHalf(value: bv32)
    requires value & 0xffff_0000 != 0
    ensures Narrowed(value, value >> 16, 0, 16)
  {
  }

  lemma LowerHalf(value: bv32)
    requires value & 0xffff_0000 == 0 && value != 0
    ensures Narrowed(value, value, 16, 16)
  {
  }

  lemma HalfOf16(value: bv32, w: bv32, z: bv32)
    requires Narrowed(value, w, z, 16)
    ensures Narrowed(value, Half(w, z, 8).0, Half(w, z, 8).1, 8)
  {
  }

  lemma HalfOf8(value: bv32, w: bv32, z: bv32)
    requires Narrowed(value, w, z, 8)
    ensures Narrowed(value, Half(w, z, 4).0, Half(w, z, 4).1, 4)
  {
  }

  lemma HalfOf4(value: bv32, w: bv32, z: bv32)
    requires Narrowed(value, w, z, 4)
    ensures Narrowed(value, Half(w, z, 2).0, Half(w, z, 2).1, 2)
  {
  }

  lemma HalfOf2(value: bv32, w: bv32, z: bv32)
    requires Narrowed(value, w, z, 2)
    ensures Narrowed(value, Half(w, z, 1).0, Half(w, z, 1).1, 1)
  {
  }

  /** Of the `2 * n` bits that were left of `whole`, `n` are left, and the zeros above them are counted. */
  method CountLeadingZerosPartial(value: bv32, zeros: bv32, n: bv32, ghost whole: bv32)
      returns (value': bv32, zeros': bv32)
    requires n == 16 || n == 8 || n == 4 || n == 2 || n == 1
    requires Narrowed(whole, value, zeros, 2 * n)
    ensures Narrowed(whole, value', zeros', n)
  {
    hide Narrowed;
    HalfKeepsCount(whole, value, zeros, n);
    value', zeros' := value, zeros;
    if value & !((1 << n) - 1) != 0 {
      value' := value >> n;
    } else {
      zeros' := zeros + n;
    }
  }

  lemma HalfKeepsCount(value: bv32, w: bv32, z: bv32, n: bv32)
    requires n == 16 || n == 8 || n == 4 || n == 2 || n == 1
    requires Narrowed(value, w, z, 2 * n)
    ensures Narrowed(value, Half(w, z, n).0, Half(w, z, n).1, n)
  {
    hide Half, Narrowed;
    if n == 16 {
      WholeWindow(value, w, z);
      HalfOf32(value);
    } else if n == 8 {
      HalfOf16(value, w, z);
    } else if n == 4 {
      HalfOf8(value, w, z);
    } else if n == 2 {
      HalfOf4(value, w, z);
    } else {
      HalfOf2(value, w, z);
    }
  }

  lemma WholeWindow(value: bv32, w: bv32, z: bv32)
    requires Narrowed(value, w, z, 32)
    ensures w == value && z == 0 && value != 0
  {
    assert z == 0;
  }

  lemma StartOfCount(value: bv32)
    requires value != 0
    ensures Narrowed(value, value, 0, 32)
  {
  }

  /** The highest bit of the value, if it has one, is bit 31 - zeros. */
  predicate LeadingZeros(value: bv32, zeros: bv32) {
    if value == 0 then zeros == 32 else zeros < 32 && value >> (31 - zeros) == 1
  }

  method CountLeadingZeros(value: bv32) returns (zeros: bv32)
    ensures LeadingZeros(value, zeros)
  {
    if value == 0 {
      return 32;
    }
    hide Narrowed, LeadingZeros;
    StartOfCount(value);
    var v;
    v, zeros := CountLeadingZerosPartial(value, 0, 16, value);
    v, zeros := CountLeadingZerosPartial(v, zeros, 8, value);
    v, zeros := CountLeadingZerosPartial(v, zeros, 4, value);
    v, zeros := CountLeadingZerosPartial(v, zeros, 2, value);
    v, zeros := CountLeadingZerosPartial(v, zeros, 1, value);
    OneBitWindow(value, v, zeros);
  }

  lemma OneBitWindow(value: bv32, w: bv32, zeros: bv32)
    requires Narrowed(value, w, zeros, 1) && value != 0
    ensures LeadingZeros(value, zeros)
  {
  }

  lemma LeadingZerosUnique(value: bv32, z1: bv32, z2: bv32)
    requires LeadingZeros(value, z1) && LeadingZeros(value, z2)
    ensures z1 == z2
  {
  }

  // The encoder ------------------------------------------------------------------

  datatype Immediate = Invalid | Encoded(imm12: bv32)

  /** Nothing but zeros below the eight bits from the highest one. */
  predicate EightBits(value: bv32, zeros: bv32)
    requires zeros < 24
  {
    value == (value >> (24 - zeros)) << (24 - zeros)
  }

  /** shiftValue7 and shiftAmount; the top bit of the eight is implied. */
  function RotatedImm(value: bv32, zeros: bv32): bv32
    requires zeros < 24
  {
    ((value >> (24 - zeros)) & 0x7f) | ((8 + zeros) << 7)
  }

  function Byte(value: bv32, i: bv32): bv32
    requires i < 4
  {
    (value >> (8 * i)) & 0xff
  }

  /** The fields immediate and pattern. */
  function Imm12(immediate: bv32, pattern: bv32): bv32 {
    immediate | (pattern << 8)
  }

  /** 0xXYXYXYXY */
  predicate AllBytes(value: bv32) {
    Byte(value, 0) == Byte(value, 1) && Byte(value, 0) == Byte(value, 2) && Byte(value, 0) == Byte(value, 3)
  }

  /** 0x00XY00XY */
  predicate EvenBytes(value: bv32) {
    Byte(value, 0) == Byte(value, 2) && Byte(value, 1) | Byte(value, 3) == 0
  }

  /** 0xXY00XY00 */
  predicate OddBytes(value: bv32) {
    Byte(value, 1) == Byte(value, 3) && Byte(value, 0) | Byte(value, 2) == 0
  }

  /** 0xXY00XY00, XY not zero: the one pattern whose wrong byte is stored. */
  predicate Misencoded(value: bv32) {
    OddBytes(value) && value != 0
  }

  method MakeEncodedImm(value: bv32) returns (r: Immediate)
    ensures r.Encoded? <==> Encodable(value)
    ensures r.Encoded? ==> r.imm12 < 0x1000 && (ThumbExpandImm(r.imm12) == value <==> !Misencoded(value))
    ensures Misencoded(value) ==> r == Encoded(0x200)
  {
    hide ThumbExpandImm, Encodable, LeadingZeros, EightBits, RotatedImm, Misencoded, AllBytes, EvenBytes, OddBytes,
         Byte, Imm12, IsRotation;
    if value < 256 {
      SmallImm(value);
      return Encoded(value);
    }
    var leadingZeros := CountLeadingZeros(value);
    FewZeros(value, leadingZeros);
    if EightBits(value, leadingZeros) {
      Rotated(value, leadingZeros);
      return Encoded(RotatedImm(value, leadingZeros));
    }
    NotRotated(value, leadingZeros);
    Patterns(value);
    var byte0 := Byte(value, 0);
    if AllBytes(value) {
      return Encoded(Imm12(byte0, 3));
    }
    if EvenBytes(value) {
      return Encoded(Imm12(byte0, 1));
    }
    if OddBytes(value) {
      return Encoded(Imm12(byte0, 2));
    }
    return Invalid;
  }

  lemma SmallImm(value: bv32)
    requires value < 256
    ensures ThumbExpandImm(value) == value && Encodable(value) && !Misencoded(value)
  {
  }

  lemma FewZeros(value: bv32, zeros: bv32)
    requires value >= 256 && LeadingZeros(value, zeros)
    ensures zeros < 24
  {
  }

  lemma Rotated(value: bv32, zeros: bv32)
    requires zeros < 24 && value >= 256 && LeadingZeros(value, zeros) && EightBits(value, zeros)
    ensures RotatedImm(value, zeros) < 0x1000 && ThumbExpandImm(RotatedImm(value, zeros)) == value
    ensures Encodable(value) && !Misencoded(value)
  {
    RotatedExpands(value, zeros);
    RotatedIsOneWindow(value, zeros);
  }

  lemma RotatedExpands(value: bv32, zeros: bv32)
    requires zeros < 24 && LeadingZeros(value, zeros) && EightBits(value, zeros) && value != 0
    ensures RotatedImm(value, zeros) < 0x1000 && ThumbExpandImm(RotatedImm(value, zeros)) == value
  {
  }

  lemma RotatedIsOneWindow(value: bv32, zeros: bv32)
    requires zeros < 24 && LeadingZeros(value, zeros) && EightBits(value, zeros) && value != 0
    ensures !Misencoded(value)
  {
  }

  /** A rotated encoding exists only for eight bits in a row. */
  lemma NotRotated(value: bv32, zeros: bv32)
    requires zeros < 24 && LeadingZeros(value, zeros) && !EightBits(value, zeros) && value >= 256
    ensures forall e: bv32 | e < 0x1000 && IsRotation(e) :: ThumbExpandImm(e) != value
  {
    hide ThumbExpandImm, LeadingZeros, EightBits, IsRotation;
    forall e: bv32 | e < 0x1000 && IsRotation(e)
      ensures ThumbExpandImm(e) != value
    {
      RotationIsWindow(e);
      var z := RotateAmount(e) - 8;
      if ThumbExpandImm(e) == value {
        LeadingZerosUnique(value, zeros, z);
      }
    }
  }

  lemma RotationIsWindow(e: bv32)
    requires e < 0x1000 && IsRotation(e)
    ensures var v, z := ThumbExpandImm(e), RotateAmount(e) - 8;
            z < 24 && LeadingZeros(v, z) && EightBits(v, z)
  {
    hide RotateRight, LeadingZeros, EightBits, IsRotation, RotatedByte, RotateAmount, ThumbExpandImm;
    var x, n := RotatedByte(e), RotateAmount(e);
    RotationFields(e);
    RotationIsShift(x, n);
    ShiftIsWindow(x, 32 - n);
  }

  lemma RotationFields(e: bv32)
    requires e < 0x1000 && IsRotation(e)
    ensures 8 <= RotateAmount(e) < 32 && 0x80 <= RotatedByte(e) < 0x100
    ensures ThumbExpandImm(e) == RotateRight(RotatedByte(e), RotateAmount(e))
  {
  }

  lemma RotationIsShift(x: bv32, n: bv32)
    requires 0x80 <= x < 0x100 && 8 <= n < 32
    ensures RotateRight(x, n) == x << (32 - n)
  {
  }

  lemma ShiftIsWindow(x: bv32, k: bv32)
    requires 0x80 <= x < 0x100 && 1 <= k <= 24
    ensures LeadingZeros(x << k, 24 - k) && EightBits(x << k, 24 - k)
  {
    ShiftAndBack(x, k);
  }

  lemma ShiftAndBack(x: bv32, k: bv32)
    requires 0x80 <= x < 0x100 && k <= 24
    ensures x << k != 0 && (x << k) >> (k + 7) == 1 && (x << k) >> k == x
  {
  }

  /** The byte patterns: the first two store the byte that is repeated. */
  lemma Patterns(value: bv32)
    requires value >= 256
    requires forall e: bv32 | e < 0x1000 && IsRotation(e) :: ThumbExpandImm(e) != value
    ensures Encodable(value) <==> AllBytes(value) || EvenBytes(value) || OddBytes(value)
    ensures AllBytes(value) ==> Stores(value, Imm12(Byte(value, 0), 3))
    ensures EvenBytes(value) ==> Stores(value, Imm12(Byte(value, 0), 1))
    ensures OddBytes(value) ==> Imm12(Byte(value, 0), 2) == 0x200 && !Stores(value, 0x200)
    ensures Misencoded(value) <==> !AllBytes(value) && !EvenBytes(value) && OddBytes(value)
  {
    hide Encodable, Stores, Misencoded, AllBytes, EvenBytes, OddBytes, Byte, Imm12;
    AllBytesStored(value);
    EvenBytesStored(value);
    OddBytesStored(value);
    if Encodable(value) {
      PatternsOnly(value);
    }
    if AllBytes(value) {
      StoredIsEncodable(value, Imm12(Byte(value, 0), 3));
    } else if EvenBytes(value) {
      StoredIsEncodable(value, Imm12(Byte(value, 0), 1));
    } else if OddBytes(value) {
      StoredIsEncodable(value, Imm12(Byte(value, 1), 2));
    }
  }

  lemma StoredIsEncodable(value: bv32, imm12: bv32)
    requires Stores(value, imm12)
    ensures Encodable(value)
  {
  }

  lemma PatternsOnly(value: bv32)
    requires value >= 256 && Encodable(value)
    requires forall e: bv32 | e < 0x1000 && IsRotation(e) :: ThumbExpandImm(e) != value
    ensures AllBytes(value) || EvenBytes(value) || OddBytes(value)
  {
    hide ThumbExpandImm, AllBytes, EvenBytes, OddBytes, IsRotation;
    var e: bv32 :| e < 0x1000 && ThumbExpandImm(e) == value;
    PatternOf(e);
  }

  predicate Stores(value: bv32, imm12: bv32) {
    imm12 < 0x1000 && ThumbExpandImm(imm12) == value
  }

  lemma AllBytesStored(value: bv32)
    requires value >= 256
    ensures AllBytes(value) ==> Stores(value, Imm12(Byte(value, 0), 3)) && !Misencoded(value)
  {
  }

  lemma EvenBytesStored(value: bv32)
    requires value >= 256
    ensures EvenBytes(value) ==> Stores(value, Imm12(Byte(value, 0), 1)) && !Misencoded(value)
  {
  }

  /** The third pattern stores byte 0, which is zero, instead of byte 1. */
  lemma OddBytesStored(value: bv32)
    requires value >= 256
    ensures OddBytes(value) ==> Misencoded(value) && Stores(value, Imm12(Byte(value, 1), 2))
    ensures OddBytes(value) ==> Imm12(Byte(value, 0), 2) == 0x200 && !Stores(value, 0x200)
    ensures Misencoded(value) ==> OddBytes(value)
  {
  }

  lemma PatternOf(e: bv32)
    requires e < 0x1000 && !IsRotation(e) && ThumbExpandImm(e) >= 256
    ensures var value := ThumbExpandImm(e); AllBytes(value) || EvenBytes(value) || OddBytes(value)
  {
  }
}
