/**
  Thumb-2 jump slots: five halfwords that are rewritten in place, as NOP, NOP.W
  and B.W or as MOVW, MOVT and BX. Instructions are decoded as the ARM
  Architecture Reference Manual ARMv7-A/R (DDI 0406, chapter A8) has them.
 */
module ThumbJumps {
  // The opcodes used here; the JIT's scratch register is r12.
  const OP_NOP_T1: bv16 := 0xbf00
  const OP_NOP_T2A: bv16 := 0xf3af
  const OP_NOP_T2B: bv16 := 0x8000
  const OP_B_T4A: bv16 := 0xf000
  const OP_B_T4B: bv16 := 0x9000
  const OP_MOV_IMM_T3: bv16 := 0xf240
  const OP_MOVT: bv16 := 0xf2c0
  const OP_BX: bv16 := 0x4700
  const IP: bv16 := 12
  const R12 := 12

  // Decoding and running ---------------------------------------------------------

  datatype Insn =
    | Nop
    | MovW(rd: nat, imm16: bv16)
    | MovT(rd: nat, imm16: bv16)
    | Bx(rm: nat)
    | Branch(offset: bv32)
    | Other

  predicate IsWide(h0: bv16) {
    h0 & 0xe000 == 0xe000 && h0 & 0x1800 != 0
  }

  /** imm4:i:imm3:imm8 */
  function Imm16(h0: bv16, h1: bv16): bv16 {
    ((h0 & 0xf) << 12) | ((h0 & 0x400) << 1) | ((h1 & 0x7000) >> 4) | (h1 & 0xff)
  }

  /** SignExtend(S:I1:I2:imm10:imm11:0, 32) where I1 is NOT(J1 EOR S) and I2 is NOT(J2 EOR S). */
  function BranchOffset(h0: bv16, h1: bv16): bv32 {
    var s, j1, j2 := h0 & 0x400 != 0, h1 & 0x2000 != 0, h1 & 0x800 != 0;
    (if s then 0xff00_0000 else 0)
    | (if j1 == s then 0x80_0000 else 0)
    | (if j2 == s then 0x40_0000 else 0)
    | ((h0 & 0x3ff) as bv32 << 12) | ((h1 & 0x7ff) as bv32 << 1)
  }

  function RegisterOf(field: bv16): nat {
    field as nat
  }

  function Decode(h0: bv16, h1: bv16): Insn {
    if !IsWide(h0) then
      if h0 == 0xbf00 then Nop
      else if h0 & 0xff87 == 0x4700 then Bx(RegisterOf((h0 >> 3) & 0xf))
      else Other
    else if h0 == 0xf3af && h1 == 0x8000 then Nop
    else if h0 & 0xfbf0 == 0xf240 && h1 & 0x8000 == 0 then MovW(RegisterOf((h1 >> 8) & 0xf), Imm16(h0, h1))
    else if h0 & 0xfbf0 == 0xf2c0 && h1 & 0x8000 == 0 then MovT(RegisterOf((h1 >> 8) & 0xf), Imm16(h0, h1))
    else if h0 & 0xf800 == 0xf000 && h1 & 0xd000 == 0x9000 then Branch(BranchOffset(h0, h1))
    else Other
  }

  type Slot = s: seq<bv16> | |s| == 5 witness [0, 0, 0, 0, 0]
  type Registers = map<nat, bv32>

  // Still in the slot, gone to an address in Thumb state, or neither.
  datatype Outcome = Within(index: nat, regs: Registers) | Jumped(target: bv32, regs': Registers) | Stuck

  /** What the pc reads as at halfword `i` of a slot that ends at `end`: the halfword's address plus 4. */
  function PcAt(end: bv32, i: nat): bv32
    requires i < 5
  {
    end - 10 + 2 * i as bv32 + 4
  }

  function Widened(low: bv16): bv32 {
    low as bv32
  }

  /** The value with another upper half. */
  function WithTop(x: bv32, high: bv16): bv32 {
    (x & 0xffff) | (high as bv32 << 16)
  }

  /** bx goes on in Thumb state if bit 0 of the address is set. */
  predicate ToThumb(address: bv32) {
    address & 1 == 1
  }

  function BxTarget(address: bv32): bv32 {
    address & 0xffff_fffe
  }

  function BranchTarget(pc: bv32, offset: bv32): bv32 {
    pc + offset
  }

  /** One instruction of the slot, under a condition that holds or fails. */
  function Step(slot: Slot, end: bv32, holds: bool, s: Outcome): Outcome {
    if !s.Within? || s.index >= 5 then Stuck
    else
      var i, regs := s.index, s.regs;
      var next := i + if IsWide(slot[i]) then 2 else 1;
      if next > 5 then Stuck
      else if !holds then Within(next, regs)
      else match Decode(slot[i], if i < 4 then slot[i + 1] else 0)
           case Nop => Within(next, regs)
           case MovW(rd, imm) => Within(next, regs[rd := Widened(imm)])
           case MovT(rd, imm) => if rd in regs then Within(next, regs[rd := WithTop(regs[rd], imm)]) else Stuck
           case Bx(rm) => if rm in regs && ToThumb(regs[rm]) then Jumped(BxTarget(regs[rm]), regs) else Stuck
           case Branch(offset) => Jumped(BranchTarget(PcAt(end, i), offset), regs)
           case Other => Stuck
  }

  /**
    Three instructions, the last of which is the jump: under a condition that
    holds they go to `target`, changing no register but r12; under one that fails
    they fall through.
   */
  ghost predicate JumpsTo(slot: Slot, end: bv32, target: bv32) {
    forall regs: Registers ::
      JumpTaken(slot, end, target, regs) && FallsThrough(slot, end, regs)
  }

  predicate FallsThrough(slot: Slot, end: bv32, regs: Registers) {
    Step(slot, end, false, Step(slot, end, false, Step(slot, end, false, Within(0, regs)))) == Within(5, regs)
  }

  predicate JumpTaken(slot: Slot, end: bv32, target: bv32, regs: Registers) {
    var s1 := Step(slot, end, true, Within(0, regs));
    var s2 := Step(slot, end, true, s1);
    var s3 := Step(slot, end, true, s2);
    && s1.Within? && s2.Within?
    && s3.Jumped? && s3.target == target
    && s3.regs' - {R12} == regs - {R12}
  }

  // The recognisers ----------------------------------------------------------------

  predicate IsB(h0: bv16, h1: bv16) { h0 & 0xf800 == OP_B_T4A && h1 & 0xd000 == OP_B_T4B }
  predicate IsBX(h0: bv16) { h0 & 0xff87 == OP_BX }
  predicate IsMovImmT3(h0: bv16, h1: bv16) { h0 & 0xfbf0 == OP_MOV_IMM_T3 && h1 & 0x8000 == 0 }
  predicate IsMovT(h0: bv16, h1: bv16) { h0 & 0xfbf0 == OP_MOVT && h1 & 0x8000 == 0 }
  predicate IsNopT1(h0: bv16) { h0 == OP_NOP_T1 }
  predicate IsNopT2(h0: bv16, h1: bv16) { h0 == OP_NOP_T2A && h1 == OP_NOP_T2B }

  /** Each recogniser knows exactly the instruction it is named after. */
  lemma RecognisersDecode(h0: bv16, h1: bv16)
    ensures IsB(h0, h1) <==> Decode(h0, h1).Branch?
    ensures IsBX(h0) <==> Decode(h0, h1).Bx?
    ensures IsMovImmT3(h0, h1) <==> Decode(h0, h1).MovW?
    ensures IsMovT(h0, h1) <==> Decode(h0, h1).MovT?
    ensures IsNopT1(h0) || IsNopT2(h0, h1) <==> Decode(h0, h1) == Nop
    ensures IsNopT1(h0) ==> !IsWide(h0)
  {
    hide Imm16, BranchOffset, RegisterOf;
  }

  /** What linkJumpAbsolute asserts of the slot it is given. */
  predicate Accepted(slot: Slot) {
    || (IsMovImmT3(slot[0], slot[1]) && IsMovT(slot[2], slot[3]) && IsBX(slot[4]))
    || (IsNopT1(slot[0]) && IsNopT2(slot[1], slot[2]) && IsB(slot[3], slot[4]))
  }

  // What is written -----------------------------------------------------------------

  function ImmFirst(op: bv16, imm16: bv16): bv16 {
    op | (((imm16 >> 11) & 1) << 10) | (imm16 >> 12)
  }

  function ImmSecond(rd: bv16, imm16: bv16): bv16 {
    (((imm16 >> 8) & 7) << 12) | (rd << 8) | (imm16 & 0xff)
  }

  predicate Even(address: bv32) {
    address & 1 == 0
  }

  /** ((relative << 7) >> 7) == relative, the second shift keeping the sign. */
  predicate InBranchRange(relative: bv32) {
    (if relative & 0x100_0000 != 0 then relative | 0xfe00_0000 else relative & 0x1ff_ffff) == relative
  }

  function BranchFirst(relative: bv32): bv16 {
    OP_B_T4A | (((relative & 0x100_0000) >> 14) | ((relative & 0x3f_f000) >> 12)) as bv16
  }

  function BranchSecond(relative: bv32): bv16 {
    OP_B_T4B | (((relative & 0x80_0000) >> 10) | ((relative & 0x40_0000) >> 11) | ((relative & 0xffe) >> 1)) as bv16
  }

  /** For a non-negative offset the two bits below the sign are inverted. */
  function Peculiar(relative: bv32): bv32 {
    if relative < 0x8000_0000 then relative ^ 0xc0_0000 else relative
  }

  function Low16(x: bv32): bv16 { (x & 0xffff) as bv16 }
  function High16(x: bv32): bv16 { (x >> 16) as bv16 }

  function LinkedSlot(end: bv32, target: bv32): Slot {
    var relative := target - end;
    if InBranchRange(relative) then
      var r := Peculiar(relative);
      [OP_NOP_T1, OP_NOP_T2A, OP_NOP_T2B, BranchFirst(r), BranchSecond(r)]
    else
      [ImmFirst(OP_MOV_IMM_T3, Low16(target + 1)), ImmSecond(IP, Low16(target + 1)),
       ImmFirst(OP_MOVT, High16(target)), ImmSecond(IP, High16(target)),
       OP_BX | (IP << 3)]
  }

  // Both forms are the same jump -------------------------------------------------------

  lemma BranchWordsDecode(r: bv32)
    ensures var h0, h1 := BranchFirst(r), BranchSecond(r);
            IsB(h0, h1) && IsWide(h0) && Decode(h0, h1) == Branch(BranchOffset(h0, h1))
  {
  }

  /** What is decoded from the bits of `r` that are written. */
  function OffsetOf(r: bv32): bv32 {
    var s := r & 0x100_0000 != 0;
    (if s then 0xff00_0000 else 0)
    | (if (r & 0x80_0000 != 0) == s then 0x80_0000 else 0)
    | (if (r & 0x40_0000 != 0) == s then 0x40_0000 else 0)
    | (r & 0x3f_f000) | (r & 0xffe)
  }

  lemma BranchFields(r: bv32)
    ensures BranchOffset(BranchFirst(r), BranchSecond(r)) == OffsetOf(r)
  {
  }

  lemma ForwardOffset(relative: bv32)
    requires relative < 0x100_0000 && Even(relative)
    ensures OffsetOf(relative ^ 0xc0_0000) == relative
  {
  }

  lemma BackwardOffset(relative: bv32)
    requires relative >= 0xff00_0000 && Even(relative)
    ensures OffsetOf(relative) == relative
  {
  }

  lemma RangeIsSigned25(relative: bv32)
    requires InBranchRange(relative)
    ensures relative < 0x100_0000 || relative >= 0xff00_0000
  {
  }

  /** B.W, encoding T4: the offset written is the offset decoded. */
  lemma BranchDecodes(relative: bv32)
    requires InBranchRange(relative) && Even(relative)
    ensures var h0, h1 := BranchFirst(Peculiar(relative)), BranchSecond(Peculiar(relative));
            IsB(h0, h1) && IsWide(h0) && Decode(h0, h1) == Branch(relative)
  {
    hide BranchFirst, BranchSecond, BranchOffset, IsB, IsWide, Decode, OffsetOf, InBranchRange;
    RangeIsSigned25(relative);
    BranchWordsDecode(Peculiar(relative));
    BranchFields(Peculiar(relative));
    if relative < 0x8000_0000 {
      ForwardOffset(relative);
    } else {
      BackwardOffset(relative);
    }
  }

  lemma MovWDecodes(imm: bv16)
    ensures var h0, h1 := ImmFirst(OP_MOV_IMM_T3, imm), ImmSecond(IP, imm);
            IsMovImmT3(h0, h1) && IsWide(h0) && Decode(h0, h1) == MovW(R12, imm)
  {
  }

  lemma MovTDecodes(imm: bv16)
    ensures var h0, h1 := ImmFirst(OP_MOVT, imm), ImmSecond(IP, imm);
            IsMovT(h0, h1) && IsWide(h0) && Decode(h0, h1) == MovT(R12, imm)
  {
  }

  lemma FixedWordsDecode(h: bv16)
    ensures Decode(OP_NOP_T1, h) == Nop && !IsWide(OP_NOP_T1)
    ensures Decode(OP_NOP_T2A, OP_NOP_T2B) == Nop && IsWide(OP_NOP_T2A)
    ensures Decode(OP_BX | (IP << 3), h) == Bx(R12) && !IsWide(OP_BX | (IP << 3)) && IsBX(OP_BX | (IP << 3))
  {
  }

  lemma HalvesJoin(target: bv32)
    requires Even(target)
    ensures WithTop(Widened(Low16(target + 1)), High16(target)) == target + 1
    ensures ToThumb(target + 1) && BxTarget(target + 1) == target
  {
  }

  lemma EvenDifference(target: bv32, end: bv32)
    requires Even(target) && Even(end)
    ensures Even(target - end)
  {
  }

  lemma NopStep(slot: Slot, end: bv32, holds: bool, i: nat, regs: Registers)
    requires i <= 1 && Decode(slot[i], slot[i + 1]) == Nop
    ensures Step(slot, end, holds, Within(i, regs)) == Within(if IsWide(slot[i]) then i + 2 else i + 1, regs)
  {
    hide Decode, IsWide;
  }

  lemma BranchStep(slot: Slot, end: bv32, offset: bv32, regs: Registers)
    requires Decode(slot[3], slot[4]) == Branch(offset) && IsWide(slot[3])
    ensures Step(slot, end, true, Within(3, regs)) == Jumped(BranchTarget(end, offset), regs)
    ensures Step(slot, end, false, Within(3, regs)) == Within(5, regs)
  {
    hide Decode, IsWide, BranchTarget;
  }

  /** Two nops and a branch run as one jump. */
  lemma BranchRuns(slot: Slot, end: bv32, offset: bv32)
    requires Decode(slot[0], slot[1]) == Nop && !IsWide(slot[0])
    requires Decode(slot[1], slot[2]) == Nop && IsWide(slot[1])
    requires Decode(slot[3], slot[4]) == Branch(offset) && IsWide(slot[3])
    ensures JumpsTo(slot, end, BranchTarget(end, offset))
  {
    hide Step, Decode, IsWide, BranchTarget;
    forall regs: Registers
      ensures JumpTaken(slot, end, BranchTarget(end, offset), regs) && FallsThrough(slot, end, regs)
    {
      NopStep(slot, end, true, 0, regs);
      NopStep(slot, end, false, 0, regs);
      NopStep(slot, end, true, 1, regs);
      NopStep(slot, end, false, 1, regs);
      BranchStep(slot, end, offset, regs);
    }
  }

  lemma MoveSteps(slot: Slot, end: bv32, low: bv16, high: bv16, regs: Registers)
    requires Decode(slot[0], slot[1]) == MovW(R12, low) && IsWide(slot[0])
    requires Decode(slot[2], slot[3]) == MovT(R12, high) && IsWide(slot[2])
    ensures Step(slot, end, false, Within(0, regs)) == Within(2, regs)
    ensures Step(slot, end, false, Within(2, regs)) == Within(4, regs)
    ensures Step(slot, end, true, Within(0, regs)) == Within(2, regs[R12 := Widened(low)])
    ensures R12 in regs ==> Step(slot, end, true, Within(2, regs)) == Within(4, regs[R12 := WithTop(regs[R12], high)])
  {
    hide Decode, IsWide, WithTop, Widened;
  }

  lemma BxStep(slot: Slot, end: bv32, regs: Registers)
    requires Decode(slot[4], 0) == Bx(R12) && !IsWide(slot[4])
    ensures Step(slot, end, false, Within(4, regs)) == Within(5, regs)
    ensures R12 in regs && ToThumb(regs[R12]) ==>
              Step(slot, end, true, Within(4, regs)) == Jumped(BxTarget(regs[R12]), regs)
  {
    hide Decode, IsWide, ToThumb, BxTarget;
  }

  /** Two moves and a bx run as one jump. */
  lemma MovesRun(slot: Slot, end: bv32, low: bv16, high: bv16)
    requires Decode(slot[0], slot[1]) == MovW(R12, low) && IsWide(slot[0])
    requires Decode(slot[2], slot[3]) == MovT(R12, high) && IsWide(slot[2])
    requires Decode(slot[4], 0) == Bx(R12) && !IsWide(slot[4])
    requires ToThumb(WithTop(Widened(low), high))
    ensures JumpsTo(slot, end, BxTarget(WithTop(Widened(low), high)))
  {
    hide Step, Decode, IsWide, WithTop, Widened, ToThumb, BxTarget;
    forall regs: Registers
      ensures JumpTaken(slot, end, BxTarget(WithTop(Widened(low), high)), regs) && FallsThrough(slot, end, regs)
    {
      var regs1 := regs[R12 := Widened(low)];
      var regs2 := regs1[R12 := WithTop(Widened(low), high)];
      MoveSteps(slot, end, low, high, regs);
      MoveSteps(slot, end, low, high, regs1);
      BxStep(slot, end, regs);
      BxStep(slot, end, regs2);
      assert regs1[R12] == Widened(low) && regs2[R12] == WithTop(Widened(low), high);
      assert Step(slot, end, true, Within(2, regs1)) == Within(4, regs2);
      assert regs2 - {R12} == regs - {R12};
    }
  }

  lemma OffsetReaches(end: bv32, target: bv32)
    ensures BranchTarget(end, target - end) == target
  {
  }

  lemma NopsAndBranch(slot: Slot, end: bv32, target: bv32)
    requires Even(target) && Even(end) && InBranchRange(target - end)
    requires slot == LinkedSlot(end, target)
    ensures Accepted(slot) && JumpsTo(slot, end, target)
  {
    hide Decode, IsWide, InBranchRange, BranchFirst, BranchSecond, Peculiar, IsB, JumpsTo, BranchTarget;
    EvenDifference(target, end);
    BranchDecodes(target - end);
    FixedWordsDecode(slot[1]);
    OffsetReaches(end, target);
    BranchRuns(slot, end, target - end);
  }

  lemma MovesAndBX(slot: Slot, end: bv32, target: bv32)
    requires Even(target) && !InBranchRange(target - end)
    requires slot == LinkedSlot(end, target)
    ensures Accepted(slot) && JumpsTo(slot, end, target)
  {
    hide Decode, IsWide, InBranchRange, ImmFirst, ImmSecond, Low16, High16, IsMovImmT3, IsMovT, IsBX, JumpsTo, WithTop,
         Widened, ToThumb, BxTarget;
    MovWDecodes(Low16(target + 1));
    MovTDecodes(High16(target));
    FixedWordsDecode(0);
    HalvesJoin(target);
    MovesRun(slot, end, Low16(target + 1), High16(target));
  }

  /** A linked slot jumps to its target and can be linked again. */
  lemma LinkedSlotJumps(end: bv32, target: bv32)
    requires Even(target) && Even(end)
    ensures Accepted(LinkedSlot(end, target)) && JumpsTo(LinkedSlot(end, target), end, target)
  {
    hide LinkedSlot, JumpsTo, Accepted;
    if InBranchRange(target - end) {
      NopsAndBranch(LinkedSlot(end, target), end, target);
    } else {
      MovesAndBX(LinkedSlot(end, target), end, target);
    }
  }

  // Linking in place -------------------------------------------------------------------

  /** The slot that ends in front of halfword `at`. */
  function SlotAt(code: seq<bv16>, at: nat): Slot
    requires 5 <= at <= |code|
  {
    code[at - 5..at]
  }

  function Written(code: seq<bv16>, at: nat, slot: Slot): (r: seq<bv16>)
    requires 5 <= at <= |code|
    ensures |r| == |code| && SlotAt(r, at) == slot
  {
    code[..at - 5] + slot + code[at..]
  }

  lemma WrittenElsewhere(code: seq<bv16>, at: nat, slot: Slot, other: nat)
    requires 5 <= at <= |code| && 5 <= other <= |code| && (other + 5 <= at || at + 5 <= other)
    ensures SlotAt(Written(code, at, slot), other) == SlotAt(code, other)
  {
  }

  method WriteSlot(code: array<bv16>, at: nat, h0: bv16, h1: bv16, h2: bv16, h3: bv16, h4: bv16)
    requires 5 <= at <= code.Length
    modifies code
    ensures code[..] == Written(old(code[..]), at, [h0, h1, h2, h3, h4])
  {
    code[at - 5] := h0;
    code[at - 4] := h1;
    code[at - 3] := h2;
    code[at - 2] := h3;
    code[at - 1] := h4;
  }

  /** `end` is the address of halfword `at`. Nothing outside the slot changes. */
  method LinkJumpAbsolute(code: array<bv16>, at: nat, end: bv32, target: bv32)
    requires 5 <= at <= code.Length && Even(end) && Even(target)
    requires Accepted(SlotAt(code[..], at))
    modifies code
    ensures code[..] == Written(old(code[..]), at, LinkedSlot(end, target))
    ensures Accepted(SlotAt(code[..], at)) && JumpsTo(SlotAt(code[..], at), end, target)
  {
    hide InBranchRange, BranchFirst, BranchSecond, ImmFirst, ImmSecond, Low16, High16, JumpsTo, Accepted, Even;
    LinkedSlotJumps(end, target);
    var relative := target - end;
    if InBranchRange(relative) {
      if relative < 0x8000_0000 {
        relative := relative ^ 0xc0_0000;
      }
      WriteSlot(code, at, OP_NOP_T1, OP_NOP_T2A, OP_NOP_T2B, BranchFirst(relative), BranchSecond(relative));
    } else {
      var lo16, hi16 := Low16(target + 1), High16(target);
      WriteSlot(code, at, ImmFirst(OP_MOV_IMM_T3, lo16), ImmSecond(IP, lo16),
                ImmFirst(OP_MOVT, hi16), ImmSecond(IP, hi16), OP_BX | (IP << 3));
    }
  }

  /** However often the slot is relinked, it jumps to the last target and can be linked again. */
  method Relink(code: array<bv16>, at: nat, end: bv32, targets: seq<bv32>)
    requires 5 <= at <= code.Length && Even(end) && forall k | 0 <= k < |targets| :: Even(targets[k])
    requires Accepted(SlotAt(code[..], at))
    modifies code
    ensures Accepted(SlotAt(code[..], at))
    ensures targets != [] ==> JumpsTo(SlotAt(code[..], at), end, targets[|targets| - 1])
    ensures code[..at - 5] == old(code[..at - 5]) && code[at..] == old(code[at..])
  {
    hide JumpsTo, Accepted, LinkedSlot;
    for k := 0 to |targets|
      invariant Accepted(SlotAt(code[..], at))
      invariant k > 0 ==> JumpsTo(SlotAt(code[..], at), end, targets[k - 1])
      invariant code[..at - 5] == old(code[..at - 5]) && code[at..] == old(code[at..])
    {
      LinkJumpAbsolute(code, at, end, targets[k]);
    }
  }

  /** The slot makeJump and makeBranch leave: two moves of zero halves and bx ip. */
  const FRESH_SLOT: Slot := [ImmFirst(OP_MOV_IMM_T3, 0), ImmSecond(IP, 0), ImmFirst(OP_MOVT, 0), ImmSecond(IP, 0),
                             OP_BX | (IP << 3)]

  lemma FreshSlotAccepted()
    ensures Accepted(FRESH_SLOT)
  {
  }

  /** Unlinked it would go to address 0: both halves of ip are zero. */
  lemma FreshSlotDecodes()
    ensures Decode(FRESH_SLOT[0], FRESH_SLOT[1]) == MovW(12, 0)
    ensures Decode(FRESH_SLOT[2], FRESH_SLOT[3]) == MovT(12, 0)
    ensures Decode(FRESH_SLOT[4], 0) == Bx(12)
  {
    MovWDecodes(0);
    MovTDecodes(0);
    FixedWordsDecode(0);
  }

  // The copy -----------------------------------------------------------------------------

  // Code stays below 2^31 bytes.
  const MAX_POSITION := 0x4000_0000

  // An offset in the code, in halfwords.
  type Position = i: nat | i < MAX_POSITION

  // The end of a slot and its target.
  datatype LinkRecord = LinkRecord(from: Position, to: Position)

  /** Slots do not overlap. */
  ghost predicate Apart(r: LinkRecord, s: LinkRecord) {
    r.from == s.from || r.from + 5 <= s.from || s.from + 5 <= r.from
  }

  ghost predicate IsSlot(code: seq<bv16>, r: LinkRecord) {
    5 <= r.from <= |code| && Accepted(SlotAt(code, r.from))
  }

  ghost predicate AreSlots(code: seq<bv16>, records: seq<LinkRecord>) {
    && (forall r <- records :: IsSlot(code, r))
    && (forall r, s | r in records && s in records :: Apart(r, s))
  }

  /** No later one of the first `n` records links the same jump. */
  predicate IsLast(records: seq<LinkRecord>, n: nat, k: nat)
    requires k < n <= |records|
  {
    forall j | k < j < n :: records[j].from != records[k].from
  }

  /** Halfwords are two bytes apart. */
  function Address(base: bv32, at: Position): bv32 {
    if at == 0 then base else Address(base, at - 1) + 2
  }

  lemma {:induction false} EvenAddress(base: bv32, at: Position)
    requires Even(base)
    ensures Even(Address(base, at))
  {
    if at > 0 {
      EvenAddress(base, at - 1);
      EvenStep(Address(base, at - 1));
    }
  }

  lemma EvenStep(address: bv32)
    requires Even(address)
    ensures Even(address + 2)
  {
  }

  /** A slot takes ten bytes, and the base is the address of the first halfword. */
  lemma SlotTakesTenBytes(base: bv32, at: Position)
    requires at + 5 < MAX_POSITION
    ensures Address(base, 0) == base && Address(base, at + 5) == Address(base, at) + 10
  {
    hide Address;
    OneHalfword(base, at + 1);
    OneHalfword(base, at + 2);
    OneHalfword(base, at + 3);
    OneHalfword(base, at + 4);
    OneHalfword(base, at + 5);
    FiveTimesTwo(Address(base, at));
    AddressOfBase(base);
  }

  lemma AddressOfBase(base: bv32)
    ensures Address(base, 0) == base
  {
  }

  lemma OneHalfword(base: bv32, at: Position)
    requires at > 0
    ensures Address(base, at) == Address(base, at - 1) + 2
  {
  }

  lemma FiveTimesTwo(x: bv32)
    ensures x + 2 + 2 + 2 + 2 + 2 == x + 10
  {
  }

  /** The slot of `r`, in code copied to `base`, jumps to its target there. */
  ghost predicate IsLinked(code: seq<bv16>, base: bv32, r: LinkRecord) {
    && 5 <= r.from <= |code|
    && JumpsTo(SlotAt(code, r.from), Address(base, r.from), Address(base, r.to))
  }

  /** Halfword `i` belongs to no slot. */
  ghost predicate Outside(records: seq<LinkRecord>, i: nat) {
    forall r <- records :: !(r.from - 5 <= i < r.from)
  }

  /** The copy after the first `n` records: each jump goes where it was last linked to. */
  ghost predicate AllLinked(code: seq<bv16>, copy: seq<bv16>, base: bv32, records: seq<LinkRecord>, n: nat)
    requires n <= |records|
  {
    && |copy| == |code|
    && AreSlots(copy, records)
    && (forall k | 0 <= k < n && IsLast(records, n, k) :: IsLinked(copy, base, records[k]))
    && (forall i | 0 <= i < |code| && Outside(records, i) :: copy[i] == code[i])
  }

  lemma LinkNext(code: seq<bv16>, copy: seq<bv16>, base: bv32, records: seq<LinkRecord>, n: nat, slot: Slot)
    requires n < |records| && AllLinked(code, copy, base, records, n)
    requires var r := records[n];
             Accepted(slot) && JumpsTo(slot, Address(base, r.from), Address(base, r.to))
             && 5 <= r.from <= |copy|
    ensures AllLinked(code, Written(copy, records[n].from, slot), base, records, n + 1)
  {
    hide JumpsTo, Accepted, Even, Address, Written, AreSlots, Outside, IsLast;
    var r := records[n];
    var next := Written(copy, r.from, slot);
    SlotsAfterWrite(copy, records, r, slot);
    forall k | 0 <= k < n + 1 && IsLast(records, n + 1, k)
      ensures IsLinked(next, base, records[k])
    {
      if k < n {
        LastStays(records, n, k);
        assert records[k] in records;
        SameSlotLinked(copy, next, base, records[k]);
      }
    }
    OutsideAfterWrite(copy, records, r, slot);
  }

  lemma LastStays(records: seq<LinkRecord>, n: nat, k: nat)
    requires k < n < |records| && IsLast(records, n + 1, k)
    ensures IsLast(records, n, k) && records[n].from != records[k].from
  {
  }

  lemma SameSlotLinked(code: seq<bv16>, next: seq<bv16>, base: bv32, r: LinkRecord)
    requires IsLinked(code, base, r) && |next| == |code| && SlotAt(next, r.from) == SlotAt(code, r.from)
    ensures IsLinked(next, base, r)
  {
    hide JumpsTo, Address;
  }

  /** Writing one slot leaves the others as they were. */
  lemma SlotsAfterWrite(copy: seq<bv16>, records: seq<LinkRecord>, r: LinkRecord, slot: Slot)
    requires AreSlots(copy, records) && r in records && Accepted(slot) && 5 <= r.from <= |copy|
    ensures AreSlots(Written(copy, r.from, slot), records)
    ensures forall s | s in records && s.from != r.from ::
              5 <= s.from <= |copy| && SlotAt(Written(copy, r.from, slot), s.from) == SlotAt(copy, s.from)
  {
    hide Accepted, Written;
    var next := Written(copy, r.from, slot);
    forall s | s in records
      ensures IsSlot(next, s)
      ensures s.from != r.from ==> SlotAt(next, s.from) == SlotAt(copy, s.from)
    {
      assert IsSlot(copy, s) && Apart(r, s);
      if s.from != r.from {
        WrittenElsewhere(copy, r.from, slot, s.from);
      }
    }
  }

  lemma OutsideAfterWrite(copy: seq<bv16>, records: seq<LinkRecord>, r: LinkRecord, slot: Slot)
    requires r in records && 5 <= r.from <= |copy|
    ensures forall i | 0 <= i < |copy| && Outside(records, i) :: Written(copy, r.from, slot)[i] == copy[i]
  {
    hide Written;
    forall i | 0 <= i < |copy| && Outside(records, i)
      ensures Written(copy, r.from, slot)[i] == copy[i]
    {
      WrittenOutside(copy, r.from, slot, i);
    }
  }

  lemma WrittenOutside(code: seq<bv16>, at: nat, slot: Slot, i: nat)
    requires 5 <= at <= |code| && i < |code| && !(at - 5 <= i < at)
    ensures Written(code, at, slot)[i] == code[i]
  {
  }

  /** Slots stand in front of each of the positions, and do not overlap. */
  ghost predicate JumpsOk(code: seq<bv16>, jumps: seq<Position>) {
    && (forall j <- jumps :: 5 <= j <= |code| && Accepted(SlotAt(code, j)))
    && (forall j, k | 0 <= j < k < |jumps| :: jumps[j] as int + 5 <= jumps[k])
  }

  class ARMv7Assembler {
    var code: seq<bv16>
    var jumpsToLink: seq<LinkRecord>
    // Where the jumps emitted so far end.
    ghost var jumps: seq<Position>

    ghost predicate Valid()
      reads this
    {
      && |code| < MAX_POSITION
      && JumpsOk(code, jumps) && (forall r <- jumpsToLink :: r.from in jumps)
    }

    constructor ()
      ensures Valid() && code == [] && jumpsToLink == [] && jumps == []
    {
      code := [];
      jumpsToLink := [];
      jumps := [];
    }

    /** Other instructions: the formatter appends their halfwords. */
    method Emit(halfwords: seq<bv16>)
      requires Valid() && |code| + |halfwords| < MAX_POSITION
      modifies this`code
      ensures Valid() && code == old(code) + halfwords
    {
      hide Accepted;
      SlotsStay(code, halfwords, jumps);
      code := code + halfwords;
    }

    /** makeJump: the moves of zero to ip and bx ip; the result is where it ends. */
    method MakeJump() returns (source: Position)
      requires Valid() && |code| + 5 < MAX_POSITION
      modifies this`code, this`jumps
      ensures Valid() && source == |code| && code == old(code) + FRESH_SLOT && jumps == old(jumps) + [source]
    {
      hide JumpsOk;
      JumpAdded(code, jumps);
      code := code + FRESH_SLOT;
      source := |code|;
      jumps := jumps + [source];
    }

    /** makeBranch: the same behind an IT that predicates all three. */
    method MakeBranch(it: bv16) returns (source: Position)
      requires Valid() && |code| + 6 < MAX_POSITION
      modifies this`code, this`jumps
      ensures Valid() && source == |code| && jumps == old(jumps) + [source]
      ensures code == old(code) + [it] + FRESH_SLOT
    {
      Emit([it]);
      source := MakeJump();
    }

    /** A jump may be linked twice; the last time counts. */
    method LinkJump(from: Position, to: Position)
      requires Valid() && from in jumps
      modifies this`jumpsToLink
      ensures Valid() && jumpsToLink == old(jumpsToLink) + [LinkRecord(from, to)]
    {
      hide JumpsOk;
      jumpsToLink := jumpsToLink + [LinkRecord(from, to)];
    }

    /** Every linked jump of the copy at `base` goes to its target there. */
    method ExecutableCopy(base: bv32) returns (copy: array<bv16>)
      requires Valid() && Even(base)
      modifies this`jumpsToLink
      ensures Valid() && fresh(copy) && jumpsToLink == []
      ensures AllLinked(code, copy[..], base, old(jumpsToLink), |old(jumpsToLink)|)
    {
      hide JumpsTo, Accepted, Written, LinkedSlot, Even, Address, AreSlots, AllLinked;
      copy := new bv16[|code|](i requires 0 <= i < |code| reads this => code[i]);
      assert copy[..] == code;
      RecordsAreSlots(code, jumps, jumpsToLink);
      NothingLinked(code, base, jumpsToLink);
      for n := 0 to |jumpsToLink|
        invariant jumpsToLink == old(jumpsToLink)
        invariant AllLinked(code, copy[..], base, jumpsToLink, n)
      {
        var r := jumpsToLink[n];
        NextSlot(code, copy[..], base, jumpsToLink, n);
        LinkedSlotJumps(Address(base, r.from), Address(base, r.to));
        LinkNext(code, copy[..], base, jumpsToLink, n, LinkedSlot(Address(base, r.from), Address(base, r.to)));
        LinkJumpAbsolute(copy, r.from, Address(base, r.from), Address(base, r.to));
      }
      jumpsToLink := [];
    }
  }

  lemma SlotsStay(code: seq<bv16>, more: seq<bv16>, jumps: seq<Position>)
    requires JumpsOk(code, jumps)
    ensures JumpsOk(code + more, jumps)
  {
    hide Accepted;
    forall j | j in jumps
      ensures SlotAt(code + more, j) == SlotAt(code, j)
    {
    }
  }

  lemma JumpAdded(code: seq<bv16>, jumps: seq<Position>)
    requires JumpsOk(code, jumps) && |code| + 5 < MAX_POSITION
    ensures JumpsOk(code + FRESH_SLOT, jumps + [|code| + 5])
  {
    hide Accepted;
    SlotsStay(code, FRESH_SLOT, jumps);
    FreshSlotAccepted();
    assert SlotAt(code + FRESH_SLOT, |code| + 5) == FRESH_SLOT;
    forall j | 0 <= j < |jumps|
      ensures jumps[j] <= |code|
    {
      assert jumps[j] in jumps;
    }
  }

  lemma RecordsAreSlots(code: seq<bv16>, jumps: seq<Position>, records: seq<LinkRecord>)
    requires JumpsOk(code, jumps) && forall r <- records :: r.from in jumps
    ensures AreSlots(code, records)
  {
    hide Accepted;
  }

  lemma NothingLinked(code: seq<bv16>, base: bv32, records: seq<LinkRecord>)
    requires AreSlots(code, records)
    ensures AllLinked(code, code, base, records, 0)
  {
  }

  lemma NextSlot(code: seq<bv16>, copy: seq<bv16>, base: bv32, records: seq<LinkRecord>, n: nat)
    requires n < |records| && AllLinked(code, copy, base, records, n) && Even(base)
    ensures IsSlot(copy, records[n])
    ensures Even(Address(base, records[n].from)) && Even(Address(base, records[n].to))
  {
    hide Even, Address, Accepted, Apart, IsLinked, Outside;
    assert IsSlot(copy, records[n]);
    EvenAddress(base, records[n].from);
    EvenAddress(base, records[n].to);
  }
}
