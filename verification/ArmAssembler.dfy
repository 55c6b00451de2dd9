/**
  The assembler object: a constant-pool buffer, the list of jumps, and the calls
  that emit, label, align, link and copy. The ghost field `hist` is the assembler
  as a value; each method moves it by the function that specifies it.
 */
module ArmAssembler {
  import opened Alignment
  import opened ArmWord
  import opened ConstantPool
  import opened ConstantPoolBuffer
  import opened CodeLayout
  import opened CodeLinking
  import opened CodeCopy
  import opened ArmImmediate
  import opened ArmMove
  import opened AssemblerRuns

  // Flags a result of getImm as the complement of an immediate.
  const OP2_INV_IMM: Operand2 := 0x0400_0000

  class ARMAssembler {
    const buffer: AssemblerBufferWithConstantPool
    var jumps: seq<nat>
    ghost var hist: Asm

    ghost predicate Valid()
      reads this, buffer, buffer.pool, buffer.mask
    {
      && buffer.Valid() && CodeLinking.Valid(hist)
      && buffer.view == hist.prog.buf
      && IsJumpList(jumps, hist)
    }

    constructor ()
      ensures Valid() && hist == NO_CODE
      ensures fresh(buffer) && fresh(buffer.pool) && fresh(buffer.mask)
    {
      buffer := new AssemblerBufferWithConstantPool();
      jumps := [];
      hist := NO_CODE;
    }

    // Emitting -----------------------------------------------------------------

    method EmitInst(w: Word)
      requires Valid()
      modifies this`hist, buffer
      ensures Valid() && hist == PutInsn(old(hist), w)
    {
      hide CodeLinking.Valid, ConstantPool.PutInt, EmitInsn;
      PutInsnKeepsValid(hist, w);
      InsnMovesBuffer(hist, w);
      buffer.PutInt(w);
      hist := PutInsn(hist, w);
    }

    /** mov_r, mvn_r, orr_r and bic_r with an immediate operand. */
    method EmitMove(opcode: nat, rd: nat, rn: nat, op2: Operand2)
      requires Valid() && opcode < 16 && rd < 16 && rn < 16 && IsImmediate(op2)
      modifies this`hist, buffer
      ensures Valid() && hist == PutInsn(old(hist), MoveWord(opcode, rd, rn, op2))
    {
      EmitInst(MoveWord(opcode, rd, rn, op2));
    }

    method EmitLoad(cond: nat, rd: nat, constant: Word, isReusable: bool)
      requires Valid() && cond < 16 && rd < 16
      modifies this`hist, buffer, buffer.pool, buffer.mask
      ensures Valid() && hist == PutLoad(old(hist), LiteralLoad(cond, rd), constant, isReusable)
    {
      hide CodeLinking.Valid, ConstantPool.PutIntWithConstantInt, LiteralLoad, IsLiteralLoad, AddsOffset,
           CodeLayout.EmitLoad;
      LiteralLoadFields(cond, rd);
      PutLoadKeepsValid(hist, LiteralLoad(cond, rd), constant, isReusable);
      LoadMovesBuffer(hist, LiteralLoad(cond, rd), constant, isReusable);
      buffer.PutIntWithConstantInt(LiteralLoad(cond, rd), constant, isReusable);
      hist := PutLoad(hist, LiteralLoad(cond, rd), constant, isReusable);
    }

    method LdrImm(rd: nat, imm: Word)
      requires Valid() && rd < 16
      modifies this`hist, buffer, buffer.pool, buffer.mask
      ensures Valid() && hist == PutLoad(old(hist), LiteralLoad(AL, rd), imm, true)
    {
      EmitLoad(AL, rd, imm, true);
    }

    method LdrUnImm(rd: nat, imm: Word, cond: nat)
      requires Valid() && rd < 16 && cond < 16
      modifies this`hist, buffer, buffer.pool, buffer.mask
      ensures Valid() && hist == PutLoad(old(hist), LiteralLoad(cond, rd), imm, false)
    {
      EmitLoad(cond, rd, imm, false);
    }

    // Labels and jumps ---------------------------------------------------------

    method EnsureSpace(insnSpace: nat, constSpace: nat)
      requires Valid()
      modifies this`hist, buffer
      ensures Valid() && hist == ReserveSpace(old(hist), insnSpace, constSpace)
      ensures hist.prog.ops == old(hist).prog.ops
    {
      hide CodeLinking.Valid, Reserve, ReserveInsn, FlushFor;
      ReserveKeepsValid(hist, insnSpace, constSpace);
      ReserveMovesBuffer(hist, insnSpace, constSpace);
      buffer.EnsureSpace(insnSpace, constSpace);
      hist := ReserveSpace(hist, insnSpace, constSpace);
    }

    /** The result is the offset of the next operation. */
    method MakeLabel() returns (offset: nat)
      requires Valid()
      modifies this`hist, buffer
      ensures Valid() && hist == AtLabel(old(hist))
      ensures offset == Here(hist.prog).offset
    {
      hide CodeLinking.Valid, Reserve, ReserveInsn, FlushFor;
      ReserveKeepsValid(hist, MAX_INSTRUCTION_SIZE, 8);
      ReserveMovesBuffer(hist, MAX_INSTRUCTION_SIZE, 8);
      offset := buffer.Size();
      hist := AtLabel(hist);
    }

    method Align(alignment: nat) returns (offset: nat)
      requires Valid() && alignment > 0
      modifies this`hist, buffer
      ensures Valid() && hist == AtLabel(Aligned(old(hist), alignment))
      ensures offset == Here(hist.prog).offset
    {
      hide CodeLinking.Valid, EmitInsn, Reserve, ReserveInsn, FlushForInsn, ToBoundary, NoSpaceFor, IsJumpList,
           MaskTest;
      var aligned := false;
      while !aligned
        invariant Valid()
        invariant if aligned then hist == Aligned(old(hist), alignment)
                  else Aligned(hist, alignment) == Aligned(old(hist), alignment)
        decreases !aligned, |hist.prog.buf.pool|, ToBoundary(hist.prog.buf.Size(), alignment)
      {
        aligned := PadOnce(alignment);
      }
      offset := MakeLabel();
    }

    /** One round of the padding loop: the test, and a nop if it fails. */
    method PadOnce(alignment: nat) returns (aligned: bool)
      requires Valid() && alignment > 0
      modifies this`hist, buffer
      ensures Valid()
      ensures Aligned(old(hist), alignment) == if aligned then hist else Aligned(hist, alignment)
      ensures aligned || |hist.prog.buf.pool| < |old(hist).prog.buf.pool|
              || (hist.prog.buf.pool == old(hist).prog.buf.pool
                  && ToBoundary(hist.prog.buf.Size(), alignment) < ToBoundary(old(hist).prog.buf.Size(), alignment))
    {
      hide CodeLinking.Valid, EmitInsn, Reserve, ReserveInsn, FlushForInsn, ToBoundary, NoSpaceFor, MaskTest;
      AlignRound(hist, alignment);
      ReserveMovesBuffer(hist, alignment, 0);
      aligned := buffer.IsAligned(alignment);
      hist := ReserveSpaceForInsn(hist, alignment);
      if !aligned {
        EmitInst(MOV_R0_R0);
      }
    }

    method Jmp(cond: nat, usePool: bool) returns (source: nat)
      requires Valid() && cond < 16
      modifies this, buffer, buffer.pool, buffer.mask
      ensures Valid() && hist == PutJump(old(hist), cond, usePool)
      ensures PositionOf(hist.prog, |old(hist).prog.ops|, source)
    {
      hide CodeLinking.Valid, LiteralLoad, Reserve, CodeLayout.EmitLoad, CodeLinking.PutJump;
      ghost var before := hist;
      ReserveKeepsValid(hist, 4, 4);
      PutJumpKeepsValid(hist, cond, usePool);
      JumpSourceIsLoad(hist, cond, usePool);
      PutJumpSteps(hist, cond, usePool);
      EnsureSpace(4, 4);
      source := buffer.UncheckedSize();
      LdrUnImm(PC, UNLINKED, cond);
      jumps := jumps + [source + if usePool then 1 else 0];
      hist := CodeLinking.PutJump(before, cond, usePool);
    }

    /** prepareCall() and the jump of a call. */
    method Call() returns (source: nat)
      requires Valid()
      modifies this, buffer, buffer.pool, buffer.mask
      ensures Valid() && hist == PutCall(old(hist))
      ensures PositionOf(hist.prog, |old(hist).prog.ops| + 1, source)
    {
      hide CodeLinking.Valid, Reserve, EmitInsn, CodeLinking.PutJump;
      EnsureSpace(8, 4);
      PutInsnKeepsValid(hist, MOV_LR_PC);
      EmitInst(MOV_LR_PC);
      source := Jmp(AL, true);
    }

    /**
      Link the jump whose load stands at offset `from`. Bit 0 of the load says
      whether its constant is still in the pool or already in the code.
     */
    method LinkJump(from: nat, to: nat, ghost k: nat, ghost l: Label)
      requires Valid() && k < |hist.jumps| && l.offset == to && Reaches(hist.prog, l)
      requires PositionOf(hist.prog, hist.jumps[k].op, from)
      modifies this`hist, buffer, buffer.pool
      ensures Valid() && hist == CodeLinking.LinkJump(old(hist), k, l)
    {
      hide CodeLinking.Valid, Laid, Budget, LiteralIndex, OffsetField;
      ghost var i := hist.jumps[k].op;
      LinkFacts(hist, k, l);
      LinkJumpKeepsValid(hist, k, l);
      var insn := buffer.code[from / 4];
      if insn % 2 == 1 {
        buffer.SetPoolEntry(OffsetField(insn) / 2, to % 0x1_0000_0000);
      } else {
        buffer.SetCode(LiteralIndex(insn, from / 4), to % 0x1_0000_0000);
      }
      hist := CodeLinking.LinkJump(hist, k, l);
    }

    // Immediates -----------------------------------------------------------------

    /** Two instructions for the value if there is a pair of operands for it, else nothing at all. */
    method GenInt(reg: nat, imm: bv32, positive: bool) returns (found: bool)
      requires Valid() && reg < 16
      modifies this`hist, buffer
      ensures Valid() && (found <==> HasPair(imm))
      ensures if !found then hist == old(hist)
              else && Grown(old(hist), hist)
                   && MovedByTwo(Added(old(hist), hist), reg, if positive then MOV else MVN,
                                 if positive then ORR else BIC, imm)
    {
      hide CodeLinking.Valid, IsPair, HasPair, MoveWord, IsJumpList, Reaches;
      var imm1, imm2;
      found, imm1, imm2 := SplitInTwo(imm);
      if found {
        var first, second := if positive then MOV else MVN, if positive then ORR else BIC;
        PairIsImmediate(imm, imm1, imm2);
        PutInsnKeepsValid(hist, MoveWord(first, reg, 0, imm1));
        EmitMove(first, reg, 0, imm1);
        PutInsnKeepsValid(hist, MoveWord(second, reg, reg, imm2));
        EmitMove(second, reg, reg, imm2);
      }
    }

    /** ldr_imm, for a constant that other loads may share. */
    method LoadImm(dest: nat, imm: bv32)
      requires Valid() && dest < 16
      modifies this`hist, buffer, buffer.pool, buffer.mask
      ensures Valid()
      ensures Grown(old(hist), hist) && MovedByLoad(Added(old(hist), hist), dest, imm)
    {
      hide CodeLinking.Valid, LiteralLoad, IsLiteralLoad, AddsOffset, IsJumpList, Reaches, CodeLayout.EmitLoad;
      LiteralLoadFields(AL, dest);
      PutLoadKeepsValid(hist, LiteralLoad(AL, dest), imm as Word, true);
      LdrImm(dest, imm as Word);
    }

    /** ARM before version 7: two instructions if there is a pair of operands, else a pool load. */
    method EncodeComplexImm(imm: bv32, dest: nat) returns (reg: nat)
      requires Valid() && dest < 16
      modifies this`hist, buffer, buffer.pool, buffer.mask
      ensures Valid() && reg == dest
      ensures Grown(old(hist), hist) && MovedByMany(Added(old(hist), hist), dest, imm)
    {
      hide CodeLinking.Valid, MovedByTwo, MovedByLoad, HasPair, Not, IsJumpList, Reaches;
      reg := dest;
      var found := GenInt(dest, imm, true);
      if !found {
        found := GenInt(dest, Not(imm), false);
      }
      if !found {
        LoadImm(dest, imm);
      }
    }

    method MoveImm(imm: bv32, dest: nat)
      requires Valid() && dest < 16
      modifies this`hist, buffer, buffer.pool, buffer.mask
      ensures Valid()
      ensures Grown(old(hist), hist) && Moves(Added(old(hist), hist), dest, imm)
    {
      hide CodeLinking.Valid, MovedByMany, Encodable, Expand, IsImmediate, Not, MoveWord, IsJumpList, Reaches;
      var op2 := GetOp2(imm);
      if op2 != INVALID_IMM {
        PutInsnKeepsValid(hist, MoveWord(MOV, dest, 0, op2));
        EmitMove(MOV, dest, 0, op2);
        return;
      }
      op2 := GetOp2(Not(imm));
      if op2 != INVALID_IMM {
        PutInsnKeepsValid(hist, MoveWord(MVN, dest, 0, op2));
        EmitMove(MVN, dest, 0, op2);
        return;
      }
      var _ := EncodeComplexImm(imm, dest);
    }

    /**
      An operand that stands for `imm`, told by bits 26 and 25 as its users do: an
      immediate, the complement of one if the caller can use it, or the number of
      the register the value was moved to.
     */
    method GetImm(imm: bv32, tmpReg: nat, invert: bool) returns (op2: Operand2)
      requires Valid() && tmpReg < 16
      modifies this`hist, buffer, buffer.pool, buffer.mask
      ensures Valid()
      ensures if Encodable(imm) then hist == old(hist) && ReadOperand(op2) == Immediate(imm)
              else if invert && Encodable(Not(imm)) then hist == old(hist) && ReadOperand(op2) == Complement(Not(imm))
              else && ReadOperand(op2) == InRegister(tmpReg)
                   && Grown(old(hist), hist) && Moves(Added(old(hist), hist), tmpReg, imm)
    {
      hide CodeLinking.Valid, MovedByMany, Encodable, Expand, IsImmediate, Not, MoveWord, IsJumpList, Reaches,
           ReadOperand;
      RegisterBits(tmpReg);
      op2 := GetOp2(imm);
      if op2 != INVALID_IMM {
        ImmediateBits(op2);
        return;
      }
      op2 := GetOp2(Not(imm));
      if op2 != INVALID_IMM {
        if invert {
          ImmediateBits(op2);
          return op2 + OP2_INV_IMM;
        }
        PutInsnKeepsValid(hist, MoveWord(MVN, tmpReg, 0, op2));
        EmitMove(MVN, tmpReg, 0, op2);
        return tmpReg;
      }
      op2 := EncodeComplexImm(imm, tmpReg);
    }

    // The copy -------------------------------------------------------------------

    /** The final code, placed at `base`, with every jump resolved there. */
    method ExecutableCopy(base: nat) returns (data: array<Word>)
      requires Valid() && Fits(hist, base)
      modifies buffer
      ensures fresh(data) && data[..] == Copied(hist, base)
      ensures buffer.Valid() && buffer.view == Finished(hist.prog).buf
    {
      hide CodeLinking.Valid, Finished, Resolved, Linkable, ResolveJump, Laid, ResolvedOk, Fits;
      CopyResolvesAll(hist, base);
      FinishBuffer();
      data := new Word[|buffer.code|](i requires 0 <= i < |buffer.code| reads buffer => buffer.code[i]);
      assert data[..] == buffer.code;
      ResolvedRound(hist, base, 0);
      for k := 0 to |jumps|
        invariant buffer.Valid() && buffer.view == Finished(hist.prog).buf
        invariant |jumps| == |hist.jumps| && fresh(data)
        invariant data[..] == Resolved(hist, base, k)
      {
        ResolvedFrom(hist, base, k);
        ResolveStep(hist, base, data[..], k);
        ResolvedRound(hist, base, k + 1);
        ResolveJumpInPlace(data, base, jumps[k]);
      }
    }

    method FinishBuffer()
      requires Valid()
      modifies buffer
      ensures buffer.Valid() && buffer.view == Finished(hist.prog).buf
    {
      hide Budget, Shaped, OpOk, Unshared, JumpsOk, Flush, IsJumpList;
      FinishedBuffer(hist.prog);
      buffer.FlushWithoutBarrier(true);
      var size := buffer.UncheckedSize();
      if size % 8 != 0 {
        buffer.PutInt(BKPT);
      }
    }
  }

  // What an operand is to the instruction that uses it.
  datatype Read = Immediate(value: bv32) | Complement(value: bv32) | InRegister(r: nat) | Unreadable

  /** Bit 26 marks a complement, bit 25 an immediate; a register number has neither. */
  function ReadOperand(op2: nat): Read {
    var inverted, immediate, low := op2 / 0x0400_0000 % 2 == 1, op2 / 0x0200_0000 % 2 == 1, op2 % 0x0200_0000;
    if low >= 0x1000 then Unreadable
    else if immediate then
      var value := Expand(OP2_IMM + low);
      if inverted then Complement(value) else Immediate(value)
    else if inverted || low >= 16 then Unreadable
    else InRegister(low)
  }

  lemma ImmediateBits(op2: nat)
    requires IsImmediate(op2)
    ensures ReadOperand(op2) == Immediate(Expand(op2))
    ensures ReadOperand(op2 + OP2_INV_IMM) == Complement(Expand(op2))
  {
    hide Expand;
    var low := op2 % 0x1000;
    assert op2 == 0x0200_0000 + low;
    FlagBits(low);
  }

  lemma FlagBits(low: nat)
    requires low < 0x1000
    ensures var n := 0x0200_0000 + low; n / 0x0400_0000 % 2 == 0 && n / 0x0200_0000 % 2 == 1 && n % 0x0200_0000 == low
    ensures var n := 0x0600_0000 + low; n / 0x0400_0000 % 2 == 1 && n / 0x0200_0000 % 2 == 1 && n % 0x0200_0000 == low
  {
    DivMod(1, 0x0200_0000, low);
    DivMod(3, 0x0200_0000, low);
  }

  lemma RegisterBits(r: nat)
    requires r < 16
    ensures ReadOperand(r) == InRegister(r)
  {
    hide Expand;
  }

  /** `b` is `a` after some emitting that neither linked nor recorded a jump. */
  ghost predicate Grown(a: Asm, b: Asm) {
    && a.prog.ops <= b.prog.ops && a.jumps == b.jumps
    && forall l | Reaches(a.prog, l) :: Reaches(b.prog, l)
  }

  /** The operations emitted since. */
  function Added(a: Asm, b: Asm): seq<Op>
    requires a.prog.ops <= b.prog.ops
  {
    b.prog.ops[|a.prog.ops|..]
  }

  lemma PairIsImmediate(imm: bv32, imm1: Operand2, imm2: Operand2)
    requires IsPair(imm, imm1, imm2)
    ensures IsImmediate(imm1) && IsImmediate(imm2)
  {
  }

  lemma FinishedBuffer(p: Prog)
    requires Laid(p)
    ensures var f := Flush(p.buf, false);
            && Budget(f) && f.pool == []
            && Finished(p).buf == if f.Size() % 8 == 0 then f else ConstantPool.PutInt(f, BKPT)
  {
    hide Budget, Flush;
    FlushKeepsBudget(p.buf, false);
    FlushOfNothing(p.buf);
  }

  lemma FlushOfNothing(b: Buf)
    requires Budget(b)
    ensures b.pool == [] ==> Flush(b, false) == b
  {
  }

  /** The loop of executableCopy, round by round. */
  lemma ResolvedRound(a: Asm, base: nat, k: nat)
    requires Budget(a.prog.buf) && k <= |a.jumps|
    requires forall j | 0 <= j < k :: a.jumps[j].op < |a.prog.pos|
    ensures k == 0 ==> Resolved(a, base, 0) == Finished(a.prog).Code()
    ensures k > 0 ==>
      var words := Resolved(a, base, k - 1);
      Linkable(words, base, a.JumpEntry(k - 1)) ==>
        Resolved(a, base, k) == ResolveJump(words, base, a.JumpEntry(k - 1))
  {
    hide Budget, Finished, Linkable, ResolveJump;
  }

  // linkBranch ------------------------------------------------------------------

  /** One round of the loop of executableCopy, and linkBranch. */
  method ResolveJumpInPlace(data: array<Word>, base: nat, entry: nat)
    requires Linkable(data[..], base, entry)
    modifies data
    ensures data[..] == ResolveJump(old(data[..]), base, entry)
  {
    hide IsLiteralLoad, LiteralIndex, BranchWord;
    var at := entry / 4;
    var slot := LiteralIndex(data[at], at);
    var offset := data[slot];
    if offset != UNLINKED {
      LinkBranchInPlace(data, base, at, base + offset, entry % 2 == 1);
    }
  }

  method LinkBranchInPlace(data: array<Word>, base: nat, at: nat, to: Word, usePool: bool)
    requires at < data.Length && 0 <= LiteralIndex(data[at], at) < data.Length
    modifies data
    ensures data[..] == LinkBranch(old(data[..]), base, at, to, usePool)
  {
    hide LiteralIndex, BranchWord;
    if !usePool {
      var diff := (to - (base + 4 * (at + 2))) / 4;
      if BOFFSET_MIN <= diff <= BOFFSET_MAX {
        data[at] := BranchWord(Condition(data[at]), diff);
        return;
      }
    }
    data[LiteralIndex(data[at], at)] := to;
  }

  /** The recorded offsets, each with the pool flag of its jump in bit 0. */
  ghost predicate IsJumpList(jumps: seq<nat>, a: Asm) {
    && |jumps| == |a.jumps|
    && forall k | 0 <= k < |jumps| :: a.jumps[k].op < |a.prog.pos| && jumps[k] == a.JumpEntry(k)
  }

  // How the history moves --------------------------------------------------------

  lemma InsnMovesBuffer(a: Asm, w: Word)
    requires CodeLinking.Valid(a)
    ensures PutInsn(a, w).prog.buf == ConstantPool.PutInt(a.prog.buf, w)
    ensures forall s | IsJumpList(s, a) :: IsJumpList(s, PutInsn(a, w))
  {
    hide Budget, Shaped, OpOk, Unshared, JumpsOk, Flush, QueueLoad;
    BufferFollows(a.prog, 0, 0, w, 0, false);
  }

  lemma LoadMovesBuffer(a: Asm, insn: Word, constant: Word, isReusable: bool)
    requires CodeLinking.Valid(a)
    ensures PutLoad(a, insn, constant, isReusable).prog.buf
            == ConstantPool.PutIntWithConstantInt(a.prog.buf, insn, constant, isReusable)
    ensures forall s | IsJumpList(s, a) :: IsJumpList(s, PutLoad(a, insn, constant, isReusable))
  {
    hide Budget, Shaped, OpOk, Unshared, JumpsOk, Flush, QueueLoad;
    BufferFollows(a.prog, 0, 0, insn, constant, isReusable);
  }

  lemma ReserveMovesBuffer(a: Asm, insn: nat, consts: nat)
    requires CodeLinking.Valid(a)
    ensures ReserveSpace(a, insn, consts).prog.buf == FlushFor(a.prog.buf, insn, consts)
    ensures ReserveSpaceForInsn(a, insn).prog.buf == FlushForInsn(a.prog.buf, insn)
    ensures ReserveSpace(a, insn, consts).prog.ops == a.prog.ops
    ensures forall s | IsJumpList(s, a) ::
      IsJumpList(s, ReserveSpace(a, insn, consts)) && IsJumpList(s, ReserveSpaceForInsn(a, insn))
  {
    hide Budget, Shaped, OpOk, Unshared, JumpsOk, Flush, QueueLoad;
    BufferFollows(a.prog, insn, consts, 0, 0, false);
  }

  /** jmp() is a reservation, a load and an entry in the list. */
  lemma PutJumpSteps(a: Asm, cond: nat, usePool: bool)
    requires CodeLinking.Valid(a) && cond < 16 && CodeLinking.Valid(ReserveSpace(a, 4, 4))
    ensures var b := PutLoad(ReserveSpace(a, 4, 4), LiteralLoad(cond, PC), UNLINKED, false);
            var r := PutJump(a, cond, usePool);
            && b.prog == r.prog && r.jumps == b.jumps + [Jump(|a.prog.ops|, usePool)]
  {
  }

  /** Where linkJump finds the constant of its jump. */
  lemma LinkFacts(a: Asm, k: nat, l: Label)
    requires CodeLinking.Valid(a) && k < |a.jumps|
    ensures var i := a.jumps[k].op;
            var r := CodeLinking.LinkJump(a, k, l).prog.buf;
            && i < |a.prog.pos| && a.prog.pos[i] < |a.prog.Code()|
            && var at := a.prog.pos[i];
               var w := a.prog.Code()[at];
               && Budget(r)
               && if w % 2 == 1
                  then var e := OffsetField(w) / 2;
                       e < |a.prog.buf.pool| && r == a.prog.buf.(pool := a.prog.buf.pool[e := l.offset % 0x1_0000_0000])
                  else var s := LiteralIndex(w, at);
                       && 0 <= s < |a.prog.Code()|
                       && r == a.prog.buf.(code := a.prog.buf.code[s := l.offset % 0x1_0000_0000])
    ensures forall s | IsJumpList(s, a) :: IsJumpList(s, CodeLinking.LinkJump(a, k, l))
  {
    hide Budget, Unshared, SameLoad, OffsetField, LiteralIndex, BranchWord;
    var i := a.jumps[k].op;
    assert JumpOk(a.prog, i);
    assert OpOk(a.prog, i);
    LinkKeepsBudget(a.prog, i, l);
  }
}
