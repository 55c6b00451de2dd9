/**
  Whole runs of the assembler: any sequence of its calls, what stays true of the
  state, and what the offsets it hands out mean.
 */
module AssemblerRuns {
  import opened Alignment
  import opened ArmWord
  import opened ConstantPool
  import opened CodeLayout
  import opened CodeLinking
  import opened CodeCopy
  import opened ArmExecution
  import FlushWindows

  // mov r0, r0 and mov lr, pc
  const MOV_R0_R0: Word := 0xe1a0_0000
  const MOV_LR_PC: Word := 0xe1a0_e00f

  // No-flush windows -----------------------------------------------------------

  /** label() */
  function AtLabel(a: Asm): Asm
    requires Valid(a)
  {
    ReserveSpace(a, MAX_INSTRUCTION_SIZE, 8)
  }

  /** The offset label() returns is where the next operation is put. */
  lemma LabelIsNext(a: Asm, w: Word, insn: Word, constant: Word, isReusable: bool)
    requires Valid(a)
    ensures var b := AtLabel(a);
            && Valid(b) && Reaches(b.prog, Here(b.prog)) && b.prog.ops == a.prog.ops
            && PositionOf(EmitInsn(b.prog, w), |a.prog.ops|, Here(b.prog).offset)
            && PositionOf(EmitLoad(b.prog, insn, constant, isReusable), |a.prog.ops|, Here(b.prog).offset)
  {
    hide Budget, Flush, NoSpaceFor, NoSpaceForInsn, QueueLoad, JumpsOk, Reaches, Shaped, OpOk, Unshared, EmitInsn,
         EmitLoad;
    ReserveKeepsValid(a, MAX_INSTRUCTION_SIZE, 8);
    FlushWindows.SizeWindow(a.prog.buf);
    var b := AtLabel(a).prog;
    LaidShape(b);
    HereIsReached(AtLabel(a));
    BufferFollows(a.prog, MAX_INSTRUCTION_SIZE, 8, 0, 0, false);
    NextPosition(b, w, insn, constant, isReusable);
  }

  predicate PositionOf(p: Prog, i: nat, offset: nat) {
    i < |p.pos| && 4 * p.pos[i] == offset
  }

  lemma NextPosition(p: Prog, w: Word, insn: Word, constant: Word, isReusable: bool)
    requires Budget(p.buf) && |p.pos| == |p.ops|
    ensures !NoSpaceForInsn(p.buf, 4) ==> PositionOf(EmitInsn(p, w), |p.ops|, p.buf.Size())
    ensures !NoSpaceFor(p.buf, 4, 4) ==> PositionOf(EmitLoad(p, insn, constant, isReusable), |p.ops|, p.buf.Size())
  {
    hide Budget, Flush, NoSpaceFor, NoSpaceForInsn, QueueLoad;
  }

  /** jmp() returns the offset its load gets. */
  lemma JumpSourceIsLoad(a: Asm, cond: nat, usePool: bool)
    requires Valid(a) && cond < 16
    ensures var r := PutJump(a, cond, usePool);
            && PositionOf(r.prog, |a.prog.ops|, ReserveSpace(a, 4, 4).prog.buf.Size())
            && r.jumps == a.jumps + [Jump(|a.prog.ops|, usePool)]
  {
    hide Budget, Flush, NoSpaceFor, NoSpaceForInsn, QueueLoad, JumpsOk, LiteralLoad;
    ReserveKeepsValid(a, 4, 4);
    ReserveLeavesRoom(a.prog);
    var b := ReserveSpace(a, 4, 4).prog;
    LaidShape(b);
    NextPosition(b, 0, LiteralLoad(cond, PC), UNLINKED, false);
  }

  lemma ReserveLeavesRoom(p: Prog)
    requires Budget(p.buf)
    ensures !NoSpaceFor(Reserve(p, 4, 4).buf, 4, 4)
  {
    FlushKeepsBudget(p.buf, true);
  }

  /** call(): prepareCall() and a jump that stays a pool load. */
  function PutCall(a: Asm): Asm
    requires Valid(a)
  {
    ReserveKeepsValid(a, 8, 4);
    PutInsnKeepsValid(ReserveSpace(a, 8, 4), MOV_LR_PC);
    PutJump(PutInsn(ReserveSpace(a, 8, 4), MOV_LR_PC), AL, true)
  }

  /**
    No pool comes between mov lr, pc and the load behind it. So the value lr
    gets, the address of the mov plus 8, is getCallReturnOffset of the call.
   */
  lemma CallReturnsBehindLoad(a: Asm)
    requires Valid(a)
    ensures var r, n := PutCall(a), |a.prog.ops|;
            && Valid(r) && |r.prog.pos| == n + 2 && r.prog.ops[n] == Insn(MOV_LR_PC)
            && r.prog.pos[n + 1] == r.prog.pos[n] + 1
            && 4 * r.prog.pos[n] + 8 == 4 * r.prog.pos[n + 1] + 4
            && Reaches(r.prog, Label(4 * r.prog.pos[n + 1] + 4, n + 2))
  {
    hide Budget, Shaped, OpOk, Unshared, EmitLoad, EmitInsn, Flush, JumpsOk, Reaches, NoSpaceFor, LiteralLoad;
    var b := ReserveSpace(a, 8, 4);
    ReserveKeepsValid(a, 8, 4);
    PutInsnKeepsValid(b, MOV_LR_PC);
    var c := PutInsn(b, MOV_LR_PC);
    PutJumpKeepsValid(c, AL, true);
    var r := PutJump(c, AL, true);
    FlushWindows.CallWindow(a.prog.buf, MOV_LR_PC);
    BufferFollows(a.prog, 8, 4, 0, 0, false);
    MoveThenJump(b, MOV_LR_PC);
    ReturnPoint(r.prog);
  }

  /**
    What a call appends: mov lr, pc, and a load of the pc that is always executed,
    has its constant to itself, and is recorded as a jump to be kept in the pool.
   */
  lemma CallIsAlways(a: Asm)
    requires Valid(a)
    ensures var r, n := PutCall(a), |a.prog.ops|;
            && Valid(r) && |r.prog.ops| == n + 2 && a.prog.ops <= r.prog.ops
            && r.prog.ops[n] == Insn(0xe1a0_e00f)
            && var load := r.prog.ops[n + 1];
               && load.Load? && IsLiteralLoad(load.insn) && Condition(load.insn) == 14 && DestRegister(load.insn) == 15
               && !load.isReusable && load.target.Unlinked? && load.constant == 0xffff_ffff
               && r.jumps == a.jumps + [Jump(n + 1, true)]
  {
    hide Valid, Reaches, EmitInsn, ReserveSpace, LiteralLoad, IsLiteralLoad, AddsOffset, Condition, DestRegister;
    hide CodeLinking.PutJump;
    ReserveKeepsValid(a, 8, 4);
    ReserveKeepsOps(a, 8, 4);
    var b := ReserveSpace(a, 8, 4);
    PutInsnKeepsValid(b, MOV_LR_PC);
    var c := PutInsn(b, MOV_LR_PC);
    PutJumpKeepsValid(c, AL, true);
    JumpSourceIsLoad(c, AL, true);
    LiteralLoadFields(AL, PC);
  }

  lemma ReserveKeepsOps(a: Asm, insn: nat, consts: nat)
    requires Valid(a)
    ensures ReserveSpace(a, insn, consts).prog.ops == a.prog.ops
    ensures ReserveSpace(a, insn, consts).jumps == a.jumps
  {
    hide Valid, Flush;
  }

  /** Where things are put: at the end of the code, behind the flush their own test asks for. */
  lemma Placement(a: Asm, w: Word, cond: nat, usePool: bool)
    requires Valid(a) && cond < 16
    ensures var n, b := |a.prog.ops|, a.prog.buf;
            && PositionOf(PutInsn(a, w).prog, n, FlushForInsn(b, 4).Size())
            && PositionOf(PutLoad(a, w, 0, false).prog, n, FlushFor(b, 4, 4).Size())
            && PositionOf(PutJump(a, cond, usePool).prog, n, FlushFor(b, 4, 4).Size())
            && PositionOf(PutCall(a).prog, n, FlushFor(b, 8, 4).Size())
            && Here(AtLabel(a).prog).offset == FlushFor(b, 4, 8).Size()
  {
    hide Budget, Flush, NoSpaceFor, NoSpaceForInsn, QueueLoad, JumpsOk, OpOk, Unshared, LiteralLoad, Prog.Lands;
    LaidShape(a.prog);
    EmitPlaces(a.prog, w, 0, false);
    BufferFollows(a.prog, 8, 4, 0, 0, false);
    BufferFollows(a.prog, 4, 4, 0, 0, false);
    BufferFollows(a.prog, 4, 8, 0, 0, false);
    JumpPlaces(a, cond, usePool);
    CallPlaces(a);
  }

  lemma EmitPlaces(p: Prog, w: Word, constant: Word, isReusable: bool)
    requires Budget(p.buf) && |p.pos| == |p.ops|
    ensures PositionOf(EmitInsn(p, w), |p.ops|, FlushForInsn(p.buf, 4).Size())
    ensures PositionOf(EmitLoad(p, w, constant, isReusable), |p.ops|, FlushFor(p.buf, 4, 4).Size())
  {
    hide Budget, Flush, NoSpaceFor, NoSpaceForInsn, QueueLoad;
    BufferFollows(p, 4, 4, w, constant, isReusable);
  }

  lemma JumpPlaces(a: Asm, cond: nat, usePool: bool)
    requires Valid(a) && cond < 16
    ensures PositionOf(PutJump(a, cond, usePool).prog, |a.prog.ops|, FlushFor(a.prog.buf, 4, 4).Size())
  {
    hide Valid, PutJump, Flush, NoSpaceFor, PositionOf;
    JumpSourceIsLoad(a, cond, usePool);
    ValidBudget(a);
    BufferFollows(a.prog, 4, 4, 0, 0, false);
  }

  lemma CallPlaces(a: Asm)
    requires Valid(a)
    ensures PositionOf(PutCall(a).prog, |a.prog.ops|, FlushFor(a.prog.buf, 8, 4).Size())
  {
    hide Valid, Flush, NoSpaceFor, NoSpaceForInsn, Reserve, EmitInsn, EmitLoad, LiteralLoad;
    ValidBudget(a);
    BufferFollows(a.prog, 8, 4, 0, 0, false);
    ReserveKeepsValid(a, 8, 4);
    ReserveKeepsOps(a, 8, 4);
    var b := ReserveSpace(a, 8, 4);
    ValidShape(b);
    FlushWindows.CallWindow(a.prog.buf, MOV_LR_PC);
    PutInsnKeepsValid(b, MOV_LR_PC);
    ValidBudget(b);
    EmitPlaces(b.prog, MOV_LR_PC, 0, false);
    var c := PutInsn(b, MOV_LR_PC);
    JumpKeepsPositions(c, AL, true);
  }

  lemma ValidShape(a: Asm)
    requires Valid(a)
    ensures |a.prog.pos| == |a.prog.ops|
  {
    LaidShape(a.prog);
  }

  lemma JumpKeepsPositions(a: Asm, cond: nat, usePool: bool)
    requires Valid(a) && cond < 16
    ensures a.prog.pos <= PutJump(a, cond, usePool).prog.pos
  {
    hide Valid, Flush, NoSpaceFor, QueueLoad, LiteralLoad;
  }

  /** With room for both, a jump is put right behind an instruction. */
  lemma MoveThenJump(a: Asm, w: Word)
    requires Valid(a) && !NoSpaceForInsn(a.prog.buf, 4) && !NoSpaceFor(ChargeInsn(Append(a.prog.buf, w)), 4, 4)
    ensures Valid(PutInsn(a, w))
    ensures var r, n := PutJump(PutInsn(a, w), AL, true), |a.prog.ops|;
            |r.prog.pos| == n + 2 && r.prog.pos[n + 1] == r.prog.pos[n] + 1
  {
    hide Budget, Flush, NoSpaceFor, NoSpaceForInsn, QueueLoad, JumpsOk, LiteralLoad, ChargeInsn;
    LaidShape(a.prog);
    PutInsnKeepsValid(a, w);
    var c := PutInsn(a, w);
    assert c.prog.buf == ChargeInsn(Append(a.prog.buf, w));
    LaidShape(c.prog);
  }

  lemma ReturnPoint(p: Prog)
    requires Open(p) && p.ops != []
    ensures |p.pos| == |p.ops| && Reaches(p, Label(4 * p.pos[|p.pos| - 1] + 4, |p.ops|))
  {
    hide Budget, OpOk, Unshared;
    LaidShape(p);
  }

  // align() ----------------------------------------------------------------------

  lemma ValidBudget(a: Asm)
    requires Valid(a)
    ensures Budget(a.prog.buf)
  {
  }

  lemma SmallDelta(b: Buf)
    requires Budget(b)
    ensures b.lastConstDelta == 0 || b.lastConstDelta == 4
  {
  }

  lemma NopFields(a: Asm)
    requires Valid(a) && !NoSpaceForInsn(a.prog.buf, 4)
    ensures var b, c := a.prog.buf, PutInsn(a, MOV_R0_R0).prog.buf;
            && c.pool == b.pool && c.Size() == b.Size() + 4
            && c.maxDistance == b.maxDistance - 4 && c.lastConstDelta == 0
  {
    hide Budget, Shaped, OpOk, Unshared, JumpsOk, Flush, NoSpaceForInsn;
    SmallDelta(a.prog.buf);
    BufferFollows(a.prog, 0, 0, MOV_R0_R0, 0, false);
  }

  /** One round of the padding loop, the flush test included. */
  lemma AlignProgress(a: Asm, alignment: nat)
    requires Valid(a) && alignment > 0
    ensures var b := ReserveSpaceForInsn(a, alignment);
            && Valid(b) && (b == a || |b.prog.buf.pool| < |a.prog.buf.pool|)
            && Valid(PutInsn(b, MOV_R0_R0))
            && (!MaskTest(b.prog.buf.Size(), alignment) ==>
                  && PutInsn(b, MOV_R0_R0).prog.buf.Size() == b.prog.buf.Size() + 4
                  && PutInsn(b, MOV_R0_R0).prog.buf.pool == b.prog.buf.pool)
  {
    hide Valid, Budget, Flush, EmitInsn, NoSpaceFor, NoSpaceForInsn, MaskTest, FlushFor;
    var b := ReserveSpaceForInsn(a, alignment);
    ReserveKeepsValid(a, alignment, 0);
    PutInsnKeepsValid(b, MOV_R0_R0);
    ReserveMoves(a, alignment);
    if !MaskTest(b.prog.buf.Size(), alignment) {
      BoundaryNears(b.prog.buf.Size(), alignment);
      FlushWindows.AlignWindow(a.prog.buf, alignment);
      NopFields(b);
    }
  }

  lemma ReserveMoves(a: Asm, insn: nat)
    requires Valid(a)
    ensures Budget(a.prog.buf)
    ensures var b := ReserveSpaceForInsn(a, insn);
            && b.prog.buf == FlushForInsn(a.prog.buf, insn)
            && (b == a || |b.prog.buf.pool| < |a.prog.buf.pool|)
  {
    hide Budget, Shaped, OpOk, Unshared, JumpsOk, Reaches, Flush;
    BufferFollows(a.prog, insn, 0, 0, 0, false);
    FlushKeepsBudget(a.prog.buf, true);
  }

  lemma NextMultiple(size: nat, alignment: nat)
    requires alignment >= 4 && alignment % 4 == 0 && size % 4 == 0 && size % alignment != 0
    ensures (size + 4) % alignment == if size % alignment + 4 == alignment then 0 else size % alignment + 4
  {
    var q, r, c := size / alignment, size % alignment, alignment / 4;
    var p := q * c;
    assert q * alignment == p * 4;
    assert r == 4 * (size / 4 - p);
    if r + 4 < alignment {
      DivMod(q, alignment, r + 4);
    } else {
      assert (q + 1) * alignment == q * alignment + alignment;
      DivMod(q + 1, alignment, 0);
    }
  }

  /** Distance in bytes to the next boundary. */
  function Missing(size: nat, alignment: nat): nat
    requires alignment > 0
  {
    if size % alignment == 0 then 0 else alignment - size % alignment
  }

  /** Distance to where the alignment test passes at the latest. */
  function ToBoundary(size: nat, alignment: nat): nat
    requires alignment > 0
  {
    Missing(size, NextPower(alignment))
  }

  lemma BoundaryNears(size: nat, alignment: nat)
    requires alignment > 0 && size % 4 == 0 && !MaskTest(size, alignment)
    ensures alignment >= 4 && ToBoundary(size + 4, alignment) < ToBoundary(size, alignment)
  {
    hide PowerOfTwo, NextPower, MaskTest;
    var p := NextPower(alignment);
    if size % p == 0 {
      PassesAtPower(size, alignment);
    }
    SmallPowers(p);
    PowersAround8(p);
    WordsAligned(size / 4);
    assert size == 4 * (size / 4);
    NextMultiple(size, p);
  }

  /** What a round of the padding loop leaves: an aligned end, or less to do. */
  lemma AlignRound(a: Asm, alignment: nat)
    requires Valid(a) && alignment > 0
    ensures Valid(ReserveSpaceForInsn(a, alignment))
    ensures var b, c := ReserveSpaceForInsn(a, alignment), PutInsn(ReserveSpaceForInsn(a, alignment), MOV_R0_R0);
            && Valid(c)
            && (alignment >= 16 ==> !NoSpaceFor(b.prog.buf, MAX_INSTRUCTION_SIZE, 8))
            && (!MaskTest(b.prog.buf.Size(), alignment) ==>
                  || |c.prog.buf.pool| < |a.prog.buf.pool|
                  || (c.prog.buf.pool == a.prog.buf.pool
                      && ToBoundary(c.prog.buf.Size(), alignment) < ToBoundary(a.prog.buf.Size(), alignment)))
  {
    hide Valid, Budget, Flush, EmitInsn, NoSpaceFor, NoSpaceForInsn, ToBoundary, MaskTest;
    AlignProgress(a, alignment);
    var b := ReserveSpaceForInsn(a, alignment);
    ReserveMoves(a, alignment);
    if alignment >= 16 {
      FlushWindows.AlignWindow(a.prog.buf, alignment);
    }
    if !MaskTest(b.prog.buf.Size(), alignment) {
      BoundaryNears(b.prog.buf.Size(), alignment);
    }
  }

  /** The padding loop of align(). It ends although a pool may be placed inside it. */
  function Aligned(a: Asm, alignment: nat): (r: Asm)
    requires Valid(a) && alignment > 0
    ensures Valid(r) && MaskTest(r.prog.buf.Size(), alignment) && r.jumps == a.jumps
    ensures alignment >= 16 ==> !NoSpaceFor(r.prog.buf, MAX_INSTRUCTION_SIZE, 8)
    decreases |a.prog.buf.pool|, ToBoundary(a.prog.buf.Size(), alignment)
  {
    hide Valid, ToBoundary, EmitInsn, NoSpaceFor, ReserveInsn, MaskTest;
    AlignRound(a, alignment);
    var b := ReserveSpaceForInsn(a, alignment);
    if MaskTest(b.prog.buf.Size(), alignment) then b else Aligned(PutInsn(b, MOV_R0_R0), alignment)
  }

  /**
    The label align() returns is aligned, except for 8: from 16 on taking it does
    not flush any more, and below 8 the words themselves are aligned.
   */
  lemma AlignedLabel(a: Asm, alignment: nat)
    requires Valid(a) && alignment > 0
    ensures var r := Aligned(a, alignment);
            && (alignment >= 16 ==> AtLabel(r) == r && MaskTest(Here(AtLabel(r).prog).offset, alignment))
            && (PowerOfTwo(alignment) && alignment != 8 ==> Here(AtLabel(r).prog).offset % alignment == 0)
  {
    hide Valid, Aligned, NoSpaceFor, Flushed, MaskTest, PowerOfTwo;
    TestOfPower(Aligned(a, alignment).prog.buf.Size(), alignment);
    if PowerOfTwo(alignment) {
      PowersAround8(alignment);
      WordsAligned(|AtLabel(Aligned(a, alignment)).prog.buf.code|);
    }
  }

  lemma WordsAligned(n: nat)
    ensures 4 * n % 1 == 0 && 4 * n % 2 == 0 && 4 * n % 4 == 0
  {
    SameRemainder(4 * n, 4 * n, 1, 0);
    SameRemainder(4 * n, 2 * n, 2, 0);
    SameRemainder(4 * n, n, 4, 0);
  }

  lemma PowersAround8(n: nat)
    requires PowerOfTwo(n)
    ensures n == 1 || n == 2 || n == 4 || n == 8 || n >= 16
  {
    hide PowerOfTwo;
    if n != 1 {
      PowerHalves(n);
      SmallPowers(n / 2);
    }
  }

  lemma FlushTestNeedsPool(b: Buf, insn: nat, consts: nat)
    ensures NoSpaceFor(b, insn, consts) ==> b.pool != []
  {
  }

  /** A pool starts 8-aligned, so its length decides where it ends. */
  lemma FlushedSize(b: Buf)
    requires Budget(b) && b.pool != []
    ensures Flush(b, true).Size() % 8 == 0 <==> |b.pool| % 2 == 0
  {
    hide Budget, Flush, PatchedWord, BranchWord, PoolStart, InReach;
    FlushedCode(b, true);
    EvenStart(PoolStart(b, true), |b.pool|);
  }

  lemma EvenStart(start: nat, n: nat)
    requires start % 2 == 0
    ensures 4 * (start + n) % 8 == 0 <==> n % 2 == 0
  {
  }

  /** align(8) */
  function PaddedTo8(a: Asm): (r: Asm)
    requires Valid(a)
    ensures Valid(r) && r.prog.buf.Size() % 8 == 0
  {
    TestOf8(Aligned(a, 8).prog.buf.Size());
    Aligned(a, 8)
  }

  lemma TestOf8(size: nat)
    ensures MaskTest(size, 8) <==> size % 8 == 0
  {
    EightIsPower();
    TestOfPower(size, 8);
  }

  /** At an 8-aligned end the size test and the length of the pool decide. */
  lemma LabelAfterLoop(r: Asm)
    requires Valid(r) && r.prog.buf.Size() % 8 == 0
    ensures Here(AtLabel(r).prog).offset % 8 == 0
            <==> (NoSpaceFor(r.prog.buf, MAX_INSTRUCTION_SIZE, 8) ==> |r.prog.buf.pool| % 2 == 0)
  {
    hide Budget, Shaped, OpOk, Unshared, JumpsOk, Flush, NoSpaceFor;
    FlushTestNeedsPool(r.prog.buf, MAX_INSTRUCTION_SIZE, 8);
    if NoSpaceFor(r.prog.buf, MAX_INSTRUCTION_SIZE, 8) {
      FlushedSize(r.prog.buf);
    }
  }

  /** The flush tests of isAligned(8), of a nop and of size(), in numbers. */
  lemma TestsInNumbers(b: Buf)
    requires Budget(b)
    ensures NoSpaceForInsn(b, 8) <==> b.pool != [] && b.maxDistance < 16
    ensures NoSpaceForInsn(b, 4) <==> b.pool != [] && b.maxDistance < 12
    ensures NoSpaceFor(b, MAX_INSTRUCTION_SIZE, 8) <==> b.pool != [] && b.maxDistance < 20 + b.lastConstDelta
  {
    hide LoadQueued, Spending;
    PoolNeverExhausted(b, 8);
  }

  lemma AlignedStep(a: Asm)
    requires Valid(a)
    ensures var b := ReserveSpaceForInsn(a, 8);
            && Valid(b) && Valid(PutInsn(b, MOV_R0_R0))
            && PaddedTo8(a) == if b.prog.buf.Size() % 8 == 0 then b else PaddedTo8(PutInsn(b, MOV_R0_R0))
  {
    hide Valid, EmitInsn, ReserveSpaceForInsn, NoSpaceFor, ToBoundary, MaskTest;
    AlignRound(a, 8);
    TestOf8(ReserveSpaceForInsn(a, 8).prog.buf.Size());
  }

  lemma {:induction false} EmptyPoolStaysEmpty(a: Asm)
    requires Valid(a) && a.prog.buf.pool == []
    ensures PaddedTo8(a).prog.buf.pool == []
    decreases ToBoundary(a.prog.buf.Size(), 8)
  {
    hide Valid, EmitInsn, ToBoundary, NoSpaceFor, PaddedTo8, MaskTest;
    AlignRound(a, 8);
    AlignedStep(a);
    var b := ReserveSpaceForInsn(a, 8);
    TestOf8(b.prog.buf.Size());
    assert b == a;
    if b.prog.buf.Size() % 8 != 0 {
      EmptyPoolStaysEmpty(PutInsn(b, MOV_R0_R0));
    }
  }

  /**
    align(8) stops where the code is 8-aligned, but the size() behind it flushes a
    pool of odd length: enough distance is left for the loop, too little for size().
   */
  predicate FlushesBehindLoop(b: Buf) {
    var m := Missing(b.Size(), 8);
    && |b.pool| % 2 == 1
    && 16 <= b.maxDistance - m < 20 + if m == 0 then b.lastConstDelta else 0
  }

  /** When align(8) returns a label that is not 8-aligned, told from the state before the call. */
  lemma AlignedTo8(a: Asm)
    requires Valid(a)
    ensures Here(AtLabel(PaddedTo8(a)).prog).offset % 8 != 0 <==> FlushesBehindLoop(a.prog.buf)
  {
    hide Valid, Budget, PaddedTo8, Flush, AtLabel, NoSpaceFor, NoSpaceForInsn;
    var b := ReserveSpaceForInsn(a, 8);
    AlignedStep(a);
    ValidBudget(a);
    ValidBudget(PaddedTo8(a));
    TestsInNumbers(a.prog.buf);
    LabelAfterLoop(PaddedTo8(a));
    if NoSpaceForInsn(a.prog.buf, 8) {
      FlushKeepsBudget(a.prog.buf, true);
      EmptiedIsAligned(a);
    } else if a.prog.buf.Size() % 8 != 0 {
      PaddedOnce(a);
      TestsInNumbers(PaddedTo8(a).prog.buf);
    } else {
      assert PaddedTo8(a) == a;
    }
  }

  lemma EmptiedIsAligned(a: Asm)
    requires Valid(a) && ReserveSpaceForInsn(a, 8).prog.buf.pool == []
    ensures !NoSpaceFor(PaddedTo8(a).prog.buf, MAX_INSTRUCTION_SIZE, 8)
  {
    hide Valid, EmitInsn, ReserveInsn, PaddedTo8, NoSpaceFor;
    var b := ReserveSpaceForInsn(a, 8);
    AlignedStep(a);
    AlignProgress(a, 8);
    TestOf8(b.prog.buf.Size());
    if b.prog.buf.Size() % 8 != 0 {
      EmptyPoolStaysEmpty(PutInsn(b, MOV_R0_R0));
    }
    FlushTestNeedsPool(PaddedTo8(a).prog.buf, MAX_INSTRUCTION_SIZE, 8);
  }

  /** One nop is enough unless the second test flushes. */
  lemma PaddedOnce(a: Asm)
    requires Valid(a) && !NoSpaceForInsn(a.prog.buf, 8) && a.prog.buf.Size() % 8 != 0
    ensures var b, r := a.prog.buf, PaddedTo8(a).prog.buf;
            if b.pool != [] && b.maxDistance - 4 < 16 then !NoSpaceFor(r, MAX_INSTRUCTION_SIZE, 8)
            else r.pool == b.pool && r.maxDistance == b.maxDistance - 4 && r.lastConstDelta == 0
  {
    hide Valid, PaddedTo8, EmitInsn, NoSpaceFor, NoSpaceForInsn, Budget;
    OneNop(a);
    ValidBudget(a);
    TestsInNumbers(a.prog.buf);
    NopFields(a);
    AtBoundary(PutInsn(a, MOV_R0_R0));
  }

  lemma OneNop(a: Asm)
    requires Valid(a) && !NoSpaceForInsn(a.prog.buf, 8) && a.prog.buf.Size() % 8 != 0
    ensures Valid(PutInsn(a, MOV_R0_R0)) && PaddedTo8(a) == PaddedTo8(PutInsn(a, MOV_R0_R0))
  {
    hide Valid, PaddedTo8, EmitInsn, NoSpaceForInsn;
    AlignedStep(a);
  }

  /** At a boundary the loop only makes its flush test. */
  lemma AtBoundary(a: Asm)
    requires Valid(a) && a.prog.buf.Size() % 8 == 0
    ensures if a.prog.buf.pool != [] && a.prog.buf.maxDistance < 16
            then !NoSpaceFor(PaddedTo8(a).prog.buf, MAX_INSTRUCTION_SIZE, 8) else PaddedTo8(a) == a
  {
    hide Valid, PaddedTo8, EmitInsn, Flush, NoSpaceFor, NoSpaceForInsn, Budget;
    AlignedStep(a);
    ValidBudget(a);
    TestsInNumbers(a.prog.buf);
    if NoSpaceForInsn(a.prog.buf, 8) {
      FlushKeepsBudget(a.prog.buf, true);
      EmptiedIsAligned(a);
    }
  }

  /** A load and `n` nops behind it, all in one pool's reach. */
  function {:induction false} LoadThenNops(n: nat): (a: Asm)
    requires n <= 507
    ensures Valid(a)
    ensures var b := a.prog.buf;
            && |b.pool| == 1 && b.Size() == 4 + 4 * n && b.maxDistance == 2044 - 4 * n
            && b.lastConstDelta == if n == 0 then 4 else 0
  {
    hide JumpsOk, Reaches, Laid, LiteralLoad, IsLiteralLoad, AddsOffset, Flush;
    if n == 0 then
      LiteralLoadFields(AL, 0);
      NoCodeIsValid();
      PutLoadKeepsValid(NO_CODE, LiteralLoad(AL, 0), 0, false);
      PutLoad(NO_CODE, LiteralLoad(AL, 0), 0, false)
    else
      PutInsnKeepsValid(LoadThenNops(n - 1), MOV_R0_R0);
      PutInsn(LoadThenNops(n - 1), MOV_R0_R0)
  }

  lemma NoCodeIsValid()
    ensures Valid(NO_CODE)
  {
  }

  /** It does happen: align(8) behind a load and 506 or 507 nops. */
  lemma AlignmentMissed(n: nat)
    requires n <= 507
    ensures Here(AtLabel(PaddedTo8(LoadThenNops(n))).prog).offset % 8 != 0 <==> n >= 506
  {
    hide LoadThenNops, PaddedTo8, AtLabel, Valid;
    AlignedTo8(LoadThenNops(n));
  }

  // Runs ------------------------------------------------------------------------------

  type Register = n: nat | n < 16
  type Cond = n: nat | n <= AL

  // A call of the assembler; LinkTo names a jump and a label by their number.
  datatype Command =
    | Put(word: Word)
    | PutConstant(cond: Cond, rd: Register, constant: Word, isReusable: bool)
    | MakeJump(cond: Cond, usePool: bool)
    | MakeCall
    | MakeLabel
    | MakeAlignedLabel
    | EnsureSpace(insn: nat, consts: nat)
    | LinkTo(jump: nat, place: nat)

  datatype Session = Session(asm: Asm, labels: seq<Label>)

  ghost predicate Sound(s: Session) {
    Valid(s.asm) && forall k | 0 <= k < |s.labels| :: Reaches(s.asm.prog, s.labels[k])
  }

  function Do(s: Session, c: Command): Session
    requires Sound(s)
  {
    match c
    case Put(word) => s.(asm := PutInsn(s.asm, word))
    case PutConstant(cond, rd, constant, isReusable) =>
      s.(asm := PutLoad(s.asm, LiteralLoad(cond, rd), constant, isReusable))
    case MakeJump(cond, usePool) => s.(asm := PutJump(s.asm, cond, usePool))
    case MakeCall => s.(asm := PutCall(s.asm))
    case MakeLabel => var b := AtLabel(s.asm); Session(b, s.labels + [Here(b.prog)])
    case MakeAlignedLabel =>
      var b := AtLabel(Aligned(s.asm, 16)); Session(b, s.labels + [Here(b.prog)])
    case EnsureSpace(insn, consts) => s.(asm := ReserveSpace(s.asm, insn, consts))
    case LinkTo(jump, place) =>
      if jump < |s.asm.jumps| && place < |s.labels| then s.(asm := LinkJump(s.asm, jump, s.labels[place])) else s
  }

  function {:induction false} Run(commands: seq<Command>): (s: Session)
    ensures Sound(s)
  {
    if commands == [] then Session(NO_CODE, [])
    else
      var n := |commands| - 1;
      CommandKeepsSound(Run(commands[..n]), commands[n]);
      Do(Run(commands[..n]), commands[n])
  }

  lemma HereIsReached(a: Asm)
    requires Valid(a)
    ensures Reaches(a.prog, Here(a.prog))
  {
    hide Budget, OpOk, Unshared, JumpsOk;
    LaidShape(a.prog);
  }

  lemma {:induction false} AlignedKeepsLabels(a: Asm, alignment: nat)
    requires Valid(a) && alignment > 0
    ensures forall l | Reaches(a.prog, l) :: Reaches(Aligned(a, alignment).prog, l)
    decreases |a.prog.buf.pool|, ToBoundary(a.prog.buf.Size(), alignment)
  {
    hide Valid, ToBoundary, EmitInsn, NoSpaceFor, ReserveInsn, Reaches, MaskTest;
    AlignRound(a, alignment);
    ReserveKeepsValid(a, alignment, 0);
    var b := ReserveSpaceForInsn(a, alignment);
    if !MaskTest(b.prog.buf.Size(), alignment) {
      PutInsnKeepsValid(b, MOV_R0_R0);
      AlignedKeepsLabels(PutInsn(b, MOV_R0_R0), alignment);
    }
  }

  lemma CommandKeepsSound(s: Session, c: Command)
    requires Sound(s)
    ensures Sound(Do(s, c))
  {
    hide Valid, Reaches, EmitInsn, EmitLoad, Reserve, LiteralLoad, IsLiteralLoad, AddsOffset, Aligned;
    match c
    case Put(word) => PutInsnKeepsValid(s.asm, word);
    case PutConstant(cond, rd, constant, isReusable) =>
      LiteralLoadFields(cond, rd);
      PutLoadKeepsValid(s.asm, LiteralLoad(cond, rd), constant, isReusable);
    case MakeJump(cond, usePool) => PutJumpKeepsValid(s.asm, cond, usePool);
    case MakeCall => CallKeepsLabels(s.asm);
    case MakeLabel =>
      ReserveKeepsValid(s.asm, MAX_INSTRUCTION_SIZE, 8);
      HereIsReached(AtLabel(s.asm));
    case MakeAlignedLabel =>
      AlignedKeepsLabels(s.asm, 16);
      ReserveKeepsValid(Aligned(s.asm, 16), MAX_INSTRUCTION_SIZE, 8);
      HereIsReached(AtLabel(Aligned(s.asm, 16)));
    case EnsureSpace(insn, consts) => ReserveKeepsValid(s.asm, insn, consts);
    case LinkTo(jump, place) =>
      if jump < |s.asm.jumps| && place < |s.labels| {
        LinkJumpKeepsValid(s.asm, jump, s.labels[place]);
      }
  }

  lemma CallKeepsLabels(a: Asm)
    requires Valid(a)
    ensures Valid(PutCall(a))
    ensures forall l | Reaches(a.prog, l) :: Reaches(PutCall(a).prog, l)
  {
    hide Valid, Reaches, EmitInsn, PutJump, Reserve;
    ReserveKeepsValid(a, 8, 4);
    PutInsnKeepsValid(ReserveSpace(a, 8, 4), MOV_LR_PC);
    PutJumpKeepsValid(PutInsn(ReserveSpace(a, 8, 4), MOV_LR_PC), AL, true);
  }

  /**
    In every state the assembler can get into, every pending load reaches the
    pool that a flush would place, at most 508 constants are pending, and the
    pool-size half of the flush test is dead.
   */
  lemma EveryRunStaysInReach(commands: seq<Command>, useBarrier: bool, insn: nat, consts: nat)
    ensures var b := Run(commands).asm.prog.buf;
            && |b.pool| <= MAX_PENDING
            && (b.pool != [] ==> InReach(b, PoolStart(b, useBarrier)))
            && (consts < 16 ==> (NoSpaceFor(b, insn, consts) <==> b.pool != [] && DistanceExhausted(b, insn, consts)))
  {
    hide Run, Shaped, OpOk, Unshared, JumpsOk, InReach, LoadQueued;
    var b := Run(commands).asm.prog.buf;
    if b.pool != [] {
      ReachBound(b, useBarrier);
    }
  }

  /** Whatever was assembled, its copy runs as it was written, up to where it leaves the code. */
  lemma EveryRunExecutes<M(!new)>(commands: seq<Command>, base: nat, sem: Semantics<M>, k: nat, m: M, pc: int, m': M)
    requires var a := Run(commands).asm; Fits(a, base) && Plain(a.prog) && Sane(sem)
    requires Arrives(Finished(Run(commands).asm.prog), base, sem, k, 0, m, pc, m')
    ensures var a := Run(commands).asm;
            exists n: nat :: k <= n <= 2 * k + 1
              && Executes(Finished(a.prog), Image(base, Copied(a, base)), sem, n, base, m, pc, m')
  {
    hide Run, Valid, Finished, Copied, Executes, Arrives, Fits, Plain;
    CodeRunsAsEmitted(Run(commands).asm, base, sem, k, m, pc, m');
  }
}
