/**
  What stays of the operations while more calls are made, and two accounts the
  buffer keeps over every run: of the distance and of the constants that wait.
 */
module ArmHistory {
  import opened Alignment
  import opened ArmWord
  import opened ConstantPool
  import opened CodeLayout
  import opened CodeLinking
  import opened AssemblerRuns

  // What stays of an operation ------------------------------------------------------

  /** Linking may change the target and the constant of a load, nothing else. */
  predicate SameOp(before: Op, after: Op) {
    before == after
    || (before.Load? && after.Load? && before.insn == after.insn && before.isReusable == after.isReusable)
  }

  /** The operations are still there, in place, and the buffer still keeps account. */
  ghost predicate Kept(p: Prog, q: Prog) {
    && |p.ops| <= |q.ops| && p.pos <= q.pos
    && (forall i | 0 <= i < |p.ops| :: SameOp(p.ops[i], q.ops[i]))
    && (Accounted(p) ==> Accounted(q))
  }

  // The account ---------------------------------------------------------------------

  /** The word index behind the last pool. */
  function PoolEnd(kinds: seq<Kind>): nat {
    if kinds == [] then 0
    else if kinds[|kinds| - 1].Slot? then |kinds|
    else PoolEnd(kinds[..|kinds| - 1])
  }

  /** No two pending entries hold the same constant for sharing. */
  ghost predicate NoDuplicates(b: Buf) {
    |b.reusable| == |b.pool|
    && forall j, k | 0 <= j < k < |b.pool| && b.reusable[j] && b.reusable[k] :: b.pool[j] != b.pool[k]
  }

  /** The distance counts the words since the last pool, and no constant is stored twice. */
  ghost predicate Accounted(p: Prog) {
    && |p.kinds| == |p.buf.code|
    && p.buf.maxDistance == 2048 - 4 * (|p.buf.code| - PoolEnd(p.kinds))
    && NoDuplicates(p.buf)
  }

  lemma EmptyAccount()
    ensures Accounted(NOTHING)
  {
  }

  lemma ExtendAccounts(p: Prog, buf: Buf, op: Op)
    requires Accounted(p) && |buf.code| == |p.buf.code| + 1 && buf.maxDistance == p.buf.maxDistance - 4
    requires NoDuplicates(buf)
    ensures Accounted(Extend(p, buf, op))
  {
    var kinds := p.kinds + [OpAt(|p.ops|)];
    assert kinds[..|kinds| - 1] == p.kinds;
  }

  lemma FlushAccounts(p: Prog, useBarrier: bool)
    requires Budget(p.buf) && Accounted(p)
    ensures Accounted(Flushed(p, useBarrier))
  {
    if p.buf.pool != [] {
      hide Budget, PatchedWord, BranchWord;
      FlushedCode(p.buf, useBarrier);
    }
  }

  lemma InsnAccounts(p: Prog, w: Word)
    requires Budget(p.buf) && Accounted(p)
    ensures Accounted(EmitInsn(p, w))
  {
    hide Budget, Flush;
    FlushAccounts(p, true);
    var q := ReserveInsn(p, 4);
    ExtendAccounts(q, ChargeInsn(Append(q.buf, w)), Insn(w));
  }

  lemma LoadAccounts(p: Prog, w: Word, constant: Word, isReusable: bool)
    requires Budget(p.buf) && Accounted(p)
    ensures Accounted(EmitLoad(p, w, constant, isReusable))
  {
    hide Budget, Flush, QueueLoad;
    FlushAccounts(p, true);
    FlushKeepsBudget(p.buf, true);
    var q := Reserve(p, 4, 4);
    QueueLoadFields(q.buf, w, constant, isReusable);
    DeltaIsSmall(q.buf);
    ExtendAccounts(q, QueueLoad(q.buf, w, constant, isReusable), Load(w, constant, isReusable, Unlinked));
  }

  lemma DeltaIsSmall(b: Buf)
    requires Budget(b)
    ensures 0 <= b.lastConstDelta <= 4
  {
  }

  lemma LinkAccounts(p: Prog, i: nat, l: Label)
    requires Laid(p) && i < |p.ops| && p.ops[i].Load? && !p.ops[i].isReusable && Accounted(p)
    ensures Accounted(Link(p, i, l))
  {
    hide Budget, Unshared, SameLoad, OffsetField, LiteralIndex;
    assert OpOk(p, i);
  }

  lemma KeptOn(p: Prog, q: Prog, r: Prog)
    requires Kept(p, q) && Kept(q, r)
    ensures Kept(p, r)
  {
    forall i | 0 <= i < |p.ops|
      ensures SameOp(p.ops[i], r.ops[i])
    {
      assert SameOp(p.ops[i], q.ops[i]) && SameOp(q.ops[i], r.ops[i]);
    }
  }

  lemma EmittingKeeps(p: Prog, insn: nat, consts: nat, w: Word, constant: Word, isReusable: bool)
    requires Budget(p.buf)
    ensures Kept(p, ReserveInsn(p, insn)) && Kept(p, Reserve(p, insn, consts))
    ensures Kept(p, EmitInsn(p, w)) && Kept(p, EmitLoad(p, w, constant, isReusable))
  {
    hide Budget, Flush, QueueLoad, NoSpaceFor, NoSpaceForInsn, Accounted;
    if Accounted(p) {
      FlushAccounts(p, true);
      InsnAccounts(p, w);
      LoadAccounts(p, w, constant, isReusable);
    }
  }

  lemma {:induction false} AlignedKeeps(a: Asm, alignment: nat)
    requires Valid(a) && alignment > 0
    ensures Kept(a.prog, Aligned(a, alignment).prog)
    decreases |a.prog.buf.pool|, ToBoundary(a.prog.buf.Size(), alignment)
  {
    hide Valid, ToBoundary, EmitInsn, NoSpaceFor, ReserveInsn, MaskTest, Kept;
    AlignRound(a, alignment);
    ValidBudget(a);
    var b := ReserveSpaceForInsn(a, alignment);
    EmittingKeeps(a.prog, alignment, 0, 0, 0, false);
    if !MaskTest(b.prog.buf.Size(), alignment) {
      ValidBudget(b);
      EmittingKeeps(b.prog, 0, 0, MOV_R0_R0, 0, false);
      AlignedKeeps(PutInsn(b, MOV_R0_R0), alignment);
      KeptOn(a.prog, b.prog, PutInsn(b, MOV_R0_R0).prog);
      KeptOn(a.prog, PutInsn(b, MOV_R0_R0).prog, Aligned(a, alignment).prog);
    }
  }

  lemma JumpKeeps(a: Asm, cond: nat, usePool: bool)
    requires Valid(a) && cond < 16
    ensures Kept(a.prog, PutJump(a, cond, usePool).prog)
  {
    hide Valid, Reserve, EmitLoad, Kept, LiteralLoad;
    ReserveKeepsValid(a, 4, 4);
    ValidBudget(a);
    EmittingKeeps(a.prog, 4, 4, 0, 0, false);
    var b := ReserveSpace(a, 4, 4);
    ValidBudget(b);
    EmittingKeeps(b.prog, 4, 4, LiteralLoad(cond, PC), UNLINKED, false);
    KeptOn(a.prog, b.prog, PutJump(a, cond, usePool).prog);
  }

  lemma CallKeeps(a: Asm)
    requires Valid(a)
    ensures Kept(a.prog, PutCall(a).prog)
  {
    hide Valid, Reserve, EmitInsn, Kept, PutJump;
    ReserveKeepsValid(a, 8, 4);
    var b := ReserveSpace(a, 8, 4);
    PutInsnKeepsValid(b, MOV_LR_PC);
    var c := PutInsn(b, MOV_LR_PC);
    ValidBudget(a);
    ValidBudget(b);
    EmittingKeeps(a.prog, 8, 4, 0, 0, false);
    EmittingKeeps(b.prog, 8, 4, MOV_LR_PC, 0, false);
    JumpKeeps(c, AL, true);
    KeptOn(a.prog, b.prog, c.prog);
    KeptOn(a.prog, c.prog, PutCall(a).prog);
  }

  lemma LinkKeeps(a: Asm, k: nat, l: Label)
    requires Valid(a) && k < |a.jumps|
    ensures Kept(a.prog, LinkJump(a, k, l).prog)
  {
    hide Laid, Accounted, DestRegister;
    assert JumpOk(a.prog, a.jumps[k].op);
    if Accounted(a.prog) {
      LinkAccounts(a.prog, a.jumps[k].op, l);
    }
  }

  lemma CommandKeeps(s: Session, c: Command)
    requires Sound(s)
    ensures Kept(s.asm.prog, Do(s, c).asm.prog)
  {
    hide Valid, Reaches, Reserve, EmitInsn, EmitLoad, Kept, PutJump, PutCall, LinkJump, Aligned, LiteralLoad;
    ValidBudget(s.asm);
    match c
    case Put(word) => EmittingKeeps(s.asm.prog, 0, 0, word, 0, false);
    case PutConstant(cond, rd, constant, isReusable) =>
      EmittingKeeps(s.asm.prog, 0, 0, LiteralLoad(cond, rd), constant, isReusable);
    case MakeJump(cond, usePool) => JumpKeeps(s.asm, cond, usePool);
    case MakeCall => CallKeeps(s.asm);
    case MakeLabel => EmittingKeeps(s.asm.prog, MAX_INSTRUCTION_SIZE, 8, 0, 0, false);
    case MakeAlignedLabel =>
      var b := Aligned(s.asm, 16);
      AlignedKeeps(s.asm, 16);
      ValidBudget(b);
      EmittingKeeps(b.prog, MAX_INSTRUCTION_SIZE, 8, 0, 0, false);
      KeptOn(s.asm.prog, b.prog, AtLabel(b).prog);
    case EnsureSpace(insn, consts) => EmittingKeeps(s.asm.prog, insn, consts, 0, 0, false);
    case LinkTo(jump, place) =>
      if jump < |s.asm.jumps| && place < |s.labels| {
        LinkKeeps(s.asm, jump, s.labels[place]);
      } else {
        NothingKeeps(s.asm.prog);
      }
  }

  lemma NothingKeeps(p: Prog)
    ensures Kept(p, p)
  {
  }

  lemma {:induction false} RunKeeps(commands: seq<Command>, k: nat)
    requires k <= |commands|
    ensures Kept(Run(commands[..k]).asm.prog, Run(commands).asm.prog)
    decreases |commands|
  {
    hide Kept, Do, Sound;
    if k == |commands| {
      assert commands[..k] == commands;
      NothingKeeps(Run(commands).asm.prog);
    } else {
      var n := |commands| - 1;
      assert commands[..n][..k] == commands[..k];
      RunKeeps(commands[..n], k);
      CommandKeeps(Run(commands[..n]), commands[n]);
      KeptOn(Run(commands[..k]).asm.prog, Run(commands[..n]).asm.prog, Run(commands).asm.prog);
    }
  }

  /**
    In every state the assembler gets into the distance is 2048 less the bytes put
    since the last pool, or since the start, and no reusable constant waits twice.
   */
  lemma EveryRunAccounts(commands: seq<Command>)
    ensures Accounted(Run(commands).asm.prog)
  {
    hide Accounted, Do;
    RunKeeps(commands, 0);
    assert commands[..0] == [];
    EmptyAccount();
  }

  /** Behind ensureSpace the same test passes, and where it passed before nothing happens. */
  lemma SpaceIsEnsured(s: Session, insn: nat, consts: nat)
    requires Sound(s)
    ensures var t := Do(s, EnsureSpace(insn, consts));
            && !NoSpaceFor(t.asm.prog.buf, insn, consts)
            && (!NoSpaceFor(s.asm.prog.buf, insn, consts) ==> t == s)
            && t.asm.prog.ops == s.asm.prog.ops && t.labels == s.labels
  {
    hide Valid, DistanceExhausted, PoolExhausted;
    ValidBudget(s.asm);
    FlushKeepsBudget(s.asm.prog.buf, true);
  }
}
