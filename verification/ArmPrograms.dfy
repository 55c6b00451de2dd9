/**
  What a sequence of assembler calls says, with no pool, offset or layout in it: a
  list of lines, jumps by the line they go to. The assembler writes this program,
  and the copied code runs it.
 */
module ArmPrograms {
  import opened Alignment
  import opened ArmWord
  import opened ConstantPool
  import opened CodeLayout
  import opened CodeLinking
  import opened CodeCopy
  import opened ArmExecution
  import opened AssemblerRuns

  // An instruction word, a constant for a register, or a jump, to a line once it is linked.
  datatype Line =
    | Instruction(word: Word)
    | Literal(cond: Cond, rd: Register, value: Word, isReusable: bool)
    | Branch(cond: Cond, usePool: bool, target: Option<nat>)

  datatype Option<T> = None | Some(value: T)

  // Jumps and labels by their lines, in the order they were made.
  datatype Program = Program(lines: seq<Line>, jumps: seq<nat>, labels: seq<nat>)

  const NO_LINES := Program([], [], [])

  // mov r0, r0 and mov lr, pc
  const NOP: Line := Instruction(0xe1a0_0000)
  const SAVE_PC: Line := Instruction(0xe1a0_e00f)

  /** One call; an aligned label comes behind `nops` words that do nothing. */
  function Write(p: Program, c: Command, nops: nat): Program {
    match c
    case Put(word) => p.(lines := p.lines + [Instruction(word)])
    case PutConstant(cond, rd, value, isReusable) => p.(lines := p.lines + [Literal(cond, rd, value, isReusable)])
    case MakeJump(cond, usePool) =>
      p.(lines := p.lines + [Branch(cond, usePool, None)], jumps := p.jumps + [|p.lines|])
    case MakeCall =>
      p.(lines := p.lines + [SAVE_PC, Branch(14, true, None)], jumps := p.jumps + [|p.lines| + 1])
    case MakeLabel => p.(labels := p.labels + [|p.lines|])
    case MakeAlignedLabel =>
      p.(lines := p.lines + seq(nops, _ => NOP), labels := p.labels + [|p.lines| + nops])
    case EnsureSpace(_, _) => p
    case LinkTo(jump, place) =>
      if jump < |p.jumps| && place < |p.labels| && p.jumps[jump] < |p.lines| && p.lines[p.jumps[jump]].Branch?
      then p.(lines := p.lines[p.jumps[jump] := p.lines[p.jumps[jump]].(target := Some(p.labels[place]))])
      else p
  }

  /** `p` is what the commands say, for some number of padding words at each aligned label. */
  ghost predicate Says(commands: seq<Command>, p: Program)
    decreases |commands|
  {
    if commands == [] then p == NO_LINES
    else
      var n := |commands| - 1;
      exists before, nops :: Says(commands[..n], before) && p == Write(before, commands[n], nops)
  }

  // The assembler writes it ------------------------------------------------------------

  ghost predicate LineOk(op: Op, line: Line) {
    match line
    case Instruction(word) => op == Insn(word)
    case Literal(cond, rd, value, isReusable) =>
      && op.Load? && IsLiteralLoad(op.insn) && Condition(op.insn) == cond && DestRegister(op.insn) == rd
      && op.constant == value && op.isReusable == isReusable && op.target.Unlinked?
    case Branch(cond, _, target) =>
      && op.Load? && IsLiteralLoad(op.insn) && Condition(op.insn) == cond && DestRegister(op.insn) == 15
      && !op.isReusable
      && match target
         case None => op.target.Unlinked? && op.constant == 0xffff_ffff
         case Some(line) => op.target.To? && op.target.dst.index == line
  }

  ghost predicate JumpOkAt(a: Asm, p: Program, k: nat)
    requires k < |a.jumps| == |p.jumps|
  {
    && a.jumps[k].op == p.jumps[k] < |p.lines|
    && p.lines[p.jumps[k]].Branch? && a.jumps[k].usePool == p.lines[p.jumps[k]].usePool
  }

  /** The session is at the program: operation by operation, jump by jump, label by label. */
  ghost predicate IsAt(s: Session, p: Program) {
    && |s.asm.prog.ops| == |p.lines| && |s.asm.jumps| == |p.jumps| && |s.labels| == |p.labels|
    && (forall i | 0 <= i < |p.lines| :: LineOk(s.asm.prog.ops[i], p.lines[i]))
    && (forall k | 0 <= k < |p.jumps| :: JumpOkAt(s.asm, p, k))
    && (forall k | 0 <= k < |p.labels| :: s.labels[k].index == p.labels[k])
  }

  /** Lines and jumps are added at the end. */
  lemma Extends(s: Session, p: Program, t: Session, q: Program)
    requires IsAt(s, p)
    requires s.asm.prog.ops <= t.asm.prog.ops && p.lines <= q.lines && |t.asm.prog.ops| == |q.lines|
    requires s.asm.jumps <= t.asm.jumps && p.jumps <= q.jumps && |t.asm.jumps| == |q.jumps|
    requires s.labels <= t.labels && p.labels <= q.labels && |t.labels| == |q.labels|
    requires forall i | |p.lines| <= i < |q.lines| :: LineOk(t.asm.prog.ops[i], q.lines[i])
    requires forall k | |p.jumps| <= k < |q.jumps| :: JumpOkAt(t.asm, q, k)
    requires forall k | |p.labels| <= k < |q.labels| :: t.labels[k].index == q.labels[k]
    ensures IsAt(t, q)
  {
    hide LineOk;
    forall k | 0 <= k < |q.jumps|
      ensures JumpOkAt(t.asm, q, k)
    {
      if k < |p.jumps| {
        assert JumpOkAt(s.asm, p, k);
      }
    }
  }

  /** Padding is nops and nothing else; with no constant pending, as many as are missing. */
  lemma {:induction false} AlignedOps(a: Asm, alignment: nat) returns (nops: nat)
    requires Valid(a) && alignment > 0
    ensures Aligned(a, alignment).prog.ops == a.prog.ops + Nops(nops)
    ensures a.prog.buf.pool == [] && PowerOfTwo(alignment) ==> 4 * nops == Missing(a.prog.buf.Size(), alignment)
    decreases |a.prog.buf.pool|, ToBoundary(a.prog.buf.Size(), alignment)
  {
    hide Valid, ToBoundary, EmitInsn, NoSpaceFor, MaskTest, Reaches, Missing, PowerOfTwo, Nops, ReserveSpaceForInsn;
    AlignRound(a, alignment);
    AlignProgress(a, alignment);
    ReserveForInsnKeepsOps(a, alignment);
    var b := ReserveSpaceForInsn(a, alignment);
    TestOfPower(b.prog.buf.Size(), alignment);
    if MaskTest(b.prog.buf.Size(), alignment) {
      nops := 0;
      NopsInFront(a.prog.ops, 0);
      NothingMissing(b.prog.buf.Size(), alignment);
    } else {
      PutInsnKeepsValid(b, 0xe1a0_0000);
      var rest := AlignedOps(PutInsn(b, 0xe1a0_0000), alignment);
      nops := rest + 1;
      NopsInFront(a.prog.ops, rest);
      if PowerOfTwo(alignment) {
        OneNopLess(b.prog.buf.Size(), alignment);
      }
    }
  }

  function Nops(n: nat): seq<Op> {
    seq(n, _ => Insn(0xe1a0_0000))
  }

  lemma NopsInFront(ops: seq<Op>, n: nat)
    ensures ops + [Insn(0xe1a0_0000)] + Nops(n) == ops + Nops(n + 1)
    ensures ops + Nops(0) == ops
  {
  }

  lemma ReserveForInsnKeepsOps(a: Asm, insn: nat)
    requires Valid(a)
    ensures ReserveSpaceForInsn(a, insn).prog.ops == a.prog.ops
  {
    hide Valid, Flush;
  }

  lemma NothingMissing(size: nat, alignment: nat)
    ensures alignment > 0 && size % alignment == 0 ==> Missing(size, alignment) == 0
  {
  }

  lemma OneNopLess(size: nat, alignment: nat)
    requires PowerOfTwo(alignment) && size % 4 == 0 && size % alignment != 0
    ensures Missing(size + 4, alignment) == Missing(size, alignment) - 4
  {
    hide PowerOfTwo, MaskTest, NextPower;
    PowersAround8(alignment);
    TestOfPower(size, alignment);
    BoundaryNears(size, alignment);
    SmallPowers(alignment);
    NextMultiple(size, alignment);
  }

  lemma WordWrites(s: Session, p: Program, word: Word)
    requires Sound(s) && IsAt(s, p)
    ensures IsAt(Do(s, Put(word)), Write(p, Put(word), 0))
  {
    hide Valid, Reaches, EmitInsn;
    PutInsnKeepsValid(s.asm, word);
    Extends(s, p, Do(s, Put(word)), Write(p, Put(word), 0));
  }

  lemma ConstantWrites(s: Session, p: Program, cond: Cond, rd: Register, value: Word, isReusable: bool)
    requires Sound(s) && IsAt(s, p)
    ensures var c := PutConstant(cond, rd, value, isReusable); IsAt(Do(s, c), Write(p, c, 0))
  {
    hide Valid, Reaches, EmitLoad, LiteralLoad, IsLiteralLoad, AddsOffset, Condition, DestRegister;
    LiteralLoadFields(cond, rd);
    PutLoadKeepsValid(s.asm, LiteralLoad(cond, rd), value, isReusable);
    var c := PutConstant(cond, rd, value, isReusable);
    Extends(s, p, Do(s, c), Write(p, c, 0));
  }

  lemma JumpWrites(s: Session, p: Program, cond: Cond, usePool: bool)
    requires Sound(s) && IsAt(s, p)
    ensures var c := MakeJump(cond, usePool); IsAt(Do(s, c), Write(p, c, 0))
  {
    hide Valid, Reaches, PutJump, LiteralLoad, IsLiteralLoad, AddsOffset, Condition, DestRegister;
    LiteralLoadFields(cond, PC);
    PutJumpKeepsValid(s.asm, cond, usePool);
    JumpSourceIsLoad(s.asm, cond, usePool);
    var c := MakeJump(cond, usePool);
    Extends(s, p, Do(s, c), Write(p, c, 0));
  }

  lemma CallWrites(s: Session, p: Program)
    requires Sound(s) && IsAt(s, p)
    ensures IsAt(Do(s, MakeCall), Write(p, MakeCall, 0))
  {
    hide Valid, Reaches, PutCall, IsLiteralLoad, AddsOffset, Condition, DestRegister;
    CallIsAlways(s.asm);
    Extends(s, p, Do(s, MakeCall), Write(p, MakeCall, 0));
  }

  lemma LabelWrites(s: Session, p: Program)
    requires Sound(s) && IsAt(s, p)
    ensures IsAt(Do(s, MakeLabel), Write(p, MakeLabel, 0))
  {
    hide Valid, Reaches, ReserveSpace, LineOk;
    ReserveKeepsValid(s.asm, MAX_INSTRUCTION_SIZE, 8);
    ReserveKeepsOps(s.asm, MAX_INSTRUCTION_SIZE, 8);
    Extends(s, p, Do(s, MakeLabel), Write(p, MakeLabel, 0));
  }

  lemma AlignedLabelWrites(s: Session, p: Program) returns (nops: nat)
    requires Sound(s) && IsAt(s, p)
    ensures IsAt(Do(s, MakeAlignedLabel), Write(p, MakeAlignedLabel, nops))
  {
    hide Valid, Reaches, ReserveSpace, Aligned;
    nops := AlignedOps(s.asm, 16);
    var b := Aligned(s.asm, 16);
    ReserveKeepsValid(b, MAX_INSTRUCTION_SIZE, 8);
    ReserveKeepsOps(b, MAX_INSTRUCTION_SIZE, 8);
    Extends(s, p, Do(s, MakeAlignedLabel), Write(p, MakeAlignedLabel, nops));
  }

  lemma SpaceWrites(s: Session, p: Program, insn: nat, consts: nat)
    requires Sound(s) && IsAt(s, p)
    ensures IsAt(Do(s, EnsureSpace(insn, consts)), p)
  {
    hide Valid, Reaches, ReserveSpace, LineOk;
    ReserveKeepsValid(s.asm, insn, consts);
    ReserveKeepsOps(s.asm, insn, consts);
    Extends(s, p, Do(s, EnsureSpace(insn, consts)), p);
  }

  lemma LinkWrites(s: Session, p: Program, jump: nat, place: nat)
    requires Sound(s) && IsAt(s, p)
    ensures IsAt(Do(s, LinkTo(jump, place)), Write(p, LinkTo(jump, place), 0))
  {
    hide Laid, Reaches, IsLiteralLoad, Condition, DestRegister;
    if jump < |p.jumps| {
      assert JumpOkAt(s.asm, p, jump);
      if place < |p.labels| {
        var t, q := Do(s, LinkTo(jump, place)), Write(p, LinkTo(jump, place), 0);
        assert LineOk(s.asm.prog.ops[p.jumps[jump]], p.lines[p.jumps[jump]]);
        forall k | 0 <= k < |q.jumps|
          ensures JumpOkAt(t.asm, q, k)
        {
          assert JumpOkAt(s.asm, p, k);
        }
      }
    }
  }

  /** Each call writes its line or lines, and nothing else. */
  lemma CommandWrites(s: Session, p: Program, c: Command) returns (nops: nat)
    requires Sound(s) && IsAt(s, p)
    ensures IsAt(Do(s, c), Write(p, c, nops))
  {
    hide IsAt, Sound, Do, Write;
    nops := 0;
    match c
    case Put(word) => WordWrites(s, p, word);
    case PutConstant(cond, rd, value, isReusable) => ConstantWrites(s, p, cond, rd, value, isReusable);
    case MakeJump(cond, usePool) => JumpWrites(s, p, cond, usePool);
    case MakeCall => CallWrites(s, p);
    case MakeLabel => LabelWrites(s, p);
    case MakeAlignedLabel => nops := AlignedLabelWrites(s, p);
    case EnsureSpace(insn, consts) =>
      SpaceWrites(s, p, insn, consts);
      SpaceWritesNothing(p, insn, consts);
    case LinkTo(jump, place) => LinkWrites(s, p, jump, place);
  }

  lemma SpaceWritesNothing(p: Program, insn: nat, consts: nat)
    ensures Write(p, EnsureSpace(insn, consts), 0) == p
  {
  }

  /** Every run of the assembler writes what the calls say. */
  lemma {:induction false} EveryRunWrites(commands: seq<Command>) returns (p: Program)
    ensures Says(commands, p) && IsAt(Run(commands), p)
    decreases |commands|
  {
    hide IsAt, Do, Write;
    if commands == [] {
      p := NO_LINES;
      NothingWritten();
    } else {
      var n := |commands| - 1;
      var before := EveryRunWrites(commands[..n]);
      CommandKeepsSound(Run(commands[..n]), commands[n]);
      var nops := CommandWrites(Run(commands[..n]), before, commands[n]);
      p := Write(before, commands[n], nops);
    }
  }

  lemma NothingWritten()
    ensures IsAt(Session(NO_CODE, []), NO_LINES)
  {
  }

  // The copy runs it ---------------------------------------------------------------------

  /** What line `i` means; `pc` is the address of its word, for words that read the pc. */
  function LineMeaning<M>(p: Program, sem: Semantics<M>, i: nat, pc: nat, m: M): Effect<M>
    requires i < |p.lines|
  {
    match p.lines[i]
    case Instruction(word) =>
      (match sem.next(word, pc, m)
       case Onward => Goes(i + 1, sem.exec(word, pc, m))
       case Elsewhere(address) => Leaves(address, sem.exec(word, pc, m)))
    case Literal(cond, rd, value, _) =>
      if !sem.holds(cond, m) then Goes(i + 1, m)
      else if rd == 15 then Leaves(value, m)
      else Goes(i + 1, sem.setReg(rd, value, m))
    case Branch(cond, _, target) =>
      if !sem.holds(cond, m) then Goes(i + 1, m)
      else match target
           case Some(line) => Goes(line, m)
           case None => Leaves(0xffff_ffff, m)
  }

  /** `k` lines, standing at the addresses `at`, lead from line `i` to the address `pc`, of a line or outside. */
  ghost predicate Leads<M>(p: Program, at: seq<nat>, sem: Semantics<M>, k: nat, i: nat, m: M, pc: int, m': M) {
    && i < |p.lines| == |at|
    && if k == 0 then at[i] == pc && m == m'
       else match LineMeaning(p, sem, i, at[i], m)
            case Goes(i1, m1) => Leads(p, at, sem, k - 1, i1, m1, pc, m')
            case Leaves(address, m1) => k == 1 && address == pc && m1 == m'
  }

  ghost predicate PlainLines(p: Program) {
    forall i | 0 <= i < |p.lines| && p.lines[i].Instruction? ::
      !IsBranch(p.lines[i].word) && !IsLiteralLoad(p.lines[i].word)
  }

  ghost predicate SameOps(q: Prog, p: Program) {
    |q.ops| == |q.pos| == |p.lines| && forall i | 0 <= i < |p.lines| :: LineOk(q.ops[i], p.lines[i])
  }

  function Addresses(q: Prog, base: nat): (at: seq<nat>)
    ensures |at| == |q.pos| && forall i | 0 <= i < |at| :: at[i] == base + 4 * q.pos[i]
  {
    seq(|q.pos|, i requires 0 <= i < |q.pos| => base + 4 * q.pos[i])
  }

  lemma MeaningOfLine<M>(q: Prog, p: Program, base: nat, sem: Semantics<M>, i: nat, m: M)
    requires SameOps(q, p) && i < |p.lines|
    ensures Meaning(q, base, sem, i, m) == LineMeaning(p, sem, i, base + 4 * q.pos[i], m)
  {
    hide IsLiteralLoad, Condition, DestRegister;
    assert LineOk(q.ops[i], p.lines[i]);
  }

  lemma {:induction false} LeadsArrives<M>(q: Prog, p: Program, base: nat, sem: Semantics<M>,
                                           k: nat, i: nat, m: M, pc: int, m': M)
    requires SameOps(q, p) && Leads(p, Addresses(q, base), sem, k, i, m, pc, m')
    ensures Arrives(q, base, sem, k, i, m, pc, m')
  {
    hide LineOk, LineMeaning, Meaning, Addresses;
    if k == 0 {
      assert Follows(q, base, sem, 0, i, m, i, m') && AddressOf(q, base, i) == pc;
    } else {
      MeaningOfLine(q, p, base, sem, i, m);
      var e := LineMeaning(p, sem, i, base + 4 * q.pos[i], m);
      if e.Goes? {
        LeadsArrives(q, p, base, sem, k - 1, e.index, e.m, pc, m');
        ArrivesOn(q, base, sem, k - 1, i, m, e.index, e.m, pc, m');
      } else {
        assert Departs(q, base, sem, 1, i, m, pc, m');
      }
    }
  }

  lemma ArrivesOn<M>(q: Prog, base: nat, sem: Semantics<M>, k: nat, i: nat, m: M, i1: nat, m1: M, pc: int, m': M)
    requires i < |q.ops| == |q.pos| && Meaning(q, base, sem, i, m) == Goes(i1, m1)
    requires Arrives(q, base, sem, k, i1, m1, pc, m')
    ensures Arrives(q, base, sem, k + 1, i, m, pc, m')
  {
    hide Meaning;
    if !Departs(q, base, sem, k, i1, m1, pc, m') {
      var j: nat :| Follows(q, base, sem, k, i1, m1, j, m') && AddressOf(q, base, j) == pc;
      assert Follows(q, base, sem, k + 1, i, m, j, m');
    }
  }

  /** The copy placed at `base`, entered at its first byte, gets to `pc` in `k` to 2k + 1 instructions. */
  ghost predicate CopyRuns<M>(a: Asm, base: nat, sem: Semantics<M>, k: nat, m: M, pc: int, m': M)
    requires CodeLinking.Valid(a)
  {
    exists n: nat :: k <= n <= 2 * k + 1
      && Executes(Finished(a.prog), Image(base, Copied(a, base)), sem, n, base, m, pc, m')
  }

  /**
    End to end: for every run of the assembler there is the program that its calls
    say, and wherever the copy is placed its lines stand at ascending addresses and
    running the copy is running the lines.
   */
  lemma EveryProgramRuns<M(!new)>(commands: seq<Command>, base: nat, sem: Semantics<M>)
      returns (p: Program, at: seq<nat>)
    requires Fits(Run(commands).asm, base) && Sane(sem)
    ensures Says(commands, p) && |at| == |p.lines|
    ensures forall i, j | 0 <= i < j < |at| :: base <= at[i] < at[j]
    ensures PlainLines(p) ==>
              forall k: nat, m: M, pc: int, m': M | Leads(p, at, sem, k, 0, m, pc, m') ::
                CopyRuns(Run(commands).asm, base, sem, k, m, pc, m')
  {
    hide Run, Valid, Says, Finished, Copied, Executes, Fits, Leads, PlainLines, IsAt, Plain;
    p := EveryRunWrites(commands);
    var a := Run(commands).asm;
    ValidBudget(a);
    SessionStands(Run(commands), p);
    at := ProgramStands(a, p, base);
    if PlainLines(p) {
      forall k: nat, m: M, pc: int, m': M | Leads(p, at, sem, k, 0, m, pc, m')
        ensures CopyRuns(a, base, sem, k, m, pc, m')
      {
        LeadsArrives(Finished(a.prog), p, base, sem, k, 0, m, pc, m');
        CodeRunsAsEmitted(a, base, sem, k, m, pc, m');
      }
    }
  }

  ghost predicate Written(a: Asm, p: Program) {
    |a.prog.ops| == |p.lines| && forall i | 0 <= i < |p.lines| :: LineOk(a.prog.ops[i], p.lines[i])
  }

  lemma SessionStands(s: Session, p: Program)
    requires IsAt(s, p)
    ensures Written(s.asm, p)
  {
  }

  lemma ProgramStands(a: Asm, p: Program, base: nat) returns (at: seq<nat>)
    requires CodeLinking.Valid(a) && Written(a, p)
    ensures at == Addresses(Finished(a.prog), base) && SameOps(Finished(a.prog), p)
    ensures forall i, j | 0 <= i < j < |at| :: base <= at[i] < at[j]
    ensures PlainLines(p) ==> Plain(a.prog)
  {
    hide OpOk, Unshared, Budget, JumpsOk, Finished, IsBranch, IsLiteralLoad, Condition, DestRegister;
    FinishGrows(a.prog);
    PositionsAscend(a.prog);
    at := Addresses(Finished(a.prog), base);
    if PlainLines(p) {
      forall i | 0 <= i < |p.lines| && a.prog.ops[i].Insn?
        ensures !IsBranch(a.prog.ops[i].word) && !IsLiteralLoad(a.prog.ops[i].word)
      {
        assert LineOk(a.prog.ops[i], p.lines[i]);
      }
    }
  }

  lemma PositionsAscend(p: Prog)
    requires Laid(p)
    ensures |p.pos| == |p.ops| && forall i, j | 0 <= i < j < |p.pos| :: p.pos[i] < p.pos[j]
  {
    hide Budget, OpOk, Unshared;
    LaidShape(p);
    forall i, j | 0 <= i < j < |p.pos|
      ensures p.pos[i] < p.pos[j]
    {
      PositionsBelow(p, i, j);
    }
  }

  lemma {:induction false} PositionsBelow(p: Prog, i: nat, j: nat)
    requires Laid(p) && i < j < |p.ops| == |p.pos|
    ensures p.pos[i] < p.pos[j]
    decreases j
  {
    hide Budget, OpOk, Unshared, PendingOk, PositionOk;
    if i < j - 1 {
      PositionsBelow(p, i, j - 1);
    }
    assert p.Lands(p.pos[j - 1] + 1, p.pos[j]);
  }
}
