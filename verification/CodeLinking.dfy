/**
  Jumps: emitting and linking them, with the list of jumps that the copy to
  executable memory goes through.
 */
module CodeLinking {
  import opened ArmWord
  import opened ConstantPool
  import opened CodeLayout

  // A recorded jump: its operation, and whether it has to stay a pool load.
  datatype Jump = Jump(op: nat, usePool: bool)

  datatype Asm = Asm(prog: Prog, jumps: seq<Jump>)
  {
    /** The entry of the jump list: byte offset of the load, tagged with the flag. */
    function JumpEntry(k: nat): nat
      requires k < |jumps| && jumps[k].op < |prog.pos|
    {
      4 * prog.pos[jumps[k].op] + if jumps[k].usePool then 1 else 0
    }
  }

  ghost predicate Recorded(a: Asm, i: nat) {
    exists k :: 0 <= k < |a.jumps| && a.jumps[k].op == i
  }

  ghost predicate JumpOk(p: Prog, i: nat) {
    && i < |p.ops| && p.ops[i].Load?
    && !p.ops[i].isReusable && DestRegister(p.ops[i].insn) == PC
    && (p.ops[i].target.Unlinked? ==> p.ops[i].constant == UNLINKED)
  }

  ghost predicate TargetOk(p: Prog, i: nat)
    requires i < |p.ops| && p.ops[i].Load?
  {
    p.ops[i].target.To? ==>
      var l := p.ops[i].target.dst;
      Reaches(p, l) && p.ops[i].constant == l.offset % 0x1_0000_0000
  }

  ghost predicate JumpsOk(a: Asm) {
    && (forall k | 0 <= k < |a.jumps| :: JumpOk(a.prog, a.jumps[k].op))
    && (forall j, k | 0 <= j < k < |a.jumps| :: a.jumps[j].op < a.jumps[k].op)
    && (forall i | 0 <= i < |a.prog.ops| && a.prog.ops[i].Load? :: TargetOk(a.prog, i))
    && (forall i | 0 <= i < |a.prog.ops| && a.prog.ops[i].Load? && a.prog.ops[i].target.To? :: Recorded(a, i))
  }

  ghost predicate Valid(a: Asm) {
    Open(a.prog) && JumpsOk(a)
  }

  const NO_CODE := Asm(NOTHING, [])

  // Emitting ---------------------------------------------------------------

  function PutInsn(a: Asm, w: Word): Asm
    requires Valid(a)
  {
    a.(prog := EmitInsn(a.prog, w))
  }

  function PutLoad(a: Asm, insn: Word, constant: Word, isReusable: bool): Asm
    requires Valid(a)
  {
    a.(prog := EmitLoad(a.prog, insn, constant, isReusable))
  }

  function ReserveSpace(a: Asm, insn: nat, consts: nat): Asm
    requires Valid(a)
  {
    a.(prog := Reserve(a.prog, insn, consts))
  }

  function ReserveSpaceForInsn(a: Asm, insn: nat): Asm
    requires Valid(a)
  {
    a.(prog := ReserveInsn(a.prog, insn))
  }

  /** The label that size() hands out: where the next operation will stand. */
  function Here(p: Prog): Label {
    Label(p.buf.Size(), |p.ops|)
  }

  function PutJump(a: Asm, cond: nat, usePool: bool): Asm
    requires Valid(a) && cond < 16
  {
    ReserveKeepsValid(a, 4, 4);
    var b := PutLoad(ReserveSpace(a, 4, 4), LiteralLoad(cond, PC), UNLINKED, false);
    b.(jumps := b.jumps + [Jump(|a.prog.ops|, usePool)])
  }

  function LinkJump(a: Asm, k: nat, l: Label): Asm
    requires Valid(a) && k < |a.jumps|
  {
    assert JumpOk(a.prog, a.jumps[k].op);
    a.(prog := Link(a.prog, a.jumps[k].op, l))
  }

  // Every call keeps the assembler valid ---------------------------------------

  /** What a step that neither adds nor links jumps has to leave alone. */
  lemma StepKeepsJumps(a: Asm, b: Asm)
    requires Valid(a) && Open(b.prog) && a.jumps == b.jumps
    requires a.prog.ops <= b.prog.ops
    requires forall i | |a.prog.ops| <= i < |b.prog.ops| && b.prog.ops[i].Load? :: b.prog.ops[i].target.Unlinked?
    requires forall l | Reaches(a.prog, l) :: Reaches(b.prog, l)
    ensures Valid(b)
  {
    hide Open, Laid, Reaches;
    forall k | 0 <= k < |b.jumps|
      ensures JumpOk(b.prog, b.jumps[k].op)
    {
      assert JumpOk(a.prog, a.jumps[k].op);
    }
    forall i | 0 <= i < |b.prog.ops| && b.prog.ops[i].Load?
      ensures TargetOk(b.prog, i)
      ensures b.prog.ops[i].target.To? ==> Recorded(b, i)
    {
      if i < |a.prog.ops| {
        assert TargetOk(a.prog, i);
        assert b.prog.ops[i].target.To? ==> Recorded(a, i);
      }
    }
  }

  lemma ReserveKeepsValid(a: Asm, insn: nat, consts: nat)
    requires Valid(a)
    ensures Valid(ReserveSpace(a, insn, consts))
    ensures Valid(ReserveSpaceForInsn(a, insn))
    ensures forall l | Reaches(a.prog, l) :: Reaches(ReserveSpace(a, insn, consts).prog, l)
    ensures forall l | Reaches(a.prog, l) :: Reaches(ReserveSpaceForInsn(a, insn).prog, l)
  {
    hide JumpsOk, Reaches;
    FlushKeepsLaid(a.prog, true);
    var b := a.(prog := Flushed(a.prog, true));
    forall l | Reaches(a.prog, l)
      ensures Reaches(b.prog, l)
    {
      FlushKeepsLabel(a.prog, true, l);
    }
    StepKeepsJumps(a, b);
  }

  lemma PutInsnKeepsValid(a: Asm, w: Word)
    requires Valid(a)
    ensures Valid(PutInsn(a, w))
    ensures PutInsn(a, w).prog.ops == a.prog.ops + [Insn(w)]
    ensures forall l | Reaches(a.prog, l) :: Reaches(PutInsn(a, w).prog, l)
  {
    hide JumpsOk, Reaches, Laid;
    EmitInsnKeepsOpen(a.prog, w);
    StepKeepsJumps(a, PutInsn(a, w));
  }

  lemma PutLoadKeepsValid(a: Asm, insn: Word, constant: Word, isReusable: bool)
    requires Valid(a) && IsLiteralLoad(insn) && AddsOffset(insn)
    ensures Valid(PutLoad(a, insn, constant, isReusable))
    ensures PutLoad(a, insn, constant, isReusable).prog.ops
            == a.prog.ops + [Load(insn, constant, isReusable, Unlinked)]
    ensures forall l | Reaches(a.prog, l) :: Reaches(PutLoad(a, insn, constant, isReusable).prog, l)
  {
    hide JumpsOk, Reaches, Laid, IsLiteralLoad, AddsOffset, QueueLoad;
    EmitLoadKeepsOpen(a.prog, insn, constant, isReusable);
    StepKeepsJumps(a, PutLoad(a, insn, constant, isReusable));
  }

  lemma PutJumpKeepsValid(a: Asm, cond: nat, usePool: bool)
    requires Valid(a) && cond < 16
    ensures Valid(PutJump(a, cond, usePool))
    ensures PutJump(a, cond, usePool).prog.ops
            == a.prog.ops + [Load(LiteralLoad(cond, PC), UNLINKED, false, Unlinked)]
    ensures forall l | Reaches(a.prog, l) :: Reaches(PutJump(a, cond, usePool).prog, l)
  {
    hide Valid, Reaches, LiteralLoad, IsLiteralLoad, AddsOffset, EmitLoad, DestRegister;
    ReserveKeepsValid(a, 4, 4);
    LiteralLoadFields(cond, PC);
    var b := ReserveSpace(a, 4, 4);
    var c := PutLoad(b, LiteralLoad(cond, PC), UNLINKED, false);
    PutLoadKeepsValid(b, LiteralLoad(cond, PC), UNLINKED, false);
    JumpsStandInCode(a);
    RecordKeepsValid(c, Jump(|a.prog.ops|, usePool));
  }

  lemma JumpsStandInCode(a: Asm)
    requires Valid(a)
    ensures forall k | 0 <= k < |a.jumps| :: a.jumps[k].op < |a.prog.ops|
  {
    hide Open, DestRegister, TargetOk;
    assert forall k | 0 <= k < |a.jumps| :: JumpOk(a.prog, a.jumps[k].op);
  }

  lemma RecordKeepsValid(a: Asm, jump: Jump)
    requires Valid(a) && JumpOk(a.prog, jump.op)
    requires forall k | 0 <= k < |a.jumps| :: a.jumps[k].op < jump.op
    ensures Valid(a.(jumps := a.jumps + [jump]))
  {
    hide Open, JumpOk, TargetOk;
    var r := a.(jumps := a.jumps + [jump]);
    forall i | 0 <= i < |r.prog.ops| && r.prog.ops[i].Load? && r.prog.ops[i].target.To?
      ensures Recorded(r, i)
    {
      assert Recorded(a, i);
      var k :| 0 <= k < |a.jumps| && a.jumps[k].op == i;
      assert r.jumps[k].op == i;
    }
  }

  lemma LinkJumpKeepsValid(a: Asm, k: nat, l: Label)
    requires Valid(a) && k < |a.jumps| && Reaches(a.prog, l)
    ensures Valid(LinkJump(a, k, l))
    ensures forall m | Reaches(a.prog, m) :: Reaches(LinkJump(a, k, l).prog, m)
  {
    hide Laid, Reaches, DestRegister;
    var i := a.jumps[k].op;
    var r := LinkJump(a, k, l);
    assert JumpOk(a.prog, i);
    LinkKeepsLaid(a.prog, i, l);
    forall j | 0 <= j < |r.jumps|
      ensures JumpOk(r.prog, r.jumps[j].op)
    {
      assert JumpOk(a.prog, a.jumps[j].op);
    }
    forall j | 0 <= j < |r.prog.ops| && r.prog.ops[j].Load?
      ensures TargetOk(r.prog, j)
      ensures r.prog.ops[j].target.To? ==> Recorded(r, j)
    {
      if j != i {
        assert TargetOk(a.prog, j);
        assert r.prog.ops[j].target.To? ==> Recorded(a, j);
      } else {
        assert Recorded(r, j);
      }
    }
  }
}
