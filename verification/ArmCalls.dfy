/**
  Calls in the executable copy: mov lr, pc and the load behind it get to the callee
  whatever the flags are, and lr is the address behind the load.
 */
module ArmCalls {
  import opened ArmFields
  import opened ArmWord
  import opened ConstantPool
  import opened CodeLayout
  import opened CodeLinking
  import opened CodeCopy
  import opened ArmExecution
  import opened ArmMove
  import opened AssemblerRuns
  import opened ArmHistory

  // The call ---------------------------------------------------------------------------

  lemma SavePcFields()
    ensures IsMovRegister(0xe1a0_e00f) && Nibble(0xe1a0_e00f, 3) == 14 && Nibble(0xe1a0_e00f, 0) == 15
    ensures IsMovRegister(0xe1a0_0000) && Nibble(0xe1a0_0000, 3) == 0 && Nibble(0xe1a0_0000, 0) == 0
  {
    MovRegisterFields(14, 15);
    MovRegisterFields(0, 0);
    assert MovRegister(14, 15) == 0xe1a0_e00f && MovRegister(0, 0) == 0xe1a0_0000;
  }

  /** The word align() pads with changes nothing. */
  lemma PaddingIsIdle<X(!new)>(sem: Semantics<Machine<X>>, address: nat, m: Machine<X>)
    requires IsProcessor(sem)
    ensures sem.exec(MOV_R0_R0, address, m) == m && sem.next(MOV_R0_R0, address, m) == Onward
  {
    hide IsProcessor, Nibble;
    SavePcFields();
    RegisterMove(sem, MOV_R0_R0, address, m);
  }

  /** A mov lr, pc with an always executed load of the pc right behind it. */
  ghost predicate IsCall(q: Prog, n: nat) {
    && n + 1 < |q.ops| == |q.pos| && q.pos[n + 1] == q.pos[n] + 1
    && q.ops[n] == Insn(0xe1a0_e00f)
    && q.ops[n + 1].Load? && Condition(q.ops[n + 1].insn) == 14 && DestRegister(q.ops[n + 1].insn) == 15
  }

  function Destination(op: Op, base: nat): int
    requires op.Load?
  {
    if op.target.To? then base + op.target.dst.offset else op.constant
  }

  /**
    Two instructions lead from operation `n` to the destination of the call, with the
    address behind the load in lr and nothing else changed.
   */
  ghost predicate CallRuns<X>(a: Asm, base: nat, sem: Semantics<Machine<X>>, n: nat, m: Machine<X>)
    requires Valid(a)
  {
    var q := Finished(a.prog);
    && IsCall(q, n)
    && var lr := AddressOf(q, base, n + 1) + 4;
       && lr < 0x1_0000_0000
       && Executes(q, Image(base, Copied(a, base)), sem, 2, AddressOf(q, base, n), m,
                   Destination(q.ops[n + 1], base), m.(regs := m.regs[14 := lr as bv32]))
  }

  lemma CallArrives<X(!new)>(a: Asm, base: nat, sem: Semantics<Machine<X>>, n: nat, m: Machine<X>)
    requires Valid(a) && Fits(a, base) && Plain(a.prog) && IsProcessor(sem)
    requires IsCall(Finished(a.prog), n)
    ensures CallRuns(a, base, sem, n, m)
  {
    hide Finished, Copied, IsCopy, Executes, IsProcessor, IsLiteralLoad, IsBranch, IsCall, Destination;
    CopyIsCopy(a, base);
    FinishGrows(a.prog);
    TwoInstructions(a, Finished(a.prog), Image(base, Copied(a, base)), sem, n, m);
  }

  lemma TwoInstructions<X(!new)>(a: Asm, q: Prog, img: Image, sem: Semantics<Machine<X>>, n: nat, m: Machine<X>)
    requires IsCopy(a, q, img) && Plain(q) && IsProcessor(sem) && IsCall(q, n)
    ensures var lr := AddressOf(q, img.base, n + 1) + 4;
            && lr < 0x1_0000_0000
            && Executes(q, img, sem, 2, AddressOf(q, img.base, n), m,
                        Destination(q.ops[n + 1], img.base), m.(regs := m.regs[14 := lr as bv32]))
  {
    hide IsCopy, Step, IsProcessor, Condition, DestRegister, OnCode, Plain;
    ReturnFits(a, q, img, n + 1);
    var m1 := m.(regs := m.regs[14 := (AddressOf(q, img.base, n) + 8) as bv32]);
    SaveSteps(a, q, img, sem, n, m);
    CallSteps(a, q, img, sem, n + 1, m1);
    var to := Destination(q.ops[n + 1], img.base);
    assert Executes(q, img, sem, 0, to, m1, to, m1);
    assert Executes(q, img, sem, 1, AddressOf(q, img.base, n + 1), m1, to, m1);
  }

  lemma ReturnFits(a: Asm, q: Prog, img: Image, i: nat)
    requires IsCopy(a, q, img) && i < |q.pos|
    ensures AddressOf(q, img.base, i) + 4 < 0x1_0000_0000
  {
    LaidShape(q);
  }

  lemma SaveSteps<X(!new)>(a: Asm, q: Prog, img: Image, sem: Semantics<Machine<X>>, n: nat, m: Machine<X>)
    requires IsCopy(a, q, img) && Plain(q) && IsProcessor(sem) && n < |q.ops| == |q.pos|
    requires q.ops[n] == Insn(0xe1a0_e00f) && AddressOf(q, img.base, n) + 8 < 0x1_0000_0000
    ensures var pc := AddressOf(q, img.base, n);
            && OnCode(q, img.base, pc)
            && Step(img, sem, pc, m) == Running(pc + 4, m.(regs := m.regs[14 := (pc + 8) as bv32]))
  {
    hide IsCopy, Step, OnCode, IsProcessor, Plain;
    SavePcFields();
    RegisterMove(sem, 0xe1a0_e00f, AddressOf(q, img.base, n), m);
    OpExecutes(a, q, img, sem, n, m);
  }

  lemma CallSteps<X(!new)>(a: Asm, q: Prog, img: Image, sem: Semantics<Machine<X>>, n: nat, m: Machine<X>)
    requires IsCopy(a, q, img) && Plain(q) && IsProcessor(sem) && n < |q.ops| == |q.pos|
    requires q.ops[n].Load? && Condition(q.ops[n].insn) == 14 && DestRegister(q.ops[n].insn) == 15
    ensures var pc := AddressOf(q, img.base, n);
            && OnCode(q, img.base, pc) && Step(img, sem, pc, m) == Running(Destination(q.ops[n], img.base), m)
  {
    hide IsCopy, Step, OnCode, IsProcessor, Plain, Condition, DestRegister;
    AlwaysHolds(sem, m);
    OpExecutes(a, q, img, sem, n, m);
  }

  lemma AlwaysHolds<X(!new)>(sem: Semantics<Machine<X>>, m: Machine<X>)
    requires IsProcessor(sem)
    ensures sem.holds(14, m)
  {
  }

  /**
    Every call of every run: wherever the copy is placed and whatever the flags
    are, two instructions lead from it to its destination, with the address behind
    the load in lr and nothing else changed. The destination is the label the call
    is linked to, or 0xffffffff.
   */
  lemma EveryCallArrives<X(!new)>(commands: seq<Command>, k: nat, base: nat, sem: Semantics<Machine<X>>, m: Machine<X>)
    requires k < |commands| && commands[k] == MakeCall && IsProcessor(sem)
    requires var a := Run(commands).asm; Fits(a, base) && Plain(a.prog)
    ensures CallRuns(Run(commands).asm, base, sem, |Run(commands[..k]).asm.prog.ops|, m)
  {
    hide Valid, Finished, Fits, Plain, IsProcessor, IsCall, CallRuns, Reaches, Run;
    var a := Run(commands).asm;
    var n := |Run(commands[..k]).asm.prog.ops|;
    CallStands(commands, k);
    CallArrives(a, base, sem, n, m);
  }

  lemma CallStands(commands: seq<Command>, k: nat)
    requires k < |commands| && commands[k] == MakeCall
    ensures Valid(Run(commands).asm)
    ensures IsCall(Finished(Run(commands).asm.prog), |Run(commands[..k]).asm.prog.ops|)
  {
    hide Valid, PutCall, Finished, Reaches, Kept, IsCall, Do;
    var s, a := Run(commands[..k]), Run(commands).asm;
    assert commands[..k + 1][..k] == commands[..k];
    CommandKeepsSound(s, MakeCall);
    CallMade(s);
    RunKeeps(commands, k + 1);
    ValidShape(a);
    CallStays(Do(s, MakeCall).asm.prog, a.prog, |s.asm.prog.ops|);
    ValidIsLaid(a);
    FinishGrows(a.prog);
    SameCall(a.prog, Finished(a.prog), |s.asm.prog.ops|);
  }

  lemma CallMade(s: Session)
    requires Sound(s)
    ensures IsCall(Do(s, MakeCall).asm.prog, |s.asm.prog.ops|)
  {
    hide Valid, PutCall, IsLiteralLoad, Condition, DestRegister, Reaches;
    CallIsAlways(s.asm);
    CallReturnsBehindLoad(s.asm);
  }

  lemma CallStays(p: Prog, q: Prog, n: nat)
    requires IsCall(p, n) && Kept(p, q) && |q.ops| == |q.pos|
    ensures IsCall(q, n)
  {
    hide Accounted, Condition, DestRegister;
    assert SameOp(p.ops[n], q.ops[n]) && SameOp(p.ops[n + 1], q.ops[n + 1]);
  }

  lemma SameCall(p: Prog, q: Prog, n: nat)
    requires IsCall(p, n) && p.ops == q.ops && p.pos == q.pos
    ensures IsCall(q, n)
  {
  }
}
