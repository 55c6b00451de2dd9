/**
  Running the copied code. The processor is given by an arbitrary meaning of the
  instructions that neither branch nor load from the pool; the pc reads as the
  instruction's address plus 8. The theorem: the physical code does exactly what
  the emitted operations say, in order, and never executes a pool word.
 */
module ArmExecution {
  import opened ArmWord
  import opened ConstantPool
  import opened CodeLayout
  import opened CodeLinking
  import opened CodeCopy

  // Code placed at `base`.
  datatype Image = Image(base: nat, words: seq<Word>)
  {
    predicate Fetchable(address: int) {
      base <= address < base + 4 * |words| && (address - base) % 4 == 0
    }

    function Fetch(address: int): Word
      requires Fetchable(address)
    {
      words[(address - base) / 4]
    }
  }

  // Where a plain instruction goes on: behind itself, or, as bx does, elsewhere.
  datatype Next = Onward | Elsewhere(address: Word)

  // `exec` is what a plain instruction at an address does to the machine state,
  // `next` where it goes on, `holds` whether a condition holds, `setReg` a write to
  // a register.
  datatype Semantics<!M> = Semantics(
    exec: (Word, nat, M) -> M,
    next: (Word, nat, M) -> Next,
    holds: (nat, M) -> bool,
    setReg: (nat, Word, M) -> M)

  datatype Outcome<M> = Running(pc: int, m: M) | Stuck

  ghost predicate Sane<M(!new)>(sem: Semantics<M>) {
    forall m :: sem.holds(AL, m)
  }

  /** One instruction of the processor. */
  function Step<M>(img: Image, sem: Semantics<M>, pc: int, m: M): Outcome<M> {
    if !img.Fetchable(pc) then Stuck
    else
      var w := img.Fetch(pc);
      if (IsBranch(w) || IsLiteralLoad(w)) && !sem.holds(Condition(w), m) then Running(pc + 4, m)
      else if IsBranch(w) then Running(pc + 8 + 4 * BranchOffset(w), m)
      else if IsLiteralLoad(w) then
        var address := if AddsOffset(w) then pc + 8 + OffsetField(w) else pc + 8 - OffsetField(w);
        if !img.Fetchable(address) then Stuck
        else if DestRegister(w) == PC then Running(img.Fetch(address), m)
        else Running(pc + 4, sem.setReg(DestRegister(w), img.Fetch(address), m))
      else
        match sem.next(w, pc, m)
        case Onward => Running(pc + 4, sem.exec(w, pc, m))
        case Elsewhere(address) => Running(address, sem.exec(w, pc, m))
  }

  /** The word at `pc` is that of an operation, or a branch over a pool. */
  ghost predicate OnCode(q: Prog, base: nat, pc: int) {
    && pc >= base && (pc - base) % 4 == 0
    && var at := (pc - base) / 4;
       || (exists i :: 0 <= i < |q.pos| && q.pos[i] == at)
       || (at < |q.kinds| == |q.Code()| && q.kinds[at].Barrier? && BarrierOk(q, at))
  }

  /** Neither the slot of a load nor a padding word is code. */
  lemma PoolIsNotCode(q: Prog, base: nat, at: nat)
    requires Laid(q) && at < |q.kinds|
    requires q.kinds[at].Pad? || q.kinds[at].Slot?
    ensures !OnCode(q, base, base + 4 * at)
  {
  }

  /** Every word of the stream is an operation's, a barrier, or not code. */
  lemma CodeWords(q: Prog, base: nat, at: nat)
    requires Laid(q) && at < |q.kinds|
    ensures OnCode(q, base, base + 4 * at) <==> q.kinds[at].OpAt? || q.kinds[at].Barrier?
  {
    if q.kinds[at].OpAt? {
      assert PositionOk(q, at);
    }
  }

  /** `n` instructions lead from (pc, m) to (pc', m'), none of them a pool or padding word. */
  ghost predicate Executes<M>(q: Prog, img: Image, sem: Semantics<M>, n: nat, pc: int, m: M, pc': int, m': M) {
    if n == 0 then pc == pc' && m == m'
    else
      && OnCode(q, img.base, pc)
      && Step(img, sem, pc, m).Running?
      && var next := Step(img, sem, pc, m);
         Executes(q, img, sem, n - 1, next.pc, next.m, pc', m')
  }

  lemma {:induction false} ExecutesOn<M>(q: Prog, img: Image, sem: Semantics<M>,
      k: nat, n: nat, pc: int, m: M, pc1: int, m1: M, pc2: int, m2: M)
    requires Executes(q, img, sem, k, pc, m, pc1, m1)
    requires Executes(q, img, sem, n, pc1, m1, pc2, m2)
    ensures Executes(q, img, sem, k + n, pc, m, pc2, m2)
  {
    hide Step, OnCode;
    if k > 0 {
      var next := Step(img, sem, pc, m);
      ExecutesOn(q, img, sem, k - 1, n, next.pc, next.m, pc1, m1, pc2, m2);
    }
  }

  // The emitted operations as a program of their own -----------------------------

  // The next operation, or an address outside.
  datatype Effect<M> = Goes(index: nat, m: M) | Leaves(address: Word, m': M)

  /** What operation `i` means: no pool, no barrier, jumps go to operations. */
  function Meaning<M>(q: Prog, base: nat, sem: Semantics<M>, i: nat, m: M): Effect<M>
    requires i < |q.ops| == |q.pos|
  {
    match q.ops[i]
    case Insn(word) =>
      var pc := base + 4 * q.pos[i];
      (match sem.next(word, pc, m)
       case Onward => Goes(i + 1, sem.exec(word, pc, m))
       case Elsewhere(address) => Leaves(address, sem.exec(word, pc, m)))
    case Load(insn, constant, _, target) =>
      if !sem.holds(Condition(insn), m) then Goes(i + 1, m)
      else if target.To? then Goes(target.dst.index, m)
      else if DestRegister(insn) == PC then Leaves(constant, m)
      else Goes(i + 1, sem.setReg(DestRegister(insn), constant, m))
  }

  /** The plain instructions are neither direct branches nor literal loads. */
  ghost predicate Plain(p: Prog) {
    forall i | 0 <= i < |p.ops| && p.ops[i].Insn? :: !IsBranch(p.ops[i].word) && !IsLiteralLoad(p.ops[i].word)
  }

  function AddressOf(q: Prog, base: nat, i: nat): nat
    requires i < |q.pos|
  {
    base + 4 * q.pos[i]
  }

  // The copy runs the operations ---------------------------------------------------

  /** `img` is the copy of `a`, and `q` its finished stream. */
  ghost predicate IsCopy(a: Asm, q: Prog, img: Image) {
    && Laid(q) && q.buf.pool == []
    && (forall j | 0 <= j < |a.jumps| :: a.jumps[j].op < |q.ops|)
    && ResolvedOk(a, q, img.base, img.words, |a.jumps|)
    && img.base % 4 == 0 && img.base + q.buf.Size() < 0x1_0000_0000
    && (forall i | 0 <= i < |q.ops| && q.ops[i].Load? && q.ops[i].target.To? :: LinkedOk(a, q, i))
  }

  ghost predicate LinkedOk(a: Asm, q: Prog, i: nat)
    requires i < |q.ops| && q.ops[i].Load? && q.ops[i].target.To?
  {
    var l := q.ops[i].target.dst;
    && Recorded(a, i) && l.offset % 4 == 0 && DestRegister(q.ops[i].insn) == PC
    && (l.index < |q.pos| ==> Reaches(q, l))
  }

  lemma CopyIsCopy(a: Asm, base: nat)
    requires Valid(a) && Fits(a, base)
    ensures IsCopy(a, Finished(a.prog), Image(base, Copied(a, base)))
  {
    hide Budget, Shaped, OpOk, Unshared, Finished, Copied, ResolvedOk, Reaches;
    var q := Finished(a.prog);
    CopyResolvesAll(a, base);
    FinishGrows(a.prog);
    FinishKeepsLaid(a.prog);
    forall i | 0 <= i < |q.ops| && q.ops[i].Load? && q.ops[i].target.To?
      ensures LinkedOk(a, q, i)
    {
      TargetFits(a, base, i);
      assert TargetOk(a.prog, i);
      assert Recorded(a, i);
      var k :| 0 <= k < |a.jumps| && a.jumps[k].op == i;
      assert JumpOk(a.prog, a.jumps[k].op);
    }
  }

  lemma BarrierIsCopied(a: Asm, q: Prog, img: Image, at: nat, to: nat)
    requires IsCopy(a, q, img) && at < |q.kinds| && q.kinds[at] == Barrier(to)
    ensures at < |img.words| && img.words[at] == BranchWord(AL, to - at - 2)
    ensures at < to && to - at - 2 <= 0x1000 && OnCode(q, img.base, img.base + 4 * at)
  {
    hide Budget, OpOk, Unshared, BranchWord, JumpDone, Intact;
    assert BarrierOk(q, at);
    CodeWords(q, img.base, at);
  }

  /** A barrier is one branch to where the stream goes on. */
  lemma BarrierExecutes<M(!new)>(a: Asm, q: Prog, img: Image, sem: Semantics<M>, at: nat, to: nat, m: M)
    requires IsCopy(a, q, img) && Sane(sem)
    requires at < |q.kinds| && q.kinds[at] == Barrier(to)
    ensures Executes(q, img, sem, 1, img.base + 4 * at, m, img.base + 4 * to, m)
  {
    hide IsCopy, OnCode, BranchWord, IsBranch, IsLiteralLoad, Condition, BranchOffset;
    BarrierIsCopied(a, q, img, at, to);
    BranchWordFields(AL, to - at - 2);
    assert img.Fetch(img.base + 4 * at) == img.words[at];
    assert Step(img, sem, img.base + 4 * at, m) == Running(img.base + 4 * to, m);
    assert Executes(q, img, sem, 0, img.base + 4 * to, m, img.base + 4 * to, m);
  }

  /** Operation `i` is a linked jump whose condition holds. */
  predicate JumpTaken<M>(q: Prog, sem: Semantics<M>, i: nat, m: M)
    requires i < |q.ops|
  {
    q.ops[i].Load? && q.ops[i].target.To? && sem.holds(Condition(q.ops[i].insn), m)
  }

  /** The word of operation `i` does what the operation means, barriers aside. */
  lemma OpExecutes<M(!new)>(a: Asm, q: Prog, img: Image, sem: Semantics<M>, i: nat, m: M)
    requires IsCopy(a, q, img) && Plain(q) && i < |q.ops|
    ensures |q.ops| == |q.pos| && OnCode(q, img.base, AddressOf(q, img.base, i))
    ensures var pc := AddressOf(q, img.base, i);
            if JumpTaken(q, sem, i, m)
            then Step(img, sem, pc, m) == Running(img.base + q.ops[i].target.dst.offset, m)
            else match Meaning(q, img.base, sem, i, m)
                 case Goes(_, m') => Step(img, sem, pc, m) == Running(pc + 4, m')
                 case Leaves(address, m') => Step(img, sem, pc, m) == Running(address, m')
  {
    hide Budget, Shaped, OpOk, Unshared, Finished, Reaches, BranchWord, IsLiteralLoad, IsBranch,
         BranchOffset, Condition, DestRegister, AddsOffset, OffsetField;
    LaidShape(q);
    var at := q.pos[i];
    assert img.Fetch(AddressOf(q, img.base, i)) == img.words[at];
    if q.ops[i].Load? && q.ops[i].target.To? {
      assert LinkedOk(a, q, i);
      var k :| 0 <= k < |a.jumps| && a.jumps[k].op == i;
      assert JumpDone(q, img.base, img.words, a.jumps[k]);
      SettledExecutes(a, q, img, sem, i, m, a.jumps[k].usePool);
    } else {
      if exists k :: 0 <= k < |a.jumps| && a.jumps[k].op == i {
        var k :| 0 <= k < |a.jumps| && a.jumps[k].op == i;
        assert JumpDone(q, img.base, img.words, a.jumps[k]);
      }
      assert Intact(q, img.words, i);
      IntactExecutes(a, q, img, sem, i, m);
    }
  }

  /** A word that was only copied. */
  lemma IntactExecutes<M(!new)>(a: Asm, q: Prog, img: Image, sem: Semantics<M>, i: nat, m: M)
    requires IsCopy(a, q, img) && Plain(q) && i < |q.ops| == |q.pos| && q.pos[i] < |img.words| == |q.Code()|
    requires Intact(q, img.words, i) && (q.ops[i].Load? ==> q.ops[i].target.Unlinked?)
    ensures var pc := AddressOf(q, img.base, i);
            match Meaning(q, img.base, sem, i, m)
            case Goes(_, m') => Step(img, sem, pc, m) == Running(pc + 4, m')
            case Leaves(address, m') => Step(img, sem, pc, m) == Running(address, m')
  {
    hide Budget, Shaped, Unshared, ResolvedOk, LinkedOk, BranchWord, Condition, DestRegister, OffsetField,
         LiteralHead, UpBit;
    LaidShape(q);
    NothingPends(q);
    var at := q.pos[i];
    assert OpOk(q, i);
    assert img.Fetch(AddressOf(q, img.base, i)) == img.words[at];
    if q.ops[i].Load? {
      LiteralLoadIsNoBranch(img.words[at]);
      LoadReads(q, img, i);
    }
  }

  /** The address a literal load computes is the address of its slot. */
  lemma LoadReads(q: Prog, img: Image, i: nat)
    requires i < |q.pos| && q.pos[i] < |q.Code()| == |img.words|
    requires var w := q.Code()[q.pos[i]]; OffsetField(w) % 4 == 0 && 0 <= SlotOf(q, i) < |img.words|
    ensures var w, pc := q.Code()[q.pos[i]], AddressOf(q, img.base, i);
            var address := if AddsOffset(w) then pc + 8 + OffsetField(w) else pc + 8 - OffsetField(w);
            img.Fetchable(address) && img.Fetch(address) == img.words[SlotOf(q, i)]
  {
    hide AddsOffset, OffsetField;
  }

  /** A jump that was resolved, to a branch or in its slot. */
  lemma SettledExecutes<M(!new)>(a: Asm, q: Prog, img: Image, sem: Semantics<M>, i: nat, m: M, usePool: bool)
    requires IsCopy(a, q, img) && i < |q.ops| == |q.pos| && q.pos[i] < |img.words| == |q.Code()|
    requires q.ops[i].Load? && q.ops[i].target.To? && DestRegister(q.ops[i].insn) == PC
    requires Settled(q, img.base, img.words, i, q.ops[i].target.dst, usePool)
    ensures var pc := AddressOf(q, img.base, i);
            Step(img, sem, pc, m) ==
            if JumpTaken(q, sem, i, m) then Running(img.base + q.ops[i].target.dst.offset, m) else Running(pc + 4, m)
  {
    hide Budget, Shaped, Unshared, ResolvedOk, BranchWord, Condition, DestRegister, OffsetField,
         LiteralHead, UpBit, IsBranch, BranchOffset;
    LaidShape(q);
    NothingPends(q);
    var at, l := q.pos[i], q.ops[i].target.dst;
    var diff := l.offset / 4 - (at + 2);
    assert LinkedOk(a, q, i);
    assert OpOk(q, i);
    assert img.Fetch(AddressOf(q, img.base, i)) == img.words[at];
    if !usePool && BOFFSET_MIN <= diff <= BOFFSET_MAX {
      BranchWordFields(Condition(q.Code()[at]), diff);
    } else {
      LiteralLoadIsNoBranch(img.words[at]);
      LoadReads(q, img, i);
    }
  }

  /** Word `at` leads to word `to`, over a barrier if there is one. */
  lemma LandingExecutes<M(!new)>(a: Asm, q: Prog, img: Image, sem: Semantics<M>, at: nat, to: nat, m: M)
      returns (n: nat)
    requires IsCopy(a, q, img) && Sane(sem) && q.Lands(at, to)
    ensures n <= 1 && Executes(q, img, sem, n, img.base + 4 * at, m, img.base + 4 * to, m)
  {
    if at == to {
      n := 0;
    } else {
      n := 1;
      BarrierExecutes(a, q, img, sem, at, to, m);
    }
  }

  /** One operation of the program is one instruction of the code, and a barrier at most. */
  lemma OperationSimulated<M(!new)>(a: Asm, q: Prog, img: Image, sem: Semantics<M>, i: nat, m: M, j: nat, m': M)
      returns (n: nat)
    requires IsCopy(a, q, img) && Plain(q) && Sane(sem) && i < |q.ops| == |q.pos| && j < |q.ops|
    requires Meaning(q, img.base, sem, i, m) == Goes(j, m')
    ensures 1 <= n <= 2
    ensures Executes(q, img, sem, n, AddressOf(q, img.base, i), m, AddressOf(q, img.base, j), m')
  {
    hide Budget, Shaped, OpOk, Unshared, ResolvedOk, Plain, Step, Reaches, OnCode;
    OpExecutes(a, q, img, sem, i, m);
    var pc := AddressOf(q, img.base, i);
    var at := q.pos[i] + 1;
    if JumpTaken(q, sem, i, m) {
      assert LinkedOk(a, q, i);
      at := TargetLands(q, q.ops[i].target.dst);
    }
    assert Step(img, sem, pc, m) == Running(img.base + 4 * at, m');
    var k := LandingExecutes(a, q, img, sem, at, q.pos[j], m');
    n := 1 + k;
  }

  lemma TargetLands(q: Prog, l: Label) returns (at: nat)
    requires Reaches(q, l) && l.index < |q.pos|
    ensures 4 * at == l.offset && q.Lands(at, q.pos[l.index])
  {
    at := l.offset / 4;
  }

  /** `k` emitted operations lead from operation `i` to operation `j`. */
  ghost predicate Follows<M>(q: Prog, base: nat, sem: Semantics<M>, k: nat, i: nat, m: M, j: nat, m': M) {
    && i < |q.ops| == |q.pos| && j < |q.ops|
    && if k == 0 then i == j && m == m'
       else match Meaning(q, base, sem, i, m)
            case Goes(i1, m1) => Follows(q, base, sem, k - 1, i1, m1, j, m')
            case Leaves(_, _) => false
  }

  lemma {:induction false} RunSimulated<M(!new)>(a: Asm, q: Prog, img: Image, sem: Semantics<M>,
      k: nat, i: nat, m: M, j: nat, m': M) returns (n: nat)
    requires IsCopy(a, q, img) && Plain(q) && Sane(sem)
    requires Follows(q, img.base, sem, k, i, m, j, m')
    ensures k <= n <= 2 * k
    ensures Executes(q, img, sem, n, AddressOf(q, img.base, i), m, AddressOf(q, img.base, j), m')
  {
    hide Budget, Shaped, OpOk, Unshared, ResolvedOk, Plain, Step, OnCode, Meaning, IsCopy;
    if k == 0 {
      n := 0;
    } else {
      var e := Meaning(q, img.base, sem, i, m);
      var n1 := OperationSimulated(a, q, img, sem, i, m, e.index, e.m);
      var n2 := RunSimulated(a, q, img, sem, k - 1, e.index, e.m, j, m');
      ExecutesOn(q, img, sem, n1, n2, AddressOf(q, img.base, i), m, AddressOf(q, img.base, e.index), e.m,
                 AddressOf(q, img.base, j), m');
      n := n1 + n2;
    }
  }

  /** `k` emitted operations lead from operation `i` out of the program, to `address`. */
  ghost predicate Departs<M>(q: Prog, base: nat, sem: Semantics<M>, k: nat, i: nat, m: M, address: int, m': M) {
    && i < |q.ops| == |q.pos| && k > 0
    && match Meaning(q, base, sem, i, m)
       case Goes(i1, m1) => Departs(q, base, sem, k - 1, i1, m1, address, m')
       case Leaves(address1, m1) => k == 1 && address1 == address && m1 == m'
  }

  /** The operation that leaves the program is one instruction too. */
  lemma LeavingExecutes<M(!new)>(a: Asm, q: Prog, img: Image, sem: Semantics<M>, i: nat, m: M)
    requires IsCopy(a, q, img) && Plain(q) && i < |q.ops| == |q.pos| && Meaning(q, img.base, sem, i, m).Leaves?
    ensures var e := Meaning(q, img.base, sem, i, m);
            Executes(q, img, sem, 1, AddressOf(q, img.base, i), m, e.address, e.m')
  {
    hide IsCopy, Plain, Step, OnCode;
    OpExecutes(a, q, img, sem, i, m);
    var e := Meaning(q, img.base, sem, i, m);
    assert Executes(q, img, sem, 0, e.address, e.m', e.address, e.m');
  }

  lemma {:induction false} DepartureSimulated<M(!new)>(a: Asm, q: Prog, img: Image, sem: Semantics<M>,
      k: nat, i: nat, m: M, address: int, m': M) returns (n: nat)
    requires IsCopy(a, q, img) && Plain(q) && Sane(sem)
    requires Departs(q, img.base, sem, k, i, m, address, m')
    ensures k <= n <= 2 * k
    ensures Executes(q, img, sem, n, AddressOf(q, img.base, i), m, address, m')
  {
    hide Plain, Step, OnCode, Meaning, IsCopy, Executes;
    var e := Meaning(q, img.base, sem, i, m);
    if e.Leaves? {
      LeavingExecutes(a, q, img, sem, i, m);
      n := 1;
    } else {
      var n1 := OperationSimulated(a, q, img, sem, i, m, e.index, e.m);
      var n2 := DepartureSimulated(a, q, img, sem, k - 1, e.index, e.m, address, m');
      ExecutesOn(q, img, sem, n1, n2, AddressOf(q, img.base, i), m, AddressOf(q, img.base, e.index), e.m, address, m');
      n := n1 + n2;
    }
  }

  /** `k` emitted operations lead from operation `i` to the address `pc`, of an operation or outside. */
  ghost predicate Arrives<M>(q: Prog, base: nat, sem: Semantics<M>, k: nat, i: nat, m: M, pc: int, m': M) {
    || (exists j: nat :: Follows(q, base, sem, k, i, m, j, m') && AddressOf(q, base, j) == pc)
    || Departs(q, base, sem, k, i, m, pc, m')
  }

  lemma ArrivalSimulated<M(!new)>(a: Asm, q: Prog, img: Image, sem: Semantics<M>,
      k: nat, i: nat, m: M, pc: int, m': M) returns (n: nat)
    requires IsCopy(a, q, img) && Plain(q) && Sane(sem)
    requires Arrives(q, img.base, sem, k, i, m, pc, m')
    ensures i < |q.ops| == |q.pos| && k <= n <= 2 * k
    ensures Executes(q, img, sem, n, AddressOf(q, img.base, i), m, pc, m')
  {
    hide Plain, Meaning, IsCopy, Executes;
    if Departs(q, img.base, sem, k, i, m, pc, m') {
      n := DepartureSimulated(a, q, img, sem, k, i, m, pc, m');
    } else {
      var j: nat :| Follows(q, img.base, sem, k, i, m, j, m') && AddressOf(q, img.base, j) == pc;
      n := RunSimulated(a, q, img, sem, k, i, m, j, m');
    }
  }

  /** The same from any operation on: the copy of a program runs its operations. */
  lemma CopyRunsFrom<M(!new)>(a: Asm, base: nat, sem: Semantics<M>, k: nat, i: nat, m: M, j: nat, m': M)
      returns (n: nat)
    requires Valid(a) && Fits(a, base) && Plain(a.prog) && Sane(sem)
    requires Follows(Finished(a.prog), base, sem, k, i, m, j, m')
    ensures var q := Finished(a.prog);
            && k <= n <= 2 * k
            && Executes(q, Image(base, Copied(a, base)), sem, n, AddressOf(q, base, i), m, AddressOf(q, base, j), m')
  {
    hide Budget, Shaped, OpOk, Unshared, ResolvedOk, Step, OnCode, Meaning, IsCopy, Copied, Finished;
    CopyIsCopy(a, base);
    CopyResolvesAll(a, base);
    n := RunSimulated(a, Finished(a.prog), Image(base, Copied(a, base)), sem, k, i, m, j, m');
  }

  /** Entered at a label, as a call returns to one, the copy goes on with the label's operation. */
  lemma CopyRunsFromLabel<M(!new)>(a: Asm, base: nat, sem: Semantics<M>, l: Label, m: M) returns (n: nat)
    requires Valid(a) && Fits(a, base) && Sane(sem)
    requires Reaches(a.prog, l) && l.index < |a.prog.pos|
    ensures var q := Finished(a.prog);
            && l.index < |q.pos| && n <= 1
            && Executes(q, Image(base, Copied(a, base)), sem, n, base + l.offset, m, AddressOf(q, base, l.index), m)
  {
    hide Budget, Shaped, OpOk, Unshared, ResolvedOk, IsCopy, Copied, Finished, Reaches, Executes;
    CopyIsCopy(a, base);
    FinishGrows(a.prog);
    FinishKeepsLaid(a.prog);
    var q := Finished(a.prog);
    var at := TargetLands(q, l);
    n := LandingExecutes(a, q, Image(base, Copied(a, base)), sem, at, q.pos[l.index], m);
  }

  /**
    Pool transparency and linking, end to end. Entered at its first byte, the
    executable copy runs exactly the emitted operations, jumps going to the
    operations their labels stand for, through operations and barriers only, up
    to the address the operations lead to, also if it lies outside the code.
   */
  lemma CodeRunsAsEmitted<M(!new)>(a: Asm, base: nat, sem: Semantics<M>, k: nat, m: M, pc: int, m': M)
    requires Valid(a) && Fits(a, base) && Plain(a.prog) && Sane(sem)
    requires Arrives(Finished(a.prog), base, sem, k, 0, m, pc, m')
    ensures exists n: nat :: k <= n <= 2 * k + 1
              && Executes(Finished(a.prog), Image(base, Copied(a, base)), sem, n, base, m, pc, m')
  {
    hide Budget, Shaped, OpOk, Unshared, ResolvedOk, Step, OnCode, Arrives, IsCopy, Copied, Finished;
    var q := Finished(a.prog);
    var img := Image(base, Copied(a, base));
    CopyIsCopy(a, base);
    CopyResolvesAll(a, base);
    var n2 := ArrivalSimulated(a, q, img, sem, k, 0, m, pc, m');
    var n1 := LandingExecutes(a, q, img, sem, 0, q.pos[0], m);
    ExecutesOn(q, img, sem, n1, n2, base, m, AddressOf(q, base, 0), m, pc, m');
  }
}
