/**
  executableCopy: the last pool is flushed, the code is copied to its final
  address and every linked jump is resolved there.
 */
module CodeCopy {
  import opened ArmWord
  import opened ConstantPool
  import opened CodeLayout
  import opened CodeLinking

  // Finishing the stream -------------------------------------------------------

  /** A breakpoint if the size is no multiple of 8. */
  function Padded(q: Prog): Prog {
    if q.buf.Size() % 8 == 0 then q
    else q.(buf := ChargeInsn(Append(q.buf, BKPT)), kinds := q.kinds + [Pad])
  }

  /** The forced flush and the padding. */
  function Finished(p: Prog): Prog
    requires Budget(p.buf)
  {
    Padded(Flushed(p, false))
  }

  lemma FinishKeepsLaid(p: Prog)
    requires Laid(p)
    ensures var r := Finished(p); Laid(r) && r.buf.pool == [] && r.buf.loads == [] && r.buf.Size() % 8 == 0
    ensures forall l | Reaches(p, l) && l.index < |p.pos| :: Reaches(Finished(p), l)
  {
    hide Laid, Budget, Reaches, Padded;
    LaidHasBudget(p);
    FlushKeepsLaid(p, false);
    var q := Flushed(p, false);
    FlushEmptiesPool(p);
    forall l | Reaches(p, l) && l.index < |p.pos|
      ensures Reaches(q, l)
    {
      FlushKeepsLabel(p, false, l);
    }
    PadKeepsLaid(q);
  }

  lemma LaidHasBudget(p: Prog)
    requires Laid(p)
    ensures Budget(p.buf)
  {
  }

  lemma FlushEmptiesPool(p: Prog)
    requires Budget(p.buf)
    ensures Flushed(p, false).buf.pool == [] && Flushed(p, false).pos == p.pos
  {
    hide Budget;
    FlushKeepsBudget(p.buf, false);
  }

  lemma PadKeepsLaid(q: Prog)
    requires Laid(q) && q.buf.pool == []
    ensures var r := Padded(q); Laid(r) && r.buf.pool == [] && r.buf.loads == [] && r.buf.Size() % 8 == 0
    ensures forall l | Reaches(q, l) && l.index < |q.pos| :: Reaches(Padded(q), l)
  {
    hide Laid, Reaches;
    LaidHasBudget(q);
    NothingPends(q);
    if q.buf.Size() % 8 != 0 {
      PadWordKeepsLaid(q);
    }
  }

  lemma PadWordKeepsLaid(q: Prog)
    requires Laid(q) && q.buf.pool == []
    ensures var r := q.(buf := ChargeInsn(Append(q.buf, BKPT)), kinds := q.kinds + [Pad]);
            Laid(r) && forall l | Reaches(q, l) && l.index < |q.pos| :: Reaches(r, l)
  {
    hide BranchWord, SameLoad, OffsetField, LiteralIndex, LoadQueued;
    var r := q.(buf := ChargeInsn(Append(q.buf, BKPT)), kinds := q.kinds + [Pad]);
    forall at | 0 <= at < |r.kinds| && r.kinds[at].OpAt?
      ensures PositionOk(r, at)
    {
      assert PositionOk(q, at);
    }
    forall at | 0 <= at < |r.kinds| && r.kinds[at].Barrier?
      ensures BarrierOk(r, at)
    {
      assert BarrierOk(q, at);
    }
    forall i | 0 <= i < |r.ops|
      ensures OpOk(r, i)
    {
      assert OpOk(q, i);
    }
    forall i, j | 0 <= i < |r.ops| && 0 <= j < |r.ops| && i != j
                  && r.ops[i].Load? && r.ops[j].Load? && !r.ops[i].isReusable
      ensures Unshared(r, i, j)
    {
      assert Unshared(q, i, j);
    }
  }

  // Resolving jumps ------------------------------------------------------------

  /** The load behind a jump entry reads a slot, and what it reads is a label or nothing. */
  predicate Linkable(words: seq<Word>, base: nat, entry: nat) {
    var at := entry / 4;
    && at < |words| && IsLiteralLoad(words[at])
    && var slot := LiteralIndex(words[at], at);
       && 0 <= slot < |words|
       && (words[slot] == UNLINKED || base + words[slot] < 0x1_0000_0000)
  }

  /** linkBranch for a load at word index `at` of code placed at `base`. */
  function LinkBranch(words: seq<Word>, base: nat, at: nat, to: Word, usePool: bool): (r: seq<Word>)
    requires at < |words| && 0 <= LiteralIndex(words[at], at) < |words|
    ensures |r| == |words|
  {
    var diff := (to - (base + 4 * (at + 2))) / 4;
    if !usePool && BOFFSET_MIN <= diff <= BOFFSET_MAX
    then words[at := BranchWord(Condition(words[at]), diff)]
    else words[LiteralIndex(words[at], at) := to]
  }

  function ResolveJump(words: seq<Word>, base: nat, entry: nat): (r: seq<Word>)
    requires Linkable(words, base, entry)
    ensures |r| == |words|
  {
    var at := entry / 4;
    var offset := words[LiteralIndex(words[at], at)];
    if offset == UNLINKED then words
    else LinkBranch(words, base, at, base + offset, entry % 2 == 1)
  }

  /** The code with the first `k` jumps resolved. */
  function Resolved(a: Asm, base: nat, k: nat): (r: seq<Word>)
    requires Budget(a.prog.buf) && k <= |a.jumps|
    requires forall j | 0 <= j < k :: a.jumps[j].op < |a.prog.pos|
  {
    if k == 0 then Finished(a.prog).Code()
    else
      var words := Resolved(a, base, k - 1);
      if Linkable(words, base, a.JumpEntry(k - 1)) then ResolveJump(words, base, a.JumpEntry(k - 1)) else words
  }

  /** The words of the executable code at `base`. */
  function Copied(a: Asm, base: nat): seq<Word>
    requires Valid(a)
  {
    JumpsStandInCode(a);
    Resolved(a, base, |a.jumps|)
  }

  // What the copy means ----------------------------------------------------------

  /** The code fits below 2^32 at a word-aligned `base`. */
  ghost predicate Fits(a: Asm, base: nat)
    requires Valid(a)
  {
    base % 4 == 0 && base + Finished(a.prog).buf.Size() < 0x1_0000_0000
  }

  function SlotOf(q: Prog, i: nat): int
    requires i < |q.pos| && q.pos[i] < |q.Code()|
  {
    LiteralIndex(q.Code()[q.pos[i]], q.pos[i])
  }

  /** Operation `i` is in `words` as it was laid out. */
  ghost predicate Intact(q: Prog, words: seq<Word>, i: nat)
    requires i < |q.ops| == |q.pos| && q.pos[i] < |q.Code()| == |words|
  {
    && words[q.pos[i]] == q.Code()[q.pos[i]]
    && (q.ops[i].Load? ==> 0 <= SlotOf(q, i) < |words| && words[SlotOf(q, i)] == q.ops[i].constant)
  }

  /**
    Jump `i`, linked to `l`, goes to the label's address in code at `base`:
    by a branch, under its own condition, or by loading that address.
   */
  ghost predicate Settled(q: Prog, base: nat, words: seq<Word>, i: nat, l: Label, usePool: bool)
    requires i < |q.ops| == |q.pos| && q.pos[i] < |q.Code()| == |words|
  {
    var at, slot := q.pos[i], SlotOf(q, i);
    var diff := l.offset / 4 - (at + 2);
    if !usePool && BOFFSET_MIN <= diff <= BOFFSET_MAX
    then words[at] == BranchWord(Condition(q.Code()[at]), diff)
    else words[at] == q.Code()[at] && 0 <= slot < |words| && words[slot] == base + l.offset
  }

  ghost predicate JumpDone(q: Prog, base: nat, words: seq<Word>, jump: Jump)
    requires jump.op < |q.ops| == |q.pos| && q.pos[jump.op] < |q.Code()| == |words|
  {
    if q.ops[jump.op].Load? && q.ops[jump.op].target.To?
    then Settled(q, base, words, jump.op, q.ops[jump.op].target.dst, jump.usePool)
    else Intact(q, words, jump.op)
  }

  /** The state of the copy after `k` jumps. */
  ghost predicate ResolvedOk(a: Asm, q: Prog, base: nat, words: seq<Word>, k: nat)
    requires k <= |a.jumps| && Laid(q)
    requires forall j | 0 <= j < |a.jumps| :: a.jumps[j].op < |q.ops|
  {
    && |words| == |q.Code()|
    && (forall j | 0 <= j < k :: JumpDone(q, base, words, a.jumps[j]))
    && (forall i | 0 <= i < |q.ops| && !(exists j :: 0 <= j < k && a.jumps[j].op == i) :: Intact(q, words, i))
    && (forall at | 0 <= at < |q.kinds| && q.kinds[at].Barrier? :: words[at] == q.Code()[at])
  }

  lemma LabelBound(p: Prog, l: Label)
    requires Laid(p) && Reaches(p, l)
    ensures l.offset <= p.buf.Size()
  {
    var at := l.offset / 4;
    if at < |p.kinds| && p.kinds[at].Barrier? {
      assert BarrierOk(p, at);
    }
  }

  /** What the slot of a linked jump holds before it is resolved. */
  lemma TargetFits(a: Asm, base: nat, i: nat)
    requires Valid(a) && Fits(a, base)
    requires i < |a.prog.ops| && a.prog.ops[i].Load? && a.prog.ops[i].target.To?
    ensures var l := a.prog.ops[i].target.dst;
            && l.offset % 4 == 0 && a.prog.ops[i].constant == l.offset
            && base + l.offset < 0x1_0000_0000
  {
    hide Laid;
    assert TargetOk(a.prog, i);
    LabelBound(a.prog, a.prog.ops[i].target.dst);
    FinishGrows(a.prog);
  }

  lemma FinishGrows(p: Prog)
    requires Laid(p)
    ensures Finished(p).buf.Size() >= p.buf.Size()
    ensures Finished(p).ops == p.ops && Finished(p).pos == p.pos
  {
  }

  /** The code ends behind the last operation with its pool and a padding word at most, and no barrier. */
  lemma NoBarrierAtEnd(p: Prog)
    requires Laid(p)
    ensures var q := Finished(p);
            && p.kinds <= q.kinds && |q.kinds| <= |p.kinds| + |p.buf.pool| + 2
            && forall at | |p.kinds| <= at < |q.kinds| :: q.kinds[at].Pad? || q.kinds[at].Slot?
  {
    hide Budget, Flush, OpOk, Unshared;
    LaidHasBudget(p);
    if p.buf.pool != [] {
      FlushedKinds(p, false);
      FlushedCode(p.buf, false);
    }
  }

  /** Resolving one jump touches its own load or its own slot, nothing else. */
  lemma WriteTouchesOnly(q: Prog, words: seq<Word>, i: nat, at: nat, w: Word, j: nat)
    requires Laid(q) && q.buf.pool == [] && |words| == |q.Code()|
    requires i < |q.ops| && j < |q.ops| && i != j && q.ops[i].Load? && !q.ops[i].isReusable
    requires at < |words| && (at == q.pos[i] || at == SlotOf(q, i))
    ensures var r := words[at := w];
            && q.pos[j] < |words| && r[q.pos[j]] == words[q.pos[j]]
            && (q.ops[j].Load? ==> 0 <= SlotOf(q, j) < |words| && r[SlotOf(q, j)] == words[SlotOf(q, j)])
  {
    hide Budget, BranchWord, SameLoad, OffsetField, LiteralIndex;
    NothingPends(q);
    assert OpOk(q, i) && OpOk(q, j);
    if q.ops[j].Load? {
      assert Unshared(q, i, j);
    }
  }

  lemma NothingPends(q: Prog)
    requires Budget(q.buf) && q.buf.pool == []
    ensures q.buf.loads == []
  {
  }

  lemma WriteKeepsOthers(a: Asm, q: Prog, base: nat, words: seq<Word>, k: nat, at: nat, w: Word)
    requires Laid(q) && q.buf.pool == [] && k < |a.jumps|
    requires forall j | 0 <= j < |a.jumps| :: a.jumps[j].op < |q.ops|
    requires forall i, j | 0 <= i < j < |a.jumps| :: a.jumps[i].op < a.jumps[j].op
    requires ResolvedOk(a, q, base, words, k)
    requires var i := a.jumps[k].op; q.ops[i].Load? && !q.ops[i].isReusable
                                     && at < |words| && (at == q.pos[i] || at == SlotOf(q, i))
    requires JumpDone(q, base, words[at := w], a.jumps[k])
    ensures ResolvedOk(a, q, base, words[at := w], k + 1)
  {
    hide Laid, SlotOf, BranchWord;
    var i, r := a.jumps[k].op, words[at := w];
    LaidShape(q);
    forall j | 0 <= j < k + 1
      ensures JumpDone(q, base, r, a.jumps[j])
    {
      if j < k {
        assert JumpDone(q, base, words, a.jumps[j]);
        WriteTouchesOnly(q, words, i, at, w, a.jumps[j].op);
      }
    }
    forall j | 0 <= j < |q.ops| && !(exists m :: 0 <= m < k + 1 && a.jumps[m].op == j)
      ensures Intact(q, r, j)
    {
      assert a.jumps[k].op != j;
      assert Intact(q, words, j);
      WriteTouchesOnly(q, words, i, at, w, j);
    }
    WriteMissesBarriers(q, i, at);
  }

  lemma WriteMissesBarriers(q: Prog, i: nat, at: nat)
    requires Laid(q) && q.buf.pool == [] && i < |q.ops| && q.ops[i].Load?
    requires at < |q.kinds| && (at == q.pos[i] || at == SlotOf(q, i))
    ensures !q.kinds[at].Barrier?
  {
    hide SameLoad, LiteralIndex;
    NothingPends(q);
    assert OpOk(q, i);
  }

  /** The next jump is as it was laid out, so it can be resolved. */
  lemma NextIsLinkable(a: Asm, base: nat, words: seq<Word>, k: nat)
    requires Valid(a) && Fits(a, base) && k < |a.jumps|
    requires forall j | 0 <= j < |a.jumps| :: a.jumps[j].op < |a.prog.ops|
    requires var q := Finished(a.prog); Laid(q) && q.buf.pool == [] && ResolvedOk(a, q, base, words, k)
    ensures var q, i := Finished(a.prog), a.jumps[k].op;
            && JumpOk(q, i) && Intact(q, words, i) && !q.kinds[q.pos[i]].Barrier?
            && |words| == |q.Code()| && Linkable(words, base, a.JumpEntry(k))
            && LiteralIndex(words[q.pos[i]], q.pos[i]) == SlotOf(q, i)
            && words[SlotOf(q, i)] == q.ops[i].constant && SlotOf(q, i) != q.pos[i]
  {
    hide Budget, Shaped, Flush, Unshared, Reaches, BranchWord, IsLiteralLoad, Head, LiteralIndex;
    var q, i := Finished(a.prog), a.jumps[k].op;
    LaidShape(q);
    FinishGrows(a.prog);
    assert JumpOk(a.prog, i);
    assert OpOk(q, i);
    NothingPends(q);
    assert !exists j :: 0 <= j < k && a.jumps[j].op == i;
    assert Intact(q, words, i);
    if q.ops[i].target.To? {
      TargetFits(a, base, i);
    }
  }

  lemma EntryFields(a: Asm, k: nat)
    requires k < |a.jumps| && a.jumps[k].op < |a.prog.pos|
    ensures var entry := a.JumpEntry(k);
            entry / 4 == a.prog.pos[a.jumps[k].op] && (entry % 2 == 1 <==> a.jumps[k].usePool)
  {
  }

  lemma ResolveStep(a: Asm, base: nat, words: seq<Word>, k: nat)
    requires Valid(a) && Fits(a, base) && k < |a.jumps|
    requires forall j | 0 <= j < |a.jumps| :: a.jumps[j].op < |a.prog.ops|
    requires var q := Finished(a.prog); Laid(q) && q.buf.pool == [] && ResolvedOk(a, q, base, words, k)
    ensures Linkable(words, base, a.JumpEntry(k))
    ensures ResolvedOk(a, Finished(a.prog), base, ResolveJump(words, base, a.JumpEntry(k)), k + 1)
  {
    hide Valid, Laid, Budget, Finished, Reaches, BranchWord, IsLiteralLoad, LiteralIndex, Condition, LinkBranch,
         ResolvedOk, TargetOk, Intact, DestRegister;
    ValidIsLaid(a);
    var q, i := Finished(a.prog), a.jumps[k].op;
    FinishGrows(a.prog);
    NextIsLinkable(a, base, words, k);
    LaidShape(q);
    var slot := SlotOf(q, i);
    EntryFields(a, k);
    if q.ops[i].target.Unlinked? {
      assert words == words[slot := UNLINKED];
      WriteKeepsOthers(a, q, base, words, k, slot, UNLINKED);
    } else {
      TargetFits(a, base, i);
      LinkBranchSettles(a, q, base, words, k, q.ops[i].target.dst);
    }
  }

  /** linkBranch settles the jump: in range and not kept in the pool, it becomes a branch. */
  lemma LinkBranchSettles(a: Asm, q: Prog, base: nat, words: seq<Word>, k: nat, l: Label)
    requires Laid(q) && q.buf.pool == [] && k < |a.jumps|
    requires forall j | 0 <= j < |a.jumps| :: a.jumps[j].op < |q.ops|
    requires forall i, j | 0 <= i < j < |a.jumps| :: a.jumps[i].op < a.jumps[j].op
    requires ResolvedOk(a, q, base, words, k)
    requires base % 4 == 0 && l.offset % 4 == 0 && base + l.offset < 0x1_0000_0000
    requires var i := a.jumps[k].op;
             && JumpOk(q, i) && q.ops[i].target == To(l)
             && q.pos[i] < |words| == |q.Code()| && Intact(q, words, i)
             && SlotOf(q, i) == LiteralIndex(words[q.pos[i]], q.pos[i]) != q.pos[i]
    ensures var r := LinkBranch(words, base, q.pos[a.jumps[k].op], base + l.offset, a.jumps[k].usePool);
            ResolvedOk(a, q, base, r, k + 1)
  {
    hide Laid, ResolvedOk, BranchWord, LiteralIndex, Condition;
    var i := a.jumps[k].op;
    LaidShape(q);
    var at, slot := q.pos[i], SlotOf(q, i);
    var diff := l.offset / 4 - (at + 2);
    assert (base + l.offset - (base + 4 * (at + 2))) / 4 == diff;
    if !a.jumps[k].usePool && BOFFSET_MIN <= diff <= BOFFSET_MAX {
      WriteKeepsOthers(a, q, base, words, k, at, BranchWord(Condition(words[at]), diff));
    } else {
      WriteKeepsOthers(a, q, base, words, k, slot, base + l.offset);
    }
  }

  /** After the whole loop every jump is resolved and everything else is in place. */
  lemma {:induction false} ResolvedFrom(a: Asm, base: nat, k: nat)
    requires Valid(a) && Fits(a, base) && k <= |a.jumps|
    requires forall j | 0 <= j < |a.jumps| :: a.jumps[j].op < |a.prog.ops|
    requires var q := Finished(a.prog); Laid(q) && q.buf.pool == [] && q.ops == a.prog.ops
    ensures ResolvedOk(a, Finished(a.prog), base, Resolved(a, base, k), k)
  {
    hide Valid, Laid, Budget, Finished, Fits, Linkable, ResolveJump, ResolvedOk;
    ValidIsLaid(a);
    LaidShape(a.prog);
    if k == 0 {
      LaidIsResolved(a, Finished(a.prog), base);
    } else {
      ResolvedFrom(a, base, k - 1);
      ResolveStep(a, base, Resolved(a, base, k - 1), k - 1);
    }
  }

  lemma ValidIsLaid(a: Asm)
    requires Valid(a)
    ensures Laid(a.prog) && Budget(a.prog.buf) && JumpsOk(a)
  {
  }

  lemma LaidIsResolved(a: Asm, q: Prog, base: nat)
    requires Laid(q) && q.buf.pool == []
    requires forall j | 0 <= j < |a.jumps| :: a.jumps[j].op < |q.ops|
    ensures ResolvedOk(a, q, base, q.Code(), 0)
  {
    LaidShape(q);
    hide Laid;
    forall i | 0 <= i < |q.ops|
      ensures Intact(q, q.Code(), i)
    {
      LaidIsIntact(q, i);
    }
  }

  lemma LaidIsIntact(q: Prog, i: nat)
    requires Laid(q) && q.buf.pool == [] && i < |q.ops|
    ensures q.pos[i] < |q.Code()| && Intact(q, q.Code(), i)
  {
    hide SameLoad, LiteralIndex, BranchWord;
    NothingPends(q);
    assert OpOk(q, i);
  }

  /** The copy: its size is a multiple of 8 and `ResolvedOk` holds of all jumps. */
  lemma CopyResolvesAll(a: Asm, base: nat)
    requires Valid(a) && Fits(a, base)
    ensures var q := Finished(a.prog);
            && Laid(q) && q.buf.pool == [] && q.ops == a.prog.ops
            && (forall j | 0 <= j < |a.jumps| :: a.jumps[j].op < |q.ops|)
            && ResolvedOk(a, q, base, Copied(a, base), |a.jumps|)
            && 4 * |Copied(a, base)| % 8 == 0
  {
    hide Budget, Shaped, OpOk, Unshared, Finished, ResolvedOk, Resolved;
    LaidShape(a.prog);
    JumpsStandInCode(a);
    FinishGrows(a.prog);
    FinishKeepsLaid(a.prog);
    ResolvedFrom(a, base, |a.jumps|);
    CopyKeepsSize(a, |a.jumps|, base);
  }

  lemma {:induction false} CopyKeepsSize(a: Asm, k: nat, base: nat)
    requires Budget(a.prog.buf) && k <= |a.jumps|
    requires forall j | 0 <= j < |a.jumps| :: a.jumps[j].op < |a.prog.pos|
    ensures |Resolved(a, base, k)| == |Finished(a.prog).Code()|
  {
    hide Finished, Linkable, ResolveJump, Budget;
    if k > 0 {
      CopyKeepsSize(a, k - 1, base);
    }
  }

  /** What becomes of one recorded jump. */
  ghost predicate JumpCopied(words: seq<Word>, base: nat, at: nat, jump: Op, usePool: bool)
    requires jump.Load? && at < |words|
  {
    var w, cond := words[at], Condition(jump.insn);
    if jump.target.Unlinked? then ReadsSlot(words, at, UNLINKED) && SameLoad(w, jump.insn)
    else
      var diff := jump.target.dst.offset / 4 - (at + 2);
      if !usePool && BOFFSET_MIN <= diff <= BOFFSET_MAX
      then IsBranch(w) && Condition(w) == cond && 4 * BranchIndex(w, at) == jump.target.dst.offset
      else ReadsSlot(words, at, base + jump.target.dst.offset) && SameLoad(w, jump.insn)
  }

  predicate ReadsSlot(words: seq<Word>, at: nat, value: int)
    requires at < |words|
  {
    0 <= LiteralIndex(words[at], at) < |words| && words[LiteralIndex(words[at], at)] == value
  }

  /**
    After the copy a linked jump is a branch to its label under its own condition
    or a load of the label's final address; one kept in the pool is still a load,
    and an unlinked one still reads 0xffffffff.
   */
  lemma EveryJumpCopied(a: Asm, base: nat, k: nat)
    requires Valid(a) && Fits(a, base) && k < |a.jumps|
    ensures var q, words, i := Finished(a.prog), Copied(a, base), a.jumps[k].op;
            && 4 * |words| % 8 == 0 && i < |q.ops| == |q.pos| && q.ops[i].Load? && q.pos[i] < |words|
            && JumpCopied(words, base, q.pos[i], q.ops[i], a.jumps[k].usePool)
  {
    hide Budget, Shaped, Unshared, Finished, Copied, BranchWord, BranchOffset, IsBranch, IsLiteralLoad, Condition,
         LiteralIndex, DestRegister, Reaches;
    CopyResolvesAll(a, base);
    FinishGrows(a.prog);
    var q, words, i := Finished(a.prog), Copied(a, base), a.jumps[k].op;
    LaidShape(q);
    NothingPends(q);
    assert OpOk(q, i);
    assert JumpOk(a.prog, i);
    assert JumpDone(q, base, words, a.jumps[k]);
    if q.ops[i].target.To? {
      TargetFits(a, base, i);
      var at, l := q.pos[i], q.ops[i].target.dst;
      var diff := l.offset / 4 - (at + 2);
      if !a.jumps[k].usePool && BOFFSET_MIN <= diff <= BOFFSET_MAX {
        BranchWordFields(Condition(q.Code()[at]), diff);
      }
    }
  }
}
