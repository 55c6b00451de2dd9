/**
  The code stream with its history: which logical operation each word belongs
  to. `Laid` says that the physical stream is the emitted operations in order,
  interrupted only by pools behind barriers; every operation of the buffer
  keeps it.
 */
module CodeLayout {
  import opened ArmWord
  import opened ConstantPool

  // A place in the code: its byte offset, and the operation that comes next.
  datatype Label = Label(offset: nat, index: nat)

  datatype Target = Unlinked | To(dst: Label)

  // What the assembler was asked to emit.
  datatype Op =
    | Insn(word: Word)
    | Load(insn: Word, constant: Word, isReusable: bool, target: Target)

  // What a word of the stream is there for.
  datatype Kind = OpAt(index: nat) | Barrier(to: nat) | Pad | Slot

  // Where the constant of a load is kept.
  datatype Place = Entry(index: nat) | At(slot: int)

  datatype Prog = Prog(buf: Buf, ops: seq<Op>, pos: seq<nat>, kinds: seq<Kind>)
  {
    function Code(): seq<Word> {
      buf.code
    }

    /** The word index of operation `i`, or the end of the code. */
    function Next(i: nat): nat
      requires i <= |pos|
    {
      if i < |pos| then pos[i] else |buf.code|
    }

    /** Execution that reaches word `at` goes on at word `to`, over a barrier at most. */
    predicate Lands(at: nat, to: nat) {
      at == to || (at < |kinds| && kinds[at] == Barrier(to))
    }

    function PlaceOf(i: nat): Place
      requires i < |pos| && pos[i] < |buf.code|
    {
      var at := pos[i];
      if buf.Pending(at) then Entry(buf.PoolIndex(at)) else At(LiteralIndex(buf.code[at], at))
    }
  }

  const NOTHING := Prog(EMPTY, [], [], [])

  // The invariant ----------------------------------------------------------

  ghost predicate Shaped(p: Prog) {
    && |p.kinds| == |p.Code()| && |p.pos| == |p.ops| && |p.buf.reusable| == |p.buf.pool|
    && (forall i | 0 <= i < |p.pos| :: p.pos[i] < |p.kinds| && p.kinds[p.pos[i]] == OpAt(i))
    && (forall at {:trigger PositionOk(p, at)} | 0 <= at < |p.kinds| && p.kinds[at].OpAt? :: PositionOk(p, at))
    && (forall at {:trigger p.buf.Pending(at)} | 0 <= at && p.buf.Pending(at) :: PendingOk(p, at))
    && (forall at | 0 <= at < |p.kinds| && p.kinds[at].Barrier? :: BarrierOk(p, at))
  }

  /** A word labelled as an operation's is that operation's word. */
  ghost predicate PositionOk(p: Prog, at: nat)
    requires at < |p.kinds| && p.kinds[at].OpAt?
  {
    p.kinds[at].index < |p.pos| && p.pos[p.kinds[at].index] == at
  }

  ghost predicate PendingOk(p: Prog, at: nat) {
    && at < |p.kinds| && p.kinds[at].OpAt?
    && var i := p.kinds[at].index;
       i < |p.pos| == |p.ops| && p.pos[i] == at && p.ops[i].Load?
  }

  ghost predicate BarrierOk(p: Prog, at: nat)
    requires at < |p.kinds| == |p.Code()| && p.kinds[at].Barrier?
  {
    var to := p.kinds[at].to;
    && at < to <= |p.Code()|
    && to - at - 2 <= 0x1000
    && p.Code()[at] == BranchWord(AL, to - at - 2)
    && (to == |p.Code()| ==> p.buf.pool == [])
  }

  /** Operation `i` stands in the stream; a load delivers its constant. */
  ghost predicate OpOk(p: Prog, i: nat)
    requires i < |p.ops| == |p.pos| && p.pos[i] < |p.Code()| == |p.kinds|
    requires |p.buf.reusable| == |p.buf.pool|
  {
    var at := p.pos[i];
    match p.ops[i]
    case Insn(word) =>
      p.Code()[at] == word && !p.buf.Pending(at)
    case Load(insn, constant, isReusable, _) =>
      && SameLoad(p.Code()[at], insn)
      && match p.PlaceOf(i)
         case Entry(k) =>
           && k < |p.buf.pool| && p.Code()[at] % 2 == 1
           && p.buf.pool[k] == constant && p.buf.reusable[k] == isReusable
         case At(s) =>
           && OffsetField(p.Code()[at]) % 4 == 0 && p.Code()[at] % 2 == 0
           && 0 <= s < |p.kinds| && p.kinds[s] == Slot && p.Code()[s] == constant
  }

  /** No other load reads the constant of a load that was not reusable. */
  ghost predicate Unshared(p: Prog, i: nat, j: nat)
    requires i < |p.pos| && j < |p.pos| && p.pos[i] < |p.Code()| && p.pos[j] < |p.Code()|
  {
    p.PlaceOf(i) != p.PlaceOf(j)
  }

  /** The stream up to the last operation. */
  ghost predicate Laid(p: Prog) {
    && Budget(p.buf)
    && Shaped(p)
    && (forall i | 0 <= i < |p.ops| :: OpOk(p, i))
    && (forall i, j | 0 <= i < |p.ops| && 0 <= j < |p.ops| && i != j
                      && p.ops[i].Load? && p.ops[j].Load? && !p.ops[i].isReusable :: Unshared(p, i, j))
    && (|p.ops| > 0 ==> p.Lands(0, p.pos[0]))
    && (forall i | 0 < i < |p.ops| :: p.Lands(p.pos[i - 1] + 1, p.pos[i]))
  }

  lemma LaidShape(q: Prog)
    requires Laid(q)
    ensures |q.kinds| == |q.Code()| && |q.pos| == |q.ops| && |q.buf.reusable| == |q.buf.pool|
    ensures forall i | 0 <= i < |q.pos| :: q.pos[i] < |q.Code()| && q.kinds[q.pos[i]] == OpAt(i)
  {
  }

  /** More operations may follow: falling off the last one reaches the end. */
  ghost predicate Open(p: Prog) {
    && Laid(p)
    && p.Lands(if p.ops == [] then 0 else p.pos[|p.ops| - 1] + 1, |p.Code()|)
  }

  /** Execution from the label reaches the operation the label stands for. */
  predicate Reaches(p: Prog, l: Label) {
    l.offset % 4 == 0 && l.index <= |p.pos| && p.Lands(l.offset / 4, p.Next(l.index))
  }

  // The operations ---------------------------------------------------------

  function FlushKinds(p: Prog, useBarrier: bool): seq<Kind>
    requires p.buf.pool != []
  {
    var start := PoolStart(p.buf, useBarrier);
    var size := start + |p.buf.pool|;
    seq(size - |p.Code()|, k requires 0 <= k =>
      if useBarrier && k == 0 then Barrier(size)
      else if |p.Code()| + k < start then Pad else Slot)
  }

  function Flushed(p: Prog, useBarrier: bool): Prog
    requires Budget(p.buf)
  {
    if p.buf.pool == [] then p
    else p.(buf := Flush(p.buf, useBarrier), kinds := p.kinds + FlushKinds(p, useBarrier))
  }

  /** ensureSpace(insn) and isAligned(insn) */
  function ReserveInsn(p: Prog, insn: nat): Prog
    requires Budget(p.buf)
  {
    if NoSpaceForInsn(p.buf, insn) then Flushed(p, true) else p
  }

  /** ensureSpace(insn, const) and, with (4, 8), size() */
  function Reserve(p: Prog, insn: nat, consts: nat): Prog
    requires Budget(p.buf)
  {
    if NoSpaceFor(p.buf, insn, consts) then Flushed(p, true) else p
  }

  /** The operation `op` stands at the end, the buffer having become `buf`. */
  function Extend(p: Prog, buf: Buf, op: Op): Prog {
    Prog(buf, p.ops + [op], p.pos + [|p.Code()|], p.kinds + [OpAt(|p.ops|)])
  }

  function EmitInsn(p: Prog, w: Word): Prog
    requires Budget(p.buf)
  {
    var q := ReserveInsn(p, 4);
    Extend(q, ChargeInsn(Append(q.buf, w)), Insn(w))
  }

  function EmitLoad(p: Prog, insn: Word, constant: Word, isReusable: bool): Prog
    requires Budget(p.buf)
  {
    FlushKeepsBudget(p.buf, true);
    var q := Reserve(p, 4, 4);
    Extend(q, QueueLoad(q.buf, insn, constant, isReusable), Load(insn, constant, isReusable, Unlinked))
  }

  /** linkJump: the constant of load `i`, wherever it is kept, becomes the label. */
  function Link(p: Prog, i: nat, l: Label): Prog
    requires Laid(p) && i < |p.ops| && p.ops[i].Load?
  {
    var constant: Word := l.offset % 0x1_0000_0000;
    assert OpOk(p, i);
    var buf := match p.PlaceOf(i)
               case Entry(k) => p.buf.(pool := p.buf.pool[k := constant])
               case At(s) => p.buf.(code := p.buf.code[s := constant]);
    p.(buf := buf, ops := p.ops[i := p.ops[i].(constant := constant, target := To(l))])
  }

  /** The stream with its history moves exactly as the buffer alone does. */
  lemma BufferFollows(p: Prog, insn: nat, consts: nat, w: Word, constant: Word, isReusable: bool)
    requires Budget(p.buf)
    ensures ReserveInsn(p, insn).buf == FlushForInsn(p.buf, insn)
    ensures Reserve(p, insn, consts).buf == FlushFor(p.buf, insn, consts)
    ensures EmitInsn(p, w).buf == PutInt(p.buf, w)
    ensures EmitLoad(p, w, constant, isReusable).buf == PutIntWithConstantInt(p.buf, w, constant, isReusable)
  {
    hide Budget, Flush, QueueLoad;
  }

  // A flush keeps the layout ------------------------------------------------

  lemma FlushedKinds(p: Prog, useBarrier: bool)
    requires Laid(p) && p.buf.pool != []
    ensures var r, start := Flushed(p, useBarrier), PoolStart(p.buf, useBarrier);
            && |r.kinds| == |r.Code()| == start + |p.buf.pool|
            && (forall at | 0 <= at < |p.kinds| :: r.kinds[at] == p.kinds[at])
            && (forall at | start <= at < |r.kinds| :: r.kinds[at] == Slot)
            && (forall at | |p.kinds| <= at < |r.kinds| :: !r.kinds[at].OpAt?)
            && (forall at | |p.kinds| <= at < |r.kinds| && r.kinds[at].Barrier? ::
                  useBarrier && at == |p.kinds| && r.kinds[at].to == |r.kinds|)
            && (useBarrier ==> r.kinds[|p.kinds|] == Barrier(|r.kinds|))
  {
    hide Budget, PatchedWord, BranchWord;
    FlushedCode(p.buf, useBarrier);
  }

  /** Every operation survives: a patched load reads its own pool entry. */
  lemma FlushKeepsOp(p: Prog, useBarrier: bool, i: nat)
    requires Laid(p) && p.buf.pool != [] && i < |p.ops|
    ensures var r := Flushed(p, useBarrier);
            && |r.kinds| == |r.Code()| && p.pos[i] < |r.Code()|
            && OpOk(r, i)
            && (p.ops[i].Load? ==> r.PlaceOf(i) == FlushedPlace(p, useBarrier, p.PlaceOf(i)))
  {
    hide Budget, IsLiteralLoad, AddsOffset, OffsetField, Head, ResolveLoad, LiteralIndex, Flush;
    var start := PoolStart(p.buf, useBarrier);
    FlushKeepsBudget(p.buf, useBarrier);
    FlushedCode(p.buf, useBarrier);
    FlushedKinds(p, useBarrier);
    var at := p.pos[i];
    assert OpOk(p, i);
    if p.buf.Pending(at) {
      ResolveLoadFields(p.Code()[at], start - at, at);
    } else if p.ops[i].Load? {
      var s := LiteralIndex(p.Code()[at], at);
      assert !p.buf.Pending(s);
    }
  }

  function FlushedPlace(p: Prog, useBarrier: bool, place: Place): Place
    requires p.buf.pool != []
  {
    match place
    case Entry(k) => At(PoolStart(p.buf, useBarrier) + k)
    case At(s) => place
  }

  lemma FlushKeepsShape(p: Prog, useBarrier: bool)
    requires Laid(p) && p.buf.pool != []
    ensures Shaped(Flushed(p, useBarrier))
  {
    hide Budget, Flush, BranchWord, PatchedWord, OpOk, Unshared;
    FlushKeepsBudget(p.buf, useBarrier);
    FlushedKinds(p, useBarrier);
    var r := Flushed(p, useBarrier);
    assert r.buf.loads == [] && r.buf.pool == [] && r.buf.reusable == [];
    forall at | 0 <= at < |r.kinds| && r.kinds[at].OpAt?
      ensures PositionOk(r, at)
    {
      assert PositionOk(p, at);
    }
    forall at | 0 <= at < |r.kinds| && r.kinds[at].Barrier?
      ensures BarrierOk(r, at)
    {
      FlushKeepsBarrier(p, useBarrier, at);
    }
  }

  lemma FlushKeepsBarrier(p: Prog, useBarrier: bool, at: nat)
    requires Laid(p) && p.buf.pool != []
    requires var r := Flushed(p, useBarrier); at < |r.kinds| == |r.Code()| && r.kinds[at].Barrier?
    ensures BarrierOk(Flushed(p, useBarrier), at)
  {
    hide Flush, BranchWord, OpOk, Unshared;
    FlushKeepsBudget(p.buf, useBarrier);
    FlushedCode(p.buf, useBarrier);
    FlushedKinds(p, useBarrier);
    if at < |p.kinds| {
      assert BarrierOk(p, at);
      assert !p.buf.Pending(at);
    }
  }

  /** Execution still goes from each operation to the next, over the barrier to the end. */
  lemma FlushKeepsWay(p: Prog, useBarrier: bool)
    requires Laid(p) && p.buf.pool != []
    ensures var r := Flushed(p, useBarrier);
            && |r.kinds| == |r.Code()| && r.buf.reusable == [] && r.buf.pool == []
            && (|r.ops| > 0 ==> r.Lands(0, r.pos[0]))
            && (forall i | 0 < i < |r.ops| :: r.Lands(r.pos[i - 1] + 1, r.pos[i]))
            && (useBarrier && Open(p) ==> r.Lands(if r.ops == [] then 0 else r.pos[|r.ops| - 1] + 1, |r.Code()|))
  {
    hide Budget, Flush, OpOk, Unshared, PendingOk, PositionOk;
    FlushKeepsBudget(p.buf, useBarrier);
    FlushedKinds(p, useBarrier);
  }

  lemma FlushKeepsLaid(p: Prog, useBarrier: bool)
    requires Laid(p)
    ensures Laid(Flushed(p, useBarrier))
    ensures useBarrier && Open(p) ==> Open(Flushed(p, useBarrier))
  {
    if p.buf.pool != [] {
      hide Budget, Flush, OpOk, Unshared, Shaped, Prog.Lands;
      var r := Flushed(p, useBarrier);
      LaidShape(p);
      FlushKeepsBudget(p.buf, useBarrier);
      FlushKeepsShape(p, useBarrier);
      FlushKeepsWay(p, useBarrier);
      forall i | 0 <= i < |r.ops|
        ensures OpOk(r, i)
      {
        FlushKeepsOp(p, useBarrier, i);
      }
      forall i, j | 0 <= i < |r.ops| && 0 <= j < |r.ops| && i != j
                    && r.ops[i].Load? && r.ops[j].Load? && !r.ops[i].isReusable
        ensures Unshared(r, i, j)
      {
        FlushKeepsUnshared(p, useBarrier, i, j);
      }
    }
  }

  lemma FlushKeepsUnshared(p: Prog, useBarrier: bool, i: nat, j: nat)
    requires Laid(p) && p.buf.pool != [] && i < |p.ops| && j < |p.ops|
    requires p.ops[i].Load? && p.ops[j].Load? && Unshared(p, i, j)
    requires var r := Flushed(p, useBarrier); p.pos[i] < |r.Code()| && p.pos[j] < |r.Code()|
    ensures Unshared(Flushed(p, useBarrier), i, j)
  {
    hide Budget, Flush, BranchWord;
    FlushKeepsOp(p, useBarrier, i);
    FlushKeepsOp(p, useBarrier, j);
    assert OpOk(p, i) && OpOk(p, j);
  }

  /** A label taken before a flush still leads to its operation. */
  lemma FlushKeepsLabel(p: Prog, useBarrier: bool, l: Label)
    requires Laid(p) && Reaches(p, l)
    requires useBarrier || l.index < |p.pos|
    ensures Reaches(Flushed(p, useBarrier), l)
  {
    if p.buf.pool != [] {
      hide Budget, Flush, OpOk, Unshared;
      FlushedKinds(p, useBarrier);
      var at := l.offset / 4;
      if at < |p.kinds| && p.kinds[at].Barrier? {
        assert BarrierOk(p, at);
      }
    }
  }

  // Emitting keeps the layout -----------------------------------------------

  /** Growing the code by an operation leaves what was there in place. */
  lemma ExtendKeepsRest(p: Prog, buf: Buf, op: Op)
    requires Open(p) && |buf.code| == |p.Code()| + 1 && p.Code() <= buf.code
    requires |buf.reusable| == |buf.pool|
    requires forall at {:trigger buf.Pending(at)} | 0 <= at ::
      buf.Pending(at) == (p.buf.Pending(at) || (op.Load? && at == |p.Code()|))
    ensures var r := Extend(p, buf, op);
            && Shaped(r)
            && (forall i | 0 < i < |r.ops| :: r.Lands(r.pos[i - 1] + 1, r.pos[i]))
            && r.Lands(0, r.pos[0])
            && (forall l | Reaches(p, l) :: Reaches(r, l))
  {
    hide Budget, Shaped, OpOk, Unshared;
    LaidShape(p);
    ExtendKeepsShape(p, buf, op);
    var r := Extend(p, buf, op);
    assert forall at | 0 <= at < |p.kinds| :: r.kinds[at] == p.kinds[at];
  }

  lemma ExtendKeepsShape(p: Prog, buf: Buf, op: Op)
    requires Shaped(p) && |buf.code| == |p.Code()| + 1 && p.Code() <= buf.code
    requires |buf.reusable| == |buf.pool|
    requires forall at {:trigger buf.Pending(at)} | 0 <= at ::
      buf.Pending(at) == (p.buf.Pending(at) || (op.Load? && at == |p.Code()|))
    ensures Shaped(Extend(p, buf, op))
  {
    hide BranchWord, Buf.Pending;
    var r := Extend(p, buf, op);
    forall at {:trigger buf.Pending(at)} | 0 <= at && buf.Pending(at)
      ensures PendingOk(r, at)
    {
      if at < |p.Code()| {
        assert p.buf.Pending(at);
        assert PendingOk(p, at);
      }
    }
    forall at | 0 <= at < |r.kinds| && r.kinds[at].OpAt?
      ensures PositionOk(r, at)
    {
      if at < |p.kinds| {
        assert PositionOk(p, at);
      }
    }
    forall at | 0 <= at < |r.kinds| && r.kinds[at].Barrier?
      ensures BarrierOk(r, at)
    {
      assert BarrierOk(p, at);
    }
  }

  lemma EmitInsnKeepsOpen(p: Prog, w: Word)
    requires Open(p)
    ensures Open(EmitInsn(p, w))
    ensures forall l | Reaches(p, l) :: Reaches(EmitInsn(p, w), l)
  {
    hide Flush, BranchWord, SameLoad;
    FlushKeepsLaid(p, true);
    FlushKeepsBudget(p.buf, true);
    var q := ReserveInsn(p, 4);
    forall l | Reaches(p, l)
      ensures Reaches(q, l)
    {
      FlushKeepsLabel(p, true, l);
    }
    AppendInsnKeepsOpen(q, w);
  }

  lemma AppendInsnKeepsOpen(p: Prog, w: Word)
    requires Open(p) && !NoSpaceForInsn(p.buf, 4)
    ensures var r := Extend(p, ChargeInsn(Append(p.buf, w)), Insn(w));
            Open(r) && forall l | Reaches(p, l) :: Reaches(r, l)
  {
    hide Budget, OpOk, Shaped, Prog.PlaceOf, Append, ChargeInsn;
    var r := Extend(p, ChargeInsn(Append(p.buf, w)), Insn(w));
    LaidShape(p);
    AppendedFields(p.buf, w);
    AppendKeepsBudget(p.buf, w);
    ExtendKeepsRest(p, r.buf, Insn(w));
    forall i | 0 <= i < |r.ops|
      ensures OpOk(r, i)
      ensures i < |p.ops| && r.ops[i].Load? ==> r.PlaceOf(i) == p.PlaceOf(i)
    {
      AppendInsnKeepsOp(p, w, i);
    }
    forall i, j | 0 <= i < |r.ops| && 0 <= j < |r.ops| && i != j
                  && r.ops[i].Load? && r.ops[j].Load? && !r.ops[i].isReusable
      ensures Unshared(r, i, j)
    {
      assert Unshared(p, i, j);
    }
  }

  lemma AppendedFields(b: Buf, w: Word)
    ensures var r := ChargeInsn(Append(b, w));
            r.code == b.code + [w] && r.pool == b.pool && r.reusable == b.reusable && r.loads == b.loads
  {
  }

  lemma AppendInsnKeepsOp(p: Prog, w: Word, i: nat)
    requires Open(p) && i <= |p.ops|
    ensures var r := Extend(p, ChargeInsn(Append(p.buf, w)), Insn(w));
            && |r.kinds| == |r.Code()| && |r.pos| == |r.ops| && r.pos[i] < |r.Code()|
            && |r.buf.reusable| == |r.buf.pool| && OpOk(r, i)
            && (i < |p.ops| && r.ops[i].Load? ==> r.PlaceOf(i) == p.PlaceOf(i))
  {
    hide Budget, BranchWord, SameLoad, BarrierOk, PositionOk, OffsetField, LiteralIndex;
    if i < |p.ops| {
      assert OpOk(p, i);
    } else {
      assert p.buf.Pending(|p.Code()|) ==> PendingOk(p, |p.Code()|);
    }
  }

  lemma EmitLoadKeepsOpen(p: Prog, insn: Word, constant: Word, isReusable: bool)
    requires Open(p) && IsLiteralLoad(insn) && AddsOffset(insn)
    ensures Open(EmitLoad(p, insn, constant, isReusable))
    ensures forall l | Reaches(p, l) :: Reaches(EmitLoad(p, insn, constant, isReusable), l)
  {
    hide Flush, BranchWord, SameLoad, QueueLoad, IsLiteralLoad, AddsOffset;
    FlushKeepsLaid(p, true);
    FlushKeepsBudget(p.buf, true);
    var q := Reserve(p, 4, 4);
    forall l | Reaches(p, l)
      ensures Reaches(q, l)
    {
      FlushKeepsLabel(p, true, l);
    }
    QueueLoadKeepsOpen(q, insn, constant, isReusable);
  }

  lemma QueueLoadKeepsOpen(p: Prog, insn: Word, constant: Word, isReusable: bool)
    requires Open(p) && !NoSpaceFor(p.buf, 4, 4)
    requires IsLiteralLoad(insn) && AddsOffset(insn)
    ensures var r := Extend(p, QueueLoad(p.buf, insn, constant, isReusable),
                            Load(insn, constant, isReusable, Unlinked));
            Open(r) && forall l | Reaches(p, l) :: Reaches(r, l)
  {
    hide Budget, BranchWord, IsLiteralLoad, AddsOffset, QueueLoad, TagLoad, OpOk, PendingOk, BarrierOk, NoSpaceFor,
         QueuedPlace, Prog.PlaceOf;
    var op := Load(insn, constant, isReusable, Unlinked);
    var r := Extend(p, QueueLoad(p.buf, insn, constant, isReusable), op);
    QueueLoadKeepsBudget(p.buf, insn, constant, isReusable);
    QueueLoadFields(p.buf, insn, constant, isReusable);
    ExtendKeepsRest(p, r.buf, op);
    forall i | 0 <= i < |r.ops|
      ensures OpOk(r, i)
      ensures r.ops[i].Load? ==> r.PlaceOf(i) == QueuedPlace(p, constant, isReusable, i)
    {
      if i < |p.ops| {
        QueueLoadKeepsOp(p, insn, constant, isReusable, i);
      } else {
        QueueLoadAddsOp(p, insn, constant, isReusable);
      }
    }
    forall i, j | 0 <= i < |r.ops| && 0 <= j < |r.ops| && i != j
                  && r.ops[i].Load? && r.ops[j].Load? && !r.ops[i].isReusable
      ensures Unshared(r, i, j)
    {
      QueueLoadKeepsUnshared(p, constant, isReusable, op, i, j);
    }
  }

  function QueuedPlace(p: Prog, constant: Word, isReusable: bool, i: nat): Place
    requires Laid(p) && i <= |p.ops|
  {
    if i < |p.ops| then p.PlaceOf(i) else Entry(EntryFor(p.buf, constant, isReusable))
  }

  ghost predicate QueuedOpOk(p: Prog, r: Prog, constant: Word, isReusable: bool, i: nat)
    requires Laid(p) && i <= |p.ops|
  {
    && |r.kinds| == |r.Code()| && |r.pos| == |r.ops| && i < |r.pos| && r.pos[i] < |r.Code()|
    && |r.buf.reusable| == |r.buf.pool| && OpOk(r, i)
    && (r.ops[i].Load? ==> r.PlaceOf(i) == QueuedPlace(p, constant, isReusable, i))
  }

  lemma QueueLoadKeepsOp(p: Prog, insn: Word, constant: Word, isReusable: bool, i: nat)
    requires Open(p) && !NoSpaceFor(p.buf, 4, 4) && i < |p.ops|
    ensures QueuedOpOk(p, Extend(p, QueueLoad(p.buf, insn, constant, isReusable),
                                 Load(insn, constant, isReusable, Unlinked)),
                       constant, isReusable, i)
  {
    hide Budget, Shaped, OpOk, Unshared, QueueLoad, TagLoad, Buf.Pending, Prog.PlaceOf, Prog.Lands;
    QueueLoadFields(p.buf, insn, constant, isReusable);
    LaidShape(p);
    var r := Extend(p, QueueLoad(p.buf, insn, constant, isReusable), Load(insn, constant, isReusable, Unlinked));
    PendingStays(p.buf, r.buf, p.pos[i]);
    OpStays(p, r, i);
  }

  /** What a later state has to leave alone for operation `i` to stay as it is. */
  lemma OpStays(p: Prog, r: Prog, i: nat)
    requires i < |p.ops| == |p.pos| && p.pos[i] < |p.Code()| == |p.kinds| && |p.buf.reusable| == |p.buf.pool|
    requires |r.ops| == |r.pos| && |r.Code()| == |r.kinds| && |r.buf.reusable| == |r.buf.pool|
    requires p.ops <= r.ops && p.pos <= r.pos && p.kinds <= r.kinds && p.Code() <= r.Code()
    requires p.buf.pool <= r.buf.pool && p.buf.reusable <= r.buf.reusable
    requires r.buf.Pending(p.pos[i]) == p.buf.Pending(p.pos[i])
    requires OpOk(p, i)
    ensures OpOk(r, i) && r.PlaceOf(i) == p.PlaceOf(i)
  {
    hide SameLoad, OffsetField, Buf.Pending;
    assert r.Code()[p.pos[i]] == p.Code()[p.pos[i]];
  }

  lemma PendingStays(b: Buf, r: Buf, at: nat)
    requires r.loads == b.loads + [b.Size()] && at < |b.code|
    ensures r.Pending(at) == b.Pending(at)
  {
  }

  lemma QueueLoadAddsOp(p: Prog, insn: Word, constant: Word, isReusable: bool)
    requires Open(p) && !NoSpaceFor(p.buf, 4, 4)
    requires IsLiteralLoad(insn) && AddsOffset(insn)
    ensures QueuedOpOk(p, Extend(p, QueueLoad(p.buf, insn, constant, isReusable),
                                 Load(insn, constant, isReusable, Unlinked)),
                       constant, isReusable, |p.ops|)
  {
    hide Budget, BranchWord, IsLiteralLoad, AddsOffset, OffsetField, LiteralIndex, Head, QueueLoad, TagLoad, Unshared;
    QueueLoadFields(p.buf, insn, constant, isReusable);
    TagLoadFields(insn, EntryFor(p.buf, constant, isReusable));
  }

  /** The scan for a shared entry only ever picks entries of reusable constants. */
  lemma QueueLoadKeepsUnshared(p: Prog, constant: Word, isReusable: bool, op: Op, i: nat, j: nat)
    requires Laid(p) && i <= |p.ops| && j <= |p.ops| && i != j
    requires op.Load? && op.constant == constant && op.isReusable == isReusable
    requires var ops := p.ops + [op]; ops[i].Load? && ops[j].Load? && !ops[i].isReusable
    ensures QueuedPlace(p, constant, isReusable, i) != QueuedPlace(p, constant, isReusable, j)
  {
    hide Budget, BranchWord, SameLoad, OffsetField, LiteralIndex;
    if i < |p.ops| && j < |p.ops| {
      assert Unshared(p, i, j);
    } else {
      assert OpOk(p, if i < j then i else j);
    }
  }

  // Linking keeps the layout --------------------------------------------------

  lemma LinkKeepsBudget(p: Prog, i: nat, l: Label)
    requires Laid(p) && i < |p.ops| && p.ops[i].Load?
    ensures Budget(Link(p, i, l).buf)
  {
    hide BranchWord, SameLoad, Unshared, IsLiteralLoad, AddsOffset, OffsetField;
    var r := Link(p, i, l);
    assert OpOk(p, i);
    forall k | 0 <= k < |r.buf.loads|
      ensures LoadQueued(r.buf, r.buf.loads[k])
    {
      assert LoadQueued(p.buf, p.buf.loads[k]);
      assert p.buf.Pending(p.buf.loads[k] / 4);
    }
  }

  /** Linking writes the slot of its own jump and nothing another operation sees. */
  lemma LinkChangesOnly(p: Prog, i: nat, l: Label, j: nat)
    requires Laid(p) && i < |p.ops| && p.ops[i].Load? && !p.ops[i].isReusable && j < |p.ops|
    ensures var r := Link(p, i, l);
            && |r.kinds| == |r.Code()| && |r.pos| == |r.ops| && r.pos[j] < |r.Code()|
            && |r.buf.reusable| == |r.buf.pool| && OpOk(r, j)
            && r.Code()[r.pos[j]] == p.Code()[p.pos[j]]
            && (p.ops[j].Load? ==> r.PlaceOf(j) == p.PlaceOf(j))
  {
    hide Budget, BranchWord, SameLoad, OffsetField, LiteralIndex;
    assert OpOk(p, i) && OpOk(p, j);
    if i != j && p.ops[j].Load? {
      assert Unshared(p, i, j);
    }
  }

  lemma LinkKeepsShape(p: Prog, i: nat, l: Label)
    requires Laid(p) && i < |p.ops| && p.ops[i].Load? && !p.ops[i].isReusable
    ensures Shaped(Link(p, i, l))
    ensures forall m | Reaches(p, m) :: Reaches(Link(p, i, l), m)
  {
    hide Budget, BranchWord, SameLoad, OffsetField, LiteralIndex, Unshared;
    var r := Link(p, i, l);
    assert OpOk(p, i);
    forall at {:trigger r.buf.Pending(at)} | 0 <= at && r.buf.Pending(at)
      ensures PendingOk(r, at)
    {
      assert p.buf.Pending(at);
    }
    forall at | 0 <= at < |r.kinds| && r.kinds[at].OpAt?
      ensures PositionOk(r, at)
    {
      assert PositionOk(p, at);
    }
    forall at | 0 <= at < |r.kinds| && r.kinds[at].Barrier?
      ensures BarrierOk(r, at)
    {
      assert BarrierOk(p, at);
    }
  }

  lemma LinkKeepsLaid(p: Prog, i: nat, l: Label)
    requires Laid(p) && i < |p.ops| && p.ops[i].Load? && !p.ops[i].isReusable
    ensures Laid(Link(p, i, l))
    ensures Open(p) ==> Open(Link(p, i, l))
    ensures forall m | Reaches(p, m) :: Reaches(Link(p, i, l), m)
  {
    hide Budget, BranchWord, SameLoad, OffsetField, LiteralIndex, OpOk;
    var r := Link(p, i, l);
    LinkKeepsBudget(p, i, l);
    LinkKeepsShape(p, i, l);
    forall j | 0 <= j < |r.ops|
      ensures OpOk(r, j)
      ensures r.ops[j].Load? ==> r.PlaceOf(j) == p.PlaceOf(j)
    {
      LinkChangesOnly(p, i, l, j);
    }
    forall j, k | 0 <= j < |r.ops| && 0 <= k < |r.ops| && j != k
                  && r.ops[j].Load? && r.ops[k].Load? && !r.ops[j].isReusable
      ensures Unshared(r, j, k)
    {
      assert Unshared(p, j, k);
    }
  }
}
