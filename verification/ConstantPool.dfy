/**
  What the constant-pool buffer does, as functions on values, and the distance
  budget that keeps every pending load within reach of its pool.

  Instantiated as the ARM assembler does: maxPoolSize 2048, barrier size 4,
  maximal instruction size 4. Offsets and sizes are in bytes, as in the buffer;
  `code` holds one word for every four bytes.
 */
module ConstantPool {
  import opened ArmWord

  const MAX_POOL_SIZE := 2048
  const BARRIER_SIZE := 4
  const MAX_INSTRUCTION_SIZE := 4

  // Never more constants than this wait for a flush.
  const MAX_PENDING := 508

  datatype Buf = Buf(
    code: seq<Word>,
    pool: seq<Word>,
    reusable: seq<bool>,
    loads: seq<nat>,
    maxDistance: int,
    lastConstDelta: int)
  {
    function Size(): nat {
      4 * |code|
    }

    /** The load at word index `at` still waits for its pool. */
    predicate Pending(at: nat) {
      4 * at in loads
    }

    function PoolIndex(at: nat): nat
      requires at < |code|
    {
      OffsetField(code[at]) / 2
    }
  }

  const EMPTY := Buf([], [], [], [], MAX_POOL_SIZE, 0)

  // When to flush ----------------------------------------------------------

  predicate NoSpaceForInsn(b: Buf, insn: nat) {
    && b.pool != []
    && var last := if b.lastConstDelta > insn then b.lastConstDelta - insn else 0;
       b.maxDistance < insn + last + BARRIER_SIZE + 4
  }

  predicate DistanceExhausted(b: Buf, insn: nat, consts: nat) {
    b.maxDistance < insn + b.lastConstDelta + consts + BARRIER_SIZE + 4
  }

  predicate PoolExhausted(b: Buf, consts: nat) {
    4 * |b.pool| + consts >= MAX_POOL_SIZE
  }

  predicate NoSpaceFor(b: Buf, insn: nat, consts: nat) {
    b.pool != [] && (DistanceExhausted(b, insn, consts) || PoolExhausted(b, consts))
  }

  // The flush --------------------------------------------------------------

  /** Bytes of padding that 8-align a pool behind `size` bytes of code. */
  function Padding(size: nat): (pad: nat)
    requires size % 4 == 0
    ensures pad == 0 || pad == 4
    ensures (size + pad) % 8 == 0
  {
    if size % 8 == 0 then 0 else 8 - size % 8
  }

  /** The barrier, if any, and the padding word, if any, in front of the pool. */
  function Prelude(b: Buf, useBarrier: bool): (words: seq<Word>)
    requires b.pool != []
  {
    var barrier := if useBarrier then BARRIER_SIZE else 0;
    var pad := Padding(b.Size() + barrier);
    (if useBarrier then [BarrierWord(4 * |b.pool| + pad)] else [])
    + (if pad == 4 then [PAD_FOR_ALIGN_32] else [])
  }

  function PoolStart(b: Buf, useBarrier: bool): nat
    requires b.pool != []
  {
    |b.code| + |Prelude(b, useBarrier)|
  }

  /** Every pending load can encode its distance to a pool at word index `start`. */
  ghost predicate InReach(b: Buf, start: nat) {
    forall at {:trigger b.Pending(at)} | 0 <= at && b.Pending(at) ::
      && at < |b.code| && at < start
      && IsLiteralLoad(b.code[at]) && AddsOffset(b.code[at])
      && (start - at + b.PoolIndex(at) - 2) * 4 <= 0xfff
  }

  function PatchedWord(b: Buf, start: nat, at: nat): Word
    requires InReach(b, start) && at < |b.code|
  {
    if b.Pending(at) then ResolveLoad(b.code[at], start - at) else b.code[at]
  }

  function PatchedCode(b: Buf, start: nat): (code: seq<Word>)
    requires InReach(b, start)
  {
    seq(|b.code|, at requires 0 <= at < |b.code| => PatchedWord(b, start, at))
  }

  function Flush(b: Buf, useBarrier: bool): (r: Buf)
    requires Budget(b)
  {
    if b.pool == [] then b else
    ReachBound(b, useBarrier);
    b.(code := PatchedCode(b, PoolStart(b, useBarrier)) + (Prelude(b, useBarrier) + b.pool),
       pool := [], reusable := [], loads := [],
       maxDistance := MAX_POOL_SIZE)
  }

  function FlushForInsn(b: Buf, insn: nat): Buf
    requires Budget(b)
  {
    if NoSpaceForInsn(b, insn) then Flush(b, true) else b
  }

  function FlushFor(b: Buf, insn: nat, consts: nat): Buf
    requires Budget(b)
  {
    if NoSpaceFor(b, insn, consts) then Flush(b, true) else b
  }

  // The puts ---------------------------------------------------------------

  /** correctDeltas(4) */
  function ChargeInsn(b: Buf): Buf {
    b.(maxDistance := b.maxDistance - 4,
       lastConstDelta := if b.lastConstDelta - 4 < 0 then 0 else b.lastConstDelta - 4)
  }

  /** correctDeltas(4, 4) */
  function ChargeConst(b: Buf): Buf {
    var c := ChargeInsn(b);
    c.(maxDistance := c.maxDistance - c.lastConstDelta, lastConstDelta := 4)
  }

  /** AssemblerBuffer::putInt, which knows nothing of the pool. */
  function Append(b: Buf, w: Word): Buf {
    b.(code := b.code + [w])
  }

  /** The first pool entry an equal reusable constant can share, else |pool|. */
  function FindReusable(b: Buf, c: Word, from: nat := 0): (i: nat)
    requires |b.reusable| == |b.pool| && from <= |b.pool|
    ensures from <= i <= |b.pool|
    ensures i < |b.pool| ==> b.reusable[i] && b.pool[i] == c
    ensures forall k | from <= k < i :: !(b.reusable[k] && b.pool[k] == c)
    decreases |b.pool| - from
  {
    if from == |b.pool| || (b.reusable[from] && b.pool[from] == c) then from
    else FindReusable(b, c, from + 1)
  }

  function EntryFor(b: Buf, c: Word, isReusable: bool): (i: nat)
    requires |b.reusable| == |b.pool|
    ensures i <= |b.pool|
  {
    if isReusable then FindReusable(b, c) else |b.pool|
  }

  /** putIntWithConstantInt once the flush test has passed. */
  function QueueLoad(b: Buf, insn: Word, c: Word, isReusable: bool): Buf
    requires Budget(b) && !NoSpaceFor(b, 4, 4)
  {
    var b1 := b.(loads := b.loads + [b.Size()]);
    var i := EntryFor(b, c, isReusable);
    var b2 := Append(b1, TagLoad(insn, i));
    if i < |b.pool| then ChargeInsn(b2)
    else ChargeConst(b2.(pool := b.pool + [c], reusable := b.reusable + [isReusable]))
  }

  function PutInt(b: Buf, w: Word): Buf
    requires Budget(b)
  {
    ChargeInsn(Append(FlushForInsn(b, 4), w))
  }

  function PutIntWithConstantInt(b: Buf, insn: Word, c: Word, isReusable: bool): Buf
    requires Budget(b)
  {
    FlushKeepsBudget(b, true);
    QueueLoad(FlushFor(b, 4, 4), insn, c, isReusable)
  }

  // The budget -------------------------------------------------------------

  /**
    The invariant of the distance accounting. `maxDistance` may be far below
    zero: it is decremented while the pool is empty and only a flush that emits
    something resets it. `lastConstDelta` survives a flush. Neither matters,
    because what is bounded is the distance from the first pending load.
   */
  ghost predicate Budget(b: Buf) {
    && |b.reusable| == |b.pool| <= MAX_PENDING
    && (b.lastConstDelta == 0 || b.lastConstDelta == 4)
    && b.maxDistance <= MAX_POOL_SIZE && b.maxDistance % 4 == 0
    && (b.pool == [] <==> b.loads == [])
    && (b.loads != [] ==> Spending(b))
    && (forall k | 0 <= k < |b.loads| :: LoadQueued(b, b.loads[k]))
    && (forall j, k | 0 <= j < k < |b.loads| :: b.loads[j] < b.loads[k])
  }

  ghost predicate Spending(b: Buf)
    requires b.loads != []
  {
    var spent := b.Size() - b.loads[0];
    && spent + b.maxDistance <= MAX_POOL_SIZE
    && (b.maxDistance >= 8 || spent == 4)
    && 4 * |b.pool| <= spent - (if b.lastConstDelta == 0 then 4 else 0)
  }

  ghost predicate LoadQueued(b: Buf, offset: nat) {
    && offset % 4 == 0 && offset < b.Size()
    && var w := b.code[offset / 4];
       && IsLiteralLoad(w) && AddsOffset(w) && w % 2 == 1
       && OffsetField(w) / 2 < |b.pool|
  }

  /**
    At any flush every pending load reaches its constant: the pool lies behind
    the load and the final offset fits the 12-bit field.
   */
  lemma ReachBound(b: Buf, useBarrier: bool)
    requires Budget(b) && b.pool != []
    ensures InReach(b, PoolStart(b, useBarrier))
  {
    hide BarrierWord, IsLiteralLoad, AddsOffset;
    var start := PoolStart(b, useBarrier);
    forall at {:trigger b.Pending(at)} | 0 <= at && b.Pending(at)
      ensures && at < |b.code| && at < start
              && IsLiteralLoad(b.code[at]) && AddsOffset(b.code[at])
              && (start - at + b.PoolIndex(at) - 2) * 4 <= 0xfff
    {
      var k :| 0 <= k < |b.loads| && b.loads[k] == 4 * at;
      assert LoadQueued(b, b.loads[k]);
      assert b.loads[0] <= b.loads[k];
    }
  }

  // Every operation keeps the budget ----------------------------------------

  lemma FlushKeepsBudget(b: Buf, useBarrier: bool)
    requires Budget(b)
    ensures Budget(Flush(b, useBarrier)) && Flush(b, useBarrier).pool == []
  {
  }

  /** The code behind a flush: patched words, barrier, padding, pool. */
  lemma FlushedCode(b: Buf, useBarrier: bool)
    requires Budget(b) && b.pool != []
    ensures var r, start := Flush(b, useBarrier).code, PoolStart(b, useBarrier);
            && |r| == start + |b.pool| && InReach(b, start)
            && |b.code| <= start <= |b.code| + 2 && start % 2 == 0
            && (forall at | 0 <= at < |b.code| :: r[at] == PatchedWord(b, start, at))
            && (forall k | 0 <= k < |b.pool| :: r[start + k] == b.pool[k])
            && (useBarrier ==> r[|b.code|] == BranchWord(AL, |r| - |b.code| - 2))
  {
    hide Budget, PatchedWord, IsLiteralLoad, AddsOffset, BranchWord;
    ReachBound(b, useBarrier);
  }

  lemma AppendKeepsQueue(b: Buf, w: Word, offset: nat)
    requires LoadQueued(b, offset)
    ensures LoadQueued(Append(b, w), offset)
  {
  }

  /** An instruction put where the flush test just passed keeps the budget. */
  lemma AppendKeepsBudget(b: Buf, w: Word)
    requires Budget(b) && !NoSpaceForInsn(b, 4)
    ensures Budget(ChargeInsn(Append(b, w)))
  {
    forall k | 0 <= k < |b.loads|
      ensures LoadQueued(ChargeInsn(Append(b, w)), b.loads[k])
    {
      AppendKeepsQueue(b, w, b.loads[k]);
    }
  }

  lemma PutIntKeepsBudget(b: Buf, w: Word)
    requires Budget(b)
    ensures Budget(PutInt(b, w))
  {
    FlushKeepsBudget(b, true);
    AppendKeepsBudget(FlushForInsn(b, 4), w);
  }

  /**
    The pool never overruns its 512 entries, and the pool-size half of the flush
    test never decides: the distance half has fired first.
   */
  lemma PoolNeverExhausted(b: Buf, consts: nat)
    requires Budget(b) && consts < 16
    ensures !PoolExhausted(b, consts)
    ensures b.pool != [] && !DistanceExhausted(b, 4, 4) ==> |b.pool| < MAX_PENDING
  {
  }

  /** What queueing a load changes, field by field. */
  lemma QueueLoadFields(b: Buf, insn: Word, c: Word, isReusable: bool)
    requires Budget(b) && !NoSpaceFor(b, 4, 4)
    ensures |b.reusable| == |b.pool| < MAX_PENDING
    ensures var r := QueueLoad(b, insn, c, isReusable);
            var i := EntryFor(b, c, isReusable);
            var left := if b.lastConstDelta < 4 then 0 else b.lastConstDelta - 4;
            && r.code == b.code + [TagLoad(insn, i)]
            && r.loads == b.loads + [b.Size()]
            && r.pool == (if i < |b.pool| then b.pool else b.pool + [c])
            && r.reusable == (if i < |b.pool| then b.reusable else b.reusable + [isReusable])
            && r.maxDistance == b.maxDistance - 4 - (if i < |b.pool| then 0 else left)
            && r.lastConstDelta == if i < |b.pool| then left else 4
  {
  }

  lemma QueueLoadKeepsBudget(b: Buf, insn: Word, c: Word, isReusable: bool)
    requires Budget(b) && !NoSpaceFor(b, 4, 4)
    requires IsLiteralLoad(insn) && AddsOffset(insn)
    ensures Budget(QueueLoad(b, insn, c, isReusable))
  {
    hide Head, TagLoad, IsLiteralLoad, AddsOffset, OffsetField;
    var r := QueueLoad(b, insn, c, isReusable);
    var i := EntryFor(b, c, isReusable);
    PoolNeverExhausted(b, 4);
    TagLoadFields(insn, i);
    forall k | 0 <= k < |r.loads|
      ensures LoadQueued(r, r.loads[k])
    {
      if k < |b.loads| {
        AppendKeepsQueue(b, TagLoad(insn, i), b.loads[k]);
      }
    }
  }

  lemma PutIntWithConstantIntKeepsBudget(b: Buf, insn: Word, c: Word, isReusable: bool)
    requires Budget(b)
    requires IsLiteralLoad(insn) && AddsOffset(insn)
    ensures Budget(PutIntWithConstantInt(b, insn, c, isReusable))
  {
    FlushKeepsBudget(b, true);
    QueueLoadKeepsBudget(FlushFor(b, 4, 4), insn, c, isReusable);
  }
}
