/**
  The constant-pool buffer as the program has it: fields updated in place, the
  pool and its mask in fixed arrays, loops that search the pool and patch the
  pending loads. The ghost field `view` is the value the fields stand for; each
  method moves it by the function of ConstantPool of the same name.
 */
module ConstantPoolBuffer {
  import opened Alignment
  import opened ArmWord
  import opened ConstantPool

  datatype Entry = UniqueConst | ReusableConst | UnusedEntry

  class AssemblerBufferWithConstantPool {
    const pool: array<Word>
    const mask: array<Entry>
    var code: seq<Word>
    var loadOffsets: seq<nat>
    var numConsts: nat
    var maxDistance: int
    var lastConstDelta: int
    ghost var view: Buf

    ghost predicate Valid()
      reads this, pool, mask
    {
      && pool.Length == mask.Length == MAX_POOL_SIZE / 4
      && Budget(view)
      && Represents(view)
    }

    /** The fields hold exactly the value `b`. */
    ghost predicate Represents(b: Buf)
      requires pool.Length == mask.Length
      reads this, pool, mask
    {
      && code == b.code && loadOffsets == b.loads
      && maxDistance == b.maxDistance && lastConstDelta == b.lastConstDelta
      && HoldsEntries(b.pool, b.reusable)
    }

    /** The arrays hold these pending constants. */
    ghost predicate HoldsEntries(constants: seq<Word>, reusable: seq<bool>)
      requires pool.Length == mask.Length
      reads this`numConsts, pool, mask
    {
      && numConsts == |constants| == |reusable| <= pool.Length
      && pool[..numConsts] == constants
      && (forall i | 0 <= i < numConsts :: mask[i] == ReusableConst <==> reusable[i])
    }

    constructor ()
      ensures Valid() && view == EMPTY && fresh(pool) && fresh(mask)
    {
      code := [];
      loadOffsets := [];
      numConsts := 0;
      maxDistance := MAX_POOL_SIZE;
      lastConstDelta := 0;
      pool := new Word[MAX_POOL_SIZE / 4](_ => 0);
      mask := new Entry[MAX_POOL_SIZE / 4](_ => UnusedEntry);
      view := EMPTY;
    }

    method UncheckedSize() returns (size: nat)
      requires Valid()
      ensures size == view.Size()
    {
      size := 4 * |code|;
    }

    method Size() returns (size: nat)
      requires Valid()
      modifies this
      ensures Valid() && view == FlushFor(old(view), MAX_INSTRUCTION_SIZE, 8)
      ensures size == view.Size()
    {
      FlushIfNoSpaceFor(MAX_INSTRUCTION_SIZE, 8);
      size := UncheckedSize();
    }

    method EnsureSpaceForInsn(space: nat)
      requires Valid()
      modifies this
      ensures Valid() && view == FlushForInsn(old(view), space)
    {
      FlushIfNoSpaceForInsn(space);
    }

    method EnsureSpace(insnSpace: nat, constSpace: nat)
      requires Valid()
      modifies this
      ensures Valid() && view == FlushFor(old(view), insnSpace, constSpace)
    {
      FlushIfNoSpaceFor(insnSpace, constSpace);
    }

    method IsAligned(alignment: nat) returns (aligned: bool)
      requires Valid()
      modifies this
      ensures Valid() && view == FlushForInsn(old(view), alignment)
      ensures aligned <==> MaskTest(view.Size(), alignment)
      ensures PowerOfTwo(alignment) ==> (aligned <==> view.Size() % alignment == 0)
    {
      hide MaskTest;
      FlushIfNoSpaceForInsn(alignment);
      TestOfPower(4 * |code|, alignment);
      aligned := MaskTest(4 * |code|, alignment);
    }

    method PutInt(value: Word)
      requires Valid()
      modifies this
      ensures Valid() && view == ConstantPool.PutInt(old(view), value)
    {
      PutIntKeepsBudget(view, value);
      FlushIfNoSpaceForInsn(4);
      code := code + [value];
      CorrectDeltas(4);
      view := ChargeInsn(Append(view, value));
    }

    method PutIntWithConstantInt(insn: Word, constant: Word, isReusable: bool)
      requires Valid()
      requires IsLiteralLoad(insn) && AddsOffset(insn)
      modifies this, pool, mask
      ensures Valid()
      ensures view == ConstantPool.PutIntWithConstantInt(old(view), insn, constant, isReusable)
    {
      hide Budget, Flush, QueueLoad;
      FlushKeepsBudget(view, true);
      FlushIfNoSpaceFor(4, 4);
      QueueTaggedLoad(insn, constant, isReusable);
    }

    /** The part of putIntWithConstantInt behind the flush test. */
    method QueueTaggedLoad(insn: Word, constant: Word, isReusable: bool)
      requires Valid() && !NoSpaceFor(view, 4, 4)
      requires IsLiteralLoad(insn) && AddsOffset(insn)
      modifies this, pool, mask
      ensures Valid() && view == QueueLoad(old(view), insn, constant, isReusable)
    {
      hide Budget, QueueLoad, TagLoad, NoSpaceFor, IsLiteralLoad, AddsOffset, HoldsEntries;
      QueueLoadKeepsBudget(view, insn, constant, isReusable);
      QueueLoadFields(view, insn, constant, isReusable);
      CountEntries();
      ghost var after := QueueLoad(view, insn, constant, isReusable);

      loadOffsets := loadOffsets + [4 * |code|];
      var i := numConsts;
      if isReusable {
        i := FindReusableEntry(constant);
      }
      code := code + [TagLoad(insn, i)];
      if i < numConsts {
        CorrectDeltas(4);
      } else {
        AddEntry(constant, isReusable);
        CorrectDeltasWithConst(4, 4);
      }
      view := after;
    }

    lemma CountEntries()
      requires pool.Length == mask.Length && HoldsEntries(view.pool, view.reusable)
      ensures numConsts == |view.pool| == |view.reusable|
    {
    }

    method AddEntry(constant: Word, isReusable: bool)
      requires pool.Length == mask.Length && HoldsEntries(view.pool, view.reusable) && |view.pool| < pool.Length
      modifies this`numConsts, pool, mask
      ensures HoldsEntries(view.pool + [constant], view.reusable + [isReusable])
    {
      pool[numConsts] := constant;
      mask[numConsts] := if isReusable then ReusableConst else UniqueConst;
      numConsts := numConsts + 1;
    }

    method FindReusableEntry(constant: Word) returns (i: nat)
      requires pool.Length == mask.Length && HoldsEntries(view.pool, view.reusable)
      ensures |view.reusable| == |view.pool| && i == FindReusable(view, constant)
    {
      i := 0;
      while i < numConsts
        invariant 0 <= i <= numConsts
        invariant FindReusable(view, constant) == FindReusable(view, constant, i)
      {
        if mask[i] == ReusableConst && pool[i] == constant {
          return;
        }
        i := i + 1;
      }
    }

    /** Flush after an unconditional jump, where no barrier is needed. */
    method FlushWithoutBarrier(isForced: bool)
      requires Valid()
      modifies this
      ensures Valid()
      ensures view == if isForced || 5 * |old(view).pool| > 3 * MAX_POOL_SIZE / 4
                      then Flush(old(view), false) else old(view)
    {
      if isForced || 5 * numConsts > 3 * MAX_POOL_SIZE / 4 {
        FlushConstantPool(false);
      }
    }

    /** Overwrite one pending constant, as linkJump does through poolAddress(). */
    method SetPoolEntry(index: nat, value: Word)
      requires Valid() && index < numConsts
      requires Budget(view.(pool := view.pool[index := value]))
      modifies this`view, pool
      ensures Valid() && view == old(view).(pool := old(view).pool[index := value])
    {
      pool[index] := value;
      view := view.(pool := view.pool[index := value]);
    }

    /** Overwrite one word of code, as linkJump does through data(). */
    method SetCode(at: nat, value: Word)
      requires Valid() && at < |code|
      requires Budget(view.(code := view.code[at := value]))
      modifies this`code, this`view
      ensures Valid() && view == old(view).(code := old(view).code[at := value])
    {
      code := code[at := value];
      view := view.(code := view.code[at := value]);
    }

    method CorrectDeltas(insnSize: nat)
      modifies this`maxDistance, this`lastConstDelta
      ensures maxDistance == old(maxDistance) - insnSize
      ensures lastConstDelta == if old(lastConstDelta) < insnSize then 0 else old(lastConstDelta) - insnSize
    {
      maxDistance := maxDistance - insnSize;
      lastConstDelta := lastConstDelta - insnSize;
      if lastConstDelta < 0 {
        lastConstDelta := 0;
      }
    }

    method CorrectDeltasWithConst(insnSize: nat, constSize: nat)
      modifies this`maxDistance, this`lastConstDelta
      ensures maxDistance == old(maxDistance) - insnSize
                             - if old(lastConstDelta) < insnSize then 0 else old(lastConstDelta) - insnSize
      ensures lastConstDelta == constSize
    {
      CorrectDeltas(insnSize);
      maxDistance := maxDistance - lastConstDelta;
      lastConstDelta := constSize;
    }

    method FlushConstantPool(useBarrier: bool)
      requires Valid()
      modifies this
      ensures Valid() && view == Flush(old(view), useBarrier)
    {
      hide LoadQueued, Prelude;
      FlushKeepsBudget(view, useBarrier);
      if numConsts == 0 {
        return;
      }
      ReachBound(view, useBarrier);

      var constPoolOffset := EmitPool(useBarrier);
      PatchLoads(constPoolOffset, Prelude(view, useBarrier) + view.pool);

      loadOffsets := [];
      numConsts := 0;
      maxDistance := MAX_POOL_SIZE;
      view := Flush(view, useBarrier);
    }

    /** Barrier, padding and pool; the result is the offset of the pool. */
    method EmitPool(useBarrier: bool) returns (constPoolOffset: nat)
      requires Valid() && numConsts > 0
      modifies this`code
      ensures code == view.code + (Prelude(view, useBarrier) + view.pool)
      ensures constPoolOffset == 4 * PoolStart(view, useBarrier)
    {
      hide Budget, BarrierWord;
      var alignPool := (4 * |code| + if useBarrier then BARRIER_SIZE else 0) % 8;
      if alignPool != 0 {
        alignPool := 8 - alignPool;
      }
      var words := [];
      if useBarrier {
        words := [BarrierWord(numConsts * 4 + alignPool)];
      }
      // Code is emitted in words, so only the 4-byte filler is ever needed.
      if alignPool == 4 {
        words := words + [PAD_FOR_ALIGN_32];
      }
      constPoolOffset := 4 * |code + words|;
      code := code + (words + pool[..numConsts]);
    }

    method PatchLoads(constPoolOffset: nat, ghost tail: seq<Word>)
      requires Budget(view) && code == view.code + tail && loadOffsets == view.loads
      requires constPoolOffset % 4 == 0 && InReach(view, constPoolOffset / 4)
      modifies this`code
      ensures code == PatchedCode(view, constPoolOffset / 4) + tail
    {
      hide Spending, IsLiteralLoad, AddsOffset, OffsetField, ResolveLoad;
      ghost var start := constPoolOffset / 4;
      var i := 0;
      while i < |loadOffsets|
        invariant 0 <= i <= |loadOffsets|
        invariant |code| == |view.code + tail| && code[|view.code|..] == tail
        invariant forall at | 0 <= at < |view.code| ::
          code[at] == if 4 * at in view.loads[..i] then PatchedWord(view, start, at) else view.code[at]
      {
        assert LoadQueued(view, view.loads[i]);
        var at := loadOffsets[i] / 4;
        assert view.Pending(at);
        assert view.loads[..i + 1] == view.loads[..i] + [4 * at];
        code := code[at := ResolveLoad(code[at], constPoolOffset / 4 - at)];
        i := i + 1;
      }
      assert view.loads[..i] == view.loads;
      assert code[..|view.code|] == PatchedCode(view, start);
      assert code == code[..|view.code|] + tail;
    }

    method FlushIfNoSpaceForInsn(nextInsnSize: nat)
      requires Valid()
      modifies this
      ensures Valid() && view == FlushForInsn(old(view), nextInsnSize)
    {
      if numConsts == 0 {
        return;
      }
      var last := if lastConstDelta > nextInsnSize then lastConstDelta - nextInsnSize else 0;
      if maxDistance < nextInsnSize + last + BARRIER_SIZE + 4 {
        FlushConstantPool(true);
      }
    }

    method FlushIfNoSpaceFor(nextInsnSize: nat, nextConstSize: nat)
      requires Valid()
      modifies this
      ensures Valid() && view == FlushFor(old(view), nextInsnSize, nextConstSize)
    {
      if numConsts == 0 {
        return;
      }
      if maxDistance < nextInsnSize + lastConstDelta + nextConstSize + BARRIER_SIZE + 4
         || numConsts * 4 + nextConstSize >= MAX_POOL_SIZE {
        FlushConstantPool(true);
      }
    }
  }
}
