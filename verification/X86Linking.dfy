/**
  rel32 jumps: linking them before the copy, in any order and more than once, and
  where they go once the code is placed anywhere.
 */
module X86Linking {
  import opened AssemblerBuffers
  import opened X86Operands
  import opened X86Formatter

  // A code buffer is addressed by 32-bit signed offsets.
  const MAX_CODE := 0x8000_0000

  /** setRel32: the four bytes in front of `from` hold the distance from there. */
  function Linked(code: seq<Byte>, from: nat, to: nat): (r: seq<Byte>)
    requires 4 <= from <= |code|
    ensures |r| == |code|
  {
    code[..from - 4] + LittleEndian(to - from, 4) + code[from..]
  }

  /** The address the jump whose rel32 ends at `from` goes to, in code placed at `base`. */
  function Destination(code: seq<Byte>, base: int, from: nat): int
    requires 4 <= from <= |code|
  {
    base + from + Signed(code[from - 4..from])
  }

  lemma LinkedGoesTo(code: seq<Byte>, base: int, from: nat, to: nat)
    requires 4 <= from <= |code| < MAX_CODE && to <= |code|
    ensures Destination(Linked(code, from, to), base, from) == base + to
  {
    hide LittleEndian, Signed, Power256;
    PowersOf256();
    SignedRoundTrip(to - from, 4);
    assert Linked(code, from, to)[from - 4..from] == LittleEndian(to - from, 4);
  }

  /** Linking one jump leaves every other one where it went. */
  lemma LinkedLeavesOthers(code: seq<Byte>, base: int, from: nat, to: nat, other: nat)
    requires 4 <= from <= |code| && 4 <= other <= |code| && (other + 4 <= from || from + 4 <= other)
    ensures Destination(Linked(code, from, to), base, other) == Destination(code, base, other)
  {
    assert Linked(code, from, to)[other - 4..other] == code[other - 4..other];
  }

  lemma GrowingLeavesJumps(code: seq<Byte>, more: seq<Byte>, base: int, from: nat)
    requires 4 <= from <= |code|
    ensures Destination(code + more, base, from) == Destination(code, base, from)
  {
    assert (code + more)[from - 4..from] == code[from - 4..from];
  }

  lemma FreshJumpFallsThrough(code: seq<Byte>, base: int)
    requires |code| >= 4 && code[|code| - 4..] == LittleEndian(0, 4)
    ensures Destination(code, base, |code|) == base + |code|
  {
    hide LittleEndian, Signed, Power256;
    PowersOf256();
    SignedRoundTrip(0, 4);
    assert code[|code| - 4..|code|] == code[|code| - 4..];
  }

  // The jumps of a buffer, each by the offset behind its rel32, and where they go.
  datatype Jumps = Jumps(sources: seq<nat>, targets: seq<nat>, emitted: seq<Byte>)
  {
    /** Byte `i` is part of a rel32. */
    ghost predicate InRel32(i: nat) {
      exists k :: 0 <= k < |sources| && sources[k] - 4 <= i < sources[k]
    }
  }

  /** The jumps go to their targets wherever the code is placed; all else is as emitted. */
  ghost predicate JumpsOk(code: seq<Byte>, j: Jumps) {
    && |j.targets| == |j.sources| && |j.emitted| == |code|
    && (forall k | 0 <= k < |j.sources| :: 4 <= j.sources[k] <= |code|)
    && (forall k, m | 0 <= k < m < |j.sources| :: j.sources[k] + 4 <= j.sources[m])
    && (forall k, base: int | 0 <= k < |j.sources| :: Destination(code, base, j.sources[k]) == base + j.targets[k])
    && (forall i | 0 <= i < |code| && !j.InRel32(i) :: code[i] == j.emitted[i])
  }

  lemma EmitKeepsJumps(code: seq<Byte>, j: Jumps, more: seq<Byte>)
    requires JumpsOk(code, j)
    ensures JumpsOk(code + more, j.(emitted := j.emitted + more))
  {
    hide Destination;
    forall k, base: int | 0 <= k < |j.sources|
      ensures Destination(code + more, base, j.sources[k]) == base + j.targets[k]
    {
      GrowingLeavesJumps(code, more, base, j.sources[k]);
    }
    assert forall i | 0 <= i < |code| :: j.(emitted := j.emitted + more).InRel32(i) == j.InRel32(i);
  }

  /** A new jump, its rel32 still zero, goes on behind itself. */
  lemma JumpKeepsJumps(code: seq<Byte>, j: Jumps)
    requires JumpsOk(code, j) && |code| >= 4 && code[|code| - 4..] == LittleEndian(0, 4)
    requires forall k | 0 <= k < |j.sources| :: j.sources[k] + 4 <= |code|
    ensures JumpsOk(code, j.(sources := j.sources + [|code|], targets := j.targets + [|code|]))
  {
    hide Destination;
    var r := j.(sources := j.sources + [|code|], targets := j.targets + [|code|]);
    forall base: int
      ensures Destination(code, base, |code|) == base + |code|
    {
      FreshJumpFallsThrough(code, base);
    }
    forall i | 0 <= i < |code| && !r.InRel32(i)
      ensures code[i] == j.emitted[i]
    {
      assert forall k | 0 <= k < |j.sources| :: r.sources[k] == j.sources[k];
      assert !j.InRel32(i);
    }
  }

  lemma LinkKeepsJumps(code: seq<Byte>, j: Jumps, k: nat, to: nat)
    requires JumpsOk(code, j) && k < |j.sources| && to <= |code| < MAX_CODE
    ensures JumpsOk(Linked(code, j.sources[k], to), j.(targets := j.targets[k := to]))
  {
    hide Destination, Linked;
    var from := j.sources[k];
    var r := Linked(code, from, to);
    forall m, base: int | 0 <= m < |j.sources|
      ensures Destination(r, base, j.sources[m]) == base + j.targets[k := to][m]
    {
      if m == k {
        LinkedGoesTo(code, base, from, to);
      } else {
        LinkedLeavesOthers(code, base, from, to, j.sources[m]);
      }
    }
    forall i | 0 <= i < |r| && !j.(targets := j.targets[k := to]).InRel32(i)
      ensures r[i] == j.emitted[i]
    {
      assert !(from - 4 <= i < from);
      assert !j.InRel32(i);
      LinkedElsewhere(code, from, to, i);
    }
  }

  lemma LinkedElsewhere(code: seq<Byte>, from: nat, to: nat, i: nat)
    requires 4 <= from <= |code| && i < |code| && !(from - 4 <= i < from)
    ensures Linked(code, from, to)[i] == code[i]
  {
  }

  lemma SourceInCode(code: seq<Byte>, j: Jumps, k: nat)
    requires JumpsOk(code, j) && k < |j.sources|
    ensures 4 <= j.sources[k] <= |code| && |j.targets| == |j.sources|
  {
  }

  // The assembler ------------------------------------------------------------------------

  class X86Assembler {
    const formatter: X86InstructionFormatter
    ghost var jumps: Jumps

    ghost predicate Valid()
      reads this, formatter.buffer, formatter.buffer.storage
    {
      formatter.buffer.Valid() && JumpsOk(formatter.buffer.Contents(), jumps)
    }

    constructor (mode64: bool)
      ensures Valid() && formatter.x64 == mode64 && jumps == Jumps([], [], [])
    {
      formatter := new X86InstructionFormatter(mode64);
      jumps := Jumps([], [], []);
    }

    method Emit(i: Insn, imm: Immediate)
      requires Valid() && Legal(formatter.x64, i) && LegalImm(i, imm)
      modifies this, formatter.buffer, formatter.buffer.storage
      ensures Valid()
      ensures jumps == old(jumps).(emitted := old(jumps).emitted + (Encode(formatter.x64, i) + ImmBytes(imm)))
      ensures formatter.buffer.storage == old(formatter.buffer.storage) || fresh(formatter.buffer.storage)
    {
      hide JumpsOk, Encode, Legal, LegalImm, ImmBytes;
      EmitKeepsJumps(formatter.buffer.Contents(), jumps, Encode(formatter.x64, i) + ImmBytes(imm));
      ghost var start := formatter.buffer.Contents();
      formatter.Emit(i, imm);
      assert formatter.buffer.Contents() == start + (Encode(formatter.x64, i) + ImmBytes(imm));
      jumps := jumps.(emitted := jumps.emitted + (Encode(formatter.x64, i) + ImmBytes(imm)));
    }

    /** jmp, call and jcc: an opcode and a rel32 of zero; the result is the offset behind it. */
    method Jump(i: Insn) returns (source: nat)
      requires Valid() && Legal(formatter.x64, i)
      modifies this, formatter.buffer, formatter.buffer.storage
      ensures Valid() && source == |jumps.emitted|
      ensures jumps.sources == old(jumps).sources + [source] && jumps.targets == old(jumps).targets + [source]
      ensures jumps.emitted == old(jumps).emitted + (Encode(formatter.x64, i) + LittleEndian(0, 4))
      ensures formatter.buffer.storage == old(formatter.buffer.storage) || fresh(formatter.buffer.storage)
    {
      hide Encode, Legal, LittleEndian, Destination;
      Emit(i, Imm32(0));
      source := formatter.buffer.size;
      ghost var code := formatter.buffer.Contents();
      assert code[|code| - 4..] == LittleEndian(0, 4);
      JumpKeepsJumps(code, jumps);
      jumps := jumps.(sources := jumps.sources + [source], targets := jumps.targets + [source]);
    }

    /** linkJump in the buffer: jump `k` goes to offset `to`. */
    method LinkJump(from: nat, to: nat, ghost k: nat)
      requires Valid() && k < |jumps.sources| && from == jumps.sources[k]
      requires to <= formatter.buffer.size < MAX_CODE
      modifies this`jumps, formatter.buffer.storage
      ensures Valid() && jumps == old(jumps).(targets := old(jumps).targets[k := to])
    {
      hide Destination, JumpsOk;
      ghost var code := formatter.buffer.Contents();
      SourceInCode(code, jumps, k);
      LinkKeepsJumps(code, jumps, k, to);
      formatter.buffer.SetInt32(from, to - from);
      jumps := jumps.(targets := jumps.targets[k := to]);
    }

    /** Wherever the copy is placed, every jump goes to its target there. */
    method ExecutableCopy() returns (code: array<Byte>)
      requires Valid()
      ensures fresh(code) && JumpsOk(code[..], jumps)
    {
      code := formatter.buffer.ExecutableCopy();
    }
  }
}
