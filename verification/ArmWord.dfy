/**
  32-bit ARM instruction words and the bit fields that the constant-pool
  assembler reads and rewrites: the 12-bit offset of a pc-relative load and the
  24-bit offset of a branch.

  A word is an integer below 2^32. `Head` is everything above the offset field,
  so `(w & ~0xfff) | v` is `Head(w) * 0x1000 + v`.
 */
module ArmWord {
  type Word = w: int | 0 <= w < 0x1_0000_0000

  const PC := 15
  const AL := 14

  // The bkpt(0) instruction and the word that fills a 4-byte hole before a pool.
  const BKPT: Word := 0x0e12_0070
  const PAD_FOR_ALIGN_32: Word := 0xee12_0070

  // The constant an unlinked jump carries.
  const UNLINKED: Word := 0xffff_ffff

  function Head(w: Word): (h: nat)
    ensures h < 0x10_0000
  {
    w / 0x1000
  }

  function OffsetField(w: Word): (v: nat)
    ensures v < 0x1000
  {
    w % 0x1000
  }

  function Join(head: nat, offset: nat): Word
    requires head < 0x10_0000 && offset < 0x1000
  {
    head * 0x1000 + offset
  }

  function Condition(w: Word): (c: nat)
    ensures c < 16
  {
    Head(w) / 0x1_0000
  }

  function DestRegister(w: Word): (rd: nat)
    ensures rd < 16
  {
    Head(w) % 16
  }

  /** The DT_UP bit: the offset is added to the pc, not subtracted. */
  predicate UpBit(head: nat) {
    head / 0x800 % 2 == 1
  }

  predicate AddsOffset(w: Word) {
    UpBit(Head(w))
  }

  /** (w & 0x0f7f0000) == 0x051f0000: ldr rd, [pc, +/- #offset]. */
  predicate LiteralHead(head: nat) {
    head / 0x1000 % 16 == 5 && head / 0x10 % 0x80 == 0x1f
  }

  predicate IsLiteralLoad(w: Word) {
    LiteralHead(Head(w))
  }

  /** b<cond> in the A32 encoding. */
  predicate IsBranch(w: Word) {
    Head(w) / 0x1000 % 16 == 10
  }

  /** The two words are literal loads of the same register under the same condition. */
  predicate SameLoad(w: Word, insn: Word) {
    && IsLiteralLoad(w) && IsLiteralLoad(insn)
    && Condition(w) == Condition(insn)
    && DestRegister(w) == DestRegister(insn)
  }

  lemma LiteralLoadIsNoBranch(w: Word)
    requires IsLiteralLoad(w)
    ensures !IsBranch(w)
  {
  }

  lemma JoinFields(head: nat, offset: nat)
    requires head < 0x10_0000 && offset < 0x1000
    ensures Head(Join(head, offset)) == head
    ensures OffsetField(Join(head, offset)) == offset
    ensures Join(head, offset) % 2 == offset % 2
  {
    assert Join(head, offset) == 2 * (head * 0x800) + offset;
  }

  // Literal loads ----------------------------------------------------------

  /** ldr<cond> rd, [pc, #+offset], as ldr_imm and ldr_un_imm assemble it. */
  function LiteralLoad(cond: nat, rd: nat): Word
    requires cond < 16 && rd < 16
  {
    cond * 0x1000_0000 + 0x059f_0000 + rd * 0x1000
  }

  lemma LiteralLoadFields(cond: nat, rd: nat)
    requires cond < 16 && rd < 16
    ensures var w := LiteralLoad(cond, rd);
            && IsLiteralLoad(w) && AddsOffset(w)
            && Condition(w) == cond && DestRegister(w) == rd && OffsetField(w) == 0
  {
    hide LiteralHead, UpBit, Head, OffsetField, Join, LiteralLoad;
    LiteralLoadHead(cond, rd);
    NoOffset(cond, rd);
    LiteralHeadFields(cond, rd);
  }

  lemma NoOffset(cond: nat, rd: nat)
    requires cond < 16 && rd < 16
    ensures OffsetField(LiteralLoad(cond, rd)) == 0
  {
    DivMod(cond * 0x1_0000 + 0x59f0 + rd, 0x1000, 0);
  }

  lemma LiteralLoadHead(cond: nat, rd: nat)
    requires cond < 16 && rd < 16
    ensures Head(LiteralLoad(cond, rd)) == cond * 0x1_0000 + 0x59f0 + rd
  {
    DivMod(cond * 0x1_0000 + 0x59f0 + rd, 0x1000, 0);
  }

  lemma LiteralHeadFields(cond: nat, rd: nat)
    requires cond < 16 && rd < 16
    ensures var head := cond * 0x1_0000 + 0x59f0 + rd;
            LiteralHead(head) && UpBit(head) && head / 0x1_0000 == cond && head % 16 == rd
  {
    DivMod(cond, 0x1_0000, 0x59f0 + rd);
    DivMod(cond * 16 + 5, 0x1000, 0x9f0 + rd);
    DivMod(cond, 16, 5);
    DivMod(cond * 32 + 11, 0x800, 0x1f0 + rd);
    DivMod(cond * 0x1000 + 0x59f, 0x10, rd);
    DivMod(cond * 32 + 11, 0x80, 0x1f);
  }

  lemma DivMod(q: int, d: int, r: int)
    requires 0 <= r < d
    ensures (q * d + r) / d == q && (q * d + r) % d == r
  {
    var n := q * d + r;
    var k := n / d - q;
    assert d * (n / d) == n - n % d;
    assert d * k == d * (n / d) - d * q;
    assert k >= 1 ==> d * k >= d;
    assert k <= -1 ==> d * k <= -d;
  }

  /** The load as it is queued: the pool index, tagged with a one in bit 0. */
  function TagLoad(insn: Word, index: nat): Word
    requires index < 0x800
  {
    Join(Head(insn), 2 * index + 1)
  }

  lemma TagLoadFields(insn: Word, index: nat)
    requires index < 0x800 && IsLiteralLoad(insn) && AddsOffset(insn)
    ensures var w := TagLoad(insn, index);
            && SameLoad(w, insn) && AddsOffset(w)
            && w % 2 == 1 && OffsetField(w) / 2 == index
  {
    hide LiteralHead, UpBit, Head, OffsetField, Join;
    JoinFields(Head(insn), 2 * index + 1);
  }

  /**
    The load once its pool is placed: `distance` is the distance in words from
    the load to the start of the pool.
   */
  function ResolveLoad(w: Word, distance: nat): Word
    requires distance >= 1
    requires (distance + OffsetField(w) / 2 - 2) * 4 <= 0xfff
    requires AddsOffset(w)
  {
    ClearUp(Head(w));
    var index := OffsetField(w) / 2;
    if distance >= 2 || index > 0 then
      Join(Head(w), (distance + index - 2) * 4)
    else
      Join(Head(w) - 0x800, 4)
  }

  /** The word index that a literal load at word index `at` reads. */
  function LiteralIndex(w: Word, at: nat): int {
    if AddsOffset(w) then at + 2 + OffsetField(w) / 4 else at + 2 - OffsetField(w) / 4
  }

  /** Resolving keeps the load and makes it read entry `index` of the pool. */
  lemma ResolveLoadFields(w: Word, distance: nat, at: nat)
    requires IsLiteralLoad(w) && AddsOffset(w) && distance >= 1
    requires (distance + OffsetField(w) / 2 - 2) * 4 <= 0xfff
    ensures var r := ResolveLoad(w, distance);
            && SameLoad(r, w)
            && OffsetField(r) % 4 == 0 && r % 2 == 0
            && LiteralIndex(r, at) == at + distance + OffsetField(w) / 2
  {
    hide LiteralHead, UpBit, Head, OffsetField, Join;
    ClearUp(Head(w));
    var index := OffsetField(w) / 2;
    if distance >= 2 || index > 0 {
      JoinFields(Head(w), (distance + index - 2) * 4);
    } else {
      JoinFields(Head(w) - 0x800, 4);
    }
  }

  lemma ClearUp(head: nat)
    requires head < 0x10_0000 && UpBit(head)
    ensures head >= 0x800 && !UpBit(head - 0x800)
    ensures LiteralHead(head - 0x800) == LiteralHead(head)
    ensures (head - 0x800) / 0x1_0000 == head / 0x1_0000
    ensures (head - 0x800) % 16 == head % 16
  {
    var q, r := head / 0x1000, head % 0x800;
    assert head == q * 0x1000 + 0x800 + r;
    hide LiteralHead;
    SplitHead(q, 0, r);
    SplitHead(q, 1, r);
  }

  lemma SplitHead(q: nat, up: nat, r: nat)
    requires up < 2 && r < 0x800
    ensures var head := q * 0x1000 + up * 0x800 + r;
            && LiteralHead(head) == (q % 16 == 5 && r / 0x10 == 0x1f)
            && UpBit(head) == (up == 1)
            && head / 0x1_0000 == q / 16 && head % 16 == r % 16
  {
    DivMod(q, 0x1000, up * 0x800 + r);
    DivMod(q * 2 + up, 0x800, r);
    DivMod(q * 0x100 + up * 0x80 + r / 16, 0x10, r % 16);
    DivMod(q * 2 + up, 0x80, r / 0x10);
    DivMod(q / 16, 0x1_0000, q % 16 * 0x1000 + up * 0x800 + r);
  }

  // Branches ---------------------------------------------------------------

  const BOFFSET_MIN := -0x80_0000
  const BOFFSET_MAX := 0x7f_ffff

  /** B | cond | (diff & BRANCH_MASK) */
  function BranchWord(cond: nat, diff: int): Word
    requires cond < 16
  {
    cond * 0x1000_0000 + 0x0a00_0000 + diff % 0x100_0000
  }

  /** The signed word offset, relative to the pc the processor reads. */
  function BranchOffset(w: Word): int {
    var field := w % 0x100_0000;
    if field < 0x80_0000 then field else field - 0x100_0000
  }

  lemma BranchWordFields(cond: nat, diff: int)
    requires cond < 16 && BOFFSET_MIN <= diff <= BOFFSET_MAX
    ensures var w := BranchWord(cond, diff);
            IsBranch(w) && !IsLiteralLoad(w) && Condition(w) == cond && BranchOffset(w) == diff
  {
    var field := if diff >= 0 then diff else diff + 0x100_0000;
    DivMod(if diff >= 0 then 0 else -1, 0x100_0000, field);
    SplitBranch(cond, field);
    DivMod(cond * 16 + 10, 0x100_0000, field);
    hide Head, LiteralHead;
    assert BranchWord(cond, diff) == (cond * 16 + 10) * 0x100_0000 + field;
  }

  lemma SplitBranch(cond: nat, field: nat)
    requires cond < 16 && field < 0x100_0000
    ensures var w := (cond * 16 + 10) * 0x100_0000 + field;
            Head(w) / 0x1000 % 16 == 10 && Condition(w) == cond && !LiteralHead(Head(w))
  {
    var high, low := field / 0x1000, field % 0x1000;
    var head := (cond * 16 + 10) * 0x1000 + high;
    DivMod(cond * 16 + 10, 0x1000, high);
    DivMod(cond, 16, 10);
    DivMod(cond, 0x1_0000, 10 * 0x1000 + high);
    hide Head;
    assert (cond * 16 + 10) * 0x100_0000 + field == Join(head, low);
    JoinFields(head, low);
  }

  /** The barrier in front of a pool: an unconditional branch over `bytes` bytes. */
  function BarrierWord(bytes: nat): Word
    requires 4 <= bytes && bytes % 4 == 0
  {
    BranchWord(AL, (bytes - 4) / 4)
  }

  function BranchIndex(w: Word, at: nat): int {
    at + 2 + BranchOffset(w)
  }
}
