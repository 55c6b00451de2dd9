/**
  Multiplication with a branch on its result: mul32, mull32 and branchMul32. For
  the overflow condition the high word of the product is compared with the sign of
  the low word, and the branch is taken exactly if the product does not fit in 32
  bits; for the others the flags of the multiplication decide.
 */
module ArmMultiply {
  import opened ArmFields
  import opened ArmWord
  import opened ConstantPool
  import opened CodeLayout
  import opened CodeLinking
  import opened CodeCopy
  import opened ArmExecution
  import opened ArmImmediate
  import opened ArmMove
  import opened ArmAssembler

  // Condition fields.
  const EQ := 0
  const NE := 1
  const MI := 4

  // The scratch registers.
  const S0 := 3
  const S1 := 8

  // The words ------------------------------------------------------------------

  /** smull lo, hi, rm, rs */
  function SmullWord(hi: Digit, lo: Digit, rs: Digit, rm: Digit): Word { Digits(0xe, 0, 0xc, hi, lo, rs, 9, rm) }

  /** muls rd, rm, rs */
  function MulsWord(rd: Digit, rs: Digit, rm: Digit): Word { Digits(0xe, 0, 0x1, rd, 0, rs, 9, rm) }

  /** cmp rn, rm, asr #31 */
  function CmpSign(rn: Digit, rm: Digit): Word { Digits(0xe, 0x1, 0x5, rn, 0, 0xf, 0xc, rm) }

  // The processor --------------------------------------------------------------

  function SignedValue(x: bv32): int {
    if x < 0x8000_0000 then x as int else x as int - 0x1_0000_0000
  }

  function Low(product: int): Word { product % 0x1_0000_0000 }
  function High(product: int): Word { product / 0x1_0000_0000 % 0x1_0000_0000 }

  /** x asr #31 */
  function SignWord(x: bv32): bv32 {
    if x < 0x8000_0000 then 0 else 0xffff_ffff
  }

  /** The operands the architecture allows before version 6: rm is neither result. */
  predicate IsSmull(w: Word) {
    && Nibble(w, 7) == 0xe && Nibble(w, 6) == 0 && Nibble(w, 5) == 0xc && Nibble(w, 1) == 9
    && Nibble(w, 4) != PC && Nibble(w, 3) != PC && Nibble(w, 2) != PC && Nibble(w, 0) != PC
    && Nibble(w, 4) != Nibble(w, 3) && Nibble(w, 0) != Nibble(w, 4) && Nibble(w, 0) != Nibble(w, 3)
  }

  predicate IsMuls(w: Word) {
    && Nibble(w, 7) == 0xe && Nibble(w, 6) == 0 && Nibble(w, 5) == 1 && Nibble(w, 3) == 0 && Nibble(w, 1) == 9
    && Nibble(w, 4) != PC && Nibble(w, 2) != PC && Nibble(w, 0) != PC && Nibble(w, 0) != Nibble(w, 4)
  }

  predicate IsCmpSign(w: Word) {
    && Nibble(w, 7) == 0xe && Nibble(w, 6) == 1 && Nibble(w, 5) == 5 && Nibble(w, 3) == 0
    && Nibble(w, 2) == 0xf && Nibble(w, 1) == 0xc && Nibble(w, 4) != PC && Nibble(w, 0) != PC
  }

  function Product(regs: Registers, r1: nat, r2: nat): int
    requires r1 < 16 && r2 < 16
  {
    SignedValue(regs[r1]) * SignedValue(regs[r2])
  }

  /** The product in two registers, the others unchanged. */
  ghost predicate Multiplied(before: Registers, after: Registers, hi: nat, lo: nat, product: int) {
    forall r | 0 <= r < 16 ::
      if r == hi then after[r] as nat == High(product)
      else if r == lo then after[r] as nat == Low(product)
      else after[r] == before[r]
  }

  // Where the rest of the state has the Z and the N flag.
  datatype Flags<!X> = Flags(zero: X -> bool, negative: X -> bool)

  /** The low word in register `rd` and what the flags say of it. */
  ghost predicate MultipliedLow<X>(before: Registers, after: Machine<X>, flags: Flags<X>, rd: nat, product: int) {
    && (forall r | 0 <= r < 16 ::
          if r == rd then after.regs[r] as nat == Low(product) else after.regs[r] == before[r])
    && (flags.zero(after.rest) <==> Low(product) == 0)
    && (flags.negative(after.rest) <==> Low(product) >= 0x8000_0000)
  }

  /** A processor that also multiplies and compares. */
  ghost predicate IsMultiplier<X(!new)>(sem: Semantics<Machine<X>>, flags: Flags<X>) {
    && IsProcessor(sem)
    && (forall w: Word, address: nat, m: Machine<X> | IsSmull(w) ::
          && Multiplied(m.regs, sem.exec(w, address, m).regs, Nibble(w, 4), Nibble(w, 3),
                        Product(m.regs, Nibble(w, 0), Nibble(w, 2)))
          && sem.next(w, address, m) == Onward)
    && (forall w: Word, address: nat, m: Machine<X> | IsCmpSign(w) ::
          var r := sem.exec(w, address, m);
          && r.regs == m.regs && (flags.zero(r.rest) <==> m.regs[Nibble(w, 4)] == SignWord(m.regs[Nibble(w, 0)]))
          && sem.next(w, address, m) == Onward)
    && (forall w: Word, address: nat, m: Machine<X> | IsMuls(w) ::
          && MultipliedLow(m.regs, sem.exec(w, address, m), flags, Nibble(w, 4),
                           Product(m.regs, Nibble(w, 0), Nibble(w, 2)))
          && sem.next(w, address, m) == Onward)
    && (forall m: Machine<X> :: sem.holds(EQ, m) <==> flags.zero(m.rest))
    && (forall m: Machine<X> :: sem.holds(NE, m) <==> !flags.zero(m.rest))
    && (forall m: Machine<X> :: sem.holds(MI, m) <==> flags.negative(m.rest))
  }

  /** The number does not fit in a signed 32-bit register. */
  predicate Overflows(product: int) {
    !(-0x8000_0000 <= product < 0x8000_0000)
  }

  /** The comparison of mull32 decides the overflow. */
  lemma SignTellsOverflow(x: bv32, y: bv32, hi: bv32, lo: bv32)
    requires var p := SignedValue(x) * SignedValue(y); hi as nat == High(p) && lo as nat == Low(p)
    ensures hi != SignWord(lo) <==> Overflows(SignedValue(x) * SignedValue(y))
    ensures !Overflows(SignedValue(x) * SignedValue(y)) ==> SignedValue(lo) == SignedValue(x) * SignedValue(y)
  {
    hide SignedValue, High, Low, SignWord;
    SignedBound(x);
    SignedBound(y);
    ProductBound(SignedValue(x), SignedValue(y));
    SplitTellsOverflow(SignedValue(x) * SignedValue(y));
    SignWordAsNat(lo);
    SameBits(hi, SignWord(lo));
    SignedFromNat(lo);
  }

  lemma SignedBound(x: bv32)
    ensures -0x8000_0000 <= SignedValue(x) < 0x8000_0000
  {
  }

  lemma ProductBound(a: int, b: int)
    requires -0x8000_0000 <= a < 0x8000_0000 && -0x8000_0000 <= b < 0x8000_0000
    ensures -0x4000_0000_0000_0000 <= a * b <= 0x4000_0000_0000_0000
  {
    if a >= 0 {
      ScaledBound(a, b);
    } else {
      ScaledBound(-a, b);
      assert a * b == -(-a * b);
    }
  }

  lemma ScaledBound(a: nat, b: int)
    requires a <= 0x8000_0000 && -0x8000_0000 <= b < 0x8000_0000
    ensures -0x4000_0000_0000_0000 <= a * b <= 0x4000_0000_0000_0000
  {
    var n := 0x8000_0000;
    NonNegative(a, n - b);
    NonNegative(a, n + b);
    assert a * (n - b) == a * n - a * b && a * (n + b) == a * n + a * b;
  }

  lemma NonNegative(x: nat, y: nat)
    ensures x * y >= 0
  {
  }

  lemma SameBits(x: bv32, y: bv32)
    ensures x == y <==> x as nat == y as nat
  {
    WordAndBack(x);
    WordAndBack(y);
  }

  lemma SignWordAsNat(x: bv32)
    ensures SignWord(x) as nat == if x as nat < 0x8000_0000 then 0 else 0xffff_ffff
  {
  }

  lemma SignedFromNat(x: bv32)
    ensures SignedValue(x) == if x as int < 0x8000_0000 then x as int else x as int - 0x1_0000_0000
  {
  }

  lemma SplitTellsOverflow(p: int)
    requires -0x4000_0000_0000_0000 <= p <= 0x4000_0000_0000_0000
    ensures High(p) != (if Low(p) < 0x8000_0000 then 0 else 0xffff_ffff) <==> Overflows(p)
    ensures !Overflows(p) ==> p == if Low(p) < 0x8000_0000 then Low(p) else Low(p) - 0x1_0000_0000
  {
    var hi, lo := p / 0x1_0000_0000, p % 0x1_0000_0000;
    assert p == hi * 0x1_0000_0000 + lo;
    assert High(p) == if hi < 0 then hi + 0x1_0000_0000 else hi;
  }

  // Running the multiplication ---------------------------------------------------

  // The conditions branchMul32 accepts.
  datatype MulCondition = Overflow | Signed | Zero | NonZero

  /** The condition of the jump; an overflow shows as a difference. */
  function JumpCondition(cond: MulCondition): nat {
    match cond case Overflow => NE case Signed => MI case Zero => EQ case NonZero => NE
  }

  /** When the jump is to be taken, by the product alone. */
  predicate BranchWanted(cond: MulCondition, product: int) {
    match cond
    case Overflow => Overflows(product)
    case Signed => Low(product) >= 0x8000_0000
    case Zero => Low(product) == 0
    case NonZero => Low(product) != 0
  }

  /** The multiplication itself: mull32 for the overflow condition, else mul32. */
  function ProductOps(cond: MulCondition, rm: Digit, rs: Digit, dest: Digit): seq<Op> {
    if cond == Overflow then [Insn(SmullWord(S1, dest, rs, rm)), Insn(CmpSign(S1, dest))]
    else [Insn(MulsWord(dest, rs, rm))]
  }

  /** What is emitted for src1 * src2; a factor that is also the destination is moved away first. */
  function MulOps(cond: MulCondition, src1: Digit, src2: Digit, dest: Digit): seq<Op> {
    if src1 == dest then [Insn(MovRegister(S0, src1))] + ProductOps(cond, S0, src2, dest)
    else ProductOps(cond, src1, src2, dest)
  }

  /** The operands the two are made for: the scratch registers are their own. */
  predicate Multiplicands(src1: Digit, src2: Digit, dest: Digit) {
    && src1 != PC && src2 != PC && dest != PC
    && dest != S0 && dest != S1 && src1 != S1
    && (src1 == dest ==> src2 != S0)
  }

  /** The product is in `dest`, and only the scratch registers changed besides. */
  ghost predicate HoldsProduct(before: Registers, after: Registers, dest: nat, product: int)
    requires dest < 16
  {
    && after[dest] as nat == Low(product)
    && (!Overflows(product) ==> SignedValue(after[dest]) == product)
    && forall r | 0 <= r < 16 && r != dest && r != S0 && r != S1 :: after[r] == before[r]
  }

  lemma MultiplyWords(src1: Digit, src2: Digit, dest: Digit)
    requires Multiplicands(src1, src2, dest)
    ensures var rm := if src1 == dest then S0 else src1;
            var mov, smull, muls, cmp :=
              MovRegister(S0, src1), SmullWord(S1, dest, src2, rm), MulsWord(dest, src2, rm), CmpSign(S1, dest);
            && IsMovRegister(mov) && IsSmull(smull) && IsMuls(muls) && IsCmpSign(cmp)
            && Nibble(mov, 3) == S0 && Nibble(mov, 0) == src1
            && Nibble(smull, 4) == S1 && Nibble(smull, 3) == dest && Nibble(smull, 2) == src2 && Nibble(smull, 0) == rm
            && Nibble(muls, 4) == dest && Nibble(muls, 2) == src2 && Nibble(muls, 0) == rm
            && Nibble(cmp, 4) == S1 && Nibble(cmp, 0) == dest
  {
    hide Digits, Nibble;
    var rm := if src1 == dest then S0 else src1;
    DigitsFields(0xe, 0x1, 0xa, 0, S0, 0, 0, src1);
    DigitsFields(0xe, 0, 0xc, S1, dest, src2, 9, rm);
    DigitsFields(0xe, 0, 0x1, dest, 0, src2, 9, rm);
    DigitsFields(0xe, 0x1, 0x5, S1, 0, 0xf, 0xc, dest);
  }

  predicate IsPlainOp(op: Op) {
    op.Insn? && !IsBranch(op.word) && !IsLiteralLoad(op.word)
  }

  /** None of the words branches or loads. */
  lemma MulIsPlain(cond: MulCondition, src1: Digit, src2: Digit, dest: Digit)
    requires Multiplicands(src1, src2, dest)
    ensures forall op <- MulOps(cond, src1, src2, dest) :: IsPlainOp(op)
  {
    hide Digits, Nibble, Head, MovRegister, SmullWord, MulsWord, CmpSign;
    MultiplyWords(src1, src2, dest);
    forall op <- MulOps(cond, src1, src2, dest)
      ensures IsPlainOp(op)
    {
      CodeNibble(op.word);
    }
  }

  /** smull and cmp: the product, and Z cleared exactly on overflow. */
  lemma MultiplyAndCompare<X(!new)>(sem: Semantics<Machine<X>>, flags: Flags<X>, address: nat, address1: nat,
                                    m: Machine<X>, rm: Digit, rs: Digit, dest: Digit)
    requires IsMultiplier(sem, flags) && dest != PC && rm != PC && rs != PC
    requires dest != S0 && dest != S1 && rm != S1 && rm != dest
    ensures var m1 := sem.exec(SmullWord(S1, dest, rs, rm), address, m);
            var m2 := sem.exec(CmpSign(S1, dest), address1, m1);
            var p := Product(m.regs, rm, rs);
            && HoldsProduct(m.regs, m2.regs, dest, p)
            && (flags.zero(m2.rest) <==> !Overflows(p))
            && sem.next(SmullWord(S1, dest, rs, rm), address, m) == Onward
            && sem.next(CmpSign(S1, dest), address1, m1) == Onward
  {
    hide Digits, Nibble, SignedValue, High, Low, SignWord, Overflows, IsProcessor, MovRegister, SmullWord, CmpSign;
    MultiplyWords(rm, rs, dest);
    var m1 := sem.exec(SmullWord(S1, dest, rs, rm), address, m);
    SignTellsOverflow(m.regs[rm], m.regs[rs], m1.regs[S1], m1.regs[dest]);
  }

  /** muls: the low word, and the flags of it. */
  lemma MultiplyLow<X(!new)>(sem: Semantics<Machine<X>>, flags: Flags<X>, address: nat, m: Machine<X>,
                             rm: Digit, rs: Digit, dest: Digit)
    requires IsMultiplier(sem, flags) && Multiplicands(rm, rs, dest) && rm != dest
    ensures var r, p := sem.exec(MulsWord(dest, rs, rm), address, m), Product(m.regs, rm, rs);
            && HoldsProduct(m.regs, r.regs, dest, p)
            && (flags.zero(r.rest) <==> Low(p) == 0)
            && (flags.negative(r.rest) <==> Low(p) >= 0x8000_0000)
            && sem.next(MulsWord(dest, rs, rm), address, m) == Onward
  {
    hide Digits, Nibble, SignedValue, Low, Overflows, IsProcessor, MovRegister, SmullWord, MulsWord, CmpSign;
    MultiplyWords(rm, rs, dest);
    var r := sem.exec(MulsWord(dest, rs, rm), address, m);
    FittingLow(m.regs[rm], m.regs[rs], r.regs[dest]);
  }

  lemma FittingLow(x: bv32, y: bv32, lo: bv32)
    requires lo as nat == Low(SignedValue(x) * SignedValue(y))
    ensures !Overflows(SignedValue(x) * SignedValue(y)) ==> SignedValue(lo) == SignedValue(x) * SignedValue(y)
  {
    hide SignedValue;
    SignedBound(x);
    SignedBound(y);
    ProductBound(SignedValue(x), SignedValue(y));
    SplitTellsOverflow(SignedValue(x) * SignedValue(y));
    SignedFromNat(lo);
  }

  lemma FollowsOn<M>(q: Prog, base: nat, sem: Semantics<M>, k: nat, i: nat, m: M, i1: nat, m1: M, j: nat, m': M)
    requires i < |q.ops| == |q.pos| && Meaning(q, base, sem, i, m) == Goes(i1, m1)
    requires Follows(q, base, sem, k, i1, m1, j, m')
    ensures Follows(q, base, sem, k + 1, i, m, j, m')
  {
    hide Meaning;
  }

  lemma FollowsNothing<M>(q: Prog, base: nat, sem: Semantics<M>, j: nat, m: M)
    requires j < |q.ops| == |q.pos|
    ensures Follows(q, base, sem, 0, j, m, j, m)
  {
  }

  lemma {:induction false} FollowsAppend<M>(q: Prog, base: nat, sem: Semantics<M>, k: nat, n: nat,
                                            i: nat, m: M, i1: nat, m1: M, j: nat, m': M)
    requires Follows(q, base, sem, k, i, m, i1, m1) && Follows(q, base, sem, n, i1, m1, j, m')
    ensures Follows(q, base, sem, k + n, i, m, j, m')
  {
    hide Meaning;
    if k > 0 {
      var e := Meaning(q, base, sem, i, m);
      FollowsAppend(q, base, sem, k - 1, n, e.index, e.m, i1, m1, j, m');
      FollowsOn(q, base, sem, k - 1 + n, i, m, e.index, e.m, j, m');
    }
  }

  /** Operation `i` is a jump under the condition, linked to an operation. */
  ghost predicate IsJumpUnder(q: Prog, i: nat, cond: nat) {
    && i + 1 < |q.ops| == |q.pos| && q.ops[i].Load? && q.ops[i].target.To?
    && Condition(q.ops[i].insn) == cond && q.ops[i].target.dst.index < |q.ops|
  }

  function JumpTarget(q: Prog, i: nat, taken: bool): nat
    requires i < |q.ops| && q.ops[i].Load? && q.ops[i].target.To?
  {
    if taken then q.ops[i].target.dst.index else i + 1
  }

  /** The operations `ops` from `n` on, then a jump under the condition. */
  ghost predicate BeforeJump(q: Prog, n: nat, ops: seq<Op>, cond: nat) {
    && IsJumpUnder(q, n + |ops|, cond)
    && forall k | 0 <= k < |ops| :: q.ops[n + k] == ops[k]
  }

  /** From `n` to behind the jump at `end`: the product is computed, the jump taken if wanted. */
  ghost predicate BranchesOnProduct<X>(q: Prog, base: nat, sem: Semantics<Machine<X>>, n: nat, end: nat,
                                       m: Machine<X>, m': Machine<X>, cond: MulCondition, dest: Digit, p: int) {
    && n <= end && IsJumpUnder(q, end, JumpCondition(cond))
    && HoldsProduct(m.regs, m'.regs, dest, p)
    && Follows(q, base, sem, end + 1 - n, n, m, JumpTarget(q, end, BranchWanted(cond, p)), m')
  }

  lemma JumpDecided<X(!new)>(q: Prog, base: nat, sem: Semantics<Machine<X>>, end: nat, m: Machine<X>,
                             cond: nat, taken: bool)
    requires IsJumpUnder(q, end, cond) && (sem.holds(cond, m) <==> taken)
    ensures Follows(q, base, sem, 1, end, m, JumpTarget(q, end, taken), m)
  {
    hide Follows, Condition;
    var j := JumpTarget(q, end, taken);
    FollowsNothing(q, base, sem, j, m);
    FollowsOn(q, base, sem, 0, end, m, j, m, j, m);
  }

  lemma ProductBranches<X(!new)>(q: Prog, base: nat, sem: Semantics<Machine<X>>, flags: Flags<X>, n: nat,
                                 m: Machine<X>, cond: MulCondition, rm: Digit, rs: Digit, dest: Digit)
      returns (m': Machine<X>)
    requires IsMultiplier(sem, flags) && Multiplicands(rm, rs, dest) && rm != dest
    requires BeforeJump(q, n, ProductOps(cond, rm, rs, dest), JumpCondition(cond))
    ensures BranchesOnProduct(q, base, sem, n, n + |ProductOps(cond, rm, rs, dest)|, m, m', cond, dest,
                              Product(m.regs, rm, rs))
  {
    hide HoldsProduct, Overflows, Product, Low, SmullWord, MulsWord, CmpSign, IsMovRegister, IsSmull, IsMuls, IsCmpSign,
         IsProcessor, Follows, IsJumpUnder, JumpTarget;
    var p, ops := Product(m.regs, rm, rs), ProductOps(cond, rm, rs, dest);
    var end, taken := n + |ops|, BranchWanted(cond, p);
    JumpBounds(q, end, JumpCondition(cond));
    assert q.ops[n + 0] == ops[0];
    if cond == Overflow {
      assert q.ops[n + 1] == ops[1];
      var m1 := sem.exec(SmullWord(S1, dest, rs, rm), AddressOf(q, base, n), m);
      m' := sem.exec(CmpSign(S1, dest), AddressOf(q, base, n + 1), m1);
      MultiplyAndCompare(sem, flags, AddressOf(q, base, n), AddressOf(q, base, n + 1), m, rm, rs, dest);
      JumpDecided(q, base, sem, end, m', JumpCondition(cond), taken);
      FollowsOn(q, base, sem, 1, n + 1, m1, n + 2, m', JumpTarget(q, end, taken), m');
      FollowsOn(q, base, sem, 2, n, m, n + 1, m1, JumpTarget(q, end, taken), m');
    } else {
      m' := sem.exec(MulsWord(dest, rs, rm), AddressOf(q, base, n), m);
      MultiplyLow(sem, flags, AddressOf(q, base, n), m, rm, rs, dest);
      JumpDecided(q, base, sem, end, m', JumpCondition(cond), taken);
      FollowsOn(q, base, sem, 1, n, m, n + 1, m', JumpTarget(q, end, taken), m');
    }
  }

  lemma JumpBounds(q: Prog, i: nat, cond: nat)
    requires IsJumpUnder(q, i, cond)
    ensures i + 1 < |q.ops| == |q.pos| && q.ops[i].Load? && q.ops[i].target.To?
  {
  }

  /**
    The multiplication and the jump behind it: `dest` gets the product modulo
    2^32, and the jump is taken if and only if the condition wants it for the
    product, for Overflow if and only if the signed product does not fit.
   */
  lemma MultiplicationBranches<X(!new)>(q: Prog, base: nat, sem: Semantics<Machine<X>>, flags: Flags<X>, n: nat,
                                        m: Machine<X>, cond: MulCondition, src1: Digit, src2: Digit, dest: Digit)
      returns (m': Machine<X>)
    requires IsMultiplier(sem, flags) && Multiplicands(src1, src2, dest)
    requires BeforeJump(q, n, MulOps(cond, src1, src2, dest), JumpCondition(cond))
    ensures BranchesOnProduct(q, base, sem, n, n + |MulOps(cond, src1, src2, dest)|, m, m', cond, dest,
                              Product(m.regs, src1, src2))
  {
    hide Overflows, SignedValue, BranchWanted, SmullWord, MulsWord, CmpSign, MovRegister, IsMovRegister, IsSmull,
         IsMuls, IsCmpSign, IsProcessor, Follows, IsJumpUnder, JumpTarget, JumpCondition, Low, ProductOps;
    JumpBounds(q, n + |MulOps(cond, src1, src2, dest)|, JumpCondition(cond));
    if src1 == dest {
      var ops, rest := MulOps(cond, src1, src2, dest), ProductOps(cond, S0, src2, dest);
      assert q.ops[n + 0] == ops[0];
      forall k | 0 <= k < |rest|
        ensures q.ops[n + 1 + k] == rest[k]
      {
        assert q.ops[n + (1 + k)] == ops[1 + k];
      }
      MultiplyWords(src1, src2, dest);
      RegisterMove(sem, MovRegister(S0, src1), base + 4 * q.pos[n], m);
      var m1 := m.(regs := m.regs[S0 := m.regs[src1]]);
      m' := ProductBranches(q, base, sem, flags, n + 1, m1, cond, S0, src2, dest);
      var p, end := Product(m.regs, src1, src2), n + |ops|;
      assert Product(m1.regs, S0, src2) == p;
      FollowsOn(q, base, sem, |rest| + 1, n, m, n + 1, m1, JumpTarget(q, end, BranchWanted(cond, p)), m');
    } else {
      m' := ProductBranches(q, base, sem, flags, n, m, cond, src1, src2, dest);
    }
  }

  /** The form with an immediate factor, which is first moved to S0. */
  lemma ImmediateBranches<X(!new)>(q: Prog, base: nat, sem: Semantics<Machine<X>>, flags: Flags<X>, n: nat,
                                   m: Machine<X>, moved: seq<Op>, imm: bv32, cond: MulCondition,
                                   src: Digit, dest: Digit) returns (m': Machine<X>)
    requires IsMultiplier(sem, flags) && Multiplicands(S0, src, dest) && src != S0
    requires Moves(moved, S0, imm) && BeforeJump(q, n, moved + MulOps(cond, S0, src, dest), JumpCondition(cond))
    ensures BranchesOnProduct(q, base, sem, n, n + |moved + MulOps(cond, S0, src, dest)|, m, m', cond, dest,
                              SignedValue(imm) * SignedValue(m.regs[src]))
  {
    hide Overflows, SignedValue, BranchWanted, IsProcessor, Follows, Moves, Low, MulOps, IsJumpUnder, JumpTarget,
         JumpCondition;
    var rest := MulOps(cond, S0, src, dest);
    var ops, n1, m1 := moved + rest, n + |moved|, Holding(m, S0, imm);
    var end, p := n + |ops|, Product(m1.regs, S0, src);
    JumpBounds(q, end, JumpCondition(cond));
    forall k | 0 <= k < |moved|
      ensures q.ops[n..n1][k] == moved[k]
    {
      assert q.ops[n + k] == ops[k];
    }
    assert q.ops[n..n1] == moved;
    forall k | 0 <= k < |rest|
      ensures q.ops[n1 + k] == rest[k]
    {
      assert q.ops[n + (|moved| + k)] == ops[|moved| + k];
    }
    MovesArrive(q, base, sem, n, m, moved, S0, imm);
    m' := MultiplicationBranches(q, base, sem, flags, n1, m1, cond, S0, src, dest);
    FollowsAppend(q, base, sem, |moved|, end + 1 - n1, n, m, n1, m1, JumpTarget(q, end, BranchWanted(cond, p)), m');
  }

  // In the executable copy ------------------------------------------------------------

  /** From operation `n` the copy runs to the jump's target if it is wanted, else behind the jump. */
  ghost predicate CopyBranches<X>(a: Asm, base: nat, sem: Semantics<Machine<X>>, n: nat, end: nat,
                                  m: Machine<X>, m': Machine<X>, cond: MulCondition, dest: Digit, p: int, steps: nat)
    requires Valid(a)
  {
    var q := Finished(a.prog);
    && n < |q.pos| && IsJumpUnder(q, end, JumpCondition(cond))
    && HoldsProduct(m.regs, m'.regs, dest, p)
    && Executes(q, Image(base, Copied(a, base)), sem, steps, AddressOf(q, base, n), m,
                AddressOf(q, base, JumpTarget(q, end, BranchWanted(cond, p))), m')
  }

  /** End to end: in the copied code, pools and barriers in between, the branch is taken exactly if wanted. */
  lemma CopyMultiplies<X(!new)>(a: Asm, base: nat, sem: Semantics<Machine<X>>, flags: Flags<X>, n: nat,
                                m: Machine<X>, cond: MulCondition, src1: Digit, src2: Digit, dest: Digit)
      returns (m': Machine<X>, steps: nat)
    requires Valid(a) && Fits(a, base) && Plain(a.prog)
    requires IsMultiplier(sem, flags) && Multiplicands(src1, src2, dest)
    requires BeforeJump(Finished(a.prog), n, MulOps(cond, src1, src2, dest), JumpCondition(cond))
    ensures CopyBranches(a, base, sem, n, n + |MulOps(cond, src1, src2, dest)|, m, m', cond, dest,
                         Product(m.regs, src1, src2), steps)
  {
    hide Finished, Copied, Follows, Executes, Fits, Plain, HoldsProduct, Product, BeforeJump, MulOps, MultipliedLow,
         Multiplied, JumpCondition;
    m' := MultiplicationBranches(Finished(a.prog), base, sem, flags, n, m, cond, src1, src2, dest);
    steps := CopyFollows(a, base, sem, n, n + |MulOps(cond, src1, src2, dest)|, m, m', cond, dest,
                         Product(m.regs, src1, src2));
  }

  lemma CopyMultipliesImmediate<X(!new)>(a: Asm, base: nat, sem: Semantics<Machine<X>>, flags: Flags<X>, n: nat,
                                         m: Machine<X>, moved: seq<Op>, imm: bv32, cond: MulCondition,
                                         src: Digit, dest: Digit) returns (m': Machine<X>, steps: nat)
    requires Valid(a) && Fits(a, base) && Plain(a.prog)
    requires IsMultiplier(sem, flags) && Multiplicands(S0, src, dest) && src != S0 && Moves(moved, S0, imm)
    requires BeforeJump(Finished(a.prog), n, moved + MulOps(cond, S0, src, dest), JumpCondition(cond))
    ensures CopyBranches(a, base, sem, n, n + |moved + MulOps(cond, S0, src, dest)|, m, m', cond, dest,
                         SignedValue(imm) * SignedValue(m.regs[src]), steps)
  {
    hide Finished, Copied, Follows, Executes, Fits, Plain, HoldsProduct, SignedValue, BeforeJump, MulOps, Moves,
         MultipliedLow, Multiplied, JumpCondition;
    var p := SignedValue(imm) * SignedValue(m.regs[src]);
    m' := ImmediateBranches(Finished(a.prog), base, sem, flags, n, m, moved, imm, cond, src, dest);
    steps := CopyFollows(a, base, sem, n, n + |moved + MulOps(cond, S0, src, dest)|, m, m', cond, dest, p);
  }

  lemma CopyFollows<X(!new)>(a: Asm, base: nat, sem: Semantics<Machine<X>>, n: nat, end: nat,
                             m: Machine<X>, m': Machine<X>, cond: MulCondition, dest: Digit, p: int)
      returns (steps: nat)
    requires Valid(a) && Fits(a, base) && Plain(a.prog) && Sane(sem)
    requires BranchesOnProduct(Finished(a.prog), base, sem, n, end, m, m', cond, dest, p)
    ensures CopyBranches(a, base, sem, n, end, m, m', cond, dest, p, steps)
  {
    hide Finished, Copied, Executes, Fits, Plain, HoldsProduct, Meaning, BranchWanted, JumpCondition, Condition;
    steps := CopyRunsFrom(a, base, sem, end + 1 - n, n, m,
                          JumpTarget(Finished(a.prog), end, BranchWanted(cond, p)), m');
  }

  // Emitting it --------------------------------------------------------------------

  /** The jump branchMul32 ends with, not linked yet. */
  function FreshJump(cond: MulCondition): Op {
    Load(LiteralLoad(JumpCondition(cond), PC), UNLINKED, false, Unlinked)
  }

  /** It is a load of the pc under the condition, with a constant of its own; linked, it is the jump that decides. */
  lemma FreshJumpFields(cond: MulCondition)
    ensures var op := FreshJump(cond);
            && op.Load? && IsLiteralLoad(op.insn) && DestRegister(op.insn) == 15 && !op.isReusable
            && op.target.Unlinked? && op.constant == 0xffff_ffff
            && Condition(op.insn) == (match cond case Signed => 4 case Zero => 0 case _ => 1) == JumpCondition(cond)
  {
    hide LiteralLoad, IsLiteralLoad, Condition, DestRegister;
    LiteralLoadFields(JumpCondition(cond), PC);
  }

  class MacroAssemblerARM {
    const assembler: ARMAssembler

    constructor ()
      ensures assembler.Valid() && assembler.hist == NO_CODE
    {
      assembler := new ARMAssembler();
    }

    method EmitWord(w: Word)
      requires assembler.Valid()
      modifies assembler`hist, assembler.buffer
      ensures assembler.Valid() && Grown(old(assembler.hist), assembler.hist)
      ensures assembler.hist.prog.ops == old(assembler.hist.prog.ops) + [Insn(w)]
    {
      hide CodeLinking.Valid, Reaches, EmitInsn, IsJumpList;
      PutInsnKeepsValid(assembler.hist, w);
      assembler.EmitInst(w);
    }

    method Mull32(src1: Digit, src2: Digit, dest: Digit)
      requires assembler.Valid()
      modifies assembler`hist, assembler.buffer
      ensures assembler.Valid()
      ensures assembler.hist.prog.ops == old(assembler.hist.prog.ops) + MulOps(Overflow, src1, src2, dest)
    {
      hide CodeLinking.Valid, Reaches, SmullWord, CmpSign, MovRegister, IsJumpList;
      var src := src1;
      if src1 == dest {
        EmitWord(MovRegister(S0, src1));
        src := S0;
      }
      EmitWord(SmullWord(S1, dest, src2, src));
      EmitWord(CmpSign(S1, dest));
    }

    /** mul32(src, dest) */
    method Mul32(src: Digit, dest: Digit, ghost cond: MulCondition)
      requires assembler.Valid() && cond != Overflow
      modifies assembler`hist, assembler.buffer
      ensures assembler.Valid()
      ensures assembler.hist.prog.ops == old(assembler.hist.prog.ops) + MulOps(cond, src, dest, dest)
    {
      hide CodeLinking.Valid, Reaches, MulsWord, MovRegister, IsJumpList;
      var rm := src;
      if src == dest {
        EmitWord(MovRegister(S0, src));
        rm := S0;
      }
      EmitWord(MulsWord(dest, dest, rm));
    }

    /** branchMul32(cond, src, dest); the result is the jump's offset. */
    method BranchMul32(cond: MulCondition, src: Digit, dest: Digit) returns (source: nat)
      requires assembler.Valid()
      modifies assembler, assembler.buffer, assembler.buffer.pool, assembler.buffer.mask
      ensures assembler.Valid()
      ensures assembler.hist.prog.ops
              == old(assembler.hist.prog.ops) + MulOps(cond, src, dest, dest) + [FreshJump(cond)]
    {
      hide CodeLinking.Valid, Reaches, MulOps, LiteralLoad, PutJump, IsJumpList;
      if cond == Overflow {
        Mull32(src, dest, dest);
      } else {
        Mul32(src, dest, cond);
      }
      PutJumpKeepsValid(assembler.hist, JumpCondition(cond), false);
      source := assembler.Jmp(JumpCondition(cond), false);
    }

    /** branchMul32(cond, imm, src, dest) for a number, not a pointer. */
    method BranchMul32Imm(cond: MulCondition, imm: bv32, src: Digit, dest: Digit)
        returns (source: nat, ghost moved: seq<Op>)
      requires assembler.Valid() && dest != S0
      modifies assembler, assembler.buffer, assembler.buffer.pool, assembler.buffer.mask
      ensures assembler.Valid() && Moves(moved, S0, imm)
      ensures assembler.hist.prog.ops
              == old(assembler.hist.prog.ops) + moved + MulOps(cond, S0, src, dest) + [FreshJump(cond)]
    {
      hide CodeLinking.Valid, Reaches, LiteralLoad, PutJump, IsJumpList, Moves, MulsWord, SmullWord, CmpSign;
      assembler.MoveImm(imm, S0);
      moved := Added(old(assembler.hist), assembler.hist);
      if cond == Overflow {
        Mull32(S0, src, dest);
      } else {
        EmitWord(MulsWord(dest, src, S0));
      }
      PutJumpKeepsValid(assembler.hist, JumpCondition(cond), false);
      source := assembler.Jmp(JumpCondition(cond), false);
    }
  }
}
