/**
  The alignment test of the buffers, which masks the size with alignment - 1: for
  powers of two, and those only, it is the remainder that is tested. For any other
  alignment it fails at some multiples and passes elsewhere.
 */
module Alignment {
  /** Bitwise and. */
  function Masked(x: nat, mask: nat): nat {
    if mask == 0 then 0 else 2 * Masked(x / 2, mask / 2) + x % 2 * (mask % 2)
  }

  predicate PowerOfTwo(n: nat) {
    n == 1 || (n > 0 && n % 2 == 0 && PowerOfTwo(n / 2))
  }

  lemma {:induction false} MaskIsRemainder(x: nat, n: nat)
    requires PowerOfTwo(n)
    ensures Masked(x, n - 1) == x % n
  {
    if n == 1 {
      assert Masked(x, 0) == 0;
    } else {
      var m := n / 2;
      MaskIsRemainder(x / 2, m);
      assert (n - 1) / 2 == m - 1 && (n - 1) % 2 == 1;
      HalfRemainder(x, m);
    }
  }

  lemma HalfRemainder(x: nat, m: nat)
    requires m > 0
    ensures x % (2 * m) == 2 * (x / 2 % m) + x % 2
  {
    var h := x / 2;
    var q, r := h / m, h % m;
    assert h == q * m + r;
    assert x == q * (2 * m) + (2 * r + x % 2);
    SameRemainder(x, q, 2 * m, 2 * r + x % 2);
  }

  lemma SameRemainder(x: int, q: int, d: int, r: int)
    requires x == q * d + r && 0 <= r < d
    ensures x % d == r
  {
    var k := x / d - q;
    assert x == d * (x / d) + x % d;
    assert d * k == r - x % d;
    assert k >= 1 ==> d * k >= d;
    assert k <= -1 ==> d * k <= -d;
  }

  /** The test the buffers make; as a mask, -1 is all ones. */
  predicate MaskTest(size: nat, alignment: nat) {
    Masked(size, if alignment == 0 then 0xffff_ffff else alignment - 1) == 0
  }

  /** The first power of two that is not below `n`. */
  function {:induction false} NextPower(n: nat): (p: nat)
    requires n > 0
    ensures PowerOfTwo(p) && n <= p < 2 * n
  {
    if n == 1 then 1
    else
      var p := NextPower((n + 1) / 2);
      OddPower(p);
      2 * p
  }

  lemma OddPower(p: nat)
    requires PowerOfTwo(p)
    ensures PowerOfTwo(2 * p) && (p % 2 == 1 ==> p == 1)
  {
    assert 2 * p / 2 == p;
  }

  lemma {:induction false} MaskBelowPower(p: nat, mask: nat)
    requires PowerOfTwo(p) && mask < p
    ensures Masked(p, mask) == 0
  {
    if mask != 0 {
      MaskBelowPower(p / 2, mask / 2);
    }
  }

  /** The mask test is the test of the remainder exactly if the alignment is a power of two. */
  lemma MaskTestIsExact(alignment: nat)
    requires alignment > 0
    ensures (forall size: nat :: MaskTest(size, alignment) <==> size % alignment == 0) <==> PowerOfTwo(alignment)
  {
    if PowerOfTwo(alignment) {
      forall size: nat
        ensures MaskTest(size, alignment) <==> size % alignment == 0
      {
        MaskIsRemainder(size, alignment);
      }
    } else {
      var p := NextPower(alignment);
      MaskBelowPower(p, alignment - 1);
      SameRemainder(p, 1, alignment, p - alignment);
      assert MaskTest(p, alignment) && p % alignment != 0;
    }
  }

  lemma TestOfPower(size: nat, alignment: nat)
    ensures PowerOfTwo(alignment) ==> (MaskTest(size, alignment) <==> size % alignment == 0)
  {
    if PowerOfTwo(alignment) {
      MaskTestIsExact(alignment);
    }
  }

  /** At the multiples of the next power of two every alignment passes. */
  lemma PassesAtPower(size: nat, alignment: nat)
    requires alignment > 0 && size % NextPower(alignment) == 0
    ensures MaskTest(size, alignment)
  {
    hide NextPower, Masked, PowerOfTwo;
    MaskOfMultiple(size, NextPower(alignment), alignment - 1);
  }

  lemma {:induction false} MaskOfMultiple(x: nat, p: nat, mask: nat)
    requires PowerOfTwo(p) && x % p == 0 && mask < p
    ensures Masked(x, mask) == 0
  {
    if mask != 0 {
      PowerHalves(p);
      HalfRemainder(x, p / 2);
      MaskOfMultiple(x / 2, p / 2, mask / 2);
    }
  }

  lemma PowerHalves(n: nat)
    requires PowerOfTwo(n) && n != 1
    ensures n > 0 && n == 2 * (n / 2) && PowerOfTwo(n / 2)
  {
  }

  /** Code is put in words, so only the alignments from 8 on ask for padding. */
  lemma SmallPowers(n: nat)
    requires PowerOfTwo(n)
    ensures n == 1 || n == 2 || n % 4 == 0
  {
    hide PowerOfTwo;
    if n != 1 {
      PowerHalves(n);
      if n != 2 {
        PowerHalves(n / 2);
        HalfOfHalf(n);
      }
    }
  }

  lemma HalfOfHalf(n: nat)
    requires n == 2 * (n / 2) && n / 2 == 2 * (n / 2 / 2)
    ensures n % 4 == 0
  {
  }

  lemma EightIsPower()
    ensures PowerOfTwo(8)
  {
    assert PowerOfTwo(4);
  }
}
