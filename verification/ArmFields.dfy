/**
  Instruction words by their hexadecimal digits, and the move from one register
  to another (MOV (register) of DDI 0406, encoding A1).
 */
module ArmFields {
  import opened ArmWord

  /** Hexadecimal digit `i`, counted from the lowest. */
  function Nibble(w: nat, i: nat): (n: nat)
    ensures n < 16
  {
    if i == 0 then w % 16 else Nibble(w / 16, i - 1)
  }

  type Digit = n: nat | n < 16

  function Push(high: nat, d: Digit): nat {
    high * 16 + d
  }

  function Digits(d7: Digit, d6: Digit, d5: Digit, d4: Digit, d3: Digit, d2: Digit, d1: Digit, d0: Digit): Word {
    Push(Push(Push(Push(Push(Push(Push(d7, d6), d5), d4), d3), d2), d1), d0)
  }

  lemma NibbleOfPush(high: nat, d: Digit, i: nat)
    ensures Nibble(Push(high, d), i) == if i == 0 then d else Nibble(high, i - 1)
  {
    DivMod(high, 16, d);
  }

  lemma DigitsFields(d7: Digit, d6: Digit, d5: Digit, d4: Digit, d3: Digit, d2: Digit, d1: Digit, d0: Digit)
    ensures var w := Digits(d7, d6, d5, d4, d3, d2, d1, d0);
            && Nibble(w, 7) == d7 && Nibble(w, 6) == d6 && Nibble(w, 5) == d5 && Nibble(w, 4) == d4
            && Nibble(w, 3) == d3 && Nibble(w, 2) == d2 && Nibble(w, 1) == d1 && Nibble(w, 0) == d0
  {
    hide Push, Nibble;
    forall high: nat, d: Digit, i: nat
      ensures Nibble(Push(high, d), i) == if i == 0 then d else Nibble(high, i - 1)
    {
      NibbleOfPush(high, d, i);
    }
    assert Nibble(d7, 0) == d7 by {
      SmallNibble(d7);
    }
  }

  lemma SmallNibble(d: Digit)
    ensures Nibble(d, 0) == d
  {
  }

  lemma CodeNibble(w: Word)
    ensures Head(w) / 0x1000 % 16 == Nibble(w, 6)
  {
    assert Nibble(w, 6) == Nibble(w / 16, 5) == Nibble(w / 16 / 16, 4);
    assert Nibble(w / 16 / 16, 4) == Nibble(w / 16 / 16 / 16, 3) == Nibble(w / 16 / 16 / 16 / 16, 2);
    assert Nibble(w / 16 / 16 / 16 / 16, 2) == Nibble(w / 16 / 16 / 16 / 16 / 16, 1);
  }

  /** mov rd, rm */
  function MovRegister(rd: Digit, rm: Digit): Word { Digits(0xe, 0x1, 0xa, 0, rd, 0, 0, rm) }

  /** mov rd, rm: always executed, flags untouched, no shift; rm may be the pc. */
  predicate IsMovRegister(w: Word) {
    && Nibble(w, 7) == 0xe && Nibble(w, 6) == 1 && Nibble(w, 5) == 0xa && Nibble(w, 4) == 0
    && Nibble(w, 2) == 0 && Nibble(w, 1) == 0 && Nibble(w, 3) != PC
  }

  lemma MovRegisterFields(rd: Digit, rm: Digit)
    requires rd != PC
    ensures var w := MovRegister(rd, rm);
            && IsMovRegister(w) && Nibble(w, 3) == rd && Nibble(w, 0) == rm
            && !IsBranch(w) && !IsLiteralLoad(w)
  {
    hide Digits, Nibble, Head;
    DigitsFields(0xe, 0x1, 0xa, 0, rd, 0, 0, rm);
    CodeNibble(MovRegister(rd, rm));
  }
}
