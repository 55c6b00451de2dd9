/**
  Putting a 32-bit value into a register: the instructions moveImm can emit, and
  that each of them leaves the value there when the copied code runs.
 */
module ArmMove {
  import opened ArmFields
  import opened ArmWord
  import opened ConstantPool
  import opened CodeLayout
  import opened CodeLinking
  import opened CodeCopy
  import opened ArmExecution
  import opened ArmImmediate

  // Data-processing opcodes.
  const ORR := 12
  const MOV := 13
  const BIC := 14
  const MVN := 15

  /** AL | opcode | RN(rn) | RD(rd) | op2, for an immediate operand. */
  function MoveWord(opcode: nat, rd: nat, rn: nat, op2: Operand2): Word
    requires opcode < 16 && rd < 16 && rn < 16 && IsImmediate(op2)
  {
    0xe000_0000 + opcode * 0x20_0000 + rn * 0x1_0000 + rd * 0x1000 + op2
  }

  function Opcode(head: nat): nat { head / 0x200 % 16 }
  function SourceRegister(head: nat): nat { head / 0x10 % 16 }
  predicate IsImmediateForm(head: nat) { head / 0x2000 % 8 == 1 }

  lemma MoveHead(opcode: nat, rd: nat, rn: nat)
    requires opcode < 16 && rd < 16 && rn < 16
    ensures var head := 0xe_2000 + opcode * 0x200 + rn * 0x10 + rd;
            && head < 0x10_0000 && IsImmediateForm(head) && !LiteralHead(head)
            && Opcode(head) == opcode && SourceRegister(head) == rn && head % 16 == rd
            && head / 0x1000 % 16 != 10 && head / 0x100 % 2 == 0 && head / 0x1_0000 == AL
  {
    var low := rn * 0x10 + rd;
    DivMod(0x71, 0x2000, opcode * 0x200 + low);
    DivMod(0xe2 + opcode / 8, 0x1000, opcode % 8 * 0x200 + low);
    DivMod(0x710 + opcode, 0x200, low);
    DivMod(0x71, 16, opcode);
    DivMod(0xe20 + opcode * 2, 0x100, low);
    DivMod(0xe200 + opcode * 0x20 + rn, 0x10, rd);
    DivMod(0xe20 + opcode * 2, 0x10, rn);
    DivMod(0xe, 0x1_0000, 0x2000 + opcode * 0x200 + low);
  }

  lemma MoveFields(opcode: nat, rd: nat, rn: nat, op2: Operand2)
    requires opcode < 16 && rd < 16 && rn < 16 && IsImmediate(op2)
    ensures var w := MoveWord(opcode, rd, rn, op2);
            && Opcode(Head(w)) == opcode && DestRegister(w) == rd && SourceRegister(Head(w)) == rn
            && OP2_IMM + OffsetField(w) == op2
            && !IsBranch(w) && !IsLiteralLoad(w)
            && (ORR <= opcode && rd != PC && rn != PC ==> IsMove(w))
  {
    var head, low := 0xe_2000 + opcode * 0x200 + rn * 0x10 + rd, op2 % 0x1000;
    MoveHead(opcode, rd, rn);
    assert MoveWord(opcode, rd, rn, op2) == Join(head, low);
    hide LiteralHead, Opcode, SourceRegister, IsImmediateForm, Join, Head, OffsetField;
    JoinFields(head, low);
  }

  // The processor --------------------------------------------------------------

  type Registers = r: seq<bv32> | |r| == 16 witness seq(16, _ => 0)

  // The registers, and whatever else a state has.
  datatype Machine<X> = Machine(regs: Registers, rest: X)

  /** mov, mvn, orr or bic with an immediate operand, always executed, flags and pc untouched. */
  predicate IsMove(w: Word) {
    && Condition(w) == AL && IsImmediateForm(Head(w)) && Opcode(Head(w)) >= ORR && Head(w) / 0x100 % 2 == 0
    && DestRegister(w) != PC && SourceRegister(Head(w)) != PC
  }

  function Alu(opcode: nat, source: bv32, operand: bv32): bv32 {
    if opcode == MOV then operand
    else if opcode == MVN then Not(operand)
    else if opcode == ORR then Or(source, operand)
    else And(source, Not(operand))
  }

  function MoveResult(w: Word, regs: Registers): bv32
    requires IsMove(w)
  {
    Alu(Opcode(Head(w)), regs[SourceRegister(Head(w))], Expand(OP2_IMM + OffsetField(w)))
  }

  /** What a register reads as at an address: the pc is two instructions ahead. */
  function ReadRegister(regs: Registers, r: nat, address: nat): bv32
    requires r < 16
  {
    if r == PC then ((address + 8) % 0x1_0000_0000) as bv32 else regs[r]
  }

  /** The processor executes moves and register loads as the architecture says. */
  ghost predicate IsProcessor<X(!new)>(sem: Semantics<Machine<X>>) {
    && Sane(sem)
    && (forall w: Word, address: nat, m: Machine<X> | IsMove(w) ::
          && sem.exec(w, address, m) == m.(regs := m.regs[DestRegister(w) := MoveResult(w, m.regs)])
          && sem.next(w, address, m) == Onward)
    && (forall w: Word, address: nat, m: Machine<X> | IsMovRegister(w) ::
          && sem.exec(w, address, m) == m.(regs := m.regs[Nibble(w, 3) := ReadRegister(m.regs, Nibble(w, 0), address)])
          && sem.next(w, address, m) == Onward)
    && (forall rd: nat, v: Word, m: Machine<X> | rd < PC :: sem.setReg(rd, v, m) == m.(regs := m.regs[rd := v as bv32]))
  }

  lemma RegisterMove<X(!new)>(sem: Semantics<Machine<X>>, w: Word, address: nat, m: Machine<X>)
    requires IsProcessor(sem) && IsMovRegister(w)
    ensures sem.exec(w, address, m) == m.(regs := m.regs[Nibble(w, 3) := ReadRegister(m.regs, Nibble(w, 0), address)])
    ensures sem.next(w, address, m) == Onward
  {
  }

  // What moveImm emits ------------------------------------------------------------

  ghost predicate MovedByOne(ops: seq<Op>, dest: nat, opcode: nat, operand: bv32)
    requires dest < 16 && opcode < 16
  {
    exists op2 :: IsImmediate(op2) && Expand(op2) == operand && ops == [Insn(MoveWord(opcode, dest, 0, op2))]
  }

  ghost predicate MovedByTwo(ops: seq<Op>, dest: nat, first: nat, second: nat, operand: bv32)
    requires dest < 16 && first < 16 && second < 16
  {
    exists i1, i2 :: IsPair(operand, i1, i2)
      && ops == [Insn(MoveWord(first, dest, 0, i1)), Insn(MoveWord(second, dest, dest, i2))]
  }

  predicate MovedByLoad(ops: seq<Op>, dest: nat, value: bv32)
    requires dest < 16
  {
    ops == [Load(LiteralLoad(AL, dest), value as Word, true, Unlinked)]
  }

  /** What encodeComplexImm emits to move `value` to register `dest`: a load only if nothing else will do. */
  ghost predicate MovedByMany(ops: seq<Op>, dest: nat, value: bv32)
    requires dest < 16
  {
    if HasPair(value) then MovedByTwo(ops, dest, MOV, ORR, value)
    else if HasPair(Not(value)) then MovedByTwo(ops, dest, MVN, BIC, Not(value))
    else MovedByLoad(ops, dest, value)
  }

  /** What moveImm emits: one instruction exactly if there is one. */
  ghost predicate Moves(ops: seq<Op>, dest: nat, value: bv32)
    requires dest < 16
  {
    if Encodable(value) then MovedByOne(ops, dest, MOV, value)
    else if Encodable(Not(value)) then MovedByOne(ops, dest, MVN, Not(value))
    else MovedByMany(ops, dest, value)
  }

  /**
    No expansion is longer than it has to be: one instruction if the value or its
    complement is encodable, else two if one of them is a pair, else a pool load.
    The value itself comes first each time, and the words say so.
   */
  lemma MovesAreShort(ops: seq<Op>, dest: nat, value: bv32)
    requires dest < 16 && Moves(ops, dest, value)
    ensures if Encodable(value) || Encodable(Not(value))
            then |ops| == 1 && IsWordOf(ops[0], if Encodable(value) then 13 else 15)
            else if HasPair(value) || HasPair(Not(value))
            then && |ops| == 2
                 && IsWordOf(ops[0], if HasPair(value) then 13 else 15)
                 && IsWordOf(ops[1], if HasPair(value) then 12 else 14)
            else |ops| == 1 && ops[0].Load? && ops[0].isReusable
  {
    hide Encodable, HasPair, Not, IsPair, MoveWord, LiteralLoad, Opcode, Head, Expand;
    if Encodable(value) {
      OneWord(ops, dest, MOV, value);
    } else if Encodable(Not(value)) {
      OneWord(ops, dest, MVN, Not(value));
    } else if HasPair(value) {
      TwoWords(ops, dest, MOV, ORR, value);
    } else if HasPair(Not(value)) {
      TwoWords(ops, dest, MVN, BIC, Not(value));
    }
  }

  predicate IsWordOf(op: Op, opcode: nat) {
    op.Insn? && Opcode(Head(op.word)) == opcode
  }

  lemma OneWord(ops: seq<Op>, dest: nat, opcode: nat, operand: bv32)
    requires dest < 16 && opcode < 16 && MovedByOne(ops, dest, opcode, operand)
    ensures |ops| == 1 && IsWordOf(ops[0], opcode)
  {
    hide MoveWord, Opcode, Head, Expand, IsImmediate;
    var op2 :| IsImmediate(op2) && Expand(op2) == operand && ops == [Insn(MoveWord(opcode, dest, 0, op2))];
    MoveFields(opcode, dest, 0, op2);
  }

  lemma TwoWords(ops: seq<Op>, dest: nat, first: nat, second: nat, operand: bv32)
    requires dest < 16 && first < 16 && second < 16 && MovedByTwo(ops, dest, first, second, operand)
    ensures |ops| == 2 && IsWordOf(ops[0], first) && IsWordOf(ops[1], second)
  {
    hide MoveWord, Opcode, Head, Expand, Or, IsImmediate;
    var i1, i2 :| IsPair(operand, i1, i2)
      && ops == [Insn(MoveWord(first, dest, 0, i1)), Insn(MoveWord(second, dest, dest, i2))];
    MoveFields(first, dest, 0, i1);
    MoveFields(second, dest, dest, i2);
  }

  lemma MoveExecutes<X(!new)>(sem: Semantics<Machine<X>>, opcode: nat, rd: nat, rn: nat, op2: Operand2,
                              address: nat, m: Machine<X>)
    requires IsProcessor(sem) && ORR <= opcode < 16 && rd < PC && rn < PC && IsImmediate(op2)
    ensures sem.exec(MoveWord(opcode, rd, rn, op2), address, m)
            == m.(regs := m.regs[rd := Alu(opcode, m.regs[rn], Expand(op2))])
    ensures sem.next(MoveWord(opcode, rd, rn, op2), address, m) == Onward
  {
    hide Expand, Not, Alu, MoveWord, IsMove, IsImmediate, Opcode, SourceRegister, DestRegister, Head, OffsetField;
    MoveFields(opcode, rd, rn, op2);
  }

  lemma DeMorgan(x: bv32, y: bv32)
    ensures And(Not(x), Not(y)) == Not(Or(x, y))
  {
  }

  lemma ComplementOfPair(x: bv32, y: bv32)
    ensures Alu(BIC, Not(x), y) == Not(Or(x, y))
  {
    hide And, Not, Or;
    DeMorgan(x, y);
  }

  lemma NotTwice(x: bv32)
    ensures Not(Not(x)) == x
  {
  }

  lemma WordAndBack(value: bv32)
    ensures (value as Word) as bv32 == value
  {
  }

  /** The machine with `value` in register `dest`, nothing else changed. */
  function Holding<X>(m: Machine<X>, dest: nat, value: bv32): Machine<X>
    requires dest < 16
  {
    m.(regs := m.regs[dest := value])
  }

  lemma OneMove<X(!new)>(q: Prog, base: nat, sem: Semantics<Machine<X>>, n: nat, m: Machine<X>,
                         opcode: nat, rd: nat, rn: nat, op2: Operand2)
    requires IsProcessor(sem) && ORR <= opcode < 16 && rd < PC && rn < PC && IsImmediate(op2)
    requires n < |q.ops| == |q.pos| && q.ops[n] == Insn(MoveWord(opcode, rd, rn, op2))
    ensures Meaning(q, base, sem, n, m) == Goes(n + 1, Holding(m, rd, Alu(opcode, m.regs[rn], Expand(op2))))
  {
    hide Expand, Not, Alu, MoveWord, IsProcessor, IsImmediate;
    MoveExecutes(sem, opcode, rd, rn, op2, base + 4 * q.pos[n], m);
  }

  lemma OneLoad<X(!new)>(q: Prog, base: nat, sem: Semantics<Machine<X>>, n: nat, m: Machine<X>, dest: nat, value: bv32)
    requires IsProcessor(sem) && dest < PC
    requires n < |q.ops| == |q.pos| && q.ops[n] == Load(LiteralLoad(AL, dest), value as Word, true, Unlinked)
    ensures Meaning(q, base, sem, n, m) == Goes(n + 1, Holding(m, dest, value))
  {
    hide LiteralLoad, Condition, DestRegister;
    LiteralLoadFields(AL, dest);
    WordAndBack(value);
  }

  lemma OneStep<X(!new)>(q: Prog, base: nat, sem: Semantics<Machine<X>>, n: nat, m: Machine<X>, m1: Machine<X>)
    requires n + 1 < |q.ops| == |q.pos| && Meaning(q, base, sem, n, m) == Goes(n + 1, m1)
    ensures Follows(q, base, sem, 1, n, m, n + 1, m1)
  {
    hide Meaning;
    assert Follows(q, base, sem, 0, n + 1, m1, n + 1, m1);
  }

  lemma TwoSteps<X(!new)>(q: Prog, base: nat, sem: Semantics<Machine<X>>, n: nat, m: Machine<X>,
                          m1: Machine<X>, m2: Machine<X>)
    requires n + 2 < |q.ops| == |q.pos|
    requires Meaning(q, base, sem, n, m) == Goes(n + 1, m1) && Meaning(q, base, sem, n + 1, m1) == Goes(n + 2, m2)
    ensures Follows(q, base, sem, 2, n, m, n + 2, m2)
  {
    hide Meaning;
    OneStep(q, base, sem, n + 1, m1, m2);
  }

  /** The second instruction of a pair completes what the first one put into the register. */
  lemma TwoMoves<X(!new)>(q: Prog, base: nat, sem: Semantics<Machine<X>>, n: nat, m: Machine<X>,
                          dest: nat, first: nat, i1: Operand2, second: nat, i2: Operand2)
    requires IsProcessor(sem) && dest < PC && IsImmediate(i1) && IsImmediate(i2)
    requires (first == MOV && second == ORR) || (first == MVN && second == BIC)
    requires n + 2 < |q.ops| == |q.pos|
    requires q.ops[n] == Insn(MoveWord(first, dest, 0, i1)) && q.ops[n + 1] == Insn(MoveWord(second, dest, dest, i2))
    ensures var both := Or(Expand(i1), Expand(i2));
            Follows(q, base, sem, 2, n, m, n + 2, Holding(m, dest, if first == MOV then both else Not(both)))
  {
    hide Expand, Or, Not, MoveWord, IsProcessor, IsImmediate, Meaning;
    OneMove(q, base, sem, n, m, first, dest, 0, i1);
    var v1 := Alu(first, m.regs[0], Expand(i1));
    var m1 := Holding(m, dest, v1);
    OneMove(q, base, sem, n + 1, m1, second, dest, dest, i2);
    ComplementOfPair(Expand(i1), Expand(i2));
    var v2 := Alu(second, v1, Expand(i2));
    assert Holding(m1, dest, v2) == Holding(m, dest, v2);
    TwoSteps(q, base, sem, n, m, m1, Holding(m, dest, v2));
  }

  /**
    Whichever expansion was chosen: running it leaves `value` in `dest`, changes
    no other register and goes on behind it.
   */
  lemma MovesArrive<X(!new)>(q: Prog, base: nat, sem: Semantics<Machine<X>>, n: nat, m: Machine<X>,
                             ops: seq<Op>, dest: nat, value: bv32)
    requires IsProcessor(sem) && dest < PC && (Moves(ops, dest, value) || MovedByMany(ops, dest, value))
    requires n + |ops| < |q.ops| == |q.pos| && q.ops[n..n + |ops|] == ops
    ensures Follows(q, base, sem, |ops|, n, m, n + |ops|, Holding(m, dest, value))
  {
    hide Expand, Or, Not, MoveWord, IsProcessor, IsImmediate, Meaning, Follows, LiteralLoad, Holding;
    hide MovedByOne, MovedByTwo, MovedByLoad, Encodable, HasPair, Not;
    NotTwice(value);
    assert forall k | 0 <= k < |ops| :: q.ops[n + k] == ops[k];
    if MovedByOne(ops, dest, MOV, value) {
      OneArrives(q, base, sem, n, m, ops, dest, MOV, value);
    } else if MovedByOne(ops, dest, MVN, Not(value)) {
      OneArrives(q, base, sem, n, m, ops, dest, MVN, Not(value));
    } else if MovedByTwo(ops, dest, MOV, ORR, value) {
      PairArrives(q, base, sem, n, m, ops, dest, MOV, ORR, value);
    } else if MovedByTwo(ops, dest, MVN, BIC, Not(value)) {
      PairArrives(q, base, sem, n, m, ops, dest, MVN, BIC, Not(value));
    } else {
      LoadArrives(q, base, sem, n, m, ops, dest, value);
    }
  }

  lemma OneArrives<X(!new)>(q: Prog, base: nat, sem: Semantics<Machine<X>>, n: nat, m: Machine<X>,
                            ops: seq<Op>, dest: nat, opcode: nat, operand: bv32)
    requires IsProcessor(sem) && dest < PC && (opcode == MOV || opcode == MVN)
    requires MovedByOne(ops, dest, opcode, operand)
    requires n + |ops| < |q.ops| == |q.pos| && forall k | 0 <= k < |ops| :: q.ops[n + k] == ops[k]
    ensures Follows(q, base, sem, |ops|, n, m, n + |ops|,
                    Holding(m, dest, if opcode == MOV then operand else Not(operand)))
  {
    hide Expand, Not, MoveWord, IsProcessor, IsImmediate, Meaning, Follows, Holding;
    var op2 :| IsImmediate(op2) && Expand(op2) == operand && ops == [Insn(MoveWord(opcode, dest, 0, op2))];
    assert q.ops[n + 0] == ops[0];
    OneMove(q, base, sem, n, m, opcode, dest, 0, op2);
    OneStep(q, base, sem, n, m, Holding(m, dest, if opcode == MOV then operand else Not(operand)));
  }

  lemma LoadArrives<X(!new)>(q: Prog, base: nat, sem: Semantics<Machine<X>>, n: nat, m: Machine<X>,
                             ops: seq<Op>, dest: nat, value: bv32)
    requires IsProcessor(sem) && dest < PC && MovedByLoad(ops, dest, value)
    requires n + |ops| < |q.ops| == |q.pos| && forall k | 0 <= k < |ops| :: q.ops[n + k] == ops[k]
    ensures Follows(q, base, sem, |ops|, n, m, n + |ops|, Holding(m, dest, value))
  {
    hide IsProcessor, Meaning, Follows, LiteralLoad, Holding;
    assert q.ops[n + 0] == ops[0];
    OneLoad(q, base, sem, n, m, dest, value);
    OneStep(q, base, sem, n, m, Holding(m, dest, value));
  }

  lemma PairArrives<X(!new)>(q: Prog, base: nat, sem: Semantics<Machine<X>>, n: nat, m: Machine<X>,
                             ops: seq<Op>, dest: nat, first: nat, second: nat, operand: bv32)
    requires IsProcessor(sem) && dest < PC
    requires (first == MOV && second == ORR) || (first == MVN && second == BIC)
    requires MovedByTwo(ops, dest, first, second, operand)
    requires n + |ops| < |q.ops| == |q.pos| && forall k | 0 <= k < |ops| :: q.ops[n + k] == ops[k]
    ensures Follows(q, base, sem, |ops|, n, m, n + |ops|,
                    Holding(m, dest, if first == MOV then operand else Not(operand)))
  {
    hide Expand, Or, Not, MoveWord, IsProcessor, IsImmediate, Meaning, Follows, Holding;
    var i1, i2 :| IsPair(operand, i1, i2)
      && ops == [Insn(MoveWord(first, dest, 0, i1)), Insn(MoveWord(second, dest, dest, i2))];
    assert q.ops[n + 0] == ops[0] && q.ops[n + 1] == ops[1];
    TwoMoves(q, base, sem, n, m, dest, first, i1, second, i2);
  }

  /** What moveImm emits consists of plain instructions and pool loads. */
  lemma MovesArePlain(ops: seq<Op>, dest: nat, value: bv32)
    requires dest < 16 && (Moves(ops, dest, value) || MovedByMany(ops, dest, value))
    ensures 1 <= |ops| <= 2
    ensures forall k | 0 <= k < |ops| && ops[k].Insn? :: !IsBranch(ops[k].word) && !IsLiteralLoad(ops[k].word)
  {
    hide Expand, Or, Not, MoveWord, IsImmediate, IsBranch, IsLiteralLoad, Encodable, HasPair;
    forall k | 0 <= k < |ops| && ops[k].Insn?
      ensures !IsBranch(ops[k].word) && !IsLiteralLoad(ops[k].word)
    {
      var opcode, rn, op2 :| 0 <= opcode < 16 && 0 <= rn < 16 && IsImmediate(op2)
                             && ops[k].word == MoveWord(opcode, dest, rn, op2);
      MoveFields(opcode, dest, rn, op2);
    }
  }

  /**
    End to end: wherever a program moves `value` to `dest`, its executable copy
    gets, from the first of these instructions to the next operation, the value
    into the register.
   */
  lemma MovedValueArrives<X(!new)>(a: Asm, base: nat, sem: Semantics<Machine<X>>, n: nat, m: Machine<X>,
                                   ops: seq<Op>, dest: nat, value: bv32) returns (steps: nat)
    requires Valid(a) && Fits(a, base) && Plain(a.prog) && IsProcessor(sem)
    requires dest < PC && (Moves(ops, dest, value) || MovedByMany(ops, dest, value))
    requires n + |ops| < |a.prog.ops| && a.prog.ops[n..n + |ops|] == ops
    ensures var q := Finished(a.prog);
            && n + |ops| < |q.pos|
            && Executes(q, Image(base, Copied(a, base)), sem, steps, AddressOf(q, base, n), m,
                        AddressOf(q, base, n + |ops|), Holding(m, dest, value))
  {
    hide IsCopy, Finished, Copied, Moves, MovedByMany, Follows, Fits, Budget, Shaped, OpOk, Unshared, ResolvedOk,
         JumpsOk, Executes, Holding;
    CopyResolvesAll(a, base);
    var q := Finished(a.prog);
    LaidShape(q);
    MovesArrive(q, base, sem, n, m, ops, dest, value);
    steps := CopyRunsFrom(a, base, sem, |ops|, n, m, n + |ops|, Holding(m, dest, value));
  }
}
