/**
  When may a pool land in the middle of a sequence? ensureSpace(insn, const) is
  meant to keep the next `insn` bytes of instructions and `const` bytes of constants
  together. The JIT passes it the number of constants instead, and its sequences
  also take labels, which test for more space than an instruction needs. So
  whether a sequence stays together depends on the counters; this module has the
  exact conditions, for all sequences that fit and for those the JIT reserves for.
 */
module FlushWindows {
  import opened ArmWord
  import opened ConstantPool

  // What a sequence is made of: an instruction, a load of a constant, and a label,
  // which puts nothing but makes the flush test of size().
  datatype Put = Plain(word: Word) | Constant(insn: Word, value: Word, isReusable: bool) | Label

  predicate WellFormed(puts: seq<Put>) {
    forall k | 0 <= k < |puts| && puts[k].Constant? :: IsLiteralLoad(puts[k].insn) && AddsOffset(puts[k].insn)
  }

  predicate Flushes(b: Buf, put: Put) {
    match put
    case Plain(_) => NoSpaceForInsn(b, 4)
    case Constant(_, _, _) => NoSpaceFor(b, 4, 4)
    case Label => NoSpaceFor(b, MAX_INSTRUCTION_SIZE, 8)
  }

  function Apply(b: Buf, put: Put): Buf
    requires Budget(b)
  {
    match put
    case Plain(w) => PutInt(b, w)
    case Constant(insn, value, isReusable) => PutIntWithConstantInt(b, insn, value, isReusable)
    case Label => FlushFor(b, MAX_INSTRUCTION_SIZE, 8)
  }

  lemma ApplyKeepsBudget(b: Buf, put: Put)
    requires Budget(b) && WellFormed([put])
    ensures Budget(Apply(b, put))
  {
    assert [put][0] == put;
    match put
    case Plain(w) => PutIntKeepsBudget(b, w);
    case Constant(insn, value, isReusable) => PutIntWithConstantIntKeepsBudget(b, insn, value, isReusable);
    case Label => FlushKeepsBudget(b, true);
  }

  lemma FirstAndRest(puts: seq<Put>)
    requires WellFormed(puts) && puts != []
    ensures WellFormed([puts[0]]) && WellFormed(puts[1..])
  {
  }

  /** The buffer behind a sequence. */
  function After(b: Buf, puts: seq<Put>): (r: Buf)
    requires Budget(b) && WellFormed(puts)
    ensures Budget(r)
    decreases |puts|
  {
    if puts == [] then b
    else
      FirstAndRest(puts);
      ApplyKeepsBudget(b, puts[0]);
      After(Apply(b, puts[0]), puts[1..])
  }

  // The windows the assembler itself relies on -----------------------------------------

  /** size() leaves room for whatever is put next. */
  lemma SizeWindow(b: Buf)
    requires Budget(b)
    ensures var r := FlushFor(b, MAX_INSTRUCTION_SIZE, 8);
            !NoSpaceForInsn(r, 4) && !NoSpaceFor(r, 4, 4)
  {
    hide LoadQueued, Spending, Prelude, PatchedCode;
  }

  /** ensureSpace(8, 4) leaves room for an instruction and a load. */
  lemma CallWindow(b: Buf, w: Word)
    requires Budget(b)
    ensures var r := FlushFor(b, 8, 4);
            !NoSpaceForInsn(r, 4) && !NoSpaceFor(ChargeInsn(Append(r, w)), 4, 4)
  {
    hide LoadQueued, Spending, Prelude, PatchedCode;
  }

  /** isAligned(16) leaves room for an instruction, and size() will not flush. */
  lemma AlignWindow(b: Buf, alignment: nat)
    requires Budget(b) && alignment >= 4
    ensures var r := FlushForInsn(b, alignment);
            !NoSpaceForInsn(r, 4) && (alignment >= 16 ==> !NoSpaceFor(r, MAX_INSTRUCTION_SIZE, 8))
  {
    hide LoadQueued, Spending, Prelude, PatchedCode;
  }

  /** The reservation in prepareCall() makes the test of a label. */
  lemma CallTestsLikeLabel(b: Buf)
    requires Budget(b)
    ensures FlushFor(b, 8, 4) == Apply(b, Label)
  {
    hide LoadQueued, Spending, Flush;
    PoolNeverExhausted(b, 4);
    PoolNeverExhausted(b, 8);
  }

  /** No pool lands in front of any of the puts, or of a label's place. */
  ghost predicate Uninterrupted(b: Buf, puts: seq<Put>)
    requires Budget(b) && WellFormed(puts)
    decreases |puts|
  {
    puts == [] ||
    (!Flushes(b, puts[0]) && (ApplyKeepsBudget(b, puts[0]); Uninterrupted(Apply(b, puts[0]), puts[1..])))
  }

  // One put in numbers ---------------------------------------------------------------

  /** The distance a put has to find while a constant is pending. */
  function Need(put: Put, lastConstDelta: int): int {
    match put
    case Plain(_) => 12
    case Constant(_, _, _) => 16 + lastConstDelta
    case Label => 20 + lastConstDelta
  }

  lemma FlushesInNumbers(b: Buf, put: Put)
    requires Budget(b)
    ensures Flushes(b, put) <==> b.pool != [] && b.maxDistance < Need(put, b.lastConstDelta)
  {
    hide LoadQueued, Spending;
    PoolNeverExhausted(b, 4);
    PoolNeverExhausted(b, 8);
  }

  /** The two tests in numbers, for any reservation: a constant put last keeps its own distance. */
  lemma TestsInNumbers(b: Buf, insn: nat, consts: nat)
    requires Budget(b)
    ensures NoSpaceForInsn(b, insn)
            <==> b.pool != [] && b.maxDistance < 8 + if insn < b.lastConstDelta then b.lastConstDelta else insn
    ensures consts < 16 ==>
              (NoSpaceFor(b, insn, consts)
               <==> b.pool != [] && b.maxDistance < insn + b.lastConstDelta + consts + 8)
  {
    hide LoadQueued, Spending;
    if consts < 16 {
      PoolNeverExhausted(b, consts);
    }
  }

  /** What a put that does not flush leaves. */
  lemma ApplyFields(b: Buf, put: Put)
    requires Budget(b) && WellFormed([put]) && !Flushes(b, put)
    ensures var r := Apply(b, put);
            && Budget(r) && (b.lastConstDelta == 0 || b.lastConstDelta == 4)
            && match put
               case Plain(_) => r.pool == b.pool && r.maxDistance == b.maxDistance - 4 && r.lastConstDelta == 0
               case Constant(_, _, isReusable) =>
                 && r.pool != [] && r.maxDistance == b.maxDistance - 4
                 && (if isReusable then r.lastConstDelta <= 4 else r.lastConstDelta == 4)
               case Label => r == b
  {
    ApplyKeepsBudget(b, put);
    hide LoadQueued, Spending, Flush, TagLoad, IsLiteralLoad, AddsOffset;
    if put.Constant? {
      QueueLoadFields(b, put.insn, put.value, put.isReusable);
    }
  }

  // All sequences that fit -----------------------------------------------------------

  function Words(puts: seq<Put>): nat {
    if puts == [] then 0 else (if puts[0].Label? then 0 else 1) + Words(puts[1..])
  }

  function Constants(puts: seq<Put>): nat {
    if puts == [] then 0 else (if puts[0].Constant? then 1 else 0) + Constants(puts[1..])
  }

  predicate HasLabel(puts: seq<Put>) {
    puts != [] && (puts[0].Label? || HasLabel(puts[1..]))
  }

  /** At most `insn` bytes of instructions with `consts` constants, `labels` among them or not. */
  ghost predicate Fits(puts: seq<Put>, insn: nat, consts: nat, labels: bool) {
    && WellFormed(puts) && 4 * Words(puts) <= insn && Constants(puts) <= consts
    && (HasLabel(puts) ==> labels)
  }

  /**
    The room `n` words with `c` constants need: the worst order of them is the one
    whose last constants, or whose last constant and label, come at the very end.
   */
  predicate Room(b: Buf, n: nat, c: nat, labels: bool) {
    if labels then
      if c >= 1 && n >= 1 then b.maxDistance >= 4 * n + 24
      else b.pool == [] || b.maxDistance >= 4 * n + 20 + if n == 0 then b.lastConstDelta else 0
    else if n == 0 || (b.pool == [] && (c == 0 || n == 1)) then true
    else if c >= 2 && n >= 2 then b.maxDistance >= 4 * (n - 1) + 20
    else if b.pool == [] || c == 0 then b.maxDistance >= 4 * (n - 1) + 12
    else b.maxDistance >= 4 * (n - 1) + 16 + if n == 1 then b.lastConstDelta else 0
  }

  /** Room for all of them is what the next put leaves for the others. */
  lemma RoomStep(b: Buf, put: Put, n: nat, c: nat, labels: bool)
    requires Budget(b) && WellFormed([put]) && Room(b, n, c, labels)
    requires put.Label? || n >= 1
    requires (put.Constant? ==> c >= 1) && (put.Label? ==> labels)
    ensures !Flushes(b, put)
    ensures Room(Apply(b, put), if put.Label? then n else n - 1, if put.Constant? then c - 1 else c, labels)
  {
    hide LoadQueued, Spending, Flush, Flushes, Apply, IsLiteralLoad, AddsOffset;
    FlushesInNumbers(b, put);
    ApplyFields(b, put);
  }

  lemma {:induction false} RoomSuffices(b: Buf, puts: seq<Put>, n: nat, c: nat, labels: bool)
    requires Budget(b) && Room(b, n, c, labels)
    requires WellFormed(puts) && Words(puts) <= n && Constants(puts) <= c && (HasLabel(puts) ==> labels)
    ensures Uninterrupted(b, puts)
    decreases |puts|
  {
    hide Budget, Room, Apply, Flushes;
    if puts != [] {
      FirstAndRest(puts);
      ApplyKeepsBudget(b, puts[0]);
      RoomStep(b, puts[0], n, c, labels);
      RoomSuffices(Apply(b, puts[0]), puts[1..], if puts[0].Label? then n else n - 1,
                   if puts[0].Constant? then c - 1 else c, labels);
    }
  }

  // Where there is no room ---------------------------------------------------------

  function SomeLoad(): (put: Put)
    ensures put.Constant? && !put.isReusable && WellFormed([put])
  {
    LiteralLoadFields(AL, 0);
    Constant(LiteralLoad(AL, 0), 0, false)
  }

  // The ends that need the most room.
  datatype Tail = OnePlain | OneConstant | OneLabel | TwoConstants | ConstantThenLabel
  {
    function Puts(): seq<Put> {
      match this
      case OnePlain => [Plain(0)]
      case OneConstant => [SomeLoad()]
      case OneLabel => [Label]
      case TwoConstants => [SomeLoad(), SomeLoad()]
      case ConstantThenLabel => [SomeLoad(), Label]
    }

    function Distance(): nat {
      match this case OnePlain => 12 case OneConstant => 16 case OneLabel => 20 case TwoConstants => 24
                 case ConstantThenLabel => 28
    }

    /** It brings the constant with it that its last put collides with. */
    predicate Pair() {
      TwoConstants? || ConstantThenLabel?
    }
  }

  lemma OneBreaks(b: Buf, put: Put)
    requires Budget(b) && WellFormed([put]) && Flushes(b, put)
    ensures !Uninterrupted(b, [put])
  {
  }

  lemma TailBreaks(b: Buf, t: Tail)
    requires Budget(b) && b.maxDistance < t.Distance() && (b.pool != [] || t.Pair())
    ensures WellFormed(t.Puts()) && !Uninterrupted(b, t.Puts())
  {
    hide Budget, Flushes, Apply, SomeLoad, Uninterrupted;
    var put := t.Puts()[0];
    assert WellFormed([put]);
    DeltaIsNatural(b);
    FlushesInNumbers(b, put);
    if !t.Pair() {
      OneBreaks(b, put);
    } else {
      var next := t.Puts()[1];
      assert WellFormed([next]);
      if Flushes(b, put) {
        FlushBreaks(b, t.Puts());
      } else {
        ApplyFields(b, put);
        FlushesInNumbers(Apply(b, put), next);
        OneBreaks(Apply(b, put), next);
        BreakIsInherited(b, put, [next]);
        assert t.Puts() == [put] + [next];
      }
    }
  }

  lemma DeltaIsNatural(b: Buf)
    requires Budget(b)
    ensures b.lastConstDelta == 0 || b.lastConstDelta == 4
  {
  }

  lemma FlushBreaks(b: Buf, puts: seq<Put>)
    requires Budget(b) && WellFormed(puts) && puts != [] && Flushes(b, puts[0])
    ensures !Uninterrupted(b, puts)
  {
  }

  /** Behind plain instructions the tail comes too late. */
  lemma {:induction false} PlainsThen(b: Buf, n: nat, t: Tail) returns (puts: seq<Put>)
    requires Budget(b) && b.maxDistance - 4 * n < t.Distance() && (b.pool != [] || t.Pair())
    ensures WellFormed(puts) && !Uninterrupted(b, puts)
    ensures Words(puts) <= n + Words(t.Puts()) && Constants(puts) <= Constants(t.Puts())
    ensures HasLabel(puts) ==> HasLabel(t.Puts())
    decreases n
  {
    hide Budget, Flushes, Apply, Tail.Puts, Uninterrupted;
    if n == 0 {
      TailBreaks(b, t);
      puts := t.Puts();
    } else if Flushes(b, Plain(0)) {
      puts := [Plain(0)];
      OneBreaks(b, Plain(0));
    } else {
      ApplyFields(b, Plain(0));
      var rest := PlainsThen(Apply(b, Plain(0)), n - 1, t);
      BreakIsInherited(b, Plain(0), rest);
      puts := [Plain(0)] + rest;
    }
  }

  lemma BreakIsInherited(b: Buf, put: Put, rest: seq<Put>)
    requires Budget(b) && WellFormed([put]) && WellFormed(rest)
    requires Budget(Apply(b, put)) && !Uninterrupted(Apply(b, put), rest)
    ensures WellFormed([put] + rest) && !Uninterrupted(b, [put] + rest)
    ensures Words([put] + rest) == Words(rest) + if put.Label? then 0 else 1
    ensures Constants([put] + rest) == Constants(rest) + if put.Constant? then 1 else 0
    ensures HasLabel([put] + rest) <==> put.Label? || HasLabel(rest)
  {
    hide Budget, Flushes, Apply;
    var puts := [put] + rest;
    assert puts[0] == put && puts[1..] == rest;
    assert forall k | 0 <= k < |rest| :: puts[k + 1] == rest[k];
    assert [put][0] == put;
  }

  lemma NoRoomBreaks(b: Buf, n: nat, c: nat, labels: bool) returns (puts: seq<Put>)
    requires Budget(b) && !Room(b, n, c, labels)
    ensures Fits(puts, 4 * n, c, labels) && !Uninterrupted(b, puts)
  {
    hide Budget, Flushes, Apply, SomeLoad, Uninterrupted;
    forall t: Tail {
      TailFields(t);
    }
    if labels {
      if c >= 1 && n >= 1 {
        puts := PlainsThen(b, n - 1, ConstantThenLabel);
      } else if n >= 1 {
        puts := PlainsThen(b, n, OneLabel);
      } else {
        puts := Alone(b, Label);
      }
    } else if c >= 2 && n >= 2 {
      puts := PlainsThen(b, n - 2, TwoConstants);
    } else if c == 0 {
      puts := PlainsThen(b, n - 1, OnePlain);
    } else if b.pool == [] {
      puts := LoadThenPlains(b, n);
    } else if n == 1 {
      puts := Alone(b, SomeLoad());
    } else {
      puts := PlainsThen(b, n - 1, OneConstant);
    }
  }

  lemma TailFields(t: Tail)
    ensures Words(t.Puts()) == (match t case OneLabel => 0 case TwoConstants => 2 case _ => 1)
    ensures Constants(t.Puts()) == (match t case OnePlain => 0 case OneLabel => 0 case TwoConstants => 2 case _ => 1)
    ensures HasLabel(t.Puts()) <==> t.OneLabel? || t.ConstantThenLabel?
  {
    hide SomeLoad;
    var puts := t.Puts();
    assert puts[1..] == if t.TwoConstants? then [SomeLoad()] else if t.ConstantThenLabel? then [Label] else [];
    assert Words(puts[1..]) == Constants(puts[1..]) == if t.TwoConstants? then 1 else 0;
    assert HasLabel(puts[1..]) <==> t.ConstantThenLabel?;
  }

  lemma Alone(b: Buf, put: Put) returns (puts: seq<Put>)
    requires Budget(b) && WellFormed([put]) && b.pool != [] && b.maxDistance < Need(put, b.lastConstDelta)
    ensures puts == [put] && !Uninterrupted(b, puts)
    ensures Words(puts) == (if put.Label? then 0 else 1) && Constants(puts) == if put.Constant? then 1 else 0
    ensures HasLabel(puts) <==> put.Label?
  {
    hide Budget, Flushes, Apply;
    FlushesInNumbers(b, put);
    puts := [put];
    OneBreaks(b, put);
  }

  /** With an empty pool the load comes first, and the instructions behind it use the distance up. */
  lemma LoadThenPlains(b: Buf, n: nat) returns (puts: seq<Put>)
    requires Budget(b) && b.pool == [] && n >= 2 && b.maxDistance < 4 * (n - 1) + 12
    ensures WellFormed(puts) && Words(puts) <= n && Constants(puts) <= 1 && !HasLabel(puts) && !Uninterrupted(b, puts)
  {
    hide Budget, Flushes, Apply, SomeLoad, Uninterrupted;
    TailFields(OnePlain);
    var put := SomeLoad();
    FlushesInNumbers(b, put);
    ApplyFields(b, put);
    var rest := PlainsThen(Apply(b, put), n - 2, OnePlain);
    BreakIsInherited(b, put, rest);
    puts := [put] + rest;
  }

  /** All that fits stays together if and only if there is room. */
  lemma RoomIsExact(b: Buf, insn: nat, consts: nat, labels: bool)
    requires Budget(b)
    ensures (forall puts | Fits(puts, insn, consts, labels) :: Uninterrupted(b, puts))
            <==> Room(b, insn / 4, consts, labels)
  {
    hide Budget, Room, Uninterrupted;
    if Room(b, insn / 4, consts, labels) {
      forall puts | Fits(puts, insn, consts, labels)
        ensures Uninterrupted(b, puts)
      {
        RoomSuffices(b, puts, insn / 4, consts, labels);
      }
    } else {
      var puts := NoRoomBreaks(b, insn / 4, consts, labels);
      assert Fits(puts, insn, consts, labels) && !Uninterrupted(b, puts);
    }
  }

  // What ensureSpace is worth ----------------------------------------------------------

  /** ensureSpace(insn, consts) for the given number of constants, as the JIT calls it in a release build. */
  lemma ReservationKeepsTogether(b: Buf, insn: nat, consts: nat, labels: bool)
    requires Budget(b)
    ensures Budget(FlushFor(b, insn, consts))
    ensures var r := FlushFor(b, insn, consts);
            (forall puts | Fits(puts, insn, consts, labels) :: Uninterrupted(r, puts))
            <==> Room(r, insn / 4, consts, labels)
  {
    FlushKeepsBudget(b, true);
    RoomIsExact(FlushFor(b, insn, consts), insn, consts, labels);
  }

  /**
    With labels the condition can be read off the counters in front of ensureSpace,
    which passes while the distance is at least insn + consts + lastConstDelta + 8.
   */
  lemma TornWindow(b: Buf, insn: nat, consts: nat)
    requires Budget(b) && insn % 4 == 0 && insn > 0 && consts > 0
    ensures Budget(FlushFor(b, insn, consts))
    ensures (exists puts :: Fits(puts, insn, consts, true) && !Uninterrupted(FlushFor(b, insn, consts), puts))
            <==> (if NoSpaceFor(b, insn, consts) then MAX_POOL_SIZE else b.maxDistance) < insn + 24
    ensures consts < 16 ==>
              (NoSpaceFor(b, insn, consts)
               <==> b.pool != [] && b.maxDistance < insn + consts + b.lastConstDelta + 8)
  {
    hide LoadQueued, Spending, PatchedCode, Prelude, Uninterrupted;
    ReservationKeepsTogether(b, insn, consts, true);
    if consts < 16 {
      PoolNeverExhausted(b, consts);
    }
  }

  /** Given the bytes of both, it keeps what has no labels together whenever a constant is pending behind it. */
  lemma BytesKeepTogether(b: Buf, insn: nat, consts: nat)
    requires Budget(b)
    ensures Budget(FlushFor(b, insn, 4 * consts))
    ensures var r := FlushFor(b, insn, 4 * consts);
            (forall puts | Fits(puts, insn, consts, false) :: Uninterrupted(r, puts))
            <==> r.pool != [] || Room(r, insn / 4, consts, false)
  {
    hide LoadQueued, Spending, Flush, Uninterrupted;
    FlushKeepsBudget(b, true);
    RoomIsExact(FlushFor(b, insn, 4 * consts), insn, consts, false);
  }

  /**
    In a debug build the JIT asks for another word and eight more bytes, for the label
    behind the sequence. Then labels do no harm while a constant is pending.
   */
  lemma DebugReservationKeepsTogether(b: Buf, insn: nat, consts: nat)
    requires Budget(b)
    ensures Budget(FlushFor(b, insn + 4, consts + 8))
    ensures var r := FlushFor(b, insn + 4, consts + 8);
            (forall puts | Fits(puts, insn, consts, true) :: Uninterrupted(r, puts))
            <==> r.pool != [] || Room(r, insn / 4, consts, true)
  {
    hide LoadQueued, Spending, Flush, Uninterrupted;
    FlushKeepsBudget(b, true);
    RoomIsExact(FlushFor(b, insn + 4, consts + 8), insn, consts, true);
  }

  // The failing case can be reached --------------------------------------------------

  function {:induction false} PlainStream(n: nat): (b: Buf)
    ensures Budget(b) && b.pool == [] && b.reusable == [] && b.loads == [] && |b.code| == n
    ensures b.maxDistance == MAX_POOL_SIZE - 4 * n && b.lastConstDelta == 0
  {
    if n == 0 then EMPTY
    else
      PutIntKeepsBudget(PlainStream(n - 1), BKPT);
      PutInt(PlainStream(n - 1), BKPT)
  }

  /**
    After plain instructions only, ensureSpace(8, 4) does nothing, and from 509 on a
    load and the instruction reserved behind it can be torn apart by the load's own pool.
   */
  lemma ReservationTornApart(n: nat)
    ensures var b := PlainStream(n);
            && FlushFor(b, 8, 4) == b
            && ((exists puts :: Fits(puts, 8, 1, false) && !Uninterrupted(b, puts)) <==> n >= 509)
  {
    hide PlainStream, Uninterrupted;
    BytesKeepTogether(PlainStream(n), 8, 1);
  }
}
