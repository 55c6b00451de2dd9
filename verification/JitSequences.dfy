/**
  The sequences the JIT reserves space for: a call, a method check, and the hot and
  slow paths of property access. It patches them at fixed distances from one label,
  so no pool may land in them. This module has the counters for which one does.
 */
module JitSequences {
  import opened ArmWord
  import opened ConstantPool
  import opened FlushWindows
  import AssemblerRuns

  // A sequence by its kinds of puts; its loads are of constants that are not shared. A
  // jump is its load, for which it makes the same test, and a call's test is a label's.
  datatype Form = Done | Insn(next: Form) | Load(next: Form) | Mark(next: Form)

  predicate HasForm(puts: seq<Put>, form: Form) {
    match form
    case Done => puts == []
    case Insn(next) => puts != [] && puts[0].Plain? && HasForm(puts[1..], next)
    case Load(next) => puts != [] && puts[0].Constant? && !puts[0].isReusable && HasForm(puts[1..], next)
    case Mark(next) => puts != [] && puts[0].Label? && HasForm(puts[1..], next)
  }

  /** The distance is enough for the sequence, told by the counters alone. */
  predicate Enough(form: Form, pending: bool, distance: int, lastConstDelta: int) {
    match form
    case Done => true
    case Insn(next) => (pending ==> distance >= 12) && Enough(next, pending, distance - 4, 0)
    case Load(next) => (pending ==> distance >= 16 + lastConstDelta) && Enough(next, true, distance - 4, 4)
    case Mark(next) => (pending ==> distance >= 20 + lastConstDelta) && Enough(next, pending, distance, lastConstDelta)
  }

  lemma {:induction false} EnoughIsExact(b: Buf, puts: seq<Put>, form: Form)
    requires Budget(b) && WellFormed(puts) && HasForm(puts, form)
    ensures Uninterrupted(b, puts) <==> Enough(form, b.pool != [], b.maxDistance, b.lastConstDelta)
    decreases form
  {
    hide Budget, Flushes, Apply;
    if puts != [] {
      FirstAndRest(puts);
      FlushesInNumbers(b, puts[0]);
      if !Flushes(b, puts[0]) {
        ApplyFields(b, puts[0]);
        EnoughIsExact(Apply(b, puts[0]), puts[1..], form.next);
      }
    }
  }

  // branchPtrWithPatch: a label, a load of the pointer, a comparison and a jump, or the same
  // behind a load from memory.
  function Compare(next: Form): Form { Mark(Load(Insn(Load(next)))) }
  function CompareField(next: Form): Form { Insn(Compare(next)) }
  // moveWithPatch, and a load or store at an offset that can be patched.
  function Move(next: Form): Form { Mark(Load(next)) }
  function AccessField(next: Form): Form { Mark(Load(Insn(next))) }
  function ExternalLoad(next: Form): Form { Mark(Insn(Mark(next))) }
  // The checks of structure, prototype and its structure, up to the move of the function.
  function CheckMethod(next: Form): Form { CompareField(Move(CompareField(next))) }
  function Property(next: Form): Form { Mark(CompareField(ExternalLoad(AccessField(next)))) }
  // A pointer argument and two registers are stored, then come prepareCall, mov lr, pc and the call.
  function StubCall(next: Form): Form { Load(Insn(Insn(Insn(Mark(Insn(Load(next))))))) }

  // The reserved sequences; where values are tagged, a value is two words.
  datatype Sequence =
    | OpCall
    | MethodCheck
    | GetById(tagged: bool)
    | PutById(tagged: bool)
    | GetByIdSlow(tagged: bool)
  {
    /** The bytes of instructions reserved. */
    function Space(): nat {
      match this
      case OpCall => 12
      case MethodCheck => 40
      case GetByIdSlow(tagged) => if tagged then 40 else 32
      case _ => if this.tagged then 36 else 28
    }

    /** The number passed as space for constants. */
    function ConstantSpace(): nat {
      match this
      case OpCall => 2
      case MethodCheck => 6
      case GetByIdSlow(_) => 2
      case _ => if this.tagged then 4 else 3
    }

    function Form(): Form {
      match this
      case OpCall => Compare(Done)
      case MethodCheck => CheckMethod(Move(Done))
      case GetById(tagged) => Property(if tagged then AccessField(Mark(Done)) else Mark(Done))
      case PutById(tagged) => Property(if tagged then AccessField(Done) else Done)
      case GetByIdSlow(tagged) =>
        if tagged then Insn(Insn(StubCall(Insn(Insn(Done))))) else Insn(StubCall(Insn(Done)))
    }

    /** The distance the sequence needs, whether a constant is pending or not. */
    function Demand(): nat {
      match this
      case OpCall => 24
      case MethodCheck => 60
      case GetById(tagged) => if tagged then 56 else 48
      case _ => if this.tagged then 48 else 40
    }
  }

  lemma CompareDemands(next: Form, pending: bool, d: int, last: int)
    requires last == 0 || last == 4
    ensures Enough(Compare(next), pending, d, last)
            <==> (pending ==> d >= 20 + last) && d >= 24 && Enough(next, true, d - 12, 4)
  {
    var jump := Load(next);
    assert Enough(jump, true, d - 8, 0) <==> d - 8 >= 16 && Enough(next, true, d - 12, 4);
    assert Enough(Insn(jump), true, d - 4, 4) <==> d - 4 >= 12 && Enough(jump, true, d - 8, 0);
  }

  lemma MoveDemands(next: Form, pending: bool, d: int, last: int)
    ensures Enough(Move(next), pending, d, last)
            <==> (pending ==> d >= 20 + last) && Enough(next, true, d - 4, 4)
  {
  }

  lemma AccessDemands(next: Form, pending: bool, d: int, last: int)
    ensures Enough(AccessField(next), pending, d, last)
            <==> (pending ==> d >= 20 + last) && d >= 16 && Enough(next, true, d - 8, 0)
  {
    assert Enough(Insn(next), true, d - 4, 4) <==> d - 4 >= 12 && Enough(next, true, d - 8, 0);
  }

  lemma ExternalDemands(next: Form, pending: bool, d: int, last: int)
    ensures Enough(ExternalLoad(next), pending, d, last)
            <==> (pending ==> d >= 20 + last && d >= 24) && Enough(next, pending, d - 4, 0)
  {
    assert Enough(Mark(next), pending, d - 4, 0) <==> (pending ==> d - 4 >= 20) && Enough(next, pending, d - 4, 0);
  }

  lemma StubCallDemands(next: Form, pending: bool, d: int)
    ensures Enough(StubCall(next), pending, d, 0) <==> d >= 36 && Enough(next, true, d - 24, 4)
  {
    var call := Insn(Load(next));
    assert Enough(call, true, d - 16, 0) <==> d >= 36 && Enough(next, true, d - 24, 4);
    assert Enough(Mark(call), true, d - 16, 0) <==> d >= 36 && Enough(call, true, d - 16, 0);
    assert Enough(Insn(Mark(call)), true, d - 12, 0) <==> d >= 24 && Enough(Mark(call), true, d - 16, 0);
    assert Enough(Insn(Insn(Mark(call))), true, d - 8, 0) <==> d >= 24 && Enough(Mark(call), true, d - 16, 0);
    assert Enough(Insn(Insn(Insn(Mark(call)))), true, d - 4, 4) <==> d >= 24 && Enough(Mark(call), true, d - 16, 0);
  }

  lemma StoresDemand(d: int, last: int)
    ensures Enough(Insn(Done), true, d, last) <==> d >= 12
    ensures Enough(Insn(Insn(Done)), true, d, last) <==> d >= 16
  {
    assert Enough(Insn(Done), true, d - 4, 0) <==> d >= 16;
  }

  lemma SlowDemands(tagged: bool, pending: bool, d: int, last: int)
    ensures Enough(GetByIdSlow(tagged).Form(), pending, d, last) <==> d >= GetByIdSlow(tagged).Demand()
  {
    hide StubCall;
    var call := StubCall(if tagged then Insn(Insn(Done)) else Insn(Done));
    assert Enough(Insn(call), pending, d - 4, 0) <==> (pending ==> d >= 16) && Enough(call, pending, d - 8, 0);
    StubCallDemands(Insn(Done), pending, d - 4);
    StoresDemand(d - 28, 4);
    StubCallDemands(Insn(Insn(Done)), pending, d - 8);
    StoresDemand(d - 32, 4);
  }

  lemma MarkDemands(d: int, last: int)
    ensures Enough(Done, true, d, last) && (Enough(Mark(Done), true, d, last) <==> d >= 20 + last)
  {
  }

  lemma SequenceDemands(s: Sequence, pending: bool, d: int, last: int)
    requires last == 0 || last == 4
    ensures Enough(s.Form(), pending, d, last) <==> d >= s.Demand()
  {
    match s
    case OpCall =>
      CompareDemands(Done, pending, d, last);
    case MethodCheck =>
      hide CheckMethod, Move;
      MethodCheckDemands(Move(Done), pending, d, last);
      MoveDemands(Done, true, d - 36, 4);
    case GetById(tagged) =>
      hide Property, AccessField, Enough;
      PropertyDemands(if tagged then AccessField(Mark(Done)) else Mark(Done), pending, d, last);
      AccessDemands(Mark(Done), true, d - 28, 0);
      MarkDemands(if tagged then d - 36 else d - 28, 0);
    case PutById(tagged) =>
      hide Property, AccessField, Enough;
      PropertyDemands(if tagged then AccessField(Done) else Done, pending, d, last);
      AccessDemands(Done, true, d - 28, 0);
      MarkDemands(if tagged then d - 36 else d - 28, 0);
    case GetByIdSlow(tagged) =>
      SlowDemands(tagged, pending, d, last);
  }

  lemma MethodCheckDemands(next: Form, pending: bool, d: int, last: int)
    requires last == 0 || last == 4
    ensures Enough(CheckMethod(next), pending, d, last) <==> d >= 48 && Enough(next, true, d - 36, 4)
  {
    hide Compare, Move;
    var half := CompareField(next);
    CompareDemands(next, true, d - 24, 0);
    assert Enough(half, true, d - 20, 4) <==> d - 20 >= 12 && Enough(Compare(next), true, d - 24, 0);
    MoveDemands(half, true, d - 16, 4);
    CompareDemands(Move(half), pending, d - 4, 0);
  }

  lemma PropertyDemands(next: Form, pending: bool, d: int, last: int)
    requires last == 0 || last == 4
    ensures Enough(Property(next), pending, d, last) <==> d >= 40 && Enough(next, true, d - 28, 0)
  {
    hide Compare, AccessField, ExternalLoad;
    var access := AccessField(next);
    AccessDemands(next, true, d - 20, 0);
    ExternalDemands(access, true, d - 16, 4);
    CompareDemands(ExternalLoad(access), pending, d - 4, 0);
    assert Enough(CompareField(ExternalLoad(access)), pending, d, last)
           <==> (pending ==> d >= 12) && Enough(Compare(ExternalLoad(access)), pending, d - 4, 0);
  }

  /** When a sequence is torn in a release build, told from the counters before ensureSpace. */
  lemma SequenceTorn(s: Sequence, b: Buf, puts: seq<Put>)
    requires Budget(b) && WellFormed(puts) && HasForm(puts, s.Form())
    ensures Budget(FlushFor(b, s.Space(), s.ConstantSpace()))
    ensures !Uninterrupted(FlushFor(b, s.Space(), s.ConstantSpace()), puts)
            <==> b.maxDistance < s.Demand()
                 && (b.pool == [] || b.maxDistance >= s.Space() + s.ConstantSpace() + b.lastConstDelta + 8)
  {
    hide LoadQueued, Spending, PatchedCode, Prelude, Uninterrupted, HasForm, Enough, Sequence.Form;
    FlushKeepsBudget(b, true);
    var r := FlushFor(b, s.Space(), s.ConstantSpace());
    PoolNeverExhausted(b, s.ConstantSpace());
    DeltaIsNatural(r);
    SequenceDemands(s, r.pool != [], r.maxDistance, r.lastConstDelta);
    EnoughIsExact(r, puts, s.Form());
  }

  /**
    With a constant pending only two are: a method check, at one distance, and a
    get_by_id, by the label behind its last word.
   */
  lemma TornWhilePending(s: Sequence, b: Buf, puts: seq<Put>)
    requires Budget(b) && b.pool != [] && WellFormed(puts) && HasForm(puts, s.Form())
    ensures Budget(FlushFor(b, s.Space(), s.ConstantSpace()))
    ensures !Uninterrupted(FlushFor(b, s.Space(), s.ConstantSpace()), puts)
            <==> || (s.MethodCheck? && b.maxDistance == 56 && b.lastConstDelta == 0)
                 || (s.GetById? && s.Demand() - 8 + b.lastConstDelta <= b.maxDistance < s.Demand())
  {
    hide Uninterrupted, HasForm, Sequence.Form, LoadQueued, Spending;
    SequenceTorn(s, b, puts);
  }

  function FormWords(form: Form): nat {
    match form
    case Done => 0
    case Insn(next) => 1 + FormWords(next)
    case Load(next) => 1 + FormWords(next)
    case Mark(next) => FormWords(next)
  }

  function FormLoads(form: Form): nat {
    match form
    case Done => 0
    case Insn(next) => FormLoads(next)
    case Load(next) => 1 + FormLoads(next)
    case Mark(next) => FormLoads(next)
  }

  lemma {:induction false} FormSize(puts: seq<Put>, form: Form)
    requires HasForm(puts, form)
    ensures Words(puts) == FormWords(form) && Constants(puts) == FormLoads(form)
    decreases form
  {
    if puts != [] {
      FormSize(puts[1..], form.next);
    }
  }

  /** Each is as long, and has as many constants, as what is reserved for it. */
  lemma SequenceFits(s: Sequence, puts: seq<Put>)
    requires WellFormed(puts) && HasForm(puts, s.Form())
    ensures 4 * Words(puts) == s.Space() && Constants(puts) == s.ConstantSpace()
  {
    hide HasForm, Words, Constants;
    FormSize(puts, s.Form());
    SequenceSize(s);
  }

  lemma OneSize(next: Form)
    ensures FormWords(Insn(next)) == 1 + FormWords(next) && FormLoads(Insn(next)) == FormLoads(next)
    ensures FormWords(Load(next)) == 1 + FormWords(next) && FormLoads(Load(next)) == 1 + FormLoads(next)
    ensures FormWords(Mark(next)) == FormWords(next) && FormLoads(Mark(next)) == FormLoads(next)
  {
  }

  lemma CompareSize(next: Form)
    ensures FormWords(Compare(next)) == 3 + FormWords(next) && FormLoads(Compare(next)) == 2 + FormLoads(next)
    ensures FormWords(CompareField(next)) == 4 + FormWords(next)
    ensures FormLoads(CompareField(next)) == 2 + FormLoads(next)
  {
    hide FormWords, FormLoads;
    OneSize(next);
    OneSize(Load(next));
    OneSize(Insn(Load(next)));
    OneSize(Load(Insn(Load(next))));
    OneSize(Compare(next));
  }

  lemma CheckMethodSize(next: Form)
    ensures FormWords(CheckMethod(next)) == 9 + FormWords(next)
    ensures FormLoads(CheckMethod(next)) == 5 + FormLoads(next)
  {
    hide CompareField, FormWords, FormLoads;
    var half := CompareField(next);
    CompareSize(next);
    OneSize(half);
    OneSize(Load(half));
    CompareSize(Move(half));
  }

  lemma AccessSize(next: Form)
    ensures FormWords(AccessField(next)) == 2 + FormWords(next) && FormLoads(AccessField(next)) == 1 + FormLoads(next)
  {
    hide FormWords, FormLoads;
    OneSize(next);
    OneSize(Insn(next));
    OneSize(Load(Insn(next)));
  }

  lemma PropertySize(next: Form)
    ensures FormWords(Property(next)) == 7 + FormWords(next) && FormLoads(Property(next)) == 3 + FormLoads(next)
  {
    hide CompareField, FormWords, FormLoads;
    var access := AccessField(next);
    AccessSize(next);
    OneSize(access);
    OneSize(Mark(access));
    OneSize(Insn(Mark(access)));
    CompareSize(ExternalLoad(access));
    OneSize(CompareField(ExternalLoad(access)));
  }

  lemma StubCallSize(next: Form)
    ensures FormWords(StubCall(next)) == 6 + FormWords(next) && FormLoads(StubCall(next)) == 2 + FormLoads(next)
  {
    hide FormWords, FormLoads;
    OneSize(next);
    OneSize(Load(next));
    var call := Mark(Insn(Load(next)));
    OneSize(Insn(Load(next)));
    OneSize(call);
    OneSize(Insn(call));
    OneSize(Insn(Insn(call)));
    OneSize(Insn(Insn(Insn(call))));
  }

  lemma DoneSize()
    ensures FormWords(Done) == 0 && FormLoads(Done) == 0
  {
  }

  lemma SequenceSize(s: Sequence)
    ensures 4 * FormWords(s.Form()) == s.Space() && FormLoads(s.Form()) == s.ConstantSpace()
  {
    hide Compare, CheckMethod, Property, AccessField, StubCall, FormWords, FormLoads;
    DoneSize();
    OneSize(Done);
    match s
    case OpCall =>
      CompareSize(Done);
    case MethodCheck =>
      OneSize(Load(Done));
      CheckMethodSize(Move(Done));
    case GetById(tagged) =>
      AccessSize(Mark(Done));
      PropertySize(if tagged then AccessField(Mark(Done)) else Mark(Done));
    case PutById(tagged) =>
      AccessSize(Done);
      PropertySize(if tagged then AccessField(Done) else Done);
    case GetByIdSlow(tagged) =>
      OneSize(Insn(Done));
      var call := StubCall(if tagged then Insn(Insn(Done)) else Insn(Done));
      StubCallSize(if tagged then Insn(Insn(Done)) else Insn(Done));
      OneSize(call);
      OneSize(Insn(call));
  }

  /** The byte offsets of the labels of a sequence that starts at `at`. */
  function Marks(form: Form, at: nat): seq<nat> {
    match form
    case Done => []
    case Insn(next) => Marks(next, at + 4)
    case Load(next) => Marks(next, at + 4)
    case Mark(next) => [at] + Marks(next, at)
  }

  /** The byte offsets of its loads, jumps among them. */
  function Loads(form: Form, at: nat): seq<nat> {
    match form
    case Done => []
    case Insn(next) => Loads(next, at + 4)
    case Load(next) => [at] + Loads(next, at + 4)
    case Mark(next) => Loads(next, at)
  }

  lemma OnePlace(next: Form, at: nat)
    ensures Marks(Insn(next), at) == Marks(next, at + 4) && Loads(Insn(next), at) == Loads(next, at + 4)
    ensures Marks(Load(next), at) == Marks(next, at + 4) && Loads(Load(next), at) == [at] + Loads(next, at + 4)
    ensures Marks(Mark(next), at) == [at] + Marks(next, at) && Loads(Mark(next), at) == Loads(next, at)
    ensures Marks(Done, at) == [] && Loads(Done, at) == []
  {
  }

  lemma ComparePlaces(next: Form, at: nat)
    ensures Marks(Compare(next), at) == [at] + Marks(next, at + 12)
    ensures Loads(Compare(next), at) == [at, at + 8] + Loads(next, at + 12)
    ensures Marks(CompareField(next), at) == [at + 4] + Marks(next, at + 16)
    ensures Loads(CompareField(next), at) == [at + 4, at + 12] + Loads(next, at + 16)
  {
    hide Marks, Loads;
    ComparePart(next, at);
    OnePlace(Compare(next), at);
    ComparePart(next, at + 4);
  }

  lemma ComparePart(next: Form, at: nat)
    ensures Marks(Compare(next), at) == [at] + Marks(next, at + 12)
    ensures Loads(Compare(next), at) == [at, at + 8] + Loads(next, at + 12)
  {
    hide Marks, Loads;
    OnePlace(Load(Insn(Load(next))), at);
    OnePlace(Insn(Load(next)), at);
    OnePlace(Load(next), at + 4);
    OnePlace(next, at + 8);
  }

  lemma MovePlaces(next: Form, at: nat)
    ensures Marks(Move(next), at) == [at] + Marks(next, at + 4) && Loads(Move(next), at) == [at] + Loads(next, at + 4)
  {
    hide Marks, Loads;
    OnePlace(Load(next), at);
    OnePlace(next, at);
  }

  lemma AccessPlaces(next: Form, at: nat)
    ensures Marks(AccessField(next), at) == [at] + Marks(next, at + 8)
    ensures Loads(AccessField(next), at) == [at] + Loads(next, at + 8)
  {
    hide Marks, Loads;
    OnePlace(Load(Insn(next)), at);
    OnePlace(Insn(next), at);
    OnePlace(next, at + 4);
  }

  lemma PropertyPlaces(next: Form)
    ensures Marks(Property(next), 0) == [0, 4, 16, 20, 20] + Marks(next, 28)
    ensures Loads(Property(next), 0) == [4, 12, 20] + Loads(next, 28)
  {
    hide Marks, Loads, CompareField, AccessField;
    var access := AccessField(next);
    AccessPlaces(next, 20);
    OnePlace(access, 20);
    OnePlace(Mark(access), 16);
    OnePlace(Insn(Mark(access)), 16);
    ComparePlaces(ExternalLoad(access), 0);
    OnePlace(CompareField(ExternalLoad(access)), 0);
  }

  lemma StubCallLoads(next: Form, at: nat)
    ensures Loads(StubCall(next), at) == [at, at + 20] + Loads(next, at + 24)
  {
    hide Marks, Loads;
    var call := Insn(Load(next));
    OnePlace(Insn(Insn(Insn(Mark(call)))), at);
    OnePlace(Insn(Insn(Mark(call))), at + 4);
    OnePlace(Insn(Mark(call)), at + 8);
    OnePlace(Mark(call), at + 12);
    OnePlace(call, at + 16);
    OnePlace(Load(next), at + 16);
    OnePlace(next, at + 20);
  }

  /**
    The distances the JIT patches at: from a label to another, and from a label to
    the end of a jump, which is four bytes behind its offset.
   */
  lemma PatchOffsets(s: Sequence)
    ensures match s
            case OpCall => Marks(s.Form(), 0) == [0] && Loads(s.Form(), 0) == [0, 12 - 4]
            case MethodCheck =>
              Marks(s.Form(), 0) == [4, 4 + 12, 4 + 20, 4 + 32] && Loads(s.Form(), 0) == [4, 12, 16, 24, 32, 36]
            case GetById(tagged) =>
              && Marks(s.Form(), 0) == [0, 4, 16, 16 + 4, 20] + (if tagged then [28, 36] else [28])
              && Loads(s.Form(), 0) == [4, 16 - 4, 20] + if tagged then [28] else []
            case PutById(tagged) =>
              && Marks(s.Form(), 0) == [0, 4, 16, 16 + 4, 20] + (if tagged then [28] else [])
              && Loads(s.Form(), 0) == [4, 12, 20] + if tagged then [28] else []
            case GetByIdSlow(tagged) => Loads(s.Form(), 0) == if tagged then [8, 32 - 4] else [4, 28 - 4]
  {
    hide Marks, Loads, Compare, CompareField, Move, Property, AccessField, StubCall;
    match s
    case OpCall =>
      ComparePlaces(Done, 0);
      OnePlace(Done, 12);
    case MethodCheck =>
      var last := CompareField(Move(Done));
      ComparePlaces(Move(last), 0);
      MovePlaces(last, 16);
      ComparePlaces(Move(Done), 20);
      MovePlaces(Done, 36);
      OnePlace(Done, 40);
    case GetById(tagged) =>
      PropertyPlaces(if tagged then AccessField(Mark(Done)) else Mark(Done));
      AccessPlaces(Mark(Done), 28);
      OnePlace(Done, if tagged then 36 else 28);
    case PutById(tagged) =>
      PropertyPlaces(if tagged then AccessField(Done) else Done);
      AccessPlaces(Done, 28);
      OnePlace(Done, if tagged then 36 else 28);
    case GetByIdSlow(tagged) =>
      SlowLoads(tagged);
  }

  lemma SlowLoads(tagged: bool)
    ensures Loads(GetByIdSlow(tagged).Form(), 0) == if tagged then [8, 28] else [4, 24]
  {
    hide Marks, Loads, StubCall;
    if tagged {
      var call := StubCall(Insn(Insn(Done)));
      OnePlace(Insn(call), 0);
      OnePlace(call, 4);
      StubCallLoads(Insn(Insn(Done)), 8);
      OnePlace(Insn(Done), 32);
      OnePlace(Done, 36);
    } else {
      OnePlace(StubCall(Insn(Done)), 0);
      StubCallLoads(Insn(Done), 4);
      OnePlace(Done, 28);
    }
    OnePlace(Done, 40);
    OnePlace(Done, 32);
  }

  function LastDelta(form: Form, last: int): int {
    match form
    case Done => last
    case Insn(next) => LastDelta(next, 0)
    case Load(next) => LastDelta(next, 4)
    case Mark(next) => LastDelta(next, last)
  }

  lemma CompareDelta(next: Form, last: int)
    ensures LastDelta(CompareField(next), last) == LastDelta(next, 4)
  {
    assert LastDelta(Insn(Load(next)), 4) == LastDelta(next, 4);
    assert LastDelta(Compare(next), 0) == LastDelta(next, 4);
  }

  /** The counters and the end of the code behind a sequence that was not interrupted. */
  lemma {:induction false} CountersBehind(b: Buf, puts: seq<Put>, form: Form)
    requires Budget(b) && WellFormed(puts) && HasForm(puts, form) && Uninterrupted(b, puts)
    ensures var r := After(b, puts);
            && r.maxDistance == b.maxDistance - 4 * FormWords(form) && |r.code| == |b.code| + FormWords(form)
            && r.lastConstDelta == LastDelta(form, b.lastConstDelta)
            && (b.pool != [] || FormLoads(form) > 0 ==> r.pool != [])
    decreases form
  {
    hide Budget, Flushes, Apply;
    if puts != [] {
      FirstAndRest(puts);
      ApplyFields(b, puts[0]);
      ApplyAppends(b, puts[0]);
      CountersBehind(Apply(b, puts[0]), puts[1..], form.next);
    }
  }

  lemma ApplyAppends(b: Buf, put: Put)
    requires Budget(b) && WellFormed([put]) && !Flushes(b, put)
    ensures |Apply(b, put).code| == |b.code| + if put.Label? then 0 else 1
  {
    hide LoadQueued, Spending, Flush, TagLoad, IsLiteralLoad, AddsOffset;
    if put.Constant? {
      QueueLoadFields(b, put.insn, put.value, put.isReusable);
    }
  }

  /**
    What becomes of a method check at the distance 56: the label of its last load
    flushes, and the barrier of the pool stands where that load should. 32 bytes
    behind the first label, where the JIT writes the function, there is a branch.
   */
  lemma MethodCheckTorn(b: Buf, puts: seq<Put>)
    requires Budget(b) && b.pool != [] && b.maxDistance == 56 && b.lastConstDelta == 0
    requires WellFormed(puts) && HasForm(puts, CheckMethod(Done))
    ensures FlushFor(b, 40, 6) == b && Uninterrupted(b, puts)
    ensures var t := After(b, puts);
            && Flushes(t, Label) && |t.code| == |b.code| + 9
            && |Apply(t, Label).code| > |t.code|
            && IsBranch(Apply(t, Label).code[|b.code| + 1 + 32 / 4])
  {
    hide LoadQueued, Spending, Flush, HasForm, Enough, Uninterrupted, BranchWord, IsBranch;
    PoolNeverExhausted(b, 6);
    MethodCheckDemands(Done, true, 56, 0);
    EndDemandsNothing(20, 4);
    EnoughIsExact(b, puts, CheckMethod(Done));
    CountersBehind(b, puts, CheckMethod(Done));
    var t := After(b, puts);
    CheckMethodSize(Done);
    DoneSize();
    CompareDelta(Done, 4);
    CompareDelta(Move(CompareField(Done)), 0);
    FlushesInNumbers(t, Label);
    BarrierBehind(t);
  }

  lemma EndDemandsNothing(d: int, last: int)
    ensures Enough(Done, true, d, last)
  {
  }

  lemma BarrierBehind(b: Buf)
    requires Budget(b) && b.pool != []
    ensures |Flush(b, true).code| > |b.code| && IsBranch(Flush(b, true).code[|b.code|])
  {
    hide Flush, BranchWord, IsBranch, PatchedWord;
    FlushedCode(b, true);
    BranchWordFields(AL, |Flush(b, true).code| - |b.code| - 2);
  }

  /** There is such a state: a method check behind a load and 497 plain instructions. */
  lemma MethodCheckMissed(n: nat, puts: seq<Put>)
    requires n <= 507 && WellFormed(puts) && HasForm(puts, MethodCheck.Form())
    ensures var b := AssemblerRuns.LoadThenNops(n).prog.buf;
            && Budget(b) && Budget(FlushFor(b, 40, 6))
            && (!Uninterrupted(FlushFor(b, 40, 6), puts) <==> n == 497)
  {
    hide Uninterrupted, HasForm, AssemblerRuns.LoadThenNops, Budget;
    var a := AssemblerRuns.LoadThenNops(n);
    AssemblerRuns.ValidBudget(a);
    SequenceTorn(MethodCheck, a.prog.buf, puts);
  }
}
