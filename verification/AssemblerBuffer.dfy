/**
  The growing byte buffer under the Thumb-2 and x86 assemblers. `Contents` is
  what has been put; the unchecked puts assert that space was ensured before.
 */
module AssemblerBuffers {
  import opened Alignment

  type Byte = b: int | 0 <= b < 256

  const INLINE_CAPACITY := 256

  // Little-endian numbers --------------------------------------------------------

  /** The lowest `n` bytes of the number in two's complement. */
  function LittleEndian(value: int, n: nat): (bytes: seq<Byte>)
    ensures |bytes| == n
    decreases n
  {
    if n == 0 then [] else [value % 256] + LittleEndian(value / 256, n - 1)
  }

  function Power256(n: nat): (p: nat)
    ensures p >= 1
  {
    if n == 0 then 1 else 256 * Power256(n - 1)
  }

  function Unsigned(bytes: seq<Byte>): (value: nat)
    ensures value < Power256(|bytes|)
  {
    if bytes == [] then 0 else bytes[0] + 256 * Unsigned(bytes[1..])
  }

  /** The number the bytes stand for, the top bit being the sign. */
  function Signed(bytes: seq<Byte>): int
    requires bytes != []
  {
    var u := Unsigned(bytes);
    if 2 * u < Power256(|bytes|) then u else u - Power256(|bytes|)
  }

  /** `value` fits in `n` bytes. */
  predicate FitsSigned(value: int, n: nat) {
    0 <= 2 * value + Power256(n) < 2 * Power256(n)
  }

  lemma {:induction false} UnsignedOfLittleEndian(value: int, n: nat) returns (high: int)
    ensures value == Unsigned(LittleEndian(value, n)) + high * Power256(n)
    decreases n
  {
    if n == 0 {
      high := value;
    } else {
      high := UnsignedOfLittleEndian(value / 256, n - 1);
      var rest := LittleEndian(value / 256, n - 1);
      assert LittleEndian(value, n) == [value % 256] + rest;
      assert ([value % 256] + rest)[1..] == rest;
      TimesByte(Unsigned(rest), high, Power256(n - 1));
    }
  }

  lemma TimesByte(u: int, high: int, p: int)
    ensures 256 * (u + high * p) == 256 * u + high * (256 * p)
  {
  }

  /** Only the sign is left above the bytes. */
  lemma HighIsSign(value: int, u: nat, high: int, p: nat)
    requires value == u + high * p && u < p && 0 <= 2 * value + p < 2 * p
    ensures value == if 2 * u < p then u else u - p
  {
    assert high >= 1 ==> (high - 1) * p >= 0;
    assert high <= -2 ==> (-2 - high) * p >= 0;
  }

  /** Reading back gives the number that was written. */
  lemma SignedRoundTrip(value: int, n: nat)
    requires n > 0 && FitsSigned(value, n)
    ensures Signed(LittleEndian(value, n)) == value
  {
    hide Unsigned, LittleEndian, Power256;
    var high := UnsignedOfLittleEndian(value, n);
    HighIsSign(value, Unsigned(LittleEndian(value, n)), high, Power256(n));
  }

  /** A number too wide for the bytes is read back short of its high part only. */
  lemma SignedTruncates(value: int, n: nat) returns (high: int)
    requires n > 0
    ensures value == Signed(LittleEndian(value, n)) + high * Power256(n)
    ensures FitsSigned(Signed(LittleEndian(value, n)), n)
  {
    hide Unsigned, LittleEndian, Power256;
    high := UnsignedOfLittleEndian(value, n);
    var u, p := Unsigned(LittleEndian(value, n)), Power256(n);
    if 2 * u >= p {
      assert (high + 1) * p == high * p + p;
      high := high + 1;
    }
  }

  // The buffer -----------------------------------------------------------------------

  class AssemblerBuffer {
    var storage: array<Byte>
    var size: nat

    ghost predicate Valid()
      reads this
    {
      size <= storage.Length && INLINE_CAPACITY <= storage.Length
    }

    ghost function Contents(): seq<Byte>
      requires Valid()
      reads this, storage
    {
      storage[..size]
    }

    /** Bytes that can be put without growing. */
    ghost function Room(): nat
      requires Valid()
      reads this
    {
      storage.Length - size
    }

    constructor ()
      ensures Valid() && Contents() == [] && fresh(storage)
    {
      storage := new Byte[INLINE_CAPACITY](_ => 0);
      size := 0;
    }

    /** Grows once, by half, which is enough for anything up to half the capacity. */
    method EnsureSpace(space: nat)
      requires Valid()
      modifies this`storage
      ensures Valid() && Contents() == old(Contents())
      ensures storage == old(storage) || fresh(storage)
      ensures storage == old(storage) <==> space <= old(Room())
      ensures storage.Length == old(storage.Length) + if space <= old(Room()) then 0 else old(storage.Length) / 2
      ensures space <= INLINE_CAPACITY / 2 ==> space <= Room()
    {
      if size > storage.Length - space {
        Grow(0);
      }
    }

    predicate IsAligned(alignment: nat): (aligned: bool)
      reads this
      ensures PowerOfTwo(alignment) ==> (aligned <==> size % alignment == 0)
    {
      TestOfPower(size, alignment);
      MaskTest(size, alignment)
    }

    method PutByteUnchecked(value: int)
      requires Valid() && Room() >= 4
      modifies this`size, storage
      ensures Valid() && Contents() == old(Contents()) + LittleEndian(value, 1)
    {
      Store(LittleEndian(value, 1));
    }

    method PutShortUnchecked(value: int)
      requires Valid() && Room() >= 4
      modifies this`size, storage
      ensures Valid() && Contents() == old(Contents()) + LittleEndian(value, 2)
    {
      Store(LittleEndian(value, 2));
    }

    method PutIntUnchecked(value: int)
      requires Valid() && Room() >= 4
      modifies this`size, storage
      ensures Valid() && Contents() == old(Contents()) + LittleEndian(value, 4)
    {
      Store(LittleEndian(value, 4));
    }

    method PutInt64Unchecked(value: int)
      requires Valid() && Room() >= 8
      modifies this`size, storage
      ensures Valid() && Contents() == old(Contents()) + LittleEndian(value, 8)
    {
      Store(LittleEndian(value, 8));
    }

    /** A store of whole bytes behind the last one. */
    method Store(bytes: seq<Byte>)
      requires Valid() && Room() >= |bytes|
      modifies this`size, storage
      ensures Valid() && Contents() == old(Contents()) + bytes
    {
      forall i | 0 <= i < |bytes| {
        storage[size + i] := bytes[i];
      }
      size := size + |bytes|;
    }

    method PutByte(value: int)
      requires Valid()
      modifies this, storage
      ensures Valid() && Contents() == old(Contents()) + LittleEndian(value, 1)
      ensures storage == old(storage) || fresh(storage)
    {
      EnsureSpace(4);
      PutByteUnchecked(value);
    }

    method PutShort(value: int)
      requires Valid()
      modifies this, storage
      ensures Valid() && Contents() == old(Contents()) + LittleEndian(value, 2)
      ensures storage == old(storage) || fresh(storage)
    {
      EnsureSpace(4);
      PutShortUnchecked(value);
    }

    method PutInt(value: int)
      requires Valid()
      modifies this, storage
      ensures Valid() && Contents() == old(Contents()) + LittleEndian(value, 4)
      ensures storage == old(storage) || fresh(storage)
    {
      EnsureSpace(4);
      PutIntUnchecked(value);
    }

    method Append(data: seq<Byte>)
      requires Valid()
      modifies this, storage
      ensures Valid() && Contents() == old(Contents()) + data
      ensures storage == old(storage) || fresh(storage)
    {
      if size > storage.Length - |data| {
        Grow(|data|);
      }
      Store(data);
    }

    method Grow(extraCapacity: nat)
      requires Valid()
      modifies this`storage
      ensures Valid() && fresh(storage) && Contents() == old(Contents())
      ensures storage.Length == old(storage.Length) + old(storage.Length) / 2 + extraCapacity
    {
      var capacity := storage.Length + storage.Length / 2 + extraCapacity;
      var newStorage := new Byte[capacity](i requires 0 <= i < capacity reads this, storage =>
        if i < storage.Length then storage[i] else 0);
      assert newStorage[..size] == storage[..size];
      storage := newStorage;
    }

    /** Overwrites the four bytes in front of `where`, as code is patched through data(). */
    method SetInt32(where: nat, value: int)
      requires Valid() && 4 <= where <= size
      modifies storage
      ensures Valid()
      ensures Contents() == old(Contents())[..where - 4] + LittleEndian(value, 4) + old(Contents())[where..]
    {
      hide LittleEndian;
      var bytes := LittleEndian(value, 4);
      forall i | 0 <= i < 4 {
        storage[where - 4 + i] := bytes[i];
      }
    }

    method ExecutableCopy() returns (code: array<Byte>)
      requires Valid()
      ensures fresh(code) && code[..] == Contents()
    {
      code := new Byte[size](i requires 0 <= i < size && Valid() reads this, storage => storage[i]);
    }
  }
}
