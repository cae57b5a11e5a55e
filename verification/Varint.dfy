/** The variable-length and zigzag integer codings of the byte array. */
module Varint {
  import opened Words

  /** What a codec call ends with.  OutOfRange is the exception the buffer throws;
      NullDeref is a read through the cursor when it is null; UndefinedShift is a shift
      of a 32-bit word by 32 or more, to which C++ gives no meaning. */
  datatype Outcome<+T> = Ok(value: T) | OutOfRange | NullDeref | UndefinedShift {
    predicate IsFailure() { !Ok? }

    function PropagateFailure<U>(): Outcome<U>
      requires !Ok?
    {
      match this
      case OutOfRange => OutOfRange
      case NullDeref => NullDeref
      case UndefinedShift => UndefinedShift
    }

    function Extract(): T
      requires Ok?
    {
      value
    }
  }

  // The low seven bits of a word with the continuation bit set.
  function More(v: nat): nat {
    Or(And(v, 0x7F), 0x80)
  }

  lemma LowSevenBits(v: nat)
    ensures And(v, 0x7F) == v % 128
  {
    assert Pow2(0) == 1;
    Pow2Seven(0);
    AndMask(v, 7);
    LowSeven(v);
  }

  lemma SetTopBit(v: nat)
    requires v < 128
    ensures Or(v, 0x80) == v + 128
  {
    assert Pow2(0) == 1;
    Pow2Seven(0);
    UpOne(7);
    OrDisjoint(v, 1, 7);
  }

  lemma MoreIs(v: nat)
    ensures More(v) == v % 128 + 128 && More(v) < 256
    ensures And(More(v), 0x7F) == v % 128
  {
    LowSevenBits(v);
    SetTopBit(v % 128);
    LowSevenBits(v % 128 + 128);
  }

  /** The bytes that writeUint32 and writeUint64 put in the buffer. */
  function Bytes(v: nat): (s: seq<byte>)
    ensures |s| >= 1
  {
    if v < 0x80 then [v]
    else
      MoreIs(v);
      [More(v)] + Bytes(v / 128)
  }

  /** The readers' loop: `bits` is 32 or 64, `i` the shift of the next byte, `acc` the
      result so far.  Both readers shift within a 32-bit word. */
  function Read(bits: nat, data: seq<byte>, i: nat, acc: nat): Outcome<(nat, seq<byte>)>
    decreases |data|
  {
    if i >= bits then Ok((acc, data))
    else if data == [] then OutOfRange
    else if i >= 32 then UndefinedShift
    else
      var b := data[0];
      if b < 0x80 then Ok((Or(acc, Shl(32, b, i)), data[1..]))
      else Read(bits, data[1..], i + 7, Or(acc, Shl(32, And(b, 0x7F), i)))
  }

  // --- self-delimiting, minimal length --------------------------------------------------

  /** Every byte but the last has its top bit set. */
  predicate SelfDelimited(s: seq<byte>) {
    && |s| >= 1
    && s[|s| - 1] < 0x80
    && forall k :: 0 <= k < |s| - 1 ==> s[k] >= 0x80
  }

  /** The number a self-delimited string stands for, seven bits a byte, lowest first. */
  function Value(s: seq<byte>): nat {
    if s == [] then 0 else s[0] % 128 + 128 * Value(s[1..])
  }

  lemma SelfDelimitedCons(b: byte, s: seq<byte>)
    requires b >= 0x80 && SelfDelimited(s)
    ensures SelfDelimited([b] + s) && Value([b] + s) == b % 128 + 128 * Value(s)
  {
    assert ([b] + s)[1..] == s;
  }

  lemma {:induction false} BytesSelfDelimited(v: nat)
    ensures SelfDelimited(Bytes(v)) && Value(Bytes(v)) == v
  {
    if v >= 0x80 {
      MoreIs(v);
      BytesSelfDelimited(v / 128);
      SelfDelimitedCons(More(v), Bytes(v / 128));
    } else {
      assert Value([]) == 0;
    }
  }

  /** No self-delimited string for the same number is shorter. */
  lemma {:induction false} BytesMinimal(s: seq<byte>)
    requires SelfDelimited(s)
    ensures |Bytes(Value(s))| <= |s|
  {
    if |s| > 1 && Value(s) >= 0x80 {
      assert SelfDelimited(s[1..]);
      BytesMinimal(s[1..]);
      assert Value(s) / 128 == Value(s[1..]);
    }
  }

  /** A value below 2^(7k) takes at most k bytes. */
  lemma {:induction false} BytesAtMost(v: nat, k: nat)
    requires k >= 1 && v < Pow2(7 * k)
    ensures |Bytes(v)| <= k
  {
    var j := 7 * k - 7;
    Pow2Seven(j);
    if v >= 0x80 {
      assert j > 0 by { assert Pow2(0) == 1; }
      BytesAtMost(v / 128, k - 1);
    }
  }

  /** The writers' temporary arrays of 5 and 10 bytes are never overrun. */
  lemma TemporaryArraySuffices(bits: nat, v: nat)
    requires bits in {32, 64} && v < Pow2(bits)
    ensures |Bytes(v)| <= if bits == 32 then 5 else 10
  {
    if bits == 32 {
      Pow2Monotone(32, 35);
      BytesAtMost(v, 5);
    } else {
      Pow2Monotone(64, 70);
      BytesAtMost(v, 10);
    }
  }

  // --- round trip ------------------------------------------------------------------------

  // One step of the reader adds seven more bits above those it has.
  lemma ReadStep(x: nat, i: nat, acc: nat)
    requires acc < Pow2(i) && x < 128 && Up(x, i) < Pow2(32)
    ensures Or(acc, Shl(32, x, i)) == acc + Up(x, i)
    ensures acc + Up(x, i) < Pow2(i + 7)
  {
    OrDisjoint(acc, x, i);
    UpBound(acc, x, 128, i);
    UpOne(i);
    UpOne(i + 7);
    UpSeven(1, i);
  }

  // The two parts of a value in base 128, shifted into place.
  lemma Digits(v: nat, i: nat)
    ensures Up(v, i) == Up(v / 128, i + 7) + Up(v % 128, i)
  {
    UpSum(128 * (v / 128), v % 128, i);
    UpSeven(v / 128, i);
  }

  // A number that is not zero is not zero shifted, and needs room above the shift.
  lemma RoomForMore(q: nat, i: nat)
    requires q >= 1 && Up(q, i) < Pow2(32)
    ensures i < 32
  {
    UpOne(i);
    UpSum(1, q - 1, i);
    if i >= 32 { Pow2Monotone(32, i); }
  }

  lemma ReadMore(bits: nat, b: byte, data: seq<byte>, i: nat, acc: nat)
    requires b >= 0x80 && i < bits && i < 32
    ensures Read(bits, [b] + data, i, acc) == Read(bits, data, i + 7, Or(acc, Shl(32, And(b, 0x7F), i)))
  {
    assert ([b] + data)[1..] == data;
  }

  lemma ReadLast(bits: nat, b: byte, rest: seq<byte>, i: nat, acc: nat)
    requires b < 0x80 && i < bits && i < 32
    ensures Read(bits, [b] + rest, i, acc) == Ok((Or(acc, Shl(32, b, i)), rest))
  {
    assert ([b] + rest)[1..] == rest;
  }

  // The reader over a continued encoding goes on with the quotient's encoding.
  lemma ReadContinued(bits: nat, v: nat, rest: seq<byte>, i: nat, acc: nat)
    requires i < bits && i < 32 && v >= 0x80
    ensures Read(bits, Bytes(v) + rest, i, acc)
         == Read(bits, Bytes(v / 128) + rest, i + 7, Or(acc, Shl(32, v % 128, i)))
  {
    MoreIs(v);
    assert Bytes(v) + rest == [More(v)] + (Bytes(v / 128) + rest);
    ReadMore(bits, More(v), Bytes(v / 128) + rest, i, acc);
  }

  lemma {:induction false} ReadBytes(bits: nat, v: nat, rest: seq<byte>, i: nat, acc: nat)
    requires bits >= 32 && i < 32 && acc < Pow2(i) && Up(v, i) < Pow2(32)
    ensures Read(bits, Bytes(v) + rest, i, acc) == Ok((acc + Up(v, i), rest))
    decreases v
  {
    if v < 0x80 {
      ReadStep(v, i, acc);
      ReadLast(bits, v, rest, i, acc);
    } else {
      var x, q := v % 128, v / 128;
      Digits(v, i);
      RoomForMore(q, i + 7);
      ReadContinued(bits, v, rest, i, acc);
      ReadStep(x, i, acc);
      ReadBytes(bits, q, rest, i + 7, acc + Up(x, i));
    }
  }

  // Whatever the bytes are, a 64-bit read that ends well ends below 2^32.
  lemma {:induction false} ReadBelow32(data: seq<byte>, i: nat, acc: nat)
    requires acc < Pow2(32) && i < 64
    ensures var r := Read(64, data, i, acc); r.Ok? ==> r.value.0 < Pow2(32)
    decreases |data|
  {
    if i < 32 && data != [] {
      var b := data[0];
      OrBound(acc, Shl(32, b, i), 32);
      OrBound(acc, Shl(32, And(b, 0x7F), i), 32);
      if b >= 0x80 { ReadBelow32(data[1..], i + 7, Or(acc, Shl(32, And(b, 0x7F), i))); }
    }
  }

  /** readUint32 gives back every 32-bit value, and takes exactly its bytes. */
  lemma Uint32RoundTrip(v: nat, rest: seq<byte>)
    requires v < Pow2(32)
    ensures Read(32, Bytes(v) + rest, 0, 0) == Ok((v, rest))
  {
    ReadBytes(32, v, rest, 0, 0);
  }

  /** readUint64 gives a 64-bit value back exactly when it is below 2^32: its shift is done
      in a 32-bit word. */
  lemma Uint64RoundTripIff(v: nat, rest: seq<byte>)
    ensures Read(64, Bytes(v) + rest, 0, 0) == Ok((v, rest)) <==> v < Pow2(32)
    ensures v >= Pow2(32) ==>
      var r := Read(64, Bytes(v) + rest, 0, 0); !(r.Ok? && r.value.0 == v)
  {
    if v < Pow2(32) {
      ReadBytes(64, v, rest, 0, 0);
    } else {
      ReadBelow32(Bytes(v) + rest, 0, 0);
    }
  }

  // --- zigzag ----------------------------------------------------------------------------

  /** The encoder on a w-bit signed value, every operation wrapping at w bits. */
  function EncodeZigzag(w: nat, v: int): nat {
    if v < 0 then Wrap(w, ToWord(w, -v) * 2 - 1) else ToWord(w, v * 2)
  }

  function DecodeZigzag(w: nat, u: nat): int
    requires w > 0
  {
    FromWord(w, Xor(u / 2, Neg(w, And(u, 1))))
  }

  /** Despite the wrapping, the code of v is 2v, or -2v - 1 for a negative v: the
      smallest integer included. */
  lemma EncodeZigzagIs(w: nat, v: int)
    requires w > 0 && IsSigned(w, v)
    ensures EncodeZigzag(w, v) == if v < 0 then -2 * v - 1 else 2 * v
    ensures EncodeZigzag(w, v) < Pow2(w)
  {
    assert Pow2(w) == 2 * Pow2(w - 1);
  }

  lemma LowBit(u: nat)
    ensures And(u, 1) == u % 2
  {
    assert And(u / 2, 0) == 0;
  }

  lemma DecodeZigzagIs(w: nat, u: nat)
    requires w > 0 && u < Pow2(w)
    ensures DecodeZigzag(w, u) == if u % 2 == 0 then u / 2 else -(u / 2) - 1
  {
    var p := Pow2(w);
    assert p == 2 * Pow2(w - 1);
    LowBit(u);
    if u % 2 == 1 {
      assert Neg(w, 1) == Wrap(w, p - 1) == p - 1;
      XorOnes(u / 2, w);
    }
  }

  lemma DecodeZigzagOf(w: nat, u: nat, v: int)
    requires w > 0 && u < Pow2(w) && u == if v < 0 then -2 * v - 1 else 2 * v
    ensures DecodeZigzag(w, u) == v
  {
    if v < 0 {
      assert u == 2 * (-v - 1) + 1;
      assert u % 2 == 1 && u / 2 == -v - 1;
    } else {
      assert u % 2 == 0 && u / 2 == v;
    }
    DecodeZigzagIs(w, u);
  }

  /** Zigzag is a bijection between the w-bit signed values and the w-bit words. */
  lemma ZigzagRoundTrip(w: nat, v: int)
    requires w > 0 && IsSigned(w, v)
    ensures EncodeZigzag(w, v) < Pow2(w) && DecodeZigzag(w, EncodeZigzag(w, v)) == v
  {
    EncodeZigzagIs(w, v);
    DecodeZigzagOf(w, EncodeZigzag(w, v), v);
  }

  lemma ZigzagOnto(w: nat, u: nat)
    requires w > 0 && u < Pow2(w)
    ensures IsSigned(w, DecodeZigzag(w, u)) && EncodeZigzag(w, DecodeZigzag(w, u)) == u
  {
    assert Pow2(w) == 2 * Pow2(w - 1);
    DecodeZigzagIs(w, u);
    EncodeZigzagIs(w, DecodeZigzag(w, u));
  }
}
