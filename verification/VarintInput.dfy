/** What the variable-length readers make of any bytes. */
module VarintInput {
  import opened Words
  import opened Varint

  predicate Continued(s: seq<byte>) { forall k :: 0 <= k < |s| ==> s[k] >= 0x80 }

  lemma LowSevenMore(v: nat, k: nat)
    ensures Low(v, k + 7) == 128 * Low(v / 128, k) + v % 128
  {
    var v2 := v / 4;
    var v4 := v2 / 4;
    var v6 := v4 / 4;
    assert v6 / 2 == v / 128;
    assert Low(v6, k + 1) == 2 * Low(v6 / 2, k) + v6 % 2;
    LowTwo(v4, k + 1);
    LowTwo(v2, k + 3);
    LowTwo(v, k + 5);
  }

  lemma {:induction false} UpTimes(v: nat, k: nat)
    ensures Up(16 * v, k) == Up(v, k + 4)
    decreases k
  {
    if k == 0 {
      assert Up(v, 1) == 2 * v;
      assert Up(v, 3) == 4 * Up(v, 1);
      assert Up(v, 4) == 2 * Up(v, 3);
    } else {
      UpTimes(v, k - 1);
    }
  }

  lemma {:induction false} WrapDown(low: nat, y: nat, w: nat)
    requires low < Pow2(w)
    ensures Wrap(w, low + Up(y, w)) == low
    decreases y
  {
    if y == 0 {
      UpSum(0, 0, w);
    } else {
      UpSum(y - 1, 1, w);
      UpOne(w);
      WrapDown(low, y - 1, w);
    }
  }

  lemma TopFits(d: nat)
    requires d < 16
    ensures Up(d, 28) < Pow2(32)
  {
    hide Up, Pow2;
    UpBound(0, d, 16, 28);
    UpTimes(1, 28);
    UpOne(32);
  }

  lemma ShiftSplit(x: nat)
    ensures Up(x, 28) == Up(x % 16, 28) + Up(x / 16, 32)
  {
    hide Up;
    UpSum(16 * (x / 16), x % 16, 28);
    UpTimes(x / 16, 28);
  }

  // The fifth byte has room for four bits.
  lemma ShiftTop(x: nat)
    ensures Shl(32, x, 28) == Up(x % 16, 28) && Up(x % 16, 28) < Pow2(32)
  {
    hide Up, Wrap, Pow2;
    TopFits(x % 16);
    ShiftSplit(x);
    WrapDown(Up(x % 16, 28), x / 16, 32);
  }

  // And a byte before it for all of its seven.
  lemma ShiftBelow(x: nat, i: nat)
    requires x < 128 && i <= 21
    ensures Up(x, i) < Pow2(32)
  {
    UpBound(0, x, 128, i);
    UpSeven(1, i);
    UpOne(i + 7);
    Pow2Monotone(i + 7, 32);
  }

  // What the bytes so far and the ones from here on come to.
  function Total(acc: nat, v: nat, i: nat): nat
    requires i <= 32
  {
    acc + Up(Low(v, 32 - i), i)
  }

  lemma TotalStep(acc: nat, x: nat, q: nat, i: nat)
    requires x < 128 && i <= 21
    ensures Total(acc, x + 128 * q, i) == Total(acc + Up(x, i), q, i + 7)
  {
    hide Up, Low;
    LowSevenMore(x + 128 * q, 25 - i);
    assert (x + 128 * q) / 128 == q && (x + 128 * q) % 128 == x;
    UpSum(128 * Low(q, 25 - i), x, i);
    UpSeven(Low(q, 25 - i), i);
  }

  lemma LowFour(v: nat)
    ensures Low(v, 4) == v % 16
  {
    LowTwo(v, 2);
    LowTwo(v / 4, 0);
    assert Low(v / 4 / 4, 0) == 0;
  }

  lemma TotalTop(acc: nat, x: nat, q: nat)
    requires acc < Pow2(28) && x < 128
    ensures Or(acc, Shl(32, x, 28)) == Total(acc, x + 128 * q, 28)
  {
    hide Up, Low, Or, Pow2, Shl;
    ShiftTop(x);
    OrDisjoint(acc, x % 16, 28);
    LowFour(x + 128 * q);
    assert (x + 128 * q) % 16 == x % 16;
  }

  lemma ValueCons(s: seq<byte>)
    requires s != []
    ensures Value(s) == s[0] % 128 + 128 * Value(s[1..])
  {
  }

  predicate IsShift(i: nat) { i == 0 || i == 7 || i == 14 || i == 21 || i == 28 }

  // The step of the reader at shift i, whether its byte ends the number or not.
  lemma StepBelow(acc: nat, s: seq<byte>, i: nat)
    requires s != [] && acc < Pow2(i) && i <= 21
    ensures var x := s[0] % 128; var acc' := Or(acc, Shl(32, x, i));
      acc' < Pow2(i + 7) && Total(acc', Value(s[1..]), i + 7) == Total(acc, Value(s), i)
  {
    var x := s[0] % 128;
    hide Up, Low, Or, Shl, Total, Value, Pow2;
    ValueCons(s);
    ShiftBelow(x, i);
    ReadStep(x, i, acc);
    TotalStep(acc, x, Value(s[1..]), i);
  }

  lemma StepTop(acc: nat, s: seq<byte>)
    requires s != [] && acc < Pow2(28)
    ensures Or(acc, Shl(32, s[0] % 128, 28)) == Total(acc, Value(s), 28)
  {
    hide Up, Low, Or, Shl, Total, Value, Pow2;
    ValueCons(s);
    TotalTop(acc, s[0] % 128, Value(s[1..]));
  }

  lemma NothingAbove(acc: nat, i: nat)
    requires i <= 32
    ensures Total(acc, 0, i) == acc
  {
    LowZero(32 - i);
    UpZero(i);
  }

  lemma {:induction false} LowZero(k: nat)
    ensures Low(0, k) == 0
  {
    if k > 0 { LowZero(k - 1); }
  }

  lemma {:induction false} UpZero(k: nat)
    ensures Up(0, k) == 0
  {
    if k > 0 { UpZero(k - 1); }
  }

  // From shift i on there is room for so many bytes.
  function Room(i: nat): nat {
    if i >= 32 then 0 else (31 - i) / 7 + 1
  }

  lemma Uncons(s: seq<byte>, rest: seq<byte>)
    requires s != []
    ensures s + rest == [s[0]] + (s[1..] + rest)
    ensures |s| == 1 ==> s[1..] + rest == rest && Value(s[1..]) == 0
  {
  }

  lemma LastStep(acc: nat, s: seq<byte>, i: nat)
    requires |s| == 1 && s[0] < 0x80 && IsShift(i) && acc < Pow2(i)
    ensures Or(acc, Shl(32, s[0], i)) == Total(acc, Value(s), i)
  {
    assert s[0] % 128 == s[0];
    hide Total, Value, Or, Shl, Pow2;
    if i == 28 { StepTop(acc, s); } else { LastBelow(acc, s, i); }
  }

  lemma LastBelow(acc: nat, s: seq<byte>, i: nat)
    requires |s| == 1 && acc < Pow2(i) && i <= 21
    ensures Or(acc, Shl(32, s[0] % 128, i)) == Total(acc, Value(s), i)
  {
    hide Total, Value, Or, Shl, Pow2;
    NothingMore(s);
    StepBelow(acc, s, i);
    NothingAbove(Or(acc, Shl(32, s[0] % 128, i)), i + 7);
  }

  lemma NothingMore(s: seq<byte>)
    requires |s| == 1
    ensures Value(s[1..]) == 0
  {
  }

  lemma LastIsRead(bits: nat, s: seq<byte>, rest: seq<byte>, i: nat, acc: nat)
    requires bits >= 32 && |s| == 1 && s[0] < 0x80 && IsShift(i) && acc < Pow2(i)
    ensures Read(bits, s + rest, i, acc) == Ok((Total(acc, Value(s), i), rest))
  {
    Uncons(s, rest);
    hide Total, Value, Read, Or, Shl, Pow2;
    ReadLast(bits, s[0], rest, i, acc);
    LastStep(acc, s, i);
  }

  /** A number that ends within the five bytes that fit is read modulo 2 to the 32nd, by either
      reader. */
  lemma {:induction false} EndedIsRead(bits: nat, s: seq<byte>, rest: seq<byte>, i: nat, acc: nat)
    requires bits >= 32 && SelfDelimited(s) && IsShift(i) && |s| <= Room(i) && acc < Pow2(i)
    ensures Read(bits, s + rest, i, acc) == Ok((Total(acc, Value(s), i), rest))
    decreases |s|
  {
    if |s| == 1 {
      LastIsRead(bits, s, rest, i, acc);
    } else {
      hide Total, Value, Read, Or, Shl, Pow2;
      Uncons(s, rest);
      StepBelow(acc, s, i);
      LowSevenBits(s[0]);
      ReadMore(bits, s[0], s[1..] + rest, i, acc);
      EndedIsRead(bits, s[1..], rest, i + 7, Or(acc, Shl(32, s[0] % 128, i)));
    }
  }

  /** A number that does not end within five bytes is cut off there by the 32-bit reader, and the rest
      stays; the 64-bit reader goes on to a shift that has no meaning, or to the end of the
      bytes. */
  lemma {:induction false} LongIsCut(bits: nat, s: seq<byte>, rest: seq<byte>, i: nat, acc: nat)
    requires bits in {32, 64} && Continued(s) && IsShift(i) && |s| == Room(i) && acc < Pow2(i)
    ensures Read(bits, s + rest, i, acc) ==
      if bits == 32 then Ok((Total(acc, Value(s), i), rest)) else if rest == [] then OutOfRange else UndefinedShift
    decreases |s|
  {
    hide Total, Value, Or, Shl, Pow2;
    Uncons(s, rest);
    LowSevenBits(s[0]);
    ReadMore(bits, s[0], s[1..] + rest, i, acc);
    if i == 28 {
      StepTop(acc, s);
    } else {
      StepBelow(acc, s, i);
      LongIsCut(bits, s[1..], rest, i + 7, Or(acc, Shl(32, s[0] % 128, i)));
    }
  }

  /** Bytes that stop before the number ends are out of range. */
  lemma {:induction false} ShortFails(bits: nat, s: seq<byte>, i: nat, acc: nat)
    requires bits in {32, 64} && Continued(s) && IsShift(i) && |s| < Room(i)
    ensures Read(bits, s, i, acc) == OutOfRange
    decreases |s|
  {
    if s != [] {
      assert s == [s[0]] + s[1..];
      ReadMore(bits, s[0], s[1..], i, acc);
      ShortFails(bits, s[1..], i + 7, Or(acc, Shl(32, And(s[0], 0x7F), i)));
    }
  }

  /** So it is for every input from the start of a read. */
  lemma AnyInput(bits: nat, s: seq<byte>, rest: seq<byte>)
    requires bits in {32, 64}
    ensures SelfDelimited(s) && |s| <= 5 ==> Read(bits, s + rest, 0, 0) == Ok((Low(Value(s), 32), rest))
    ensures Continued(s) && |s| == 5 ==>
      Read(bits, s + rest, 0, 0) ==
        if bits == 32 then Ok((Low(Value(s), 32), rest)) else if rest == [] then OutOfRange else UndefinedShift
    ensures Continued(s) && |s| < 5 ==> Read(bits, s, 0, 0) == OutOfRange
  {
    assert Pow2(0) == 1;
    assert Total(0, Value(s), 0) == Low(Value(s), 32);
    if SelfDelimited(s) && |s| <= 5 { EndedIsRead(bits, s, rest, 0, 0); }
    if Continued(s) && |s| == 5 { LongIsCut(bits, s, rest, 0, 0); }
    if Continued(s) && |s| < 5 { ShortFails(bits, s, 0, 0); }
  }
}
