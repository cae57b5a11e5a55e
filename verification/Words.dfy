/** Fixed-width machine words as natural numbers, with the bitwise operators the
    codecs use defined bit by bit.  A word of width `w` is a number below Pow2(w). */
module Words {

  type byte = x: int | 0 <= x < 256

  function Pow2(k: nat): (p: nat)
    ensures p >= 1
  {
    if k == 0 then 1 else 2 * Pow2(k - 1)
  }

  function And(a: nat, b: nat): nat {
    if a == 0 || b == 0 then 0
    else 2 * And(a / 2, b / 2) + (if a % 2 == 1 && b % 2 == 1 then 1 else 0)
  }

  function Or(a: nat, b: nat): nat
    decreases a + b
  {
    if a == 0 then b else if b == 0 then a
    else 2 * Or(a / 2, b / 2) + (if a % 2 == 1 || b % 2 == 1 then 1 else 0)
  }

  function Xor(a: nat, b: nat): nat
    decreases a + b
  {
    if a == 0 then b else if b == 0 then a
    else 2 * Xor(a / 2, b / 2) + (if a % 2 != b % 2 then 1 else 0)
  }

  // A shift to the left by k places with no width: k doublings.
  function Up(v: nat, k: nat): nat {
    if k == 0 then v else 2 * Up(v, k - 1)
  }

  // What a w-bit word keeps of an integer: wrap-around in both directions.
  function Wrap(w: nat, v: int): (u: nat)
    ensures u < Pow2(w)
    decreases v < 0, if v < 0 then 0 - v else v
  {
    if v < 0 then Wrap(w, v + Pow2(w))
    else if v >= Pow2(w) then Wrap(w, v - Pow2(w))
    else v
  }

  // A shift to the left of a w-bit word drops the bits that leave it.
  function Shl(w: nat, v: nat, k: nat): nat {
    Wrap(w, Up(v, k))
  }

  // Unsigned negation of a w-bit word.
  function Neg(w: nat, v: nat): nat {
    Wrap(w, 0 - v)
  }

  // Two's complement: the word that holds a signed value, and back.
  function ToWord(w: nat, v: int): nat {
    Wrap(w, v)
  }

  function FromWord(w: nat, u: nat): int
    requires w > 0
  {
    if u < Pow2(w - 1) then u else u - Pow2(w)
  }

  predicate IsSigned(w: nat, v: int)
    requires w > 0
  {
    0 - Pow2(w - 1) <= v < Pow2(w - 1)
  }

  lemma {:induction false} Pow2Monotone(a: nat, b: nat)
    requires a <= b
    ensures Pow2(a) <= Pow2(b)
  {
    if a < b { Pow2Monotone(a, b - 1); }
  }

  lemma Pow2Seven(i: nat)
    ensures Pow2(i + 7) == 128 * Pow2(i) && Pow2(i + 8) == 256 * Pow2(i)
  {
    assert Pow2(i + 2) == 4 * Pow2(i);
    assert Pow2(i + 4) == 4 * Pow2(i + 2);
    assert Pow2(i + 6) == 4 * Pow2(i + 4);
    assert Pow2(i + 8) == 2 * Pow2(i + 7) == 4 * Pow2(i + 6);
  }

  lemma {:induction false} UpSum(a: nat, b: nat, k: nat)
    ensures Up(a + b, k) == Up(a, k) + Up(b, k)
  {
    if k > 0 { UpSum(a, b, k - 1); }
  }

  lemma {:induction false} UpOne(k: nat)
    ensures Up(1, k) == Pow2(k)
  {
    if k > 0 { UpOne(k - 1); }
  }

  lemma {:induction false} UpSeven(v: nat, k: nat)
    ensures Up(v, k + 7) == Up(128 * v, k)
    decreases k
  {
    if k == 0 {
      assert Up(v, 1) == 2 * v;
      assert Up(v, 3) == 4 * Up(v, 1);
      assert Up(v, 5) == 4 * Up(v, 3);
      assert Up(v, 7) == 4 * Up(v, 5);
    } else {
      UpSeven(v, k - 1);
    }
  }

  // A sum whose first part lies below bit k and whose second is shifted above it.
  lemma UpBound(low: nat, x: nat, y: nat, k: nat)
    requires low < Pow2(k) && x < y
    ensures low + Up(x, k) < Up(y, k)
  {
    UpOne(k);
    UpSum(x, 1, k);
    UpSum(x + 1, y - x - 1, k);
  }

  // Bits above position k do not meet bits below it.
  lemma {:induction false} OrDisjoint(low: nat, high: nat, k: nat)
    requires low < Pow2(k)
    ensures Or(low, Up(high, k)) == low + Up(high, k)
    decreases k
  {
    if k > 0 {
      OrDisjoint(low / 2, high, k - 1);
    }
  }

  // An or of two w-bit words is a w-bit word.
  lemma {:induction false} OrBound(a: nat, b: nat, w: nat)
    requires a < Pow2(w) && b < Pow2(w)
    ensures Or(a, b) < Pow2(w)
    decreases w
  {
    if a > 0 && b > 0 { OrBound(a / 2, b / 2, w - 1); }
  }

  // Exclusive or with w ones is the complement.
  lemma {:induction false} XorOnes(v: nat, w: nat)
    requires v < Pow2(w)
    ensures Xor(v, Pow2(w) - 1) == Pow2(w) - 1 - v
    decreases w
  {
    if v > 0 && w > 0 {
      var m := Pow2(w) - 1;
      assert m / 2 == Pow2(w - 1) - 1 && m % 2 == 1;
      XorOnes(v / 2, w - 1);
    }
  }

  // The low k bits of a number.
  function Low(v: nat, k: nat): nat {
    if k == 0 then 0 else 2 * Low(v / 2, k - 1) + v % 2
  }

  // Masking with k ones keeps the low k bits.
  lemma {:induction false} AndMask(v: nat, k: nat)
    ensures And(v, Pow2(k) - 1) == Low(v, k)
    decreases k
  {
    if k > 0 {
      var m := Pow2(k) - 1;
      assert m / 2 == Pow2(k - 1) - 1 && m % 2 == 1;
      AndMask(v / 2, k - 1);
    }
  }

  lemma LowSeven(v: nat)
    ensures Low(v, 7) == v % 128
  {
    var v2 := v / 4;
    var v4 := v2 / 4;
    var v6 := v4 / 4;
    assert Low(v6, 1) == v6 % 2 by { assert Low(v6 / 2, 0) == 0; }
    LowTwo(v4, 1);
    LowTwo(v2, 3);
    LowTwo(v, 5);
  }

  lemma LowTwo(v: nat, k: nat)
    ensures Low(v, k + 2) == 4 * Low(v / 4, k) + v % 4
  {
    assert v / 2 / 2 == v / 4;
    assert Low(v, k + 2) == 2 * Low(v / 2, k + 1) + v % 2;
    assert Low(v / 2, k + 1) == 2 * Low(v / 2 / 2, k) + v / 2 % 2;
  }

  lemma WordRoundTrip(w: nat, v: int)
    requires w > 0 && IsSigned(w, v)
    ensures FromWord(w, ToWord(w, v)) == v
  {
    assert Pow2(w) == 2 * Pow2(w - 1);
    if v < 0 { assert Wrap(w, v + Pow2(w)) == v + Pow2(w); }
  }
}
