/** The bytes of each value on the wire, one by one. */
module CodecWire {
  import opened Words
  import opened ByteArrays
  import V = Varint
  import opened Varint
  import opened Codec

  // How many bytes each kind of length takes.
  function Width(prefix: Prefix): nat
    requires prefix != Vint
  {
    match prefix case F16 => 2 case F32 => 4 case F64 => 8
  }

  /** The place of byte k in a word of n bytes: lowest first, or highest first. */
  function Weight(endian: Endian, n: nat, k: nat): nat
    requires k < n
  {
    if endian == LittleEndian then k else n - 1 - k
  }

  // Byte i of a word, from the lowest up.
  function Digit(v: nat, i: nat): byte {
    if i == 0 then v % 256 else Digit(v / 256, i - 1)
  }

  lemma {:induction false} LittleByteAt(n: nat, v: nat, k: nat)
    requires k < n
    ensures LittleBytes(n, v)[k] == Digit(v, k)
  {
    if k > 0 { LittleByteAt(n - 1, v / 256, k - 1); }
  }

  lemma {:induction false} ReverseAt(s: seq<byte>, k: nat)
    requires k < |s|
    ensures Reverse(s)[k] == s[|s| - 1 - k]
  {
    if k < |s| - 1 { ReverseAt(s[1..], k); }
  }

  /** When the program knows the order of its machine, each byte of a fixed-width word is the one that
      the order set on the buffer puts there. */
  lemma FixedByteAt(c: Config, n: nat, word: nat, k: nat)
    requires word < Pow2(8 * n) && c.order == c.host && k < n
    ensures FixedBytes(c, n, word)[k] == Digit(word, Weight(c.endian, n, k))
  {
    WireOrder(c, n, word);
    LittleByteAt(n, word, Weight(c.endian, n, k));
    ReverseAt(LittleBytes(n, word), k);
  }

  /** So an integer takes its width, negative ones as their two's complement word. */
  lemma FixedOnWire(c: Config, n: nat, signed: bool, v: int, k: nat)
    requires InType(Fixed(n, signed, v)) && c.order == c.host && k < n
    ensures var s := Encode(c, Fixed(n, signed, v)); var word := if v < 0 then v + Pow2(8 * n) else v;
      word >= 0 && |s| == n && s[k] == Digit(word, Weight(c.endian, n, k))
  {
    if signed { WordRoundTrip(8 * n, v); }
    FixedByteAt(c, n, ToWord(8 * n, v), k);
  }

  // Taking off a word of so many bytes leaves the bytes below.
  lemma {:induction false} DigitLess(n: nat, v: nat, i: nat)
    requires i < n && v >= Pow2(8 * n)
    ensures Digit(v - Pow2(8 * n), i) == Digit(v, i)
  {
    var m := Pow2(8 * n - 8);
    Pow2Seven(8 * n - 8);
    assert Pow2(8 * n) == 256 * m;
    Less256(v, m);
    if i > 0 {
      assert 8 * (n - 1) == 8 * n - 8;
      DigitLess(n - 1, v / 256, i - 1);
    }
  }

  lemma Less256(v: nat, m: nat)
    requires v >= 256 * m
    ensures (v - 256 * m) % 256 == v % 256 && (v - 256 * m) / 256 == v / 256 - m && v / 256 >= m
  {
  }

  /** Cutting a length to a width keeps its low bytes. */
  lemma {:induction false} WrapDigit(n: nat, v: nat, i: nat)
    requires i < n
    ensures Digit(Wrap(8 * n, v), i) == Digit(v, i)
    decreases v
  {
    if v >= Pow2(8 * n) {
      DigitLess(n, v, i);
      WrapDigit(n, v - Pow2(8 * n), i);
    }
  }

  lemma PrefixOnWire(c: Config, prefix: Prefix, len: nat, k: nat)
    requires c.order == c.host && prefix != Vint && k < Width(prefix)
    ensures var n := Width(prefix); var s := PrefixBytes(c, prefix, len);
      |s| == n && s[k] == Digit(len, Weight(c.endian, n, k))
  {
    var n := Width(prefix);
    hide Wrap, Digit, LittleBytes;
    WrapDigit(n, len, Weight(c.endian, n, k));
    assert PrefixBytes(c, prefix, len) == FixedBytes(c, n, Wrap(8 * n, len));
    FixedByteAt(c, n, Wrap(8 * n, len), k);
  }

  /** A string is the low two, four or eight bytes of its length, in the order of the buffer, and then
      its text. */
  lemma TextOnWire(c: Config, prefix: Prefix, text: seq<byte>, k: nat)
    requires c.order == c.host && prefix != Vint && k < Width(prefix)
    ensures var s := Encode(c, Text(prefix, text)); var n := Width(prefix);
      && |s| == n + |text| && s[n..] == text
      && s[k] == Digit(|text|, Weight(c.endian, n, k))
  {
    hide Digit, LittleBytes, Pow2;
    PrefixOnWire(c, prefix, |text|, k);
    assert Encode(c, Text(prefix, text)) == PrefixBytes(c, prefix, |text|) + text;
  }

  /** Or its length as a varint, and then its text. */
  lemma VintOnWire(c: Config, text: seq<byte>)
    requires |text| < Pow2(64)
    ensures Encode(c, Text(Vint, text)) == V.Bytes(|text|) + text
  {
    assert Wrap(64, |text|) == |text|;
  }
}
