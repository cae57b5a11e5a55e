/** Typed values on the byte array: how each is laid out, and when it is read back. */
module Codec {
  import opened Words
  import opened ByteArrays
  import V = Varint
  import opened Varint

  /** What the layout depends on: the order set on the buffer, the order the machine keeps
      words in memory, and the order the program was compiled to believe in. */
  datatype Config = Config(endian: Endian, host: Endian, order: Endian)

  datatype Prefix = F16 | F32 | F64 | Vint

  datatype Item =
    | Fixed(n: nat, signed: bool, value: int)
    | Number(bits: nat, word: nat)
    | Zigzag(bits: nat, value: int)
    | Text(prefix: Prefix, text: seq<byte>)

  datatype Tag = FixedTag(n: nat, signed: bool) | NumberTag(bits: nat) | ZigzagTag(bits: nat) | TextTag(prefix: Prefix)

  function TagOf(item: Item): Tag {
    match item
    case Fixed(n, signed, _) => FixedTag(n, signed)
    case Number(bits, _) => NumberTag(bits)
    case Zigzag(bits, _) => ZigzagTag(bits)
    case Text(prefix, _) => TextTag(prefix)
  }

  /** The C++ type of the argument admits the value. */
  predicate InType(item: Item) {
    match item
    case Fixed(n, signed, v) => n in {1, 2, 4, 8} && if signed then IsSigned(8 * n, v) else 0 <= v < Pow2(8 * n)
    case Number(bits, v) => bits in {32, 64} && v < Pow2(bits)
    case Zigzag(bits, v) => bits in {32, 64} && IsSigned(bits, v)
    case Text(_, s) => |s| < Pow2(64)
  }

  /** What the value must satisfy to be read back: the 64-bit varint reader keeps 32 bits, and
      the length prefixes keep what fits in them. */
  predicate Faithful(item: Item)
    requires InType(item)
  {
    match item
    case Fixed(_, _, _) => true
    case Number(bits, v) => v < Pow2(32)
    case Zigzag(bits, v) => EncodeZigzag(bits, v) < Pow2(32)
    case Text(F16, s) => |s| < Pow2(16)
    case Text(F32, s) => |s| < Pow2(32)
    case Text(F64, s) => true
    case Text(Vint, s) => |s| < Pow2(32)
  }

  // --- fixed width -----------------------------------------------------------------------

  function LittleBytes(n: nat, v: nat): (s: seq<byte>)
    ensures |s| == n
  {
    if n == 0 then [] else [v % 256] + LittleBytes(n - 1, v / 256)
  }

  function FromLittle(s: seq<byte>): nat {
    if s == [] then 0 else s[0] + 256 * FromLittle(s[1..])
  }

  function Reverse(s: seq<byte>): (r: seq<byte>)
    ensures |r| == |s|
  {
    if s == [] then [] else Reverse(s[1..]) + [s[0]]
  }

  // A word as the machine keeps it in memory.
  function HostBytes(host: Endian, n: nat, v: nat): (s: seq<byte>)
    ensures |s| == n
  {
    if host == LittleEndian then LittleBytes(n, v) else Reverse(LittleBytes(n, v))
  }

  function FromHost(host: Endian, s: seq<byte>): nat {
    if host == LittleEndian then FromLittle(s) else FromLittle(Reverse(s))
  }

  // bswap_16, bswap_32 and bswap_64; a one-byte value is not swapped.
  function Byteswap(n: nat, v: nat): nat {
    FromLittle(Reverse(LittleBytes(n, v)))
  }

  function FixedBytes(c: Config, n: nat, word: nat): (s: seq<byte>)
    ensures |s| == n
  {
    HostBytes(c.host, n, if c.endian != c.order then Byteswap(n, word) else word)
  }

  function FixedWord(c: Config, s: seq<byte>): nat {
    var v := FromHost(c.host, s);
    if c.endian != c.order then Byteswap(|s|, v) else v
  }

  lemma {:induction false} LittleRoundTrip(n: nat, v: nat)
    requires v < Pow2(8 * n)
    ensures FromLittle(LittleBytes(n, v)) == v
  {
    if n > 0 {
      Pow2Seven(8 * n - 8);
      assert 8 * (n - 1) == 8 * n - 8;
      LittleRoundTrip(n - 1, v / 256);
      assert LittleBytes(n, v)[1..] == LittleBytes(n - 1, v / 256);
    }
  }

  lemma {:induction false} LittleOnto(s: seq<byte>)
    ensures FromLittle(s) < Pow2(8 * |s|) && LittleBytes(|s|, FromLittle(s)) == s
  {
    if s != [] {
      LittleOnto(s[1..]);
      Pow2Seven(8 * |s| - 8);
      assert FromLittle(s) / 256 == FromLittle(s[1..]);
    }
  }

  lemma {:induction false} ReverseAppend(s: seq<byte>, b: byte)
    ensures Reverse(s + [b]) == [b] + Reverse(s)
  {
    if s != [] {
      assert (s + [b])[1..] == s[1..] + [b];
      ReverseAppend(s[1..], b);
    }
  }

  lemma {:induction false} ReverseTwice(s: seq<byte>)
    ensures Reverse(Reverse(s)) == s
  {
    if s != [] {
      ReverseAppend(Reverse(s[1..]), s[0]);
      ReverseTwice(s[1..]);
    }
  }

  lemma ByteswapTwice(n: nat, v: nat)
    requires v < Pow2(8 * n)
    ensures Byteswap(n, v) < Pow2(8 * n) && Byteswap(n, Byteswap(n, v)) == v
  {
    var r := Reverse(LittleBytes(n, v));
    LittleOnto(r);
    ReverseTwice(LittleBytes(n, v));
    LittleRoundTrip(n, v);
  }

  lemma HostRoundTrip(host: Endian, n: nat, v: nat)
    requires v < Pow2(8 * n)
    ensures FromHost(host, HostBytes(host, n, v)) == v
  {
    LittleRoundTrip(n, v);
    ReverseTwice(LittleBytes(n, v));
  }

  /** Whatever the machine and the two byte orders, a fixed-width word is read back. */
  lemma FixedRoundTrip(c: Config, n: nat, word: nat)
    requires word < Pow2(8 * n)
    ensures FixedWord(c, FixedBytes(c, n, word)) == word
  {
    ByteswapTwice(n, word);
    HostRoundTrip(c.host, n, word);
    HostRoundTrip(c.host, n, Byteswap(n, word));
  }

  /** When the program knows the order of its machine, the bytes on the wire are in the order
      set on the buffer, on every machine. */
  lemma WireOrder(c: Config, n: nat, word: nat)
    requires word < Pow2(8 * n) && c.order == c.host
    ensures FixedBytes(c, n, word)
         == if c.endian == LittleEndian then LittleBytes(n, word) else Reverse(LittleBytes(n, word))
  {
    LittleOnto(Reverse(LittleBytes(n, word)));
    ReverseTwice(LittleBytes(n, word));
  }

  // --- one item --------------------------------------------------------------------------

  function PrefixBytes(c: Config, prefix: Prefix, len: nat): seq<byte> {
    match prefix
    case F16 => FixedBytes(c, 2, Wrap(16, len))
    case F32 => FixedBytes(c, 4, Wrap(32, len))
    case F64 => FixedBytes(c, 8, Wrap(64, len))
    case Vint => V.Bytes(Wrap(64, len))
  }

  function Encode(c: Config, item: Item): seq<byte> {
    match item
    case Fixed(n, _, v) => FixedBytes(c, n, ToWord(8 * n, v))
    case Number(_, v) => V.Bytes(v)
    case Zigzag(bits, v) => V.Bytes(EncodeZigzag(bits, v))
    case Text(prefix, s) => PrefixBytes(c, prefix, |s|) + s
  }

  /** What a read of n bytes does with the unread bytes; `full` says that the capacity ends
      with them, so that the cursor past them is null. */
  function Next(data: seq<byte>, n: nat, full: bool): Outcome<(seq<byte>, seq<byte>)> {
    if n > |data| then OutOfRange
    else if n == 0 && data == [] && full then NullDeref
    else Ok((data[..n], data[n..]))
  }

  function DecodeFixed(c: Config, n: nat, data: seq<byte>, full: bool): Outcome<(nat, seq<byte>)> {
    var (s, rest) :- Next(data, n, full);
    Ok((FixedWord(c, s), rest))
  }

  function DecodePrefix(c: Config, prefix: Prefix, data: seq<byte>, full: bool): Outcome<(nat, seq<byte>)> {
    match prefix
    case F16 => DecodeFixed(c, 2, data, full)
    case F32 => DecodeFixed(c, 4, data, full)
    case F64 => DecodeFixed(c, 8, data, full)
    case Vint => V.Read(64, data, 0, 0)
  }

  function Decode(c: Config, tag: Tag, data: seq<byte>, full: bool): Outcome<(Item, seq<byte>)> {
    match tag
    case FixedTag(n, signed) =>
      var (w, rest) :- DecodeFixed(c, n, data, full);
      Ok((Fixed(n, signed, if signed && n > 0 then FromWord(8 * n, w) else w), rest))
    case NumberTag(bits) =>
      var (v, rest) :- V.Read(bits, data, 0, 0);
      Ok((Number(bits, v), rest))
    case ZigzagTag(bits) =>
      var (v, rest) :- V.Read(bits, data, 0, 0);
      Ok((Zigzag(bits, if bits > 0 then DecodeZigzag(bits, v) else v), rest))
    case TextTag(prefix) =>
      var (len, rest) :- DecodePrefix(c, prefix, data, full);
      var (s, rest') :- Next(rest, len, full);
      Ok((Text(prefix, s), rest'))
  }

  /** An empty string read at the very end of the last node follows the null cursor. */
  predicate FallsOff(item: Item, rest: seq<byte>, full: bool) {
    item.Text? && item.text == [] && rest == [] && full
  }

  lemma DecodeFixedWord(c: Config, n: nat, word: nat, rest: seq<byte>, full: bool)
    requires n > 0 && word < Pow2(8 * n)
    ensures DecodeFixed(c, n, FixedBytes(c, n, word) + rest, full) == Ok((word, rest))
  {
    var data := FixedBytes(c, n, word) + rest;
    FixedRoundTrip(c, n, word);
    assert data[..n] == FixedBytes(c, n, word) && data[n..] == rest;
  }

  lemma FixedItemRoundTrip(c: Config, item: Item, rest: seq<byte>, full: bool)
    requires item.Fixed? && InType(item)
    ensures ReadsBack(c, item, rest, full)
  {
    DecodeFixedWord(c, item.n, ToWord(8 * item.n, item.value), rest, full);
    if item.signed { WordRoundTrip(8 * item.n, item.value); }
  }

  // A word read back is the code of one value only.
  lemma ZigzagUnique(w: nat, v: int, u: nat)
    requires w > 0 && IsSigned(w, v) && u < Pow2(w)
    ensures DecodeZigzag(w, u) == v <==> u == EncodeZigzag(w, v)
  {
    ZigzagRoundTrip(w, v);
    ZigzagOnto(w, u);
  }

  lemma ZigzagRead(bits: nat, v: int, rest: seq<byte>)
    requires bits in {32, 64} && IsSigned(bits, v)
    ensures var u := EncodeZigzag(bits, v);
      var r := V.Read(bits, V.Bytes(u) + rest, 0, 0);
      if u < Pow2(32) then r == Ok((u, rest)) && DecodeZigzag(bits, u) == v
      else r.Ok? ==> DecodeZigzag(bits, r.value.0) != v
  {
    var u := EncodeZigzag(bits, v);
    ZigzagRoundTrip(bits, v);
    ZigzagUnique(bits, v, u);
    if bits == 32 {
      Uint32RoundTrip(u, rest);
    } else {
      Uint64RoundTripIff(u, rest);
      ReadBelow32(V.Bytes(u) + rest, 0, 0);
      var r := V.Read(bits, V.Bytes(u) + rest, 0, 0);
      if u >= Pow2(32) && r.Ok? {
        Pow2Monotone(32, 64);
        ZigzagUnique(bits, v, r.value.0);
      }
    }
  }

  lemma FixedPrefix(c: Config, n: nat, len: nat, rest: seq<byte>, full: bool)
    requires n > 0
    ensures var r := DecodeFixed(c, n, FixedBytes(c, n, Wrap(8 * n, len)) + rest, full);
      if len < Pow2(8 * n) then r == Ok((len, rest)) else !(r.Ok? && r.value.0 == len)
  {
    DecodeFixedWord(c, n, Wrap(8 * n, len), rest, full);
  }

  lemma VintPrefix(len: nat, rest: seq<byte>)
    requires len < Pow2(64)
    ensures var r := V.Read(64, V.Bytes(Wrap(64, len)) + rest, 0, 0);
      if len < Pow2(32) then r == Ok((len, rest)) else !(r.Ok? && r.value.0 == len)
  {
    Uint64RoundTripIff(len, rest);
  }

  // What the reader makes of a length prefix.
  lemma PrefixRoundTrip(c: Config, prefix: Prefix, s: seq<byte>, rest: seq<byte>, full: bool)
    requires |s| < Pow2(64)
    ensures var r := DecodePrefix(c, prefix, PrefixBytes(c, prefix, |s|) + rest, full);
      if Faithful(Text(prefix, s)) then r == Ok((|s|, rest)) else !(r.Ok? && r.value.0 == |s|)
  {
    match prefix
    case F16 => FixedPrefix(c, 2, |s|, rest, full);
    case F32 => FixedPrefix(c, 4, |s|, rest, full);
    case F64 => FixedPrefix(c, 8, |s|, rest, full);
    case Vint => VintPrefix(|s|, rest);
  }

  lemma DecodeText(c: Config, prefix: Prefix, data: seq<byte>, s: seq<byte>, rest: seq<byte>, full: bool)
    requires DecodePrefix(c, prefix, data, full) == Ok((|s|, s + rest))
    ensures Decode(c, TextTag(prefix), data, full)
         == if s == [] && rest == [] && full then NullDeref else Ok((Text(prefix, s), rest))
  {
    assert (s + rest)[..|s|] == s && (s + rest)[|s|..] == rest;
  }

  lemma DecodeOtherText(c: Config, prefix: Prefix, data: seq<byte>, s: seq<byte>, full: bool)
    requires var r := DecodePrefix(c, prefix, data, full); !(r.Ok? && r.value.0 == |s|)
    ensures var r := Decode(c, TextTag(prefix), data, full); !(r.Ok? && r.value.0 == Text(prefix, s))
  {
  }

  /** The item is read back, whatever follows it, with exactly its bytes taken. */
  predicate ReadsBack(c: Config, item: Item, rest: seq<byte>, full: bool) {
    Decode(c, TagOf(item), Encode(c, item) + rest, full)
    == if FallsOff(item, rest, full) then NullDeref else Ok((item, rest))
  }

  predicate NeverReadsBack(c: Config, item: Item, rest: seq<byte>, full: bool) {
    var r := Decode(c, TagOf(item), Encode(c, item) + rest, full);
    !(r.Ok? && r.value.0 == item)
  }

  lemma TextItemRoundTrip(c: Config, prefix: Prefix, s: seq<byte>, rest: seq<byte>, full: bool)
    requires |s| < Pow2(64)
    ensures var item := Text(prefix, s);
      if Faithful(item) then ReadsBack(c, item, rest, full) else NeverReadsBack(c, item, rest, full)
  {
    var data := PrefixBytes(c, prefix, |s|) + (s + rest);
    assert Encode(c, Text(prefix, s)) + rest == data;
    PrefixRoundTrip(c, prefix, s, s + rest, full);
    if Faithful(Text(prefix, s)) {
      DecodeText(c, prefix, data, s, rest, full);
    } else {
      DecodeOtherText(c, prefix, data, s, full);
    }
  }

  lemma Number32RoundTrip(c: Config, item: Item, rest: seq<byte>, full: bool)
    requires item.Number? && item.bits == 32 && InType(item)
    ensures Faithful(item) && ReadsBack(c, item, rest, full)
  {
    Uint32RoundTrip(item.word, rest);
  }

  lemma Number64RoundTrip(c: Config, item: Item, rest: seq<byte>, full: bool)
    requires item.Number? && item.bits == 64 && InType(item)
    ensures if Faithful(item) then ReadsBack(c, item, rest, full) else NeverReadsBack(c, item, rest, full)
  {
    Uint64RoundTripIff(item.word, rest);
  }

  lemma NumberItemRoundTrip(c: Config, item: Item, rest: seq<byte>, full: bool)
    requires item.Number? && InType(item)
    ensures if Faithful(item) then ReadsBack(c, item, rest, full) else NeverReadsBack(c, item, rest, full)
  {
    if item.bits == 32 { Number32RoundTrip(c, item, rest, full); } else { Number64RoundTrip(c, item, rest, full); }
  }

  lemma ZigzagItemRoundTrip(c: Config, item: Item, rest: seq<byte>, full: bool)
    requires item.Zigzag? && InType(item)
    ensures if Faithful(item) then ReadsBack(c, item, rest, full) else NeverReadsBack(c, item, rest, full)
  {
    ZigzagRead(item.bits, item.value, rest);
  }

  /** One item, whatever follows it: it is read back if and only if it is faithful; otherwise
      the reader does not give it back at all.  An empty string at the very end of a full
      buffer is the one exception: the reader follows a null cursor. */
  lemma ItemRoundTrip(c: Config, item: Item, rest: seq<byte>, full: bool)
    requires InType(item)
    ensures if Faithful(item) then ReadsBack(c, item, rest, full) else NeverReadsBack(c, item, rest, full)
  {
    match item
    case Fixed(_, _, _) => FixedItemRoundTrip(c, item, rest, full);
    case Text(prefix, s) => TextItemRoundTrip(c, prefix, s, rest, full);
    case Number(_, _) => NumberItemRoundTrip(c, item, rest, full);
    case Zigzag(_, _) => ZigzagItemRoundTrip(c, item, rest, full);
  }

  // --- lists of items ----------------------------------------------------------------------

  function EncodeAll(c: Config, items: seq<Item>): seq<byte> {
    if items == [] then [] else Encode(c, items[0]) + EncodeAll(c, items[1..])
  }

  function TagsOf(items: seq<Item>): (tags: seq<Tag>)
    ensures |tags| == |items| && forall k :: 0 <= k < |items| ==> tags[k] == TagOf(items[k])
  {
    if items == [] then [] else [TagOf(items[0])] + TagsOf(items[1..])
  }

  function DecodeAll(c: Config, tags: seq<Tag>, data: seq<byte>, full: bool): Outcome<(seq<Item>, seq<byte>)> {
    if tags == [] then Ok(([], data))
    else
      var (item, rest) :- Decode(c, tags[0], data, full);
      var (items, rest') :- DecodeAll(c, tags[1..], rest, full);
      Ok(([item] + items, rest'))
  }

  predicate AllInType(items: seq<Item>) {
    forall k :: 0 <= k < |items| ==> InType(items[k])
  }

  predicate AllFaithful(items: seq<Item>)
    requires AllInType(items)
  {
    forall k :: 0 <= k < |items| ==> Faithful(items[k])
  }

  predicate EndsEmpty(items: seq<Item>) {
    items != [] && items[|items| - 1].Text? && items[|items| - 1].text == []
  }

  lemma EncodeNotEmpty(c: Config, item: Item)
    requires InType(item)
    ensures |Encode(c, item)| > 0
  {
  }

  lemma {:induction false} ListStep(c: Config, item: Item, tail: seq<Item>, full: bool)
    requires InType(item)
    ensures var tags := TagsOf(tail);
      var all := DecodeAll(c, [TagOf(item)] + tags, Encode(c, item) + EncodeAll(c, tail), full);
      all == Ok(([item] + tail, []))
      <==> && Faithful(item) && !FallsOff(item, EncodeAll(c, tail), full)
           && DecodeAll(c, tags, EncodeAll(c, tail), full) == Ok((tail, []))
  {
    var tags, rest := TagsOf(tail), EncodeAll(c, tail);
    var data := Encode(c, item) + rest;
    ItemRoundTrip(c, item, rest, full);
    DecodeAllCons(c, TagOf(item), tags, data, full, item, tail);
  }

  lemma DecodeAllCons(c: Config, tag: Tag, tags: seq<Tag>, data: seq<byte>, full: bool, item: Item, tail: seq<Item>)
    ensures var first := Decode(c, tag, data, full);
      DecodeAll(c, [tag] + tags, data, full) == Ok(([item] + tail, []))
      <==> && first.Ok? && first.value.0 == item
           && DecodeAll(c, tags, first.value.1, full) == Ok((tail, []))
  {
    assert ([tag] + tags)[1..] == tags;
    var first := Decode(c, tag, data, full);
    if first.Ok? {
      var r := DecodeAll(c, tags, first.value.1, full);
      if r.Ok? {
        assert [first.value.0] + r.value.0 == [item] + tail
          <==> first.value.0 == item && r.value.0 == tail by
        {
          assert ([item] + tail)[1..] == tail && ([first.value.0] + r.value.0)[1..] == r.value.0;
        }
      }
    }
  }

  lemma EncodeAllEmpty(c: Config, items: seq<Item>)
    requires AllInType(items)
    ensures EncodeAll(c, items) == [] <==> items == []
  {
    if items != [] { EncodeNotEmpty(c, items[0]); }
  }

  // What a list must satisfy, item by item from the front.
  lemma GoodCons(c: Config, items: seq<Item>, full: bool)
    requires AllInType(items) && items != []
    ensures AllFaithful(items) && !(full && EndsEmpty(items))
      <==> && Faithful(items[0]) && !FallsOff(items[0], EncodeAll(c, items[1..]), full)
           && AllFaithful(items[1..]) && !(full && EndsEmpty(items[1..]))
  {
    var tail := items[1..];
    EncodeAllEmpty(c, tail);
    assert AllFaithful(items) <==> Faithful(items[0]) && AllFaithful(tail);
    if tail != [] { assert tail[|tail| - 1] == items[|items| - 1]; }
  }

  /** A list is read back, to its last byte, if and only if every item is faithful and it does
      not end in an empty string that the capacity ends with too. */
  lemma {:induction false} ListRoundTrip(c: Config, items: seq<Item>, full: bool)
    requires AllInType(items)
    ensures DecodeAll(c, TagsOf(items), EncodeAll(c, items), full) == Ok((items, []))
      <==> AllFaithful(items) && !(full && EndsEmpty(items))
  {
    if items != [] {
      assert items == [items[0]] + items[1..];
      ListRoundTrip(c, items[1..], full);
      ListStep(c, items[0], items[1..], full);
      GoodCons(c, items, full);
    }
  }
}
