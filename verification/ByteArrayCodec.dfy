/** The typed writers and readers as they run on a byte array, and the round trip of any
    list of values through any node size. */
module ByteArrayCodec {
  import opened Words
  import opened Blocks
  import opened ByteArrays
  import V = Varint
  import opened Varint
  import opened Codec

  // The node list only grew, by new nodes.
  twostate predicate Grew(ba: ByteArray)
    reads ba, ba.nodes
  {
    && old(ba.nodes) <= ba.nodes
    && forall k :: |old(ba.nodes)| <= k < |ba.nodes| ==> fresh(ba.nodes[k]) && fresh(ba.nodes[k].ptr)
  }

  ghost function Unread(b: Buffer): seq<byte>
    requires b.pos <= |b.bytes|
  {
    b.bytes[b.pos..]
  }

  ghost predicate Full(b: Buffer) {
    |b.bytes| == b.cap
  }

  // After a reader: what is left unread when it ended well; bytes and capacity stay.
  ghost predicate Moved(before: Buffer, after: Buffer, rest: seq<byte>)
    requires before.pos <= |before.bytes| && after.pos <= |after.bytes|
  {
    after.bytes == before.bytes && after.cap == before.cap && Unread(after) == rest
  }

  lemma TakeIsNext(b: Buffer, n: nat)
    requires b.pos <= |b.bytes| <= b.cap
    ensures var t, x := Take(b, n), Next(Unread(b), n, Full(b));
      if t.Ok? then x == Ok((t.value, Unread(b.(pos := b.pos + n)))) else !x.Ok? && x.PropagateFailure<seq<byte>>() == t
  {
    if n <= |Unread(b)| {
      assert Unread(b)[..n] == b.bytes[b.pos..b.pos + n];
      assert Unread(b)[n..] == b.bytes[b.pos + n..];
    }
  }

  method WriteFixed(ba: ByteArray, c: Config, n: nat, word: nat)
    requires ba.Valid() && c.endian == ba.m_endian
    modifies ba`m_position, ba`m_size, ba`m_capacity, ba`nodes, ba`rank, ba`m_cur
    modifies ba.nodes, set k | k in ba.nodes :: k.ptr
    ensures ba.Valid() && Grew(ba)
    ensures ba.View() == Put(old(ba.View()), ba.m_basesize, FixedBytes(c, n, word))
  {
    var v := word;
    if ba.m_endian != c.order { v := Byteswap(n, v); }
    ba.Write(HostBytes(c.host, n, v));
  }

  method ReadFixed(ba: ByteArray, c: Config, n: nat) returns (r: Outcome<nat>)
    requires ba.Valid() && c.endian == ba.m_endian
    modifies ba`m_position, ba`m_cur
    ensures ba.Valid()
    ensures var b, d := old(ba.View()), DecodeFixed(c, n, Unread(old(ba.View())), Full(old(ba.View())));
      if r.Ok? then d.Ok? && d.value.0 == r.value && Moved(b, ba.View(), d.value.1)
      else !d.Ok? && d.PropagateFailure<nat>() == r && ba.View() == b
  {
    ghost var b := ba.View();
    TakeIsNext(b, n);
    var s :- ba.Read(n);
    var v := FromHost(c.host, s);
    if ba.m_endian != c.order { v := Byteswap(n, v); }
    r := Ok(v);
  }

  // The loop of writeUint32 and writeUint64 over their temporary array.
  method FillTemporary(tmp: array<byte>, value: nat) returns (n: nat)
    requires |V.Bytes(value)| <= tmp.Length
    modifies tmp
    ensures n <= tmp.Length && tmp[..n] == V.Bytes(value)
  {
    var i, v := 0, value;
    while v >= 0x80
      invariant i + |V.Bytes(v)| <= tmp.Length
      invariant V.Bytes(value) == tmp[..i] + V.Bytes(v)
      decreases v
    {
      MoreIs(v);
      ghost var done := tmp[..i];
      tmp[i] := More(v);
      assert tmp[..i + 1] == done + [More(v)];
      v := v / 128;
      i := i + 1;
    }
    tmp[i] := v;
    n := i + 1;
  }

  method EncodeUint(bits: nat, value: nat) returns (s: seq<byte>)
    requires bits in {32, 64} && value < Pow2(bits)
    ensures s == V.Bytes(value)
  {
    TemporaryArraySuffices(bits, value);
    var tmp := new byte[if bits == 32 then 5 else 10];
    var n := FillTemporary(tmp, value);
    s := tmp[..n];
  }

  method WriteUint(ba: ByteArray, bits: nat, value: nat)
    requires ba.Valid() && bits in {32, 64} && value < Pow2(bits)
    modifies ba`m_position, ba`m_size, ba`m_capacity, ba`nodes, ba`rank, ba`m_cur
    modifies ba.nodes, set k | k in ba.nodes :: k.ptr
    ensures ba.Valid() && Grew(ba)
    ensures ba.View() == Put(old(ba.View()), ba.m_basesize, V.Bytes(value))
  {
    var s := EncodeUint(bits, value);
    assert ba.View() == old(ba.View());
    ba.Write(s);
  }

  // readUint32 and readUint64.
  method ReadUint(ba: ByteArray, bits: nat) returns (r: Outcome<nat>)
    requires ba.Valid()
    modifies ba`m_position, ba`m_cur
    ensures ba.Valid() && ba.View().bytes == old(ba.View()).bytes && ba.View().cap == old(ba.View()).cap
    ensures var d := V.Read(bits, Unread(old(ba.View())), 0, 0);
      if r.Ok? then d.Ok? && d.value.0 == r.value && Unread(ba.View()) == d.value.1
      else !d.Ok? && d.PropagateFailure<nat>() == r
  {
    ghost var b := ba.View();
    var result, i := 0, 0;
    while i < bits
      invariant ba.Valid() && ba.View() == b.(pos := ba.m_position) && ba.m_position <= |b.bytes|
      invariant V.Read(bits, Unread(b), 0, 0) == V.Read(bits, Unread(ba.View()), i, result)
    {
      ghost var here := ba.View();
      TakeIsNext(here, 1);
      var s :- ba.Read(1);
      if i >= 32 { return UndefinedShift; }
      var x := s[0];
      if x < 0x80 {
        result := Or(result, Shl(32, x, i));
        return Ok(result);
      }
      result := Or(result, Shl(32, And(x, 0x7F), i));
      i := i + 7;
    }
    r := Ok(result);
  }

  // The words that the writers hand to the codecs are words of the right width.
  lemma WordInType(item: Item)
    requires InType(item)
    ensures item.Zigzag? ==> EncodeZigzag(item.bits, item.value) < Pow2(item.bits)
  {
    if item.Zigzag? { ZigzagRoundTrip(item.bits, item.value); }
  }

  function PrefixSize(prefix: Prefix): nat {
    match prefix case F16 => 2 case F32 => 4 case F64 => 8 case Vint => 0
  }

  method WritePrefix(ba: ByteArray, c: Config, prefix: Prefix, len: nat)
    requires ba.Valid() && c.endian == ba.m_endian
    modifies ba`m_position, ba`m_size, ba`m_capacity, ba`nodes, ba`rank, ba`m_cur
    modifies ba.nodes, set k | k in ba.nodes :: k.ptr
    ensures ba.Valid() && Grew(ba)
    ensures ba.View() == Put(old(ba.View()), ba.m_basesize, PrefixBytes(c, prefix, len))
  {
    if prefix == Vint {
      WriteUint(ba, 64, Wrap(64, len));
    } else {
      var n := PrefixSize(prefix);
      WriteFixed(ba, c, n, Wrap(8 * n, len));
    }
  }

  method WriteText(ba: ByteArray, c: Config, prefix: Prefix, text: seq<byte>)
    requires ba.Valid() && c.endian == ba.m_endian
    modifies ba`m_position, ba`m_size, ba`m_capacity, ba`nodes, ba`rank, ba`m_cur
    modifies ba.nodes, set k | k in ba.nodes :: k.ptr
    ensures ba.Valid() && Grew(ba)
    ensures ba.View() == Put(old(ba.View()), ba.m_basesize, PrefixBytes(c, prefix, |text|) + text)
  {
    PutTwice(ba.View(), ba.m_basesize, |ba.nodes|, PrefixBytes(c, prefix, |text|), text);
    WritePrefix(ba, c, prefix, |text|);
    ba.Write(text);
  }

  method ReadPrefix(ba: ByteArray, c: Config, prefix: Prefix) returns (r: Outcome<nat>)
    requires ba.Valid() && c.endian == ba.m_endian
    modifies ba`m_position, ba`m_cur
    ensures ba.Valid() && ba.View().bytes == old(ba.View()).bytes && ba.View().cap == old(ba.View()).cap
    ensures var d := DecodePrefix(c, prefix, Unread(old(ba.View())), Full(old(ba.View())));
      if r.Ok? then d.Ok? && d.value.0 == r.value && Unread(ba.View()) == d.value.1
      else !d.Ok? && d.PropagateFailure<nat>() == r
  {
    if prefix == Vint {
      r := ReadUint(ba, 64);
    } else {
      r := ReadFixed(ba, c, PrefixSize(prefix));
    }
  }

  // readStringF16, F32, F64 and Vint: the length, then as many bytes.
  method ReadText(ba: ByteArray, c: Config, prefix: Prefix) returns (r: Outcome<Item>)
    requires ba.Valid() && c.endian == ba.m_endian
    modifies ba`m_position, ba`m_cur
    ensures ba.Valid() && ba.View().bytes == old(ba.View()).bytes && ba.View().cap == old(ba.View()).cap
    ensures Matches(Decode(c, TextTag(prefix), Unread(old(ba.View())), Full(old(ba.View()))), r, ba.View())
  {
    hide DecodePrefix;
    var len :- ReadPrefix(ba, c, prefix);
    TakeIsNext(ba.View(), len);
    var s :- ba.Read(len);
    r := Ok(Text(prefix, s));
  }

  // The reader's result and the unread bytes it leaves are those the decoder gives.
  ghost predicate Matches(d: Outcome<(Item, seq<byte>)>, r: Outcome<Item>, after: Buffer)
    requires after.pos <= |after.bytes|
  {
    if r.Ok? then d == Ok((r.value, Unread(after))) else !d.Ok? && d.PropagateFailure<Item>() == r
  }

  method WriteItem(ba: ByteArray, c: Config, item: Item)
    requires ba.Valid() && c.endian == ba.m_endian && InType(item)
    modifies ba`m_position, ba`m_size, ba`m_capacity, ba`nodes, ba`rank, ba`m_cur
    modifies ba.nodes, set k | k in ba.nodes :: k.ptr
    ensures ba.Valid() && Grew(ba)
    ensures ba.View() == Put(old(ba.View()), ba.m_basesize, Encode(c, item))
  {
    WordInType(item);
    match item
    case Fixed(n, _, v) => WriteFixed(ba, c, n, ToWord(8 * n, v));
    case Number(bits, v) => WriteUint(ba, bits, v);
    case Zigzag(bits, v) => WriteUint(ba, bits, EncodeZigzag(bits, v));
    case Text(prefix, text) => WriteText(ba, c, prefix, text);
  }

  method ReadItem(ba: ByteArray, c: Config, tag: Tag) returns (r: Outcome<Item>)
    requires ba.Valid() && c.endian == ba.m_endian
    modifies ba`m_position, ba`m_cur
    ensures ba.Valid() && ba.View().bytes == old(ba.View()).bytes && ba.View().cap == old(ba.View()).cap
    ensures Matches(Decode(c, tag, Unread(old(ba.View())), Full(old(ba.View()))), r, ba.View())
  {
    match tag
    case FixedTag(n, signed) =>
      var w :- ReadFixed(ba, c, n);
      return Ok(Fixed(n, signed, if signed && n > 0 then FromWord(8 * n, w) else w));
    case NumberTag(bits) =>
      var v :- ReadUint(ba, bits);
      return Ok(Number(bits, v));
    case ZigzagTag(bits) =>
      var v :- ReadUint(ba, bits);
      return Ok(Zigzag(bits, if bits > 0 then DecodeZigzag(bits, v) else v));
    case TextTag(prefix) =>
      r := ReadText(ba, c, prefix);
  }

  // --- the round trip ----------------------------------------------------------------------

  // A buffer only written to since it was made: at its end, with the fewest nodes.
  ghost predicate Snug(b: Buffer, base: nat)
    requires base > 0
  {
    b.pos == |b.bytes| && b.cap == Area(NodesFor(|b.bytes|, base), base)
  }

  function NodesFor(size: nat, base: nat): nat
    requires base > 0
  {
    if size <= base then 1 else CeilDiv(size, base)
  }

  lemma NodesForLeast(size: nat, base: nat, k: nat)
    requires base > 0
    ensures size <= Area(NodesFor(size, base), base)
    ensures k >= 1 && size <= Area(k, base) ==> NodesFor(size, base) <= k
  {
    assert Area(1, base) == Area(0, base) + base;
    CeilDivLeast(size, base, k);
  }

  lemma SnugPut(b: Buffer, base: nat, data: seq<byte>)
    requires base > 0 && Snug(b, base)
    ensures Put(b, base, data) == Put(b, base, data).(bytes := b.bytes + data)
    ensures Snug(Put(b, base, data), base)
  {
    var m, s := NodesFor(|b.bytes|, base), |b.bytes| + |data|;
    var k, g := NodesFor(s, base), GrownNodes(base, b.pos, m, |data|);
    assert Area(1, base) == Area(0, base) + base;
    NodesForLeast(|b.bytes|, base, k);
    NodesForLeast(s, base, g);
    GrownLeast(base, b.pos, m, |data|, k);
    assert Overwrite(b.bytes, b.pos, data) == b.bytes + data;
  }

  lemma SnugFull(b: Buffer, base: nat)
    requires base > 0 && Snug(b, base)
    ensures Full(b) <==> |b.bytes| > 0 && |b.bytes| % base == 0
  {
    var s, k := |b.bytes|, NodesFor(|b.bytes|, base);
    IndexOffset(s, base);
    IndexOffsetAreDivMod(s, base);
    assert Area(1, base) == Area(0, base) + base;
    if s == Area(k, base) { Unique(s, base, k, 0); }
    if Offset(s, base) == 0 && s > 0 {
      NodesForLeast(s, base, Index(s, base));
      AreaMonotone(k, Index(s, base), base);
      NodesForLeast(s, base, k);
    }
  }

  // One turn of the loop that writes a list.
  method WriteNext(ba: ByteArray, c: Config, items: seq<Item>, i: nat)
    requires ba.Valid() && c.endian == ba.m_endian && AllInType(items) && i < |items|
    requires Snug(ba.View(), ba.m_basesize) && ba.View().bytes == EncodeAll(c, items[..i])
    modifies ba`m_position, ba`m_size, ba`m_capacity, ba`nodes, ba`rank, ba`m_cur
    modifies ba.nodes, set k | k in ba.nodes :: k.ptr
    ensures ba.Valid() && Grew(ba)
    ensures Snug(ba.View(), ba.m_basesize) && ba.View().bytes == EncodeAll(c, items[..i + 1])
  {
    SnugPut(ba.View(), ba.m_basesize, Encode(c, items[i]));
    EncodeAllNext(c, items, i);
    WriteItem(ba, c, items[i]);
  }

  method WriteAll(ba: ByteArray, c: Config, items: seq<Item>)
    requires ba.Valid() && c.endian == ba.m_endian && AllInType(items)
    requires Snug(ba.View(), ba.m_basesize) && ba.View().bytes == []
    modifies ba`m_position, ba`m_size, ba`m_capacity, ba`nodes, ba`rank, ba`m_cur
    modifies ba.nodes, set k | k in ba.nodes :: k.ptr
    ensures ba.Valid() && Snug(ba.View(), ba.m_basesize)
    ensures ba.View().bytes == EncodeAll(c, items)
  {
    var i := 0;
    assert items[..0] == [];
    while i < |items|
      invariant i <= |items| && ba.Valid() && Grew(ba)
      invariant Snug(ba.View(), ba.m_basesize)
      invariant ba.View().bytes == EncodeAll(c, items[..i])
    {
      WriteNext(ba, c, items, i);
      i := i + 1;
    }
    assert items[..i] == items;
  }

  lemma {:induction false} EncodeAllNext(c: Config, items: seq<Item>, i: nat)
    requires i < |items|
    ensures EncodeAll(c, items[..i + 1]) == EncodeAll(c, items[..i]) + Encode(c, items[i])
  {
    if i == 0 {
      assert items[..1][1..] == [];
    } else {
      EncodeAllNext(c, items[1..], i - 1);
      assert items[..i + 1][1..] == items[1..][..i] && items[..i][1..] == items[1..][..i - 1];
    }
  }

  // What the rest of the tags make of the rest of the bytes, after `got`.
  ghost function Rest(c: Config, tags: seq<Tag>, b: Buffer, got: seq<Item>): Outcome<(seq<Item>, seq<byte>)>
    requires b.pos <= |b.bytes|
  {
    var d := DecodeAll(c, tags, Unread(b), Full(b));
    if d.Ok? then Ok((got + d.value.0, d.value.1)) else d
  }

  lemma RestWhole(c: Config, tags: seq<Tag>, b: Buffer)
    requires b.pos <= |b.bytes|
    ensures Rest(c, tags, b, []) == DecodeAll(c, tags, Unread(b), Full(b))
  {
    var d := DecodeAll(c, tags, Unread(b), Full(b));
    if d.Ok? { assert [] + d.value.0 == d.value.0; }
  }

  lemma RestStep(c: Config, tags: seq<Tag>, b: Buffer, after: Buffer, got: seq<Item>, r: Outcome<Item>)
    requires tags != [] && b.pos <= |b.bytes| && after.pos <= |after.bytes|
    requires after.bytes == b.bytes && after.cap == b.cap
    requires Matches(Decode(c, tags[0], Unread(b), Full(b)), r, after)
    ensures r.Ok? ==> Rest(c, tags, b, got) == Rest(c, tags[1..], after, got + [r.value])
    ensures !r.Ok? ==> !Rest(c, tags, b, got).Ok?
  {
    if r.Ok? {
      var d := DecodeAll(c, tags[1..], Unread(after), Full(after));
      if d.Ok? { assert got + ([r.value] + d.value.0) == got + [r.value] + d.value.0; }
    }
  }

  method ReadAll(ba: ByteArray, c: Config, tags: seq<Tag>) returns (r: Outcome<seq<Item>>)
    requires ba.Valid() && c.endian == ba.m_endian
    modifies ba`m_position, ba`m_cur
    ensures ba.Valid() && ba.View().bytes == old(ba.View()).bytes
    ensures var d := DecodeAll(c, tags, Unread(old(ba.View())), Full(old(ba.View())));
      if r.Ok? then d == Ok((r.value, Unread(ba.View()))) else !d.Ok?
  {
    var got := [];
    var i := 0;
    ghost var whole := Rest(c, tags, ba.View(), []);
    RestWhole(c, tags, ba.View());
    while i < |tags|
      invariant i <= |tags| && ba.Valid()
      invariant ba.View().bytes == old(ba.View()).bytes && ba.View().cap == old(ba.View()).cap
      invariant whole == Rest(c, tags[i..], ba.View(), got)
    {
      ghost var before := ba.View();
      var one := ReadItem(ba, c, tags[i]);
      RestStep(c, tags[i..], before, ba.View(), got, one);
      if !one.Ok? { return one.PropagateFailure(); }
      assert tags[i..][1..] == tags[i + 1..];
      got := got + [one.value];
      i := i + 1;
    }
    assert got + [] == got;
    r := Ok(got);
  }

  // When the whole of a snug buffer is read back.
  lemma SnugRoundTrip(b: Buffer, base: nat, c: Config, items: seq<Item>)
    requires base > 0 && AllInType(items) && Snug(b, base) && b.bytes == EncodeAll(c, items)
    ensures DecodeAll(c, TagsOf(items), b.bytes, Full(b)) == Ok((items, []))
      <==> AllFaithful(items) && !(EndsEmpty(items) && |EncodeAll(c, items)| % base == 0)
  {
    SnugFull(b, base);
    ListRoundTrip(c, items, Full(b));
    EncodeAllEmpty(c, items);
  }

  method ReadBack(ba: ByteArray, c: Config, items: seq<Item>) returns (same: bool)
    requires ba.Valid() && c.endian == ba.m_endian
    modifies ba`m_position, ba`m_size, ba`m_cur
    ensures same <==>
      DecodeAll(c, TagsOf(items), old(ba.View()).bytes, Full(old(ba.View()))) == Ok((items, []))
  {
    var start := ba.SetPosition(0);
    assert Unread(ba.View()) == ba.View().bytes;
    var r := ReadAll(ba, c, TagsOf(items));
    same := r == Ok(items) && ba.m_size - ba.m_position == 0;
  }

  /** Writing a list of values into a fresh buffer, going back to the start and reading it with
      the matching readers gives the same list and ends at the end, for every node size,
      exactly when every value is faithful and the list does not end in an empty string
      whose end is the end of a node. */
  method RoundTrip(base: nat, c: Config, items: seq<Item>) returns (same: bool)
    requires base > 0 && AllInType(items)
    ensures same <==> AllFaithful(items) && !(EndsEmpty(items) && |EncodeAll(c, items)| % base == 0)
  {
    var ba := new ByteArray(base);
    ba.m_endian := c.endian;
    WriteAll(ba, c, items);
    SnugRoundTrip(ba.View(), base, c, items);
    same := ReadBack(ba, c, items);
  }
}
