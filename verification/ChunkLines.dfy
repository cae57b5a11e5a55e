/** The header lines of chunks (section 7.1 of RFC 9112), written out, and read back. */
module ChunkLines {
  import opened Options
  import opened ChunkSpec
  import opened ChunkRuns
  import opened ChunkDigits

  /** An extension: a name, and perhaps a value. */
  datatype Ext = Ext(name: seq<Byte>, value: Option<seq<Byte>>)

  predicate IsWord(w: seq<Byte>) { w != [] && forall i :: 0 <= i < |w| ==> IsToken(w[i]) }

  predicate Proper(e: Ext) { IsWord(e.name) && (e.value.Some? ==> IsWord(e.value.value)) }

  predicate AllProper(es: seq<Ext>) { forall i :: 0 <= i < |es| ==> Proper(es[i]) }

  const SEMICOLON: Byte := 59
  const EQUALS: Byte := 61

  function ExtBytes(e: Ext): seq<Byte> {
    [SEMICOLON] + e.name + if e.value.Some? then [EQUALS] + e.value.value else []
  }

  function Exts(es: seq<Ext>): seq<Byte> {
    if es == [] then [] else ExtBytes(es[0]) + Exts(es[1..])
  }

  function Eol(crlf: bool): seq<Byte> { if crlf then [CR, LF] else [LF] }

  /** A header line: the digits of the size, the extensions, the line end. */
  function Line(ds: seq<Byte>, es: seq<Ext>, crlf: bool): seq<Byte> {
    ds + Exts(es) + Eol(crlf)
  }

  /** What is reported of an extension whose semicolon is at this place. */
  function FieldOf(e: Ext, at: nat): Call {
    var end := at + 1 + |e.name|;
    if e.value.Some? then Field(at + 1, |e.name|, end + 1, |e.value.value|) else Field(at + 1, |e.name|, end, 0)
  }

  function Fields(es: seq<Ext>, at: nat): seq<Call> {
    if es == [] then [] else [FieldOf(es[0], at)] + Fields(es[1..], at + |ExtBytes(es[0])|)
  }

  predicate Has(buf: seq<Byte>, p: nat, w: seq<Byte>) {
    p + |w| <= |buf| && forall i :: 0 <= i < |w| ==> buf[p + i] == w[i]
  }

  lemma HasSplit(buf: seq<Byte>, p: nat, v: seq<Byte>, w: seq<Byte>)
    requires Has(buf, p, v + w)
    ensures Has(buf, p, v) && Has(buf, p + |v|, w)
  {
    forall i | 0 <= i < |v|
      ensures buf[p + i] == v[i]
    {
      assert (v + w)[i] == v[i];
    }
    forall i | 0 <= i < |w|
      ensures buf[p + |v| + i] == w[i]
    {
      assert (v + w)[|v| + i] == w[i];
    }
  }

  lemma HasFits(buf: seq<Byte>, p: nat, w: seq<Byte>)
    requires Has(buf, p, w)
    ensures p + |w| <= |buf|
  {
  }

  lemma HasAt(buf: seq<Byte>, p: nat, w: seq<Byte>, i: nat)
    requires Has(buf, p, w) && i < |w|
    ensures buf[p + i] == w[i]
  {
  }

  lemma LoopStep(q: Parser, buf: seq<Byte>, p: nat, q': Parser)
    requires p < |buf| && Marked(q, p) && Going(q.cs) && q' == Trans(q, buf, p) && Going(q'.cs)
    ensures Loop(q, buf, p) == Loop(q', buf, p + 1)
  {
  }

  // Bytes that change nothing are passed over.
  lemma {:induction false} LoopStays(q: Parser, buf: seq<Byte>, p: nat, e: nat)
    requires p <= e <= |buf| && Marked(q, p) && Going(q.cs)
    requires forall i :: p <= i < e ==> Trans(q, buf, i) == q
    ensures Loop(q, buf, p) == Loop(q, buf, e)
    decreases e - p
  {
    if p < e { LoopStays(q, buf, p + 1, e); }
  }

  // Something is being read that the next separator ends.
  predicate Open(q: Parser) { q.cs == 2 || q.cs == 5 || q.cs == 7 }

  // And this is what ending it does.
  function Closed(q: Parser, buf: seq<Byte>, p: nat): (q': Parser)
    requires p < |buf| && Marked(q, p) && Open(q)
    ensures Marked(q', p)
  {
    if q.cs == 2 then SizeRead(q, buf, p) else if q.cs == 5 then NameRead(q, p) else ValueRead(q, p)
  }

  // Name or value, from its first byte on.
  lemma LoopWord(q: Parser, buf: seq<Byte>, p: nat, w: seq<Byte>)
    requires Marked(q, p) && (q.cs == 4 || q.cs == 6) && IsWord(w) && Has(buf, p, w)
    ensures var q' := if q.cs == 4 then q.(cs := 5, field_start := p) else q.(cs := 7, mark := p);
      Loop(q, buf, p) == Loop(q', buf, p + |w|)
  {
    var q' := if q.cs == 4 then q.(cs := 5, field_start := p) else q.(cs := 7, mark := p);
    HasAt(buf, p, w, 0);
    LoopStep(q, buf, p, q');
    forall i | p + 1 <= i < p + |w|
      ensures Trans(q', buf, i) == q'
    {
      HasAt(buf, p, w, i - p);
    }
    LoopStays(q', buf, p + 1, p + |w|);
  }

  // One extension, after whatever was before it.
  function Opened(q: Parser, buf: seq<Byte>, p: nat, e: Ext): (q': Parser)
    requires p + |ExtBytes(e)| <= |buf| && Marked(q, p) && Open(q) && Proper(e)
    ensures Open(q') && Marked(q', p + |ExtBytes(e)|)
  {
    var q1 := Closed(q, buf, p).(cs := 5, field_start := p + 1);
    var end := p + 1 + |e.name|;
    if e.value.Some? then q1.(cs := 7, field_len := |e.name|, mark := end + 1) else q1
  }

  lemma LoopSemicolon(q: Parser, buf: seq<Byte>, p: nat, name: seq<Byte>, q1: Parser)
    requires Marked(q, p) && Open(q) && Has(buf, p, [SEMICOLON] + name)
    requires q1 == Closed(q, buf, p).(cs := 4)
    ensures Loop(q, buf, p) == Loop(q1, buf, p + 1) && Has(buf, p + 1, name)
  {
    HasSplit(buf, p, [SEMICOLON], name);
    HasAt(buf, p, [SEMICOLON], 0);
    LoopStep(q, buf, p, q1);
  }

  // A separator and a name.
  lemma LoopName(q: Parser, buf: seq<Byte>, p: nat, name: seq<Byte>, q': Parser, end: nat)
    requires Marked(q, p) && Open(q) && IsWord(name) && Has(buf, p, [SEMICOLON] + name) && end == p + 1 + |name|
    requires q' == Closed(q, buf, p).(cs := 5, field_start := p + 1)
    ensures Marked(q', end) && Loop(q, buf, p) == Loop(q', buf, end)
  {
    hide Loop;
    var q1 := Closed(q, buf, p).(cs := 4);
    LoopSemicolon(q, buf, p, name, q1);
    LoopWord(q1, buf, p + 1, name);
    assert q1.(cs := 5, field_start := p + 1) == q';
  }

  lemma LoopEquals(q: Parser, buf: seq<Byte>, p: nat, value: seq<Byte>, q1: Parser)
    requires Marked(q, p) && q.cs == 5 && Has(buf, p, [EQUALS] + value)
    requires q1 == q.(cs := 6, field_len := p - q.field_start, mark := p)
    ensures Loop(q, buf, p) == Loop(q1, buf, p + 1) && Has(buf, p + 1, value)
  {
    HasSplit(buf, p, [EQUALS], value);
    HasAt(buf, p, [EQUALS], 0);
    LoopStep(q, buf, p, q1);
  }

  // An equals sign and a value.
  lemma LoopValue(q: Parser, buf: seq<Byte>, p: nat, value: seq<Byte>, q': Parser, end: nat)
    requires Marked(q, p) && q.cs == 5 && IsWord(value) && Has(buf, p, [EQUALS] + value) && end == p + 1 + |value|
    requires q' == q.(cs := 7, field_len := p - q.field_start, mark := p + 1)
    ensures Marked(q', end) && Loop(q, buf, p) == Loop(q', buf, end)
  {
    hide Loop;
    var q1 := q.(cs := 6, field_len := p - q.field_start, mark := p);
    LoopEquals(q, buf, p, value, q1);
    LoopWord(q1, buf, p + 1, value);
    assert q1.(cs := 7, mark := p + 1) == q';
  }

  lemma LoopExt(q: Parser, buf: seq<Byte>, p: nat, e: Ext, q': Parser, end: nat)
    requires Marked(q, p) && Open(q) && Proper(e) && Has(buf, p, ExtBytes(e)) && end == p + |ExtBytes(e)|
    requires q' == Opened(q, buf, p, e)
    ensures Loop(q, buf, p) == Loop(q', buf, end)
  {
    hide Loop, Has;
    HasFits(buf, p, ExtBytes(e));
    var head, k := [SEMICOLON] + e.name, p + 1 + |e.name|;
    var q1 := Closed(q, buf, p).(cs := 5, field_start := p + 1);
    if e.value.None? {
      assert ExtBytes(e) == head;
    } else {
      HasSplit(buf, p, head, [EQUALS] + e.value.value);
      LoopValue(q1, buf, k, e.value.value, q', end);
    }
    LoopName(q, buf, p, e.name, q1, k);
  }

  // Ending an extension reports it.
  lemma ExtIsReported(q: Parser, buf: seq<Byte>, p: nat, e: Ext)
    requires p + |ExtBytes(e)| < |buf| && Marked(q, p) && Open(q) && Proper(e)
    ensures var c := Closed(q, buf, p); var c' := Closed(Opened(q, buf, p, e), buf, p + |ExtBytes(e)|);
      && c'.calls == c.calls + [FieldOf(e, p)]
      && (c'.content_len, c'.chunked, c'.chunks_done) == (c.content_len, c.chunked, c.chunks_done)
  {
  }

  // The end of the line, after whatever was before it.
  lemma LoopEol(q: Parser, buf: seq<Byte>, p: nat, crlf: bool)
    requires Marked(q, p) && Open(q) && Has(buf, p, Eol(crlf))
    ensures var end := p + |Eol(crlf)|;
      Loop(q, buf, p) == (Finished(Closed(q, buf, p), buf, end - 1).(cs := FINAL), end)
  {
    HasAt(buf, p, Eol(crlf), 0);
    if crlf {
      HasAt(buf, p, Eol(crlf), 1);
      assert Trans(q, buf, p) == Closed(q, buf, p).(cs := 3);
    }
  }

  lemma Regroup(a: seq<Byte>, b: seq<Byte>, c: seq<Byte>)
    ensures a + b + c == a + (b + c)
  {
  }

  lemma ExtsSplit(buf: seq<Byte>, p: nat, es: seq<Ext>, eol: seq<Byte>)
    requires es != [] && Has(buf, p, Exts(es) + eol)
    ensures var e := ExtBytes(es[0]);
      Has(buf, p, e) && Has(buf, p + |e|, Exts(es[1..]) + eol) && |Exts(es)| == |e| + |Exts(es[1..])|
  {
    var e := ExtBytes(es[0]);
    Regroup(e, Exts(es[1..]), eol);
    HasSplit(buf, p, e, Exts(es[1..]) + eol);
  }

  // The end of the line was reached, after these reports and no others.
  predicate LineEnds(c: Parser, r: (Parser, nat), fields: seq<Call>, end: nat, len: nat) {
    && end <= len && r.1 == end == r.0.body_start && r.0.cs == FINAL
    && r.0.calls == c.calls + fields + [HeaderDone(end, len - end)]
    && (r.0.content_len, r.0.chunked, r.0.chunks_done) == (c.content_len, c.chunked, c.chunks_done)
  }

  lemma LineEndsCons(c: Parser, c': Parser, r: (Parser, nat), f: Call, fields: seq<Call>, end: nat, len: nat)
    requires LineEnds(c', r, fields, end, len) && c'.calls == c.calls + [f]
    requires (c'.content_len, c'.chunked, c'.chunks_done) == (c.content_len, c.chunked, c.chunks_done)
    ensures LineEnds(c, r, [f] + fields, end, len)
  {
    assert c.calls + [f] + fields == c.calls + ([f] + fields);
  }

  // One extension less to go.
  predicate Opens(q: Parser, buf: seq<Byte>, p: nat, e: Ext, q1: Parser, p1: nat) {
    && p1 == p + |ExtBytes(e)| < |buf| && Marked(q, p) && Open(q) && Proper(e) && q1 == Opened(q, buf, p, e)
    && Open(q1) && Marked(q1, p1)
  }

  lemma TailOpens(q: Parser, buf: seq<Byte>, p: nat, es: seq<Ext>, crlf: bool)
    requires es != [] && Marked(q, p) && Open(q) && AllProper(es) && Has(buf, p, Exts(es) + Eol(crlf))
    ensures var p1 := p + |ExtBytes(es[0])|;
      && Has(buf, p, ExtBytes(es[0])) && Has(buf, p1, Exts(es[1..]) + Eol(crlf))
      && Opens(q, buf, p, es[0], Opened(q, buf, p, es[0]), p1) && AllProper(es[1..])
      && p1 + |Exts(es[1..])| == p + |Exts(es)|
  {
    ExtsSplit(buf, p, es, Eol(crlf));
  }

  lemma TailEnds(q: Parser, buf: seq<Byte>, p: nat, es: seq<Ext>, end: nat, r: (Parser, nat), q1: Parser, p1: nat)
    requires es != [] && Opens(q, buf, p, es[0], q1, p1)
    requires LineEnds(Closed(q1, buf, p1), r, Fields(es[1..], p1), end, |buf|)
    ensures LineEnds(Closed(q, buf, p), r, Fields(es, p), end, |buf|)
  {
    ExtIsReported(q, buf, p, es[0]);
    LineEndsCons(Closed(q, buf, p), Closed(q1, buf, p1), r, FieldOf(es[0], p), Fields(es[1..], p1), end, |buf|);
  }

  /** The rest of the line: each extension is reported once, with its place, and then the end. */
  lemma {:induction false} LoopTail(q: Parser, buf: seq<Byte>, p: nat, es: seq<Ext>, crlf: bool, r: (Parser, nat))
    requires Marked(q, p) && Open(q) && AllProper(es) && Has(buf, p, Exts(es) + Eol(crlf))
    requires r == Loop(q, buf, p)
    ensures LineEnds(Closed(q, buf, p), r, Fields(es, p), p + |Exts(es)| + |Eol(crlf)|, |buf|)
    decreases |es|
  {
    hide Loop, Has;
    HasFits(buf, p, Exts(es) + Eol(crlf));
    if es == [] {
      assert Exts(es) + Eol(crlf) == Eol(crlf);
      LoopEol(q, buf, p, crlf);
    } else {
      var q1, p1 := Opened(q, buf, p, es[0]), p + |ExtBytes(es[0])|;
      TailOpens(q, buf, p, es, crlf);
      LoopExt(q, buf, p, es[0], q1, p1);
      LoopTail(q1, buf, p1, es[1..], crlf, r);
      TailEnds(q, buf, p, es, p + |Exts(es)| + |Eol(crlf)|, r, q1, p1);
    }
  }

  /** The size that digits stand for, as far as an int can hold it. */
  function SizeOf(ds: seq<Byte>): int
    requires forall i :: 0 <= i < |ds| ==> IsHex(ds[i])
  {
    var n := HexValue(ds);
    ToInt(if n > LONG_MAX then LONG_MAX else n)
  }

  // The parser with its digits read, and then its size.
  const SIZING: Parser := Init().(cs := 2)

  function Sized(ds: seq<Byte>): Parser
    requires forall i :: 0 <= i < |ds| ==> IsHex(ds[i])
  {
    var size := SizeOf(ds);
    SIZING.(chunked := true, content_len := size, chunks_done := size <= 0,
            calls := [if size <= 0 then LastChunk(0, |ds|) else ChunkSize(0, |ds|)])
  }

  lemma LineStart(ds: seq<Byte>, tail: seq<Byte>, buf: seq<Byte>)
    requires ds != [] && (forall i :: 0 <= i < |ds| ==> IsHex(ds[i])) && tail != [] && !IsHex(tail[0])
    requires Has(buf, 0, ds) && Has(buf, |ds|, tail)
    ensures Loop(Init(), buf, 0) == Loop(SIZING, buf, |ds|) && Closed(SIZING, buf, |ds|) == Sized(ds)
  {
    forall i | 0 <= i < |ds| ensures buf[i] == ds[i] { HasAt(buf, 0, ds, i); }
    assert Trans(Init(), buf, 0) == SIZING;
    LoopStays(SIZING, buf, 1, |ds|);
    HasAt(buf, |ds|, tail, 0);
    StrtolIs(buf, 0, |ds|);
    assert buf[0..|ds|] == ds;
  }

  // A call that goes through to the end of the line.
  lemma ExecuteIs(buf: seq<Byte>, r: (Parser, nat))
    requires buf != [] && r == Loop(Init(), buf, 0)
    ensures var e := Execute(Init(), buf, 0);
      e.1 == e.0.nread == r.1 && forall c, fields, end, len :: LineEnds(c, r, fields, end, len) ==>
        LineEnds(c, (e.0, r.1), fields, end, len)
  {
    assert Init().(nread := 0) == Init();
    ReturnsNread(Init(), buf, 0);
  }

  lemma LineHas(ds: seq<Byte>, es: seq<Ext>, crlf: bool, rest: seq<Byte>)
    ensures var buf := Line(ds, es, crlf) + rest;
      Has(buf, 0, ds) && Has(buf, |ds|, Exts(es) + Eol(crlf)) && |Line(ds, es, crlf)| == |ds| + |Exts(es)| + |Eol(crlf)|
  {
    var tail := Exts(es) + Eol(crlf);
    assert Line(ds, es, crlf) + rest == ds + tail + rest;
  }

  lemma LineLoop(ds: seq<Byte>, es: seq<Ext>, crlf: bool, buf: seq<Byte>)
    requires ds != [] && (forall i :: 0 <= i < |ds| ==> IsHex(ds[i])) && AllProper(es)
    requires Has(buf, 0, ds) && Has(buf, |ds|, Exts(es) + Eol(crlf))
    ensures LineEnds(Sized(ds), Loop(Init(), buf, 0), Fields(es, |ds|), |ds| + |Exts(es)| + |Eol(crlf)|, |buf|)
  {
    hide Loop, Has, LineEnds, Fields, Exts;
    SeparatorIsNoDigit(es, crlf);
    HasFits(buf, |ds|, Exts(es) + Eol(crlf));
    LineStart(ds, Exts(es) + Eol(crlf), buf);
    LoopTail(SIZING, buf, |ds|, es, crlf, Loop(Init(), buf, 0));
  }

  /** A header line is read whole and nothing behind it, whatever follows, and each of its parts is
      reported, with its place. */
  lemma LineIsRead(ds: seq<Byte>, es: seq<Ext>, crlf: bool, rest: seq<Byte>)
    requires ds != [] && (forall i :: 0 <= i < |ds| ==> IsHex(ds[i])) && AllProper(es)
    ensures var line := Line(ds, es, crlf);
      var (q, ret) := Execute(Init(), line + rest, 0);
      ret == q.nread == |line| && LineEnds(Sized(ds), (q, ret), Fields(es, |ds|), |line|, |line| + |rest|)
  {
    var buf := Line(ds, es, crlf) + rest;
    LineHas(ds, es, crlf, rest);
    LineLoop(ds, es, crlf, buf);
    ExecuteIs(buf, Loop(Init(), buf, 0));
  }

  lemma SeparatorIsNoDigit(es: seq<Ext>, crlf: bool)
    ensures var tail := Exts(es) + Eol(crlf); tail != [] && !IsHex(tail[0])
  {
    if es != [] { assert Exts(es)[0] == ExtBytes(es[0])[0]; }
  }

  lemma SizeIs(ds: seq<Byte>, n: nat)
    requires (forall i :: 0 <= i < |ds| ==> IsHex(ds[i])) && HexValue(ds) == n
    ensures Sized(ds).content_len == n <==> n < 0x8000_0000
    ensures Sized(ds).chunks_done <==> n % 0x1_0000_0000 == 0 || n % 0x1_0000_0000 >= 0x8000_0000 || n > LONG_MAX
  {
  }

  /** However its digits are spelled, the size comes back exactly when it fits an int, and only then is
      the last chunk the one of size 0: any size from 2 to the 31st on reads as some other number,
      and among these every one that reads as 0 or less ends the body. */
  lemma SizeRoundTripIff(n: nat, ds: seq<Byte>, crlf: bool, rest: seq<Byte>)
    requires ds != [] && AllHex(ds) && Spells(ds, n)
    ensures var q := Execute(Init(), Line(ds, [], crlf) + rest, 0).0;
      && q.cs == FINAL && q.nread == |ds| + |Eol(crlf)|
      && (q.content_len == n <==> n < 0x8000_0000)
      && (q.chunks_done <==> n % 0x1_0000_0000 == 0 || n % 0x1_0000_0000 >= 0x8000_0000 || n > LONG_MAX)
  {
    SpellsIff(ds, n);
    LineIsRead(ds, [], crlf, rest);
    assert Line(ds, [], crlf) == ds + Eol(crlf);
    SizeIs(ds, n);
  }
}
