/** Which bytes are taken for the header line of a chunk, and which are refused. */
module ChunkGrammar {
  import opened Options
  import opened ChunkSpec
  import opened ChunkDigits
  import opened ChunkRuns
  import opened ChunkLines

  // --- what the reports point at ---------------------------------------------------------------------

  /** The report of an extension gives the places of its name and of its value in the buffer. */
  predicate PointsAt(buf: seq<Byte>, f: Call, e: Ext) {
    && f.Field? && f.name + f.nameLen <= |buf| && buf[f.name..f.name + f.nameLen] == e.name
    && (e.value.None? ==> f.valueLen == 0)
    && (e.value.Some? ==>
          f.value + f.valueLen <= |buf| && buf[f.value..f.value + f.valueLen] == e.value.value)
  }

  lemma HasSlice(buf: seq<Byte>, p: nat, w: seq<Byte>)
    requires Has(buf, p, w)
    ensures buf[p..p + |w|] == w
  {
  }

  lemma FieldPointsAt(buf: seq<Byte>, p: nat, e: Ext)
    requires Has(buf, p, ExtBytes(e))
    ensures PointsAt(buf, FieldOf(e, p), e)
  {
    if e.value.Some? {
      assert ExtBytes(e) == [SEMICOLON] + e.name + ([EQUALS] + e.value.value);
      HasSplit(buf, p, [SEMICOLON] + e.name, [EQUALS] + e.value.value);
      HasSplit(buf, p + 1 + |e.name|, [EQUALS], e.value.value);
      HasSlice(buf, p + 1 + |e.name| + 1, e.value.value);
    } else {
      assert ExtBytes(e) == [SEMICOLON] + e.name;
    }
    HasSplit(buf, p, [SEMICOLON], e.name);
    HasSlice(buf, p + 1, e.name);
  }

  /** There is one report for each extension, in order, and it points at it. */
  lemma {:induction false} FieldsPointAt(buf: seq<Byte>, p: nat, es: seq<Ext>, eol: seq<Byte>)
    requires Has(buf, p, Exts(es) + eol)
    ensures |Fields(es, p)| == |es| && forall i :: 0 <= i < |es| ==> PointsAt(buf, Fields(es, p)[i], es[i])
    decreases |es|
  {
    if es != [] {
      var p1 := p + |ExtBytes(es[0])|;
      ExtsSplit(buf, p, es, eol);
      FieldPointsAt(buf, p, es[0]);
      FieldsPointAt(buf, p1, es[1..], eol);
      forall i | 1 <= i < |es|
        ensures PointsAt(buf, Fields(es, p)[i], es[i])
      {
        assert Fields(es, p)[i] == Fields(es[1..], p1)[i - 1];
      }
    }
  }

  // --- the grammar -----------------------------------------------------------------------------------

  predicate IsHead(w: seq<Byte>, ds: seq<Byte>, es: seq<Ext>) {
    ds != [] && AllHex(ds) && AllProper(es) && w == ds + Exts(es)
  }

  /** Digits and whole extensions. */
  ghost predicate Head(w: seq<Byte>) { exists ds, es :: IsHead(w, ds, es) }

  predicate IsLine(w: seq<Byte>, ds: seq<Byte>, es: seq<Ext>, crlf: bool) {
    ds != [] && AllHex(ds) && AllProper(es) && w == Line(ds, es, crlf)
  }

  /** A header line from its first digit to its line end. */
  ghost predicate HeaderLine(w: seq<Byte>) { exists ds, es, crlf :: IsLine(w, ds, es, crlf) }

  // An extension from its separator at k on, with a name only, or with a value from m on.
  ghost predicate Named(w: seq<Byte>, k: nat) {
    k < |w| && w[k] == SEMICOLON && Head(w[..k]) && IsWord(w[k + 1..])
  }

  ghost predicate ValueDue(w: seq<Byte>, k: nat) { w != [] && w[|w| - 1] == EQUALS && Named(w[..|w| - 1], k) }

  ghost predicate Valued(w: seq<Byte>, k: nat, m: nat) {
    k < m < |w| && Named(w[..m], k) && w[m] == EQUALS && IsWord(w[m + 1..])
  }

  ghost predicate Ended(w: seq<Byte>, b: Byte) { w != [] && w[|w| - 1] == b && Head(w[..|w| - 1]) }

  /** What has been read in each state. */
  ghost predicate HasRead(cs: nat, w: seq<Byte>) {
    match cs
    case 1 => w == []
    case 2 => w != [] && AllHex(w)
    case 3 => Ended(w, CR)
    case 4 => Ended(w, SEMICOLON)
    case 5 => exists k: nat :: Named(w, k)
    case 6 => exists k: nat :: ValueDue(w, k)
    case 7 => exists k: nat, m: nat :: Valued(w, k, m)
    case 120 => HeaderLine(w)
    case _ => false
  }

  lemma {:induction false} ExtsSnoc(es: seq<Ext>, e: Ext)
    ensures Exts(es + [e]) == Exts(es) + ExtBytes(e)
  {
    if es == [] {
      assert [e][1..] == [];
    } else {
      assert (es + [e])[1..] == es[1..] + [e];
      ExtsSnoc(es[1..], e);
    }
  }

  lemma HeadMore(w: seq<Byte>, e: Ext)
    requires Head(w) && Proper(e)
    ensures Head(w + ExtBytes(e))
  {
    var ds, es :| IsHead(w, ds, es);
    ExtsSnoc(es, e);
    assert IsHead(w + ExtBytes(e), ds, es + [e]);
  }

  lemma DigitsAreHead(w: seq<Byte>)
    requires w != [] && AllHex(w)
    ensures Head(w)
  {
    assert IsHead(w, w, []);
  }

  lemma NamedIsHead(w: seq<Byte>, k: nat)
    requires Named(w, k)
    ensures Head(w)
  {
    var e := Ext(w[k + 1..], None);
    HeadMore(w[..k], e);
    assert w == w[..k] + ExtBytes(e);
  }

  lemma ValuedIsHead(w: seq<Byte>, k: nat, m: nat)
    requires Valued(w, k, m)
    ensures Head(w)
  {
    var e := Ext(w[..m][k + 1..], Some(w[m + 1..]));
    assert w[..m][..k] == w[..k];
    HeadMore(w[..k], e);
    assert w == w[..k] + ExtBytes(e);
  }

  // After digits, a name or a value the line may end, or go on with a separator.
  lemma OpenIsHead(cs: nat, w: seq<Byte>)
    requires HasRead(cs, w) && (cs == 2 || cs == 5 || cs == 7)
    ensures Head(w)
  {
    if cs == 2 {
      DigitsAreHead(w);
    } else if cs == 5 {
      var k: nat :| Named(w, k);
      NamedIsHead(w, k);
    } else {
      var k: nat, m: nat :| Valued(w, k, m);
      ValuedIsHead(w, k, m);
    }
  }

  lemma HeadEnds(w: seq<Byte>, eol: seq<Byte>, crlf: bool)
    requires Head(w) && eol == Eol(crlf)
    ensures HeaderLine(w + eol)
  {
    var ds, es :| IsHead(w, ds, es);
    assert IsLine(w + eol, ds, es, crlf);
  }

  lemma Snoc(w: seq<Byte>, b: Byte)
    ensures (w + [b])[..|w|] == w && (w + [b])[|w|] == b
  {
  }

  lemma WordMore(w: seq<Byte>, b: Byte)
    requires IsToken(b) && (w == [] || IsWord(w))
    ensures IsWord(w + [b])
  {
  }

  lemma NamedMore(w: seq<Byte>, k: nat, b: Byte)
    requires Named(w, k) && IsToken(b)
    ensures Named(w + [b], k)
  {
    WordMore(w[k + 1..], b);
    assert (w + [b])[..k] == w[..k] && (w + [b])[k + 1..] == w[k + 1..] + [b];
  }

  lemma ValuedMore(w: seq<Byte>, k: nat, m: nat, b: Byte)
    requires Valued(w, k, m) && IsToken(b)
    ensures Valued(w + [b], k, m)
  {
    WordMore(w[m + 1..], b);
    assert (w + [b])[..m] == w[..m] && (w + [b])[m + 1..] == w[m + 1..] + [b];
  }

  lemma NameStarts(w: seq<Byte>, b: Byte)
    requires Ended(w, SEMICOLON) && IsToken(b)
    ensures Named(w + [b], |w| - 1)
  {
    var k := |w| - 1;
    WordMore([], b);
    assert (w + [b])[..k] == w[..k] && (w + [b])[k + 1..] == [] + [b];
  }

  lemma ValueStarts(w: seq<Byte>, b: Byte)
    requires HasRead(6, w) && IsToken(b)
    ensures HasRead(7, w + [b])
  {
    var m := |w| - 1;
    var k: nat :| ValueDue(w, k);
    WordMore([], b);
    assert (w + [b])[..m] == w[..m] && (w + [b])[m + 1..] == [] + [b];
    assert Valued(w + [b], k, m);
  }

  // A byte that separates: the line ends, or an extension begins.
  lemma SeparatorReads(cs: nat, w: seq<Byte>, b: Byte)
    requires HasRead(cs, w) && (cs == 2 || cs == 5 || cs == 7)
    ensures b == LF ==> HeaderLine(w + [b])
    ensures b == CR ==> Ended(w + [b], CR)
    ensures b == SEMICOLON ==> Ended(w + [b], SEMICOLON)
  {
    OpenIsHead(cs, w);
    Snoc(w, b);
    if b == LF { HeadEnds(w, [b], false); }
  }

  // One byte more.
  lemma TransReads(q: Parser, buf: seq<Byte>, p: nat, w: seq<Byte>)
    requires p < |buf| && Marked(q, p) && Going(q.cs) && HasRead(q.cs, w)
    ensures var cs := Trans(q, buf, p).cs; cs == ERROR || cs == STATUS_LINE || HasRead(cs, w + [buf[p]])
  {
    var b := buf[p];
    Snoc(w, b);
    match q.cs
    case 1 => assert w + [b] == [b];
    case 2 => SeparatorReads(2, w, b);
    case 3 => LineEndReads(w, b);
    case 4 => if IsToken(b) { NameStarts(w, b); }
    case 5 =>
      SeparatorReads(5, w, b);
      NameReads(w, b);
    case 6 => if IsToken(b) { ValueStarts(w, b); }
    case 7 =>
      SeparatorReads(7, w, b);
      ValueReads(w, b);
  }

  lemma LineEndReads(w: seq<Byte>, b: Byte)
    requires Ended(w, CR)
    ensures b == LF ==> HeaderLine(w + [b])
  {
    if b == LF {
      HeadEnds(w[..|w| - 1], [CR, LF], true);
      assert w + [b] == w[..|w| - 1] + [CR, LF];
    }
  }

  lemma NameReads(w: seq<Byte>, b: Byte)
    requires HasRead(5, w)
    ensures IsToken(b) ==> HasRead(5, w + [b])
    ensures b == EQUALS ==> HasRead(6, w + [b])
  {
    var k: nat :| Named(w, k);
    Snoc(w, b);
    assert b == EQUALS ==> ValueDue(w + [b], k);
    if IsToken(b) { NamedMore(w, k, b); }
  }

  lemma ValueReads(w: seq<Byte>, b: Byte)
    requires HasRead(7, w)
    ensures IsToken(b) ==> HasRead(7, w + [b])
  {
    var k: nat, m: nat :| Valued(w, k, m);
    if IsToken(b) { ValuedMore(w, k, m, b); }
  }

  lemma {:induction false} LoopReads(q: Parser, buf: seq<Byte>, p: nat)
    requires p <= |buf| && Marked(q, p) && Going(q.cs) && HasRead(q.cs, buf[..p])
    ensures var (q', p') := Loop(q, buf, p);
      && (q'.cs == ERROR || q'.cs == STATUS_LINE || HasRead(q'.cs, buf[..p']))
      && (Going(q'.cs) ==> p' == |buf|)
      && (q'.cs == STATUS_LINE ==> q.cs == 1 && p < |buf| && buf[p] == 72)
    decreases |buf| - p
  {
    hide HasRead;
    if p < |buf| {
      TransReads(q, buf, p, buf[..p]);
      assert buf[..p] + [buf[p]] == buf[..p + 1];
      var q' := Trans(q, buf, p);
      if Going(q'.cs) { LoopReads(q', buf, p + 1); }
    }
  }

  /** A parser that has ended refuses what follows, and reports nothing; called once more it takes that
      for the digits of a size. */
  lemma EndIsForgotten(q: Parser, buf: seq<Byte>, off: nat)
    requires off < |buf| && Marked(q, off) && q.cs == FINAL
    ensures var q1 := Execute(q, buf, off).0; var q2 := Execute(q1, buf, off).0;
      q1 == q.(cs := ERROR) && q2 == q.(cs := 2)
  {
  }

  /** A call on nothing at all does nothing, and reports failure. */
  lemma NothingFails(q: Parser)
    requires Marked(q, 0) && (Going(q.cs) || q.cs == FINAL || q.cs == ERROR)
    ensures Execute(q, [], 0) == (q, -1)
  {
  }

  // --- whole lines, and beginnings of lines ------------------------------------------------------------

  ghost predicate StartsWithLine(buf: seq<Byte>) { exists k: nat :: k <= |buf| && HeaderLine(buf[..k]) }

  /** More is to come. */
  ghost predicate BeginsLine(buf: seq<Byte>) { exists more: seq<Byte> :: more != [] && HeaderLine(buf + more) }

  lemma LineEnded(buf: seq<Byte>, k: nat)
    requires k <= |buf| && HeaderLine(buf[..k])
    ensures Loop(Init(), buf, 0).0.cs == FINAL && Loop(Init(), buf, 0).1 == k
  {
    var ds, es, crlf :| IsLine(buf[..k], ds, es, crlf);
    LineHas(ds, es, crlf, buf[k..]);
    assert buf == Line(ds, es, crlf) + buf[k..];
    LineLoop(ds, es, crlf, buf);
  }

  // A call that would go on past k is still going at k when the buffer ends there.
  lemma {:induction false} LoopCut(q: Parser, buf: seq<Byte>, p: nat, k: nat)
    requires p <= k < |buf| && Marked(q, p) && Going(q.cs) && Digits(q, buf, p) && Loop(q, buf, p).1 > k
    ensures Going(Loop(q, buf[..k], p).0.cs)
    decreases k - p
  {
    if p < k {
      TransPrefix(q, buf, p, k);
      TransDigits(q, buf, p);
      LoopCut(Trans(q, buf, p), buf, p + 1, k);
    }
  }

  // What to add in each state to come to the end of a line.
  lemma Completes(cs: nat, w: seq<Byte>) returns (more: seq<Byte>)
    requires HasRead(cs, w) && Going(cs)
    ensures more != [] && HeaderLine(w + more)
  {
    if cs == 1 {
      DigitsAreHead([48]);
      HeadEnds([48], [LF], false);
      more := [48, LF];
      assert w + more == [48] + [LF];
    } else if cs == 3 {
      more := [LF];
      LineEndReads(w, LF);
    } else if cs == 4 {
      NameStarts(w, 97);
      more := CompletesOpen(5, w, [97]);
    } else if cs == 6 {
      ValueStarts(w, 97);
      more := CompletesOpen(7, w, [97]);
    } else {
      assert w + [] == w;
      more := CompletesOpen(cs, w, []);
    }
  }

  lemma CompletesOpen(cs: nat, w: seq<Byte>, v: seq<Byte>) returns (more: seq<Byte>)
    requires HasRead(cs, w + v) && (cs == 2 || cs == 5 || cs == 7)
    ensures more != [] && HeaderLine(w + more)
  {
    SeparatorReads(cs, w + v, LF);
    more := v + [LF];
    assert w + more == w + v + [LF];
  }

  /** What one call on a new parser makes of a buffer: the line has ended exactly if the buffer starts
      with a header line, which is all that was read; the parser waits for more exactly if more can
      make it one; and unless a status line starts there, anything else is an error. */
  lemma VerdictIff(buf: seq<Byte>)
    ensures var q := Execute(Init(), buf, 0).0;
      && (q.cs == FINAL <==> StartsWithLine(buf))
      && (q.cs == FINAL ==> q.nread <= |buf| && HeaderLine(buf[..q.nread]))
      && (Going(q.cs) <==> BeginsLine(buf))
      && (q.cs == STATUS_LINE <==> buf != [] && buf[0] == 72)
      && (q.cs == ERROR || q.cs == FINAL || q.cs == STATUS_LINE || Going(q.cs))
  {
    assert Init().(nread := 0) == Init() && buf[..0] == [];
    var (q, p) := Loop(Init(), buf, 0);
    LoopReads(Init(), buf, 0);
    assert Execute(Init(), buf, 0).0.cs == q.cs;
    if k: nat :| k <= |buf| && HeaderLine(buf[..k]) { LineEnded(buf, k); }
    if Going(q.cs) {
      assert buf[..p] == buf;
      var more := Completes(q.cs, buf);
      assert more != [] && HeaderLine(buf + more);
    }
    if BeginsLine(buf) { BeginningGoes(buf); }
  }

  lemma BeginningGoes(buf: seq<Byte>)
    requires BeginsLine(buf)
    ensures Going(Loop(Init(), buf, 0).0.cs)
  {
    var more: seq<Byte> :| more != [] && HeaderLine(buf + more);
    var line := buf + more;
    assert line[..|line|] == line && line[..|buf|] == buf;
    LineEnded(line, |line|);
    LoopCut(Init(), line, 0, |buf|);
  }
}
