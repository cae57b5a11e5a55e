/** What the parser makes of a chunk's header line, however it comes in. */
module ChunkRuns {
  import opened ChunkSpec

  // --- digits --------------------------------------------------------------------------------------

  lemma {:induction false} HexEndIs(buf: seq<Byte>, at: nat, e: nat)
    requires at <= e <= |buf| && forall i :: at <= i < e ==> IsHex(buf[i])
    requires e < |buf| ==> !IsHex(buf[e])
    ensures HexEnd(buf, at) == e
    decreases e - at
  {
    if at < e { HexEndIs(buf, at + 1, e); }
  }

  lemma StrtolIs(buf: seq<Byte>, at: nat, e: nat)
    requires at <= e < |buf| && (forall i :: at <= i < e ==> IsHex(buf[i])) && !IsHex(buf[e])
    ensures Strtol(buf, at) ==
      (var n := HexValue(buf[at..e]); if n > LONG_MAX then LONG_MAX else n)
  {
    HexEndIs(buf, at, e);
  }

  /** Writing a number in hexadecimal. */
  function Hex(n: nat): (ds: seq<Byte>)
    ensures ds != [] && forall i :: 0 <= i < |ds| ==> IsHex(ds[i])
  {
    var d: Byte := if n % 16 < 10 then 48 + n % 16 else 97 + n % 16 - 10;
    if n < 16 then [d] else Hex(n / 16) + [d]
  }

  lemma {:induction false} HexRoundTrip(n: nat)
    ensures HexValue(Hex(n)) == n
  {
    var ds := Hex(n);
    var last := |ds| - 1;
    if n < 16 {
      assert ds[..last] == [];
    } else {
      assert ds[..last] == Hex(n / 16);
      HexRoundTrip(n / 16);
    }
    assert HexDigit(ds[last]) == n % 16;
  }

  // --- going on in a longer buffer -----------------------------------------------------------------

  // The digits of the size are all of what was read since the mark.
  predicate Digits(q: Parser, buf: seq<Byte>, p: nat) {
    p <= |buf| && (q.cs == 2 ==> q.mark <= p && forall i :: q.mark <= i < p ==> IsHex(buf[i]))
  }

  lemma TransDigits(q: Parser, buf: seq<Byte>, p: nat)
    requires p < |buf| && Marked(q, p) && Digits(q, buf, p) && Going(q.cs)
    ensures Digits(Trans(q, buf, p), buf, p + 1)
  {
  }

  // A byte that does not end the line is treated the same in a longer buffer.
  lemma TransPrefix(q: Parser, buf: seq<Byte>, p: nat, k: nat)
    requires p < k <= |buf| && Marked(q, p) && Digits(q, buf, p) && Going(q.cs)
    ensures Going(Trans(q, buf[..k], p).cs) <==> Going(Trans(q, buf, p).cs)
    ensures Going(Trans(q, buf, p).cs) ==> Trans(q, buf[..k], p) == Trans(q, buf, p)
  {
    if q.cs == 2 && !IsHex(buf[p]) {
      StrtolIs(buf, q.mark, p);
      StrtolIs(buf[..k], q.mark, p);
      assert buf[..k][q.mark..p] == buf[q.mark..p];
    }
  }

  lemma {:induction false} LoopPrefix(q: Parser, buf: seq<Byte>, p: nat, k: nat)
    requires p <= k <= |buf| && Marked(q, p) && Digits(q, buf, p) && Going(q.cs)
    ensures var (q1, p1) := Loop(q, buf[..k], p);
      Going(q1.cs) ==> p1 == k && Digits(q1, buf, k) && Loop(q, buf, p) == Loop(q1, buf, k)
    decreases k - p
  {
    if p < k {
      TransPrefix(q, buf, p, k);
      TransDigits(q, buf, p);
      var q' := Trans(q, buf, p);
      if Going(q'.cs) { LoopPrefix(q', buf, p + 1, k); }
    }
  }

  /** A call that stops in the middle of the line, and another one on a longer buffer from there,
      come to the same as one call on the longer buffer. */
  lemma ResumeIsOneCall(q: Parser, buf: seq<Byte>, off: nat, k: nat)
    requires off <= k <= |buf| && Marked(q, off) && Digits(q, buf, off) && Going(q.cs)
    requires Going(Execute(q, buf[..k], off).0.cs)
    ensures var q1 := Execute(q, buf[..k], off).0;
      && Digits(q1, buf, k) && q1.nread == q.nread + (k - off)
      && Execute(q1, buf, k) == Execute(q, buf, off)
  {
    if off < k {
      var q0 := q.(nread := 0);
      LoopPrefix(q0, buf, off, k);
      var q1 := Loop(q0, buf[..k], off).0;
      assert Execute(q, buf[..k], off).0.(nread := 0) == q1;
    }
  }

  // --- reading in pieces ---------------------------------------------------------------------------

  // The ends of the pieces, in order.
  predicate Cuts(cuts: seq<nat>, off: nat, len: nat) {
    cuts == [] || (off <= cuts[0] <= len && Cuts(cuts[1..], cuts[0], len))
  }

  /** Reading piece by piece until the line has ended or is wrong, as the caller does: the parser,
      and how much of the buffer the last call had. */
  function Feed(q: Parser, buf: seq<Byte>, cuts: seq<nat>, off: nat): (r: (Parser, nat))
    requires off <= |buf| && Cuts(cuts, off, |buf|) && Marked(q, off) && Going(q.cs)
    ensures off <= r.1 <= |buf|
    decreases |cuts|
  {
    if cuts == [] then (q, off)
    else
      var q1 := Execute(q, buf[..cuts[0]], off).0;
      if Going(q1.cs) then Feed(q1, buf, cuts[1..], cuts[0]) else (q1, cuts[0])
  }

  /** However the line is cut, the caller ends with what one call on all it has read gives. */
  lemma {:induction false} FeedIsOneCall(q: Parser, buf: seq<Byte>, cuts: seq<nat>, off: nat)
    requires off <= |buf| && Cuts(cuts, off, |buf|) && Marked(q, off) && Going(q.cs) && Digits(q, buf, off)
    ensures var (q', last) := Feed(q, buf, cuts, off); q' == Execute(q, buf[..last], off).0
    decreases |cuts|
  {
    if cuts != [] {
      var k := cuts[0];
      var q1 := Execute(q, buf[..k], off).0;
      if Going(q1.cs) {
        ResumeIsOneCall(q, buf, off, k);
        FeedIsOneCall(q1, buf, cuts[1..], k);
        var last := Feed(q1, buf, cuts[1..], k).1;
        assert buf[..last][..k] == buf[..k];
        ResumeIsOneCall(q, buf[..last], off, k);
      }
    }
  }

  /** A call on a buffer that is not empty passes its checks and returns how far it came. */
  lemma ReturnsNread(q: Parser, buf: seq<Byte>, off: nat)
    requires off <= |buf| && Marked(q, off) && Going(q.cs) && q.nread == off
    requires |buf| > 0 && q.mark < |buf| && q.field_start < |buf|
    ensures var (q', ret) := Execute(q, buf, off);
      ret == q'.nread && off <= q'.nread <= |buf| && (Going(q'.cs) ==> q'.nread == |buf|)
  {
    if off < |buf| { LoopMarks(q.(nread := 0), buf, off); }
  }

  lemma {:induction false} LoopMarks(q: Parser, buf: seq<Byte>, p: nat)
    requires p <= |buf| && Marked(q, p) && Going(q.cs) && q.mark < |buf| && q.field_start < |buf|
    ensures var (q', p') := Loop(q, buf, p);
      q'.mark < |buf| && q'.field_start < |buf| && (Going(q'.cs) ==> p' == |buf|)
    decreases |buf| - p
  {
    if p < |buf| && Going(Trans(q, buf, p).cs) { LoopMarks(Trans(q, buf, p), buf, p + 1); }
  }
}
