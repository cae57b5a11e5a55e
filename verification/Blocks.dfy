/** Equal-size blocks laid end to end, and the flat sequence they stand for. */
module Blocks {
  import opened Words

  ghost predicate Uniform(b: seq<seq<byte>>, base: nat) {
    forall i :: 0 <= i < |b| ==> |b[i]| == base
  }

  function Flat(b: seq<seq<byte>>): seq<byte> {
    if b == [] then [] else b[0] + Flat(b[1..])
  }

  /** s after data was copied into it, byte by byte, from `at` on. */
  function Splice(s: seq<byte>, at: nat, data: seq<byte>): (r: seq<byte>)
    requires at + |data| <= |s|
    ensures |r| == |s|
    decreases |data|
  {
    if data == [] then s else Splice(s[at := data[0]], at + 1, data[1..])
  }

  lemma {:induction false} SpliceIs(s: seq<byte>, at: nat, data: seq<byte>)
    requires at + |data| <= |s|
    ensures Splice(s, at, data) == s[..at] + data + s[at + |data|..]
    decreases |data|
  {
    if data != [] { SpliceIs(s[at := data[0]], at + 1, data[1..]); }
  }

  // Products, quotients and remainders by a variable block size, as repeated addition and
  // subtraction; the lemmas after them say that they are the operators of those names.

  /** The bytes of n blocks: n * d. */
  function Area(n: nat, d: nat): nat {
    if n == 0 then 0 else Area(n - 1, d) + d
  }

  /** The block that byte p lies in: p / d. */
  function Index(p: nat, d: nat): nat
    requires d > 0
  {
    if p < d then 0 else 1 + Index(p - d, d)
  }

  /** Where in its block byte p lies: p % d. */
  function Offset(p: nat, d: nat): (r: nat)
    requires d > 0
    ensures r < d
  {
    if p < d then p else Offset(p - d, d)
  }

  /** The blocks that n bytes fill or begin: n / d, one more when there is a remainder. */
  function CeilDiv(n: nat, d: nat): nat
    requires d > 0
  {
    Index(n, d) + (if Offset(n, d) != 0 then 1 else 0)
  }

  lemma {:induction false} AreaIsProduct(n: nat, d: nat)
    ensures Area(n, d) == n * d
  {
    if n > 0 {
      AreaIsProduct(n - 1, d);
      assert n * d == (n - 1) * d + d;
    }
  }

  lemma {:induction false} IndexOffset(p: nat, d: nat)
    requires d > 0
    ensures p == Area(Index(p, d), d) + Offset(p, d)
  {
    if p >= d { IndexOffset(p - d, d); }
  }

  lemma {:induction false} AreaMonotone(m: nat, n: nat, d: nat)
    requires m <= n
    ensures Area(m, d) <= Area(n, d)
    ensures m < n ==> Area(m, d) + d <= Area(n, d)
  {
    if m < n { AreaMonotone(m, n - 1, d); }
  }

  lemma {:induction false} AreaSum(m: nat, n: nat, d: nat)
    ensures Area(m + n, d) == Area(m, d) + Area(n, d)
  {
    if n > 0 { AreaSum(m, n - 1, d); }
  }

  // The block and the place in it determine the byte.
  lemma Unique(p: nat, d: nat, q: nat, r: nat)
    requires r < d && p == Area(q, d) + r
    ensures Index(p, d) == q && Offset(p, d) == r
  {
    IndexOffset(p, d);
    if Index(p, d) < q { AreaMonotone(Index(p, d), q, d); }
    if q < Index(p, d) { AreaMonotone(q, Index(p, d), d); }
  }

  /** Index and Offset are division and remainder. */
  lemma IndexOffsetAreDivMod(p: nat, d: nat)
    requires d > 0
    ensures Index(p, d) == p / d && Offset(p, d) == p % d
  {
    AreaIsProduct(p / d, d);
    assert p == (p / d) * d + p % d;
    Unique(p, d, p / d, p % d);
  }

  // Where position p lies in n blocks of d bytes.
  lemma Locate(p: nat, d: nat, n: nat)
    requires d > 0 && p <= Area(n, d)
    ensures p < Area(n, d) ==> Index(p, d) < n
    ensures p == Area(n, d) ==> Index(p, d) == n && Offset(p, d) == 0
  {
    IndexOffset(p, d);
    if n <= Index(p, d) { AreaMonotone(n, Index(p, d), d); }
    if p == Area(n, d) { Unique(p, d, n, 0); }
  }

  // Moving on by k bytes within a block, or to its end.
  lemma Advance(p: nat, d: nat, k: nat)
    requires d > 0 && Offset(p, d) + k <= d
    ensures Offset(p, d) + k < d ==> Index(p + k, d) == Index(p, d) && Offset(p + k, d) == Offset(p, d) + k
    ensures Offset(p, d) + k == d ==> Index(p + k, d) == Index(p, d) + 1 && Offset(p + k, d) == 0
  {
    IndexOffset(p, d);
    if Offset(p, d) + k < d {
      Unique(p + k, d, Index(p, d), Offset(p, d) + k);
    } else {
      Unique(p + k, d, Index(p, d) + 1, 0);
    }
  }

  /** CeilDiv(n, d) blocks are the fewest that hold n bytes. */
  lemma CeilDivLeast(n: nat, d: nat, k: nat)
    requires d > 0
    ensures n <= Area(CeilDiv(n, d), d)
    ensures n <= Area(k, d) ==> CeilDiv(n, d) <= k
  {
    IndexOffset(n, d);
    if k < CeilDiv(n, d) {
      AreaMonotone(k, Index(n, d), d);
    }
  }

  lemma {:induction false} FlatAppend(a: seq<seq<byte>>, b: seq<seq<byte>>)
    ensures Flat(a + b) == Flat(a) + Flat(b)
  {
    if a == [] {
      assert a + b == b;
    } else {
      assert (a + b)[1..] == a[1..] + b;
      FlatAppend(a[1..], b);
    }
  }

  // A block more at the end.
  lemma FlatGrows(a: seq<seq<byte>>, s: seq<seq<byte>>)
    requires |s| == |a| + 1 && forall i :: 0 <= i < |a| ==> s[i] == a[i]
    ensures Flat(a) <= Flat(s)
  {
    assert s == a + [s[|a|]];
    FlatAppend(a, [s[|a|]]);
  }

  lemma {:induction false} FlatLength(b: seq<seq<byte>>, base: nat)
    requires Uniform(b, base)
    ensures |Flat(b)| == Area(|b|, base)
  {
    if b != [] { FlatLength(b[1..], base); }
  }

  // The flat sequence with block i replaced, cut at block i.
  lemma FlatReplace(b: seq<seq<byte>>, i: nat, x: seq<byte>)
    requires i < |b|
    ensures Flat(b[i := x]) == Flat(b[..i]) + x + Flat(b[i + 1..])
  {
    assert b[i := x] == b[..i] + [x] + b[i + 1..];
    FlatAppend(b[..i] + [x], b[i + 1..]);
    FlatAppend(b[..i], [x]);
    assert Flat([x]) == x + Flat([x][1..]) == x;
  }

  lemma FlatCut(b: seq<seq<byte>>, base: nat, i: nat)
    requires Uniform(b, base) && i < |b|
    ensures Flat(b) == Flat(b[..i]) + b[i] + Flat(b[i + 1..])
    ensures |Flat(b[..i])| == Area(i, base)
  {
    assert b == b[i := b[i]];
    FlatReplace(b, i, b[i]);
    FlatLength(b[..i], base);
  }

  lemma SpliceMiddle(a: seq<byte>, b: seq<byte>, c: seq<byte>, off: nat, data: seq<byte>)
    requires off + |data| <= |b|
    ensures Splice(a + b + c, |a| + off, data) == a + Splice(b, off, data) + c
  {
    SpliceIs(a + b + c, |a| + off, data);
    SpliceIs(b, off, data);
  }

  /** Writing inside one block is writing inside the flat sequence. */
  lemma FlatSplice(b: seq<seq<byte>>, base: nat, i: nat, off: nat, data: seq<byte>)
    requires Uniform(b, base) && i < |b| && off + |data| <= base
    ensures Area(i, base) + off + |data| <= |Flat(b)|
    ensures Flat(b[i := Splice(b[i], off, data)]) == Splice(Flat(b), Area(i, base) + off, data)
  {
    FlatCut(b, base, i);
    FlatReplace(b, i, Splice(b[i], off, data));
    SpliceMiddle(Flat(b[..i]), b[i], Flat(b[i + 1..]), off, data);
  }

  /** Reading inside one block is reading inside the flat sequence. */
  lemma FlatSlice(b: seq<seq<byte>>, base: nat, i: nat, off: nat, len: nat)
    requires Uniform(b, base) && i < |b| && off + len <= base
    ensures Area(i, base) + off + len <= |Flat(b)|
    ensures Flat(b)[Area(i, base) + off..Area(i, base) + off + len] == b[i][off..off + len]
  {
    FlatCut(b, base, i);
  }

  // Writing the next n bytes of buf after its first k is writing its first k + n.
  lemma SpliceMore(s: seq<byte>, at: nat, buf: seq<byte>, k: nat, n: nat)
    requires at + |buf| <= |s| && k + n <= |buf|
    ensures Splice(Splice(s, at, buf[..k]), at + k, buf[k..k + n]) == Splice(s, at, buf[..k + n])
  {
    SpliceIs(s, at, buf[..k]);
    SpliceIs(s, at, buf[..k + n]);
    SpliceIs(Splice(s, at, buf[..k]), at + k, buf[k..k + n]);
  }

  lemma SliceJoin(s: seq<byte>, a: nat, b: nat, c: nat)
    requires a <= b <= c <= |s|
    ensures s[a..b] + s[b..c] == s[a..c]
  {
  }
}
