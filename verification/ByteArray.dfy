/** The growable byte buffer: a linked list of equal-size nodes under a cursor, proved to
    implement one flat sequence of bytes. */
module ByteArrays {
  import opened Words
  import opened Blocks
  import opened Varint

  datatype Endian = LittleEndian | BigEndian

  /** What a caller sees: the bytes written so far, the position, the capacity. */
  datatype Buffer = Buffer(bytes: seq<byte>, pos: nat, cap: nat)

  /** Capacity after room for n more bytes at pos was asked for. */
  function Grown(base: nat, pos: nat, cap: nat, n: nat): nat
    requires base > 0
  {
    if n == 0 || cap > pos + n then cap else cap + Area(CeilDiv(pos + n - cap, base), base)
  }

  /** s with data written at `at`, over what is there and past the end. */
  function Overwrite(s: seq<byte>, at: nat, data: seq<byte>): seq<byte>
    requires at <= |s|
  {
    s[..at] + data + (if at + |data| < |s| then s[at + |data|..] else [])
  }

  function Put(b: Buffer, base: nat, data: seq<byte>): Buffer
    requires base > 0 && b.pos <= |b.bytes|
  {
    Buffer(Overwrite(b.bytes, b.pos, data), b.pos + |data|, Grown(base, b.pos, b.cap, |data|))
  }

  /** What a read of n bytes gives: the cursor is followed even when n is 0, and it is null
      when the position is the capacity. */
  function Take(b: Buffer, n: nat): Outcome<seq<byte>>
    requires b.pos <= |b.bytes| <= b.cap
  {
    if n > |b.bytes| - b.pos then OutOfRange
    else if n == 0 && b.pos == b.cap then NullDeref
    else Ok(b.bytes[b.pos..b.pos + n])
  }

  class Node {
    const ptr: array<byte>
    const size: nat
    var next: Node?

    constructor (s: nat)
      ensures ptr.Length == size == s && next == null && fresh(ptr)
    {
      ptr := new byte[s];
      size := s;
      next := null;
    }

  }

  // memcpy(ptr + at, data, |data|)
  method MemCopy(ptr: array<byte>, at: nat, data: seq<byte>)
    requires at + |data| <= ptr.Length
    modifies ptr
    ensures ptr[..] == Splice(old(ptr[..]), at, data)
  {
    forall k | 0 <= k < |data| { ptr[at + k] := data[k]; }
    SpliceIs(old(ptr[..]), at, data);
  }

  ghost function Memory(ns: seq<Node>): seq<byte>
    reads set n | n in ns :: n.ptr
  {
    if ns == [] then [] else ns[0].ptr[..] + Memory(ns[1..])
  }

  ghost function Contents(ns: seq<Node>): (b: seq<seq<byte>>)
    reads set n | n in ns :: n.ptr
    ensures |b| == |ns| && forall i :: 0 <= i < |b| ==> b[i] == ns[i].ptr[..]
  {
    if ns == [] then [] else [ns[0].ptr[..]] + Contents(ns[1..])
  }

  lemma {:induction false} MemoryIsFlat(ns: seq<Node>)
    ensures Memory(ns) == Flat(Contents(ns))
  {
    if ns != [] {
      MemoryIsFlat(ns[1..]);
      assert Contents(ns)[1..] == Contents(ns[1..]);
    }
  }

  /** A stretch of one node's memory. */
  datatype Iovec = Iovec(base: array<byte>, off: nat, len: nat)

  class ByteArray {
    const m_basesize: nat
    var m_position: nat
    var m_capacity: nat
    var m_size: nat
    var m_endian: Endian
    var m_root: Node
    var m_cur: Node?
    ghost var nodes: seq<Node>
    ghost var rank: map<array<byte>, nat>  // whose memory it is: no two nodes share any

    // Node i, or null past the last one.
    ghost function Cell(i: nat): Node?
      reads this`nodes
    {
      if i < |nodes| then nodes[i] else null
    }

    ghost predicate Linked()
      reads this`nodes, this`rank, this`m_root, this`m_capacity, nodes
    {
      && m_basesize > 0
      && |nodes| >= 1 && nodes[0] == m_root
      && (forall i :: 0 <= i < |nodes| ==> nodes[i].size == m_basesize == nodes[i].ptr.Length)
      && (forall i {:trigger nodes[i].next} :: 0 <= i < |nodes| ==> nodes[i].next == Cell(i + 1))
      && (forall i :: 0 <= i < |nodes| ==> nodes[i].ptr in rank && rank[nodes[i].ptr] == i)
      && m_capacity == Area(|nodes|, m_basesize)
    }

    ghost predicate Valid()
      reads this, nodes
    {
      && Linked()
      && m_position <= m_size <= m_capacity
      && m_cur == Cell(Index(m_position, m_basesize))
    }

    // All the memory of all the nodes, in order.
    ghost function Store(): (s: seq<byte>)
      requires Linked()
      reads this`nodes, this`rank, this`m_root, this`m_capacity, nodes, set n | n in nodes :: n.ptr
      ensures |s| == m_capacity
    {
      MemoryIsFlat(nodes);
      FlatLength(Contents(nodes), m_basesize);
      Memory(nodes)
    }

    ghost function View(): (b: Buffer)
      requires Valid()
      reads this, nodes, set n | n in nodes :: n.ptr
      ensures b.pos <= |b.bytes| <= b.cap
    {
      Buffer(Store()[..m_size], m_position, m_capacity)
    }

    constructor (base_size: nat)
      requires base_size > 0
      ensures Valid() && fresh(nodes[0]) && fresh(nodes[0].ptr) && |nodes| == 1
      ensures m_basesize == base_size && m_endian == BigEndian
      ensures View() == Buffer([], 0, base_size)
    {
      m_basesize := base_size;
      m_position, m_size, m_capacity := 0, 0, base_size;
      m_endian := BigEndian;
      var root := new Node(base_size);
      m_root, m_cur := root, root;
      nodes := [root];
      rank := map[root.ptr := 0];
      new;
      assert Area(1, base_size) == Area(0, base_size) + base_size;
    }

    // A memcpy into node c seen in the flat sequence.
    method CopyIn(ghost c: nat, ptr: array<byte>, at: nat, data: seq<byte>)
      requires Linked() && c < |nodes| && nodes[c].ptr == ptr && at + |data| <= m_basesize
      modifies ptr
      ensures Area(c, m_basesize) + at + |data| <= |old(Store())|
      ensures Store() == Splice(old(Store()), Area(c, m_basesize) + at, data)
    {
      ghost var before := Contents(nodes);
      MemoryIsFlat(nodes);
      MemCopy(ptr, at, data);
      forall i | 0 <= i < |nodes| && i != c
        ensures nodes[i].ptr[..] == before[i]
      {
        assert nodes[i].ptr != ptr;
      }
      StoreSpliced(before, c, at, data);
    }

    lemma StoreSpliced(before: seq<seq<byte>>, c: nat, at: nat, data: seq<byte>)
      requires Linked() && c < |nodes| && |before| == |nodes| && Uniform(before, m_basesize)
      requires at + |data| <= m_basesize
      requires nodes[c].ptr[..] == Splice(before[c], at, data)
      requires forall i :: 0 <= i < |nodes| && i != c ==> nodes[i].ptr[..] == before[i]
      ensures Area(c, m_basesize) + at + |data| <= |Flat(before)|
      ensures Store() == Splice(Flat(before), Area(c, m_basesize) + at, data)
    {
      FlatSplice(before, m_basesize, c, at, data);
      MemoryIsFlat(nodes);
      assert Contents(nodes) == before[c := Splice(before[c], at, data)];
    }

    // A stretch of node c is a stretch of the flat sequence.
    lemma NodeSlice(c: nat, at: nat, len: nat)
      requires Linked() && c < |nodes| && at + len <= m_basesize
      ensures Area(c, m_basesize) + at + len <= |Store()|
      ensures nodes[c].ptr[at..at + len] == Store()[Area(c, m_basesize) + at..Area(c, m_basesize) + at + len]
    {
      MemoryIsFlat(nodes);
      FlatSlice(Contents(nodes), m_basesize, c, at, len);
    }

    // One turn of the growing loop: a fresh node after the last one.
    method Append(last: Node) returns (added: Node)
      requires Linked() && last == nodes[|nodes| - 1]
      modifies this`m_capacity, this`nodes, this`rank, last`next
      ensures Linked() && nodes == old(nodes) + [added]
      ensures fresh(added) && fresh(added.ptr)
      ensures old(Store()) <= Store()
    {
      ghost var before := Contents(nodes);
      MemoryIsFlat(nodes);
      added := new Node(m_basesize);
      last.next := added;
      rank := rank[added.ptr := |nodes|];
      nodes := nodes + [added];
      m_capacity := m_capacity + m_basesize;
      StoreAppended(before);
    }

    lemma StoreAppended(before: seq<seq<byte>>)
      requires Linked() && |nodes| == |before| + 1
      requires forall i :: 0 <= i < |before| ==> nodes[i].ptr[..] == before[i]
      ensures Flat(before) <= Store()
    {
      MemoryIsFlat(nodes);
      FlatGrows(before, Contents(nodes));
    }

    // The walk to the last node.
    method Tail() returns (tmp: Node)
      requires Linked()
      ensures tmp == nodes[|nodes| - 1]
    {
      tmp := m_root;
      ghost var at := 0;
      while tmp.next != null
        invariant at < |nodes| && tmp == nodes[at]
        decreases |nodes| - at
      {
        tmp := tmp.next;
        at := at + 1;
      }
    }

    // The growing loop; `first` is the first node it made.
    method Extend(last: Node, count: nat) returns (first: Node?)
      requires Linked() && last == nodes[|nodes| - 1]
      modifies this`m_capacity, this`nodes, this`rank, last
      ensures Linked() && old(nodes) <= nodes && |nodes| == |old(nodes)| + count
      ensures first == Cell(|old(nodes)|)
      ensures forall k :: |old(nodes)| <= k < |nodes| ==> fresh(nodes[k]) && fresh(nodes[k].ptr)
      ensures old(Store()) <= Store()
    {
      var tmp := last;
      first := null;
      var i := 0;
      while i < count
        invariant i <= count && Linked() && old(nodes) <= nodes && |nodes| == |old(nodes)| + i
        invariant tmp == nodes[|nodes| - 1] && (tmp == last || fresh(tmp))
        invariant first == Cell(|old(nodes)|)
        invariant forall k :: |old(nodes)| <= k < |nodes| ==> fresh(nodes[k]) && fresh(nodes[k].ptr)
        invariant old(Store()) <= Store()
      {
        var added := Append(tmp);
        if first == null { first := added; }
        tmp := added;
        i := i + 1;
      }
    }

    method AddCapacity(size: nat)
      requires Valid()
      modifies this`m_capacity, this`nodes, this`rank, this`m_cur, nodes
      ensures Valid()
      ensures forall k :: |old(nodes)| <= k < |nodes| ==> fresh(nodes[k]) && fresh(nodes[k].ptr)
      ensures old(nodes) <= nodes && old(Store()) <= Store()
      ensures m_capacity == Grown(m_basesize, m_position, old(m_capacity), size)
    {
      if size == 0 { return; }
      var old_cap := m_capacity - m_position;
      if old_cap > size { return; }
      var need := size - old_cap;
      var count := CeilDiv(need, m_basesize);
      var tmp := Tail();
      ghost var n0, c0 := |nodes|, Index(m_position, m_basesize);
      Locate(m_position, m_basesize, n0);
      assert if old_cap == 0 then c0 == n0 else c0 < n0;
      var first := Extend(tmp, count);
      if old_cap == 0 { m_cur := first; }
      AreaSum(n0, count, m_basesize);
      assert m_capacity == old(m_capacity) + Area(count, m_basesize);
    }

    // A memcpy of one chunk at the cursor, which moves on, to the next node if this one
    // is full.
    method CopyChunk(npos: nat, chunk: seq<byte>)
      requires Linked() && m_position < m_capacity
      requires m_cur == Cell(Index(m_position, m_basesize))
      requires npos == Offset(m_position, m_basesize) && npos + |chunk| <= m_basesize
      modifies this`m_position, this`m_cur, set n | n in nodes :: n.ptr
      ensures m_position == old(m_position) + |chunk| <= m_capacity
      ensures m_cur == Cell(Index(m_position, m_basesize))
      ensures npos + |chunk| == m_basesize ==> Offset(m_position, m_basesize) == 0
      ensures Store() == Splice(old(Store()), old(m_position), chunk)
    {
      ghost var c := Index(m_position, m_basesize);
      IndexOffset(m_position, m_basesize);
      Locate(m_position, m_basesize, |nodes|);
      Advance(m_position, m_basesize, |chunk|);
      CopyIn(c, m_cur.ptr, npos, chunk);
      if m_cur.size == npos + |chunk| { m_cur := m_cur.next; }
      m_position := m_position + |chunk|;
    }

    // The copying loop of write.
    method CopyAll(buf: seq<byte>)
      requires Linked() && m_position + |buf| <= m_capacity
      requires m_cur == Cell(Index(m_position, m_basesize))
      requires |buf| > 0
      modifies this`m_position, this`m_cur, set n | n in nodes :: n.ptr
      ensures m_position == old(m_position) + |buf|
      ensures m_cur == Cell(Index(m_position, m_basesize))
      ensures Store() == Splice(old(Store()), old(m_position), buf)
    {
      ghost var store, start := Store(), m_position;
      assert buf[..0] == [];
      hide Splice, Index, Offset, Area, Memory, Grown;
      var size := |buf|;
      Locate(m_position, m_basesize, |nodes|);
      var npos := Offset(m_position, m_basesize);
      var ncap := m_cur.size - npos;
      var bpos := 0;
      while size > 0
        invariant 0 <= size <= |buf| && m_position == start + |buf| - size
        invariant m_cur == Cell(Index(m_position, m_basesize))
        invariant size > 0 ==> npos == Offset(m_position, m_basesize)
        invariant size > 0 ==> ncap == m_basesize - npos && bpos == |buf| - size
        invariant Store() == Splice(store, start, buf[..|buf| - size])
      {
        ghost var k := |buf| - size;
        if ncap >= size {
          CopyChunk(npos, buf[bpos..bpos + size]);
          size := 0;
        } else {
          CopyChunk(npos, buf[bpos..bpos + ncap]);
          bpos := bpos + ncap;
          size := size - ncap;
          Locate(m_position, m_basesize, |nodes|);
          ncap := m_cur.size;
          npos := 0;
        }
        SpliceMore(store, start, buf, k, |buf| - size - k);
      }
      assert buf[..|buf|] == buf;
    }

    method Write(buf: seq<byte>)
      requires Valid()
      modifies this`m_position, this`m_size, this`m_capacity, this`nodes, this`rank, this`m_cur
      modifies nodes, set n | n in nodes :: n.ptr
      ensures Valid() && old(nodes) <= nodes
      ensures forall k :: |old(nodes)| <= k < |nodes| ==> fresh(nodes[k]) && fresh(nodes[k].ptr)
      ensures View() == Put(old(View()), m_basesize, buf)
    {
      hide Splice, Offset, Area, Memory, Put;
      ghost var before, b := Store(), View();
      PutNothing(b, m_basesize);
      if |buf| == 0 { return; }
      AddCapacity(|buf|);
      GrownHolds(m_basesize, m_position, |nodes|, |old(nodes)|, |buf|);
      PutStore(before, Store(), m_basesize, m_size, m_position, buf);
      CopyAll(buf);
      if m_position > m_size { m_size := m_position; }
    }

    // A memcpy out of one node at the cursor, which moves on like CopyChunk's.
    method ReadChunk(npos: nat, n: nat) returns (chunk: seq<byte>)
      requires Linked() && m_position < m_capacity
      requires m_cur == Cell(Index(m_position, m_basesize))
      requires npos == Offset(m_position, m_basesize) && npos + n <= m_basesize
      modifies this`m_position, this`m_cur
      ensures m_position == old(m_position) + n <= m_capacity
      ensures m_cur == Cell(Index(m_position, m_basesize))
      ensures npos + n == m_basesize ==> Offset(m_position, m_basesize) == 0
      ensures chunk == Store()[old(m_position)..m_position]
    {
      ghost var c := Index(m_position, m_basesize);
      IndexOffset(m_position, m_basesize);
      Locate(m_position, m_basesize, |nodes|);
      Advance(m_position, m_basesize, n);
      NodeSlice(c, npos, n);
      chunk := m_cur.ptr[npos..npos + n];
      if m_cur.size == npos + n { m_cur := m_cur.next; }
      m_position := m_position + n;
    }

    // The copying loop of read.
    method GatherAll(size: nat) returns (buf: seq<byte>)
      requires Linked() && m_position + size <= m_capacity && m_cur != null
      requires m_cur == Cell(Index(m_position, m_basesize))
      modifies this`m_position, this`m_cur
      ensures m_position == old(m_position) + size
      ensures m_cur == Cell(Index(m_position, m_basesize))
      ensures buf == Store()[old(m_position)..m_position]
    {
      ghost var store, start := Store(), m_position;
      var npos := Offset(m_position, m_basesize);
      var ncap := m_cur.size - npos;
      var left := size;
      buf := [];
      while left > 0
        invariant 0 <= left <= size && m_position == start + size - left
        invariant m_cur == Cell(Index(m_position, m_basesize))
        invariant left > 0 ==> npos == Offset(m_position, m_basesize) && ncap == m_basesize - npos
        invariant Store() == store && buf == store[start..m_position]
      {
        ghost var before := m_position;
        if ncap >= left {
          var chunk := ReadChunk(npos, left);
          buf := buf + chunk;
          left := 0;
        } else {
          var chunk := ReadChunk(npos, ncap);
          buf := buf + chunk;
          left := left - ncap;
          Locate(m_position, m_basesize, |nodes|);
          ncap := m_cur.size;
          npos := 0;
        }
        SliceJoin(store, start, before, m_position);
      }
    }

    method Read(size: nat) returns (r: Outcome<seq<byte>>)
      requires Valid()
      modifies this`m_position, this`m_cur
      ensures Valid() && r == Take(old(View()), size)
      ensures View() == old(View()).(pos := if r.Ok? then old(m_position) + size else old(m_position))
    {
      if size > m_size - m_position { return OutOfRange; }
      Locate(m_position, m_basesize, |nodes|);
      if m_cur == null { return NullDeref; }
      var buf := GatherAll(size);
      assert buf == Store()[..m_size][old(m_position)..m_position];
      r := Ok(buf);
    }

    method SetPosition(v: nat) returns (r: Outcome<()>)
      requires Valid()
      modifies this`m_position, this`m_size, this`m_cur
      ensures Valid() && Store() == old(Store()) && m_capacity == old(m_capacity)
      ensures r == if v > m_capacity then OutOfRange else Ok(())
      ensures r.Ok? ==> m_position == v && m_size == if v > old(m_size) then v else old(m_size)
      ensures r.Ok? && v <= old(m_size) ==> View() == old(View()).(pos := v)
      ensures !r.Ok? ==> View() == old(View())
    {
      if v > m_capacity { return OutOfRange; }
      m_position := v;
      if m_position > m_size { m_size := m_position; }
      m_cur := m_root;
      var left := v;
      ghost var c := 0;
      while left > m_cur.size
        invariant c < |nodes| && m_cur == nodes[c]
        invariant left >= 0 && v == Area(c, m_basesize) + left
        decreases left
        modifies this`m_cur
      {
        assert Area(c + 1, m_basesize) == Area(c, m_basesize) + m_basesize;
        left := left - m_cur.size;
        m_cur := m_cur.next;
        c := c + 1;
      }
      if left == m_cur.size {
        Unique(v, m_basesize, c + 1, 0);
        m_cur := m_cur.next;
      } else {
        Unique(v, m_basesize, c, left);
      }
      r := Ok(());
    }

    // The nodes after the root are freed.
    method Clear()
      requires Valid()
      modifies this`m_position, this`m_size, this`m_capacity, this`m_cur, this`nodes, m_root
      ensures Valid() && nodes == old(nodes)[..1]
      ensures View() == Buffer([], 0, m_basesize)
    {
      m_position, m_size := 0, 0;
      m_capacity := m_basesize;
      m_cur := m_root;
      m_root.next := null;
      nodes := [m_root];
      assert Area(1, m_basesize) == Area(0, m_basesize) + m_basesize;
    }

    // --- scatter and gather --------------------------------------------------------------

    // The stretches of memory that hold bytes p to p + n of the store, one a node.
    ghost function Pieces(p: nat, n: nat): (iovs: seq<Iovec>)
      requires Linked() && p + n <= m_capacity
      reads this`nodes, this`rank, this`m_root, this`m_capacity, nodes
      decreases n
    {
      if n == 0 then []
      else
        Locate(p, m_basesize, |nodes|);
        var c, o := Index(p, m_basesize), Offset(p, m_basesize);
        var room := m_basesize - o;
        if room >= n then [Iovec(nodes[c].ptr, o, n)]
        else [Iovec(nodes[c].ptr, o, room)] + Pieces(p + room, n - room)
    }

    /** The pieces lie inside their nodes' memory, are not empty, and no two share a node. */
    lemma {:induction false} PiecesDisjoint(p: nat, n: nat)
      requires Linked() && p + n <= m_capacity
      ensures forall k :: 0 <= k < |Pieces(p, n)| ==>
        var v := Pieces(p, n)[k];
        v.len > 0 && v.off + v.len <= v.base.Length && v.base in rank && rank[v.base] == Index(p, m_basesize) + k
      decreases n
    {
      if n > 0 {
        Locate(p, m_basesize, |nodes|);
        var room := m_basesize - Offset(p, m_basesize);
        if room < n {
          Advance(p, m_basesize, room);
          PiecesDisjoint(p + room, n - room);
          forall k | 1 <= k < |Pieces(p, n)|
            ensures Pieces(p, n)[k] == Pieces(p + room, n - room)[k - 1]
          {
          }
        }
      }
    }

    static ghost predicate Inside(iovs: seq<Iovec>) {
      forall k :: 0 <= k < |iovs| ==> iovs[k].off + iovs[k].len <= iovs[k].base.Length
    }

    // What the pieces hold, end to end.
    static ghost function Gather(iovs: seq<Iovec>): seq<byte>
      requires Inside(iovs)
      reads set v | v in iovs :: v.base
    {
      if iovs == [] then [] else iovs[0].base[iovs[0].off..iovs[0].off + iovs[0].len] + Gather(iovs[1..])
    }

    lemma GatherCons(iovs: seq<Iovec>, v: Iovec, rest: seq<Iovec>, s: seq<byte>, p: nat, k: nat, n: nat)
      requires iovs == [v] + rest
      requires v.off + v.len <= v.base.Length && Inside(rest) && p + k <= n <= |s|
      requires v.base[v.off..v.off + v.len] == s[p..p + k] && Gather(rest) == s[p + k..n]
      ensures Inside(iovs) && Gather(iovs) == s[p..n]
    {
      assert iovs[1..] == rest;
      SliceJoin(s, p, p + k, n);
    }

    // How much of n bytes from p lies in the node of p, and the piece that holds it.
    ghost function FirstLength(p: nat, n: nat): nat
      requires m_basesize > 0
    {
      var room := m_basesize - Offset(p, m_basesize);
      if room >= n then n else room
    }

    lemma PiecesCons(p: nat, n: nat)
      requires Linked() && n > 0 && p + n <= m_capacity
      ensures Index(p, m_basesize) < |nodes| && 0 < FirstLength(p, n) <= n
      ensures var k := FirstLength(p, n);
        Pieces(p, n)
        == [Iovec(nodes[Index(p, m_basesize)].ptr, Offset(p, m_basesize), k)] + Pieces(p + k, n - k)
    {
      Locate(p, m_basesize, |nodes|);
    }

    // The first piece, and where the next one starts.
    lemma PiecesNext(p: nat, n: nat)
      requires Linked() && n > 0 && p + n <= m_capacity
      ensures var c, o := Index(p, m_basesize), Offset(p, m_basesize);
        var room := m_basesize - o;
        && c < |nodes| && 0 < room
        && (room >= n ==> Pieces(p, n) == [Iovec(nodes[c].ptr, o, n)])
        && (room < n ==>
              && c + 1 < |nodes| && Index(p + room, m_basesize) == c + 1 && Offset(p + room, m_basesize) == 0
              && Pieces(p, n) == [Iovec(nodes[c].ptr, o, room)] + Pieces(p + room, n - room))
    {
      Locate(p, m_basesize, |nodes|);
      var room := m_basesize - Offset(p, m_basesize);
      if room < n {
        Advance(p, m_basesize, room);
        Locate(p + room, m_basesize, |nodes|);
      }
    }

    lemma FirstPiece(p: nat, k: nat)
      requires Linked() && p < m_capacity && Offset(p, m_basesize) + k <= m_basesize
      ensures Index(p, m_basesize) < |nodes| && p + k <= m_capacity
      ensures var o := Offset(p, m_basesize);
        nodes[Index(p, m_basesize)].ptr[o..o + k] == Store()[p..p + k]
    {
      Locate(p, m_basesize, |nodes|);
      IndexOffset(p, m_basesize);
      NodeSlice(Index(p, m_basesize), Offset(p, m_basesize), k);
    }

    // What the first piece and the others hold.
    lemma PiecesJoin(p: nat, n: nat, k: nat, s: seq<byte>)
      requires Linked() && n > 0 && p + n <= m_capacity && k == FirstLength(p, n) && 0 < k <= n && s == Store()
      requires Inside(Pieces(p + k, n - k)) && Gather(Pieces(p + k, n - k)) == s[p + k..p + n]
      ensures Inside(Pieces(p, n)) && Gather(Pieces(p, n)) == s[p..p + n]
    {
      hide Gather, Pieces, Inside;
      PiecesCons(p, n);
      FirstPiece(p, k);
      var v := Iovec(nodes[Index(p, m_basesize)].ptr, Offset(p, m_basesize), k);
      GatherCons(Pieces(p, n), v, Pieces(p + k, n - k), s, p, k, p + n);
    }

    lemma {:induction false} PiecesHoldIn(p: nat, n: nat, s: seq<byte>)
      requires Linked() && p + n <= m_capacity && s == Store()
      ensures Inside(Pieces(p, n)) && Gather(Pieces(p, n)) == s[p..p + n]
      decreases n
    {
      if n > 0 {
        hide Gather, Pieces, Inside;
        var k := FirstLength(p, n);
        PiecesCons(p, n);
        PiecesHoldIn(p + k, n - k, s);
        PiecesJoin(p, n, k, s);
      }
    }

    /** The pieces hold exactly bytes p to p + n of the store, in order. */
    lemma PiecesHold(p: nat, n: nat)
      requires Linked() && p + n <= m_capacity
      ensures Inside(Pieces(p, n)) && Gather(Pieces(p, n)) == Store()[p..p + n]
    {
      PiecesHoldIn(p, n, Store());
    }

    static lemma TakeOne(all: seq<Iovec>, before: seq<Iovec>, rest: seq<Iovec>, v: Iovec)
      requires all == before + rest && rest != [] && rest[0] == v
      ensures all == before + [v] + rest[1..]
    {
    }

    // The loop that both readers and the writer of buffers share.
    method Collect(from: Node?, position: nat, len: nat) returns (iovs: seq<Iovec>)
      requires Linked() && position + len <= m_capacity && position < m_capacity
      requires from == Cell(Index(position, m_basesize))
      ensures iovs == Pieces(position, len)
    {
      Locate(position, m_basesize, |nodes|);
      var npos := Offset(position, m_basesize);
      var ncap := from.size - npos;
      var cur := from;
      var left := len;
      ghost var p := position;
      ghost var rest := Pieces(p, left);
      ghost var all := rest;
      assert len == 0 ==> rest == [];
      hide Pieces, Index, Offset, Area;
      iovs := [];
      while left > 0
        invariant 0 <= left && p + left == position + len
        invariant left > 0 ==> cur == Cell(Index(p, m_basesize)) && npos == Offset(p, m_basesize)
        invariant left > 0 ==> cur != null && ncap == m_basesize - npos
        invariant all == iovs + rest
        invariant if left > 0 then rest == Pieces(p, left) else rest == []
      {
        PiecesNext(p, left);
        var v := Iovec(cur.ptr, npos, if ncap >= left then left else ncap);
        TakeOne(all, iovs, rest, v);
        iovs := iovs + [v];
        rest := rest[1..];
        if ncap >= left {
          p := p + left;
          left := 0;
        } else {
          p := p + ncap;
          left := left - ncap;
          cur := cur.next;
          ncap := cur.size;
          npos := 0;
        }
      }
    }

    /** The pieces of the next n unread bytes hold what a read of n bytes gives. */
    lemma PiecesRead(n: nat)
      requires Valid() && m_position + n <= m_size
      ensures Inside(Pieces(m_position, n))
      ensures Gather(Pieces(m_position, n)) == View().bytes[m_position..m_position + n]
    {
      PiecesHold(m_position, n);
      assert Store()[..m_size][m_position..m_position + n] == Store()[m_position..m_position + n];
    }

    method GetReadBuffers(len: nat) returns (r: Outcome<(nat, seq<Iovec>)>)
      requires Valid()
      ensures len == 0 ==> r == Ok((0, []))
      ensures len > 0 && m_position == m_capacity ==> r == NullDeref
      ensures len > 0 && m_position < m_capacity ==>
        var n := if len > m_size - m_position then m_size - m_position else len;
        r == Ok((n, Pieces(m_position, n)))
        && Inside(r.value.1) && Gather(r.value.1) == View().bytes[m_position..m_position + n]
    {
      if len == 0 { return Ok((0, [])); }
      var n := if len > m_size - m_position then m_size - m_position else len;
      Locate(m_position, m_basesize, |nodes|);
      if m_cur == null { return NullDeref; }
      var iovs := Collect(m_cur, m_position, n);
      PiecesRead(n);
      r := Ok((n, iovs));
    }

    // The overload that starts elsewhere still reads the cursor, for the size of a node.
    method GetReadBuffersAt(len: nat, position: nat) returns (r: Outcome<(nat, seq<Iovec>)>)
      requires Valid()
      ensures len == 0 || position > m_size ==> r == Ok((0, []))
      ensures len > 0 && position <= m_size && m_position == m_capacity ==> r == NullDeref
      ensures len > 0 && position <= m_size && m_position < m_capacity ==>
        var n := if len > m_size - position then m_size - position else len;
        r == Ok((n, Pieces(position, n)))
    {
      if len == 0 || position > m_size { return Ok((0, [])); }
      var n := if len > m_size - position then m_size - position else len;
      Locate(position, m_basesize, |nodes|);
      var cur: Node? := m_root;
      var count := Index(position, m_basesize);
      ghost var c := 0;
      while count > 0
        invariant c <= |nodes| && cur == Cell(c) && c + count == Index(position, m_basesize)
        decreases count
      {
        cur := cur.next;
        count := count - 1;
        c := c + 1;
      }
      Locate(m_position, m_basesize, |nodes|);
      if m_cur == null { return NullDeref; }
      if n == 0 { return Ok((0, [])); }
      var iovs := Collect(cur, position, n);
      r := Ok((n, iovs));
    }

    method GetWriteBuffers(len: nat) returns (n: nat, iovs: seq<Iovec>)
      requires Valid()
      modifies this`m_capacity, this`nodes, this`rank, this`m_cur, nodes
      ensures Valid() && old(nodes) <= nodes && old(Store()) <= Store()
      ensures forall k :: |old(nodes)| <= k < |nodes| ==> fresh(nodes[k]) && fresh(nodes[k].ptr)
      ensures View() == old(View()).(cap := Grown(m_basesize, m_position, old(m_capacity), len))
      ensures n == len && m_position + len <= m_capacity && iovs == Pieces(m_position, len)
    {
      if len == 0 { return 0, []; }
      AddCapacity(len);
      GrownHolds(m_basesize, m_position, |nodes|, |old(nodes)|, len);
      iovs := Collect(m_cur, m_position, len);
      n := len;
    }

    // What the socket does with the pieces it is given: it fills them in order.
    method Scatter(iovs: seq<Iovec>, data: seq<byte>, ghost p: nat, ghost n: nat)
      requires Linked() && p + n <= m_capacity && |data| <= n && iovs == Pieces(p, n)
      modifies set k | k in nodes :: k.ptr
      ensures Store() == Splice(old(Store()), p, data)
      decreases |data|
    {
      if |data| == 0 { return; }
      Locate(p, m_basesize, |nodes|);
      IndexOffset(p, m_basesize);
      ghost var store := Store();
      var v := iovs[0];
      if v.len >= |data| {
        CopyIn(Index(p, m_basesize), v.base, v.off, data);
      } else {
        var k := v.len;
        CopyIn(Index(p, m_basesize), v.base, v.off, data[..k]);
        assert iovs[1..] == Pieces(p + k, n - k);
        Scatter(iovs[1..], data[k..], p + k, n - k);
        SpliceMore(store, p, data, k, |data| - k);
        assert data[k..k + (|data| - k)] == data[k..] && data[..k + (|data| - k)] == data;
      }
    }
  }

  lemma PutNothing(b: Buffer, base: nat)
    requires base > 0 && b.pos <= |b.bytes|
    ensures Put(b, base, []) == b
  {
  }

  // A splice of a longer store, seen through the new size, is an overwriting.
  lemma SpliceSeen(before: seq<byte>, after: seq<byte>, size: nat, at: nat, data: seq<byte>)
    requires before <= after && at <= size <= |before| && at + |data| <= |after|
    ensures var n := if at + |data| > size then at + |data| else size;
      Splice(after, at, data)[..n] == Overwrite(before[..size], at, data)
  {
    SpliceIs(after, at, data);
    assert after[..at] == before[..size][..at];
    if at + |data| < size {
      assert before[..size][at + |data|..] == after[at + |data|..][..size - at - |data|];
    }
  }

  lemma PutStore(before: seq<byte>, after: seq<byte>, base: nat, size: nat, at: nat, data: seq<byte>)
    requires base > 0 && before <= after && at <= size <= |before| && at + |data| <= |after|
    requires |after| == Grown(base, at, |before|, |data|)
    ensures var n := if at + |data| > size then at + |data| else size;
      Buffer(Splice(after, at, data)[..n], at + |data|, |after|) ==
        Put(Buffer(before[..size], at, |before|), base, data)
  {
    SpliceSeen(before, after, size, at, data);
  }

  // After room for n bytes was made there is room for them, and a node at the position.
  lemma GrownHolds(base: nat, pos: nat, after: nat, before: nat, n: nat)
    requires base > 0 && pos <= Area(before, base)
    requires Area(after, base) == Grown(base, pos, Area(before, base), n)
    ensures pos + n <= Area(after, base)
  {
    var cap := Area(before, base);
    if cap <= pos + n { CeilDivLeast(pos + n - cap, base, 0); }
  }

  // The number of nodes after growing from m of them.
  function GrownNodes(base: nat, pos: nat, m: nat, n: nat): (k: nat)
    requires base > 0
    ensures k >= m
  {
    var cap := Area(m, base);
    if n == 0 || cap > pos + n then m else m + CeilDiv(pos + n - cap, base)
  }

  /** Growth is by whole nodes, to the fewest that are no fewer than before and hold the
      pos + n bytes. */
  lemma GrownLeast(base: nat, pos: nat, m: nat, n: nat, k: nat)
    requires base > 0 && pos <= Area(m, base)
    ensures Grown(base, pos, Area(m, base), n) == Area(GrownNodes(base, pos, m, n), base)
    ensures pos + n <= Area(GrownNodes(base, pos, m, n), base)
    ensures k >= m && pos + n <= Area(k, base) ==> GrownNodes(base, pos, m, n) <= k
  {
    var cap := Area(m, base);
    if n > 0 && cap <= pos + n {
      var short := pos + n - cap;
      AreaSum(m, CeilDiv(short, base), base);
      CeilDivLeast(short, base, 0);
      if k >= m && pos + n <= Area(k, base) {
        AreaSum(m, k - m, base);
        CeilDivLeast(short, base, k - m);
      }
    }
  }

  /** Growing twice is growing once by the sum. */
  lemma GrownTwice(base: nat, pos: nat, m: nat, a: nat, b: nat)
    requires base > 0 && pos <= Area(m, base)
    ensures Grown(base, pos + a, Grown(base, pos, Area(m, base), a), b) == Grown(base, pos, Area(m, base), a + b)
  {
    var m1 := GrownNodes(base, pos, m, a);
    GrownLeast(base, pos, m, a, m);
    var m2 := GrownNodes(base, pos + a, m1, b);
    var k := GrownNodes(base, pos, m, a + b);
    GrownLeast(base, pos, m, a, k);
    GrownLeast(base, pos + a, m1, b, k);
    GrownLeast(base, pos, m, a + b, m2);
    if a == 0 || b == 0 {
    } else {
      assert k <= m2;
      assert m2 <= k;
    }
  }

  /** Writing x and then y is writing x + y. */
  lemma PutTwice(b: Buffer, base: nat, m: nat, x: seq<byte>, y: seq<byte>)
    requires base > 0 && b.pos <= |b.bytes| <= b.cap && b.cap == Area(m, base)
    ensures Put(Put(b, base, x), base, y) == Put(b, base, x + y)
  {
    GrownTwice(base, b.pos, m, |x|, |y|);
    OverwriteTwice(b.bytes, b.pos, x, y);
  }

  lemma OverwriteTwice(s: seq<byte>, at: nat, x: seq<byte>, y: seq<byte>)
    requires at <= |s|
    ensures Overwrite(Overwrite(s, at, x), at + |x|, y) == Overwrite(s, at, x + y)
  {
  }
}
