/** The socket stream's buffer overloads: a socket fills or drains pieces of a byte array. */
module SockStreams {
  import opened Words
  import opened ByteArrays
  import opened Varint
  import opened ByteArrayCodec

  // The socket fills the pieces from the front, and the position moves past what arrived.
  method Land(ba: ByteArray, iovs: seq<Iovec>, length: nat, incoming: seq<byte>)
    requires ba.Valid() && |incoming| <= length && ba.m_position + length <= ba.m_capacity
    requires iovs == ba.Pieces(ba.m_position, length)
    modifies ba`m_position, ba`m_size, ba`m_cur, set k | k in ba.nodes :: k.ptr
    ensures ba.Valid()
    ensures ba.View() == old(ba.View()).(
        bytes := Overwrite(old(ba.View()).bytes, old(ba.m_position), incoming),
        pos := old(ba.m_position) + |incoming|)
  {
    SpliceSeen(ba.Store(), ba.Store(), ba.m_size, ba.m_position, incoming);
    ba.Scatter(iovs, incoming, ba.m_position, length);
    if |incoming| > 0 {
      var moved := ba.SetPosition(ba.m_position + |incoming|);
    }
  }

  /** Receiving: the socket is given room for `length` bytes and delivers `incoming`, or fails
      with `error`.  What arrives is written exactly as Write would have written it; only
      the capacity is the one asked for. */
  method Receive(ba: ByteArray, length: nat, incoming: seq<byte>, error: int) returns (rt: int)
    requires ba.Valid() && 0 < length && |incoming| <= length && error <= 0
    modifies ba`m_position, ba`m_size, ba`m_capacity, ba`nodes, ba`rank, ba`m_cur
    modifies ba.nodes, set k | k in ba.nodes :: k.ptr
    ensures ba.Valid() && Grew(ba)
    ensures rt == if incoming == [] then error else |incoming|
    ensures ba.View() == Put(old(ba.View()), ba.m_basesize, incoming).(
        cap := Grown(ba.m_basesize, old(ba.m_position), old(ba.m_capacity), length))
  {
    var n, iovs := ba.GetWriteBuffers(length);
    Land(ba, iovs, length, incoming);
    rt := if incoming == [] then error else |incoming|;
  }

  // The first bytes of what the pieces hold, in terms of the view.
  lemma SentPrefix(b: Buffer, n: nat, taken: nat)
    requires taken <= n && b.pos + n <= |b.bytes| <= b.cap && taken <= |b.bytes| - b.pos
    ensures taken > 0 ==> Take(b, taken) == Ok(b.bytes[b.pos..b.pos + n][..taken])
    ensures b.bytes[b.pos..b.pos + n][..taken] + Unread(b.(pos := b.pos + taken)) == Unread(b)
  {
    assert b.bytes[b.pos..b.pos + n][..taken] == b.bytes[b.pos..b.pos + taken];
  }

  /** Sending: the socket is offered the unread bytes, at most `length` of them, and takes the
      first `taken`, or fails with `error`.  What it took is what Read would have given,
      and what is left is exactly the unsent suffix. */
  method Send(ba: ByteArray, length: nat, taken: nat, error: int)
    returns (rt: int, ghost sent: seq<byte>)
    requires ba.Valid() && 0 < length && ba.m_position < ba.m_size && error <= 0
    requires taken <= length && taken <= ba.m_size - ba.m_position
    modifies ba`m_position, ba`m_size, ba`m_cur
    ensures ba.Valid() && rt == if taken == 0 then error else taken
    ensures taken > 0 ==> Take(old(ba.View()), taken) == Ok(sent)
    ensures sent + Unread(ba.View()) == Unread(old(ba.View()))
    ensures ba.View() == old(ba.View()).(pos := old(ba.m_position) + taken)
  {
    var r := ba.GetReadBuffers(length);
    var (n, iovs) := r.value;
    SentPrefix(ba.View(), n, taken);
    sent := ByteArray.Gather(iovs)[..taken];
    rt := if taken == 0 then error else taken;
    if rt > 0 {
      var moved := ba.SetPosition(ba.m_position + rt);
    }
  }
}
