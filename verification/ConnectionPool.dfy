/** The pool and its connections as objects, one method for each step. */
module ConnectionPools {
  import opened Options
  import opened PoolSpec

  class HttpConnection {
    const addr: nat
    const m_createTimes: nat
    var m_request: nat

    constructor (addr: nat, now: nat)
      ensures this.addr == addr && m_createTimes == now && m_request == 0
    {
      this.addr, m_createTimes, m_request := addr, now, 0;
    }
  }

  class HttpConnectionPool {
    const m_maxSize: nat
    const m_maxAliveTime: nat
    const m_maxRequest: nat
    var m_conns: seq<HttpConnection>
    var m_total: int
    ghost var table: map<nat, HttpConnection>  // every connection made, by its address
    ghost var model: Pool

    ghost function Limit(): Limits { Limits(m_maxSize, m_maxAliveTime, m_maxRequest) }

    ghost predicate Agrees()
      reads this, table.Values
    {
      && |m_conns| == |model.idle| && m_total == model.total
      && (forall i :: 0 <= i < |m_conns| ==>
            m_conns[i].addr == model.idle[i] && model.idle[i] in table && table[model.idle[i]] == m_conns[i])
      && (forall c :: c in table <==> c in model.conns)
      && (forall c :: c in table ==>
            table[c].addr == c && table[c].m_createTimes == model.conns[c].created
            && table[c].m_request == model.conns[c].requests)
    }

    ghost predicate Valid()
      reads this, table.Values
    {
      Agrees() && Inv(model, Limit())
    }

    constructor (max_size: nat, max_alive_time: nat, max_request: nat, now: nat)
      requires max_alive_time < 0x1_0000_0000
      ensures Valid() && model == Start() && table == map[]
      ensures Limit() == Limits(max_size, AliveTime(max_alive_time, now), max_request)
    {
      m_maxSize, m_maxRequest := max_size, max_request;
      m_maxAliveTime := (max_alive_time + now) % 0x1_0000_0000;
      m_conns, m_total := [], 0;
      table, model := map[], Start();
    }

    // The locked part of getConnection.  `seen` has what each look at a connection finds: those
    // that are connected, with the clock's reading.
    method TakeIdle(seen: map<nat, nat>) returns (conn: Option<HttpConnection>)
      requires Valid()
      modifies this`m_conns, this`m_total, this`model
      ensures Valid() && (model, if conn.Some? then Some(conn.value.addr) else None) ==
        Borrowed(old(model), Limit(), seen)
      ensures conn.Some? ==> conn.value.addr in table && table[conn.value.addr] == conn.value
      ensures conn.Some? ==>
        conn.value.addr in seen && seen[conn.value.addr] < conn.value.m_createTimes + m_maxAliveTime
    {
      BorrowKeeps(model, Limit(), seen);
      ghost var p := model;
      var invalid := 0;
      conn := None;
      while invalid < |m_conns|
        invariant invalid <= |m_conns|
        invariant FirstUsable(p.conns, p.idle, m_maxAliveTime, seen) ==
                  invalid + FirstUsable(p.conns, p.idle[invalid..], m_maxAliveTime, seen)
      {
        var raw_conn := m_conns[invalid];
        if raw_conn.addr in seen && !(raw_conn.m_createTimes + m_maxAliveTime <= seen[raw_conn.addr]) { break; }
        assert p.idle[invalid..][1..] == p.idle[invalid + 1..];
        invalid := invalid + 1;
      }
      if invalid < |m_conns| {
        conn := Some(m_conns[invalid]);
        m_conns := m_conns[invalid + 1..];
      } else {
        m_conns := [];
      }
      m_total := m_total - invalid;
      model := Borrowed(p, Limit(), seen).0;
    }

    // A new connection, and then, in a step of its own, its count.
    method MakeNew(addr: nat, now: nat) returns (conn: HttpConnection)
      requires Valid() && CanTake(model, Make(addr, now))
      modifies this`table, this`model
      ensures Valid() && fresh(conn) && table == old(table)[addr := conn]
      ensures model == Take(old(model), Limit(), Make(addr, now))
      ensures conn.addr == addr && conn.m_createTimes == now && conn.m_request == 0
    {
      TakeKeeps(model, Limit(), Make(addr, now));
      conn := new HttpConnection(addr, now);
      table := table[addr := conn];
      model := Take(model, Limit(), Make(addr, now));
    }

    method CountNew(ghost addr: nat)
      requires Valid() && CanTake(model, Count(addr))
      modifies this`m_total, this`model
      ensures Valid() && model == Take(old(model), Limit(), Count(addr)) && m_total == old(m_total) + 1
    {
      TakeKeeps(model, Limit(), Count(addr));
      m_total := m_total + 1;
      model := Take(model, Limit(), Count(addr));
    }

    // The first part of ReleasePtr: the request is counted, and whether to keep is decided.
    method Decide(conn: HttpConnection, connected: bool, now: nat) returns (keep: bool)
      requires Valid() && CanTake(model, Release(conn.addr, connected, now))
      requires conn.addr in table && table[conn.addr] == conn
      modifies this`model, conn
      ensures Valid() && model == Take(old(model), Limit(), Release(conn.addr, connected, now))
      ensures keep <==> conn.addr in model.keeping
      ensures keep <==> connected && m_total <= m_maxSize && now < conn.m_createTimes + m_maxAliveTime
                        && conn.m_request < m_maxRequest
      ensures conn.m_request == old(conn.m_request) + 1
    {
      ghost var p := model;
      TakeKeeps(p, Limit(), Release(conn.addr, connected, now));
      assert ConnOk(p, Limit(), conn.addr);
      conn.m_request := conn.m_request + 1;
      keep := !(!connected || m_total > m_maxSize || conn.m_createTimes + m_maxAliveTime <= now
                || conn.m_request >= m_maxRequest);
      model := Take(p, Limit(), Release(conn.addr, connected, now));
    }

    // The second: back on the list, under the lock, or off the count.
    method Finish(conn: HttpConnection, keep: bool)
      requires Valid() && (if keep then conn.addr in model.keeping else conn.addr in model.dying)
      requires conn.addr in table && table[conn.addr] == conn
      modifies this`m_conns, this`m_total, this`model
      ensures Valid()
      ensures model == Take(old(model), Limit(), if keep then Push(conn.addr) else Drop(conn.addr))
      ensures m_conns == (if keep then old(m_conns) + [conn] else old(m_conns))
      ensures m_total == (if keep then old(m_total) else old(m_total) - 1)
    {
      TakeKeeps(model, Limit(), if keep then Push(conn.addr) else Drop(conn.addr));
      if keep {
        m_conns := m_conns + [conn];
        model := Take(model, Limit(), Push(conn.addr));
      } else {
        m_total := m_total - 1;
        model := Take(model, Limit(), Drop(conn.addr));
      }
    }
  }
}
