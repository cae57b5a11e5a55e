/** Timers and their manager as objects, proved to do what the state machine says. */
module TimerManagers {
  import opened Options
  import opened TimerSpec
  import opened TimerRuns

  /** The comparator of the set. */
  predicate Comparator(lhs: Timer?, rhs: Timer?)
    reads lhs, rhs
  {
    if lhs == null && rhs == null then false
    else if lhs == null then true
    else if rhs == null then false
    else if lhs.m_next < rhs.m_next then true
    else if rhs.m_next < lhs.m_next then false
    else lhs.addr < rhs.addr
  }

  // The ordered set of the standard library, kept as a sequence: where a key belongs, and
  // where a timer is.
  function LowerBound(ts: seq<Timer>, key: Timer): (i: nat)
    reads key, ts
    ensures i <= |ts|
    ensures forall k :: 0 <= k < i ==> Comparator(ts[k], key)
    ensures i < |ts| ==> !Comparator(ts[i], key)
  {
    if ts == [] || !Comparator(ts[0], key) then 0 else 1 + LowerBound(ts[1..], key)
  }

  function Find(ts: seq<Timer>, key: Timer): (i: nat)
    reads key, ts
    ensures i <= |ts|
  {
    var i := LowerBound(ts, key);
    if i < |ts| && !Comparator(key, ts[i]) then i else |ts|
  }

  function Addrs(ts: seq<Timer>): (a: seq<Addr>) {
    seq(|ts|, i requires 0 <= i < |ts| => ts[i].addr)
  }

  ghost function RecOf(t: Timer): Rec
    reads t
  {
    Rec(t.m_ms, t.m_cb, t.m_recurring, t.m_next)
  }

  // The records agree with the objects.
  ghost predicate Mirrors(recs: map<Addr, Rec>, ts: seq<Timer>)
    reads ts
  {
    forall i :: 0 <= i < |ts| ==> ts[i].addr in recs && recs[ts[i].addr] == RecOf(ts[i])
  }

  /** Inserting at the lower bound is the insertion of the state machine. */
  lemma InsertAtLowerBound(recs: map<Addr, Rec>, ts: seq<Timer>, t: Timer)
    requires Mirrors(recs, ts) && t.addr in recs && recs[t.addr] == RecOf(t)
    requires forall i :: 0 <= i < |ts| ==> ts[i].addr != t.addr
    ensures var i := LowerBound(ts, t);
      Addrs(ts[..i] + [t] + ts[i..]) == Insert(recs, Addrs(ts), t.addr)
  {
    var i := LowerBound(ts, t);
    InsertAt(recs, Addrs(ts), t.addr, i);
  }

  /** In a sorted set, find gives the place of a timer that is there, and erasing there is
      erasing it. */
  lemma FindErase(recs: map<Addr, Rec>, ts: seq<Timer>, t: Timer, k: nat)
    requires Mirrors(recs, ts) && Sorted(recs, Addrs(ts)) && k < |ts| && ts[k] == t
    ensures Find(ts, t) == LowerBound(ts, t) == k
    ensures Addrs(ts[..k] + ts[k + 1..]) == Erase(Addrs(ts), t.addr)
  {
    var a := Addrs(ts);
    forall j | 0 <= j < k
      ensures Comparator(ts[j], t) && a[j] != t.addr
    {
      assert Before(recs, a[j], a[k]);
    }
    var i := LowerBound(ts, t);
    assert i >= k;
    EraseAt(a, k);
    assert Addrs(ts[..k] + ts[k + 1..]) == a[..k] + a[k + 1..];
  }

  // Refresh and Reset as taking a timer out, changing it and putting it back.
  ghost function TakenOut(s: State, t: Addr, ms: nat, next: nat, now: nat): State
    requires t in s.recs
  {
    s.(recs := s.recs[t := s.recs[t].(ms := ms, next := next)], order := Erase(s.order, t), clock := now)
  }

  lemma RefreshParts(s: State, t: Addr, now: nat)
    requires SetInv(s.recs, s.order) && t in s.recs && s.recs[t].cb.Some?
    ensures var s1 := TakenOut(s, t, s.recs[t].ms, now + s.recs[t].ms, now);
      && Known(s1.recs, s1.order) && t !in s1.order
      && TimerSpec.Refresh(s, t, now).0 == s1.(order := Insert(s1.recs, s1.order, t))
  {
    EraseSorted(s.recs, s.order, t);
    assert s.recs[t].(ms := s.recs[t].ms, next := now + s.recs[t].ms) == s.recs[t].(next := now + s.recs[t].ms);
  }

  lemma ResetParts(s: State, t: Addr, ms: nat, fromNow: bool, now: nat)
    requires SetInv(s.recs, s.order) && t in s.recs && s.recs[t].cb.Some? && !(ms == s.recs[t].ms && !fromNow)
    ensures var start := if fromNow then now else s.recs[t].next - s.recs[t].ms;
      var s1 := TakenOut(s, t, ms, start + ms, if fromNow then now else s.clock);
      && Known(s1.recs, s1.order) && t !in s1.order
      && TimerSpec.Reset(s, t, ms, fromNow, now).0 == AddLocked(s1, t)
  {
    EraseSorted(s.recs, s.order, t);
  }

  class Timer {
    const addr: Addr
    const m_recurring: bool
    const m_manager: TimerManager?
    var m_ms: nat
    var m_cb: Option<Callback>
    var m_next: nat

    constructor (addr: Addr, ms: nat, cb: Callback, recurring: bool, manager: TimerManager, now: nat)
      ensures this.addr == addr && m_manager == manager
      ensures RecOf(this) == Rec(ms, Some(cb), recurring, now + ms)
    {
      this.addr, m_recurring, m_manager := addr, recurring, manager;
      m_ms, m_cb, m_next := ms, Some(cb), now + ms;
    }

    // The key that expiry searches with.
    constructor Key(addr: Addr, next: nat)
      ensures this.addr == addr && m_next == next
    {
      this.addr, m_recurring, m_manager := addr, false, null;
      m_ms, m_cb, m_next := 0, None, next;
    }

    ghost predicate Managed()
      reads this, m_manager, if m_manager == null then {} else m_manager.table.Values
    {
      m_manager != null && m_manager.Valid() && addr in m_manager.table && m_manager.table[addr] == this
    }

    method Cancel() returns (done: bool)
      requires Managed()
      modifies this`m_cb, m_manager
      ensures Managed() && m_manager.table == old(m_manager.table)
      ensures (m_manager.model, done) == TimerSpec.Cancel(old(m_manager.model), addr)
    {
      CancelKeepsSet(m_manager.model, addr);
      if m_cb.Some? {
        SortedFrame(m_manager.model.recs, m_manager.model.recs[addr := m_manager.model.recs[addr].(cb := None)],
                    m_manager.model.order);
        m_cb := None;
        m_manager.Follow(this);
        m_manager.Unlink(this);
        return true;
      }
      return false;
    }

    method Refresh(now: nat) returns (done: bool)
      requires Managed()
      modifies this`m_ms, this`m_next, m_manager
      ensures Managed() && m_manager.table == old(m_manager.table)
      ensures (m_manager.model, done) == TimerSpec.Refresh(old(m_manager.model), addr, now)
    {
      RefreshKeepsSet(m_manager.model, addr, now);
      if m_cb.None? { return false; }
      ghost var s := m_manager.model;
      assert m_ms == s.recs[addr].ms;
      ghost var s1 := TakenOut(s, addr, m_ms, now + m_ms, now);
      RefreshParts(s, addr, now);
      ghost var s2 := s1.(order := Insert(s1.recs, s1.order, addr));
      assert (s2, true) == TimerSpec.Refresh(s, addr, now);
      m_manager.TakeOut(this, m_ms, now + m_ms, now);
      var at := m_manager.Put(this);
      assert m_manager.model == s2;
      return true;
    }

    method Reset(ms: nat, fromNow: bool, now: nat) returns (done: bool)
      requires Managed()
      modifies this`m_ms, this`m_next, m_manager
      ensures Managed() && m_manager.table == old(m_manager.table)
      ensures (m_manager.model, done) == TimerSpec.Reset(old(m_manager.model), addr, ms, fromNow, now)
    {
      hide Insert, Sorted, Erase;
      ResetKeepsSet(m_manager.model, addr, ms, fromNow, now);
      if ms == m_ms && !fromNow { return true; }
      if m_cb.None? { return false; }
      var start := if fromNow then now else m_next - m_ms;
      ghost var s := m_manager.model;
      assert m_next - m_ms == s.recs[addr].next - s.recs[addr].ms;
      ghost var s1 := TakenOut(s, addr, ms, start + ms, if fromNow then now else s.clock);
      ResetParts(s, addr, ms, fromNow, now);
      ghost var s2 := AddLocked(s1, addr);
      assert (s2, true) == TimerSpec.Reset(s, addr, ms, fromNow, now);
      m_manager.TakeOut(this, ms, start + ms, if fromNow then now else s.clock);
      assert m_manager.model == s1;
      m_manager.AddTimerLocked(this);
      assert m_manager.model == s2;
      return true;
    }
  }

  class TimerManager {
    var m_timers: seq<Timer>
    var m_tickled: bool
    var m_previousTime: nat
    ghost var table: map<Addr, Timer>  // every timer made, by its address
    ghost var model: State             // the state machine this manager is in

    // The objects are in the state of the model, but for the fields of one timer.
    ghost predicate AgreesBut(t: Timer?)
      reads this, table.Values
    {
      && table.Keys == model.recs.Keys
      && (forall a :: a in table ==>
            table[a].addr == a && table[a].m_manager == this && (table[a] == t || model.recs[a] == RecOf(table[a])))
      && (forall t :: t in m_timers ==> t.addr in table && table[t.addr] == t)
      && model.order == Addrs(m_timers) && model.tickled == m_tickled && model.previous == m_previousTime
    }

    ghost predicate Agrees()
      reads this, table.Values
    {
      AgreesBut(null)
    }

    ghost predicate Valid()
      reads this, table.Values
    {
      Agrees() && SetInv(model.recs, model.order)
    }

    constructor (now: nat)
      ensures Valid() && model == Start(now) && table == map[]
    {
      m_timers, m_tickled, m_previousTime := [], false, now;
      table, model := map[], Start(now);
    }

    // A timer of the set is where find finds it.
    ghost function PlaceOf(t: Timer): (k: nat)
      requires Agrees() && Known(model.recs, model.order) && Sorted(model.recs, model.order)
      requires t.addr in model.order && table[t.addr] == t
      reads this, table.Values, t
      ensures k < |m_timers| && m_timers[k] == t && Find(m_timers, t) == k
      ensures Addrs(m_timers[..k] + m_timers[k + 1..]) == Erase(Addrs(m_timers), t.addr)
    {
      var k :| 0 <= k < |m_timers| && Addrs(m_timers)[k] == t.addr;
      FindErase(model.recs, m_timers, t, k);
      k
    }

    // Find and erase; the branch of the source that does not find the timer is never taken.
    method Unlink(t: Timer)
      requires Agrees() && Known(model.recs, model.order) && Sorted(model.recs, model.order)
      requires t.addr in model.order && table[t.addr] == t
      modifies this`m_timers, this`model
      ensures Agrees() && model == old(model).(order := Erase(old(model).order, t.addr))
    {
      ghost var k := PlaceOf(t);
      var it := Find(m_timers, t);
      if it == |m_timers| { assert false; }
      m_timers := m_timers[..it] + m_timers[it + 1..];
      model := model.(order := Erase(model.order, t.addr));
    }

    // The model follows a change of one timer's fields.
    ghost method Follow(t: Timer)
      requires t.addr in table && table[t.addr] == t && AgreesBut(t)
      modifies this`model
      ensures Agrees() && model == old(model).(recs := old(model).recs[t.addr := RecOf(t)])
    {
      model := model.(recs := model.recs[t.addr := RecOf(t)]);
    }

    method TakeOut(t: Timer, ms: nat, next: nat, ghost now: nat)
      requires Valid() && t.addr in table && table[t.addr] == t && t.m_cb.Some?
      modifies this`m_timers, this`model, t`m_ms, t`m_next
      ensures Agrees()
      ensures model == TakenOut(old(model), t.addr, ms, next, now)
    {
      assert t.addr in model.order;
      Unlink(t);
      t.m_ms, t.m_next := ms, next;
      Follow(t);
      model := model.(clock := now);
    }

    // insert(t), with the model following.
    method Put(t: Timer) returns (it: nat)
      requires Agrees() && t.addr in table && table[t.addr] == t
      requires Known(model.recs, model.order) && t.addr !in model.order
      modifies this`m_timers, this`model
      ensures Agrees() && table == old(table)
      ensures model == old(model).(order := Insert(old(model).recs, old(model).order, t.addr))
      ensures it < |m_timers| && (it == 0 <==> model.order[0] == t.addr)
    {
      it := LowerBound(m_timers, t);
      forall i | 0 <= i < |m_timers|
        ensures m_timers[i].addr != t.addr
      {
        assert model.order[i] in model.order;
      }
      InsertAtLowerBound(model.recs, m_timers, t);
      m_timers := m_timers[..it] + [t] + m_timers[it..];
      model := model.(order := Insert(model.recs, model.order, t.addr));
    }

    method AddTimerLocked(val: Timer)
      requires Agrees() && val.addr in table && table[val.addr] == val
      requires Known(model.recs, model.order) && val.addr !in model.order
      modifies this
      ensures Agrees() && table == old(table)
      ensures model == AddLocked(old(model), val.addr)
    {
      var it := Put(val);
      var atFront := it == 0 && !m_tickled;
      if atFront { m_tickled := true; }
      // onTimerInsertdAtFront is called here when atFront holds.
      model := model.(tickled := m_tickled, hooked := model.hooked || atFront);
    }

    // A new timer joins the table and the records.
    ghost method Enrol(timer: Timer, clock: nat)
      requires Agrees() && timer.addr !in table && timer.m_manager == this
      modifies this`table, this`model
      ensures Agrees() && table == old(table)[timer.addr := timer]
      ensures model == old(model).(recs := old(model).recs[timer.addr := RecOf(timer)], clock := clock)
    {
      table := table[timer.addr := timer];
      model := model.(recs := model.recs[timer.addr := RecOf(timer)], clock := clock);
    }

    method AddTimer(addr: Addr, ms: nat, cb: Callback, recurring: bool, now: nat) returns (timer: Timer)
      requires Valid() && addr !in table
      modifies this
      ensures Valid() && fresh(timer) && timer.addr == addr && table == old(table)[addr := timer]
      ensures model == Add(old(model), addr, ms, cb, recurring, now)
      ensures timer.m_cb == Some(cb) && timer.m_ms == ms && timer.m_recurring == recurring && timer.m_next == now + ms
    {
      hide AddLocked, Insert, Sorted;
      timer := new Timer(addr, ms, cb, recurring, this, now);
      AddKeepsSet(model, addr, ms, cb, recurring, now);
      Enrol(timer, Latest(model.clock, now));
      AddTimerLocked(timer);
    }

    method GetNextTimer(now: nat) returns (wait: nat)
      requires Valid()
      modifies this`m_tickled, this`model
      ensures Valid() && table == old(table) && (model, wait) == NextTimer(old(model), now)
    {
      m_tickled := false;
      ghost var s := model;
      model := NextTimer(s, now).0;
      if m_timers == [] { return NEVER; }
      var next := m_timers[0];
      if now >= next.m_next { return 0; }
      return next.m_next - now;
    }

    method HasTimer() returns (some: bool)
      requires Valid()
      ensures some <==> exists a :: a in table && table[a].m_cb.Some?
    {
      some := m_timers != [];
      if some {
        assert m_timers[0].addr == model.order[0] && model.order[0] in model.order;
      }
    }

    method DetectClockRollover(now: nat) returns (rollover: bool)
      modifies this`m_previousTime
      ensures rollover == Rollover(old(m_previousTime), now) && m_previousTime == now
    {
      rollover := now < m_previousTime && now < Minus64(m_previousTime, HALF_DAY);
      m_previousTime := now;
    }

    // One turn of the loop over the listed timers.
    method RelistOne(timer: Timer, now: nat) returns (cb: Option<Callback>)
      requires Agrees() && Known(model.recs, model.order)
      requires timer.addr in table && table[timer.addr] == timer && timer.addr !in model.order
      modifies this`m_timers, this`model, timer`m_next, timer`m_cb
      ensures Agrees() && cb == old(timer.m_cb)
      ensures (model.recs, model.order) == RelistFirst(old(model).recs, old(model).order, timer.addr, now)
      ensures model == old(model).(recs := model.recs, order := model.order)
    {
      cb := timer.m_cb;
      if timer.m_recurring {
        timer.m_next := now + timer.m_ms;
        Follow(timer);
        var at := Put(timer);
      } else {
        timer.m_cb := None;
        Follow(timer);
      }
    }

    method RelistAll(expired: seq<Timer>, now: nat) returns (cbs: seq<Option<Callback>>)
      requires Agrees() && Known(model.recs, model.order)
      requires forall i :: 0 <= i < |expired| ==> expired[i].addr in table && table[expired[i].addr] == expired[i]
      requires Apart(model.order, Addrs(expired))
      modifies this`m_timers, this`model, expired
      ensures Agrees() && table == old(table)
      ensures var (recs, order) := Relist(old(model).recs, old(model).order, Addrs(expired), now);
        model == old(model).(recs := recs, order := order)
      ensures cbs == Callbacks(old(model).recs, Addrs(expired))
    {
      hide Pending, Relist, Callbacks, RelistFirst, Apart;
      ghost var s, ids := model, Addrs(expired);
      cbs := [];
      var i := 0;
      assert ids[0..] == ids;
      PendingStart(s.recs, s.order, ids, now);
      while i < |expired|
        invariant i <= |expired| && Agrees() && table == old(table)
        invariant model == s.(recs := model.recs, order := model.order)
        invariant Pending(model.recs, model.order, ids[i..], cbs, s.recs, s.order, ids, now)
      {
        PendingStep(model.recs, model.order, ids, i, cbs, s.recs, s.order, now);
        var timer := expired[i];
        var cb := RelistOne(timer, now);
        cbs := cbs + [cb];
        i := i + 1;
      }
      assert ids[i..] == [];
      PendingEnd(model.recs, model.order, cbs, s.recs, s.order, ids, now);
    }

    // The timers before and at a key's place.
    lemma BelowKey(key: Timer, it: nat)
      requires Agrees() && Known(model.recs, model.order) && it == LowerBound(m_timers, key)
      ensures it < |model.order| ==> model.recs[model.order[it]].next >= key.m_next
      ensures forall i :: 0 <= i < it ==> model.recs[model.order[i]].next <= key.m_next
    {
      forall i | 0 <= i < it
        ensures model.recs[model.order[i]].next <= key.m_next
      {
        assert Comparator(m_timers[i], key) && model.recs[model.order[i]] == RecOf(m_timers[i]);
      }
    }

    // The search for the first timer that is not due; the key's address does not matter.
    method FirstUndue(now: nat, probe: Addr) returns (it: nat)
      requires Valid()
      ensures it == Due(model.recs, model.order, now)
    {
      var key := new Timer.Key(probe, now);
      it := LowerBound(m_timers, key);
      ghost var recs, order := model.recs, model.order;
      BelowKey(key, it);
      while it < |m_timers| && m_timers[it].m_next == now
        invariant it <= |m_timers|
        invariant it < |order| ==> recs[order[it]].next >= now
        invariant forall i :: 0 <= i < it ==> recs[order[i]].next <= now
      {
        if it + 1 < |order| { assert Before(recs, order[it], order[it + 1]); }
        it := it + 1;
      }
      DueIs(recs, order, now, it);
    }

    // Cuts the first `it` timers off the set.
    method CutOff(it: nat) returns (expired: seq<Timer>)
      requires Agrees() && it <= |m_timers|
      modifies this`m_timers, this`model
      ensures Agrees() && model == old(model).(order := old(model).order[it..])
      ensures Addrs(expired) == old(model).order[..it]
      ensures forall i :: 0 <= i < |expired| ==> expired[i].addr in table && table[expired[i].addr] == expired[i]
    {
      expired := m_timers[..it];
      m_timers := m_timers[it..];
      model := model.(order := model.order[it..]);
    }

    method ListExpiredCb(now: nat, probe: Addr) returns (cbs: seq<Option<Callback>>)
      requires Valid()
      modifies this, table.Values
      ensures Valid() && table == old(table)
      ensures model == Expire(old(model), now).0
      ensures cbs == Callbacks(old(model).recs, Expire(old(model), now).1)
    {
      ghost var s := model;
      ExpireExact(s, now);
      if m_timers == [] { return []; }
      var first := m_timers[0];
      var rollover := DetectClockRollover(now);
      model := s.(previous := now, clock := Latest(s.clock, now));
      if !rollover && first.m_next > now { return []; }
      ExpireParts(s, now);
      cbs := ListDue(rollover, now, probe);
      assert model == Expire(s, now).0;
    }

    method ListDue(rollover: bool, now: nat, probe: Addr) returns (cbs: seq<Option<Callback>>)
      requires Valid()
      modifies this, table.Values
      ensures Agrees() && table == old(table)
      ensures var s, k := old(model), if rollover then |old(model).order| else Due(old(model).recs,
        old(model).order, now);
        var r := Relist(s.recs, s.order[k..], s.order[..k], now);
        model == s.(recs := r.0, order := r.1) && cbs == Callbacks(s.recs, s.order[..k])
    {
      ghost var s := model;
      var it := |m_timers|;
      if !rollover { it := FirstUndue(now, probe); }
      SortedSplit(s.recs, s.order, it);
      ghost var ids, left := s.order[..it], s.order[it..];
      var expired := CutOff(it);
      assert Addrs(expired) == ids && model == s.(order := left);
      ghost var r := Relist(s.recs, left, ids, now);
      forall t | t in expired ensures t in table.Values {
        assert table[t.addr] == t;
      }
      cbs := RelistAll(expired, now);
      assert model == s.(recs := r.0, order := r.1);
    }
  }

  // Expiry, past its early returns.
  lemma ExpireParts(s: State, now: nat)
    requires SetInv(s.recs, s.order)
    requires s.order != [] && (Rollover(s.previous, now) || s.recs[s.order[0]].next <= now)
    ensures var k := DueCount(s, now);
      var (recs, order) := Relist(s.recs, s.order[k..], s.order[..k], now);
      Expire(s, now) == (s.(previous := now, clock := Latest(s.clock, now)).(recs := recs, order := order),
        s.order[..k])
  {
  }

  // The number of due timers, from what the search finds.
  lemma {:induction false} DueIs(recs: map<Addr, Rec>, order: seq<Addr>, now: nat, it: nat)
    requires Known(recs, order) && it <= |order|
    requires forall i :: 0 <= i < it ==> recs[order[i]].next <= now
    requires it < |order| ==> recs[order[it]].next > now
    ensures Due(recs, order, now) == it
  {
    if it > 0 { DueIs(recs, order[1..], now, it - 1); }
  }

  // Different timers, none in the set.
  ghost predicate Apart(order: seq<Addr>, ts: seq<Addr>) {
    && (forall i :: 0 <= i < |ts| ==> ts[i] !in order)
    && (forall i, j :: 0 <= i < j < |ts| ==> ts[i] != ts[j])
  }

  // The loop over `all` has `rest` left, and has collected cbs.
  ghost predicate Pending(recs: map<Addr, Rec>, order: seq<Addr>, rest: seq<Addr>, cbs: seq<Option<Callback>>,
                          recs0: map<Addr, Rec>, order0: seq<Addr>, all: seq<Addr>, now: nat)
    requires Known(recs0, order0) && Known(recs0, all)
  {
    && Known(recs, order) && Known(recs, rest) && Apart(order, rest)
    && Relist(recs, order, rest, now) == Relist(recs0, order0, all, now)
    && cbs + Callbacks(recs, rest) == Callbacks(recs0, all)
  }

  lemma PendingStart(recs: map<Addr, Rec>, order: seq<Addr>, all: seq<Addr>, now: nat)
    requires Known(recs, order) && Known(recs, all) && Apart(order, all)
    ensures Pending(recs, order, all, [], recs, order, all, now)
  {
  }

  lemma PendingEnd(recs: map<Addr, Rec>, order: seq<Addr>, cbs: seq<Option<Callback>>,
                   recs0: map<Addr, Rec>, order0: seq<Addr>, all: seq<Addr>, now: nat)
    requires Known(recs0, order0) && Known(recs0, all) && Pending(recs, order, [], cbs, recs0, order0, all, now)
    ensures (recs, order) == Relist(recs0, order0, all, now) && cbs == Callbacks(recs0, all)
  {
  }

  // One turn of Relist.
  ghost function RelistFirst(recs: map<Addr, Rec>, order: seq<Addr>, t: Addr, now: nat): (r: (map<Addr, Rec>,
    seq<Addr>))
    requires Known(recs, order) && t in recs
  {
    var recs' := recs[t := Listed(recs[t], now)];
    (recs', if recs[t].recurring then Insert(recs', order, t) else order)
  }

  lemma RelistCons(recs: map<Addr, Rec>, order: seq<Addr>, t: Addr, ts: seq<Addr>, now: nat)
    requires Known(recs, order) && t in recs && Known(recs, ts)
    requires forall i :: 0 <= i < |ts| ==> ts[i] != t
    ensures var (recs', order') := RelistFirst(recs, order, t, now);
      && Known(recs', order') && Known(recs', ts)
      && Relist(recs, order, [t] + ts, now) == Relist(recs', order', ts, now)
      && Callbacks(recs, [t] + ts) == [recs[t].cb] + Callbacks(recs', ts)
      && (forall u :: u in order' ==> u in order || u == t)
  {
    assert ([t] + ts)[1..] == ts;
    var recs' := recs[t := Listed(recs[t], now)];
    CallbacksFrame(recs, recs', ts);
    InsertMembers(recs', order, t);
  }

  lemma PendingStep(recs: map<Addr, Rec>, order: seq<Addr>, all: seq<Addr>, i: nat, cbs: seq<Option<Callback>>,
                    recs0: map<Addr, Rec>, order0: seq<Addr>, now: nat)
    requires Known(recs0, order0) && Known(recs0, all) && i < |all|
    requires Pending(recs, order, all[i..], cbs, recs0, order0, all, now)
    ensures Known(recs, order) && all[i] in recs && all[i] !in order
    ensures var (recs', order') := RelistFirst(recs, order, all[i], now);
      Pending(recs', order', all[i + 1..], cbs + [recs[all[i]].cb], recs0, order0, all, now)
  {
    var t, rest, ts := all[i], all[i + 1..], all[i..];
    assert ts == [t] + rest;
    assert ts[0] == t && forall k :: 0 <= k < |rest| ==> rest[k] == ts[k + 1];
    RelistCons(recs, order, t, rest, now);
  }

  lemma {:induction false} InsertMembers(recs: map<Addr, Rec>, order: seq<Addr>, t: Addr)
    requires Known(recs, order) && t in recs
    ensures forall u :: u in Insert(recs, order, t) <==> u == t || u in order
  {
    if order != [] && !Before(recs, t, order[0]) { InsertMembers(recs, order[1..], t); }
  }

  lemma {:induction false} CallbacksFrame(recs: map<Addr, Rec>, recs': map<Addr, Rec>, ts: seq<Addr>)
    requires Known(recs, ts) && Known(recs', ts)
    requires forall i :: 0 <= i < |ts| ==> recs'[ts[i]] == recs[ts[i]]
    ensures Callbacks(recs', ts) == Callbacks(recs, ts)
  {
    if ts != [] { CallbacksFrame(recs, recs', ts[1..]); }
  }
}
