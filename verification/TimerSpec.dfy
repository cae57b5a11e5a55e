/** The timer manager as a state machine: an ordered set of timers keyed by a deadline that
    changes, under a clock that is an input.  A timer is known by its address, which
    breaks ties between deadlines. */
module TimerSpec {
  import opened Options

  type Addr = nat
  type Callback = nat

  datatype Rec = Rec(ms: nat, cb: Option<Callback>, recurring: bool, next: nat)

  /** `order` is the set, first deadline first.  The last three fields record what happened:
      the deadline last reported to the waiting thread (None when it may wait for ever),
      whether the front-insertion hook was called since, and the clock's last reading. */
  datatype State = State(
    recs: map<Addr, Rec>, order: seq<Addr>, tickled: bool, previous: nat,
    reported: Option<nat>, hooked: bool, clock: nat)

  // A manager just made.
  function Start(now: nat): State {
    State(map[], [], false, now, None, false, now)
  }

  const NEVER: nat := 0xFFFF_FFFF_FFFF_FFFF
  const HALF_DAY: nat := 1000 * 60 * 60 * 12

  // --- the ordered set ---------------------------------------------------------------------

  /** The comparator: by deadline, then by address. */
  predicate Less(m: nat, a: Addr, n: nat, b: Addr) {
    m < n || (m == n && a < b)
  }

  predicate Before(recs: map<Addr, Rec>, a: Addr, b: Addr)
    requires a in recs && b in recs
  {
    Less(recs[a].next, a, recs[b].next, b)
  }

  predicate Known(recs: map<Addr, Rec>, order: seq<Addr>) {
    forall i :: 0 <= i < |order| ==> order[i] in recs
  }

  predicate Sorted(recs: map<Addr, Rec>, order: seq<Addr>)
    requires Known(recs, order)
  {
    forall i, j :: 0 <= i < j < |order| ==> Before(recs, order[i], order[j])
  }

  function Insert(recs: map<Addr, Rec>, order: seq<Addr>, t: Addr): (r: seq<Addr>)
    requires Known(recs, order) && t in recs
    ensures |r| == |order| + 1 && Known(recs, r)
  {
    if order == [] || Before(recs, t, order[0]) then [t] + order
    else [order[0]] + Insert(recs, order[1..], t)
  }

  function Erase(order: seq<Addr>, t: Addr): (r: seq<Addr>)
    ensures forall i :: 0 <= i < |r| ==> r[i] in order
  {
    if order == [] then [] else if order[0] == t then order[1..] else [order[0]] + Erase(order[1..], t)
  }

  /** What is always true of the set. */
  ghost predicate SetInv(recs: map<Addr, Rec>, order: seq<Addr>) {
    && Known(recs, order)
    && Sorted(recs, order)
    && (forall t :: t in order <==> t in recs && recs[t].cb.Some?)
    && (forall t :: t in recs ==> recs[t].ms <= recs[t].next)
  }

  lemma {:induction false} InsertSorted(recs: map<Addr, Rec>, order: seq<Addr>, t: Addr)
    requires Known(recs, order) && Sorted(recs, order) && t in recs && t !in order
    ensures Sorted(recs, Insert(recs, order, t))
    ensures forall u :: u in Insert(recs, order, t) <==> u == t || u in order
    ensures Insert(recs, order, t)[0] == if order == [] || Before(recs, t, order[0]) then t else order[0]
  {
    if order == [] || Before(recs, t, order[0]) {
      assert Insert(recs, order, t) == [t] + order;
    } else {
      var tail := order[1..];
      assert order == [order[0]] + tail;
      InsertSorted(recs, tail, t);
      var r := Insert(recs, tail, t);
      forall j | 0 <= j < |r|
        ensures Before(recs, order[0], r[j])
      {
        assert r[j] in r;
      }
    }
  }

  lemma {:induction false} EraseSorted(recs: map<Addr, Rec>, order: seq<Addr>, t: Addr)
    requires Known(recs, order) && Sorted(recs, order)
    ensures Known(recs, Erase(order, t)) && Sorted(recs, Erase(order, t))
    ensures forall u :: u in Erase(order, t) <==> u in order && u != t
    ensures Erase(order, t) != [] ==> order != [] && !Before(recs, Erase(order, t)[0], order[0])
  {
    if order != [] {
      var tail := order[1..];
      assert order == [order[0]] + tail;
      EraseSorted(recs, tail, t);
      assert forall u :: u in tail ==> Before(recs, order[0], u);
    }
  }

  lemma SortedTail(recs: map<Addr, Rec>, order: seq<Addr>)
    requires Known(recs, order) && Sorted(recs, order) && order != []
    ensures forall t :: t in order[1..] <==> t in order && t != order[0]
    ensures forall t :: t in order[1..] ==> t in recs && Before(recs, order[0], t)
  {
    assert order == [order[0]] + order[1..];
  }

  /** Two sorted listings of the same timers are the same: the set determines the order. */
  lemma {:induction false} SortedUnique(recs: map<Addr, Rec>, a: seq<Addr>, b: seq<Addr>)
    requires Known(recs, a) && Known(recs, b) && Sorted(recs, a) && Sorted(recs, b)
    requires forall t :: t in a <==> t in b
    ensures a == b
  {
    assert b != [] ==> b[0] in b;
    if a != [] {
      assert a[0] in b && b != [] && b[0] in a;
      assert a[0] == b[0];
      SortedTail(recs, a);
      SortedTail(recs, b);
      SortedUnique(recs, a[1..], b[1..]);
    }
  }

  // Inserting at a place behind the smaller ones and before a larger one.
  lemma {:induction false} InsertAt(recs: map<Addr, Rec>, order: seq<Addr>, t: Addr, i: nat)
    requires Known(recs, order) && t in recs && i <= |order|
    requires forall k :: 0 <= k < i ==> Before(recs, order[k], t)
    requires i < |order| ==> Before(recs, t, order[i])
    ensures Insert(recs, order, t) == order[..i] + [t] + order[i..]
  {
    if i > 0 {
      InsertAt(recs, order[1..], t, i - 1);
    }
  }

  lemma {:induction false} EraseAt(order: seq<Addr>, i: nat)
    requires i < |order| && forall k :: 0 <= k < i ==> order[k] != order[i]
    ensures Erase(order, order[i]) == order[..i] + order[i + 1..]
  {
    if i > 0 {
      EraseAt(order[1..], i - 1);
    }
  }

  // Sorting depends on the deadlines of the listed timers only.
  lemma SortedFrame(recs: map<Addr, Rec>, recs': map<Addr, Rec>, order: seq<Addr>)
    requires Known(recs, order) && Sorted(recs, order)
    requires forall t :: t in order ==> t in recs' && recs'[t].next == recs[t].next
    ensures Known(recs', order) && Sorted(recs', order)
  {
    forall i | 0 <= i < |order|
      ensures order[i] in recs' && recs'[order[i]].next == recs[order[i]].next
    {
      assert order[i] in order;
    }
  }

  // --- the operations ------------------------------------------------------------------------

  // A reading taken before the lock may be older than the last one.
  function Latest(clock: nat, now: nat): nat {
    if now > clock then now else clock
  }

  // The locked insertion that may ask for a wake-up.
  function AddLocked(s: State, t: Addr): State
    requires Known(s.recs, s.order) && t in s.recs
  {
    var order := Insert(s.recs, s.order, t);
    var atFront := order[0] == t && !s.tickled;
    s.(order := order, tickled := s.tickled || atFront, hooked := s.hooked || atFront)
  }

  function Add(s: State, t: Addr, ms: nat, cb: Callback, recurring: bool, now: nat): State
    requires Known(s.recs, s.order) && t !in s.recs
  {
    AddLocked(s.(recs := s.recs[t := Rec(ms, Some(cb), recurring, now + ms)], clock := Latest(s.clock, now)), t)
  }

  function Cancel(s: State, t: Addr): (State, bool)
    requires t in s.recs
  {
    if s.recs[t].cb.Some? then
      (s.(recs := s.recs[t := s.recs[t].(cb := None)], order := Erase(s.order, t)), true)
    else (s, false)
  }

  function Refresh(s: State, t: Addr, now: nat): (State, bool)
    requires t in s.recs && Known(s.recs, s.order)
  {
    if s.recs[t].cb.Some? then
      var recs := s.recs[t := s.recs[t].(next := now + s.recs[t].ms)];
      (s.(recs := recs, order := Insert(recs, Erase(s.order, t), t), clock := now), true)
    else (s, false)
  }

  function Reset(s: State, t: Addr, ms: nat, fromNow: bool, now: nat): (State, bool)
    requires t in s.recs && Known(s.recs, s.order) && s.recs[t].ms <= s.recs[t].next
  {
    var r := s.recs[t];
    if ms == r.ms && !fromNow then (s, true)
    else if r.cb.None? then (s, false)
    else
      var start := if fromNow then now else r.next - r.ms;
      var recs := s.recs[t := r.(ms := ms, next := start + ms)];
      var s' := s.(recs := recs, order := Erase(s.order, t), clock := if fromNow then now else s.clock);
      (AddLocked(s', t), true)
  }

  function NextTimer(s: State, now: nat): (State, nat)
    requires Known(s.recs, s.order)
  {
    if s.order == [] then (s.(tickled := false, hooked := false, reported := None), NEVER)
    else
      var next := s.recs[s.order[0]].next;
      (s.(tickled := false, hooked := false, reported := Some(next), clock := now),
       if now >= next then 0 else next - now)
  }

  // Subtraction of 64-bit unsigned numbers.
  function Minus64(a: nat, b: nat): nat
    requires b <= NEVER
  {
    if a >= b then a - b else a + (NEVER + 1) - b
  }

  predicate Rollover(previous: nat, now: nat) {
    now < previous && now < Minus64(previous, HALF_DAY)
  }

  /** In 64 bits the half day is taken off around zero: any step back counts as a rollover while
      the earlier reading is within half a day of zero, and later only one by more than half a
      day does. */
  lemma RolloverIs(previous: nat, now: nat)
    requires previous <= NEVER
    ensures Rollover(previous, now) <==> now < previous && (previous < 43_200_000 || previous - now > 43_200_000)
  {
  }

  /** How many timers, from the front, are due. */
  function Due(recs: map<Addr, Rec>, order: seq<Addr>, now: nat): (k: nat)
    requires Known(recs, order)
    ensures k <= |order|
  {
    if order == [] || recs[order[0]].next > now then 0 else 1 + Due(recs, order[1..], now)
  }

  function Callbacks(recs: map<Addr, Rec>, ts: seq<Addr>): (cbs: seq<Option<Callback>>)
    requires Known(recs, ts)
    ensures |cbs| == |ts| && forall i :: 0 <= i < |ts| ==> cbs[i] == recs[ts[i]].cb
  {
    if ts == [] then [] else [recs[ts[0]].cb] + Callbacks(recs, ts[1..])
  }

  /** The record of a timer after it was listed. */
  function Listed(r: Rec, now: nat): Rec {
    if r.recurring then r.(next := now + r.ms) else r.(cb := None)
  }

  // The loop over the listed timers: recurring ones go back in, the others are dropped.
  function Relist(recs: map<Addr, Rec>, order: seq<Addr>, ts: seq<Addr>, now: nat): (r: (map<Addr, Rec>, seq<Addr>))
    requires Known(recs, order) && Known(recs, ts)
    ensures r.0.Keys == recs.Keys && Known(r.0, r.1)
    decreases |ts|
  {
    if ts == [] then (recs, order)
    else
      var t := ts[0];
      var recs' := recs[t := Listed(recs[t], now)];
      Relist(recs', if recs[t].recurring then Insert(recs', order, t) else order, ts[1..], now)
  }

  /** Gives the new state and the timers listed, in the order of their callbacks. */
  function Expire(s: State, now: nat): (State, seq<Addr>)
    requires Known(s.recs, s.order)
  {
    if s.order == [] then (s, [])
    else
      var rollover := Rollover(s.previous, now);
      var s' := s.(previous := now, clock := Latest(s.clock, now));
      if !rollover && s.recs[s.order[0]].next > now then (s', [])
      else
        var k := if rollover then |s.order| else Due(s.recs, s.order, now);
        var (recs, order) := Relist(s.recs, s.order[k..], s.order[..k], now);
        (s'.(recs := recs, order := order), s.order[..k])
  }
}
