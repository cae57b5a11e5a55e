/** What every operation of the timer manager keeps, and what follows over whole runs. */
module TimerRuns {
  import opened Options
  import opened TimerSpec

  datatype Op =
    | OpAdd(t: Addr, ms: nat, cb: Callback, recurring: bool, now: nat)
    | OpCancel(t: Addr)
    | OpRefresh(t: Addr, now: nat)
    | OpReset(t: Addr, ms: nat, fromNow: bool, now: nat)
    | OpNext(now: nat)
    | OpExpire(now: nat)

  // A new timer is at an address of its own; the others are called on timers that exist.
  predicate Enabled(s: State, op: Op) {
    match op
    case OpAdd(t, _, _, _, _) => t !in s.recs
    case OpCancel(t) => t in s.recs
    case OpRefresh(t, _) => t in s.recs
    case OpReset(t, _, _, _) => t in s.recs
    case _ => true
  }

  /** The state after an operation, and the timers whose callbacks it listed. */
  function Step(s: State, op: Op): (State, seq<Addr>)
    requires SetInv(s.recs, s.order) && Enabled(s, op)
  {
    match op
    case OpAdd(t, ms, cb, recurring, now) => (Add(s, t, ms, cb, recurring, now), [])
    case OpCancel(t) => (Cancel(s, t).0, [])
    case OpRefresh(t, now) => (Refresh(s, t, now).0, [])
    case OpReset(t, ms, fromNow, now) => (Reset(s, t, ms, fromNow, now).0, [])
    case OpNext(now) => (NextTimer(s, now).0, [])
    case OpExpire(now) => Expire(s, now)
  }

  // --- the set ---------------------------------------------------------------------------------

  // The set with one live timer taken out.
  ghost predicate Without(recs: map<Addr, Rec>, order: seq<Addr>, t: Addr) {
    && Known(recs, order) && Sorted(recs, order)
    && t in recs && recs[t].cb.Some? && t !in order
    && (forall u :: u in order <==> u != t && u in recs && recs[u].cb.Some?)
    && (forall u :: u in recs ==> recs[u].ms <= recs[u].next)
  }

  lemma InsertKeeps(recs: map<Addr, Rec>, order: seq<Addr>, t: Addr)
    requires Without(recs, order, t)
    ensures SetInv(recs, Insert(recs, order, t))
  {
    InsertSorted(recs, order, t);
  }

  // Taking a live timer out and changing it.
  lemma EraseLive(recs: map<Addr, Rec>, order: seq<Addr>, t: Addr, r: Rec)
    requires SetInv(recs, order) && t in recs && r.cb.Some? && r.ms <= r.next
    ensures Without(recs[t := r], Erase(order, t), t)
  {
    EraseSorted(recs, order, t);
    SortedFrame(recs, recs[t := r], Erase(order, t));
  }

  lemma {:induction false} DuePrefix(recs: map<Addr, Rec>, order: seq<Addr>, now: nat)
    requires Known(recs, order) && Sorted(recs, order)
    ensures forall i :: 0 <= i < |order| ==> (i < Due(recs, order, now) <==> recs[order[i]].next <= now)
  {
    if order != [] && recs[order[0]].next <= now {
      DuePrefix(recs, order[1..], now);
      assert forall i :: 1 <= i < |order| ==> order[i] == order[1..][i - 1];
    }
  }

  /** The loop over the listed timers changes exactly their records, and puts back exactly the
      recurring ones, in order. */
  lemma {:induction false} RelistExact(recs: map<Addr, Rec>, order: seq<Addr>, ts: seq<Addr>, now: nat)
    requires Known(recs, order) && Sorted(recs, order) && Known(recs, ts)
    requires forall i, j :: 0 <= i < j < |ts| ==> ts[i] != ts[j]
    requires forall t :: t in ts ==> t !in order
    ensures var (recs', order') := Relist(recs, order, ts, now);
      && (forall t :: t in recs ==> recs'[t] == if t in ts then Listed(recs[t], now) else recs[t])
      && Sorted(recs', order')
      && (forall t :: t in order' <==> t in order || (t in ts && recs[t].recurring))
    decreases |ts|
  {
    if ts != [] {
      var t := ts[0];
      assert ts == [t] + ts[1..];
      var recs1 := recs[t := Listed(recs[t], now)];
      SortedFrame(recs, recs1, order);
      var order1 := order;
      if recs[t].recurring {
        InsertSorted(recs1, order, t);
        order1 := Insert(recs1, order, t);
      }
      assert t !in ts[1..];
      RelistExact(recs1, order1, ts[1..], now);
    }
  }

  // Which timers an expiry lists.
  ghost predicate IsDue(s: State, now: nat, t: Addr) {
    t in s.order && t in s.recs && (Rollover(s.previous, now) || s.recs[t].next <= now)
  }

  // The prefix that an expiry lists.
  function DueCount(s: State, now: nat): (k: nat)
    requires Known(s.recs, s.order)
    ensures k <= |s.order|
  {
    if Rollover(s.previous, now) then |s.order| else Due(s.recs, s.order, now)
  }

  lemma DueExact(s: State, now: nat)
    requires SetInv(s.recs, s.order)
    ensures var k := DueCount(s, now);
      && Expire(s, now).1 == s.order[..k]
      && (forall t :: t in s.order[..k] <==> IsDue(s, now, t))
      && (forall t :: t in s.order[k..] <==> t in s.order && !IsDue(s, now, t))
  {
    var k := DueCount(s, now);
    DuePrefix(s.recs, s.order, now);
    assert s.order == s.order[..k] + s.order[k..];
  }

  // Splitting a sorted listing.
  lemma SortedSplit(recs: map<Addr, Rec>, order: seq<Addr>, k: nat)
    requires Known(recs, order) && Sorted(recs, order) && k <= |order|
    ensures Known(recs, order[..k]) && Sorted(recs, order[..k])
    ensures Known(recs, order[k..]) && Sorted(recs, order[k..])
    ensures forall i, j :: 0 <= i < j < k ==> order[..k][i] != order[..k][j]
    ensures forall t :: t in order[..k] ==> t !in order[k..]
  {
  }

  lemma ExpireRelists(s: State, now: nat)
    requires SetInv(s.recs, s.order)
    ensures var (s', ts) := Expire(s, now);
      (s'.recs, s'.order) == Relist(s.recs, s.order[|ts|..], ts, now) && |ts| <= |s.order| && ts == s.order[..|ts|]
  {
    DueExact(s, now);
  }

  /** Expiry lists exactly the timers that are due (all of them when the clock went back by more
      than half a day), first deadline first; it drops those that fire once, puts the
      recurring ones back one period after now, and leaves all others as they were. */
  lemma ExpireExact(s: State, now: nat)
    requires SetInv(s.recs, s.order)
    ensures var (s', ts) := Expire(s, now);
      && (forall t :: t in ts <==> IsDue(s, now, t))
      && Known(s.recs, ts) && Sorted(s.recs, ts)
      && s'.recs.Keys == s.recs.Keys
      && (forall t :: t in s.recs ==> s'.recs[t] == if t in ts then Listed(s.recs[t], now) else s.recs[t])
      && SetInv(s'.recs, s'.order)
  {
    var k := DueCount(s, now);
    DueExact(s, now);
    ExpireRelists(s, now);
    SortedSplit(s.recs, s.order, k);
    RelistExact(s.recs, s.order[k..], s.order[..k], now);
  }

  lemma AddKeepsSet(s: State, t: Addr, ms: nat, cb: Callback, recurring: bool, now: nat)
    requires SetInv(s.recs, s.order) && t !in s.recs
    ensures var s' := Add(s, t, ms, cb, recurring, now); SetInv(s'.recs, s'.order)
  {
    var recs := s.recs[t := Rec(ms, Some(cb), recurring, now + ms)];
    SortedFrame(s.recs, recs, s.order);
    InsertKeeps(recs, s.order, t);
  }

  lemma CancelKeepsSet(s: State, t: Addr)
    requires SetInv(s.recs, s.order) && t in s.recs
    ensures var s' := Cancel(s, t).0; SetInv(s'.recs, s'.order)
  {
    EraseSorted(s.recs, s.order, t);
    SortedFrame(s.recs, s.recs[t := s.recs[t].(cb := None)], Erase(s.order, t));
  }

  lemma RefreshKeepsSet(s: State, t: Addr, now: nat)
    requires SetInv(s.recs, s.order) && t in s.recs
    ensures var s' := Refresh(s, t, now).0; SetInv(s'.recs, s'.order)
  {
    var r := s.recs[t].(next := now + s.recs[t].ms);
    if r.cb.Some? {
      EraseLive(s.recs, s.order, t, r);
      var recs, order := s.recs[t := r], Erase(s.order, t);
      InsertKeeps(recs, order, t);
      assert Refresh(s, t, now).0.recs == recs && Refresh(s, t, now).0.order == Insert(recs, order, t);
    }
  }

  // The record that reset leaves.
  function ResetRec(r: Rec, ms: nat, fromNow: bool, now: nat): Rec
    requires r.ms <= r.next
  {
    r.(ms := ms, next := (if fromNow then now else r.next - r.ms) + ms)
  }

  lemma ResetKeepsSet(s: State, t: Addr, ms: nat, fromNow: bool, now: nat)
    requires SetInv(s.recs, s.order) && t in s.recs
    ensures var s' := Reset(s, t, ms, fromNow, now).0; SetInv(s'.recs, s'.order)
  {
    var r := ResetRec(s.recs[t], ms, fromNow, now);
    if r.cb.Some? && !(ms == s.recs[t].ms && !fromNow) {
      EraseLive(s.recs, s.order, t, r);
      InsertKeeps(s.recs[t := r], Erase(s.order, t), t);
    }
  }

  /** Whatever the clock does, the set stays strictly ordered and holds exactly the timers that
      have a callback. */
  lemma StepKeepsSet(s: State, op: Op)
    requires SetInv(s.recs, s.order) && Enabled(s, op)
    ensures SetInv(Step(s, op).0.recs, Step(s, op).0.order)
  {
    match op
    case OpAdd(t, ms, cb, recurring, now) => AddKeepsSet(s, t, ms, cb, recurring, now);
    case OpCancel(t) => CancelKeepsSet(s, t);
    case OpRefresh(t, now) => RefreshKeepsSet(s, t, now);
    case OpReset(t, ms, fromNow, now) => ResetKeepsSet(s, t, ms, fromNow, now);
    case OpNext(now) =>
    case OpExpire(now) => ExpireExact(s, now);
  }

  // --- no lost wake-up ---------------------------------------------------------------------------

  // A deadline earlier than the one last reported.
  predicate Earlier(next: nat, reported: Option<nat>) {
    reported.None? || next < reported.value
  }

  /** Whenever some timer is due earlier than the waiting thread was told, the thread has been
      asked to wake up since it was told, and the flag says so. */
  ghost predicate WakeInv(s: State) {
    && s.tickled == s.hooked
    && (forall t :: t in s.order && t in s.recs && Earlier(s.recs[t].next, s.reported) ==> s.tickled && s.hooked)
  }

  /** The clock has not gone back: no timer was started, and no rollover looked for, after its
      last reading. */
  ghost predicate ClockInv(s: State) {
    && s.previous <= s.clock
    && (forall t :: t in s.recs ==> s.recs[t].ms <= s.recs[t].next <= s.clock + s.recs[t].ms)
  }

  ghost predicate Inv(s: State) {
    SetInv(s.recs, s.order) && ClockInv(s) && WakeInv(s)
  }

  /** The clock has not gone back.  What reads it under the lock reads it no earlier than the
      operations before; adding and listing read it before they take the lock, and may come with
      an older reading, but not one so old that it passes for a rollover. */
  predicate Monotone(s: State, op: Op) {
    match op
    case OpAdd(_, _, _, _, _) => true
    case OpRefresh(_, now) => s.clock <= now
    case OpReset(_, _, _, now) => s.clock <= now
    case OpNext(now) => s.clock <= now
    case OpExpire(now) => !Rollover(s.previous, now)
    case OpCancel(_) => true
  }

  lemma StepKeepsClock(s: State, op: Op)
    requires Inv(s) && Enabled(s, op) && Monotone(s, op)
    ensures ClockInv(Step(s, op).0)
  {
    if op.OpExpire? { ExpireExact(s, op.now); }
  }

  // An insertion that does not come first is behind a timer that is as early.
  lemma AddLockedWakes(s: State, t: Addr)
    requires Without(s.recs, s.order, t)
    requires WakeInv(s)
    ensures WakeInv(AddLocked(s, t))
  {
    InsertSorted(s.recs, s.order, t);
    var s' := AddLocked(s, t);
    if s'.order[0] != t {
      assert s'.order[0] == s.order[0] && s.order[0] in s.order;
    }
  }

  // Deadlines that only move later need no wake-up.
  lemma LaterKeepsWake(s: State, s': State)
    requires WakeInv(s) && SetInv(s.recs, s.order)
    requires (s'.tickled, s'.hooked, s'.reported) == (s.tickled, s.hooked, s.reported)
    requires forall t :: t in s'.order ==>
      t in s.order && t in s.recs && t in s'.recs && s.recs[t].next <= s'.recs[t].next
    ensures WakeInv(s')
  {
  }

  lemma RefreshedOrder(s: State, t: Addr, now: nat)
    requires SetInv(s.recs, s.order) && t in s.recs && s.recs[t].cb.Some?
    ensures forall u :: u in Refresh(s, t, now).0.order ==> u in s.order
  {
    var r := s.recs[t].(next := now + s.recs[t].ms);
    EraseLive(s.recs, s.order, t, r);
    InsertSorted(s.recs[t := r], Erase(s.order, t), t);
  }

  // Refreshing bypasses the insertion that checks: a deadline only moves later.
  lemma RefreshKeepsWake(s: State, t: Addr, now: nat)
    requires SetInv(s.recs, s.order) && WakeInv(s)
    requires t in s.recs && s.recs[t].next <= now + s.recs[t].ms
    ensures WakeInv(Refresh(s, t, now).0)
  {
    if s.recs[t].cb.Some? {
      RefreshedOrder(s, t, now);
      LaterKeepsWake(s, Refresh(s, t, now).0);
    }
  }

  /** With any clock, refreshing a live timer keeps the wake-ups exactly when one was asked for
      already or the new deadline is no earlier than the one the waiting thread was told. */
  lemma RefreshKeepsWakeIff(s: State, t: Addr, now: nat)
    requires SetInv(s.recs, s.order) && WakeInv(s) && t in s.recs && s.recs[t].cb.Some?
    ensures WakeInv(Refresh(s, t, now).0) <==> s.tickled || !Earlier(now + s.recs[t].ms, s.reported)
  {
    var r := s.recs[t].(next := now + s.recs[t].ms);
    EraseLive(s.recs, s.order, t, r);
    InsertSorted(s.recs[t := r], Erase(s.order, t), t);
    var s' := Refresh(s, t, now).0;
    assert t in s'.order && s'.recs[t] == r;
  }

  /** It does lose a wake-up when the clock went back: a deadline moves before the reported one
      with the flag down. */
  lemma RefreshAfterClockBack()
    ensures var s1 := Add(Start(0), 0, 100, 7, false, 1000);
      var s2 := NextTimer(s1, 1000).0;
      var s3 := Refresh(s2, 0, 900).0;
      Inv(s2) && s3.order == [0] && s3.recs[0].next == 1000 && s3.reported == Some(1100) && !s3.tickled
  {
    StepKeeps(Start(0), OpAdd(0, 100, 7, false, 1000));
    var s1 := Add(Start(0), 0, 100, 7, false, 1000);
    StepKeeps(s1, OpNext(1000));
  }

  lemma ResetKeepsWake(s: State, t: Addr, ms: nat, fromNow: bool, now: nat)
    requires Inv(s) && t in s.recs
    ensures WakeInv(Reset(s, t, ms, fromNow, now).0)
  {
    var r := ResetRec(s.recs[t], ms, fromNow, now);
    if r.cb.Some? && !(ms == s.recs[t].ms && !fromNow) {
      EraseLive(s.recs, s.order, t, r);
      AddLockedWakes(s.(recs := s.recs[t := r], order := Erase(s.order, t),
        clock := if fromNow then now else s.clock), t);
    }
  }

  lemma ExpireKeepsWake(s: State, now: nat)
    requires Inv(s) && !Rollover(s.previous, now)
    ensures WakeInv(Expire(s, now).0)
  {
    ExpireExact(s, now);
    LaterKeepsWake(s, Expire(s, now).0);
  }

  /** With any clock, expiry keeps the wake-ups exactly when one was asked for already or no
      recurring timer that it lists comes back earlier than the waiting thread was told. */
  lemma ExpireKeepsWakeIff(s: State, now: nat)
    requires SetInv(s.recs, s.order) && WakeInv(s)
    ensures WakeInv(Expire(s, now).0) <==>
      s.tickled || forall t :: IsDue(s, now, t) && s.recs[t].recurring ==> !Earlier(now + s.recs[t].ms, s.reported)
  {
    ExpireExact(s, now);
    var s' := Expire(s, now).0;
    forall t | IsDue(s, now, t) && s.recs[t].recurring
      ensures t in s'.order && s'.recs[t].next == now + s.recs[t].ms
    {
      assert t in s.order && t in Expire(s, now).1;
    }
  }

  /** A reading of the clock that is older than the last rollover test can pass for a rollover while
      the clock is within half a day of zero: a recurring timer is listed at once and comes back
      before the reported deadline, with the flag down. */
  lemma ExpireAfterStaleReading()
    ensures var s1 := Add(Start(1000), 0, 100, 7, true, 1000);
      var s2 := NextTimer(s1, 1000).0;
      var s3 := Expire(s2, 999).0;
      Inv(s2) && s3.order == [0] && s3.recs[0].next == 1099 && s3.reported == Some(1100) && !s3.tickled
  {
    StepKeeps(Start(1000), OpAdd(0, 100, 7, true, 1000));
    var s1 := Add(Start(1000), 0, 100, 7, true, 1000);
    StepKeeps(s1, OpNext(1000));
    var s2 := NextTimer(s1, 1000).0;
    assert s2.order == [0] && DueCount(s2, 999) == 1;
    assert s2.order[1..] == [] && s2.order[..1] == [0];
  }

  /** A clock that has not gone back never passes for a rollover. */
  lemma NoRollover(s: State, now: nat)
    requires ClockInv(s) && s.clock <= now
    ensures !Rollover(s.previous, now)
  {
  }

  lemma NextKeepsWake(s: State, now: nat)
    requires Inv(s)
    ensures WakeInv(NextTimer(s, now).0)
  {
    if s.order != [] { SortedTail(s.recs, s.order); }
  }

  /** No wake-up is lost: the invariant is kept by every operation under a clock that does not
      go back. */
  lemma StepKeeps(s: State, op: Op)
    requires Inv(s) && Enabled(s, op) && Monotone(s, op)
    ensures Inv(Step(s, op).0)
  {
    StepKeepsSet(s, op);
    StepKeepsClock(s, op);
    match op
    case OpAdd(t, ms, cb, recurring, now) =>
      var recs := s.recs[t := Rec(ms, Some(cb), recurring, now + ms)];
      SortedFrame(s.recs, recs, s.order);
      AddLockedWakes(s.(recs := recs, clock := Latest(s.clock, now)), t);
    case OpCancel(t) => EraseSorted(s.recs, s.order, t);
    case OpRefresh(t, now) => RefreshKeepsWake(s, t, now);
    case OpReset(t, ms, fromNow, now) => ResetKeepsWake(s, t, ms, fromNow, now);
    case OpNext(now) => NextKeepsWake(s, now);
    case OpExpire(now) => ExpireKeepsWake(s, now);
  }

  // --- whole runs ---------------------------------------------------------------------------------

  /** A run of operations, each of them enabled. */
  ghost predicate CanRun(s: State, ops: seq<Op>)
    requires SetInv(s.recs, s.order)
    decreases |ops|
  {
    ops == [] || (Enabled(s, ops[0]) && (StepKeepsSet(s, ops[0]); CanRun(Step(s, ops[0]).0, ops[1..])))
  }

  ghost predicate MonotoneRun(s: State, ops: seq<Op>)
    requires SetInv(s.recs, s.order) && CanRun(s, ops)
    decreases |ops|
  {
    ops == [] || (Monotone(s, ops[0]) && (StepKeepsSet(s, ops[0]); MonotoneRun(Step(s, ops[0]).0, ops[1..])))
  }

  ghost function Run(s: State, ops: seq<Op>): State
    requires SetInv(s.recs, s.order) && CanRun(s, ops)
    decreases |ops|
  {
    if ops == [] then s
    else
      StepKeepsSet(s, ops[0]);
      Run(Step(s, ops[0]).0, ops[1..])
  }

  /** How often a run lists the timer's callback. */
  ghost function TimesListed(s: State, ops: seq<Op>, t: Addr): nat
    requires SetInv(s.recs, s.order) && CanRun(s, ops)
    decreases |ops|
  {
    if ops == [] then 0
    else
      StepKeepsSet(s, ops[0]);
      (if t in Step(s, ops[0]).1 then 1 else 0) + TimesListed(Step(s, ops[0]).0, ops[1..], t)
  }

  /** From the empty manager on, through every run under a clock that does not go back, the set is
      ordered and complete and no wake-up is lost. */
  lemma {:induction false} RunKeeps(s: State, ops: seq<Op>)
    requires Inv(s) && CanRun(s, ops) && MonotoneRun(s, ops)
    ensures Inv(Run(s, ops))
    decreases |ops|
  {
    if ops != [] {
      StepKeeps(s, ops[0]);
      RunKeeps(Step(s, ops[0]).0, ops[1..]);
    }
  }

  lemma StartInv(now: nat)
    ensures Inv(Start(now))
  {
  }

  // A timer without a callback.
  predicate Dead(s: State, t: Addr) {
    t in s.recs && s.recs[t].cb.None?
  }

  lemma StepKeepsDead(s: State, op: Op, t: Addr)
    requires SetInv(s.recs, s.order) && Enabled(s, op) && Dead(s, t)
    ensures Dead(Step(s, op).0, t) && t !in Step(s, op).1
  {
    if op.OpExpire? { ExpireExact(s, op.now); }
  }

  /** A timer that lost its callback is not listed again, whatever the clock does. */
  lemma {:induction false} DeadNeverListed(s: State, ops: seq<Op>, t: Addr)
    requires SetInv(s.recs, s.order) && CanRun(s, ops) && Dead(s, t)
    ensures TimesListed(s, ops, t) == 0
    decreases |ops|
  {
    if ops != [] {
      StepKeepsSet(s, ops[0]);
      StepKeepsDead(s, ops[0], t);
      DeadNeverListed(Step(s, ops[0]).0, ops[1..], t);
    }
  }

  /** After cancel returned true, or false, the callback is never listed. */
  lemma CancelledNeverListed(s: State, t: Addr, ops: seq<Op>)
    requires SetInv(s.recs, s.order) && t in s.recs
    requires SetInv(Cancel(s, t).0.recs, Cancel(s, t).0.order) && CanRun(Cancel(s, t).0, ops)
    ensures TimesListed(Cancel(s, t).0, ops, t) == 0
    ensures Cancel(s, t).1 <==> t in s.order
  {
    DeadNeverListed(Cancel(s, t).0, ops, t);
  }

  // Whether a timer fires once never changes.
  lemma StepKeepsRecurring(s: State, op: Op, t: Addr)
    requires SetInv(s.recs, s.order) && Enabled(s, op) && t in s.recs
    ensures t in Step(s, op).0.recs && Step(s, op).0.recs[t].recurring == s.recs[t].recurring
  {
    if op.OpExpire? { ExpireExact(s, op.now); }
  }

  /** A timer that fires once is listed at most once in any run. */
  lemma {:induction false} OnceListedOnce(s: State, ops: seq<Op>, t: Addr)
    requires SetInv(s.recs, s.order) && CanRun(s, ops) && t in s.recs && !s.recs[t].recurring
    ensures TimesListed(s, ops, t) <= 1
    decreases |ops|
  {
    if ops != [] {
      var (s', ts) := Step(s, ops[0]);
      StepKeepsSet(s, ops[0]);
      StepKeepsRecurring(s, ops[0], t);
      if t in ts {
        ExpireExact(s, ops[0].now);
        DeadNeverListed(s', ops[1..], t);
      } else {
        OnceListedOnce(s', ops[1..], t);
      }
    }
  }

  /** A thread that waits as long as getNextTimer says wakes when the earliest of all timers is
      due, or at once; it may wait for ever exactly when there is no timer, but for a timer
      at the end of time at time 0. */
  lemma NextTimerReaches(s: State, now: nat, t: Addr)
    requires SetInv(s.recs, s.order)
    requires t in s.recs && s.recs[t].cb.Some? && s.recs[t].next <= NEVER
    ensures var wait := NextTimer(s, now).1;
      && now + wait <= (if now <= s.recs[t].next then s.recs[t].next else now)
      && (wait == NEVER ==> s.recs[t].next == NEVER && now == 0)
      && (exists u :: u in s.order && now + wait == if now <= s.recs[u].next then s.recs[u].next else now)
  {
    assert t in s.order;
    SortedTail(s.recs, s.order);
    assert s.order[0] in s.order;
  }
}
