/** When a timer is listed, and how often, by what it was asked for. */
module TimerDeadlines {
  import opened Options
  import opened TimerSpec
  import opened TimerRuns

  // --- a new timer -----------------------------------------------------------------------------------

  /** A new timer has its callback, period and kind; its deadline is one period after the reading of
      the clock; and no other timer changes. */
  lemma AddIs(s: State, t: Addr, ms: nat, cb: Callback, recurring: bool, now: nat)
    requires SetInv(s.recs, s.order) && t !in s.recs
    ensures var s' := Add(s, t, ms, cb, recurring, now);
      && SetInv(s'.recs, s'.order) && t in s'.recs && t in s'.order
      && var x := s'.recs[t];
      && x.cb == Some(cb) && x.ms == ms && x.recurring == recurring && x.next == now + ms
      && forall u :: u != t ==> (u in s'.recs <==> u in s.recs) && (u in s.recs ==> s'.recs[u] == s.recs[u])
  {
    AddKeepsSet(s, t, ms, cb, recurring, now);
  }

  /** It is listed exactly from its deadline on, but for a rollover. */
  lemma AddListsIff(s: State, t: Addr, ms: nat, cb: Callback, recurring: bool, now: nat, at: nat)
    requires SetInv(s.recs, s.order) && t !in s.recs
    ensures t in Expire(Add(s, t, ms, cb, recurring, now), at).1 <==> now + ms <= at || Rollover(s.previous, at)
  {
    AddIs(s, t, ms, cb, recurring, now);
    ExpireExact(Add(s, t, ms, cb, recurring, now), at);
  }

  /** A timer added to fire once is listed at most once in any run from then on. */
  lemma AddedOnce(s: State, t: Addr, ms: nat, cb: Callback, now: nat, ops: seq<Op>)
    requires SetInv(s.recs, s.order) && t !in s.recs
    requires var s' := Add(s, t, ms, cb, false, now); SetInv(s'.recs, s'.order) && CanRun(s', ops)
    ensures TimesListed(Add(s, t, ms, cb, false, now), ops, t) <= 1
  {
    AddIs(s, t, ms, cb, false, now);
    OnceListedOnce(Add(s, t, ms, cb, false, now), ops, t);
  }

  /** After an expiry that lists it, a timer that recurs is set again, one period after that; one that
      fires once is not, for good. */
  lemma ListedAgainIff(s: State, t: Addr, now: nat)
    requires SetInv(s.recs, s.order) && t in Expire(s, now).1
    ensures t in s.recs
    ensures var s' := Expire(s, now).0;
      && t in s'.recs && (t in s'.order <==> s.recs[t].recurring)
      && (s.recs[t].recurring ==> s'.recs[t] == s.recs[t].(next := now + s.recs[t].ms))
  {
    ExpireExact(s, now);
  }

  // Whatever comes between: what it was added as is what it is when it is listed.
  lemma {:induction false} StaysRecurring(s: State, ops: seq<Op>, t: Addr)
    requires SetInv(s.recs, s.order) && CanRun(s, ops) && t in s.recs
    ensures t in Run(s, ops).recs && Run(s, ops).recs[t].recurring == s.recs[t].recurring
    ensures SetInv(Run(s, ops).recs, Run(s, ops).order)
    decreases |ops|
  {
    if ops != [] {
      StepKeepsSet(s, ops[0]);
      StepKeepsRecurring(s, ops[0], t);
      StaysRecurring(Step(s, ops[0]).0, ops[1..], t);
    }
  }

  /** So after any run a timer is set again by an expiry that lists it exactly if it was added to
      recur. */
  lemma AddedRecursIff(s: State, t: Addr, ms: nat, cb: Callback, recurring: bool, now: nat, ops: seq<Op>, at: nat)
    requires SetInv(s.recs, s.order) && t !in s.recs
    requires var s' := Add(s, t, ms, cb, recurring, now); SetInv(s'.recs, s'.order) && CanRun(s', ops)
    ensures var s1 := Run(Add(s, t, ms, cb, recurring, now), ops);
      && SetInv(s1.recs, s1.order)
      && (t in Expire(s1, at).1 ==> (t in Expire(s1, at).0.order <==> recurring))
  {
    AddIs(s, t, ms, cb, recurring, now);
    StaysRecurring(Add(s, t, ms, cb, recurring, now), ops, t);
    var s1 := Run(Add(s, t, ms, cb, recurring, now), ops);
    if t in Expire(s1, at).1 { ListedAgainIff(s1, t, at); }
  }

  // --- a timer that is started again -----------------------------------------------------------------

  // The same timer but for its period and deadline, and all the others.
  ghost predicate OnlyTimes(s: State, s': State, t: Addr) {
    && s'.recs.Keys == s.recs.Keys && s'.previous == s.previous
    && forall u :: u in s.recs ==>
         if u == t then (s'.recs[u].cb, s'.recs[u].recurring) == (s.recs[u].cb, s.recs[u].recurring)
         else s'.recs[u] == s.recs[u]
  }

  lemma SetListsIff(s: State, t: Addr, at: nat)
    requires SetInv(s.recs, s.order) && t in s.recs && s.recs[t].cb.Some?
    ensures t in Expire(s, at).1 <==> s.recs[t].next <= at || Rollover(s.previous, at)
  {
    ExpireExact(s, at);
  }

  /** Refreshing succeeds exactly for a timer that is set; it is then listed exactly from one period
      after the refresh on. */
  lemma RefreshListsIff(s: State, t: Addr, now: nat, at: nat)
    requires SetInv(s.recs, s.order) && t in s.recs
    ensures var (s', done) := Refresh(s, t, now);
      && SetInv(s'.recs, s'.order) && OnlyTimes(s, s', t) && (done <==> t in s.order) && (!done ==> s' == s)
      && (done ==> (t in Expire(s', at).1 <==> now + s.recs[t].ms <= at || Rollover(s.previous, at)))
      && s'.recs[t].ms == s.recs[t].ms
  {
    RefreshKeepsSet(s, t, now);
    var s' := Refresh(s, t, now).0;
    if s.recs[t].cb.Some? { SetListsIff(s', t, at); }
  }

  /** Resetting to the same period without starting again changes nothing and succeeds; otherwise it
      succeeds exactly for a timer that is set.  It is then listed exactly from the new period after
      its start on: the start it had, or the reset. */
  lemma ResetListsIff(s: State, t: Addr, ms: nat, fromNow: bool, now: nat, at: nat)
    requires SetInv(s.recs, s.order) && t in s.recs
    ensures var (s', done) := Reset(s, t, ms, fromNow, now); var x := s.recs[t];
      && SetInv(s'.recs, s'.order) && OnlyTimes(s, s', t)
      && (done <==> t in s.order || (ms == x.ms && !fromNow))
      && (!done || (ms == x.ms && !fromNow) ==> s' == s)
      && (done ==> s'.recs[t].ms == ms)
      && (t in s.order ==>
            (t in Expire(s', at).1 <==>
               (if fromNow then now else x.next - x.ms) + ms <= at || Rollover(s.previous, at)))
  {
    ResetKeepsSet(s, t, ms, fromNow, now);
    var s' := Reset(s, t, ms, fromNow, now).0;
    if s.recs[t].cb.Some? { SetListsIff(s', t, at); }
  }

  /** Cancelling takes just that timer out of the set, for good, and succeeds exactly if it was in it. */
  lemma CancelIs(s: State, t: Addr)
    requires SetInv(s.recs, s.order) && t in s.recs
    ensures var (s', done) := Cancel(s, t);
      && SetInv(s'.recs, s'.order) && (done <==> t in s.order) && s'.recs.Keys == s.recs.Keys
      && (forall u :: u in s'.order <==> u in s.order && u != t)
      && (forall u :: u in s.recs && u != t ==> s'.recs[u] == s.recs[u])
      && s'.recs[t] == s.recs[t].(cb := None) && s'.tickled == s.tickled
  {
    CancelKeepsSet(s, t);
    EraseSorted(s.recs, s.order, t);
  }

  /** Asking for the wait changes no timer, and takes the flag down. */
  lemma AskingIs(s: State, now: nat)
    requires SetInv(s.recs, s.order)
    ensures var s' := NextTimer(s, now).0;
      (s'.recs, s'.order, s'.previous) == (s.recs, s.order, s.previous) && !s'.tickled
  {
  }

  /** After an expiry that found timers, another one that is no earlier sees no rollover: it lists what is
      due by then, and nothing else. */
  lemma NextExpiryListsDue(s: State, now: nat, at: nat, t: Addr)
    requires SetInv(s.recs, s.order) && s.order != [] && now <= at
    ensures var s' := Expire(s, now).0;
      SetInv(s'.recs, s'.order) && (t in Expire(s', at).1 <==> t in s'.order && t in s'.recs && s'.recs[t].next <= at)
  {
    ExpireExact(s, now);
    ExpireExact(Expire(s, now).0, at);
  }

  // --- the order and the flag ------------------------------------------------------------------------

  /** Expiry hands over the callbacks of what it lists, earliest deadline first, and the lower address
      first where deadlines are equal. */
  lemma ListedInOrder(s: State, now: nat)
    requires SetInv(s.recs, s.order)
    ensures var ts := Expire(s, now).1;
      && Known(s.recs, ts)
      && (forall i :: 0 <= i < |ts| ==> Callbacks(s.recs, ts)[i] == s.recs[ts[i]].cb && s.recs[ts[i]].cb.Some?)
      && (forall i, j :: 0 <= i < j < |ts| ==>
            s.recs[ts[i]].next < s.recs[ts[j]].next || (s.recs[ts[i]].next == s.recs[ts[j]].next && ts[i] < ts[j]))
  {
    ExpireExact(s, now);
    var ts := Expire(s, now).1;
    forall i | 0 <= i < |ts|
      ensures s.recs[ts[i]].cb.Some?
    {
      assert ts[i] in ts;
    }
  }

  /** Adding asks for a wake-up exactly if none was asked for and the deadline is before all others,
      or equal to the first with a lower address. */
  lemma AddWakesIff(s: State, t: Addr, ms: nat, cb: Callback, recurring: bool, now: nat)
    requires SetInv(s.recs, s.order) && t !in s.recs
    ensures var s' := Add(s, t, ms, cb, recurring, now);
      var first := forall u :: u in s.recs && s.recs[u].cb.Some? ==>
        now + ms < s.recs[u].next || (now + ms == s.recs[u].next && t < u);
      (s'.tickled <==> s.tickled || first) && (s'.hooked <==> s.hooked || (first && !s.tickled))
  {
    var recs := s.recs[t := Rec(ms, Some(cb), recurring, now + ms)];
    SortedFrame(s.recs, recs, s.order);
    InsertSorted(recs, s.order, t);
    if s.order != [] {
      SortedTail(s.recs, s.order);
      assert s.order[0] in s.order;
    }
  }
}
