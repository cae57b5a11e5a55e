/** When an I/O manager may stop: the timers, the events and the scheduler together. */
module StoppingIo {
  import IoSpec
  import IoRuns
  import opened SchedSpec
  import opened SchedRuns
  import TimerSpec
  import TimerRuns

  /** The test of the I/O manager: the wait for the next timer, the pending events, and the
      scheduler's own test, each read in turn. */
  predicate MayStop(t: TimerSpec.State, now: nat, io: IoSpec.State, s: State)
    requires TimerSpec.Known(t.recs, t.order)
  {
    TimerSpec.NextTimer(t, now).1 == TimerSpec.NEVER && io.pending == 0 && Stopping(s)
  }

  ghost predicate NoTimer(t: TimerSpec.State) { forall a :: a in t.recs ==> t.recs[a].cb.None? }

  ghost predicate NoEvent(io: IoSpec.State) {
    forall fd, ev :: 0 <= fd < |io.ctxs| ==> ev !in io.ctxs[fd].events
  }

  ghost predicate AtRest(s: State) {
    s.queue == [] && forall w :: 0 <= w < |s.workers| ==> !IsActive(s.workers[w])
  }

  /** Read at one moment, the test holds exactly when no timer is set, nothing waits for an event on
      any descriptor, nothing is queued and no worker is inside a task, after a stop; the clock
      must have left 0, where a timer at the end of time looks like none. */
  lemma MayStopIff(t: TimerSpec.State, now: nat, io: IoSpec.State, r: Run)
    requires TimerSpec.SetInv(t.recs, t.order) && IoSpec.Inv(io) && Possible(r) && Threads(r) > 0
    requires now > 0 && forall a :: a in t.recs ==> t.recs[a].next <= TimerSpec.NEVER
    ensures var s := End(r);
      MayStop(t, now, io, s) <==> s.autoStop && s.stopping && NoTimer(t) && NoEvent(io) && AtRest(s)
  {
    StoppingMeans(r);
    IoRuns.TotalZero(io.ctxs);
    assert NoEvent(io) <==> forall fd :: 0 <= fd < |io.ctxs| ==> io.ctxs[fd].events == {};
    if t.order == [] {
      assert NoTimer(t);
    } else {
      var a := t.order[0];
      assert a in t.order;
      TimerRuns.NextTimerReaches(t, now, a);
    }
  }
}
