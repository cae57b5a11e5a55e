/** Each reading of the test for the end, and when it is made. */
module StopTests {
  import opened Options
  import TR = TimerRuns
  import opened SchedSpec
  import opened StoppingIo
  import opened StopSpec
  import opened StopRuns

  /** A worker that enters its idle fiber makes the test anew, before anything else there. */
  lemma EntersAtTest(v: World, w: nat)
    requires WorldInv(v) && MayMove(v, EnterIdle(w))
    ensures var v' := AfterMove(v, EnterIdle(w));
      && AtPc(v'.sched, w, Idle) && Looks(v', w, Unread) && !Works(v', w)
      && forall now :: InTime(v'.timers, now) ==> MayReadTimers(v', w, now)
  {
  }

  /** Reading the timers, the test goes on exactly if none is set. */
  lemma TimersReadIff(v: World, w: nat, now: nat)
    requires WorldInv(v) && MayReadTimers(v, w, now) && w < |v.looks|
    ensures var v' := AfterReading(v, w, now);
      Looks(v', w, if NoTimer(v.timers) then NoTimerSeen(v.timers.recs.Keys) else Failed)
  {
    var t := v.timers;
    if t.order != [] {
      assert t.order[0] in t.order;
      TR.NextTimerReaches(t, now, t.order[0]);
    }
  }

  /** Reading the counter, it goes on exactly if no event is registered. */
  lemma EventsReadIff(v: World, w: nat)
    requires WorldInv(v) && MayReadEvents(v, w)
    ensures var v' := AfterCounting(v, w);
      Looks(v', w, if NoEvent(v.io) then NoEventSeen(v.looks[w].made, |v.io.book.regs|) else Failed)
  {
    NoneWaiting(v.io);
  }

  /** The last reading ends the idle fiber, or the wait of the making thread, exactly if the
      scheduler's own test holds; otherwise the worker goes on to its other work. */
  lemma RestPassesIff(v: World, w: nat)
    requires WorldInv(v) && MayReadRest(v, w)
    ensures var v' := AfterRest(v, w);
      && |v'.sched.workers| == |v.sched.workers| && w < |v'.sched.workers|
      && (if Stopping(v.sched) then Over(v'.sched.workers[w]) && w in v'.passed && v'.passed[w] == v.looks[w]
          else v'.sched == v.sched && Looks(v', w, Failed))
  {
  }
}
