/** What timers and events hand to the scheduler. */
module StopHands {
  import opened Options
  import EB = EventBook
  import Io = IoSpec
  import IoR = IoRuns
  import TS = TimerSpec
  import TR = TimerRuns
  import opened SchedSpec
  import opened StopSpec

  /** A task for a fiber or a callback is queued for any worker; fibers have the even numbers. */
  predicate IsEntry(e: Entry, h: EB.Handler) {
    && e.thread == -1
    && match h
       case FiberTask(id) => e.task == 2 * id && !e.isCb
       case CbTask(id) => e.task == 2 * id + 1 && e.isCb
  }

  lemma {:induction false} QueueAllIs(s: State, es: seq<Entry>)
    ensures var s' := QueueAll(s, es);
      s'.queue == s.queue + es && s'.workers == s.workers && forall t :: LifeOf(s'.tasks, t) == LifeOf(s.tasks, t)
  {
    if es != [] { QueueAllIs(s, es[..|es| - 1]); }
  }

  lemma QueueGrows(io: Io.State, op: IoR.Op)
    requires Io.Inv(io) && IoR.Enabled(io, op)
    ensures Io.Inv(IoR.Step(io, op)) && io.queue <= IoR.Step(io, op).queue
  {
    IoR.StepKeeps(io, op);
    var io' := IoR.Step(io, op);
    forall i | 0 <= i < |io.queue|
      ensures io'.queue[i] == io.queue[i]
    {
      assert io'.book.log[i] == io.book.log[i];
    }
  }

  lemma HandedIs(before: Io.State, after: Io.State)
    requires before.queue <= after.queue
    ensures var es := Handed(before, after);
      |es| == |after.queue| - |before.queue| &&
      forall i :: 0 <= i < |es| ==> IsEntry(es[i], after.queue[|before.queue| + i])
  {
  }

  /** Each task that an operation on events resumes goes to the end of the scheduler's queue, in order,
      and nothing else does. */
  lemma EventsAreQueued(v: World, op: IoR.Op)
    requires Io.Inv(v.io) && IoR.Enabled(v.io, op)
    ensures var v' := AfterEvents(v, op); var es := Handed(v.io, v'.io);
      && v.io.queue <= v'.io.queue && |es| == |v'.io.queue| - |v.io.queue|
      && v'.sched.queue == v.sched.queue + es
      && forall i :: 0 <= i < |es| ==> IsEntry(es[i], v'.io.queue[|v.io.queue| + i])
  {
    hide IoR.Step, Io.Inv, IoR.Enabled, Handed, QueueAll, IsEntry;
    QueueGrows(v.io, op);
    HandedIs(v.io, AfterEvents(v, op).io);
    QueueAllIs(v.sched, Handed(v.io, AfterEvents(v, op).io));
  }

  lemma {:induction false} ListedIs(cbs: seq<Option<TS.Callback>>)
    requires forall i :: 0 <= i < |cbs| ==> cbs[i].Some?
    ensures |Listed(cbs)| == |cbs| && forall i :: 0 <= i < |cbs| ==> Listed(cbs)[i] == EB.CbTask(cbs[i].value)
  {
    if cbs != [] { ListedIs(cbs[..|cbs| - 1]); }
  }

  lemma DueAreSet(t: TS.State, now: nat)
    requires TS.SetInv(t.recs, t.order)
    ensures forall i :: 0 <= i < |TS.Expire(t, now).1| ==>
      TS.Expire(t, now).1[i] in t.recs && t.recs[TS.Expire(t, now).1[i]].cb.Some?
  {
    TR.ExpireExact(t, now);
    var ts := TS.Expire(t, now).1;
    forall i | 0 <= i < |ts|
      ensures ts[i] in t.recs && t.recs[ts[i]].cb.Some?
    {
      assert ts[i] in ts;
    }
  }

  /** A worker that looks at the timers gets the callbacks of all that are due, in order; and when it
      hands over what it has in hand, all of that goes to the end of the queue. */
  lemma TimersAreQueued(v: World, w: nat, now: nat)
    requires Sound(v) && Works(v, w)
    ensures var ts := TS.Expire(v.timers, now).1; var es := AfterExpire(v, w, now).listed[w];
      && |es| == |ts|
      && forall i :: 0 <= i < |ts| ==>
           && ts[i] in v.timers.recs && v.timers.recs[ts[i]].cb.Some?
           && IsEntry(es[i], EB.CbTask(v.timers.recs[ts[i]].cb.value))
    ensures var v' := AfterHand(v, w); v'.sched.queue == v.sched.queue + v.listed[w] && v'.listed[w] == []
  {
    DueAreSet(v.timers, now);
    ListedIs(TS.Callbacks(v.timers.recs, TS.Expire(v.timers, now).1));
    QueueAllIs(v.sched, v.listed[w]);
  }
}
