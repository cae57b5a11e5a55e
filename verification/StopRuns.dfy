/** What a test for the end that has passed is worth. */
module StopRuns {
  import opened Options
  import EB = EventBook
  import Io = IoSpec
  import IoR = IoRuns
  import TS = TimerSpec
  import TR = TimerRuns
  import opened SchedSpec
  import opened SchedRuns
  import opened StopSpec
  import opened StoppingIo

  // --- what the test has seen --------------------------------------------------------------------------

  /** The timers there were have no callback, and the registrations there were do not wait. */
  ghost predicate SeenOk(t: TS.State, b: EB.Book, l: Look) {
    match l
    case NoTimerSeen(made) => forall a :: a in made ==> TR.Dead(t, a)
    case NoEventSeen(made, regs) =>
      (forall a :: a in made ==> TR.Dead(t, a)) && regs <= |b.regs| && forall n :: 0 <= n < regs ==> !EB.Waiting(b, n)
    case _ => true
  }

  // What ended stays ended.
  ghost predicate EndedStays(t: TS.State, b: EB.Book, t': TS.State, b': EB.Book) {
    && (forall a :: TR.Dead(t, a) ==> TR.Dead(t', a))
    && |b.regs| <= |b'.regs|
    && (forall n: nat :: n < |b.regs| && !EB.Waiting(b, n) ==> !EB.Waiting(b', n))
  }

  // Its idle fiber has ended, or the making thread has left.
  predicate Over(x: Worker) { x.idleOver || x.pc.Left? }

  ghost predicate LooksOk(v: World) {
    && |v.looks| == |v.sched.workers| == |v.listed|
    && (forall w :: 0 <= w < |v.looks| ==> SeenOk(v.timers, v.io.book, v.looks[w]))
    && (forall w :: w in v.passed ==> v.passed[w].NoEventSeen? && SeenOk(v.timers, v.io.book, v.passed[w]))
    && (forall w :: 0 <= w < |v.sched.workers| && Over(v.sched.workers[w]) ==> w in v.passed)
  }

  /** Only a worker that works in its idle fiber has callbacks in hand, pinned to nobody. */
  ghost predicate HandsOk(v: World) {
    && (forall w :: 0 <= w < |v.listed| && v.listed[w] != [] ==> Works(v, w))
    && (forall w, i :: 0 <= w < |v.listed| && 0 <= i < |v.listed[w]| ==>
          v.listed[w][i].isCb && v.listed[w][i].thread == -1)
  }

  ghost predicate WorldInv(v: World) {
    Inv(v.sched) && Sound(v) && LooksOk(v) && HandsOk(v)
  }

  // --- each deed ----------------------------------------------------------------------------------------

  // Nothing is queued but by who may.
  ghost predicate Queues(s: State, who: Who) {
    May(s, who) || (who.Task? && AtPc(s, who.w, Idle))
  }

  lemma {:induction false} QueueAllKeeps(s: State, es: seq<Entry>, who: Who)
    requires Inv(s) && Queues(s, who)
    ensures var s' := QueueAll(s, es);
      && Inv(s') && s'.workers == s.workers
      && (s'.autoStop, s'.stopping, s'.active) == (s.autoStop, s.stopping, s.active)
  {
    if es != [] {
      var n := |es| - 1;
      QueueAllKeeps(s, es[..n], who);
      TakeKeeps(QueueAll(s, es[..n]), if who.Task? then Spawn(who.w, es[n]) else Submit(es[n]));
    }
  }

  lemma TimersStay(t: TS.State, b: EB.Book, op: TR.Op)
    requires TS.SetInv(t.recs, t.order) && TR.Enabled(t, op)
    ensures EndedStays(t, b, TR.Step(t, op).0, b)
  {
    forall a | TR.Dead(t, a)
      ensures TR.Dead(TR.Step(t, op).0, a)
    {
      TR.StepKeepsDead(t, op, a);
    }
  }

  lemma EventsStay(t: TS.State, io: Io.State, op: IoR.Op)
    requires Io.Inv(io) && IoR.Enabled(io, op)
    ensures Io.Inv(IoR.Step(io, op)) && EndedStays(t, io.book, t, IoR.Step(io, op).book)
  {
    IoR.StepKeeps(io, op);
    var b, b' := io.book, IoR.Step(io, op).book;
    forall n: nat | n < |b.regs| && !EB.Waiting(b, n)
      ensures !EB.Waiting(b', n)
    {
      EB.EndsOnce(b, b', n);
    }
  }

  // Looks and what has passed are as before, for timers and events that went on.
  lemma LooksStay(v: World, v': World)
    requires LooksOk(v) && EndedStays(v.timers, v.io.book, v'.timers, v'.io.book)
    requires v'.looks == v.looks && v'.passed == v.passed && |v'.listed| == |v.listed|
    requires |v'.sched.workers| == |v.sched.workers|
    requires forall w :: 0 <= w < |v.sched.workers| && Over(v'.sched.workers[w]) ==> Over(v.sched.workers[w])
    ensures LooksOk(v')
  {
    forall l | SeenOk(v.timers, v.io.book, l)
      ensures SeenOk(v'.timers, v'.io.book, l)
    {
    }
  }

  lemma MoveKeeps(v: World, a: SchedSpec.Act)
    requires WorldInv(v) && MayMove(v, a)
    ensures WorldInv(AfterMove(v, a))
  {
    TakeKeeps(v.sched, a);
    NobodyEnds(v, a);
    LooksStay(v, v.(sched := Take(v.sched, a)));
  }

  // Only a worker whose idle fiber has ended leaves; an idle one stays.
  lemma NobodyEnds(v: World, a: SchedSpec.Act)
    requires MayMove(v, a)
    ensures var ws, ws' := v.sched.workers, Take(v.sched, a).workers;
      && |ws'| == |ws| && (forall w :: 0 <= w < |ws| && ws[w].pc == Idle ==> ws'[w].pc == Idle)
      && forall w :: 0 <= w < |ws| && Over(ws'[w]) ==> Over(ws[w])
  {
    TakeMoves(v.sched, a);
    var w := Mover(a);
    if w != -1 {
      var x := Take(v.sched, a).workers[w];
      assert x.idleOver == v.sched.workers[w].idleOver && (x.pc.Left? ==> x.idleOver);
    }
  }

  lemma ReadTimersKeeps(v: World, w: nat, now: nat)
    requires WorldInv(v) && MayReadTimers(v, w, now)
    ensures WorldInv(AfterReading(v, w, now))
  {
    var (t, wait) := TS.NextTimer(v.timers, now);
    if wait == TS.NEVER { NoneSet(v.timers, now); }
    TimersStay(v.timers, v.io.book, TR.OpNext(now));
    LooksStay(v, v.(timers := t));
  }

  // Waiting for ever means that no timer is set.
  lemma NoneSet(t: TS.State, now: nat)
    requires TS.SetInv(t.recs, t.order) && InTime(t, now) && TS.NextTimer(t, now).1 == TS.NEVER
    ensures t.order == [] && forall a :: a in t.recs ==> TR.Dead(t, a)
  {
    if t.order != [] {
      assert t.order[0] in t.order;
      TR.NextTimerReaches(t, now, t.order[0]);
    }
  }

  // A counter at zero means that no registration waits.
  lemma NoneWaiting(io: Io.State)
    requires Io.Inv(io)
    ensures io.pending == 0 <==> io.book.held == map[]
    ensures io.pending == 0 <==> forall fd, ev :: 0 <= fd < |io.ctxs| ==> ev !in io.ctxs[fd].events
    ensures io.book.held == map[] <==> forall n: nat :: n < |io.book.regs| ==> !EB.Waiting(io.book, n)
  {
    IoR.TotalZero(io.ctxs);
    forall k | k in io.book.held
      ensures k.fd < |io.ctxs| && k.ev in io.ctxs[k.fd].events && EB.Waiting(io.book, io.book.held[k])
    {
      IoR.RegisteredIff(io, k);
    }
    forall fd: nat, ev | fd < |io.ctxs| && ev in io.ctxs[fd].events
      ensures EB.Key(fd, ev) in io.book.held
    {
      IoR.RegisteredIff(io, EB.Key(fd, ev));
    }
  }

  lemma ReadEventsKeeps(v: World, w: nat)
    requires WorldInv(v) && MayReadEvents(v, w)
    ensures WorldInv(AfterCounting(v, w))
  {
    NoneWaiting(v.io);
  }

  lemma RestKeeps(v: World, w: nat)
    requires WorldInv(v) && MayReadRest(v, w)
    ensures WorldInv(AfterRest(v, w))
  {
    if Stopping(v.sched) { TakeKeeps(v.sched, Passing(v.sched, w)); }
  }

  lemma GiveWayKeeps(v: World, w: nat)
    requires WorldInv(v) && Works(v, w) && v.listed[w] == []
    ensures WorldInv(AfterGivingWay(v, w))
  {
    TakeKeeps(v.sched, TestIdle(w, false));
    LooksStay(v, AfterGivingWay(v, w));
  }

  lemma EventsKeep(v: World, op: IoR.Op, who: Who)
    requires WorldInv(v) && IoR.Enabled(v.io, op) && Queues(v.sched, who)
    ensures WorldInv(AfterEvents(v, op))
  {
    EventsStay(v.timers, v.io, op);
    var v' := AfterEvents(v, op);
    QueueAllKeeps(v.sched, Handed(v.io, v'.io), who);
    LooksStay(v, v');
  }

  lemma OnTimersKeeps(v: World, op: TR.Op)
    requires WorldInv(v) && TR.Enabled(v.timers, op)
    ensures WorldInv(AfterTimers(v, op))
  {
    TR.StepKeepsSet(v.timers, op);
    TimersStay(v.timers, v.io.book, op);
    LooksStay(v, AfterTimers(v, op));
  }

  lemma ExpireKeeps(v: World, w: nat, now: nat)
    requires WorldInv(v) && Works(v, w)
    ensures WorldInv(AfterExpire(v, w, now))
  {
    var op := TR.OpExpire(now);
    TR.StepKeepsSet(v.timers, op);
    TimersStay(v.timers, v.io.book, op);
    LooksStay(v, AfterExpire(v, w, now));
  }

  lemma HandKeeps(v: World, w: nat)
    requires WorldInv(v) && Works(v, w)
    ensures WorldInv(AfterHand(v, w))
  {
    QueueAllKeeps(v.sched, v.listed[w], Task(w));
    LooksStay(v, AfterHand(v, w));
  }

  /** Whoever does what: the machine's parts keep their invariants, and what a test has seen stays
      true of what it has seen. */
  lemma DoKeeps(v: World, d: Deed)
    requires WorldInv(v) && CanDo(v, d)
    ensures WorldInv(Do(v, d))
  {
    match d
    case Move(a) => MoveKeeps(v, a);
    case ReadTimers(w, now) => ReadTimersKeeps(v, w, now);
    case ReadEvents(w) => ReadEventsKeeps(v, w);
    case ReadRest(w) => RestKeeps(v, w);
    case GiveWay(w) => GiveWayKeeps(v, w);
    case OnTimers(_, op) => OnTimersKeeps(v, op);
    case OnEvents(who, op) => EventsKeep(v, op, who);
    case Expire(w, now) => ExpireKeeps(v, w, now);
    case Hand(w) => HandKeeps(v, w);
    case Report(w, fd, reported, error, fault) => EventsKeep(v, IoR.OpReady(fd, reported, error, fault), Task(w));
  }

  // --- runs ----------------------------------------------------------------------------------------------

  datatype Run = Begins(threads: nat, root: bool, now: nat) | Then(run: Run, deed: Deed)

  ghost predicate Possible(r: Run)
    decreases r, 0
  {
    if r.Begins? then r.threads > 0 else Possible(r.run) && CanDo(End(r.run), r.deed)
  }

  /** The world after a run; the invariant holds there, and stops no run. */
  ghost function End(r: Run): (v: World)
    requires Possible(r)
    ensures WorldInv(v)
    decreases r, 1
  {
    match r
    case Begins(threads, root, now) =>
      OpeningInv(threads, root, now);
      Opening(threads, root, now)
    case Then(r', d) =>
      DoKeeps(End(r'), d);
      Do(End(r'), d)
  }

  lemma OpeningInv(threads: nat, root: bool, now: nat)
    requires threads > 0
    ensures WorldInv(Opening(threads, root, now))
  {
    var r := SchedRuns.Run.Begins(threads, root);
    SchedRuns.RunKeeps(r);
    assert SchedRuns.End(r) == Start(threads, root);
    IoR.StartInv();
  }

  /** The second run goes on from the first. */
  predicate Extends(r1: Run, r2: Run) {
    r1 == r2 || (r2.Then? && Extends(r1, r2.run))
  }

  // --- what a passed test is worth -------------------------------------------------------------------

  /** No timer made since the first reading is set, and no registration made since the second one
      waits. */
  ghost predicate NothingSince(v: World, l: Look)
    requires l.NoEventSeen?
  {
    && (forall a :: a in v.timers.recs && a !in l.made ==> v.timers.recs[a].cb.None?)
    && (forall n: nat :: l.regs <= n < |v.io.book.regs| ==> !EB.Waiting(v.io.book, n))
  }

  // What was seen is no more; so only what was made since can be there.
  lemma SinceIff(v: World, l: Look)
    requires WorldInv(v) && l.NoEventSeen? && SeenOk(v.timers, v.io.book, l)
    ensures NoTimer(v.timers) && NoEvent(v.io) <==> NothingSince(v, l)
  {
    NoneWaiting(v.io);
    forall a | a in v.timers.recs && a in l.made
      ensures v.timers.recs[a].cb.None?
    {
      assert TR.Dead(v.timers, a);
    }
  }

  lemma PassMeans(v: World, w: nat)
    requires WorldInv(v) && MayReadRest(v, w) && Stopping(v.sched)
    ensures var v' := AfterRest(v, w);
      && AtRest(v'.sched) && (v'.timers, v'.io) == (v.timers, v.io)
      && (NoTimer(v.timers) && NoEvent(v.io) <==> NothingSince(v, v.looks[w]))
  {
    NoActives(v.sched.workers);
    SinceIff(v, v.looks[w]);
  }

  /** When the third reading passes, nothing is queued and no worker is inside a task; and no timer
      is set and no event registered exactly if nothing made since the readings of these two is
      still there. */
  lemma PassedIff(r: Run, w: nat)
    requires Possible(r) && MayReadRest(End(r), w) && Stopping(End(r).sched)
    ensures var v' := AfterRest(End(r), w);
      && AtRest(v'.sched)
      && (NoTimer(v'.timers) && NoEvent(v'.io) && AtRest(v'.sched) <==> NothingSince(End(r), End(r).looks[w]))
  {
    PassMeans(End(r), w);
  }

  /** When the last worker has left, each of them has passed the test; no timer is set and no event
      registered exactly if nothing made since a worker's readings is still there, whichever
      worker's; and nothing unpinned is queued. */
  lemma LastLeftIff(r: Run, w: nat)
    requires Possible(r) && w < |End(r).sched.workers|
    requires forall x :: 0 <= x < |End(r).sched.workers| ==> End(r).sched.workers[x].pc.Left?
    ensures var v := End(r);
      && w in v.passed && v.passed[w].NoEventSeen?
      && (NoTimer(v.timers) && NoEvent(v.io) <==> NothingSince(v, v.passed[w]))
      && (forall i :: 0 <= i < |v.sched.queue| ==> v.sched.queue[i].thread != -1)
  {
    var v := End(r);
    SinceIff(v, v.passed[w]);
    forall i: nat | i < |v.sched.queue|
      ensures v.sched.queue[i].thread != -1
    {
      assert !FreeAt(v.sched.queue, i);
    }
  }
}
