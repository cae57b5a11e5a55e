/** When nothing comes any more. */
module StopQuiet {
  import opened Options
  import EB = EventBook
  import Io = IoSpec
  import IoR = IoRuns
  import TS = TimerSpec
  import opened SchedSpec
  import SR = SchedRuns
  import opened StoppingIo
  import opened StopSpec
  import opened StopRuns
  import opened StopHands

  predicate NothingListed(v: World) { forall w :: 0 <= w < |v.listed| ==> v.listed[w] == [] }

  /** Some worker is still to put back a task that is ready. */
  ghost predicate ReadyLeft(s: State) {
    exists w: nat, t: nat :: AtPc(s, w, Counted(t)) && LifeOf(s.tasks, t) == READY
  }

  /** The scheduler's test holds, no timer is set, no event is registered, and no task will come from
      a worker. */
  ghost predicate Quiet(v: World) {
    Stopping(v.sched) && NothingListed(v) && NoTimer(v.timers) && NoEvent(v.io) && !ReadyLeft(v.sched)
  }

  lemma NobodyRuns(s: State)
    requires SR.Inv(s) && Stopping(s)
    ensures forall w :: 0 <= w < |s.workers| ==> !SR.IsActive(s.workers[w])
  {
    SR.NoActives(s.workers);
  }

  lemma QuietMove(s: State, a: SchedSpec.Act)
    requires SR.Inv(s) && Stopping(s) && !ReadyLeft(s) && CanTake(s, a) && !a.Skip? && !a.TestIdle? && !a.Spawn?
    ensures Stopping(Take(s, a)) && !ReadyLeft(Take(s, a))
  {
    NobodyRuns(s);
    var s' := Take(s, a);
    if a.Requeue? { assert AtPc(s, a.w, Counted(s.workers[a.w].pc.task)); }
    forall w: nat, t: nat | AtPc(s', w, Counted(t))
      ensures LifeOf(s'.tasks, t) != READY
    {
      assert AtPc(s, w, Counted(t));
    }
  }

  // A report when nothing is registered.
  lemma QuietReport(io: Io.State, fd: nat, reported: set<EB.Event>, error: bool, fault: bool)
    requires Io.Inv(io) && NoEvent(io) && IoR.Enabled(io, IoR.OpReady(fd, reported, error, fault))
    ensures IoR.Step(io, IoR.OpReady(fd, reported, error, fault)) == io
  {
    assert io.ctxs[fd].events == {};
    IoR.ReadyIs(io, fd, reported, error, fault);
  }

  lemma FirstIn(order: seq<TS.Addr>)
    ensures order == [] || order[0] in order
  {
  }

  lemma QuietTimers(t: TS.State, now: nat)
    requires TS.SetInv(t.recs, t.order) && NoTimer(t)
    ensures t.order == [] && TS.Expire(t, now) == (t, []) && NoTimer(TS.NextTimer(t, now).0)
  {
    FirstIn(t.order);
  }

  lemma QuietOver(v: World, w: nat)
    requires WorldInv(v) && Quiet(v) && AtPc(v.sched, w, Idle)
    ensures var s' := Take(v.sched, TestIdle(w, true)); Stopping(s') && !ReadyLeft(s')
    ensures var s' := Take(v.sched, TestIdle(w, false)); Stopping(s') && !ReadyLeft(s')
  {
    forall x: nat, t: nat | AtPc(Take(v.sched, TestIdle(w, true)), x, Counted(t))
      ensures AtPc(v.sched, x, Counted(t))
    {
    }
    forall x: nat, t: nat | AtPc(Take(v.sched, TestIdle(w, false)), x, Counted(t))
      ensures AtPc(v.sched, x, Counted(t))
    {
    }
  }

  lemma QuietRest(v: World, w: nat)
    requires WorldInv(v) && Quiet(v) && MayReadRest(v, w)
    ensures Quiet(AfterRest(v, w))
  {
    if AtPc(v.sched, w, Idle) {
      QuietOver(v, w);
    } else {
      forall x: nat, t: nat | AtPc(Take(v.sched, Skip), x, Counted(t))
        ensures AtPc(v.sched, x, Counted(t))
      {
      }
    }
  }

  // Nobody is there to do anything else.
  lemma NobodyMay(v: World, who: Who)
    requires WorldInv(v) && Quiet(v)
    ensures !May(v.sched, who)
  {
    NobodyRuns(v.sched);
  }

  /** Then no step sets a timer, registers an event or queues a task. */
  lemma QuietStays(v: World, d: Deed)
    requires WorldInv(v) && Quiet(v) && CanDo(v, d)
    ensures Quiet(Do(v, d))
  {
    match d
    case Move(a) =>
      NobodyRuns(v.sched);
      QuietMove(v.sched, a);
    case ReadTimers(w, now) => QuietTimers(v.timers, now);
    case ReadEvents(w) =>
    case ReadRest(w) => QuietRest(v, w);
    case GiveWay(w) => QuietOver(v, w);
    case OnTimers(who, _) => NobodyMay(v, who);
    case OnEvents(who, _) => NobodyMay(v, who);
    case Expire(w, now) => QuietTimers(v.timers, now);
    case Hand(w) =>
    case Report(w, fd, reported, error, fault) => QuietReport(v.io, fd, reported, error, fault);
  }

  lemma {:induction false} RunStaysQuiet(r: Run, r': Run)
    requires Possible(r) && Quiet(End(r)) && Possible(r') && Extends(r, r')
    ensures Quiet(End(r'))
  {
    if r != r' {
      RunStaysQuiet(r, r'.run);
      QuietStays(End(r'.run), r'.deed);
    }
  }

  // --- a task that is put back can do anything --------------------------------------------------------

  lemma Moves(r: Run, a: SchedSpec.Act) returns (r': Run)
    requires Possible(r) && MayMove(End(r), a) && !a.EnterIdle?
    ensures Possible(r') && Extends(r, r') && End(r').sched == Take(End(r).sched, a)
  {
    r' := Then(r, Move(a));
  }

  predicate Ready(s: State, t: nat) { LifeOf(s.tasks, t) == READY }

  lemma PutBack(s: State, w: nat, t: nat)
    requires AtPc(s, w, Counted(t)) && Ready(s, t) && s.queue == []
    ensures CanTake(s, Requeue(w))
    ensures var s' := Take(s, Requeue(w)); AtPc(s', w, Top) && Ready(s', t) && s'.queue == [Entry(t, false, -1)]
  {
  }

  lemma TakenUp(s: State, w: nat, t: nat)
    requires AtPc(s, w, Top) && Ready(s, t) && s.queue == [Entry(t, false, -1)]
    ensures CanTake(s, Scan(w))
    ensures var s' := Take(s, Scan(w)); AtPc(s', w, Took(t)) && Ready(s', t)
  {
  }

  lemma Resumed(s: State, w: nat, t: nat)
    requires AtPc(s, w, Took(t)) && Ready(s, t)
    ensures CanTake(s, SchedSpec.Begin(w)) && AtPc(Take(s, SchedSpec.Begin(w)), w, Running(t))
  {
  }

  // A new registration, on a descriptor beyond the table.
  function Another(io: Io.State): IoR.Op { IoR.OpAdd(|io.ctxs|, EB.READ, None, 0, false) }

  lemma AnotherIs(io: Io.State)
    requires Io.Inv(io)
    ensures IoR.Enabled(io, Another(io))
    ensures !NoEvent(IoR.Step(io, Another(io))) && IoR.Step(io, Another(io)).queue == io.queue
  {
    var fd, io' := |io.ctxs|, IoR.Step(io, Another(io));
    IoR.AddIs(io, fd, EB.READ, None, 0, false);
    IoR.RoomyKeeps(io, fd);
    assert EB.READ in io'.ctxs[fd].events;
  }

  lemma Operates(r: Run, w: nat, op: IoR.Op) returns (r': Run)
    requires Possible(r) && May(End(r).sched, Task(w)) && IoR.Enabled(End(r).io, op) && !op.OpReady?
    ensures Possible(r') && Extends(r, r') && End(r').io == IoR.Step(End(r).io, op)
  {
    r' := Then(r, OnEvents(Task(w), op));
    assert CanDo(End(r), r'.deed);
  }

  lemma Registers(r: Run, w: nat, t: nat) returns (r': Run)
    requires Possible(r) && AtPc(End(r).sched, w, Running(t))
    ensures Possible(r') && Extends(r, r') && !NoEvent(End(r').io)
  {
    AnotherIs(End(r).io);
    r' := Operates(r, w, Another(End(r).io));
  }

  lemma {:induction false} ExtendsTrans(r1: Run, r2: Run, r3: Run)
    requires Extends(r1, r2) && Extends(r2, r3)
    ensures Extends(r1, r3)
  {
    if r2 != r3 { ExtendsTrans(r1, r2, r3.run); }
  }

  lemma ReadyDoesMore(r: Run, w: nat, t: nat) returns (r4: Run)
    requires Possible(r) && AtPc(End(r).sched, w, Counted(t)) && Ready(End(r).sched, t) && End(r).sched.queue == []
    ensures Possible(r4) && Extends(r, r4) && !NoEvent(End(r4).io)
  {
    PutBack(End(r).sched, w, t);
    var r1 := Moves(r, Requeue(w));
    TakenUp(End(r1).sched, w, t);
    var r2 := Moves(r1, Scan(w));
    Resumed(End(r2).sched, w, t);
    var r3 := Moves(r2, SchedSpec.Begin(w));
    r4 := Registers(r3, w, t);
    ExtendsTrans(r, r1, r2);
    ExtendsTrans(r, r2, r3);
    ExtendsTrans(r, r3, r4);
  }

  // --- and so can a callback that is in hand ------------------------------------------------------------

  // What a worker finds first in the queue.
  predicate Waiting(s: State, e: Entry) {
    s.queue != [] && s.queue[0] == e && LifeOf(s.tasks, e.task) != EXEC && !Dead(LifeOf(s.tasks, e.task))
  }

  lemma HandIs(v: World, w: nat)
    requires Works(v, w) && v.sched.queue == [] && v.listed[w] != []
    requires LifeOf(v.sched.tasks, v.listed[w][0].task) != EXEC && !Dead(LifeOf(v.sched.tasks, v.listed[w][0].task))
    ensures var v' := AfterHand(v, w); Works(v', w) && v'.listed[w] == [] && Waiting(v'.sched, v.listed[w][0])
  {
    QueueAllIs(v.sched, v.listed[w]);
  }

  lemma Hands(r: Run, w: nat) returns (r': Run)
    requires Possible(r) && Works(End(r), w)
    ensures Possible(r') && Extends(r, r') && End(r') == AfterHand(End(r), w)
  {
    r' := Then(r, Hand(w));
    assert CanDo(End(r), r'.deed);
  }

  lemma GivesWay(r: Run, w: nat) returns (r': Run)
    requires Possible(r) && Works(End(r), w) && End(r).listed[w] == []
    ensures Possible(r') && Extends(r, r') && End(r') == AfterGivingWay(End(r), w)
  {
    r' := Then(r, GiveWay(w));
    assert CanDo(End(r), r'.deed);
  }

  lemma ComesOut(s: State, w: nat, e: Entry)
    requires AtPc(s, w, Idle) && Waiting(s, e)
    ensures AtPc(Take(s, TestIdle(w, false)), w, IdleDone) && Waiting(Take(s, TestIdle(w, false)), e)
  {
  }

  lemma LooksAgain(s: State, w: nat, e: Entry)
    requires AtPc(s, w, IdleDone) && Waiting(s, e)
    ensures CanTake(s, LeaveIdle(w)) && AtPc(Take(s, LeaveIdle(w)), w, Top) && Waiting(Take(s, LeaveIdle(w)), e)
  {
  }

  lemma TakesFirst(s: State, w: nat, e: Entry)
    requires AtPc(s, w, Top) && Waiting(s, e) && e.thread == -1
    ensures CanTake(s, Scan(w)) && AtPc(Take(s, Scan(w)), w, Took(e.task))
    ensures Take(s, Scan(w)).tasks == s.tasks
  {
  }

  lemma Starts(s: State, w: nat, t: nat)
    requires AtPc(s, w, Took(t)) && LifeOf(s.tasks, t) != EXEC && !Dead(LifeOf(s.tasks, t))
    ensures CanTake(s, SchedSpec.Begin(w)) && AtPc(Take(s, SchedSpec.Begin(w)), w, Running(t))
  {
  }

  lemma NothingExec(s: State, t: nat)
    requires SR.Inv(s) && Stopping(s)
    ensures LifeOf(s.tasks, t) != EXEC
  {
    NobodyRuns(s);
    assert forall w: nat :: !SR.RunsOn(s.workers, w, t);
  }

  // Handing over what is in hand, and looking for a task.
  lemma ListedIsFound(r: Run, w: nat) returns (r3: Run)
    requires Possible(r) && Works(End(r), w) && End(r).sched.queue == [] && End(r).listed[w] != []
    requires var life := LifeOf(End(r).sched.tasks, End(r).listed[w][0].task); life != EXEC && !Dead(life)
    ensures Possible(r3) && Extends(r, r3) && AtPc(End(r3).sched, w, Top) && Waiting(End(r3).sched, End(r).listed[w][0])
  {
    var e := End(r).listed[w][0];
    HandIs(End(r), w);
    var r1 := Hands(r, w);
    var r2 := GivesWay(r1, w);
    ComesOut(End(r1).sched, w, e);
    LooksAgain(End(r2).sched, w, e);
    r3 := Moves(r2, LeaveIdle(w));
    ExtendsTrans(r, r1, r2);
    ExtendsTrans(r, r2, r3);
  }

  lemma FoundDoesMore(r: Run, w: nat, e: Entry) returns (r3: Run)
    requires Possible(r) && AtPc(End(r).sched, w, Top) && Waiting(End(r).sched, e) && e.thread == -1
    ensures Possible(r3) && Extends(r, r3) && !NoEvent(End(r3).io)
  {
    TakesFirst(End(r).sched, w, e);
    var r1 := Moves(r, Scan(w));
    Starts(End(r1).sched, w, e.task);
    var r2 := Moves(r1, SchedSpec.Begin(w));
    r3 := Registers(r2, w, e.task);
    ExtendsTrans(r, r1, r2);
    ExtendsTrans(r, r2, r3);
  }

  lemma ListedDoesMore(r: Run, w: nat) returns (r2: Run)
    requires Possible(r) && Stopping(End(r).sched) && w < |End(r).listed| && End(r).listed[w] != []
    requires !Dead(LifeOf(End(r).sched.tasks, End(r).listed[w][0].task))
    ensures Possible(r2) && Extends(r, r2) && !NoEvent(End(r2).io)
  {
    NothingExec(End(r).sched, End(r).listed[w][0].task);
    var r1 := ListedIsFound(r, w);
    r2 := FoundDoesMore(r1, w, End(r).listed[w][0]);
    ExtendsTrans(r, r1, r2);
  }

  // --- for good ----------------------------------------------------------------------------------------

  /** Whatever comes after this run, no timer is set and no event is registered. */
  ghost predicate StaysQuiet(r: Run)
    requires Possible(r)
  {
    forall r' :: Possible(r') && Extends(r, r') ==> NoTimer(End(r').timers) && NoEvent(End(r').io)
  }

  /** What a worker took from the timers and has in hand has not ended: it has not been queued yet. */
  predicate FreshInHand(v: World) {
    forall w, i :: 0 <= w < |v.listed| && 0 <= i < |v.listed[w]| ==> !Dead(LifeOf(v.sched.tasks, v.listed[w][i].task))
  }

  /** While the scheduler's test holds, no timer is set and no event registered from then on exactly if
      there is none now, no worker has callbacks in hand that it took from the timers, and no
      worker is still to put back a task that is ready. */
  lemma StaysQuietIff(r: Run)
    requires Possible(r) && Stopping(End(r).sched) && FreshInHand(End(r))
    ensures StaysQuiet(r) <==>
      NoTimer(End(r).timers) && NoEvent(End(r).io) && NothingListed(End(r)) && !ReadyLeft(End(r).sched)
  {
    var v := End(r);
    if Quiet(v) {
      forall r' | Possible(r') && Extends(r, r')
        ensures NoTimer(End(r').timers) && NoEvent(End(r').io)
      {
        RunStaysQuiet(r, r');
      }
    } else if w: nat, t: nat :| AtPc(v.sched, w, Counted(t)) && LifeOf(v.sched.tasks, t) == READY {
      var r' := ReadyDoesMore(r, w, t);
    } else if w: nat :| w < |v.listed| && v.listed[w] != [] {
      var r' := ListedDoesMore(r, w);
    } else {
      assert Extends(r, r);
    }
  }
}
