/** Runs of the whole I/O manager that stop too early. */
module StopTraces {
  import opened Options
  import Io = IoSpec
  import TS = TimerSpec
  import TR = TimerRuns
  import opened SchedSpec
  import SR = SchedRuns
  import ST = SchedTraces
  import opened StoppingIo
  import opened StopSpec
  import opened StopRuns
  import opened StopQuiet

  ghost predicate Leads(r: Run, v: World) { Possible(r) && End(r) == v }

  // Two workers, no timer and no event.
  function Bare(s: State, l0: Look, l1: Look, passed: map<nat, Look>): World {
    World(s, TS.Start(1), Io.Start(), [l0, l1], [[], []], passed)
  }

  lemma BareLook(s: State, l0: Look, l1: Look, passed: map<nat, Look>, l: Look)
    ensures SetLook(Bare(s, l0, l1, passed), 0, l) == Bare(s, l, l1, passed)
    ensures SetLook(Bare(s, l0, l1, passed), 1, l) == Bare(s, l0, l, passed)
  {
  }

  // --- runs of the scheduler are runs of the whole ------------------------------------------------------

  function Lifted(q: SR.Run): Run {
    match q
    case Begins(threads, root) => Run.Begins(threads, root, 1)
    case Then(q', a) => Run.Then(Lifted(q'), Move(a))
  }

  lemma {:induction false} RootStays(q: SR.Run)
    requires SR.Possible(q) && ST.Untested(q)
    ensures !SR.End(q).root && SR.Threads(q) > 0
  {
    if q.Then? { RootStays(q.run); }
  }

  lemma {:induction false} LiftedLeads(q: SR.Run)
    requires SR.Possible(q) && ST.Untested(q)
    ensures Leads(Lifted(q), Opening(SR.Threads(q), false, 1).(sched := SR.End(q)))
  {
    RootStays(q);
    if q.Then? {
      LiftedLeads(q.run);
      SR.RunKeeps(q.run);
      LiftedStep(Lifted(q.run), Opening(SR.Threads(q), false, 1).(sched := SR.End(q.run)), q.act);
    }
  }

  lemma LiftedStep(r: Run, v: World, a: SchedSpec.Act)
    requires Leads(r, v) && MayMove(v, a) && (a.EnterIdle? && a.w < |v.looks| ==> v.looks[a.w] == Unread)
    ensures Leads(Then(r, Move(a)), v.(sched := Take(v.sched, a)))
  {
    assert a.EnterIdle? && a.w < |v.looks| ==> v.looks[a.w := Unread] == v.looks;
    assert CanDo(v, Move(a));
  }

  lemma OpeningTwo(s: State)
    ensures Opening(2, false, 1).(sched := s) == Bare(s, Unread, Unread, map[])
  {
    assert seq(2, _ => Unread) == [Unread, Unread];
    var none: seq<seq<Entry>> := seq(2, _ => []);
    assert none == [[], []];
  }

  // For two workers.
  lemma LiftedTwo(q: SR.Run, s: State)
    requires ST.Leads(q, s) && ST.Untested(q) && |s.workers| == 2
    ensures Leads(Lifted(q), Bare(s, Unread, Unread, map[]))
  {
    LiftedLeads(q);
    RootStays(q);
    SR.RunKeeps(q);
    OpeningTwo(s);
  }

  // --- steps --------------------------------------------------------------------------------------------

  lemma Next(r: Run, v: World, a: SchedSpec.Act) returns (r': Run)
    requires Leads(r, v) && MayMove(v, a) && (a.EnterIdle? && a.w < |v.looks| ==> v.looks[a.w] == Unread)
    ensures Leads(r', v.(sched := Take(v.sched, a)))
  {
    LiftedStep(r, v, a);
    r' := Then(r, Move(a));
  }

  lemma PlainMoves(v: World, a: SchedSpec.Act, ws: set<nat>)
    requires CanTake(v.sched, a) && !v.sched.root && ST.Plain(a, ws)
    ensures MayMove(v, a) && !Take(v.sched, a).root
  {
  }

  lemma {:induction false} Follow(r: Run, v: World, p: ST.Path, ws: set<nat>) returns (r': Run)
    requires Leads(r, v) && !v.sched.root && ST.Open(p, v.sched) && ST.Idlers(p, ws)
    requires forall w :: w in ws && w < |v.looks| ==> v.looks[w] == Unread
    ensures Leads(r', v.(sched := ST.Along(p, v.sched))) && !ST.Along(p, v.sched).root
  {
    if p.Here? {
      r' := r;
    } else {
      r' := Follow(r, v, p.path, ws);
      var v1 := v.(sched := ST.Along(p.path, v.sched));
      PlainMoves(v1, p.act, ws);
      r' := Next(r', v1, p.act);
      assert ST.Along(p, v.sched) == Take(v1.sched, p.act);
    }
  }

  lemma NoneAtStart()
    ensures TS.NextTimer(TS.Start(1), 1) == (TS.Start(1), TS.NEVER) && InTime(TS.Start(1), 1)
    ensures TS.Start(1).recs.Keys == {}
  {
  }

  // An idle worker reads the timers, and there is none.
  lemma SeesNoTimer(r: Run, v: World, w: nat) returns (r': Run)
    requires Leads(r, v) && v.timers == TS.Start(1) && AtPc(v.sched, w, Idle) && Looks(v, w, Unread)
    ensures Leads(r', SetLook(v, w, NoTimerSeen({})))
  {
    NoneAtStart();
    assert MayReadTimers(v, w, 1);
    assert AfterReading(v, w, 1) == SetLook(v, w, NoTimerSeen({}));
    r' := Then(r, ReadTimers(w, 1));
    assert CanDo(v, r'.deed);
  }

  lemma SeesNoEvent(r: Run, v: World, w: nat) returns (r': Run)
    requires Leads(r, v) && v.io == Io.Start() && AtPc(v.sched, w, Idle) && Looks(v, w, NoTimerSeen({}))
    ensures Leads(r', SetLook(v, w, NoEventSeen({}, 0)))
  {
    r' := Then(r, ReadEvents(w));
    assert CanDo(v, r'.deed);
  }

  lemma Passes(r: Run, v: World, w: nat) returns (r': Run)
    requires Leads(r, v) && AtPc(v.sched, w, Idle) && Looks(v, w, NoEventSeen({}, 0)) && Stopping(v.sched)
    ensures Leads(r', v.(sched := Take(v.sched, TestIdle(w, true)), passed := v.passed[w := NoEventSeen({}, 0)]))
  {
    r' := Then(r, ReadRest(w));
    assert CanDo(v, r'.deed);
  }

  lemma LooksTwice(v: World, w: nat, l: Look, l': Look)
    requires w < |v.looks|
    ensures SetLook(SetLook(v, w, l), w, l') == SetLook(v, w, l')
  {
  }

  // The three readings in a row.
  lemma Ends(r: Run, v: World, w: nat) returns (r': Run)
    requires Leads(r, v) && v.timers == TS.Start(1) && v.io == Io.Start()
    requires AtPc(v.sched, w, Idle) && Looks(v, w, Unread) && Stopping(v.sched)
    ensures var v' := SetLook(v, w, NoEventSeen({}, 0));
      Leads(r', v'.(sched := Take(v.sched, TestIdle(w, true)), passed := v.passed[w := NoEventSeen({}, 0)]))
  {
    r' := SeesNoTimer(r, v, w);
    var v1 := SetLook(v, w, NoTimerSeen({}));
    r' := SeesNoEvent(r', v1, w);
    LooksTwice(v, w, NoTimerSeen({}), NoEventSeen({}, 0));
    r' := Passes(r', SetLook(v, w, NoEventSeen({}, 0)), w);
  }

  // --- a timer is set between two readings --------------------------------------------------------------

  const TEN := TR.OpAdd(0, 10, 7, false, 1)

  lemma SetsTimer(r: Run, v: World) returns (r': Run)
    requires Leads(r, v) && v.timers == TS.Start(1) && AtPc(v.sched, 0, Running(0))
    ensures Leads(r', v.(timers := Ten()))
  {
    r' := Then(r, OnTimers(Task(0), TEN));
    assert May(v.sched, Task(0)) && CanDo(v, r'.deed);
  }

  // The timers with that one.
  function Ten(): TS.State { TS.Add(TS.Start(1), 0, 10, 7, false, 1) }

  lemma TenIsSet()
    ensures !NoTimer(Ten())
  {
    assert 0 in Ten().recs && Ten().recs[0].cb.Some?;
  }

  // An idle worker saw no timer; then the fiber that still runs sets one.
  lemma SetsTimerMeanwhile() returns (r: Run)
    ensures Leads(r, Bare(ST.Late([], EXEC, Running(0), false, Idle, false, 1, 1), Unread, NoTimerSeen({}),
      map[]).(timers := Ten()))
  {
    var q := ST.IdleMeanwhile();
    var s := ST.Late([], EXEC, Running(0), false, Idle, false, 1, 1);
    LiftedTwo(q, s);
    r := SeesNoTimer(Lifted(q), Bare(s, Unread, Unread, map[]), 1);
    BareLook(s, Unread, Unread, map[], NoTimerSeen({}));
    r := SetsTimer(r, Bare(s, Unread, NoTimerSeen({}), map[]));
  }

  // Then it ends, and the worker sees no event.
  lemma EndsMeanwhile() returns (r: Run)
    ensures Leads(r, Bare(ST.Late([], TERM, Counted(0), false, Idle, false, 0, 1), Unread, NoEventSeen({}, 0),
      map[]).(timers := Ten()))
  {
    r := SetsTimerMeanwhile();
    var s, s' := ST.Late([], EXEC, Running(0), false, Idle, false, 1, 1),
      ST.Late([], TERM, Counted(0), false, Idle, false, 0, 1);
    var p := ST.EndsMeanwhile();
    r := Follow(r, Bare(s, Unread, NoTimerSeen({}), map[]).(timers := Ten()), p, {});
    r := SeesNoEvent(r, Bare(s', Unread, NoTimerSeen({}), map[]).(timers := Ten()), 1);
    BareLook(s', Unread, NoTimerSeen({}), map[], NoEventSeen({}, 0));
  }

  lemma LateStops(v: World, life: Life)
    requires v.sched == ST.Late([], life, Counted(0), false, Idle, false, 0, 1)
    requires Looks(v, 1, NoEventSeen({}, 0))
    ensures MayReadRest(v, 1) && Stopping(v.sched)
  {
  }

  ghost predicate PassesWithTimer(r: Run, w: nat) {
    Possible(r) && MayReadRest(End(r), w) && Stopping(End(r).sched) && !NoTimer(End(r).timers)
  }

  /** The test can pass although a timer is set: made after the timers were read. */
  lemma StopsEarly()
    ensures exists r, w :: PassesWithTimer(r, w)
  {
    var r := EndsMeanwhile();
    TenIsSet();
    LateStops(End(r), TERM);
    assert PassesWithTimer(r, 1);
  }

  // --- and an event is registered by whoever leaves last -----------------------------------------------

  // A worker's idle fiber ends, and nothing else happened yet but in the scheduler.
  lemma BareEnds(r: Run, s: State, l0: Look, l1: Look, passed: map<nat, Look>, w: nat) returns (r': Run)
    requires Leads(r, Bare(s, l0, l1, passed)) && w < 2 && AtPc(s, w, Idle) && [l0, l1][w] == Unread && Stopping(s)
    ensures var (m0, m1) := if w == 0 then (SEEN, l1) else (l0, SEEN);
      Leads(r', Bare(Take(s, TestIdle(w, true)), m0, m1, passed[w := SEEN]))
  {
    BareLook(s, l0, l1, passed, SEEN);
    r' := Ends(r, Bare(s, l0, l1, passed), w);
  }

  const SEEN := NoEventSeen({}, 0)

  lemma TestsAre()
    ensures var s := ST.Late([], READY, Counted(0), false, Idle, false, 0, 1);
      Stopping(s) && Take(s, TestIdle(1, true)) == ST.Late([], READY, Counted(0), false, IdleDone, true, 0, 1)
    ensures var s := ST.Late([], READY, Idle, false, Counted(0), true, 0, 1);
      Stopping(s) && Take(s, TestIdle(0, true)) == ST.Late([], READY, IdleDone, true, Counted(0), true, 0, 1)
  {
  }

  // Both idle fibers end while a ready fiber is with the other worker.
  lemma SecondEnds() returns (r: Run)
    ensures Leads(r, Bare(ST.Late([], READY, Counted(0), false, IdleDone, true, 0, 1), Unread, SEEN, map[1 := SEEN]))
  {
    var q := ST.IdleWhileReady();
    var s := ST.Late([], READY, Counted(0), false, Idle, false, 0, 1);
    LiftedTwo(q, s);
    TestsAre();
    r := BareEnds(Lifted(q), s, Unread, Unread, map[], 1);
  }

  lemma FirstEnds() returns (r: Run)
    ensures Leads(r, Bare(ST.Late([], READY, IdleDone, true, Counted(0), true, 0, 1), SEEN, SEEN, map[1 := SEEN,
      0 := SEEN]))
  {
    r := SecondEnds();
    var p := ST.RunsAgain();
    r := Follow(r, Bare(ST.Late([], READY, Counted(0), false, IdleDone, true, 0, 1), Unread, SEEN,
      map[1 := SEEN]), p, {0});
    TestsAre();
    r := BareEnds(r, ST.Late([], READY, Idle, false, Counted(0), true, 0, 1), Unread, SEEN, map[1 := SEEN], 0);
  }

  // The first worker has left; the second runs the fiber once more.
  lemma FirstLeaves() returns (r: Run)
    ensures Leads(r, Bare(ST.Late([], EXEC, Left, true, Running(0), true, 1, 0), SEEN, SEEN, map[1 := SEEN, 0 := SEEN]))
  {
    r := FirstEnds();
    var p := ST.RunsAlone();
    r := Follow(r, Bare(ST.Late([], READY, IdleDone, true, Counted(0), true, 0, 1), SEEN, SEEN, map[1 := SEEN,
      0 := SEEN]), p, {});
  }

  // The fiber registers an event, for itself.
  lemma RegistersItself() returns (r: Run, v: World)
    ensures Leads(r, v) && v.sched == ST.Late([], EXEC, Left, true, Running(0), true, 1, 0) && !NoEvent(v.io)
  {
    r := FirstLeaves();
    v := Bare(ST.Late([], EXEC, Left, true, Running(0), true, 1, 0), SEEN, SEEN, map[1 := SEEN, 0 := SEEN]);
    AnotherIs(v.io);
    r := Then(r, OnEvents(Task(1), Another(v.io)));
    assert CanDo(v, r.deed);
    v := AfterEvents(v, Another(v.io));
  }

  ghost predicate LeavesEvent(v: World) {
    && v.sched.queue == [] && !NoEvent(v.io)
    && forall w :: 0 <= w < |v.sched.workers| ==> v.sched.workers[w].pc.Left?
  }

  lemma LateLeft()
    ensures var s := ST.Late([], HOLD, Left, true, Left, true, 0, 0);
      s.queue == [] && forall w :: 0 <= w < |s.workers| ==> s.workers[w].pc.Left?
  {
  }

  /** All workers can leave with an event registered: a worker whose idle fiber has ended takes up a
      fiber that was put back late, and that fiber registers an event and parks. */
  lemma LeftWithEvent()
    ensures exists r :: Possible(r) && LeavesEvent(End(r))
  {
    var r, v := RegistersItself();
    var p := ST.ParksAlone();
    r := Follow(r, v, p, {});
    LateLeft();
    assert LeavesEvent(v.(sched := ST.Late([], HOLD, Left, true, Left, true, 0, 0)));
  }
}
