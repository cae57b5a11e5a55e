/** Interleavings that do happen: what the scheduler does not promise. */
module SchedTraces {
  import opened SchedSpec
  import opened SchedRuns
  import opened SchedPlaces

  ghost predicate Leads(r: Run, s: State) { Possible(r) && End(r) == s }

  /** No thread makes the scheduler and runs in it, and no idle fiber was at its test. */
  predicate Untested(r: Run) {
    match r
    case Begins(threads, root) => threads > 0 && !root
    case Then(r', a) => Untested(r') && !a.TestIdle? && !a.Skip? && !a.Spawn?
  }

  lemma Next(r: Run, s: State, a: Act, s': State)
    requires Leads(r, s) && CanTake(s, a) && Take(s, a) == s'
    ensures Leads(Then(r, a), s')
    ensures Untested(r) && !a.TestIdle? && !a.Skip? && !a.Spawn? ==> Untested(Then(r, a))
  {
  }

  // Two workers and one task, before anyone asked to stop.
  function Two(queue: seq<Entry>, life: Life, p: Pc, q: Pc, active: nat): State {
    State(queue, map[0 := life], [Worker(p, false), Worker(q, false)], false, active, 0, false, false)
  }

  const CALL := Entry(0, true, -1)
  const WAKE := Entry(0, false, -1)

  lemma Launched() returns (r: Run)
    ensures Untested(r) && Leads(r, State([], map[], [Worker(Top, false), Worker(Top, false)], false, 0, 0, false,
      false))
  {
    var t, u := Worker(Top, false), Worker(NotStarted, false);
    var s0 := State([], map[], [u, u], false, 0, 0, false, false);
    var s1 := State([], map[], [t, u], false, 0, 0, false, false);
    r := Begins(2, false);
    assert Start(2, false).workers == [u, u];
    assert End(r) == s0;
    Next(r, s0, Launch(0), s1);
    r := Then(r, Launch(0));
    Next(r, s1, Launch(1), s1.(workers := [t, t]));
    r := Then(r, Launch(1));
  }

  // The first worker takes up a task.
  lemma FirstBegins() returns (r: Run)
    ensures Untested(r) && Leads(r, Two([], EXEC, Running(0), Top, 1))
  {
    r := Launched();
    var s2 := State([], map[], [Worker(Top, false), Worker(Top, false)], false, 0, 0, false, false);
    var s3 := Two([CALL], INIT, Top, Top, 0);
    Next(r, s2, Submit(CALL), s3);
    r := Then(r, Submit(CALL));
    var s4 := Two([], INIT, Took(0), Top, 1);
    Next(r, s3, Scan(0), s4);
    r := Then(r, Scan(0));
    Next(r, s4, Begin(0), Two([], EXEC, Running(0), Top, 1));
    r := Then(r, Begin(0));
  }

  // The first worker runs a task and lets go of it, but has not looked at what became of it.
  lemma FirstRuns(life: Life) returns (r: Run)
    requires life == HOLD || life == READY
    ensures Untested(r) && Leads(r, Two([], life, Counted(0), Top, 0))
  {
    r := FirstBegins();
    var s5 := Two([], EXEC, Running(0), Top, 1);
    var s6 := Two([], life, Back(0), Top, 1);
    Next(r, s5, Yield(0, life), s6);
    r := Then(r, Yield(0, life));
    Next(r, s6, Discount(0), Two([], life, Counted(0), Top, 0));
    r := Then(r, Discount(0));
  }

  /** The test for the end can hold while a task that is ready is still to be put back. */
  lemma StoppingBeforeRequeue()
    ensures exists r :: Possible(r) && Stopping(End(r)) && Lingers(End(r), 0, 0) && LifeOf(End(r).tasks, 0) == READY
  {
    var r := FirstRuns(READY);
    var s := Two([], READY, Counted(0), Top, 0);
    Next(r, s, AskStop, s.(autoStop := true));
    r := Then(r, AskStop);
    Next(r, s.(autoStop := true), SetStopping, s.(autoStop := true, stopping := true));
    r := Then(r, SetStopping);
    assert Stopping(End(r)) && Lingers(End(r), 0, 0);
  }

  // The fiber is woken and taken before the first worker looked at it.
  lemma WokenEarly() returns (r: Run)
    ensures Leads(r, Two([], HOLD, Counted(0), Took(0), 1))
  {
    r := FirstRuns(HOLD);
    var s1 := Two([WAKE], HOLD, Counted(0), Top, 0);
    Next(r, Two([], HOLD, Counted(0), Top, 0), Submit(WAKE), s1);
    r := Then(r, Submit(WAKE));
    Next(r, s1, Scan(1), Two([], HOLD, Counted(0), Took(0), 1));
    r := Then(r, Scan(1));
  }

  // Then it gives way to be put back.
  lemma ReadyTwice() returns (r: Run)
    ensures Leads(r, Two([], READY, Counted(0), Counted(0), 0))
  {
    r := WokenEarly();
    var s2 := Two([], HOLD, Counted(0), Took(0), 1);
    var s3 := Two([], EXEC, Counted(0), Running(0), 1);
    Next(r, s2, Begin(1), s3);
    r := Then(r, Begin(1));
    var s4 := Two([], READY, Counted(0), Back(0), 1);
    Next(r, s3, Yield(1, READY), s4);
    r := Then(r, Yield(1, READY));
    Next(r, s4, Discount(1), Two([], READY, Counted(0), Counted(0), 0));
    r := Then(r, Discount(1));
  }

  /** A fiber that is woken before its worker looked at it, and then gives way to be put back, is
      queued twice; two workers take it, and the assertion that it does not run already fails. */
  lemma QueuedTwice()
    ensures exists r :: Possible(r) && TookBy(End(r), 1, 0) && !CanTake(End(r), Begin(1))
  {
    var r := ReadyTwice();
    var s1 := Two([WAKE], READY, Top, Counted(0), 0);
    Next(r, Two([], READY, Counted(0), Counted(0), 0), Requeue(0), s1);
    r := Then(r, Requeue(0));
    var s2 := Two([WAKE, WAKE], READY, Top, Top, 0);
    Next(r, s1, Requeue(1), s2);
    r := Then(r, Requeue(1));
    var s3 := Two([WAKE], READY, Took(0), Top, 1);
    Next(r, s2, Scan(0), s3);
    r := Then(r, Scan(0));
    var s4 := Two([], READY, Took(0), Took(0), 2);
    Next(r, s3, Scan(1), s4);
    r := Then(r, Scan(1));
    Next(r, s4, Begin(0), Two([], EXEC, Running(0), Took(0), 2));
    r := Then(r, Begin(0));
    assert TookBy(End(r), 1, 0) && !CanTake(End(r), Begin(1));
  }

  // The same two workers after the stop; `over` tells whose idle fiber has ended.
  function Late(queue: seq<Entry>, life: Life, p: Pc, over0: bool, q: Pc, over1: bool, active: nat, idle: nat): State {
    State(queue, map[0 := life], [Worker(p, over0), Worker(q, over1)], false, active, idle, true, true)
  }

  // A stop is asked for while the first worker runs a fiber and the second is idle.
  lemma IdleMeanwhile() returns (r: Run)
    ensures Untested(r) && Leads(r, Late([], EXEC, Running(0), false, Idle, false, 1, 1))
  {
    r := FirstBegins();
    var s := Two([], EXEC, Running(0), Top, 1);
    Next(r, s, AskStop, s.(autoStop := true));
    r := Then(r, AskStop);
    var s1 := Late([], EXEC, Running(0), false, Top, false, 1, 0);
    Next(r, s.(autoStop := true), SetStopping, s1);
    r := Then(r, SetStopping);
    var s2 := Late([], EXEC, Running(0), false, Missed, false, 1, 0);
    Next(r, s1, Scan(1), s2);
    r := Then(r, Scan(1));
    Next(r, s2, EnterIdle(1), Late([], EXEC, Running(0), false, Idle, false, 1, 1));
    r := Then(r, EnterIdle(1));
  }

  // A stop is asked for before the first worker put a fiber back, and the second is idle.
  lemma IdleWhileReady() returns (r: Run)
    ensures Untested(r) && Leads(r, Late([], READY, Counted(0), false, Idle, false, 0, 1))
  {
    r := FirstRuns(READY);
    var s := Two([], READY, Counted(0), Top, 0);
    Next(r, s, AskStop, s.(autoStop := true));
    r := Then(r, AskStop);
    var s1 := Late([], READY, Counted(0), false, Top, false, 0, 0);
    Next(r, s.(autoStop := true), SetStopping, s1);
    r := Then(r, SetStopping);
    var s2 := Late([], READY, Counted(0), false, Missed, false, 0, 0);
    Next(r, s1, Scan(1), s2);
    r := Then(r, Scan(1));
    Next(r, s2, EnterIdle(1), Late([], READY, Counted(0), false, Idle, false, 0, 1));
    r := Then(r, EnterIdle(1));
  }

  // The second worker's idle fiber ends while the first has yet to put the fiber back.
  lemma SecondEnds() returns (r: Run)
    ensures Leads(r, Late([], READY, Counted(0), false, IdleDone, true, 0, 1))
  {
    r := IdleWhileReady();
    var s3 := Late([], READY, Counted(0), false, Idle, false, 0, 1);
    var s4 := Late([], READY, Counted(0), false, IdleDone, true, 0, 1);
    Next(r, s3, TestIdle(1, true), s4);
    r := Then(r, TestIdle(1, true));
  }

  // --- the rest of the way, from whatever run led there -------------------------------------------------

  /** Steps from some state on. */
  datatype Path = Here | Onward(path: Path, act: Act)

  predicate Open(p: Path, s: State)
    decreases p, 0
  {
    p.Here? || (Open(p.path, s) && CanTake(Along(p.path, s), p.act))
  }

  function Along(p: Path, s: State): State
    requires Open(p, s)
    decreases p, 1
  {
    match p
    case Here => s
    case Onward(p', a) => Take(Along(p', s), a)
  }

  /** Nobody is at its test or queues anything, and only these workers enter their idle fibers. */
  predicate Idlers(p: Path, ws: set<nat>) {
    p.Here? || (Idlers(p.path, ws) && Plain(p.act, ws))
  }

  predicate Plain(a: Act, ws: set<nat>) {
    !a.TestIdle? && !a.Skip? && !a.Spawn? && (a.EnterIdle? ==> a.w in ws)
  }

  predicate Joins(p: Path, s: State, s': State, ws: set<nat>) {
    Open(p, s) && Along(p, s) == s' && Idlers(p, ws)
  }

  lemma Goes(p: Path, s: State, m: State, a: Act, s': State, ws: set<nat>) returns (p': Path)
    requires Joins(p, s, m, ws) && CanTake(m, a) && Take(m, a) == s' && Plain(a, ws)
    ensures Joins(p', s, s', ws)
  {
    p' := Onward(p, a);
  }

  lemma {:induction false} Follow(r: Run, s: State, p: Path) returns (r': Run)
    requires Leads(r, s) && Open(p, s)
    ensures Leads(r', Along(p, s))
  {
    match p
    case Here => r' := r;
    case Onward(p', a) =>
      r' := Follow(r, s, p');
      r' := Then(r', a);
  }

  // The second worker runs that fiber once more, and lets go of it while the first one is idle.
  lemma RunsAgain() returns (p: Path)
    ensures Joins(p, Late([], READY, Counted(0), false, IdleDone, true, 0, 1),
      Late([], READY, Idle, false, Counted(0), true, 0, 1), {0})
  {
    var s := Late([], READY, Counted(0), false, IdleDone, true, 0, 1);
    p := Here;
    var s1 := Late([], READY, Counted(0), false, Top, true, 0, 0);
    p := Goes(p, s, s, LeaveIdle(1), s1, {0});
    var s2 := Late([WAKE], READY, Top, false, Top, true, 0, 0);
    p := Goes(p, s, s1, Requeue(0), s2, {0});
    var s3 := Late([], READY, Top, false, Took(0), true, 1, 0);
    p := Goes(p, s, s2, Scan(1), s3, {0});
    var s4 := Late([], EXEC, Top, false, Running(0), true, 1, 0);
    p := Goes(p, s, s3, Begin(1), s4, {0});
    p := FirstIdles(p, s);
    var s5 := Late([], EXEC, Idle, false, Running(0), true, 1, 1);
    var s6 := Late([], READY, Idle, false, Back(0), true, 1, 1);
    p := Goes(p, s, s5, Yield(1, READY), s6, {0});
    p := Goes(p, s, s6, Discount(1), Late([], READY, Idle, false, Counted(0), true, 0, 1), {0});
  }

  lemma FirstIdles(p: Path, s: State) returns (p': Path)
    requires Joins(p, s, Late([], EXEC, Top, false, Running(0), true, 1, 0), {0})
    ensures Joins(p', s, Late([], EXEC, Idle, false, Running(0), true, 1, 1), {0})
  {
    var s1 := Late([], EXEC, Missed, false, Running(0), true, 1, 0);
    p' := Goes(p, s, Late([], EXEC, Top, false, Running(0), true, 1, 0), Scan(0), s1, {0});
    p' := Goes(p', s, s1, EnterIdle(0), Late([], EXEC, Idle, false, Running(0), true, 1, 1), {0});
  }

  // The first worker leaves; the second takes up that fiber once more.
  lemma RunsAlone() returns (p: Path)
    ensures Joins(p, Late([], READY, IdleDone, true, Counted(0), true, 0, 1),
      Late([], EXEC, Left, true, Running(0), true, 1, 0), {})
  {
    var s := Late([], READY, IdleDone, true, Counted(0), true, 0, 1);
    p := Here;
    var s1 := Late([], READY, Top, true, Counted(0), true, 0, 0);
    p := Goes(p, s, s, LeaveIdle(0), s1, {});
    var s2 := Late([], READY, Missed, true, Counted(0), true, 0, 0);
    p := Goes(p, s, s1, Scan(0), s2, {});
    var s3 := Late([], READY, Left, true, Counted(0), true, 0, 0);
    p := Goes(p, s, s2, Leave(0), s3, {});
    var s4 := Late([WAKE], READY, Left, true, Top, true, 0, 0);
    p := Goes(p, s, s3, Requeue(1), s4, {});
    var s5 := Late([], READY, Left, true, Took(0), true, 1, 0);
    p := Goes(p, s, s4, Scan(1), s5, {});
    p := Goes(p, s, s5, Begin(1), Late([], EXEC, Left, true, Running(0), true, 1, 0), {});
  }

  // The task of the first worker ends while the second is at its test.
  lemma EndsMeanwhile() returns (p: Path)
    ensures Joins(p, Late([], EXEC, Running(0), false, Idle, false, 1, 1),
      Late([], TERM, Counted(0), false, Idle, false, 0, 1), {})
  {
    var s := Late([], EXEC, Running(0), false, Idle, false, 1, 1);
    var s1 := Late([], TERM, Back(0), false, Idle, false, 1, 1);
    p := Goes(Here, s, s, Yield(0, TERM), s1, {});
    p := Goes(p, s, s1, Discount(0), Late([], TERM, Counted(0), false, Idle, false, 0, 1), {});
  }

  // That fiber parks, and the second worker leaves as well.
  lemma ParksAlone() returns (p: Path)
    ensures Joins(p, Late([], EXEC, Left, true, Running(0), true, 1, 0),
      Late([], HOLD, Left, true, Left, true, 0, 0), {})
  {
    var s := Late([], EXEC, Left, true, Running(0), true, 1, 0);
    p := Here;
    var s1 := Late([], HOLD, Left, true, Back(0), true, 1, 0);
    p := Goes(p, s, s, Yield(1, HOLD), s1, {});
    var s2 := Late([], HOLD, Left, true, Counted(0), true, 0, 0);
    p := Goes(p, s, s1, Discount(1), s2, {});
    var s3 := Late([], HOLD, Left, true, Top, true, 0, 0);
    p := Goes(p, s, s2, Requeue(1), s3, {});
    p := LastLeaves(p, s);
  }

  lemma LastLeaves(p: Path, s: State) returns (p': Path)
    requires Joins(p, s, Late([], HOLD, Left, true, Top, true, 0, 0), {})
    ensures Joins(p', s, Late([], HOLD, Left, true, Left, true, 0, 0), {})
  {
    var s1 := Late([], HOLD, Left, true, Missed, true, 0, 0);
    p' := Goes(p, s, Late([], HOLD, Left, true, Top, true, 0, 0), Scan(1), s1, {});
    p' := Goes(p', s, s1, Leave(1), Late([], HOLD, Left, true, Left, true, 0, 0), {});
  }

  // The idle fiber of the first worker ends as well, while the fiber is with the second.
  lemma FirstEnds() returns (r: Run)
    ensures Leads(r, Late([], READY, IdleDone, true, Counted(0), true, 0, 1))
  {
    r := SecondEnds();
    var p := RunsAgain();
    r := Follow(r, Late([], READY, Counted(0), false, IdleDone, true, 0, 1), p);
    Next(r, Late([], READY, Idle, false, Counted(0), true, 0, 1), TestIdle(0, true),
      Late([], READY, IdleDone, true, Counted(0), true, 0, 1));
    r := Then(r, TestIdle(0, true));
  }

  lemma FirstLeaves() returns (r: Run)
    ensures Leads(r, Late([], EXEC, Left, true, Running(0), true, 1, 0))
  {
    r := FirstEnds();
    var p := RunsAlone();
    r := Follow(r, Late([], READY, IdleDone, true, Counted(0), true, 0, 1), p);
  }

  // Which queues something for the first one, and ends.
  lemma PinnedSpawned() returns (r: Run)
    ensures Leads(r, Last(TERM, Counted(0), 0))
  {
    r := FirstLeaves();
    var s := Late([], EXEC, Left, true, Running(0), true, 1, 0);
    Next(r, s, Spawn(1, PINNED), Last(EXEC, Running(0), 1));
    r := Then(r, Spawn(1, PINNED));
    Next(r, Last(EXEC, Running(0), 1), Yield(1, TERM), Last(TERM, Back(0), 1));
    r := Then(r, Yield(1, TERM));
    Next(r, Last(TERM, Back(0), 1), Discount(1), Last(TERM, Counted(0), 0));
    r := Then(r, Discount(1));
  }

  const PINNED := Entry(1, true, 0)

  // The first worker has left, and something is queued for it.
  function Last(life: Life, q: Pc, active: nat): State {
    State([PINNED], map[0 := life, 1 := INIT], [Worker(Left, true), Worker(q, true)], false, active, 0, true, true)
  }

  /** What is pinned can be left behind: a task that runs after a worker has left may queue another
      one for it, and nobody is there to take it. */
  lemma PinnedStranded()
    ensures exists r ::
      Possible(r) && |End(r).workers| == 2 && End(r).workers[0].pc.Left? && End(r).workers[1].pc.Left? &&
      End(r).queue == [Entry(1, true, 0)]
  {
    var r := PinnedSpawned();
    Next(r, Last(TERM, Counted(0), 0), Requeue(1), Last(TERM, Top, 0));
    r := Then(r, Requeue(1));
    assert !Takeable(PINNED, Last(TERM, Top, 0).tasks, 1);
    Next(r, Last(TERM, Top, 0), Scan(1), Last(TERM, Missed, 0));
    r := Then(r, Scan(1));
    Next(r, Last(TERM, Missed, 0), Leave(1), Last(TERM, Left, 0));
    r := Then(r, Leave(1));
    assert End(r).queue == [PINNED];
  }
}
