/** What every interleaving of the workers keeps. */
module SchedRuns {
  import opened SchedSpec

  // --- counters ----------------------------------------------------------------------------------------

  /** Between taking a task and the decrement that goes with it. */
  predicate IsActive(x: Worker) { x.pc.Took? || x.pc.Running? || x.pc.Back? }

  predicate IsIdle(x: Worker) { x.pc.Idle? || x.pc.IdleDone? }

  function Actives(ws: seq<Worker>): nat {
    if ws == [] then 0 else Actives(ws[..|ws| - 1]) + if IsActive(ws[|ws| - 1]) then 1 else 0
  }

  function Idles(ws: seq<Worker>): nat {
    if ws == [] then 0 else Idles(ws[..|ws| - 1]) + if IsIdle(ws[|ws| - 1]) then 1 else 0
  }

  lemma {:induction false} CountsUpdate(ws: seq<Worker>, w: nat, x: Worker)
    requires w < |ws|
    ensures Actives(ws[w := x]) == Actives(ws) - (if IsActive(ws[w]) then 1 else 0) + (if IsActive(x) then 1 else 0)
    ensures Idles(ws[w := x]) == Idles(ws) - (if IsIdle(ws[w]) then 1 else 0) + (if IsIdle(x) then 1 else 0)
  {
    var n := |ws| - 1;
    if w == n {
      assert ws[w := x][..n] == ws[..n];
    } else {
      assert ws[w := x][..n] == ws[..n][w := x];
      CountsUpdate(ws[..n], w, x);
    }
  }

  lemma {:induction false} NoActives(ws: seq<Worker>)
    ensures Actives(ws) == 0 <==> forall w :: 0 <= w < |ws| ==> !IsActive(ws[w])
  {
    if ws != [] {
      NoActives(ws[..|ws| - 1]);
      assert forall w :: 0 <= w < |ws| - 1 ==> ws[w] == ws[..|ws| - 1][w];
    }
  }

  /** The counters count the workers between taking and decrementing, and those in the idle
      fiber. */
  predicate CountsOk(s: State) { s.active == Actives(s.workers) && s.idle == Idles(s.workers) }

  // Which worker a step moves, if any.
  function Mover(a: Act): int {
    match a
    case Skip => 0
    case Submit(_) => -1
    case Spawn(_, _) => -1
    case AskStop => -1
    case SetStopping => -1
    case _ => a.w
  }

  function Bit(b: bool): int { if b then 1 else 0 }

  // One worker moves, and the counters with it.
  ghost predicate Moved(s: State, s': State, w: nat) {
    && w < |s.workers| && |s'.workers| == |s.workers| && s'.workers == s.workers[w := s'.workers[w]]
    && s'.active - s.active == Bit(IsActive(s'.workers[w])) - Bit(IsActive(s.workers[w]))
    && s'.idle - s.idle == Bit(IsIdle(s'.workers[w])) - Bit(IsIdle(s.workers[w]))
  }

  lemma GoToMoves(s: State, s': State, w: nat, pc: Pc)
    requires w < |s.workers| && s'.workers == GoTo(s, w, pc).workers
    requires s'.active - s.active == Bit(IsActive(Worker(pc, false))) - Bit(IsActive(s.workers[w]))
    requires s'.idle - s.idle == Bit(IsIdle(Worker(pc, false))) - Bit(IsIdle(s.workers[w]))
    ensures Moved(s, s', w)
  {
  }

  lemma ScanMoves(s: State, w: nat)
    requires CanTake(s, Scan(w))
    ensures Moved(s, Scanned(s, w), w)
  {
    GoToMoves(s, Scanned(s, w), w, Scanned(s, w).workers[w].pc);
  }

  lemma BeginMoves(s: State, w: nat)
    requires CanTake(s, Begin(w))
    ensures Moved(s, Begun(s, w), w)
  {
    GoToMoves(s, Begun(s, w), w, Begun(s, w).workers[w].pc);
  }

  lemma TaskMoves(s: State, a: Act)
    requires CanTake(s, a) && (a.Yield? || a.Discount? || a.Requeue?)
    ensures Moved(s, Take(s, a), a.w)
  {
    GoToMoves(s, Take(s, a), a.w, Take(s, a).workers[a.w].pc);
  }

  lemma IdleMoves(s: State, a: Act)
    requires CanTake(s, a) && (a.EnterIdle? || a.TestIdle? || a.LeaveIdle?)
    ensures Moved(s, Take(s, a), a.w)
  {
  }

  lemma EndMoves(s: State, a: Act)
    requires CanTake(s, a) && (a.Launch? || a.Skip? || a.Leave?)
    ensures Moved(s, Take(s, a), Mover(a))
  {
    GoToMoves(s, Take(s, a), Mover(a), Take(s, a).workers[Mover(a)].pc);
  }

  lemma TakeMoves(s: State, a: Act)
    requires CanTake(s, a)
    ensures if Mover(a) == -1 then
              var s' := Take(s, a); (s'.workers, s'.active, s'.idle) == (s.workers, s.active, s.idle)
            else Moved(s, Take(s, a), Mover(a))
  {
    match a
    case Scan(w) => ScanMoves(s, w);
    case Begin(w) => BeginMoves(s, w);
    case Yield(_, _) => TaskMoves(s, a);
    case Discount(_) => TaskMoves(s, a);
    case Requeue(_) => TaskMoves(s, a);
    case EnterIdle(_) => IdleMoves(s, a);
    case TestIdle(_, _) => IdleMoves(s, a);
    case LeaveIdle(_) => IdleMoves(s, a);
    case Launch(_) => EndMoves(s, a);
    case Skip => EndMoves(s, a);
    case Leave(_) => EndMoves(s, a);
    case Submit(_) =>
    case Spawn(_, _) =>
    case AskStop =>
    case SetStopping =>
  }

  lemma TakeKeepsCounts(s: State, a: Act)
    requires CountsOk(s) && CanTake(s, a)
    ensures CountsOk(Take(s, a))
  {
    TakeMoves(s, a);
    var s' := Take(s, a);
    if Mover(a) != -1 { CountsUpdate(s.workers, Mover(a), s'.workers[Mover(a)]); }
  }

  // --- running -----------------------------------------------------------------------------------------

  predicate RunsOn(ws: seq<Worker>, w: nat, t: nat) { w < |ws| && ws[w].pc == Running(t) }

  /** A fiber runs on exactly one worker when its state says it runs, and on none otherwise. */
  ghost predicate ExecOk(tasks: map<nat, Life>, ws: seq<Worker>) {
    && (forall t :: t in tasks && tasks[t] == EXEC ==> exists w: nat :: RunsOn(ws, w, t))
    && (forall w: nat, t: nat :: RunsOn(ws, w, t) ==> t in tasks && tasks[t] == EXEC)
    && (forall v: nat, w: nat, t: nat :: RunsOn(ws, v, t) && RunsOn(ws, w, t) ==> v == w)
  }

  // A worker moves between places where it runs nothing.
  lemma ExecMove(tasks: map<nat, Life>, ws: seq<Worker>, w: nat, x: Worker)
    requires ExecOk(tasks, ws) && w < |ws| && !ws[w].pc.Running? && !x.pc.Running?
    ensures ExecOk(tasks, ws[w := x])
  {
    var ws' := ws[w := x];
    assert forall v: nat, u: nat :: RunsOn(ws', v, u) ==> RunsOn(ws, v, u);
    assert forall v: nat, u: nat :: RunsOn(ws, v, u) ==> RunsOn(ws', v, u);
  }

  lemma ExecBegin(tasks: map<nat, Life>, ws: seq<Worker>, w: nat, x: Worker, t: nat)
    requires ExecOk(tasks, ws) && w < |ws| && !ws[w].pc.Running? && x.pc == Running(t) && LifeOf(tasks, t) != EXEC
    ensures ExecOk(tasks[t := EXEC], ws[w := x])
  {
    var ws' := ws[w := x];
    assert RunsOn(ws', w, t);
    assert forall v: nat, u: nat :: RunsOn(ws', v, u) && v != w ==> RunsOn(ws, v, u);
    assert forall v: nat, u: nat :: RunsOn(ws, v, u) ==> RunsOn(ws', v, u);
  }

  lemma ExecYield(tasks: map<nat, Life>, ws: seq<Worker>, w: nat, x: Worker, t: nat, life: Life)
    requires ExecOk(tasks, ws) && RunsOn(ws, w, t) && !x.pc.Running? && life != EXEC
    ensures ExecOk(tasks[t := life], ws[w := x])
  {
    var ws' := ws[w := x];
    assert forall v: nat, u: nat :: RunsOn(ws', v, u) ==> RunsOn(ws, v, u);
    assert forall v: nat, u: nat :: RunsOn(ws, v, u) && v != w ==> RunsOn(ws', v, u);
  }

  lemma TakeKeepsExec(s: State, a: Act)
    requires ExecOk(s.tasks, s.workers) && CanTake(s, a)
    ensures ExecOk(Take(s, a).tasks, Take(s, a).workers)
  {
    var s' := Take(s, a);
    var w := Mover(a);
    if a.Yield? {
      ExecYield(s.tasks, s.workers, w, s'.workers[w], s.workers[w].pc.task, a.life);
    } else if a.Begin? && s'.workers[w].pc.Running? {
      ExecBegin(s.tasks, s.workers, w, s'.workers[w], s.workers[w].pc.task);
    } else if w != -1 {
      ExecMove(s.tasks, s.workers, w, s'.workers[w]);
    }
  }

  // --- nothing left behind -------------------------------------------------------------------------

  /** The worker will look at the queue again before it leaves. */
  predicate WillLook(x: Worker) {
    !x.pc.Left? && !(x.pc.Missed? && x.idleOver)
  }

  /** While something that is pinned to nobody is queued, some worker will look again; before the
      stop, all of them will. */
  ghost predicate LookedAfter(s: State) {
    && s.workers != []
    && (!s.autoStop ==> forall w :: 0 <= w < |s.workers| ==> WillLook(s.workers[w]) && !s.workers[w].idleOver)
    && ((exists i: nat :: FreeAt(s.queue, i)) ==> exists w: nat :: Looker(s.workers, w))
  }

  predicate Looker(ws: seq<Worker>, w: nat) { w < |ws| && WillLook(ws[w]) }

  predicate FreeAt(queue: seq<Entry>, i: nat) { i < |queue| && queue[i].thread == -1 }

  // Who leaves without looking again found nothing that is pinned to nobody, but what runs elsewhere.
  lemma LastLook(s: State, w: nat, i: nat)
    requires ExecOk(s.tasks, s.workers) && CanTake(s, Scan(w)) && Scanned(s, w).workers[w].pc.Missed?
    requires FreeAt(s.queue, i)
    ensures exists v: nat :: Looker(Scanned(s, w).workers, v) && v != w
  {
    assert !Takeable(s.queue[i], s.tasks, w);
    var v: nat :| RunsOn(s.workers, v, s.queue[i].task);
    assert Looker(Scanned(s, w).workers, v) && v != w;
  }

  // A step that queues nothing, of a worker that will not look again, and did not look now.
  lemma OthersLook(s: State, a: Act, i: nat)
    requires LookedAfter(s) && CanTake(s, a) && FreeAt(Take(s, a).queue, i)
    requires !a.Submit? && !a.Spawn? && !a.Scan? && (Mover(a) == -1 || !Looker(Take(s, a).workers, Mover(a)))
    ensures exists v: nat :: Looker(Take(s, a).workers, v)
  {
    assert FreeAt(s.queue, i);
    var v: nat :| Looker(s.workers, v);
    assert v != Mover(a) ==> Looker(Take(s, a).workers, v);
  }

  lemma TakeKeepsLookedAfter(s: State, a: Act)
    requires ExecOk(s.tasks, s.workers) && LookedAfter(s) && CanTake(s, a)
    ensures LookedAfter(Take(s, a))
  {
    var s', w := Take(s, a), Mover(a);
    if i: nat :| FreeAt(s'.queue, i) {
      if a.Submit? {
        assert Looker(s'.workers, 0);
      } else if a.Spawn? {
        assert Looker(s'.workers, a.w);
      } else if w != -1 && Looker(s'.workers, w) {
      } else if a.Scan? {
        LastLook(s, w, i);
      } else {
        OthersLook(s, a, i);
      }
    }
  }

  // --- every run ---------------------------------------------------------------------------------------

  ghost predicate Inv(s: State) {
    CountsOk(s) && ExecOk(s.tasks, s.workers) && LookedAfter(s)
  }

  lemma TakeKeeps(s: State, a: Act)
    requires Inv(s) && CanTake(s, a)
    ensures Inv(Take(s, a)) && |Take(s, a).workers| == |s.workers|
  {
    TakeKeepsCounts(s, a);
    TakeKeepsExec(s, a);
    TakeKeepsLookedAfter(s, a);
  }

  /** A run: the steps taken from the start with so many workers. */
  datatype Run = Begins(threads: nat, root: bool) | Then(run: Run, act: Act)

  function End(r: Run): State
    requires Possible(r)
    decreases r, 1
  {
    match r
    case Begins(threads, root) => Start(threads, root)
    case Then(r', a) => Take(End(r'), a)
  }

  predicate Possible(r: Run)
    decreases r, 0
  {
    r.Begins? || (Possible(r.run) && CanTake(End(r.run), r.act))
  }

  function Threads(r: Run): nat {
    match r case Begins(threads, _) => threads case Then(r', _) => Threads(r')
  }

  lemma {:induction false} StartCounts(threads: nat)
    ensures Actives(Start(threads, false).workers) == 0 && Idles(Start(threads, false).workers) == 0
  {
    if threads > 0 {
      assert Start(threads, false).workers[..threads - 1] == Start(threads - 1, false).workers;
      StartCounts(threads - 1);
    }
  }

  lemma {:induction false} RunKeeps(r: Run)
    requires Possible(r) && Threads(r) > 0
    ensures Inv(End(r)) && |End(r).workers| == Threads(r)
  {
    match r
    case Begins(threads, root) =>
      StartCounts(threads);
      assert Start(threads, root).workers == Start(threads, false).workers;
    case Then(r', a) =>
      RunKeeps(r');
      TakeKeeps(End(r'), a);
  }

  /** In every interleaving: when the last worker has left, nothing is queued but what is pinned to
      some thread, although a worker may see the end coming while another has yet to put a task
      back. */
  lemma NothingStranded(r: Run)
    requires Possible(r) && Threads(r) > 0
    requires forall w :: 0 <= w < |End(r).workers| ==> End(r).workers[w].pc.Left?
    ensures forall i :: 0 <= i < |End(r).queue| ==> End(r).queue[i].thread != -1
  {
    RunKeeps(r);
    var s := End(r);
    forall i: nat | i < |s.queue|
      ensures s.queue[i].thread != -1
    {
      assert !FreeAt(s.queue, i);
    }
  }

  // The step with which a worker ends its idle fiber, or the making thread its wait.
  predicate IsPass(a: Act, w: nat) {
    a == TestIdle(w, true) || (a == Skip && w == 0)
  }

  /** In this run the worker made the test when it held. */
  predicate TestPassed(r: Run, w: nat)
    requires Possible(r)
  {
    r.Then? && (TestPassed(r.run, w) || (IsPass(r.act, w) && Stopping(End(r.run))))
  }

  lemma OverByTest(s: State, a: Act, w: nat)
    requires CanTake(s, a) && w < |s.workers|
    ensures |Take(s, a).workers| == |s.workers|
    ensures var x, x' := s.workers[w], Take(s, a).workers[w];
      (x'.idleOver || x'.pc.Left? ==> x.idleOver || x.pc.Left? || (IsPass(a, w) && Stopping(s)))
      && (IsPass(a, w) && Stopping(s) ==> x'.idleOver || x'.pc.Left?)
  {
    TakeMoves(s, a);
  }

  /** A worker's idle fiber ends, and the worker leaves, only after it made the test when that held. */
  lemma {:induction false} LeavesByTest(r: Run, w: nat)
    requires Possible(r) && w < |End(r).workers| && (End(r).workers[w].idleOver || End(r).workers[w].pc.Left?)
    ensures TestPassed(r, w)
  {
    if r.Then? {
      var s := End(r.run);
      TakeMoves(s, r.act);
      OverByTest(s, r.act, w);
      if !(IsPass(r.act, w) && Stopping(s)) { LeavesByTest(r.run, w); }
    }
  }

  /** When the test for the end holds, nothing is queued and no worker is between taking a task and
      letting go of it. */
  lemma StoppingMeans(r: Run)
    requires Possible(r) && Threads(r) > 0
    ensures var s := End(r);
      Stopping(s) <==>
      s.autoStop && s.stopping && s.queue == [] && forall w :: 0 <= w < |s.workers| ==> !IsActive(s.workers[w])
  {
    RunKeeps(r);
    NoActives(End(r).workers);
  }

  /** A worker takes the first entry that is neither pinned to another worker nor running: what it
      passes over stays, in order, and a pinned entry goes to its own thread only. */
  lemma ScanTakes(s: State, w: nat)
    requires CanTake(s, Scan(w))
    ensures var s' := Scanned(s, w);
      if s'.workers[w].pc.Missed? then
        s'.queue == s.queue && forall e :: e in s.queue ==> !Takeable(e, s.tasks, w)
      else
        exists i :: 0 <= i < |s.queue| && s.queue[i].task == s'.workers[w].pc.task
          && (s.queue[i].thread == -1 || s.queue[i].thread == w)
          && s'.queue == s.queue[..i] + s.queue[i + 1..]
          && forall k :: 0 <= k < i ==> !Takeable(s.queue[k], s.tasks, w)
  {
    var i := FirstTakeable(s.queue, s.tasks, w);
    if i < |s.queue| { assert s.queue[i].task == Scanned(s, w).workers[w].pc.task; }
  }
}
