/** Where each task is, when nobody queues a task that is queued already. */
module SchedPlaces {
  import opened SchedSpec
  import opened SchedRuns

  predicate QueuedAt(s: State, i: nat, t: nat) { i < |s.queue| && s.queue[i].task == t }

  ghost predicate Queued(s: State, t: nat) { exists i: nat :: QueuedAt(s, i, t) }

  predicate TookBy(s: State, w: nat, t: nat) { AtPc(s, w, Took(t)) }

  ghost predicate IsTaken(s: State, t: nat) { exists w: nat :: TookBy(s, w, t) }

  /** The worker ran this one and has not let go of it. */
  predicate Lingers(s: State, w: nat, t: nat) { AtPc(s, w, Back(t)) || AtPc(s, w, Counted(t)) }

  ghost predicate IsLingering(s: State, t: nat) { exists w: nat :: Lingers(s, w, t) }

  /** What the callers of the scheduler keep to.  A task is queued only when it is not queued, taken
      or ready already; it may be queued while it runs.  A callback is new.  A fiber gives way to
      be put back only when it was not queued meanwhile, and when no other worker still has to
      look at what became of it. */
  ghost predicate Disciplined(s: State, a: Act)
    requires CanTake(s, a)
  {
    match a
    case Submit(e) => MayQueue(s, e)
    case Spawn(_, e) => MayQueue(s, e)
    case Yield(w, life) => life == READY ==> MayYieldReady(s, s.workers[w].pc.task)
    case _ => true
  }

  ghost predicate MayQueue(s: State, e: Entry) {
    && !Queued(s, e.task) && !IsTaken(s, e.task) && LifeOf(s.tasks, e.task) != READY
    && (e.isCb ==> e.task !in s.tasks)
  }

  ghost predicate MayYieldReady(s: State, t: nat) { !Queued(s, t) && !IsLingering(s, t) }

  ghost predicate QueueOnce(s: State) {
    && (forall i: nat, j: nat, t: nat :: QueuedAt(s, i, t) && QueuedAt(s, j, t) ==> i == j)
    && (forall i: nat, t: nat :: QueuedAt(s, i, t) ==>
          t in s.tasks && !IsTaken(s, t) && (s.queue[i].isCb ==> s.tasks[t] == INIT))
  }

  ghost predicate TakenOnce(s: State) {
    && (forall v: nat, w: nat, t: nat :: TookBy(s, v, t) && TookBy(s, w, t) ==> v == w)
    && (forall w: nat, t: nat :: TookBy(s, w, t) ==> t in s.tasks && s.tasks[t] != EXEC)
  }

  /** A ready task waits in one place: queued, taken, or with the one worker that is to put it
      back. */
  ghost predicate ReadyOnce(s: State) {
    forall t :: t in s.tasks && s.tasks[t] == READY ==>
      && (Queued(s, t) || IsTaken(s, t) || IsLingering(s, t))
      && (forall w: nat :: Lingers(s, w, t) ==> !Queued(s, t) && !IsTaken(s, t))
      && (forall v: nat, w: nat :: Lingers(s, v, t) && Lingers(s, w, t) ==> v == w)
  }

  ghost predicate PlacesOk(s: State) {
    ExecOk(s.tasks, s.workers) && QueueOnce(s) && TakenOnce(s) && ReadyOnce(s)
  }

  // --- the steps -----------------------------------------------------------------------------------

  // A step that leaves queue and tasks alone and takes and lets go of nothing.
  lemma QuietKeeps(s: State, s': State)
    requires PlacesOk(s) && s'.queue == s.queue && s'.tasks == s.tasks && ExecOk(s'.tasks, s'.workers)
    requires forall w: nat, t: nat :: TookBy(s', w, t) <==> TookBy(s, w, t)
    requires forall w: nat, t: nat :: Lingers(s', w, t) <==> Lingers(s, w, t)
    ensures PlacesOk(s')
  {
    assert forall i: nat, t: nat :: QueuedAt(s', i, t) <==> QueuedAt(s, i, t);
  }

  // One more entry.  Whoever lingered with its task, if it was ready, does not any more.
  lemma EnqueueKeeps(s: State, s': State, e: Entry)
    requires PlacesOk(s) && ExecOk(s'.tasks, s'.workers)
    requires s'.queue == s.queue + [e] && s'.tasks == Enqueued(s, e).tasks
    requires !Queued(s, e.task) && !IsTaken(s, e.task) && (e.isCb ==> e.task !in s.tasks)
    requires forall w: nat, t: nat :: TookBy(s', w, t) <==> TookBy(s, w, t)
    requires forall w: nat, t: nat :: Lingers(s', w, t) ==> Lingers(s, w, t)
    requires forall w: nat, t: nat :: Lingers(s, w, t) && t != e.task ==> Lingers(s', w, t)
    requires LifeOf(s.tasks, e.task) == READY ==> !IsLingering(s', e.task)
    ensures PlacesOk(s')
  {
    assert forall i: nat, t: nat :: QueuedAt(s', i, t) && i < |s.queue| ==> QueuedAt(s, i, t);
    assert forall i: nat, t: nat :: QueuedAt(s, i, t) ==> QueuedAt(s', i, t);
    assert QueuedAt(s', |s.queue|, e.task);
    forall i: nat, j: nat, t: nat | QueuedAt(s', i, t) && QueuedAt(s', j, t)
      ensures i == j
    {
      assert i < |s.queue| ==> QueuedAt(s, i, t);
      assert j < |s.queue| ==> QueuedAt(s, j, t);
    }
  }

  lemma SubmitKeeps(s: State, e: Entry)
    requires PlacesOk(s) && MayQueue(s, e) && ExecOk(Enqueued(s, e).tasks, s.workers)
    ensures PlacesOk(Enqueued(s, e))
  {
    EnqueueKeeps(s, Enqueued(s, e), e);
  }

  lemma RequeueKeeps(s: State, w: nat)
    requires PlacesOk(s) && CanTake(s, Requeue(w)) && ExecOk(Requeued(s, w).tasks, Requeued(s, w).workers)
    ensures PlacesOk(Requeued(s, w))
  {
    var s', t := Requeued(s, w), s.workers[w].pc.task;
    assert Lingers(s, w, t);
    assert forall v: nat, u: nat :: TookBy(s', v, u) <==> TookBy(s, v, u);
    assert forall v: nat, u: nat :: Lingers(s', v, u) <==> Lingers(s, v, u) && v != w;
    if LifeOf(s.tasks, t) == READY {
      EnqueueKeeps(s, s', Entry(t, false, -1));
    } else {
      assert forall i: nat, u: nat :: QueuedAt(s', i, u) <==> QueuedAt(s, i, u);
    }
  }

  // What is queued without the entry that was taken.
  lemma TakenOut(s: State, s': State, i: nat)
    requires i < |s.queue| && s'.queue == s.queue[..i] + s.queue[i + 1..]
    requires forall k: nat, j: nat, u: nat :: QueuedAt(s, k, u) && QueuedAt(s, j, u) ==> k == j
    ensures forall u: nat :: Queued(s', u) <==> Queued(s, u) && u != s.queue[i].task
    ensures forall k: nat, u: nat :: QueuedAt(s', k, u) ==> QueuedAt(s, if k < i then k else k + 1, u)
  {
    assert QueuedAt(s, i, s.queue[i].task);
    forall k: nat, u: nat | QueuedAt(s', k, u)
      ensures QueuedAt(s, if k < i then k else k + 1, u) && u != s.queue[i].task
    {
      assert QueuedAt(s, if k < i then k else k + 1, u);
    }
    forall u: nat | Queued(s, u) && u != s.queue[i].task
      ensures Queued(s', u)
    {
      var k: nat :| QueuedAt(s, k, u);
      assert QueuedAt(s', if k < i then k else k - 1, u);
    }
  }

  // The entry is with a worker now.
  lemma TakenKeeps(s: State, s': State, w: nat, i: nat)
    requires PlacesOk(s) && ExecOk(s'.tasks, s'.workers) && s'.tasks == s.tasks
    requires i < |s.queue| && s'.queue == s.queue[..i] + s.queue[i + 1..] && TookBy(s', w, s.queue[i].task)
    requires s.tasks[s.queue[i].task] != EXEC
    requires forall v: nat, u: nat :: TookBy(s', v, u) ==> TookBy(s, v, u) || (v == w && u == s.queue[i].task)
    requires forall v: nat, u: nat :: TookBy(s, v, u) ==> TookBy(s', v, u)
    requires forall v: nat, u: nat :: Lingers(s', v, u) <==> Lingers(s, v, u)
    ensures PlacesOk(s')
  {
    var t := s.queue[i].task;
    assert QueuedAt(s, i, t);
    TakenOut(s, s', i);
    assert forall u: nat :: IsTaken(s', u) ==> IsTaken(s, u) || u == t;
  }

  lemma ScanTakenKeeps(s: State, w: nat)
    requires PlacesOk(s) && CanTake(s, Scan(w)) && ExecOk(Scanned(s, w).tasks, Scanned(s, w).workers)
    requires FirstTakeable(s.queue, s.tasks, w) < |s.queue|
    ensures PlacesOk(Scanned(s, w))
  {
    var s', i := Scanned(s, w), FirstTakeable(s.queue, s.tasks, w);
    assert QueuedAt(s, i, s.queue[i].task);
    assert forall v: nat, u: nat :: TookBy(s', v, u) ==> TookBy(s, v, u) || (v == w && u == s.queue[i].task);
    assert forall v: nat, u: nat :: TookBy(s, v, u) ==> TookBy(s', v, u);
    assert forall v: nat, u: nat :: Lingers(s', v, u) <==> Lingers(s, v, u);
    TakenKeeps(s, s', w, i);
  }

  lemma ScanKeeps(s: State, w: nat)
    requires PlacesOk(s) && CanTake(s, Scan(w)) && ExecOk(Scanned(s, w).tasks, Scanned(s, w).workers)
    ensures PlacesOk(Scanned(s, w))
  {
    var s', i := Scanned(s, w), FirstTakeable(s.queue, s.tasks, w);
    if i == |s.queue| {
      assert forall v: nat, u: nat :: TookBy(s', v, u) <==> TookBy(s, v, u);
      assert forall v: nat, u: nat :: Lingers(s', v, u) <==> Lingers(s, v, u);
      QuietKeeps(s, s');
    } else {
      ScanTakenKeeps(s, w);
    }
  }

  lemma BeginKeeps(s: State, w: nat)
    requires PlacesOk(s) && CanTake(s, Begin(w)) && ExecOk(Begun(s, w).tasks, Begun(s, w).workers)
    ensures PlacesOk(Begun(s, w))
  {
    var s', t := Begun(s, w), s.workers[w].pc.task;
    assert TookBy(s, w, t);
    assert forall v: nat, u: nat :: TookBy(s', v, u) <==> TookBy(s, v, u) && v != w;
    assert forall v: nat, u: nat :: Lingers(s', v, u) <==> Lingers(s, v, u);
    BegunKeeps(s, s', w, t);
  }

  // A task is taken no more: it runs, or has ended already.
  lemma BegunKeeps(s: State, s': State, w: nat, t: nat)
    requires PlacesOk(s) && TookBy(s, w, t) && ExecOk(s'.tasks, s'.workers) && s'.queue == s.queue
    requires forall v: nat, u: nat :: TookBy(s', v, u) <==> TookBy(s, v, u) && v != w
    requires forall v: nat, u: nat :: Lingers(s', v, u) <==> Lingers(s, v, u)
    requires t in s.tasks && s'.tasks == if Dead(s.tasks[t]) then s.tasks else s.tasks[t := EXEC]
    ensures PlacesOk(s')
  {
    assert forall i: nat, u: nat :: QueuedAt(s', i, u) <==> QueuedAt(s, i, u);
  }

  lemma YieldKeeps(s: State, w: nat, life: Life)
    requires PlacesOk(s) && CanTake(s, Yield(w, life)) && Disciplined(s, Yield(w, life))
    requires ExecOk(Take(s, Yield(w, life)).tasks, Take(s, Yield(w, life)).workers)
    ensures PlacesOk(Take(s, Yield(w, life)))
  {
    var s', t := Take(s, Yield(w, life)), s.workers[w].pc.task;
    assert RunsOn(s.workers, w, t) && Lingers(s', w, t);
    assert forall v: nat, u: nat :: TookBy(s', v, u) <==> TookBy(s, v, u);
    assert forall v: nat, u: nat :: Lingers(s', v, u) <==> Lingers(s, v, u) || (v == w && u == t);
    assert forall i: nat, u: nat :: QueuedAt(s', i, u) <==> QueuedAt(s, i, u);
  }

  lemma QuietTakeKeeps(s: State, a: Act)
    requires PlacesOk(s) && CanTake(s, a) && ExecOk(Take(s, a).tasks, Take(s, a).workers)
    requires !a.Submit? && !a.Spawn? && !a.Scan? && !a.Begin? && !a.Yield? && !a.Requeue?
    ensures PlacesOk(Take(s, a))
  {
    var s' := Take(s, a);
    assert forall w: nat, t: nat :: TookBy(s', w, t) <==> TookBy(s, w, t);
    assert forall w: nat, t: nat :: Lingers(s', w, t) <==> Lingers(s, w, t);
    QuietKeeps(s, s');
  }

  /** However the workers interleave, if the callers keep to the discipline. */
  lemma TakeKeepsPlaces(s: State, a: Act)
    requires PlacesOk(s) && CanTake(s, a) && Disciplined(s, a)
    ensures PlacesOk(Take(s, a))
  {
    TakeKeepsExec(s, a);
    match a
    case Submit(e) => SubmitKeeps(s, e);
    case Spawn(_, e) => SubmitKeeps(s, e);
    case Scan(w) => ScanKeeps(s, w);
    case Begin(w) => BeginKeeps(s, w);
    case Yield(w, life) => YieldKeeps(s, w, life);
    case Requeue(w) => RequeueKeeps(s, w);
    case _ => QuietTakeKeeps(s, a);
  }

  /** For giving way to be put back, the discipline is exactly what is needed. */
  lemma YieldReadyKeepsIff(s: State, w: nat)
    requires PlacesOk(s) && CanTake(s, Yield(w, READY))
    ensures PlacesOk(Take(s, Yield(w, READY))) <==> MayYieldReady(s, s.workers[w].pc.task)
  {
    var s', t := Take(s, Yield(w, READY)), s.workers[w].pc.task;
    TakeKeepsExec(s, Yield(w, READY));
    assert Lingers(s', w, t) && s'.tasks[t] == READY;
    if MayYieldReady(s, t) {
      YieldKeeps(s, w, READY);
    } else if Queued(s, t) {
      var i: nat :| QueuedAt(s, i, t);
      assert QueuedAt(s', i, t);
    } else {
      var v: nat :| Lingers(s, v, t);
      assert Lingers(s', v, t) && v != w;
    }
  }

  // --- what follows -----------------------------------------------------------------------------------

  datatype Place = InQueue | WithWorker | Suspended | Finished

  /** Queued and not running or over. */
  ghost predicate IsAt(s: State, t: nat, p: Place)
    requires t in s.tasks
  {
    match p
    case Finished => Dead(s.tasks[t])
    case Suspended => (s.tasks[t] == HOLD || s.tasks[t] == INIT) && !Queued(s, t) && !IsTaken(s, t)
    case InQueue => Queued(s, t) && s.tasks[t] != EXEC && !Dead(s.tasks[t])
    case WithWorker =>
      !Dead(s.tasks[t]) &&
      (IsTaken(s, t) || (exists w: nat :: RunsOn(s.workers, w, t)) || (s.tasks[t] == READY && IsLingering(s, t)))
  }

  /** Every task is in exactly one place. */
  lemma OnePlace(s: State, t: nat)
    requires PlacesOk(s) && t in s.tasks
    ensures exists p :: IsAt(s, t, p) && forall q :: IsAt(s, t, q) ==> q == p
  {
    var p := if Dead(s.tasks[t]) then Finished
             else if s.tasks[t] == EXEC || IsTaken(s, t) then WithWorker
             else if Queued(s, t) then InQueue
             else if s.tasks[t] == READY then WithWorker
             else Suspended;
    assert IsAt(s, t, p);
    forall q | IsAt(s, t, q)
      ensures q == p
    {
      match q case InQueue => case WithWorker => case Suspended => case Finished =>
    }
  }

  /** No two workers have the same task, and the assertion that a task does not run already when it
      is begun never fails. */
  lemma HeldByOne(s: State, v: nat, w: nat)
    requires PlacesOk(s) && v < |s.workers| && w < |s.workers|
    ensures s.workers[w].pc.Took? ==> CanTake(s, Begin(w))
    ensures v != w && (s.workers[v].pc.Took? || s.workers[v].pc.Running?)
                   && (s.workers[w].pc.Took? || s.workers[w].pc.Running?) ==>
      s.workers[v].pc.task != s.workers[w].pc.task
  {
    forall x: nat | x < |s.workers|
      ensures s.workers[x].pc.Took? ==> TookBy(s, x, s.workers[x].pc.task)
      ensures s.workers[x].pc.Running? ==> RunsOn(s.workers, x, s.workers[x].pc.task)
    {
    }
  }

  // --- runs ----------------------------------------------------------------------------------------

  /** Every step of the run was disciplined. */
  ghost predicate Kept(r: Run)
    requires Possible(r)
  {
    r.Begins? || (Kept(r.run) && Disciplined(End(r.run), r.act))
  }

  /** In every disciplined run each task is in one place, and taken tasks can begin. */
  lemma {:induction false} RunKeepsPlaces(r: Run)
    requires Possible(r) && Kept(r)
    ensures PlacesOk(End(r))
  {
    if r.Then? {
      RunKeepsPlaces(r.run);
      TakeKeepsPlaces(End(r.run), r.act);
    }
  }

  /** A task is never forgotten, and one that ended never runs again. */
  lemma TasksStay(s: State, a: Act, t: nat)
    requires PlacesOk(s) && CanTake(s, a) && t in s.tasks
    ensures t in Take(s, a).tasks
    ensures Dead(s.tasks[t]) ==> Take(s, a).tasks[t] == s.tasks[t]
  {
    if a.Yield? { assert RunsOn(s.workers, a.w, s.workers[a.w].pc.task); }
  }

  /** While the test for the end holds, a task is ready exactly if some worker has counted it off and
      is still to put it back. */
  lemma StoppingLeavesReadyIff(r: Run)
    requires Possible(r) && Threads(r) > 0 && Kept(r) && Stopping(End(r))
    ensures var s := End(r);
      (exists t :: t in s.tasks && s.tasks[t] == READY) <==>
      (exists w: nat, t: nat :: AtPc(s, w, Counted(t)) && LifeOf(s.tasks, t) == READY)
  {
    var s := End(r);
    StoppingMeans(r);
    RunKeepsPlaces(r);
    if t :| t in s.tasks && s.tasks[t] == READY {
      assert !Queued(s, t);
      assert forall w: nat :: w < |s.workers| ==> !TookBy(s, w, t);
      var w: nat :| Lingers(s, w, t);
      assert !IsActive(s.workers[w]);
      assert AtPc(s, w, Counted(t));
    }
  }

  /** A task may be queued while it runs, though it is taken only afterwards; and it is queued once. */
  lemma QueuedWhileRunning(s: State, w: nat, t: nat)
    requires PlacesOk(s) && RunsOn(s.workers, w, t) && !Queued(s, t)
    ensures var e := Entry(t, false, -1);
      && CanTake(s, Spawn(w, e)) && Disciplined(s, Spawn(w, e))
      && var s' := Take(s, Spawn(w, e));
      && PlacesOk(s') && RunsOn(s'.workers, w, t) && QueuedAt(s', |s.queue|, t)
      && (forall i: nat :: QueuedAt(s', i, t) ==> i == |s.queue|)
      && (forall v: int :: !Takeable(s'.queue[|s.queue|], s'.tasks, v))
  {
    var a := Spawn(w, Entry(t, false, -1));
    assert t in s.tasks && s.tasks[t] == EXEC;
    assert !IsTaken(s, t);
    TakeKeepsPlaces(s, a);
    assert QueuedAt(Take(s, a), |s.queue|, t);
  }
}
