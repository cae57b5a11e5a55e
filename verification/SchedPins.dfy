/** When what is pinned to a thread is looked after. */
module SchedPins {
  import opened SchedSpec
  import opened SchedRuns

  predicate PinnedAt(queue: seq<Entry>, i: nat) { i < |queue| && queue[i].thread != -1 }

  // The worker of this number exists and will look at the queue again.
  predicate Served(ws: seq<Worker>, thread: int) { 0 <= thread < |ws| && WillLook(ws[thread]) }

  /** Everything that is pinned is pinned to a worker that will look at the queue again. */
  ghost predicate PinnedCared(s: State) {
    forall i: nat :: PinnedAt(s.queue, i) ==> Served(s.workers, s.queue[i].thread)
  }

  /** A step keeps it so when what it queues is not pinned, or pinned to a worker that will look
      again; and when a worker that looks and will not look again leaves nothing pinned to it. */
  ghost predicate KeepsCare(s: State, a: Act)
    requires CanTake(s, a)
  {
    match a
    case Submit(e) => e.thread == -1 || Served(s.workers, e.thread)
    case Spawn(_, e) => e.thread == -1 || Served(s.workers, e.thread)
    case Scan(w) => Served(Scanned(s, w).workers, w) || forall i: nat :: PinnedAt(s.queue, i) ==> s.queue[i].thread != w
    case _ => true
  }

  lemma QueuedCared(s: State, s': State, e: Entry)
    requires PinnedCared(s) && s'.queue == s.queue + [e] && s'.workers == s.workers
    ensures PinnedCared(s') <==> e.thread == -1 || Served(s.workers, e.thread)
  {
    var n := |s.queue|;
    assert s'.queue[n] == e;
    assert PinnedAt(s'.queue, n) <==> e.thread != -1;
    forall i: nat | PinnedAt(s'.queue, i) && i < n
      ensures Served(s'.workers, s'.queue[i].thread)
    {
      assert PinnedAt(s.queue, i);
    }
  }

  lemma ScannedCared(s: State, w: nat)
    requires PinnedCared(s) && CanTake(s, Scan(w))
    ensures PinnedCared(Scanned(s, w)) <==> KeepsCare(s, Scan(w))
  {
    var s', i := Scanned(s, w), FirstTakeable(s.queue, s.tasks, w);
    if i < |s.queue| {
      forall k: nat | PinnedAt(s'.queue, k)
        ensures Served(s'.workers, s'.queue[k].thread)
      {
        assert PinnedAt(s.queue, if k < i then k else k + 1);
      }
    } else if k: nat :| PinnedAt(s.queue, k) && s.queue[k].thread == w {
      assert PinnedAt(s'.queue, k);
    }
  }

  // A step that queues nothing and after which whoever would look before still will.
  lemma QuietCared(s: State, s': State)
    requires PinnedCared(s) && s'.queue == s.queue && |s'.workers| == |s.workers|
    requires forall w: nat :: Looker(s.workers, w) ==> Looker(s'.workers, w)
    ensures PinnedCared(s')
  {
    forall i: nat | PinnedAt(s'.queue, i)
      ensures Served(s'.workers, s'.queue[i].thread)
    {
      assert PinnedAt(s.queue, i) && Looker(s.workers, s.queue[i].thread);
    }
  }

  lemma OtherCared(s: State, a: Act)
    requires PinnedCared(s) && CanTake(s, a) && !a.Submit? && !a.Spawn? && !a.Scan? && !a.Requeue?
    ensures PinnedCared(Take(s, a))
  {
    if a.Skip? {
      assert Take(s, a).queue == [];
    } else {
      QuietCared(s, Take(s, a));
    }
  }

  lemma RequeueCared(s: State, w: nat)
    requires PinnedCared(s) && CanTake(s, Requeue(w))
    ensures PinnedCared(Requeued(s, w))
  {
    var t, s1 := s.workers[w].pc.task, GoTo(s, w, Top);
    QuietCared(s, s1);
    if LifeOf(s.tasks, t) == READY {
      QueuedCared(s1, Requeued(s, w), Entry(t, false, -1));
    } else {
      QuietCared(s1, Requeued(s, w));
    }
  }

  /** Exactly these steps keep what is pinned looked after. */
  lemma TakeKeepsCareIff(s: State, a: Act)
    requires PinnedCared(s) && CanTake(s, a)
    ensures PinnedCared(Take(s, a)) <==> KeepsCare(s, a)
  {
    match a
    case Submit(e) => QueuedCared(s, Take(s, a), e);
    case Spawn(_, e) => QueuedCared(s, Take(s, a), e);
    case Scan(w) => ScannedCared(s, w);
    case Requeue(w) => RequeueCared(s, w);
    case _ => OtherCared(s, a);
  }

  // --- runs ----------------------------------------------------------------------------------------

  /** Every step of the run was such a step. */
  ghost predicate CaringRun(r: Run)
    requires Possible(r)
  {
    r.Begins? || (CaringRun(r.run) && KeepsCare(End(r.run), r.act))
  }

  // At every moment of the run.
  ghost predicate CaredThroughout(r: Run)
    requires Possible(r)
  {
    PinnedCared(End(r)) && (r.Then? ==> CaredThroughout(r.run))
  }

  /** So what is pinned is looked after all along exactly in the runs of such steps. */
  lemma {:induction false} CaredThroughoutIff(r: Run)
    requires Possible(r)
    ensures CaredThroughout(r) <==> CaringRun(r)
  {
    if r.Then? {
      CaredThroughoutIff(r.run);
      if CaredThroughout(r.run) { TakeKeepsCareIff(End(r.run), r.act); }
    }
  }

  /** When the last worker has left, the queue is empty exactly if what was pinned was looked after;
      and it is empty after every run of such steps. */
  lemma NothingLeftIff(r: Run)
    requires Possible(r) && Threads(r) > 0
    requires forall w :: 0 <= w < |End(r).workers| ==> End(r).workers[w].pc.Left?
    ensures End(r).queue == [] <==> PinnedCared(End(r))
    ensures CaringRun(r) ==> End(r).queue == []
  {
    NothingStranded(r);
    var s := End(r);
    if s.queue != [] { assert PinnedAt(s.queue, 0); }
    CaredThroughoutIff(r);
  }
}
