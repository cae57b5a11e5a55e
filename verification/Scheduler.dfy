/** Fibers and their scheduler as objects: each stretch of the workers' loop that others cannot
    come between is a method, proved to be the step of the state machine. */
module Schedulers {
  import opened Options
  import opened SchedSpec

  class Fiber {
    const m_id: nat
    var m_state: Life

    constructor (id: nat)
      ensures m_id == id && m_state == INIT
    {
      m_id, m_state := id, INIT;
    }

    // A fiber that has ended is not resumed.
    method SwapIn() returns (resumed: bool)
      requires m_state != EXEC
      modifies this
      ensures resumed <==> !Dead(old(m_state))
      ensures m_state == if resumed then EXEC else old(m_state)
    {
      if m_state == TERM || m_state == EXCEPT { return false; }
      m_state := EXEC;
      return true;
    }

    method YeildToReady()
      modifies this
      ensures m_state == READY
    {
      m_state := READY;
    }

    method YeildToHold()
      modifies this
      ensures m_state == HOLD
    {
      m_state := HOLD;
    }

    // The end of the fiber's function, by return or by exception.
    method Finish(threw: bool)
      modifies this
      ensures Dead(m_state) && (m_state == EXCEPT <==> threw)
    {
      m_state := if threw then EXCEPT else TERM;
    }
  }

  /** A queued task: a fiber, or a callback known by its number. */
  datatype FiberAndThread = FiberAndThread(fiber: Option<Fiber>, cb: Option<nat>, thread: int)

  predicate Proper(ft: FiberAndThread) { ft.fiber.Some? <==> ft.cb.None? }

  function EntryOf(ft: FiberAndThread): Entry
    requires Proper(ft)
  {
    if ft.fiber.Some? then Entry(ft.fiber.value.m_id, false, ft.thread) else Entry(ft.cb.value, true, ft.thread)
  }

  predicate Elsewhere(e: Entry, w: int) { e.thread != -1 && e.thread != w }

  class Scheduler {
    var m_fibers: seq<FiberAndThread>
    var m_activeThreadCount: int
    var m_idleThreadCount: int
    var m_stopping: bool
    var m_autoStop: bool
    ghost var fibers: map<nat, Fiber>  // the fibers made so far
    ghost var model: State

    ghost predicate Valid()
      reads this, fibers.Values
    {
      && |m_fibers| == |model.queue|
      && (forall i :: 0 <= i < |m_fibers| ==>
            Proper(m_fibers[i]) && EntryOf(m_fibers[i]) == model.queue[i] && Owns(m_fibers[i]))
      && m_activeThreadCount == model.active && m_idleThreadCount == model.idle
      && m_stopping == model.stopping && m_autoStop == model.autoStop
      && (forall t :: t in fibers ==> t in model.tasks && fibers[t].m_id == t && fibers[t].m_state == model.tasks[t])
      && (forall t :: t in model.tasks && t !in fibers ==> model.tasks[t] == INIT)
    }

    ghost predicate Owns(ft: FiberAndThread)
      reads this
    {
      ft.fiber.Some? ==> ft.fiber.value.m_id in fibers && fibers[ft.fiber.value.m_id] == ft.fiber.value
    }

    constructor (ghost threads: nat, ghost root: bool)
      ensures Valid() && model == Start(threads, root) && fibers == map[]
    {
      m_fibers, m_activeThreadCount, m_idleThreadCount, m_stopping, m_autoStop := [], 0, 0, false, false;
      fibers, model := map[], Start(threads, root);
    }

    method ScheduleNolock(ft: FiberAndThread) returns (need_tickle: bool)
      requires Valid() && Proper(ft) && Owns(ft)
      modifies this`m_fibers, this`model
      ensures Valid() && model == Enqueued(old(model), EntryOf(ft)) && (need_tickle <==> old(model).queue == [])
    {
      need_tickle := m_fibers == [];
      m_fibers := m_fibers + [ft];
      model := Enqueued(model, EntryOf(ft));
    }

    // The search.  tickle_me: something was passed over for another thread.
    method Search(thread: nat) returns (it: nat, tickle_me: bool)
      requires Valid()
      ensures it == FirstTakeable(model.queue, model.tasks, thread)
      ensures tickle_me <==> exists k: nat :: k < it && Elsewhere(model.queue[k], thread)
    {
      tickle_me := false;
      it := 0;
      while it < |m_fibers|
        invariant it <= |m_fibers|
        invariant forall k :: 0 <= k < it ==> !Takeable(model.queue[k], model.tasks, thread)
        invariant tickle_me <==> exists k: nat :: k < it && Elsewhere(model.queue[k], thread)
      {
        var e := m_fibers[it];
        assert EntryOf(e) == model.queue[it] && Owns(e);
        if e.thread != -1 && e.thread != thread {
          tickle_me := true;
          assert Elsewhere(model.queue[it], thread);
        } else {
          assert e.fiber.Some? || e.cb.Some?;
          if !(e.fiber.Some? && e.fiber.value.m_state == EXEC) { break; }
        }
        it := it + 1;
      }
      FirstIs(model.queue, model.tasks, thread, it);
    }

    // What a scan comes to, part by part.
    static lemma ScannedParts(s: State, w: nat)
      requires CanTake(s, Scan(w))
      ensures var s', i := Scanned(s, w), FirstTakeable(s.queue, s.tasks, w);
        && (s'.tasks, s'.idle, s'.stopping, s'.autoStop) == (s.tasks, s.idle, s.stopping, s.autoStop)
        && (i == |s.queue| ==> s'.queue == s.queue && s'.active == s.active && s'.workers[w].pc == Missed)
        && (i < |s.queue| ==>
              && s'.queue == s.queue[..i] + s.queue[i + 1..] && s'.active == s.active + 1
              && s'.workers[w].pc == Took(s.queue[i].task))
    {
    }

    // Erases an entry and counts the worker that takes it.
    method CutOut(it: nat, ghost s: State) returns (ft: FiberAndThread)
      requires Valid() && it < |m_fibers|
      requires (s.tasks, s.idle, s.stopping, s.autoStop) == (model.tasks, model.idle, model.stopping, model.autoStop)
      requires s.queue == model.queue[..it] + model.queue[it + 1..] && s.active == model.active + 1
      modifies this`m_fibers, this`m_activeThreadCount, this`model
      ensures Valid() && model == s
      ensures ft == old(m_fibers[it]) && Proper(ft) && Owns(ft) && EntryOf(ft) == old(model).queue[it]
    {
      ft := m_fibers[it];
      m_fibers := m_fibers[..it] + m_fibers[it + 1..];
      m_activeThreadCount := m_activeThreadCount + 1;
      model := s;
    }

    // Takes what the search found, all under the lock.
    method TakeTask(thread: nat) returns (ft: Option<FiberAndThread>, tickle_me: bool)
      requires Valid() && CanTake(model, Scan(thread))
      modifies this`m_fibers, this`m_activeThreadCount, this`model
      ensures Valid() && model == Scanned(old(model), thread)
      ensures ft.Some? <==> model.workers[thread].pc.Took?
      ensures ft.Some? ==> Proper(ft.value) && Owns(ft.value) && EntryOf(ft.value).task == model.workers[thread].pc.task
      ensures tickle_me <==> exists k: nat ::
        k < FirstTakeable(old(model).queue, old(model).tasks, thread) &&
        old(model).queue[k].thread != -1 && old(model).queue[k].thread != thread
    {
      var it: nat;
      it, tickle_me := Search(thread);
      ft := None;
      hide Scanned, Takeable;
      ScannedParts(model, thread);
      if it < |m_fibers| {
        var taken := CutOut(it, Scanned(model, thread));
        ft := Some(taken);
      } else {
        model := Scanned(model, thread);
      }
    }

    // Runs a taken fiber, or a fiber made for a taken callback; dead ones are dropped.
    method RunTask(thread: nat, ft: FiberAndThread) returns (fiber: Option<Fiber>)
      requires Valid() && Proper(ft) && Owns(ft) && CanTake(model, Begin(thread))
      requires EntryOf(ft).task == model.workers[thread].pc.task
      requires ft.cb.Some? ==> ft.cb.value in model.tasks && ft.cb.value !in fibers
      requires ft.fiber.Some? ==> ft.fiber.value.m_id in model.tasks
      modifies this, if ft.fiber.Some? then {ft.fiber.value} else {}
      ensures Valid() && model == Begun(old(model), thread)
      ensures fiber.Some? <==> model.workers[thread].pc.Running?
      ensures fiber.Some? ==> fiber.value.m_id in fibers && fibers[fiber.value.m_id] == fiber.value
    {
      ghost var s := model;
      if ft.fiber.Some? && !Dead(ft.fiber.value.m_state) {
        var resumed := ft.fiber.value.SwapIn();
        fiber := ft.fiber;
      } else if ft.cb.Some? {
        var cb_fiber := new Fiber(ft.cb.value);
        fibers := fibers[ft.cb.value := cb_fiber];
        var resumed := cb_fiber.SwapIn();
        fiber := Some(cb_fiber);
      } else {
        m_activeThreadCount := m_activeThreadCount - 1;
        fiber := None;
      }
      model := Begun(s, thread);
    }

    // What the running fiber does to give way, or at its end.
    method GiveWay(thread: nat, fiber: Fiber, life: Life)
      requires Valid() && CanTake(model, Yield(thread, life)) && model.workers[thread].pc.task == fiber.m_id
      requires fiber.m_id in fibers && fibers[fiber.m_id] == fiber
      modifies this`model, fiber
      ensures Valid() && model == Take(old(model), Yield(thread, life))
    {
      if life == READY {
        fiber.YeildToReady();
      } else if life == HOLD {
        fiber.YeildToHold();
      } else {
        fiber.Finish(life == EXCEPT);
      }
      model := Take(model, Yield(thread, life));
    }

    // After the fiber gave way: the decrement, and then, apart from it, the putting back.
    method Uncount(thread: nat)
      requires Valid() && CanTake(model, Discount(thread))
      modifies this`m_activeThreadCount, this`model
      ensures Valid() && model == Take(old(model), Discount(thread))
    {
      m_activeThreadCount := m_activeThreadCount - 1;
      model := Take(model, Discount(thread));
    }

    method PutBack(thread: nat, fiber: Fiber)
      requires Valid() && CanTake(model, SchedSpec.Requeue(thread)) && model.workers[thread].pc.task == fiber.m_id
      requires fiber.m_id in fibers && fibers[fiber.m_id] == fiber
      modifies this`m_fibers, this`model
      ensures Valid() && model == Requeued(old(model), thread)
    {
      ghost var s := model;
      if fiber.m_state == READY {
        var need_tickle := ScheduleNolock(FiberAndThread(Some(fiber), None, -1));
      }
      model := Requeued(s, thread);
    }

    method Stopping() returns (over: bool)
      requires Valid()
      ensures over <==> SchedSpec.Stopping(model)
    {
      return m_autoStop && m_stopping && m_fibers == [] && m_activeThreadCount == 0;
    }
  }

  // The place where the search stopped is the first one.
  lemma {:induction false} FirstIs(queue: seq<Entry>, tasks: map<nat, Life>, w: int, i: nat)
    requires i <= |queue| && forall k :: 0 <= k < i ==> !Takeable(queue[k], tasks, w)
    requires i < |queue| ==> Takeable(queue[i], tasks, w)
    ensures FirstTakeable(queue, tasks, w) == i
  {
    if i > 0 { FirstIs(queue[1..], tasks, w, i - 1); }
  }
}
