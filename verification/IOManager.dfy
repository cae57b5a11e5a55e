/** The I/O manager and its descriptor contexts as objects, proved to do what the state machine
    says.  The assertions that the source makes are assertions here, and hold. */
module IOManagers {
  import opened Options
  import opened EventBook
  import opened IoSpec
  import opened IoRuns

  class FdContext {
    const fd: nat
    var read: EventContext
    var write: EventContext
    var events: set<Event>

    constructor (fd: nat)
      ensures Value() == Fresh(fd)
    {
      this.fd := fd;
      read, write, events := RESET, RESET, {};
    }

    ghost function Value(): IoSpec.FdContext
      reads this
    {
      IoSpec.FdContext(fd, read, write, events)
    }

    function GetContext(event: Event): EventContext
      reads this
    {
      match event case READ => read case WRITE => write
    }

    method SetContext(event: Event, x: EventContext)
      modifies this`read, this`write
      ensures Value() == Put(old(Value()), event, x)
    {
      match event case READ => read := x; case WRITE => write := x;
    }

    // The scheduler's pointer is the manager's.
    method TriggerEvent(event: Event, scheduler: IOManager)
      requires event in events
      modifies this, scheduler`m_fibers
      ensures Value() == Triggered(old(Value()), event)
      ensures scheduler.m_fibers == Schedule(old(scheduler.m_fibers), TaskOf(Get(old(Value()), event)))
    {
      events := events - {event};
      var ctx := GetContext(event);
      if ctx.cb.Some? {
        scheduler.ScheduleTask(Some(CbTask(ctx.cb.value)));
        ctx := ctx.(cb := None);
      } else {
        scheduler.ScheduleTask(if ctx.fiber.Some? then Some(FiberTask(ctx.fiber.value)) else None);
        ctx := ctx.(fiber := None);
      }
      SetContext(event, ctx.(scheduler := false));
    }
  }

  class IOManager {
    var m_pendingEvent: nat
    var m_fdContexts: seq<FdContext>
    var m_fibers: seq<Handler>  // everything ever handed to the scheduler
    var epoll: Interest         // the kernel's side
    ghost var model: State

    // The objects are in the state of the model, but for the book.
    ghost predicate Agrees()
      reads this, m_fdContexts
    {
      && |m_fdContexts| == |model.ctxs|
      && (forall i :: 0 <= i < |m_fdContexts| ==> m_fdContexts[i].fd == i && m_fdContexts[i].Value() == model.ctxs[i])
      && m_pendingEvent == model.pending && epoll == model.interest && m_fibers == model.queue
    }

    ghost predicate Valid()
      reads this, m_fdContexts
    {
      Agrees() && Inv(model)
    }

    // As above, but for one context.
    ghost predicate AgreesBut(fd: nat)
      reads this, m_fdContexts
    {
      && fd < |m_fdContexts| == |model.ctxs|
      && (forall i :: 0 <= i < |m_fdContexts| ==> m_fdContexts[i].fd == i)
      && (forall i :: 0 <= i < |m_fdContexts| && i != fd ==> m_fdContexts[i].Value() == model.ctxs[i])
    }

    // The model follows a change of one context.
    ghost method Follow(fd: nat, s: State)
      requires AgreesBut(fd) && s.ctxs == model.ctxs[fd := m_fdContexts[fd].Value()]
      requires m_pendingEvent == s.pending && epoll == s.interest && m_fibers == s.queue
      modifies this`model
      ensures Agrees() && model == s
    {
      model := s;
    }

    constructor ()
      ensures Valid() && model == Start()
    {
      m_pendingEvent, m_fdContexts, m_fibers, epoll := 0, [], [], map[];
      model := State([], 0, map[], [], BLANK);
      new;
      StartInv();
      ContextResize(32);
    }

    // Scheduling an empty task queues nothing.
    method ScheduleTask(task: Option<Handler>)
      modifies this`m_fibers
      ensures m_fibers == Schedule(old(m_fibers), task)
    {
      if task.Some? { m_fibers := m_fibers + [task.value]; }
    }

    method EpollCtl(op: CtlOp, fd: nat, evs: set<Event>, fault: bool) returns (ok: bool)
      modifies this`epoll
      ensures ok <==> Ctl(old(epoll), op, fd, evs, fault).Some?
      ensures epoll == if ok then Ctl(old(epoll), op, fd, evs, fault).value else old(epoll)
    {
      var r := Ctl(epoll, op, fd, evs, fault);
      ok := r.Some?;
      if ok { epoll := r.value; }
    }

    method ContextResize(size: nat)
      requires Agrees()
      modifies this`m_fdContexts, this`model
      ensures Agrees() && model == old(model).(ctxs := Resized(old(model).ctxs, size))
      ensures forall i :: 0 <= i < |m_fdContexts| && i < |old(m_fdContexts)| ==> m_fdContexts[i] == old(m_fdContexts)[i]
      ensures forall i :: |old(m_fdContexts)| <= i < size ==> fresh(m_fdContexts[i])
    {
      if size < |m_fdContexts| { m_fdContexts := m_fdContexts[..size]; }
      var i := |m_fdContexts|;
      ghost var n, base := i, model.ctxs[..i];
      model := model.(ctxs := base);
      while i < size
        invariant n <= i == |m_fdContexts| <= size && Agrees()
        invariant model == old(model).(ctxs := base + Freshes(n, i - n))
        invariant forall k :: 0 <= k < n ==> m_fdContexts[k] == old(m_fdContexts)[k]
        invariant forall k :: n <= k < i ==> fresh(m_fdContexts[k])
      {
        var c := new FdContext(i);
        m_fdContexts := m_fdContexts + [c];
        model := model.(ctxs := model.ctxs + [Fresh(i)]);
        i := i + 1;
      }
    }

    // The part of addEvent under the context's lock.
    method AddLocked(fd: nat, event: Event, cb: Option<nat>, self: nat, fault: bool) returns (rt: int)
      requires Agrees() && 32 <= |model.ctxs| && fd < |model.ctxs| && event !in model.ctxs[fd].events
      requires Get(model.ctxs[fd], event) == RESET
      modifies this`m_pendingEvent, this`epoll, this`model, m_fdContexts[fd]
      ensures Agrees()
      ensures var (s, ok) := IoSpec.AddEvent(old(model), fd, event, cb, self, fault);
        model == s && rt == if ok then 0 else -1
    {
      var fd_ctx := m_fdContexts[fd];
      assert fd_ctx.Value() == model.ctxs[fd];
      var op := if fd_ctx.events != {} then MOD else ADD;
      var ok := EpollCtl(op, fd, fd_ctx.events + {event}, fault);
      if !ok { return -1; }
      m_pendingEvent := m_pendingEvent + 1;
      fd_ctx.events := fd_ctx.events + {event};
      var ev_ctx := fd_ctx.GetContext(event);
      assert !ev_ctx.scheduler && ev_ctx.fiber.None? && ev_ctx.cb.None?;
      ev_ctx := ev_ctx.(scheduler := true);
      if cb.Some? {
        ev_ctx := ev_ctx.(cb := cb);
      } else {
        ev_ctx := ev_ctx.(fiber := Some(self));
      }
      fd_ctx.SetContext(event, ev_ctx);
      Follow(fd, Added(model, fd, event, ev_ctx, TaskFor(cb, self), epoll));
      return 0;
    }

    // Room for the descriptor.
    method Reserve(fd: nat)
      requires Valid()
      modifies this`m_fdContexts, this`model
      ensures Valid() && fd < |m_fdContexts| && model == old(model).(ctxs := Roomy(old(model).ctxs, fd))
      ensures forall i :: 0 <= i < |m_fdContexts| && i < |old(m_fdContexts)| ==> m_fdContexts[i] == old(m_fdContexts)[i]
      ensures forall i :: |old(m_fdContexts)| <= i < |m_fdContexts| ==> fresh(m_fdContexts[i])
    {
      RoomyKeeps(model, fd);
      if |m_fdContexts| <= fd { ContextResize(fd + fd / 2); }
    }

    method AddEvent(fd: nat, event: Event, cb: Option<nat>, self: nat, fault: bool) returns (rt: int)
      requires Valid() && !Registered(model, fd, event)
      modifies this, m_fdContexts
      ensures Valid() && rt == (if fault then -1 else 0)
      ensures model == IoSpec.AddEvent(old(model), fd, event, cb, self, fault).0
    {
      ghost var s := model;
      AddKeeps(s, fd, event, cb, self, fault);
      RoomyKeeps(s, fd);
      Reserve(fd);
      assert IoSpec.AddEvent(model, fd, event, cb, self, fault) == IoSpec.AddEvent(s, fd, event, cb, self, fault);
      assert SlotOk(Get(model.ctxs[fd], event), event in model.ctxs[fd].events, Key(fd, event), model.book);
      rt := AddLocked(fd, event, cb, self, fault);
    }

    // The trigger and the count that goes with it.
    method TriggerAt(fd: nat, event: Event)
      requires Agrees() && Registered(model, fd, event) && Key(fd, event) in model.book.held && m_pendingEvent > 0
      modifies this`m_fibers, this`m_pendingEvent, this`model, m_fdContexts[fd]
      ensures Agrees() && old(Key(fd, event) in model.book.held) && model == Trigger(old(model), fd, event)
    {
      var fd_ctx := m_fdContexts[fd];
      assert fd_ctx.Value() == model.ctxs[fd];
      ghost var s1 := Trigger(model, fd, event);
      fd_ctx.TriggerEvent(event, this);
      m_pendingEvent := m_pendingEvent - 1;
      Follow(fd, s1);
    }

    // What the parts under the context's lock rely on.
    ghost predicate Tracked(fd: nat)
      reads this, m_fdContexts
    {
      Agrees() && Booked(model, fd) && (fd < |model.ctxs| ==> |model.ctxs[fd].events| <= m_pendingEvent)
    }

    method DelLocked(fd: nat, event: Event, fault: bool) returns (done: bool)
      requires Tracked(fd) && fd < |m_fdContexts|
      modifies this`m_pendingEvent, this`epoll, this`model, m_fdContexts[fd]
      ensures Agrees() && old(Booked(model, fd)) && (model, done) == IoSpec.DelEvent(old(model), fd, event, fault)
    {
      ghost var s1 := IoSpec.DelEvent(model, fd, event, fault).0;
      var fd_ctx := m_fdContexts[fd];
      assert fd_ctx.Value() == model.ctxs[fd];
      if event !in fd_ctx.events { return false; }
      var new_ev := fd_ctx.events - {event};
      var ok := EpollCtl(if new_ev != {} then MOD else DEL, fd, new_ev, fault);
      if !ok { return false; }
      TakeAway(fd_ctx.events, event);
      m_pendingEvent := m_pendingEvent - 1;
      fd_ctx.events := new_ev;
      fd_ctx.SetContext(event, RESET);
      Follow(fd, s1);
      return true;
    }

    method DelEvent(fd: nat, event: Event, fault: bool) returns (done: bool)
      requires Valid()
      modifies this, m_fdContexts
      ensures Valid() && (model, done) == IoSpec.DelEvent(old(model), fd, event, fault)
    {
      DelKeeps(model, fd, event, fault);
      if |m_fdContexts| <= fd { return false; }
      CounterCovers(model, fd);
      done := DelLocked(fd, event, fault);
    }

    method CanceLocked(fd: nat, event: Event, fault: bool) returns (done: bool)
      requires Tracked(fd) && fd < |m_fdContexts|
      modifies this`m_fibers, this`m_pendingEvent, this`epoll, this`model, m_fdContexts[fd]
      ensures Agrees() && old(Booked(model, fd)) && (model, done) == IoSpec.CancelEvent(old(model), fd, event, fault)
    {
      var fd_ctx := m_fdContexts[fd];
      assert fd_ctx.Value() == model.ctxs[fd];
      if event !in fd_ctx.events { return false; }
      var new_ev := fd_ctx.events - {event};
      var ok := EpollCtl(if new_ev != {} then MOD else DEL, fd, new_ev, fault);
      if !ok { return false; }
      TakeAway(fd_ctx.events, event);
      model := model.(interest := epoll);
      TriggerAt(fd, event);
      return true;
    }

    method CanceEvent(fd: nat, event: Event, fault: bool) returns (done: bool)
      requires Valid()
      modifies this, m_fdContexts
      ensures Valid() && (model, done) == IoSpec.CancelEvent(old(model), fd, event, fault)
    {
      CancelKeeps(model, fd, event, fault);
      if |m_fdContexts| <= fd { return false; }
      CounterCovers(model, fd);
      done := CanceLocked(fd, event, fault);
    }

    // Triggers what is in the set, which is registered.
    method TriggerSet(fd: nat, evs: set<Event>)
      requires Tracked(fd) && fd < |m_fdContexts| && evs <= model.ctxs[fd].events
      modifies this`m_fibers, this`m_pendingEvent, this`model, m_fdContexts[fd]
      ensures Agrees() && old(Booked(model, fd)) && Some(model) == TriggerAll(old(model), fd, evs)
    {
      TakeAway(model.ctxs[fd].events, READ);
      TakeAway(model.ctxs[fd].events - {READ}, WRITE);
      TakeAway(model.ctxs[fd].events, WRITE);
      if READ in evs { TriggerAt(fd, READ); }
      if WRITE in evs { TriggerAt(fd, WRITE); }
    }

    method CanceAllLocked(fd: nat, fault: bool) returns (done: bool)
      requires Tracked(fd) && fd < |m_fdContexts|
      modifies this`m_fibers, this`m_pendingEvent, this`epoll, this`model, m_fdContexts[fd]
      ensures Agrees() && old(Booked(model, fd)) && (model, done) == IoSpec.CancelAll(old(model), fd, fault)
    {
      var fd_ctx := m_fdContexts[fd];
      assert fd_ctx.Value() == model.ctxs[fd];
      if fd_ctx.events == {} { return false; }
      var ok := EpollCtl(DEL, fd, {}, fault);
      if !ok { return false; }
      model := model.(interest := epoll);
      TriggerSet(fd, fd_ctx.events);
      return true;
    }

    method CanceAll(fd: nat, fault: bool) returns (done: bool)
      requires Valid()
      modifies this, m_fdContexts
      ensures Valid() && (model, done) == IoSpec.CancelAll(old(model), fd, fault)
      ensures done ==> fd < |m_fdContexts| && m_fdContexts[fd].events == {}
    {
      CancelAllKeeps(model, fd, fault);
      if |m_fdContexts| <= fd { return false; }
      CounterCovers(model, fd);
      done := CanceAllLocked(fd, fault);
      assert m_fdContexts[fd].Value() == model.ctxs[fd];
    }

    method ReadyLocked(fd: nat, reported: set<Event>, error: bool, fault: bool)
      requires Tracked(fd) && fd < |model.ctxs| && (fault || !Stale(model.ctxs[fd], reported, error))
      modifies this`m_fibers, this`m_pendingEvent, this`epoll, this`model, m_fdContexts[fd]
      ensures Agrees() && old(Booked(model, fd)) && Some(model) == Ready(old(model), fd, reported, error, fault)
    {
      var fd_ctx := m_fdContexts[fd];
      assert fd_ctx.Value() == model.ctxs[fd];
      var real_evs := reported;
      if error { real_evs := real_evs + fd_ctx.events; }
      assert real_evs == RealEvents(model.ctxs[fd], reported, error);
      if fd_ctx.events * real_evs == {} { return; }
      var left_evs := fd_ctx.events - real_evs;
      var ok := EpollCtl(if left_evs != {} then MOD else DEL, fd, left_evs, fault);
      if !ok { return; }
      model := model.(interest := epoll);
      TriggerSet(fd, real_evs);
    }

    ghost function EventsOf(fd: nat): set<Event>
      reads this
    {
      if fd < |model.ctxs| then model.ctxs[fd].events else {}
    }

    // One readiness report, as the idle loop handles it.
    method HandleReady(fd: nat, reported: set<Event>, error: bool, fault: bool)
      requires Valid() && fd < |model.ctxs| && (fault || !Stale(model.ctxs[fd], reported, error))
      modifies this, m_fdContexts
      ensures Valid() && Some(model) == Ready(old(model), fd, reported, error, fault)
      ensures EventsOf(fd) ==
        if fault then old(EventsOf(fd)) else if error then {} else old(EventsOf(fd)) - reported
    {
      hide Ready, Stale;
      ReadyLeaves(model, fd, reported, error, fault);
      CounterCovers(model, fd);
      ReadyLocked(fd, reported, error, fault);
    }
  }
}
