/** What every operation of the I/O manager keeps, over all runs. */
module IoRuns {
  import opened Options
  import opened EventBook
  import opened IoSpec

  // --- the counter -------------------------------------------------------------------------------

  lemma {:induction false} TotalUpdate(ctxs: seq<FdContext>, fd: nat, c: FdContext)
    requires fd < |ctxs|
    ensures Total(ctxs[fd := c]) == Total(ctxs) - |ctxs[fd].events| + |c.events|
  {
    var n := |ctxs| - 1;
    if fd == n {
      assert ctxs[fd := c][..n] == ctxs[..n];
    } else {
      assert ctxs[fd := c][..n] == ctxs[..n][fd := c];
      TotalUpdate(ctxs[..n], fd, c);
    }
  }

  lemma {:induction false} TotalGrows(ctxs: seq<FdContext>, more: seq<FdContext>)
    requires forall i :: 0 <= i < |more| ==> more[i].events == {}
    ensures Total(ctxs + more) == Total(ctxs)
  {
    if more == [] {
      assert ctxs + more == ctxs;
    } else {
      assert (ctxs + more)[..|ctxs + more| - 1] == ctxs + more[..|more| - 1];
      TotalGrows(ctxs, more[..|more| - 1]);
    }
  }

  /** The counter is zero exactly when no event is registered on any descriptor. */
  lemma {:induction false} TotalZero(ctxs: seq<FdContext>)
    ensures Total(ctxs) == 0 <==> forall i :: 0 <= i < |ctxs| ==> ctxs[i].events == {}
  {
    if ctxs != [] {
      var n := |ctxs| - 1;
      TotalZero(ctxs[..n]);
      assert ctxs == ctxs[..n] + [ctxs[n]];
    }
  }

  lemma TakeAway(evs: set<Event>, ev: Event)
    ensures |evs - {ev}| == if ev in evs then |evs| - 1 else |evs|
    ensures |evs + {ev}| == if ev in evs then |evs| else |evs| + 1
  {
    if ev !in evs { assert evs - {ev} == evs; } else { assert evs + {ev} == evs; }
  }

  // --- the table -----------------------------------------------------------------------------------

  /** Making room keeps every context and adds blank ones. */
  lemma RoomyIs(ctxs: seq<FdContext>, fd: nat)
    requires 32 <= |ctxs|
    ensures var r := Roomy(ctxs, fd);
      && fd < |r| && ctxs <= r && Total(r) == Total(ctxs)
      && (fd >= |ctxs| ==> 3 * fd - 1 <= 2 * |r| <= 3 * fd)
      && (forall i :: |ctxs| <= i < |r| ==> r[i] == Fresh(i))
  {
    if fd >= |ctxs| { TotalGrows(ctxs, Freshes(|ctxs|, fd + fd / 2 - |ctxs|)); }
  }

  /** Resizing keeps every context exactly when the table does not shrink. */
  lemma ResizeKeepsIff(ctxs: seq<FdContext>, size: nat)
    ensures ctxs <= Resized(ctxs, size) <==> |ctxs| <= size
  {
  }

  /** Two threads that both found the table too small, one after the other: the second cuts off a
      context that the first made and registered an event in. */
  lemma ResizeRace(s: State)
    requires Inv(s) && |s.ctxs| == 32
    ensures var s1 := AddEvent(s, 100, READ, Some(7), 0, false).0;
      var late := Resized(s1.ctxs, 40 + 40 / 2);
      Key(100, READ) in s1.book.held && |late| == 60 && !(s1.ctxs <= late)
  {
    RoomyIs(s.ctxs, 100);
  }

  lemma RoomyTable(ctxs: seq<FdContext>, b: Book, fd: nat)
    requires TableOk(ctxs, b)
    ensures TableOk(Roomy(ctxs, fd), b)
  {
    RoomyIs(ctxs, fd);
    var r := Roomy(ctxs, fd);
    forall i | 0 <= i < |r|
      ensures ContextOk(r[i], i, b)
    {
      if i < |ctxs| { assert ContextOk(ctxs[i], i, b); }
    }
  }

  lemma RoomyKeeps(s: State, fd: nat)
    requires Inv(s)
    ensures var s' := s.(ctxs := Roomy(s.ctxs, fd)); Inv(s') && fd < |s'.ctxs|
    ensures fd >= |s.ctxs| ==> Roomy(s.ctxs, fd)[fd] == Fresh(fd)
  {
    RoomyIs(s.ctxs, fd);
    RoomyTable(s.ctxs, s.book, fd);
  }

  // --- each operation ----------------------------------------------------------------------------

  // The book after the events of a set were triggered, reading first.
  function FireAll(b: Book, fd: nat, evs: set<Event>): (b': Book)
    requires forall ev :: ev in evs ==> Key(fd, ev) in b.held
    ensures Later(b, b')
  {
    var b1 := if READ in evs then Fire(b, Key(fd, READ)) else b;
    if WRITE in evs then Fire(b1, Key(fd, WRITE)) else b1
  }

  /** Exactly the events of the set were triggered. */
  ghost predicate Fired(s: State, s': State, fd: nat, evs: set<Event>)
    requires forall ev :: ev in evs ==> Key(fd, ev) in s.book.held
  {
    && fd < |s.ctxs| && s'.book == FireAll(s.book, fd, evs)
    && |s'.ctxs| == |s.ctxs| && s'.ctxs[fd].events == s.ctxs[fd].events - evs
  }

  // A registration more or less leaves the other ones as they were.
  ghost predicate OnlyAt(b: Book, b': Book, k: Key) {
    && b.regs <= b'.regs
    && (forall j :: j != k ==> (j in b.held <==> j in b'.held))
    && (forall j :: j != k && j in b.held ==> b'.held[j] == b.held[j])
  }

  lemma SlottedOk(c: FdContext, fd: nat, ev: Event, x: EventContext, on: bool, b: Book, b': Book)
    requires ContextOk(c, fd, b) && OnlyAt(b, b', Key(fd, ev)) && SlotOk(x, on, Key(fd, ev), b')
    ensures ContextOk(Slotted(c, ev, x, on), fd, b')
  {
    var c' := Slotted(c, ev, x, on);
    forall e: Event
      ensures SlotOk(Get(c', e), e in c'.events, Key(fd, e), b')
    {
      assert SlotOk(Get(c, e), e in c.events, Key(fd, e), b);
      match e case READ => case WRITE =>
    }
  }

  lemma ContextFrame(c: FdContext, i: nat, b: Book, b': Book, k: Key)
    requires ContextOk(c, i, b) && OnlyAt(b, b', k) && k.fd != i
    ensures ContextOk(c, i, b')
  {
    forall e: Event
      ensures SlotOk(Get(c, e), e in c.events, Key(i, e), b')
    {
      assert SlotOk(Get(c, e), e in c.events, Key(i, e), b);
    }
  }

  // Changing one slot along with its registration.
  lemma SlotChange(ctxs: seq<FdContext>, fd: nat, ev: Event, x: EventContext, on: bool, b: Book, b': Book)
    requires TableOk(ctxs, b) && fd < |ctxs| && OnlyAt(b, b', Key(fd, ev)) && SlotOk(x, on, Key(fd, ev), b')
    ensures TableOk(ctxs[fd := Slotted(ctxs[fd], ev, x, on)], b')
    ensures Total(ctxs[fd := Slotted(ctxs[fd], ev, x, on)]) - Total(ctxs) ==
            (if on then 1 else 0) - (if ev in ctxs[fd].events then 1 else 0)
  {
    var c' := Slotted(ctxs[fd], ev, x, on);
    SlottedOk(ctxs[fd], fd, ev, x, on, b, b');
    TotalUpdate(ctxs, fd, c');
    TakeAway(ctxs[fd].events, ev);
    forall i | 0 <= i < |ctxs| && i != fd
      ensures ContextOk(ctxs[i], i, b')
    {
      ContextFrame(ctxs[i], i, b, b', Key(fd, ev));
    }
  }

  /** Triggering one registered event: its task, and no other, is queued, and it is registered no
      more. */
  lemma TriggerKeeps(s: State, fd: nat, ev: Event)
    requires CoreInv(s) && Registered(s, fd, ev)
    ensures var s' := Trigger(s, fd, ev); var k := Key(fd, ev);
      && CoreInv(s')
      && s'.book == Fire(s.book, k)
      && s'.queue == s.queue + [s.book.regs[s.book.held[k]].handler]
      && s'.ctxs == s.ctxs[fd := s'.ctxs[fd]] && s'.ctxs[fd].events == s.ctxs[fd].events - {ev}
  {
    SlotChange(s.ctxs, fd, ev, RESET, false, s.book, Fire(s.book, Key(fd, ev)));
    assert SlotOk(Get(s.ctxs[fd], ev), true, Key(fd, ev), s.book);
    FireKeeps(s.book, Key(fd, ev));
  }

  /** With the kernel's view right, it refuses no change for being the wrong one. */
  lemma CtlLegal(s: State, fd: nat, evs: set<Event>, fault: bool)
    requires Inv(s) && fd < |s.ctxs| && s.ctxs[fd].events != {}
    ensures CtlLess(s, fd, evs, fault).None? <==> fault
    ensures !fault ==> CtlLess(s, fd, evs, fault) == Some(
      if s.ctxs[fd].events - evs != {} then s.interest[fd := s.ctxs[fd].events - evs] else s.interest - {fd})
  {
  }

  lemma TriggerAllKeeps(s: State, fd: nat, evs: set<Event>)
    requires CoreInv(s) && fd < |s.ctxs| && evs <= s.ctxs[fd].events
    ensures forall ev :: ev in evs ==> Key(fd, ev) in s.book.held
    ensures var s' := TriggerAll(s, fd, evs).value;
      && CoreInv(s') && Fired(s, s', fd, evs) && s'.interest == s.interest
      && s'.ctxs == s.ctxs[fd := s'.ctxs[fd]]
  {
    LessBoth(s.ctxs[fd].events, evs);
    hide Total, InterestOk, QueueOk, BookInv, TableOk;
    var s1 := s;
    if READ in evs {
      TriggerKeeps(s, fd, READ);
      s1 := Trigger(s, fd, READ);
    }
    var s2 := s1;
    if WRITE in evs {
      TriggerKeeps(s1, fd, WRITE);
      s2 := Trigger(s1, fd, WRITE);
    }
    assert TriggerAll(s, fd, evs) == Some(s2) && s2.ctxs == s.ctxs[fd := s2.ctxs[fd]];
  }

  lemma LessBoth(events: set<Event>, evs: set<Event>)
    ensures events - evs ==
      (var e1 := if READ in evs then events - {READ} else events;
       if WRITE in evs then e1 - {WRITE} else e1)
  {
    var e1 := if READ in evs then events - {READ} else events;
    var e2 := if WRITE in evs then e1 - {WRITE} else e1;
    SubsetIs(e2, events - evs);
    SubsetIs(events - evs, e2);
  }

  // What the events of a descriptor come to when the kernel drops some.
  function LeftInterest(s: State, fd: nat, evs: set<Event>): Interest
    requires fd < |s.ctxs|
  {
    var left := s.ctxs[fd].events - evs;
    if left != {} then s.interest[fd := left] else s.interest - {fd}
  }

  // Triggering the events the kernel was told to drop.
  lemma DropKeeps(s: State, fd: nat, evs: set<Event>)
    requires Inv(s) && fd < |s.ctxs| && evs <= s.ctxs[fd].events
    ensures forall ev :: ev in evs ==> Key(fd, ev) in s.book.held
    ensures var s' := TriggerAll(s.(interest := LeftInterest(s, fd, evs)), fd, evs).value;
      Inv(s') && Fired(s, s', fd, evs)
  {
    var t := s.(interest := LeftInterest(s, fd, evs));
    TriggerAllKeeps(t, fd, evs);
    InterestFrame(s.ctxs, s.interest, fd, TriggerAll(t, fd, evs).value.ctxs[fd]);
  }

  // The kernel's view after one descriptor's events changed.
  lemma InterestFrame(ctxs: seq<FdContext>, interest: Interest, fd: nat, c: FdContext)
    requires InterestOk(ctxs, interest) && fd < |ctxs|
    ensures InterestOk(ctxs[fd := c], if c.events != {} then interest[fd := c.events] else interest - {fd})
  {
  }

  // One more event registered in a table that has room for its descriptor.
  lemma AddedKeeps(s: State, fd: nat, ev: Event, x: EventContext, h: Handler)
    requires Inv(s) && fd < |s.ctxs| && ev !in s.ctxs[fd].events
    requires x.scheduler && (x.fiber.Some? <==> x.cb.None?) && TaskOf(x) == Some(h)
    ensures Inv(Added(s, fd, ev, x, h, s.interest[fd := s.ctxs[fd].events + {ev}]))
  {
    hide Total;
    var b' := Register(s.book, Key(fd, ev), h);
    assert SlotOk(Get(s.ctxs[fd], ev), false, Key(fd, ev), s.book);
    SlotChange(s.ctxs, fd, ev, x, true, s.book, b');
    RegisterKeeps(s.book, Key(fd, ev), h);
    InterestFrame(s.ctxs, s.interest, fd, Slotted(s.ctxs[fd], ev, x, true));
  }

  // What registering comes to, when the kernel's view is right.
  lemma AddIs(s: State, fd: nat, ev: Event, cb: Option<nat>, self: nat, fault: bool)
    requires 32 <= |s.ctxs| && InterestOk(s.ctxs, s.interest) && !Registered(s, fd, ev)
    ensures var t := s.(ctxs := Roomy(s.ctxs, fd));
      var x := EventContext(true, if cb.Some? then None else Some(self), cb);
      fd < |t.ctxs| && AddEvent(s, fd, ev, cb, self, fault) ==
        if fault then (t, false)
        else (Added(t, fd, ev, x, TaskFor(cb, self), s.interest[fd := t.ctxs[fd].events + {ev}]), true)
  {
    RoomyIs(s.ctxs, fd);
  }

  /** A registration fails exactly when the kernel fails for a reason of its own; then nothing but
      the size of the table changes. */
  lemma AddKeeps(s: State, fd: nat, ev: Event, cb: Option<nat>, self: nat, fault: bool)
    requires Inv(s) && !Registered(s, fd, ev)
    ensures var (s', ok) := AddEvent(s, fd, ev, cb, self, fault);
      && Inv(s') && (ok <==> !fault) && s'.queue == s.queue
      && (fault ==> s'.book == s.book)
      && (!fault ==> Registered(s', fd, ev))
      && (!fault ==> s'.book == Register(s.book, Key(fd, ev), TaskFor(cb, self)))
      && TaskFor(cb, self) == match cb case Some(id) => CbTask(id) case None => FiberTask(self)
  {
    RoomyKeeps(s, fd);
    AddIs(s, fd, ev, cb, self, fault);
    if !fault {
      var t := s.(ctxs := Roomy(s.ctxs, fd));
      AddedKeeps(t, fd, ev, EventContext(true, if cb.Some? then None else Some(self), cb), TaskFor(cb, self));
    }
  }

  // Deleting a registered event, when the kernel agreed.
  function Deleted(s: State, fd: nat, ev: Event): State
    requires Registered(s, fd, ev) && Key(fd, ev) in s.book.held
  {
    s.(ctxs := s.ctxs[fd := Slotted(s.ctxs[fd], ev, RESET, false)], pending := s.pending - 1,
       interest := LeftInterest(s, fd, {ev}), book := Remove(s.book, Key(fd, ev)))
  }

  lemma DelIs(s: State, fd: nat, ev: Event, fault: bool)
    requires Inv(s)
    ensures Registered(s, fd, ev) ==> Key(fd, ev) in s.book.held
    ensures DelEvent(s, fd, ev, fault) ==
      if Registered(s, fd, ev) && !fault then (Deleted(s, fd, ev), true) else (s, false)
  {
    if Registered(s, fd, ev) {
      CtlLegal(s, fd, {ev}, fault);
      assert SlotOk(Get(s.ctxs[fd], ev), true, Key(fd, ev), s.book);
    }
  }

  lemma DeletedKeeps(s: State, fd: nat, ev: Event)
    requires Inv(s) && Registered(s, fd, ev) && Key(fd, ev) in s.book.held
    ensures Inv(Deleted(s, fd, ev)) && !Registered(Deleted(s, fd, ev), fd, ev)
  {
    SlotChange(s.ctxs, fd, ev, RESET, false, s.book, Remove(s.book, Key(fd, ev)));
    RemoveKeeps(s.book, Key(fd, ev));
    InterestFrame(s.ctxs, s.interest, fd, Slotted(s.ctxs[fd], ev, RESET, false));
  }

  /** Deleting does nothing but for an event that is registered, and then succeeds exactly when the
      kernel does not fail; it resumes nothing. */
  lemma DelKeeps(s: State, fd: nat, ev: Event, fault: bool)
    requires Inv(s)
    ensures var (s', ok) := DelEvent(s, fd, ev, fault);
      && Inv(s') && (ok <==> Registered(s, fd, ev) && !fault)
      && s'.queue == s.queue
      && (if ok then s'.book == Remove(s.book, Key(fd, ev)) && !Registered(s', fd, ev) else s' == s)
  {
    DelIs(s, fd, ev, fault);
    if Registered(s, fd, ev) && !fault { DeletedKeeps(s, fd, ev); }
  }

  /** Cancelling does nothing but for an event that is registered, and then succeeds exactly when
      the kernel does not fail; it queues the event's task, once. */
  lemma CancelKeeps(s: State, fd: nat, ev: Event, fault: bool)
    requires Inv(s)
    ensures var (s', ok) := CancelEvent(s, fd, ev, fault);
      && Inv(s') && (ok <==> Registered(s, fd, ev) && !fault)
      && (if ok then Fired(s, s', fd, {ev}) else s' == s)
  {
    if Registered(s, fd, ev) && !fault {
      CtlLegal(s, fd, {ev}, fault);
      var t := s.(interest := CtlLess(s, fd, {ev}, fault).value);
      TriggerKeeps(t, fd, ev);
      InterestFrame(s.ctxs, s.interest, fd, Trigger(t, fd, ev).ctxs[fd]);
    }
  }

  /** Closing resumes everything that waits on the descriptor, unless the kernel fails; the
      assertion that no event is left then holds. */
  lemma CancelAllKeeps(s: State, fd: nat, fault: bool)
    requires Inv(s)
    ensures var (s', ok) := CancelAll(s, fd, fault);
      && Inv(s') && (ok <==> fd < |s.ctxs| && s.ctxs[fd].events != {} && !fault)
      && (ok ==> (forall ev :: ev in s.ctxs[fd].events ==> Key(fd, ev) in s.book.held)
                 && Fired(s, s', fd, s.ctxs[fd].events) && s'.ctxs[fd].events == {})
      && (!ok ==> s' == s)
  {
    CancelAllIs(s, fd, fault);
    hide CancelAll, TriggerAll;
    if fd < |s.ctxs| && s.ctxs[fd].events != {} && !fault {
      DropKeeps(s, fd, s.ctxs[fd].events);
    }
  }

  lemma CancelAllIs(s: State, fd: nat, fault: bool)
    requires InterestOk(s.ctxs, s.interest) && Booked(s, fd)
    ensures CancelAll(s, fd, fault) ==
      if fd < |s.ctxs| && s.ctxs[fd].events != {} && !fault then
        (TriggerAll(s.(interest := LeftInterest(s, fd, s.ctxs[fd].events)), fd, s.ctxs[fd].events).value, true)
      else (s, false)
  {
    if fd < |s.ctxs| { assert s.ctxs[fd].events - s.ctxs[fd].events == {}; }
  }

  lemma StaleIs(c: FdContext, reported: set<Event>, error: bool)
    ensures Stale(c, reported, error) <==>
      !(reported <= c.events) && exists ev :: ev in c.events && (error || ev in reported)
  {
    var actual := RealEvents(c, reported, error);
    assert forall ev :: ev in c.events && (error || ev in reported) ==> ev in c.events * actual;
    if c.events * actual != {} {
      var ev :| ev in c.events * actual;
      assert ev in c.events && (error || ev in reported);
    }
    assert actual <= c.events <==> reported <= c.events;
  }

  /** The assertion in the trigger is hit exactly by a stale report, when the kernel does not
      fail. */
  lemma ReadyFailsIff(s: State, fd: nat, reported: set<Event>, error: bool, fault: bool)
    requires Inv(s) && fd < |s.ctxs|
    ensures Ready(s, fd, reported, error, fault).None? <==> !fault && Stale(s.ctxs[fd], reported, error)
    ensures Stale(s.ctxs[fd], reported, error) <==>
      && !(reported <= s.ctxs[fd].events)
      && exists ev :: ev in s.ctxs[fd].events && (error || ev in reported)
  {
    StaleIs(s.ctxs[fd], reported, error);
    if s.ctxs[fd].events != {} { CtlLegal(s, fd, RealEvents(s.ctxs[fd], reported, error), fault); }
  }

  // Which registered events a report ends.
  function Ends(s: State, fd: nat, reported: set<Event>, error: bool, fault: bool): set<Event>
    requires fd < |s.ctxs|
  {
    if fault then {} else s.ctxs[fd].events * RealEvents(s.ctxs[fd], reported, error)
  }

  lemma EndsIs(s: State, fd: nat, reported: set<Event>, error: bool, fault: bool)
    requires fd < |s.ctxs|
    ensures var evs := Ends(s, fd, reported, error, fault);
      && evs <= s.ctxs[fd].events && (fault ==> evs == {})
      && (!fault && error ==> evs == s.ctxs[fd].events && s.ctxs[fd].events - evs == {})
      && (!fault && !error ==> evs == s.ctxs[fd].events * reported)
  {
    assert reported + {} == reported;
  }

  lemma ReadyIs(s: State, fd: nat, reported: set<Event>, error: bool, fault: bool)
    requires InterestOk(s.ctxs, s.interest) && Booked(s, fd) && fd < |s.ctxs|
    requires fault || !Stale(s.ctxs[fd], reported, error)
    ensures var evs := Ends(s, fd, reported, error, fault);
      Ready(s, fd, reported, error, fault) ==
        if evs == {} then Some(s) else TriggerAll(s.(interest := LeftInterest(s, fd, evs)), fd, evs)
  {
    var events := s.ctxs[fd].events;
    var actual := RealEvents(s.ctxs[fd], reported, error);
    assert actual <= events ==> events * actual == actual;
  }

  /** A report that is not stale resumes exactly what waits for the events it stands for, unless
      the kernel fails; then it does nothing. */
  lemma ReadyKeeps(s: State, fd: nat, reported: set<Event>, error: bool, fault: bool)
    requires Inv(s) && fd < |s.ctxs| && (fault || !Stale(s.ctxs[fd], reported, error))
    ensures var r := Ready(s, fd, reported, error, fault); var evs := Ends(s, fd, reported, error, fault);
      && r.Some? && Inv(r.value)
      && (forall ev :: ev in evs ==> Key(fd, ev) in s.book.held) && Fired(s, r.value, fd, evs)
      && (fault ==> r.value == s)
      && (!fault && error ==> evs == s.ctxs[fd].events && r.value.ctxs[fd].events == {})
      && (!fault && !error ==> evs == s.ctxs[fd].events * reported)
  {
    EndsIs(s, fd, reported, error, fault);
    hide RealEvents, Stale;
    var evs := Ends(s, fd, reported, error, fault);
    ReadyIs(s, fd, reported, error, fault);
    if evs == {} {
      assert s.ctxs[fd].events - {} == s.ctxs[fd].events;
    } else {
      DropKeeps(s, fd, evs);
    }
  }

  lemma LessThose(evs: set<Event>, reported: set<Event>)
    ensures evs - evs * reported == evs - reported && evs - {} == evs && evs - evs == {}
  {
  }

  lemma ReadyLeaves(s: State, fd: nat, reported: set<Event>, error: bool, fault: bool)
    requires Inv(s) && fd < |s.ctxs| && (fault || !Stale(s.ctxs[fd], reported, error))
    ensures var r := Ready(s, fd, reported, error, fault); var evs := s.ctxs[fd].events;
      && r.Some? && Inv(r.value) && fd < |r.value.ctxs|
      && r.value.ctxs[fd].events == if fault then evs else if error then {} else evs - reported
  {
    ReadyKeeps(s, fd, reported, error, fault);
    var evs, r := s.ctxs[fd].events, Ready(s, fd, reported, error, fault);
    assert fd < |r.value.ctxs| && r.value.ctxs[fd].events == evs - Ends(s, fd, reported, error, fault);
    EndsIs(s, fd, reported, error, fault);
    hide Ready, Ends, Stale, Inv, Fired;
    LessThose(evs, reported);
  }

  // The numbers of the registrations that end, in order.
  function EndedRegs(b: Book, fd: nat, evs: set<Event>): seq<nat>
    requires forall ev :: ev in evs ==> Key(fd, ev) in b.held
  {
    (if READ in evs then [b.held[Key(fd, READ)]] else []) + (if WRITE in evs then [b.held[Key(fd, WRITE)]] else [])
  }

  lemma FiredLog(b: Book, fd: nat, evs: set<Event>)
    requires BookInv(b) && forall ev :: ev in evs ==> Key(fd, ev) in b.held
    ensures var b' := FireAll(b, fd, evs); b'.regs == b.regs && b'.log == b.log + EndedRegs(b, fd, evs)
    ensures forall i :: 0 <= i < |EndedRegs(b, fd, evs)| ==> EndedRegs(b, fd, evs)[i] < |b.regs|
  {
  }

  /** What was ended is handed over after all that was before: what waited to read, and then what
      waited to write. */
  lemma FiredHands(s: State, s': State, fd: nat, evs: set<Event>)
    requires Inv(s) && Inv(s') && forall ev :: ev in evs ==> Key(fd, ev) in s.book.held
    requires Fired(s, s', fd, evs)
    ensures forall i :: 0 <= i < |EndedRegs(s.book, fd, evs)| ==> EndedRegs(s.book, fd, evs)[i] < |s.book.regs|
    ensures s'.queue == s.queue + HandlersOf(s.book, EndedRegs(s.book, fd, evs))
  {
    FiredLog(s.book, fd, evs);
    LogHands(s.queue, s.book, s'.queue, s'.book, EndedRegs(s.book, fd, evs));
  }

  function HandlersOf(b: Book, rs: seq<nat>): (hs: seq<Handler>)
    requires forall i :: 0 <= i < |rs| ==> rs[i] < |b.regs|
    ensures |hs| == |rs| && forall i :: 0 <= i < |hs| ==> hs[i] == b.regs[rs[i]].handler
  {
    seq(|rs|, i requires 0 <= i < |rs| => b.regs[rs[i]].handler)
  }

  lemma LogHands(queue: seq<Handler>, b: Book, queue': seq<Handler>, b': Book, more: seq<nat>)
    requires QueueOk(queue, b) && QueueOk(queue', b') && b'.regs == b.regs && b'.log == b.log + more
    requires forall i :: 0 <= i < |more| ==> more[i] < |b.regs|
    ensures queue' == queue + HandlersOf(b, more)
  {
    forall i | 0 <= i < |more|
      ensures queue'[|queue| + i] == b.regs[more[i]].handler
    {
      assert b'.log[|queue| + i] == more[i];
    }
  }

  /** A report of registered events only, as when the kernel's answer is handled at once, is never
      stale. */
  lemma FreshReport(c: FdContext, reported: set<Event>, error: bool)
    requires reported <= c.events
    ensures !Stale(c, reported, error)
  {
  }

  /** Closing a descriptor: its events are cancelled, and then the kernel forgets it. */
  function Close(s: State, fd: nat, fault: bool): State
    requires CoreInv(s)
  {
    var s1 := CancelAll(s, fd, fault).0;
    s1.(interest := s1.interest - {fd})
  }

  /** It leaves the kernel's view right exactly when the cancelling did not fail with an event
      registered. */
  lemma CloseKeepsIff(s: State, fd: nat, fault: bool)
    requires Inv(s)
    ensures Inv(Close(s, fd, fault)) <==> !fault || fd >= |s.ctxs| || s.ctxs[fd].events == {}
  {
    if fault && fd < |s.ctxs| && s.ctxs[fd].events != {} {
      CancelAllKeeps(s, fd, fault);
      ForgottenEvents(s, fd);
    } else {
      CleanClose(s, fd, fault);
    }
  }

  lemma CleanClose(s: State, fd: nat, fault: bool)
    requires Inv(s) && (!fault || fd >= |s.ctxs| || s.ctxs[fd].events == {})
    ensures Inv(Close(s, fd, fault))
  {
    CancelAllKeeps(s, fd, fault);
    var s1 := CancelAll(s, fd, fault).0;
    NotWatched(s1, fd);
  }

  // Forgetting what is not there changes nothing.
  lemma NotWatched(s: State, fd: nat)
    requires Inv(s) && (fd >= |s.ctxs| || s.ctxs[fd].events == {})
    ensures s.(interest := s.interest - {fd}) == s
  {
    assert s.interest - {fd} == s.interest;
  }

  lemma ForgottenEvents(s: State, fd: nat)
    requires fd < |s.ctxs| && s.ctxs[fd].events != {}
    ensures !InterestOk(s.ctxs, s.interest - {fd})
  {
  }

  // --- runs ----------------------------------------------------------------------------------------

  datatype Op =
    | OpAdd(fd: nat, ev: Event, cb: Option<nat>, self: nat, fault: bool)
    | OpDel(fd: nat, ev: Event, fault: bool)
    | OpCancel(fd: nat, ev: Event, fault: bool)
    | OpCancelAll(fd: nat, fault: bool)
    | OpReady(fd: nat, reported: set<Event>, error: bool, fault: bool)

  // No event is registered twice, and no report is stale.
  predicate Enabled(s: State, op: Op)
    requires CoreInv(s)
  {
    match op
    case OpAdd(fd, ev, _, _, _) => !Registered(s, fd, ev)
    case OpReady(fd, reported, error, _) => fd < |s.ctxs| && !Stale(s.ctxs[fd], reported, error)
    case _ => true
  }

  function Step(s: State, op: Op): State
    requires Inv(s) && Enabled(s, op)
  {
    match op
    case OpAdd(fd, ev, cb, self, fault) => AddEvent(s, fd, ev, cb, self, fault).0
    case OpDel(fd, ev, fault) => DelEvent(s, fd, ev, fault).0
    case OpCancel(fd, ev, fault) => CancelEvent(s, fd, ev, fault).0
    case OpCancelAll(fd, fault) => CancelAll(s, fd, fault).0
    case OpReady(fd, reported, error, fault) =>
      ReadyKeeps(s, fd, reported, error, fault);
      Ready(s, fd, reported, error, fault).value
  }

  /** Whatever is called in whatever order, with whatever failures of the kernel: the slots, the
      counter, the kernel's interest and the book agree, and no registration is forgotten. */
  lemma StepKeeps(s: State, op: Op)
    requires Inv(s) && Enabled(s, op)
    ensures Inv(Step(s, op)) && Later(s.book, Step(s, op).book)
  {
    match op
    case OpAdd(fd, ev, cb, self, fault) => AddKeeps(s, fd, ev, cb, self, fault);
    case OpDel(fd, ev, fault) => DelKeeps(s, fd, ev, fault);
    case OpCancel(fd, ev, fault) => CancelKeeps(s, fd, ev, fault);
    case OpCancelAll(fd, fault) => CancelAllKeeps(s, fd, fault);
    case OpReady(fd, reported, error, fault) => ReadyKeeps(s, fd, reported, error, fault);
  }

  /** A run: the steps taken from some state. */
  datatype Run = Begins(from: State) | Then(run: Run, op: Op)

  ghost predicate Possible(r: Run)
    decreases r, 0
  {
    if r.Begins? then Inv(r.from) else Possible(r.run) && Enabled(End(r.run), r.op)
  }

  /** The state after a run; everything agrees there. */
  ghost function End(r: Run): (s: State)
    requires Possible(r)
    ensures Inv(s)
    decreases r, 1
  {
    match r
    case Begins(from) => from
    case Then(r', op) =>
      StepKeeps(End(r'), op);
      Step(End(r'), op)
  }

  /** The second run goes on from the first. */
  predicate Extends(r1: Run, r2: Run) {
    r1 == r2 || (r2.Then? && Extends(r1, r2.run))
  }

  /** In every run everything agrees at every moment, and no registration is forgotten. */
  lemma {:induction false} RunKeeps(r1: Run, r2: Run)
    requires Possible(r2) && Extends(r1, r2)
    ensures Possible(r1) && Inv(End(r2)) && Later(End(r1).book, End(r2).book)
  {
    if r1 != r2 {
      RunKeeps(r1, r2.run);
      StepKeeps(End(r2.run), r2.op);
      LaterTrans(End(r1).book, End(r2.run).book, End(r2).book);
    }
  }

  lemma StartInv()
    ensures Inv(Start())
  {
    TotalGrows([], Freshes(0, 32));
  }

  /** Every registration, through every run: it waits, or was queued once, or was removed and never
      queued; what ended it stays the only thing that did. */
  lemma RegistrationEndsOnce(r1: Run, r2: Run, n: nat)
    requires Possible(r1) && Possible(r2) && Extends(r1, r2) && n < |End(r1).book.regs|
    ensures var b, b' := End(r1).book, End(r2).book;
      && Later(b, b') && b'.regs[n] == b.regs[n]
      && Times(b'.log, n) + (if n in b'.removed then 1 else 0) + (if Waiting(b', n) then 1 else 0) == 1
      && (!Waiting(b, n) ==> !Waiting(b', n) && Times(b'.log, n) == Times(b.log, n))
  {
    RunKeeps(r1, r2);
    EndsOnce(End(r1).book, End(r2).book, n);
  }

  // The counter covers the events of each descriptor.
  lemma CounterCovers(s: State, fd: nat)
    requires CoreInv(s) && fd < |s.ctxs|
    ensures |s.ctxs[fd].events| <= s.pending
  {
    TotalUpdate(s.ctxs, fd, Fresh(fd));
  }

  lemma RegisteredIff(s: State, k: Key)
    requires Inv(s)
    ensures Registered(s, k.fd, k.ev) <==> k in s.book.held
  {
    if k.fd < |s.ctxs| {
      assert SlotOk(Get(s.ctxs[k.fd], k.ev), k.ev in s.ctxs[k.fd].events, Key(k.fd, k.ev), s.book);
    }
  }
}
