/** What every step of waiting for a descriptor keeps, and what follows for each park. */
module DoIoRuns {
  import opened Options
  import opened EventBook
  import opened IoSpec
  import opened IoRuns
  import opened DoIo

  // --- the book under one registration more or less ------------------------------------------------

  lemma HandedFire(b: Book, k: Key, h: Handler)
    requires BookInv(b) && k in b.held
    ensures Handed(b.regs, Fire(b, k).log, h) ==
            Handed(b.regs, b.log, h) + if b.regs[b.held[k]].handler == h then 1 else 0
  {
    assert Fire(b, k).log[..|b.log|] == b.log;
  }

  lemma FireFiber(b: Book, conds: seq<Cond>, f: nat, x: Fiber, k: Key)
    requires BookInv(b) && k in b.held && FiberOk(b, conds, f, x)
    requires b.regs[b.held[k]].handler == FiberTask(f) ==>
      x.key == k && Registering(x.pc) && x.pc.r == b.held[k]
    ensures FiberOk(Fire(b, k), conds, f, x)
  {
    HandedFire(b, k, FiberTask(f));
    if Registering(x.pc) {
      assert Waiting(Fire(b, k), x.pc.r) <==> Waiting(b, x.pc.r) && x.pc.r != b.held[k];
    }
  }

  /** Ending a wait by queuing its task keeps the account of every fiber. */
  lemma FireFibers(b: Book, conds: seq<Cond>, fibers: map<nat, Fiber>, k: Key)
    requires BookInv(b) && k in b.held && FibersOk(b, conds, fibers)
    ensures FibersOk(Fire(b, k), conds, fibers)
  {
    forall f | f in fibers
      ensures FiberOk(Fire(b, k), conds, f, fibers[f])
    {
      FireFiber(b, conds, f, fibers[f], k);
    }
    forall f | f !in fibers
      ensures Handed(b.regs, Fire(b, k).log, FiberTask(f)) == 0
    {
      HandedFire(b, k, FiberTask(f));
    }
  }

  lemma FireAllFibers(b: Book, conds: seq<Cond>, fibers: map<nat, Fiber>, fd: nat, evs: set<Event>)
    requires BookInv(b) && FibersOk(b, conds, fibers)
    requires forall ev :: ev in evs ==> Key(fd, ev) in b.held
    ensures FibersOk(FireAll(b, fd, evs), conds, fibers)
  {
    var b1 := b;
    if READ in evs {
      FireFibers(b, conds, fibers, Key(fd, READ));
      FireKeeps(b, Key(fd, READ));
      b1 := Fire(b, Key(fd, READ));
    }
    if WRITE in evs { FireFibers(b1, conds, fibers, Key(fd, WRITE)); }
  }

  lemma RegisterFiber(b: Book, conds: seq<Cond>, f: nat, x: Fiber, k: Key, h: Handler)
    requires BookInv(b) && k !in b.held && FiberOk(b, conds, f, x)
    requires x.pc.Outside? || x.key != k
    ensures FiberOk(Register(b, k, h), conds, f, x)
  {
    HandedFrame(b.regs, Register(b, k, h).regs, b.log, FiberTask(f));
    if Registering(x.pc) {
      assert Register(b, k, h).regs[x.pc.r] == b.regs[x.pc.r];
      assert Waiting(Register(b, k, h), x.pc.r) <==> Waiting(b, x.pc.r);
    }
  }

  // Another registration, for a callback.
  lemma RegisterOther(b: Book, conds: seq<Cond>, fibers: map<nat, Fiber>, k: Key, h: Handler)
    requires BookInv(b) && k !in b.held && FibersOk(b, conds, fibers) && h.CbTask?
    requires forall f :: f in fibers && fibers[f].key == k ==> fibers[f].pc.Outside?
    ensures FibersOk(Register(b, k, h), conds, fibers)
  {
    forall f | f in fibers
      ensures FiberOk(Register(b, k, h), conds, f, fibers[f])
    {
      RegisterFiber(b, conds, f, fibers[f], k, h);
    }
    forall f | f !in fibers
      ensures Handed(b.regs + [Reg(k, h)], b.log, FiberTask(f)) == 0
    {
      HandedFrame(b.regs, b.regs + [Reg(k, h)], b.log, FiberTask(f));
    }
  }

  // Deleting a registration that is no fiber's.
  lemma RemoveOther(b: Book, conds: seq<Cond>, fibers: map<nat, Fiber>, k: Key)
    requires BookInv(b) && k in b.held && FibersOk(b, conds, fibers)
    requires forall f :: f in fibers && fibers[f].key == k ==> fibers[f].pc.Outside?
    ensures FibersOk(Remove(b, k), conds, fibers)
  {
    forall f | f in fibers
      ensures FiberOk(Remove(b, k), conds, f, fibers[f])
    {
      var x := fibers[f];
      if Registering(x.pc) {
        assert Waiting(Remove(b, k), x.pc.r) <==> Waiting(b, x.pc.r);
      }
    }
  }

  // --- the fiber's own steps -------------------------------------------------------------------------

  // One fiber moves on, with its own condition changed at most, and nothing registered for it.
  lemma Move(b: Book, conds: seq<Cond>, conds': seq<Cond>, fibers: map<nat, Fiber>, f: nat, x': Fiber)
    requires BookInv(b) && FibersOk(b, conds, fibers) && FiberOk(b, conds', f, x')
    requires forall g :: g in fibers && g != f && !fibers[g].pc.Outside? && !x'.pc.Outside? ==> fibers[g].key != x'.key
    requires |conds| <= |conds'|
    requires forall c :: 0 <= c < |conds| && conds'[c] != conds[c] ==>
      f in fibers && !fibers[f].pc.Outside? && conds[c].key == fibers[f].key
    requires f in fibers && Registering(fibers[f].pc) && Waiting(b, fibers[f].pc.r) ==>
      x'.key == fibers[f].key && Registering(x'.pc) && x'.pc.r == fibers[f].pc.r
    ensures FibersOk(b, conds', fibers[f := x'])
  {
    forall g | g in fibers && g != f
      ensures FiberOk(b, conds', g, fibers[g])
    {
      var y := fibers[g];
      if !y.pc.Outside? && !y.pc.Calling? { assert conds'[y.pc.c] == conds[y.pc.c]; }
    }
    forall k | k in b.held && b.regs[b.held[k]].handler.FiberTask?
      ensures var g := b.regs[b.held[k]].handler.id; var fs := fibers[f := x'];
        g in fs && fs[g].key == k && Registering(fs[g].pc) && fs[g].pc.r == b.held[k]
    {
      assert Waiting(b, b.held[k]);
    }
  }

  // A step of a fiber that changes nothing but its own condition.
  lemma MoveKeeps(w: World, f: nat, w': World)
    requires WorldInv(w) && f in w'.fibers && w' == w.(conds := w'.conds, fibers := w.fibers[f := w'.fibers[f]])
    requires FiberOk(w.io.book, w'.conds, f, w'.fibers[f]) && CondsOk(w'.conds)
    requires f in w.fibers && !w.fibers[f].pc.Outside? && w'.fibers[f].key == w.fibers[f].key
    requires |w.conds| <= |w'.conds|
    requires forall c :: 0 <= c < |w.conds| && w'.conds[c] != w.conds[c] ==> w.conds[c].key == w.fibers[f].key
    requires Registering(w.fibers[f].pc) && Waiting(w.io.book, w.fibers[f].pc.r) ==>
      Registering(w'.fibers[f].pc) && w'.fibers[f].pc.r == w.fibers[f].pc.r
    ensures WorldInv(w')
  {
    Move(w.io.book, w.conds, w'.conds, w.fibers, f, w'.fibers[f]);
  }

  lemma EnterKeeps(w: World, f: nat, key: Key, ms: nat)
    requires WorldInv(w) && CanTake(w, Enter(f, key, ms))
    ensures WorldInv(Entered(w, f, key, ms))
  {
    Move(w.io.book, w.conds, w.conds, w.fibers, f, Entered(w, f, key, ms).fibers[f]);
  }

  lemma FiberStepKeeps(w: World, a: Act)
    requires WorldInv(w) && CanTake(w, a)
    requires a.Return? || a.Block? || a.Arm? || a.Park? || a.Resume? || a.Disarm? || a.Check?
    ensures WorldInv(Take(w, a))
  {
    var f := a.f;
    assert FiberOk(w.io.book, w.conds, f, w.fibers[f]);
    if a.Resume? { HandedIsCount(w.io.queue, w.io.book, FiberTask(f)); }
    MoveKeeps(w, f, Take(w, a));
  }

  // The fiber's own registration.
  lemma SubscribeFibers(w: World, f: nat)
    requires WorldInv(w) && CanTake(w, Subscribe(f, false))
    ensures var x := w.fibers[f]; var b := w.io.book;
      var x' := x.(pc := Added(x.pc.c, |b.regs|), parks := x.parks + 1);
      FibersOk(Register(b, x.key, FiberTask(f)), w.conds, w.fibers[f := x'])
  {
    var x, b := w.fibers[f], w.io.book;
    var b' := Register(b, x.key, FiberTask(f));
    assert FiberOk(b, w.conds, f, x);
    forall g
      ensures Handed(b'.regs, b'.log, FiberTask(g)) == Handed(b.regs, b.log, FiberTask(g))
    {
      HandedFrame(b.regs, b'.regs, b.log, FiberTask(g));
    }
    forall g | g in w.fibers && g != f
      ensures FiberOk(b', w.conds, g, w.fibers[g])
    {
      RegisterFiber(b, w.conds, g, w.fibers[g], x.key, FiberTask(f));
    }
    assert Waiting(b', |b.regs|);
  }

  // The event of a fiber about to register is not registered, so that it can.
  lemma SubscribeCan(w: World, f: nat, fault: bool)
    requires WorldInv(w) && CanTake(w, Subscribe(f, fault))
    ensures var k := w.fibers[f].key; !Registered(w.io, k.fd, k.ev) && 32 <= |w.io.ctxs|
    ensures Take(w, Subscribe(f, fault)) == Subscribed(w, f, fault)
  {
    assert FiberOk(w.io.book, w.conds, f, w.fibers[f]);
    RegisteredIff(w.io, w.fibers[f].key);
  }

  // What registering comes to for the fiber, by whether the kernel failed.
  ghost predicate Subscribes(w: World, f: nat, fault: bool, w': World)
    requires At(w, f) && w.fibers[f].pc.Adding?
  {
    var x := w.fibers[f];
    && w'.io.book == (if fault then w.io.book else EventBook.Register(w.io.book, x.key, FiberTask(f)))
    && w' == if fault then GoTo(Drop(w.(io := w'.io), x.pc.c), f, Outside)
             else w.(io := w'.io, fibers :=
               w.fibers[f := x.(pc := Added(x.pc.c, |w.io.book.regs|), parks := x.parks + 1)])
  }

  lemma SubscribeIs(w: World, f: nat, fault: bool)
    requires WorldInv(w) && CanTake(w, Subscribe(f, fault))
    ensures var w' := Take(w, Subscribe(f, fault)); Inv(w'.io) && Subscribes(w, f, fault, w')
  {
    SubscribeCan(w, f, fault);
    AddKeeps(w.io, w.fibers[f].key.fd, w.fibers[f].key.ev, None, f, fault);
  }

  lemma SubscribeKeeps(w: World, f: nat, fault: bool)
    requires WorldInv(w) && CanTake(w, Subscribe(f, fault))
    ensures WorldInv(Take(w, Subscribe(f, fault)))
  {
    assert FiberOk(w.io.book, w.conds, f, w.fibers[f]);
    SubscribeIs(w, f, fault);
    var w' := Take(w, Subscribe(f, fault));
    if fault {
      Move(w.io.book, w.conds, w'.conds, w.fibers, f, w'.fibers[f]);
    } else {
      SubscribeFibers(w, f);
    }
  }

  /** After a timeout the event is not registered any more: deleting it changes nothing. */
  lemma DeleteIsIdle(w: World, f: nat, fault: bool)
    requires WorldInv(w) && CanTake(w, Delete(f, fault))
    ensures var k := w.fibers[f].key; DelEvent(w.io, k.fd, k.ev, fault) == (w.io, false)
  {
    assert FiberOk(w.io.book, w.conds, f, w.fibers[f]);
    RegisteredIff(w.io, w.fibers[f].key);
  }

  lemma DeleteKeeps(w: World, f: nat, fault: bool)
    requires WorldInv(w) && CanTake(w, Delete(f, fault))
    ensures WorldInv(Take(w, Delete(f, fault)))
  {
    assert FiberOk(w.io.book, w.conds, f, w.fibers[f]);
    DeleteIsIdle(w, f, fault);
    MoveKeeps(w, f, Take(w, Delete(f, fault)));
  }

  // --- the timer's steps -------------------------------------------------------------------------

  // A timer of some round goes on; one that gave up was let go of by its fiber, and one whose
  // cancelling succeeded left nothing registered.
  lemma TimerMove(b: Book, conds: seq<Cond>, fibers: map<nat, Fiber>, c: nat, y: Cond)
    requires FibersOk(b, conds, fibers) && c < |conds|
    requires (y.key, y.alive) == (conds[c].key, conds[c].alive) && (conds[c].cancelled ==> y.cancelled)
    requires conds[c].timer != NoTimer && y.timer != NoTimer
    requires y.timer == Over ==> !y.alive
    requires y.timer == Ended(true) ==> y.key !in b.held
    requires y.timer == Ended(true) ==> forall f :: f in fibers && fibers[f].pc.Adding? ==> fibers[f].key != y.key
    ensures FibersOk(b, conds[c := y], fibers)
  {
    forall f | f in fibers
      ensures FiberOk(b, conds[c := y], f, fibers[f])
    {
      assert FiberOk(b, conds, f, fibers[f]);
    }
  }

  lemma TimerStepKeeps(w: World, a: Act)
    requires WorldInv(w) && CanTake(w, a) && (a.Expire? || a.Test? || a.Mark?)
    ensures WorldInv(Take(w, a))
  {
    TimerMove(w.io.book, w.conds, w.fibers, a.c, Take(w, a).conds[a.c]);
  }

  lemma CancelOtherKeeps(w: World, key: Key, fault: bool)
    requires WorldInv(w)
    ensures var io := CancelEvent(w.io, key.fd, key.ev, fault).0; WorldInv(w.(io := io))
  {
    CancelKeeps(w.io, key.fd, key.ev, fault);
    RegisteredIff(w.io, key);
    if key in w.io.book.held && !fault {
      FireAllFibers(w.io.book, w.conds, w.fibers, key.fd, {key.ev});
    }
  }

  lemma TimeoutIs(w: World, c: nat, fault: bool)
    requires WorldInv(w) && CanTake(w, Cancel(c, fault))
    ensures var k := w.conds[c].key; var w' := Take(w, Cancel(c, fault)); var ok := k in w.io.book.held && !fault;
      && Inv(w'.io) && w'.io.book == (if ok then Fire(w.io.book, k) else w.io.book)
      && w' == w.(io := w'.io, conds := w.conds[c := w.conds[c].(timer := Ended(ok))])
  {
    var k := w.conds[c].key;
    RegisteredIff(w.io, k);
    CancelKeeps(w.io, k.fd, k.ev, fault);
  }

  lemma TimeoutKeeps(w: World, c: nat, fault: bool)
    requires WorldInv(w) && CanTake(w, Cancel(c, fault))
    ensures WorldInv(Take(w, Cancel(c, fault)))
  {
    TimeoutIs(w, c, fault);
    var k := w.conds[c].key;
    var ok := k in w.io.book.held && !fault;
    var b := if ok then Fire(w.io.book, k) else w.io.book;
    if ok { FireFibers(w.io.book, w.conds, w.fibers, k); }
    forall f | f in w.fibers && w.fibers[f].pc.Adding? && ok
      ensures w.fibers[f].key != k
    {
      assert FiberOk(w.io.book, w.conds, f, w.fibers[f]);
    }
    TimerMove(b, w.conds, w.fibers, c, w.conds[c].(timer := Ended(ok)));
  }

  // --- the others' steps ---------------------------------------------------------------------------

  lemma ReportKeeps(w: World, fd: nat, reported: set<Event>, error: bool, fault: bool)
    requires WorldInv(w) && CanTake(w, Report(fd, reported, error, fault))
    ensures WorldInv(Take(w, Report(fd, reported, error, fault)))
  {
    ReadyKeeps(w.io, fd, reported, error, fault);
    FireAllFibers(w.io.book, w.conds, w.fibers, fd, Ends(w.io, fd, reported, error, fault));
  }

  lemma CloseKeeps(w: World, fd: nat, fault: bool)
    requires WorldInv(w)
    ensures WorldInv(w.(io := CancelAll(w.io, fd, fault).0))
  {
    CancelAllKeeps(w.io, fd, fault);
    if CancelAll(w.io, fd, fault).1 {
      FireAllFibers(w.io.book, w.conds, w.fibers, fd, w.io.ctxs[fd].events);
    }
  }

  lemma AddOtherKeeps(w: World, key: Key, cb: nat, fault: bool)
    requires WorldInv(w) && CanTake(w, AddOther(key, cb, fault))
    ensures WorldInv(Take(w, AddOther(key, cb, fault)))
  {
    RegisteredIff(w.io, key);
    AddKeeps(w.io, key.fd, key.ev, Some(cb), 0, fault);
    if !fault { RegisterOther(w.io.book, w.conds, w.fibers, key, CbTask(cb)); }
  }

  lemma DelOtherKeeps(w: World, key: Key, fault: bool)
    requires WorldInv(w) && CanTake(w, DelOther(key, fault))
    ensures WorldInv(Take(w, DelOther(key, fault)))
  {
    DelKeeps(w.io, key.fd, key.ev, fault);
    RegisteredIff(w.io, key);
    if key in w.io.book.held && !fault { RemoveOther(w.io.book, w.conds, w.fibers, key); }
  }

  /** Whatever step comes next, of a fiber, of a timer or of anyone else. */
  lemma TakeKeeps(w: World, a: Act)
    requires WorldInv(w) && CanTake(w, a)
    ensures WorldInv(Take(w, a))
  {
    match a
    case Enter(f, key, ms) => EnterKeeps(w, f, key, ms);
    case Subscribe(f, fault) => SubscribeKeeps(w, f, fault);
    case Delete(f, fault) => DeleteKeeps(w, f, fault);
    case Cancel(c, fault) => TimeoutKeeps(w, c, fault);
    case Report(fd, reported, error, fault) => ReportKeeps(w, fd, reported, error, fault);
    case Close(fd, fault) => CloseKeeps(w, fd, fault);
    case CancelOther(key, fault) => CancelOtherKeeps(w, key, fault);
    case AddOther(key, cb, fault) => AddOtherKeeps(w, key, cb, fault);
    case DelOther(key, fault) => DelOtherKeeps(w, key, fault);
    case Expire(_) => TimerStepKeeps(w, a);
    case Test(_) => TimerStepKeeps(w, a);
    case Mark(_) => TimerStepKeeps(w, a);
    case _ => FiberStepKeeps(w, a);
  }

  // --- runs ----------------------------------------------------------------------------------------

  function Empty(): World { World(Start(), map[], []) }

  lemma EmptyInv()
    ensures WorldInv(Empty())
  {
    IoRuns.StartInv();
  }

  /** A run: the steps taken from the start. */
  datatype Run = Begins | Then(run: Run, act: Act)

  ghost predicate Possible(r: Run)
    decreases r, 0
  {
    r.Begins? || (Possible(r.run) && CanTake(End(r.run), r.act))
  }

  /** The world after a run; the invariant holds there, and stops no run. */
  ghost function End(r: Run): (w: World)
    requires Possible(r)
    ensures WorldInv(w)
    decreases r, 1
  {
    match r
    case Begins =>
      EmptyInv();
      Empty()
    case Then(r', a) =>
      TakeKeeps(End(r'), a);
      Take(End(r'), a)
  }

  /** However timeout, readiness and closing come together, in every run from the start: a fiber is
      put on the run queue once for each time it parked, and not before its event ended.  While it
      is parked, either its event is registered and it is not on the queue, or its event is not
      registered and it is on the queue exactly once. */
  lemma QueuedOncePerPark(r: Run, f: nat)
    requires Possible(r) && f in End(r).fibers
    ensures var w := End(r);
      var x, queued := w.fibers[f], Count(w.io.queue, FiberTask(f));
      if Registering(x.pc) then
        && x.parks == x.resumes + 1
        && queued == if Registered(w.io, x.key.fd, x.key.ev) then x.resumes else x.resumes + 1
      else queued == x.parks == x.resumes
  {
    ParkAccount(End(r), f);
  }

  lemma ParkAccount(w: World, f: nat)
    requires WorldInv(w) && f in w.fibers
    ensures var x, queued := w.fibers[f], Count(w.io.queue, FiberTask(f));
      if Registering(x.pc) then
        && x.parks == x.resumes + 1
        && queued == if Registered(w.io, x.key.fd, x.key.ev) then x.resumes else x.resumes + 1
      else queued == x.parks == x.resumes
  {
    HandedIsCount(w.io.queue, w.io.book, FiberTask(f));
    assert FiberOk(w.io.book, w.conds, f, w.fibers[f]);
    RegisteredIff(w.io, w.fibers[f].key);
  }
}
