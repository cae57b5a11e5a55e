/** When a fiber that waits with a timeout still has a timer to wake it. */
module DoIoTimeouts {
  import Options
  import opened EventBook
  import opened IoSpec
  import IoRuns
  import opened DoIo
  import opened DoIoRuns

  // The fiber waits in this round for its event.
  ghost predicate WaitsIn(w: World, f: nat, c: nat) {
    && f in w.fibers && Registering(w.fibers[f].pc) && w.fibers[f].pc.c == c
    && Waiting(w.io.book, w.fibers[f].pc.r)
  }

  /** A fiber that waits with a timeout has a timer still on its way to cancel the event, unless
      the timer tried already and could not. */
  lemma TimeoutOnItsWay(w: World, f: nat, c: nat)
    requires WorldInv(w) && WaitsIn(w, f, c) && w.fibers[f].ms != 0
    ensures c < |w.conds|
    ensures var t := w.conds[c].timer; t.Armed? || t.Due? || t.Tested? || t.Marked? || t == Ended(false)
  {
    assert FiberOk(w.io.book, w.conds, f, w.fibers[f]);
  }

  /** The timer's cancelling ends the wait exactly when the kernel does not fail; the fiber will then
      see the timeout. */
  lemma TimeoutWakesIff(w: World, f: nat, c: nat, fault: bool)
    requires WorldInv(w) && WaitsIn(w, f, c) && CanTake(w, Cancel(c, fault))
    ensures var w' := Take(w, Cancel(c, fault));
      && (WaitsIn(w', f, c) <==> fault)
      && w'.conds[c].cancelled
      && Count(w'.io.queue, FiberTask(f)) == w.fibers[f].resumes + if fault then 0 else 1
  {
    assert FiberOk(w.io.book, w.conds, f, w.fibers[f]);
    TimeoutIs(w, c, fault);
    TimeoutKeeps(w, c, fault);
    var w' := Take(w, Cancel(c, fault));
    assert FiberOk(w'.io.book, w'.conds, f, w'.fibers[f]);
    HandedIsCount(w'.io.queue, w'.io.book, FiberTask(f));
  }

  /** Before the fiber registered, the timer's cancelling finds nothing. */
  lemma EarlyTimeoutFindsNothing(w: World, f: nat, fault: bool)
    requires WorldInv(w) && f in w.fibers && w.fibers[f].pc.Adding? && CanTake(w, Cancel(w.fibers[f].pc.c, fault))
    ensures var c := w.fibers[f].pc.c; var w' := Take(w, Cancel(c, fault));
      w'.io == w.io && w'.conds[c].timer == Ended(false)
  {
    var c := w.fibers[f].pc.c;
    assert FiberOk(w.io.book, w.conds, f, w.fibers[f]);
    IoRuns.RegisteredIff(w.io, w.conds[c].key);
  }

  // --- exactly when ----------------------------------------------------------------------------------

  /** The timer has still to cancel the event. */
  predicate OnItsWay(t: Timer) { t.Armed? || t.Due? || t.Tested? || t.Marked? }

  /** A fiber that registers with a timeout waits, and its timer is still on its way exactly if it
      has not run out and tried before. */
  lemma SubscribeInTimeIff(w: World, f: nat)
    requires WorldInv(w) && CanTake(w, Subscribe(f, false)) && w.fibers[f].ms != 0
    ensures var c, w' := w.fibers[f].pc.c, Take(w, Subscribe(f, false));
      && WaitsIn(w', f, c) && c < |w'.conds|
      && (OnItsWay(w'.conds[c].timer) <==> w.conds[c].timer != Ended(false))
  {
    assert FiberOk(w.io.book, w.conds, f, w.fibers[f]);
    SubscribeIs(w, f, false);
    var w', n := Take(w, Subscribe(f, false)), |w.io.book.regs|;
    assert w'.io.book.regs[n].key == w.fibers[f].key;
  }

  // A timer that has ended stays so.
  lemma EndedStays(w: World, a: Act, c: nat)
    requires WorldInv(w) && CanTake(w, a) && c < |w.conds| && w.conds[c].timer.Ended?
    ensures c < |Take(w, a).conds| && Take(w, a).conds[c].timer.Ended?
  {
    if a.Subscribe? {
      SubscribeIs(w, a.f, a.fault);
    } else if a.Arm? {
      assert FiberOk(w.io.book, w.conds, a.f, w.fibers[a.f]);
    } else if a.Cancel? {
      TimeoutIs(w, a.c, a.fault);
    }
  }

  // Only its own cancelling ends a timer.
  lemma EndsByCancel(w: World, a: Act, c: nat)
    requires WorldInv(w) && CanTake(w, a) && c < |w.conds| && !w.conds[c].timer.Ended?
    ensures c < |Take(w, a).conds| && (Take(w, a).conds[c].timer.Ended? ==> a.Cancel? && a.c == c)
  {
    if a.Subscribe? {
      SubscribeIs(w, a.f, a.fault);
    } else if a.Cancel? {
      TimeoutIs(w, a.c, a.fault);
    }
  }

  // Who waits before and after a step waits for as long.
  lemma SameTimeout(w: World, a: Act, f: nat, c: nat)
    requires WorldInv(w) && CanTake(w, a) && WaitsIn(w, f, c) && WaitsIn(Take(w, a), f, c)
    ensures Take(w, a).fibers[f].ms == w.fibers[f].ms
  {
    if a.Subscribe? { SubscribeIs(w, a.f, a.fault); }
  }

  /** While the fiber goes on waiting in this round, its timer stays on its way exactly if the step
      is not the timer's own cancelling, with the kernel failing. */
  lemma StaysOnItsWayIff(w: World, f: nat, c: nat, a: Act)
    requires WorldInv(w) && CanTake(w, a) && WaitsIn(w, f, c) && WaitsIn(Take(w, a), f, c) && w.fibers[f].ms != 0
    requires c < |w.conds| && OnItsWay(w.conds[c].timer)
    ensures c < |Take(w, a).conds| && (OnItsWay(Take(w, a).conds[c].timer) <==> a != Cancel(c, true))
  {
    EndsByCancel(w, a, c);
    SameTimeout(w, a, f, c);
    TakeKeeps(w, a);
    TimeoutOnItsWay(Take(w, a), f, c);
    if a.Cancel? && a.c == c {
      TimeoutWakesIff(w, f, c, a.fault);
      TimeoutIs(w, c, a.fault);
    }
  }

  // --- over runs -------------------------------------------------------------------------------------

  // The fiber is in this round with its timer armed, and has not been woken from it.
  ghost predicate InRound(w: World, f: nat, c: nat) {
    f in w.fibers && (w.fibers[f].pc == Adding(c) || WaitsIn(w, f, c))
  }

  /** In this run the timer of the round tried to cancel the event before the fiber had registered
      it, or when the kernel failed. */
  ghost predicate TriedInVain(r: Run, f: nat, c: nat)
    requires Possible(r)
  {
    r.Then? && (TriedInVain(r.run, f, c) ||
                (InRound(End(r.run), f, c) && r.act.Cancel? && r.act.c == c &&
                 (End(r.run).fibers[f].pc == Adding(c) || r.act.fault)))
  }

  lemma {:induction false} TriedHasEnded(r: Run, f: nat, c: nat)
    requires Possible(r) && TriedInVain(r, f, c)
    ensures c < |End(r).conds| && End(r).conds[c].timer.Ended?
  {
    var w := End(r.run);
    if TriedInVain(r.run, f, c) {
      TriedHasEnded(r.run, f, c);
      EndedStays(w, r.act, c);
    } else {
      TimeoutIs(w, c, r.act.fault);
    }
  }

  // No step forgets a registration.
  lemma TakeLater(w: World, a: Act)
    requires WorldInv(w) && CanTake(w, a)
    ensures Later(w.io.book, Take(w, a).io.book)
  {
    match a
    case Subscribe(f, fault) => SubscribeIs(w, f, fault);
    case Delete(f, fault) => DeleteIsIdle(w, f, fault);
    case Cancel(c, fault) => TimeoutIs(w, c, fault);
    case Report(fd, reported, error, fault) => IoRuns.ReadyKeeps(w.io, fd, reported, error, fault);
    case Close(fd, fault) => IoRuns.CancelAllKeeps(w.io, fd, fault);
    case CancelOther(key, fault) => IoRuns.CancelKeeps(w.io, key.fd, key.ev, fault);
    case AddOther(key, cb, fault) =>
      IoRuns.RegisteredIff(w.io, key);
      IoRuns.AddKeeps(w.io, key.fd, key.ev, Options.Some(cb), 0, fault);
    case DelOther(key, fault) => IoRuns.DelKeeps(w.io, key.fd, key.ev, fault);
    case _ =>
  }

  // A fiber that waits was waiting already, unless it has just registered.
  lemma WaitGoesOn(w: World, a: Act, f: nat, c: nat)
    requires WorldInv(w) && CanTake(w, a) && WaitsIn(Take(w, a), f, c) && !a.Subscribe?
    requires f in w.fibers && Registering(w.fibers[f].pc)
    requires w.fibers[f].pc.c == c && w.fibers[f].pc.r == Take(w, a).fibers[f].pc.r
    ensures WaitsIn(w, f, c)
  {
    var w' := Take(w, a);
    TakeLater(w, a);
    TakeKeeps(w, a);
    assert FiberOk(w.io.book, w.conds, f, w.fibers[f]);
    EndsOnce(w.io.book, w'.io.book, w.fibers[f].pc.r);
  }

  // A round is entered by arming its timer only.
  lemma RoundBegins(w: World, a: Act, f: nat, c: nat)
    requires WorldInv(w) && CanTake(w, a) && InRound(Take(w, a), f, c) && a != Arm(f)
    ensures InRound(w, f, c)
  {
    if a.Subscribe? {
      SubscribeBegins(w, a.f, a.fault, f, c);
    } else {
      if a.Cancel? { TimeoutIs(w, a.c, a.fault); }
      if WaitsIn(Take(w, a), f, c) { WaitGoesOn(w, a, f, c); }
    }
  }

  lemma SubscribeBegins(w: World, g: nat, fault: bool, f: nat, c: nat)
    requires WorldInv(w) && CanTake(w, Subscribe(g, fault)) && InRound(Take(w, Subscribe(g, fault)), f, c)
    ensures InRound(w, f, c)
  {
    var w' := Take(w, Subscribe(g, fault));
    SubscribeIs(w, g, fault);
    if f != g && Registering(w.fibers[f].pc) {
      assert FiberOk(w.io.book, w.conds, f, w.fibers[f]);
      TakeKeeps(w, Subscribe(g, fault));
      EndsOnce(w.io.book, w'.io.book, w.fibers[f].pc.r);
    }
  }

  lemma RoundCond(w: World, f: nat, c: nat)
    requires WorldInv(w) && InRound(w, f, c)
    ensures c < |w.conds|
  {
    assert FiberOk(w.io.book, w.conds, f, w.fibers[f]);
  }

  lemma {:induction false} EndedWasTried(r: Run, f: nat, c: nat)
    requires Possible(r) && InRound(End(r), f, c) && c < |End(r).conds| && End(r).conds[c].timer.Ended?
    ensures TriedInVain(r, f, c)
  {
    if r.Then? {
      var w, a := End(r.run), r.act;
      ArmStarts(w, a, f, c);
      RoundBegins(w, a, f, c);
      RoundCond(w, f, c);
      if w.conds[c].timer.Ended? {
        EndedWasTried(r.run, f, c);
      } else {
        EndsByCancel(w, a, c);
        if w.fibers[f].pc != Adding(c) { TimeoutWakesIff(w, f, c, a.fault); }
      }
    }
  }

  // A timer just armed has not ended.
  lemma ArmStarts(w: World, a: Act, f: nat, c: nat)
    requires WorldInv(w) && CanTake(w, a)
    requires InRound(Take(w, a), f, c) && c < |Take(w, a).conds| && Take(w, a).conds[c].timer.Ended?
    ensures a != Arm(f)
  {
    if a.Arm? { ArmedFresh(w, a.f); }
  }

  lemma ArmedFresh(w: World, f: nat)
    requires WorldInv(w) && CanTake(w, Arm(f))
    ensures var w' := Take(w, Arm(f)); var c := w.fibers[f].pc.c;
      c < |w'.conds| && w'.fibers[f].pc == Adding(c) && !w'.conds[c].timer.Ended?
  {
    assert FiberOk(w.io.book, w.conds, f, w.fibers[f]);
  }

  /** Through every run: a fiber that waits with a timeout has its timer still on its way exactly if
      the timer did not try to cancel before the event was registered, nor with the kernel
      failing. */
  lemma TimeoutSurvivesIff(r: Run, f: nat, c: nat)
    requires Possible(r) && WaitsIn(End(r), f, c) && End(r).fibers[f].ms != 0
    ensures c < |End(r).conds| && (OnItsWay(End(r).conds[c].timer) <==> !TriedInVain(r, f, c))
  {
    TimeoutOnItsWay(End(r), f, c);
    if TriedInVain(r, f, c) {
      TriedHasEnded(r, f, c);
    } else if End(r).conds[c].timer.Ended? {
      EndedWasTried(r, f, c);
    }
  }
}
