/** Runs of the I/O manager that fail. */
module IoTraces {
  import opened Options
  import opened EventBook
  import opened IoSpec
  import opened IoRuns

  function Root(r: Run): State {
    if r.Begins? then r.from else Root(r.run)
  }

  /** After this run from the start descriptor 5 has just these events. */
  ghost predicate Watches(r: Run, evs: set<Event>) {
    Root(r) == IoSpec.Start() && Possible(r) && 5 < |End(r).ctxs| && End(r).ctxs[5].events == evs
  }

  lemma WatchesNone() returns (r: Run)
    ensures Watches(r, {})
  {
    StartInv();
    r := Begins(IoSpec.Start());
  }

  // One more event, and one less.
  lemma StepMore(s: State, ev: Event, cb: nat)
    requires Inv(s) && 5 < |s.ctxs| && ev !in s.ctxs[5].events
    ensures var s' := AddEvent(s, 5, ev, Some(cb), 0, false).0;
      5 < |s'.ctxs| && s'.ctxs[5].events == s.ctxs[5].events + {ev}
  {
    AddIs(s, 5, ev, Some(cb), 0, false);
  }

  lemma WatchesMore(r: Run, evs: set<Event>, ev: Event, cb: nat) returns (r': Run)
    requires Watches(r, evs) && ev !in evs
    ensures Watches(r', evs + {ev})
  {
    StepMore(End(r), ev, cb);
    r' := Then(r, OpAdd(5, ev, Some(cb), 0, false));
  }

  lemma StepLess(s: State, ev: Event)
    requires Inv(s) && 5 < |s.ctxs| && ev in s.ctxs[5].events
    ensures var s' := CancelEvent(s, 5, ev, false).0;
      5 < |s'.ctxs| && s'.ctxs[5].events == s.ctxs[5].events - {ev}
  {
    CancelKeeps(s, 5, ev, false);
  }

  lemma WatchesLess(r: Run, evs: set<Event>, ev: Event) returns (r': Run)
    requires Watches(r, evs) && ev in evs
    ensures Watches(r', evs - {ev})
  {
    StepLess(End(r), ev);
    r' := Then(r, OpCancel(5, ev, false));
  }

  lemma WatchesReading() returns (r: Run)
    ensures Watches(r, {READ})
  {
    r := WatchesNone();
    r := WatchesMore(r, {}, READ, 7);
    assert {} + {READ} == {READ};
  }

  lemma WatchesBoth() returns (r: Run)
    ensures Watches(r, {READ} + {WRITE})
  {
    r := WatchesReading();
    r := WatchesMore(r, {READ}, WRITE, 8);
  }

  // Both events were registered, and then reading was cancelled.
  lemma WatchesWriting() returns (r: Run)
    ensures Watches(r, {WRITE})
  {
    r := WatchesBoth();
    r := WatchesLess(r, {READ} + {WRITE}, READ);
    assert {READ} + {WRITE} - {READ} == {WRITE};
  }

  lemma StaleIs(c: FdContext)
    requires c.events == {WRITE}
    ensures Stale(c, {READ, WRITE}, false)
  {
    assert WRITE in c.events * {READ, WRITE};
    assert READ in {READ, WRITE} && READ !in c.events;
  }

  // What a report of both events then does.
  predicate Fails(s: State)
    requires 5 < |s.ctxs| && Booked(s, 5)
  {
    Ready(s, 5, {READ, WRITE}, false, false).None?
  }

  /** A report taken from the kernel before one of its events was cancelled, and handled after, hits
      the assertion. */
  lemma StaleReportFails()
    ensures exists r :: Watches(r, {WRITE}) && Fails(End(r))
  {
    var r := WatchesWriting();
    StaleIs(End(r).ctxs[5]);
    ReadyFailsIff(End(r), 5, {READ, WRITE}, false, false);
    assert Watches(r, {WRITE}) && Fails(End(r));
  }

  /** Closing a descriptor with an event registered, while the kernel refuses the cancelling, leaves
      the event registered and the kernel without it. */
  lemma CloseForgets()
    ensures exists r :: Watches(r, {READ}) && !Inv(Close(End(r), 5, true))
  {
    var r := WatchesReading();
    CloseKeepsIff(End(r), 5, true);
  }
}
