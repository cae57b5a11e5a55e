/** A run in which a timeout is missed. */
module DoIoTraces {
  import opened EventBook
  import opened IoSpec
  import opened DoIo
  import opened DoIoRuns
  import opened DoIoTimeouts

  // A run that leads to this world.
  ghost predicate Leads(r: Run, w: World) { Possible(r) && End(r) == w }

  lemma Next(r: Run, w: World, a: Act)
    requires Leads(r, w) && WorldInv(w) && CanTake(w, a)
    ensures Leads(Then(r, a), Take(w, a))
  {
  }

  // How far the fiber has got in its first round, and its timer.
  ghost predicate Stage(r: Run, f: nat, pc: Pc, ts: seq<Timer>) {
    && Possible(r) && f in End(r).fibers && End(r).fibers[f].pc == pc && End(r).fibers[f].ms == 1
    && |End(r).conds| == |ts| && forall c :: 0 <= c < |ts| ==> End(r).conds[c].timer == ts[c]
  }

  lemma FirstEnters(f: nat, key: Key) returns (r': Run)
    ensures Stage(r', f, Calling, [])
  {
    EmptyInv();
    Next(Begins, Empty(), Enter(f, key, 1));
    r' := Then(Begins, Enter(f, key, 1));
  }

  lemma FirstBlocks(r: Run, f: nat) returns (r': Run)
    requires Stage(r, f, Calling, [])
    ensures Stage(r', f, Arming(0), [NoTimer])
  {
    Next(r, End(r), Block(f));
    r' := Then(r, Block(f));
  }

  lemma FirstArms(r: Run, f: nat) returns (r': Run)
    requires Stage(r, f, Arming(0), [NoTimer])
    ensures Stage(r', f, Adding(0), [Armed])
  {
    Next(r, End(r), Arm(f));
    r' := Then(r, Arm(f));
  }

  // A step of the timer before the fiber registered.
  lemma TimerRuns(r: Run, f: nat, a: Act, t: Timer, t': Timer) returns (r': Run)
    requires Stage(r, f, Adding(0), [t])
    requires (a, t, t') in {(Expire(0), Armed, Due), (Test(0), Due, Tested), (Mark(0), Tested, Marked)}
    ensures Stage(r', f, Adding(0), [t'])
  {
    var w := End(r);
    assert FiberOk(w.io.book, w.conds, f, w.fibers[f]);
    Next(r, w, a);
    r' := Then(r, a);
  }

  lemma TimerFails(r: Run, f: nat) returns (r': Run)
    requires Stage(r, f, Adding(0), [Marked])
    ensures Stage(r', f, Adding(0), [Ended(false)])
  {
    EarlyTimeoutFindsNothing(End(r), f, false);
    Next(r, End(r), Cancel(0, false));
    r' := Then(r, Cancel(0, false));
  }

  // Registering and parking after the cancelling found nothing.
  lemma RegistersTooLate(r: Run, f: nat) returns (r': Run, n: nat)
    requires Stage(r, f, Adding(0), [Ended(false)])
    ensures Stage(r', f, Added(0, n), [Ended(false)]) && WaitsIn(End(r'), f, 0)
  {
    var w := End(r);
    n := |w.io.book.regs|;
    SubscribeIs(w, f, false);
    Next(r, w, Subscribe(f, false));
    assert Take(w, Subscribe(f, false)).io.book.regs[n].key == w.fibers[f].key;
    r' := Then(r, Subscribe(f, false));
  }

  lemma ParksForGood(r: Run, f: nat, n: nat) returns (r': Run)
    requires Stage(r, f, Added(0, n), [Ended(false)]) && WaitsIn(End(r), f, 0)
    ensures Stage(r', f, Parked(0, n), [Ended(false)]) && WaitsIn(End(r'), f, 0)
  {
    Next(r, End(r), Park(f));
    r' := Then(r, Park(f));
  }

  /** A timeout can be missed: when the timer of a round runs out between arming it and registering
      the event, the fiber parks, and no timer is left that would wake it. */
  lemma TimeoutCanBeMissed(f: nat, key: Key)
    ensures exists r, n :: Stage(r, f, Parked(0, n), [Ended(false)]) && WaitsIn(End(r), f, 0)
  {
    var r := FirstEnters(f, key);
    r := FirstBlocks(r, f);
    r := FirstArms(r, f);
    r := TimerRuns(r, f, Expire(0), Armed, Due);
    r := TimerRuns(r, f, Test(0), Due, Tested);
    r := TimerRuns(r, f, Mark(0), Tested, Marked);
    r := TimerFails(r, f);
    var n: nat;
    r, n := RegistersTooLate(r, f);
    r := ParksForGood(r, f, n);
  }
}
