/** How a call ends, and what becomes of the timer of a round that is over. */
module DoIoCalls {
  import opened EventBook
  import opened IoSpec
  import opened DoIo
  import opened DoIoRuns

  predicate Inside(w: World, f: nat) { f in w.fibers && !w.fibers[f].pc.Outside? }

  predicate IsOutside(w: World, f: nat) { f in w.fibers && w.fibers[f].pc.Outside? }

  // The fiber that a step is of, if any.
  predicate IsOf(a: Act, f: nat) {
    match a
    case Enter(g, _, _) => g == f
    case Return(g) => g == f
    case Block(g) => g == f
    case Arm(g) => g == f
    case Subscribe(g, _) => g == f
    case Park(g) => g == f
    case Resume(g) => g == f
    case Disarm(g) => g == f
    case Check(g) => g == f
    case Delete(g, _) => g == f
    case _ => false
  }

  // --- one step --------------------------------------------------------------------------------------

  /** Nobody else moves a fiber. */
  lemma OthersLeaveIt(w: World, a: Act, f: nat)
    requires WorldInv(w) && CanTake(w, a) && f in w.fibers && !IsOf(a, f)
    ensures f in Take(w, a).fibers && Take(w, a).fibers[f] == w.fibers[f]
  {
    if a.Subscribe? { SubscribeIs(w, a.f, a.fault); }
  }

  /** A call is entered with its descriptor, direction and timeout, and keeps them. */
  lemma CallKeepsIts(w: World, a: Act, f: nat)
    requires WorldInv(w) && CanTake(w, a) && IsOf(a, f)
    ensures var w' := Take(w, a);
      && f in w'.fibers
      && if a.Enter? then w'.fibers[f].pc == Calling && w'.fibers[f].key == a.key && w'.fibers[f].ms == a.ms
         else f in w.fibers && w'.fibers[f].key == w.fibers[f].key && w'.fibers[f].ms == w.fibers[f].ms
  {
    if a.Subscribe? { SubscribeIs(w, a.f, a.fault); }
  }

  /** A call ends in three ways only: what it tried has returned, the event could not be registered, or
      its round timed out. */
  lemma CallEndsIff(w: World, a: Act, f: nat)
    requires WorldInv(w) && CanTake(w, a) && Inside(w, f)
    ensures f in Take(w, a).fibers
    ensures Take(w, a).fibers[f].pc.Outside? <==>
      a == Return(f) || a == Subscribe(f, true) || (a.Delete? && a.f == f)
  {
    if !IsOf(a, f) {
      OthersLeaveIt(w, a, f);
    } else if a.Subscribe? {
      SubscribeIs(w, a.f, a.fault);
    }
  }

  /** When a fiber that was woken looks at its condition, a round that timed out goes on to end the
      call; any other lets go of its condition and tries the call again. */
  lemma CheckIs(w: World, f: nat)
    requires WorldInv(w) && CanTake(w, Check(f))
    ensures var c := w.fibers[f].pc.c; var w' := Take(w, Check(f));
      && c < |w.conds| && w'.io == w.io
      && (w.conds[c].cancelled ==> w'.fibers[f].pc == Deleting(c) && w'.conds == w.conds)
      && (!w.conds[c].cancelled ==> w'.fibers[f].pc == Calling && !w'.conds[c].alive)
  {
    assert FiberOk(w.io.book, w.conds, f, w.fibers[f]);
  }

  // --- a round that timed out --------------------------------------------------------------------------

  /** The fiber was woken, the condition of its round says cancelled, and it has so many steps of its
      own left in the call. */
  predicate Ending(w: World, f: nat, c: nat, left: nat) {
    && f in w.fibers && c < |w.conds| && w.conds[c].cancelled
    && match left
       case 3 => w.fibers[f].pc == Woken(c)
       case 2 => w.fibers[f].pc == Checking(c)
       case 1 => w.fibers[f].pc == Deleting(c)
       case _ => false
  }

  lemma CancelledStays(w: World, a: Act, c: nat)
    requires WorldInv(w) && CanTake(w, a) && c < |w.conds| && w.conds[c].cancelled
    ensures c < |Take(w, a).conds| && Take(w, a).conds[c].cancelled
  {
    if a.Subscribe? {
      SubscribeIs(w, a.f, a.fault);
    } else if a.Cancel? {
      TimeoutIs(w, a.c, a.fault);
    }
  }

  /** Each step of its own takes it one further to the end of the call; no step of anyone else does
      anything to that. */
  lemma EndingGoesOn(w: World, a: Act, f: nat, c: nat, left: nat)
    requires WorldInv(w) && CanTake(w, a) && Ending(w, f, c, left)
    ensures var w' := Take(w, a);
      if !IsOf(a, f) then Ending(w', f, c, left)
      else if left > 1 then Ending(w', f, c, left - 1)
      else IsOutside(w', f)
  {
    CancelledStays(w, a, c);
    if !IsOf(a, f) { OthersLeaveIt(w, a, f); }
  }

  /** It always has such a step to take. */
  lemma EndingCan(w: World, f: nat, c: nat, left: nat)
    requires WorldInv(w) && Ending(w, f, c, left)
    ensures exists a :: IsOf(a, f) && CanTake(w, a)
  {
    var a := if left == 3 then Disarm(f) else if left == 2 then Check(f) else Delete(f, false);
    assert IsOf(a, f) && CanTake(w, a);
  }

  /** The second run goes on from the first. */
  predicate Extends(r1: Run, r2: Run) {
    r1 == r2 || (r2.Then? && Extends(r1, r2.run))
  }

  /** How many steps of the fiber there are between the two. */
  function OwnSteps(r1: Run, r2: Run, f: nat): nat
    requires Extends(r1, r2)
  {
    if r1 == r2 then 0 else OwnSteps(r1, r2.run, f) + if IsOf(r2.act, f) then 1 else 0
  }

  /** In every run on from there: until it has taken those steps the fiber is on its way out of the
      call, and when it has, it is outside; it never tries the call again in between. */
  lemma {:induction false} TimedOutEnds(r1: Run, r2: Run, f: nat, c: nat, left: nat)
    requires Possible(r1) && Possible(r2) && Extends(r1, r2) && Ending(End(r1), f, c, left)
    requires OwnSteps(r1, r2, f) <= left
    ensures var n := OwnSteps(r1, r2, f);
      if n < left then Ending(End(r2), f, c, left - n) else IsOutside(End(r2), f)
  {
    if r1 != r2 {
      TimedOutEnds(r1, r2.run, f, c, left);
      if OwnSteps(r1, r2.run, f) < left {
        EndingGoesOn(End(r2.run), r2.act, f, c, left - OwnSteps(r1, r2.run, f));
      } else {
        OthersLeaveIt(End(r2.run), r2.act, f);
      }
    }
  }

  // It is parked, and the timer of its round has marked the condition.
  predicate ParkedTimedOut(w: World, f: nat, c: nat) {
    IsParked(w, f) && w.fibers[f].pc.c == c && c < |w.conds| && w.conds[c].cancelled
  }

  lemma ResumedIs(w: World, f: nat, c: nat)
    requires WorldInv(w) && CanTake(w, Resume(f)) && ParkedTimedOut(w, f, c)
    ensures Ending(Take(w, Resume(f)), f, c, 3)
  {
  }

  /** So it is from where the timer of a round has cancelled the event and the fiber is resumed. */
  lemma ResumedEnds(r1: Run, r2: Run, f: nat, c: nat)
    requires Possible(r1) && r1.Then? && r1.act == Resume(f) && Possible(r2) && Extends(r1, r2)
    requires ParkedTimedOut(End(r1.run), f, c)
    requires OwnSteps(r1, r2, f) <= 3
    ensures var n := OwnSteps(r1, r2, f);
      if n < 3 then Ending(End(r2), f, c, 3 - n) else IsOutside(End(r2), f)
  {
    ResumedIs(End(r1.run), f, c);
    assert End(r1) == Take(End(r1.run), Resume(f));
    TimedOutEnds(r1, r2, f, c, 3);
  }

  // --- a timer whose round is over ---------------------------------------------------------------------

  /** The timer was stopped, or its fiber let go of the condition before the timer looked at it. */
  predicate Spent(w: World, c: nat) {
    && c < |w.conds| && !w.conds[c].cancelled
    && (w.conds[c].timer == Over ||
        (!w.conds[c].alive && (w.conds[c].timer == NoTimer || w.conds[c].timer == Armed || w.conds[c].timer == Due)))
  }

  lemma SpentStays(w: World, a: Act, c: nat)
    requires WorldInv(w) && CanTake(w, a) && Spent(w, c)
    ensures Spent(Take(w, a), c) && !(a.Cancel? && a.c == c)
  {
    if a.Subscribe? {
      SpentSubscribe(w, a.f, a.fault, c);
    } else if a.Cancel? {
      SpentCancel(w, a.c, a.fault, c);
    } else {
      SpentGoesOn(w, a, c);
    }
  }

  lemma SpentSubscribe(w: World, f: nat, fault: bool, c: nat)
    requires WorldInv(w) && CanTake(w, Subscribe(f, fault)) && Spent(w, c)
    ensures Spent(Take(w, Subscribe(f, fault)), c)
  {
    SubscribeIs(w, f, fault);
  }

  // The timer of another round.
  lemma SpentCancel(w: World, d: nat, fault: bool, c: nat)
    requires WorldInv(w) && CanTake(w, Cancel(d, fault)) && Spent(w, c)
    ensures d != c && Spent(Take(w, Cancel(d, fault)), c)
  {
    TimeoutIs(w, d, fault);
  }

  lemma SpentGoesOn(w: World, a: Act, c: nat)
    requires WorldInv(w) && CanTake(w, a) && Spent(w, c) && !a.Subscribe? && !a.Cancel?
    ensures Spent(Take(w, a), c)
  {
    if a.Arm? { assert FiberOk(w.io.book, w.conds, a.f, w.fibers[a.f]); }
  }

  lemma SpentIsNotMarked(w: World, c: nat)
    requires Spent(w, c)
    ensures !TimerAt(w, c, Marked)
  {
  }

  /** Such a timer never gets to cancel an event, in any run. */
  lemma {:induction false} SpentNeverCancels(r1: Run, r2: Run, c: nat)
    requires Possible(r1) && Possible(r2) && Extends(r1, r2) && Spent(End(r1), c)
    ensures Spent(End(r2), c) && !TimerAt(End(r2), c, Marked)
  {
    hide Spent;
    if r1 != r2 {
      SpentNeverCancels(r1, r2.run, c);
      SpentStays(End(r2.run), r2.act, c);
    }
    SpentIsNotMarked(End(r2), c);
  }

  /** A fiber that was woken stops its timer exactly if that has not run out, and then for good. */
  lemma DisarmStopsIff(w: World, f: nat)
    requires WorldInv(w) && CanTake(w, Disarm(f))
    ensures var c := w.fibers[f].pc.c; var w' := Take(w, Disarm(f));
      && c < |w.conds| && w'.fibers[f].pc == Checking(c) && w'.io == w.io
      && w'.conds[c].timer != Armed
      && (Spent(w', c) <==> w.conds[c].timer == Armed || Spent(w, c))
  {
    assert FiberOk(w.io.book, w.conds, f, w.fibers[f]);
  }

  /** When a round ends and the call is tried again, its timer can still cancel an event, of a later
      round, exactly if it is between looking at the condition and marking it. */
  lemma LetGoIsSpentIff(w: World, f: nat)
    requires WorldInv(w) && CanTake(w, Check(f)) && w.fibers[f].pc.c < |w.conds|
    requires !w.conds[w.fibers[f].pc.c].cancelled
    ensures var c := w.fibers[f].pc.c; Spent(Take(w, Check(f)), c) <==> w.conds[c].timer != Tested
  {
  }

  /** In that case it can indeed. */
  lemma TestedCanCancel(w: World, c: nat)
    requires WorldInv(w) && TimerAt(w, c, Tested)
    ensures CanTake(w, Mark(c)) && CanTake(Take(w, Mark(c)), Cancel(c, false))
  {
  }
}
