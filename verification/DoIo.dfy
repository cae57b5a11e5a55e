/** The protocol by which a fiber waits for a descriptor: it tries the call, arms a timer,
    registers, parks, and is woken by readiness, by the timeout, or by closing.  Each step is
    one that other threads can come between. */
module DoIo {
  import opened Options
  import opened EventBook
  import opened IoSpec
  import opened IoRuns

  /** Where a fiber is.  `c` is the timer condition of this round, `r` the registration. */
  datatype Pc =
    | Outside
    | Calling
    | Arming(c: nat)
    | Adding(c: nat)
    | Added(c: nat, r: nat)
    | Parked(c: nat, r: nat)
    | Woken(c: nat)
    | Checking(c: nat)
    | Deleting(c: nat)

  /** `parks` counts the registrations that the fiber made here, `resumes` how often it was taken
      from the run queue afterwards. */
  datatype Fiber = Fiber(key: Key, ms: nat, pc: Pc, parks: nat, resumes: nat)

  /** How far the timer of a round is: in the set, listed, past its test of the condition, about to
      cancel the event, done with what the cancelling returned, or given up before that. */
  datatype Timer = NoTimer | Armed | Due | Tested | Marked | Ended(ok: bool) | Over

  /** The condition that fiber and timer share; `alive` while the fiber holds it. */
  datatype Cond = Cond(key: Key, alive: bool, cancelled: bool, timer: Timer)

  datatype World = World(io: State, fibers: map<nat, Fiber>, conds: seq<Cond>)

  datatype Act =
    | Enter(f: nat, key: Key, ms: nat)
    | Return(f: nat)
    | Block(f: nat)
    | Arm(f: nat)
    | Subscribe(f: nat, fault: bool)
    | Park(f: nat)
    | Resume(f: nat)
    | Disarm(f: nat)
    | Check(f: nat)
    | Delete(f: nat, fault: bool)
    | Expire(c: nat)
    | Test(c: nat)
    | Mark(c: nat)
    | Cancel(c: nat, fault: bool)
    | Report(fd: nat, reported: set<Event>, error: bool, fault: bool)
    | Close(fd: nat, fault: bool)
    | CancelOther(key: Key, fault: bool)
    | AddOther(key: Key, cb: nat, fault: bool)
    | DelOther(key: Key, fault: bool)

  // --- counting ------------------------------------------------------------------------------------

  /** How often a task was handed to the scheduler. */
  function Handed(regs: seq<Reg>, log: seq<nat>, h: Handler): nat {
    if log == [] then 0
    else
      var n := |log| - 1;
      Handed(regs, log[..n], h) + if log[n] < |regs| && regs[log[n]].handler == h then 1 else 0
  }

  function Count(queue: seq<Handler>, h: Handler): nat {
    if queue == [] then 0
    else Count(queue[..|queue| - 1], h) + if queue[|queue| - 1] == h then 1 else 0
  }

  lemma {:induction false} HandedIsCount(queue: seq<Handler>, b: Book, h: Handler)
    requires QueueOk(queue, b)
    ensures Handed(b.regs, b.log, h) == Count(queue, h)
  {
    if queue != [] {
      var n := |queue| - 1;
      HandedIsCount(queue[..n], b.(log := b.log[..n]), h);
    }
  }

  lemma {:induction false} HandedFrame(regs: seq<Reg>, regs': seq<Reg>, log: seq<nat>, h: Handler)
    requires regs <= regs' && forall i :: 0 <= i < |log| ==> log[i] < |regs|
    ensures Handed(regs', log, h) == Handed(regs, log, h)
  {
    if log != [] { HandedFrame(regs, regs', log[..|log| - 1], h); }
  }

  // --- what is always true -------------------------------------------------------------------------

  /** Every registration of the fiber was queued once and resumed once. */
  predicate Settled(b: Book, f: nat, x: Fiber) {
    Handed(b.regs, b.log, FiberTask(f)) == x.resumes == x.parks
  }

  // The fiber's condition of this round, with a timer that no one stopped.
  predicate Guarded(conds: seq<Cond>, x: Fiber, c: nat) {
    && c < |conds| && conds[c].key == x.key && conds[c].alive
    && (x.ms == 0 <==> conds[c].timer == NoTimer) && conds[c].timer != Over
  }

  /** While it is registered, the registration waits, and is not queued; or it was queued once more
      than the fiber was resumed. */
  predicate FiberOk(b: Book, conds: seq<Cond>, f: nat, x: Fiber) {
    match x.pc
    case Outside => Settled(b, f, x)
    case Calling => Settled(b, f, x) && x.key !in b.held
    case Arming(c) =>
      Settled(b, f, x) && x.key !in b.held && c < |conds| && conds[c] == Cond(x.key, true, false, NoTimer)
    case Adding(c) =>
      Settled(b, f, x) && x.key !in b.held && Guarded(conds, x, c) && conds[c].timer != Ended(true)
    case Added(c, r) => Pending(b, conds, f, x, c, r)
    case Parked(c, r) => Pending(b, conds, f, x, c, r)
    case Woken(c) => Settled(b, f, x) && x.key !in b.held && Holds(conds, x, c)
    case Checking(c) => Settled(b, f, x) && x.key !in b.held && Holds(conds, x, c)
    case Deleting(c) => Settled(b, f, x) && x.key !in b.held && Holds(conds, x, c) && conds[c].cancelled
  }

  predicate Holds(conds: seq<Cond>, x: Fiber, c: nat) {
    c < |conds| && conds[c].key == x.key && conds[c].alive
  }

  predicate Pending(b: Book, conds: seq<Cond>, f: nat, x: Fiber, c: nat, r: nat) {
    && r < |b.regs| && b.regs[r] == Reg(x.key, FiberTask(f)) && r !in b.removed
    && (x.key in b.held <==> Waiting(b, r))
    && x.parks == x.resumes + 1
    && Handed(b.regs, b.log, FiberTask(f)) == (if Waiting(b, r) then x.resumes else x.parks)
    && Guarded(conds, x, c) && (Waiting(b, r) ==> conds[c].timer != Ended(true))
  }

  predicate Registering(pc: Pc) { pc.Added? || pc.Parked? }

  /** One fiber at a time per descriptor and direction. */
  ghost predicate Apart(fibers: map<nat, Fiber>) {
    forall f, g :: f in fibers && g in fibers && f != g && !fibers[f].pc.Outside? && !fibers[g].pc.Outside? ==>
      fibers[f].key != fibers[g].key
  }

  /** What is registered for a fiber is what that fiber is waiting for. */
  ghost predicate HoldersOk(b: Book, fibers: map<nat, Fiber>) {
    forall k :: k in b.held && b.held[k] < |b.regs| && b.regs[b.held[k]].handler.FiberTask? ==>
      var f := b.regs[b.held[k]].handler.id;
      f in fibers && fibers[f].key == k && Registering(fibers[f].pc) && fibers[f].pc.r == b.held[k]
  }

  ghost predicate FibersOk(b: Book, conds: seq<Cond>, fibers: map<nat, Fiber>) {
    && (forall f :: f in fibers ==> FiberOk(b, conds, f, fibers[f]))
    && Apart(fibers) && HoldersOk(b, fibers)
    && (forall f :: f !in fibers ==> Handed(b.regs, b.log, FiberTask(f)) == 0)
  }

  /** The condition says cancelled from the time the timer marked it. */
  predicate CondsOk(conds: seq<Cond>) {
    forall c :: 0 <= c < |conds| ==> (conds[c].cancelled <==> conds[c].timer.Marked? || conds[c].timer.Ended?)
  }

  ghost predicate WorldInv(w: World) {
    Inv(w.io) && FibersOk(w.io.book, w.conds, w.fibers) && CondsOk(w.conds)
  }

  // --- the steps -----------------------------------------------------------------------------------

  predicate At(w: World, f: nat) {
    f in w.fibers
  }

  predicate IsParked(w: World, f: nat) {
    At(w, f) && w.fibers[f].pc.Parked?
  }

  // Some fiber is inside with this descriptor and direction.
  ghost predicate Owned(w: World, k: Key) {
    exists f :: f in w.fibers && w.fibers[f].key == k && !w.fibers[f].pc.Outside?
  }

  predicate TimerAt(w: World, c: nat, t: Timer) {
    c < |w.conds| && w.conds[c].timer == t
  }

  /** When a step can be taken.  One fiber at a time uses a descriptor in one direction, and nobody
      else registers or deletes events there meanwhile; cancelling is free to all.  A parked fiber
      is resumed when the run queue has it. */
  ghost predicate CanTake(w: World, a: Act)
    requires CoreInv(w.io)
  {
    match a
    case Enter(f, key, _) => (At(w, f) ==> w.fibers[f].pc.Outside?) && !Owned(w, key) && key !in w.io.book.held
    case Return(f) => At(w, f) && w.fibers[f].pc.Calling?
    case Block(f) => At(w, f) && w.fibers[f].pc.Calling?
    case Arm(f) => At(w, f) && w.fibers[f].pc.Arming?
    case Subscribe(f, _) => At(w, f) && w.fibers[f].pc.Adding?
    case Park(f) => At(w, f) && w.fibers[f].pc.Added?
    case Resume(f) => IsParked(w, f) && w.fibers[f].resumes < Count(w.io.queue, FiberTask(f))
    case Disarm(f) => At(w, f) && w.fibers[f].pc.Woken?
    case Check(f) => At(w, f) && w.fibers[f].pc.Checking?
    case Delete(f, _) => At(w, f) && w.fibers[f].pc.Deleting?
    case Expire(c) => TimerAt(w, c, Armed)
    case Test(c) => TimerAt(w, c, Due)
    case Mark(c) => TimerAt(w, c, Tested)
    case Cancel(c, _) => TimerAt(w, c, Marked)
    case Report(fd, reported, error, _) => fd < |w.io.ctxs| && !Stale(w.io.ctxs[fd], reported, error)
    case Close(_, _) => true
    case CancelOther(_, _) => true
    case AddOther(key, _, _) => !Owned(w, key) && key !in w.io.book.held
    case DelOther(key, _) => !Owned(w, key)
  }

  function GoTo(w: World, f: nat, pc: Pc): World
    requires At(w, f)
  {
    w.(fibers := w.fibers[f := w.fibers[f].(pc := pc)])
  }

  function SetTimer(w: World, c: nat, t: Timer): World
    requires c < |w.conds|
  {
    w.(conds := w.conds[c := w.conds[c].(timer := t)])
  }

  // The fiber lets go of its condition.
  function Drop(w: World, c: nat): World {
    if c < |w.conds| then w.(conds := w.conds[c := w.conds[c].(alive := false)]) else w
  }

  // A new fiber, or one that comes back.
  function Entered(w: World, f: nat, key: Key, ms: nat): World {
    w.(fibers := w.fibers[f := if f in w.fibers then w.fibers[f].(key := key, ms := ms, pc := Calling)
                               else Fiber(key, ms, Calling, 0, 0)])
  }

  function Blocked(w: World, f: nat): World
    requires At(w, f)
  {
    GoTo(w.(conds := w.conds + [Cond(w.fibers[f].key, true, false, NoTimer)]), f, Arming(|w.conds|))
  }

  function ArmedFor(w: World, f: nat): World
    requires At(w, f) && w.fibers[f].pc.Arming? && w.fibers[f].pc.c < |w.conds|
  {
    var c := w.fibers[f].pc.c;
    GoTo(if w.fibers[f].ms != 0 then SetTimer(w, c, Armed) else w, f, Adding(c))
  }

  function Subscribed(w: World, f: nat, fault: bool): World
    requires At(w, f) && w.fibers[f].pc.Adding? && 32 <= |w.io.ctxs|
    requires !Registered(w.io, w.fibers[f].key.fd, w.fibers[f].key.ev)
  {
    var x := w.fibers[f];
    var (io, ok) := AddEvent(w.io, x.key.fd, x.key.ev, None, f, fault);
    if ok then
      w.(io := io, fibers := w.fibers[f := x.(pc := Added(x.pc.c, |w.io.book.regs|), parks := x.parks + 1)])
    else GoTo(Drop(w.(io := io), x.pc.c), f, Outside)
  }

  function Resumed(w: World, f: nat): World
    requires IsParked(w, f)
  {
    var x := w.fibers[f];
    w.(fibers := w.fibers[f := x.(pc := Woken(x.pc.c), resumes := x.resumes + 1)])
  }

  function Disarmed(w: World, f: nat): World
    requires At(w, f) && w.fibers[f].pc.Woken?
  {
    var c := w.fibers[f].pc.c;
    GoTo(if TimerAt(w, c, Armed) then SetTimer(w, c, Over) else w, f, Checking(c))
  }

  /** A round that timed out ends the call; the others try again. */
  function Checked(w: World, f: nat): World
    requires At(w, f) && w.fibers[f].pc.Checking? && w.fibers[f].pc.c < |w.conds|
  {
    var c := w.fibers[f].pc.c;
    if w.conds[c].cancelled then GoTo(w, f, Deleting(c)) else GoTo(Drop(w, c), f, Calling)
  }

  function Deleted(w: World, f: nat, fault: bool): World
    requires At(w, f) && w.fibers[f].pc.Deleting? && Booked(w.io, w.fibers[f].key.fd)
  {
    var x := w.fibers[f];
    GoTo(Drop(w.(io := DelEvent(w.io, x.key.fd, x.key.ev, fault).0), x.pc.c), f, Outside)
  }

  function Tried(w: World, c: nat): World
    requires c < |w.conds|
  {
    SetTimer(w, c, if w.conds[c].alive && !w.conds[c].cancelled then Tested else Over)
  }

  function TimedOut(w: World, c: nat, fault: bool): World
    requires c < |w.conds| && Booked(w.io, w.conds[c].key.fd)
  {
    var (io, ok) := CancelEvent(w.io, w.conds[c].key.fd, w.conds[c].key.ev, fault);
    SetTimer(w.(io := io), c, Ended(ok))
  }

  ghost function Reported(io: State, fd: nat, reported: set<Event>, error: bool, fault: bool): State
    requires Inv(io) && fd < |io.ctxs| && !Stale(io.ctxs[fd], reported, error)
  {
    ReadyKeeps(io, fd, reported, error, fault);
    Ready(io, fd, reported, error, fault).value
  }

  ghost function AddedFor(io: State, key: Key, cb: nat, fault: bool): State
    requires Inv(io) && key !in io.book.held
  {
    RegisteredIff(io, key);
    AddEvent(io, key.fd, key.ev, Some(cb), 0, fault).0
  }

  // The steps of a fiber inside the call.
  ghost function FiberTake(w: World, a: Act): World
    requires WorldInv(w) && CanTake(w, a)
  {
    match a
    case Enter(f, key, ms) => Entered(w, f, key, ms)
    case Return(f) => GoTo(w, f, Outside)
    case Block(f) => Blocked(w, f)
    case Arm(f) => ArmedFor(w, f)
    case Subscribe(f, fault) =>
      RegisteredIff(w.io, w.fibers[f].key);
      Subscribed(w, f, fault)
    case Park(f) => GoTo(w, f, Parked(w.fibers[f].pc.c, w.fibers[f].pc.r))
    case Resume(f) => Resumed(w, f)
    case Disarm(f) => Disarmed(w, f)
    case Check(f) => Checked(w, f)
    case Delete(f, fault) => Deleted(w, f, fault)
    case _ => w
  }

  ghost function Take(w: World, a: Act): World
    requires WorldInv(w) && CanTake(w, a)
  {
    match a
    case Expire(c) => SetTimer(w, c, Due)
    case Test(c) => Tried(w, c)
    case Mark(c) => w.(conds := w.conds[c := w.conds[c].(cancelled := true, timer := Marked)])
    case Cancel(c, fault) => TimedOut(w, c, fault)
    case Report(fd, reported, error, fault) => w.(io := Reported(w.io, fd, reported, error, fault))
    case Close(fd, fault) => w.(io := CancelAll(w.io, fd, fault).0)
    case CancelOther(key, fault) => w.(io := CancelEvent(w.io, key.fd, key.ev, fault).0)
    case AddOther(key, cb, fault) => w.(io := AddedFor(w.io, key, cb, fault))
    case DelOther(key, fault) => w.(io := DelEvent(w.io, key.fd, key.ev, fault).0)
    case _ => FiberTake(w, a)
  }
}
