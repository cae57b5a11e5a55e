/** The I/O manager as a whole: timers, event registrations and the workers of the scheduler in one
    machine, with the test for the end in the three steps in which it is made. */
module StopSpec {
  import opened Options
  import EB = EventBook
  import Io = IoSpec
  import IoR = IoRuns
  import TS = TimerSpec
  import TR = TimerRuns
  import opened SchedSpec

  /** How far a worker is with the test.  It has read the timers, and there was none; it has read the
      counter, too, and it was zero; or the test failed, and it goes on with its other work.
      `made` has the timers there were at the first reading and `regs` the number of
      registrations at the second. */
  datatype Look = Unread | NoTimerSeen(made: set<TS.Addr>) | NoEventSeen(made: set<TS.Addr>, regs: nat) | Failed

  /** `listed` has the callbacks that a worker took from the timers and has not queued yet; `passed`
      what the test of a worker had seen when it passed. */
  datatype World = World(
    sched: State, timers: TS.State, io: Io.State,
    looks: seq<Look>, listed: seq<seq<Entry>>, passed: map<nat, Look>)

  function Opening(threads: nat, root: bool, now: nat): World {
    World(Start(threads, root), TS.Start(now), Io.Start(),
          seq(threads, _ => Unread), seq(threads, _ => []), map[])
  }

  /** Who acts: what a worker runs, or someone outside. */
  datatype Who = Task(w: nat) | Outside

  datatype Deed =
    | Move(a: SchedSpec.Act)
    | ReadTimers(w: nat, now: nat)
    | ReadEvents(w: nat)
    | ReadRest(w: nat)
    | GiveWay(w: nat)
    | OnTimers(who: Who, top: TR.Op)
    | OnEvents(who: Who, iop: IoR.Op)
    | Expire(w: nat, now: nat)
    | Hand(w: nat)
    | Report(w: nat, fd: nat, reported: set<EB.Event>, error: bool, fault: bool)

  ghost predicate Sound(v: World) {
    TS.SetInv(v.timers.recs, v.timers.order) && Io.Inv(v.io)
  }

  // --- who may do what -------------------------------------------------------------------------------

  /** A task that runs, or before the stop anyone. */
  predicate May(s: State, who: Who) {
    match who
    case Task(w) => w < |s.workers| && s.workers[w].pc.Running?
    case Outside => !s.autoStop
  }

  /** Who makes the test: a worker in its idle fiber, or the making thread as it stops. */
  predicate Tests(s: State, w: nat) {
    AtPc(s, w, Idle) || (s.root && w == 0 && AtPc(s, 0, NotStarted) && s.autoStop && s.stopping)
  }

  predicate Looks(v: World, w: nat, l: Look) { w < |v.looks| && v.looks[w] == l }

  // In the idle fiber, after a test that failed.
  predicate Works(v: World, w: nat) {
    AtPc(v.sched, w, Idle) && Looks(v, w, Failed) && w < |v.listed|
  }

  /** Steps of the scheduler but for the test and for what the idle fiber queues.  The making thread
      runs the loop when its test has failed. */
  predicate MayMove(v: World, a: SchedSpec.Act) {
    && CanTake(v.sched, a) && !a.Skip? && !a.TestIdle?
    && (a.Spawn? ==> v.sched.workers[a.w].pc.Running?)
    && (a.Launch? && v.sched.root && a.w == 0 ==> Looks(v, 0, Failed))
  }

  /** Readings of the clock are past 0, and deadlines fit in 64 bits. */
  ghost predicate InTime(t: TS.State, now: nat) {
    now > 0 && forall a :: a in t.recs ==> t.recs[a].next <= TS.NEVER
  }

  /** The timers can be read by a worker that has not begun the test, and again by the making thread,
      which stays in its wait. */
  ghost predicate MayReadTimers(v: World, w: nat, now: nat) {
    && Tests(v.sched, w) && InTime(v.timers, now)
    && (Looks(v, w, Unread) || (AtPc(v.sched, w, NotStarted) && Looks(v, w, Failed)))
  }

  predicate MayReadEvents(v: World, w: nat) {
    Tests(v.sched, w) && w < |v.looks| && v.looks[w].NoTimerSeen?
  }

  predicate MayReadRest(v: World, w: nat) {
    Tests(v.sched, w) && w < |v.looks| && v.looks[w].NoEventSeen?
  }

  ghost predicate MayReport(v: World, w: nat, fd: nat, reported: set<EB.Event>, error: bool) {
    Works(v, w) && fd < |v.io.ctxs| && !Io.Stale(v.io.ctxs[fd], reported, error)
  }

  ghost predicate CanDo(v: World, d: Deed)
    requires Sound(v)
  {
    match d
    case Move(a) => MayMove(v, a)
    case ReadTimers(w, now) => MayReadTimers(v, w, now)
    case ReadEvents(w) => MayReadEvents(v, w)
    case ReadRest(w) => MayReadRest(v, w)
    case GiveWay(w) => Works(v, w) && v.listed[w] == []
    case OnTimers(who, op) => May(v.sched, who) && TR.Enabled(v.timers, op) && !op.OpNext? && !op.OpExpire?
    case OnEvents(who, op) => May(v.sched, who) && IoR.Enabled(v.io, op) && !op.OpReady?
    case Expire(w, now) => Works(v, w) && v.listed[w] == []
    case Hand(w) => Works(v, w)
    case Report(w, fd, reported, error, fault) => MayReport(v, w, fd, reported, error)
  }

  // --- what is queued --------------------------------------------------------------------------------

  /** Fibers and callbacks are numbered apart. */
  function EntryFor(h: EB.Handler): Entry {
    match h
    case FiberTask(id) => Entry(2 * id, false, -1)
    case CbTask(id) => Entry(2 * id + 1, true, -1)
  }

  function Entries(hs: seq<EB.Handler>): (es: seq<Entry>)
    ensures |es| == |hs| && forall i :: 0 <= i < |es| ==> es[i] == EntryFor(hs[i])
  {
    if hs == [] then [] else Entries(hs[..|hs| - 1]) + [EntryFor(hs[|hs| - 1])]
  }

  function Listed(cbs: seq<Option<TS.Callback>>): (hs: seq<EB.Handler>)
    ensures forall i :: 0 <= i < |hs| ==> hs[i].CbTask?
  {
    if cbs == [] then []
    else Listed(cbs[..|cbs| - 1]) +
         if cbs[|cbs| - 1].Some? then [EB.CbTask(cbs[|cbs| - 1].value)] else []
  }

  function QueueAll(s: State, es: seq<Entry>): State {
    if es == [] then s else Enqueued(QueueAll(s, es[..|es| - 1]), es[|es| - 1])
  }

  // What an operation on events hands over.
  function Handed(before: Io.State, after: Io.State): seq<Entry> {
    if |before.queue| <= |after.queue| then Entries(after.queue[|before.queue|..]) else []
  }

  ghost function AfterEvents(v: World, op: IoR.Op): World
    requires Io.Inv(v.io) && IoR.Enabled(v.io, op)
  {
    var io := IoR.Step(v.io, op);
    v.(io := io, sched := QueueAll(v.sched, Handed(v.io, io)))
  }

  ghost function AfterReport(v: World, w: nat, fd: nat, reported: set<EB.Event>, error: bool, fault: bool): World
    requires Io.Inv(v.io) && MayReport(v, w, fd, reported, error)
  {
    AfterEvents(v, IoR.OpReady(fd, reported, error, fault))
  }

  ghost function AfterTimers(v: World, op: TR.Op): World
    requires TS.SetInv(v.timers.recs, v.timers.order) && TR.Enabled(v.timers, op)
  {
    v.(timers := TR.Step(v.timers, op).0)
  }

  function SetLook(v: World, w: nat, l: Look): World
    requires w < |v.looks|
  {
    v.(looks := v.looks[w := l])
  }

  ghost function AfterReading(v: World, w: nat, now: nat): World
    requires TS.Known(v.timers.recs, v.timers.order) && MayReadTimers(v, w, now)
  {
    var (t, wait) := TS.NextTimer(v.timers, now);
    SetLook(v.(timers := t), w, if wait == TS.NEVER then NoTimerSeen(t.recs.Keys) else Failed)
  }

  function AfterCounting(v: World, w: nat): World
    requires MayReadEvents(v, w)
  {
    SetLook(v, w, if v.io.pending == 0 then NoEventSeen(v.looks[w].made, |v.io.book.regs|) else Failed)
  }

  // The step of the scheduler when the test passes.
  function Passing(s: State, w: nat): SchedSpec.Act {
    if AtPc(s, w, Idle) then TestIdle(w, true) else Skip
  }

  /** The scheduler's part of the test, which ends the idle fiber, or the making thread's wait. */
  function AfterRest(v: World, w: nat): World
    requires MayReadRest(v, w)
  {
    if !Stopping(v.sched) then SetLook(v, w, Failed)
    else
      v.(sched := Take(v.sched, Passing(v.sched, w)),
         passed := v.passed[w := v.looks[w]])
  }

  /** A worker that enters its idle fiber is at the test again. */
  function AfterMove(v: World, a: SchedSpec.Act): World
    requires MayMove(v, a)
  {
    var v' := v.(sched := Take(v.sched, a));
    if a.EnterIdle? && a.w < |v.looks| then SetLook(v', a.w, Unread) else v'
  }

  function AfterGivingWay(v: World, w: nat): World
    requires Works(v, w)
  {
    v.(sched := Take(v.sched, TestIdle(w, false)))
  }

  ghost function AfterExpire(v: World, w: nat, now: nat): World
    requires TS.SetInv(v.timers.recs, v.timers.order) && Works(v, w)
  {
    TR.ExpireExact(v.timers, now);
    var (t, ts) := TS.Expire(v.timers, now);
    v.(timers := t, listed := v.listed[w := Entries(Listed(TS.Callbacks(v.timers.recs, ts)))])
  }

  function AfterHand(v: World, w: nat): World
    requires Works(v, w)
  {
    v.(sched := QueueAll(v.sched, v.listed[w]), listed := v.listed[w := []])
  }

  ghost function Do(v: World, d: Deed): World
    requires Sound(v) && CanDo(v, d)
  {
    match d
    case Move(a) => AfterMove(v, a)
    case ReadTimers(w, now) => AfterReading(v, w, now)
    case ReadEvents(w) => AfterCounting(v, w)
    case ReadRest(w) => AfterRest(v, w)
    case GiveWay(w) => AfterGivingWay(v, w)
    case OnTimers(_, op) => AfterTimers(v, op)
    case OnEvents(_, op) => AfterEvents(v, op)
    case Expire(w, now) => AfterExpire(v, w, now)
    case Hand(w) => AfterHand(v, w)
    case Report(w, fd, reported, error, fault) => AfterReport(v, w, fd, reported, error, fault)
  }
}
