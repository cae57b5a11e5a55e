/** The scheduler as a state machine: workers interleave over a shared queue, one step at a time,
    with a step for each stretch between two points where others can come in between. */
module SchedSpec {

  datatype Life = INIT | HOLD | READY | EXEC | TERM | EXCEPT

  /** A queued task; a callback becomes a fiber of the same number when it is taken.  `thread` is
      the worker it is pinned to, or -1. */
  datatype Entry = Entry(task: nat, isCb: bool, thread: int)

  /** Where a worker is in its loop. */
  datatype Pc =
    | NotStarted
    | Top               // about to look for a task
    | Took(task: nat)   // took one and was counted as active
    | Running(task: nat)
    | Back(task: nat)   // what it ran gave way or ended
    | Counted(task: nat) // not counted as active any more; nothing put back yet
    | Missed            // found no task
    | Idle              // in its idle fiber
    | IdleDone          // gave way in the idle fiber, or ended it
    | Left

  /** `idleOver` says that the idle fiber of this worker has ended. */
  datatype Worker = Worker(pc: Pc, idleOver: bool)

  /** Worker 0 is the thread that made the scheduler when `root` holds. */
  datatype State = State(
    queue: seq<Entry>, tasks: map<nat, Life>, workers: seq<Worker>, root: bool,
    active: int, idle: int, autoStop: bool, stopping: bool)

  function Start(threads: nat, root: bool): State {
    State([], map[], seq(threads, _ => Worker(NotStarted, false)), root, 0, 0, false, false)
  }

  // --- the locked parts ------------------------------------------------------------------------------

  function LifeOf(tasks: map<nat, Life>, t: nat): Life {
    if t in tasks then tasks[t] else INIT
  }

  /** What a worker may take: not what is pinned to another, nor a fiber that runs somewhere. */
  predicate Takeable(e: Entry, tasks: map<nat, Life>, w: int) {
    (e.thread == -1 || e.thread == w) && (e.isCb || LifeOf(tasks, e.task) != EXEC)
  }

  /** The first entry the worker may take; the length of the queue when there is none. */
  function FirstTakeable(queue: seq<Entry>, tasks: map<nat, Life>, w: int): (i: nat)
    ensures i <= |queue|
    ensures i < |queue| ==> Takeable(queue[i], tasks, w)
    ensures forall k :: 0 <= k < i ==> !Takeable(queue[k], tasks, w)
  {
    if queue == [] || Takeable(queue[0], tasks, w) then 0 else 1 + FirstTakeable(queue[1..], tasks, w)
  }

  /** The test for the end, under the lock. */
  predicate Stopping(s: State) {
    s.autoStop && s.stopping && s.queue == [] && s.active == 0
  }

  // --- the steps -------------------------------------------------------------------------------------

  datatype Act =
    | Launch(w: nat)
    | Skip                       // the making thread finds nothing to do and does not run the loop
    | Scan(w: nat)
    | Begin(w: nat)
    | Yield(w: nat, life: Life)
    | Discount(w: nat)
    | Requeue(w: nat)
    | EnterIdle(w: nat)
    | TestIdle(w: nat, over: bool)  // over: whatever else the idle fiber asks for before it ends
    | LeaveIdle(w: nat)
    | Leave(w: nat)
    | Submit(e: Entry)           // from outside
    | Spawn(w: nat, e: Entry)    // by what the worker runs
    | AskStop                    // the first thing stop does
    | SetStopping

  predicate AtPc(s: State, w: nat, pc: Pc) {
    w < |s.workers| && s.workers[w].pc == pc
  }

  /** Outside, tasks are submitted only before the stop.  A task that begins must not run already:
      the fiber asserts it. */
  predicate CanTake(s: State, a: Act) {
    match a
    case Launch(w) => AtPc(s, w, NotStarted) && (s.root && w == 0 ==> s.autoStop && s.stopping)
    case Skip => s.root && AtPc(s, 0, NotStarted) && Stopping(s)
    case Scan(w) => AtPc(s, w, Top)
    case Begin(w) => w < |s.workers| && s.workers[w].pc.Took? && LifeOf(s.tasks, s.workers[w].pc.task) != EXEC
    case Yield(w, life) =>
      w < |s.workers| && s.workers[w].pc.Running? && life != EXEC && life != INIT
    case Discount(w) => w < |s.workers| && s.workers[w].pc.Back?
    case Requeue(w) => w < |s.workers| && s.workers[w].pc.Counted?
    case EnterIdle(w) => AtPc(s, w, Missed) && !s.workers[w].idleOver
    case TestIdle(w, _) => AtPc(s, w, Idle)
    case LeaveIdle(w) => AtPc(s, w, IdleDone)
    case Leave(w) => AtPc(s, w, Missed) && s.workers[w].idleOver
    case Submit(e) => !s.autoStop
    case Spawn(w, e) => w < |s.workers| && (s.workers[w].pc.Running? || s.workers[w].pc.Idle?)
    case AskStop => true
    case SetStopping => s.autoStop
  }

  function GoTo(s: State, w: nat, pc: Pc): State
    requires w < |s.workers|
  {
    s.(workers := s.workers[w := s.workers[w].(pc := pc)])
  }

  // A fiber made for a callback, or a new one, has not run yet.
  function Enqueued(s: State, e: Entry): State {
    s.(queue := s.queue + [e], tasks := if e.task in s.tasks then s.tasks else s.tasks[e.task := INIT])
  }

  function Scanned(s: State, w: nat): State
    requires w < |s.workers|
  {
    var i := FirstTakeable(s.queue, s.tasks, w);
    if i == |s.queue| then GoTo(s, w, Missed)
    else GoTo(s.(queue := s.queue[..i] + s.queue[i + 1..], active := s.active + 1), w, Took(s.queue[i].task))
  }

  predicate Dead(life: Life) { life == TERM || life == EXCEPT }

  // A task that has ended already is dropped.
  function Begun(s: State, w: nat): State
    requires w < |s.workers| && s.workers[w].pc.Took?
  {
    var t := s.workers[w].pc.task;
    if Dead(LifeOf(s.tasks, t)) then GoTo(s.(active := s.active - 1), w, Top)
    else GoTo(s.(tasks := s.tasks[t := EXEC]), w, Running(t))
  }

  // What gave way but is ready goes back, pinned to nobody.
  function Requeued(s: State, w: nat): State
    requires w < |s.workers| && s.workers[w].pc.Counted?
  {
    var t := s.workers[w].pc.task;
    GoTo(if LifeOf(s.tasks, t) == READY then Enqueued(s, Entry(t, false, -1)) else s, w, Top)
  }

  function Take(s: State, a: Act): State
    requires CanTake(s, a)
  {
    match a
    case Launch(w) => GoTo(s, w, Top)
    case Skip => GoTo(s, 0, Left)
    case Scan(w) => Scanned(s, w)
    case Begin(w) => Begun(s, w)
    case Yield(w, life) =>
      var t := s.workers[w].pc.task;
      GoTo(s.(tasks := s.tasks[t := life]), w, Back(t))
    case Discount(w) => GoTo(s.(active := s.active - 1), w, Counted(s.workers[w].pc.task))
    case Requeue(w) => Requeued(s, w)
    case EnterIdle(w) => GoTo(s.(idle := s.idle + 1), w, Idle)
    case TestIdle(w, over) =>
      s.(workers := s.workers[w := Worker(IdleDone, over && Stopping(s))])
    case LeaveIdle(w) => GoTo(s.(idle := s.idle - 1), w, Top)
    case Leave(w) => GoTo(s, w, Left)
    case Submit(e) => Enqueued(s, e)
    case Spawn(w, e) => Enqueued(s, e)
    case AskStop => s.(autoStop := true)
    case SetStopping => s.(stopping := true)
  }
}
