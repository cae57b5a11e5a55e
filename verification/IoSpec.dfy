/** Event registration of the I/O manager: the contexts of the descriptors, the counter of pending
    events, the interest set that the kernel keeps, and what is handed to the scheduler. */
module IoSpec {
  import opened Options
  import opened EventBook

  /** `scheduler` says whether the context's scheduler pointer is set; it is always the manager. */
  datatype EventContext = EventContext(scheduler: bool, fiber: Option<nat>, cb: Option<nat>)
  datatype FdContext = FdContext(fd: nat, read: EventContext, write: EventContext, events: set<Event>)

  type Interest = map<nat, set<Event>>

  /** The descriptor table, the pending counter, the kernel's interest set and the tasks handed to
      the scheduler, in order.  `book` records the life of every registration. */
  datatype State = State(ctxs: seq<FdContext>, pending: int, interest: Interest, queue: seq<Handler>, book: Book)

  const BOTH: set<Event> := {READ, WRITE}
  const RESET := EventContext(false, None, None)

  function Get(c: FdContext, ev: Event): EventContext {
    match ev case READ => c.read case WRITE => c.write
  }

  function Put(c: FdContext, ev: Event, x: EventContext): FdContext {
    match ev case READ => c.(read := x) case WRITE => c.(write := x)
  }

  /** The context with one slot changed. */
  function Slotted(c: FdContext, ev: Event, x: EventContext, on: bool): FdContext {
    Put(c.(events := if on then c.events + {ev} else c.events - {ev}), ev, x)
  }

  function Fresh(fd: nat): FdContext { FdContext(fd, RESET, RESET, {}) }

  // --- the kernel --------------------------------------------------------------------------------

  datatype CtlOp = ADD | MOD | DEL

  /** Adding what is there, and changing or deleting what is not, is refused; any call may also
      fail for reasons of its own.  A call that fails changes nothing. */
  function Ctl(interest: Interest, op: CtlOp, fd: nat, evs: set<Event>, fault: bool): Option<Interest> {
    if fault || (op.ADD? <==> fd in interest) then None
    else Some(if op.DEL? then interest - {fd} else interest[fd := evs])
  }

  // --- the table ---------------------------------------------------------------------------------

  function Freshes(from: nat, count: nat): (r: seq<FdContext>)
    ensures |r| == count
    ensures forall i :: 0 <= i < count ==> r[i] == Fresh(from + i)
  {
    if count == 0 then [] else Freshes(from, count - 1) + [Fresh(from + count - 1)]
  }

  /** Cuts or extends the table. */
  function Resized(ctxs: seq<FdContext>, size: nat): (r: seq<FdContext>)
    ensures |r| == size
  {
    if size <= |ctxs| then ctxs[..size] else ctxs + Freshes(|ctxs|, size - |ctxs|)
  }

  /** The table with room for a descriptor; one and a half of it is rounded down. */
  function Roomy(ctxs: seq<FdContext>, fd: nat): seq<FdContext> {
    if fd < |ctxs| then ctxs else Resized(ctxs, fd + fd / 2)
  }

  function Start(): State {
    State(Resized([], 32), 0, map[], [], BLANK)
  }

  // --- triggering --------------------------------------------------------------------------------

  // Scheduling an empty fiber or callback queues nothing.
  function Schedule(queue: seq<Handler>, h: Option<Handler>): seq<Handler> {
    if h.Some? then queue + [h.value] else queue
  }

  /** What a context resumes: its callback, or else its fiber. */
  function TaskOf(x: EventContext): Option<Handler> {
    if x.cb.Some? then Some(CbTask(x.cb.value))
    else if x.fiber.Some? then Some(FiberTask(x.fiber.value))
    else None
  }

  // The context after its task was swapped out and its scheduler cleared.
  function Swapped(x: EventContext): EventContext {
    if x.cb.Some? then EventContext(false, x.fiber, None) else EventContext(false, None, None)
  }

  function Triggered(c: FdContext, ev: Event): FdContext {
    Slotted(c, ev, Swapped(Get(c, ev)), false)
  }

  /** Triggers one event and counts it off. */
  function Trigger(s: State, fd: nat, ev: Event): State
    requires fd < |s.ctxs| && Key(fd, ev) in s.book.held
  {
    s.(ctxs := s.ctxs[fd := Triggered(s.ctxs[fd], ev)],
       pending := s.pending - 1,
       queue := Schedule(s.queue, TaskOf(Get(s.ctxs[fd], ev))),
       book := Fire(s.book, Key(fd, ev)))
  }

  // --- what is always true -----------------------------------------------------------------------

  /** A slot is in use, with a scheduler and exactly one of fiber and callback, just when the book
      has a registration for its event, of the same task; otherwise it is blank. */
  predicate SlotOk(x: EventContext, on: bool, k: Key, b: Book) {
    if on then
      && k in b.held && b.held[k] < |b.regs|
      && x.scheduler && (x.fiber.Some? <==> x.cb.None?)
      && TaskOf(x) == Some(b.regs[b.held[k]].handler)
    else k !in b.held && x == RESET
  }

  predicate ContextOk(c: FdContext, fd: nat, b: Book) {
    c.fd == fd && forall ev :: SlotOk(Get(c, ev), ev in c.events, Key(fd, ev), b)
  }

  // How many events are registered in all.
  function Total(ctxs: seq<FdContext>): nat {
    if ctxs == [] then 0 else Total(ctxs[..|ctxs| - 1]) + |ctxs[|ctxs| - 1].events|
  }

  ghost predicate TableOk(ctxs: seq<FdContext>, b: Book) {
    && 32 <= |ctxs|
    && (forall fd :: 0 <= fd < |ctxs| ==> ContextOk(ctxs[fd], fd, b))
    && (forall k :: k in b.held ==> k.fd < |ctxs|)
  }

  /** The scheduler was handed the tasks of the registrations in the log, and nothing else. */
  ghost predicate QueueOk(queue: seq<Handler>, b: Book) {
    && |queue| == |b.log|
    && (forall i :: 0 <= i < |b.log| ==> b.log[i] < |b.regs| && queue[i] == b.regs[b.log[i]].handler)
  }

  // All but the kernel's view.
  ghost predicate CoreInv(s: State) {
    TableOk(s.ctxs, s.book) && s.pending == Total(s.ctxs) && QueueOk(s.queue, s.book) && BookInv(s.book)
  }

  /** The kernel is interested in exactly the registered events. */
  ghost predicate InterestOk(ctxs: seq<FdContext>, interest: Interest) {
    && (forall fd :: fd in interest ==> fd < |ctxs| && interest[fd] == ctxs[fd].events != {})
    && (forall fd :: 0 <= fd < |ctxs| && ctxs[fd].events != {} ==> fd in interest)
  }

  ghost predicate Inv(s: State) {
    CoreInv(s) && InterestOk(s.ctxs, s.interest)
  }

  // --- the operations ------------------------------------------------------------------------------

  // One more registration, in a table with room for it, after the kernel agreed.
  function Added(s: State, fd: nat, ev: Event, x: EventContext, h: Handler, interest: Interest): State
    requires fd < |s.ctxs|
  {
    s.(ctxs := s.ctxs[fd := Slotted(s.ctxs[fd], ev, x, true)], pending := s.pending + 1,
       interest := interest, book := Register(s.book, Key(fd, ev), h))
  }

  /** What a registration resumes: the callback given, or the fiber that registers. */
  function TaskFor(cb: Option<nat>, self: nat): Handler {
    if cb.Some? then CbTask(cb.value) else FiberTask(self)
  }

  /** Registering an event for a callback, or for the running fiber.  A second registration of the
      same event is not allowed.  False when the kernel refused. */
  function AddEvent(s: State, fd: nat, ev: Event, cb: Option<nat>, self: nat, fault: bool): (State, bool)
    requires 32 <= |s.ctxs| && (fd < |s.ctxs| ==> ev !in s.ctxs[fd].events)
  {
    var s1 := s.(ctxs := Roomy(s.ctxs, fd));
    var c := s1.ctxs[fd];
    var x := EventContext(true, if cb.Some? then None else Some(self), cb);
    match Ctl(s.interest, if c.events != {} then MOD else ADD, fd, c.events + {ev}, fault)
    case None => (s1, false)
    case Some(interest) => (Added(s1, fd, ev, x, TaskFor(cb, self), interest), true)
  }

  // The kernel's answer to taking events of a descriptor off.
  function CtlLess(s: State, fd: nat, evs: set<Event>, fault: bool): Option<Interest>
    requires fd < |s.ctxs|
  {
    var left := s.ctxs[fd].events - evs;
    Ctl(s.interest, if left != {} then MOD else DEL, fd, left, fault)
  }

  predicate Registered(s: State, fd: nat, ev: Event) {
    fd < |s.ctxs| && ev in s.ctxs[fd].events
  }

  // The book knows what is registered on a descriptor.
  predicate Booked(s: State, fd: nat) {
    fd < |s.ctxs| ==> forall ev :: ev in s.ctxs[fd].events ==> Key(fd, ev) in s.book.held
  }

  /** Deleting an event without resuming anything. */
  function DelEvent(s: State, fd: nat, ev: Event, fault: bool): (State, bool)
    requires Booked(s, fd)
  {
    if !Registered(s, fd, ev) then (s, false)
    else
      match CtlLess(s, fd, {ev}, fault)
      case None => (s, false)
      case Some(interest) =>
        (s.(ctxs := s.ctxs[fd := Slotted(s.ctxs[fd], ev, RESET, false)], pending := s.pending - 1,
            interest := interest, book := Remove(s.book, Key(fd, ev))), true)
  }

  /** Ending an event early: what waits for it is resumed. */
  function CancelEvent(s: State, fd: nat, ev: Event, fault: bool): (State, bool)
    requires Booked(s, fd)
  {
    if !Registered(s, fd, ev) then (s, false)
    else
      match CtlLess(s, fd, {ev}, fault)
      case None => (s, false)
      case Some(interest) =>
        (Trigger(s.(interest := interest), fd, ev), true)
  }

  lemma SubsetIs(a: set<Event>, b: set<Event>)
    ensures a <= b <==> (READ in a ==> READ in b) && (WRITE in a ==> WRITE in b)
  {
    forall ev | ev in a && (READ in a ==> READ in b) && (WRITE in a ==> WRITE in b)
      ensures ev in b
    {
      match ev case READ => case WRITE =>
    }
  }

  // The trigger with the assertion it makes.
  function TriggerChecked(s: State, fd: nat, ev: Event): Option<State>
    requires fd < |s.ctxs| && (ev in s.ctxs[fd].events ==> Key(fd, ev) in s.book.held)
  {
    if ev in s.ctxs[fd].events then Some(Trigger(s, fd, ev)) else None
  }

  /** Triggers the events of a set, first reading, then writing. */
  function TriggerAll(s: State, fd: nat, evs: set<Event>): (r: Option<State>)
    requires Booked(s, fd) && fd < |s.ctxs|
    ensures r.Some? <==> evs <= s.ctxs[fd].events
  {
    SubsetIs(evs, s.ctxs[fd].events);
    var r := if READ in evs then TriggerChecked(s, fd, READ) else Some(s);
    if r.Some? && WRITE in evs then TriggerChecked(r.value, fd, WRITE) else r
  }

  /** Ending all events of a descriptor, as closing it does. */
  function CancelAll(s: State, fd: nat, fault: bool): (State, bool)
    requires Booked(s, fd)
  {
    if fd >= |s.ctxs| || s.ctxs[fd].events == {} then (s, false)
    else
      match Ctl(s.interest, DEL, fd, {}, fault)
      case None => (s, false)
      case Some(interest) => (TriggerAll(s.(interest := interest), fd, s.ctxs[fd].events).value, true)
  }

  /** What a readiness report stands for: an error or hang-up makes every registered event ready. */
  function RealEvents(c: FdContext, reported: set<Event>, error: bool): set<Event> {
    reported + (if error then c.events else {})
  }

  /** A report that names some registered event together with one that is not. */
  predicate Stale(c: FdContext, reported: set<Event>, error: bool) {
    var actual := RealEvents(c, reported, error);
    c.events * actual != {} && !(actual <= c.events)
  }

  /** Handling a readiness report; None when the assertion in the trigger fails. */
  function Ready(s: State, fd: nat, reported: set<Event>, error: bool, fault: bool): Option<State>
    requires Booked(s, fd) && fd < |s.ctxs|
  {
    var actual := RealEvents(s.ctxs[fd], reported, error);
    if s.ctxs[fd].events * actual == {} then Some(s)
    else
      match CtlLess(s, fd, actual, fault)
      case None => Some(s)
      case Some(interest) => TriggerAll(s.(interest := interest), fd, actual)
  }
}
