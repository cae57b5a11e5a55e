/** The life of event registrations: what was registered under which number, and how each
    registration ended. */
module EventBook {

  datatype Event = READ | WRITE
  datatype Key = Key(fd: nat, ev: Event)

  /** What a registration resumes: a parked fiber or a callback. */
  datatype Handler = FiberTask(id: nat) | CbTask(id: nat)
  datatype Reg = Reg(key: Key, handler: Handler)

  /** Registrations are numbered as they come.  `held` has those that wait for their event, `log`
      those handed to the scheduler, in order, and `removed` those deleted. */
  datatype Book = Book(regs: seq<Reg>, held: map<Key, nat>, log: seq<nat>, removed: set<nat>)

  const BLANK := Book([], map[], [], {})

  /** `b2` is `b1` after some more registrations and endings. */
  ghost predicate Later(b1: Book, b2: Book) {
    b1.regs <= b2.regs && b1.log <= b2.log && b1.removed <= b2.removed
  }

  function Register(b: Book, k: Key, h: Handler): (b': Book)
    ensures Later(b, b')
  {
    b.(regs := b.regs + [Reg(k, h)], held := b.held[k := |b.regs|])
  }

  function Fire(b: Book, k: Key): (b': Book)
    requires k in b.held
    ensures Later(b, b')
  {
    b.(held := b.held - {k}, log := b.log + [b.held[k]])
  }

  function Remove(b: Book, k: Key): (b': Book)
    requires k in b.held
    ensures Later(b, b')
  {
    b.(held := b.held - {k}, removed := b.removed + {b.held[k]})
  }

  predicate Waiting(b: Book, r: nat) {
    r < |b.regs| && b.regs[r].key in b.held && b.held[b.regs[r].key] == r
  }

  /** Every registration waits, was scheduled once, or was removed: exactly one of the three. */
  ghost predicate BookInv(b: Book) {
    && (forall k :: k in b.held ==> b.held[k] < |b.regs| && b.regs[b.held[k]].key == k)
    && (forall i :: 0 <= i < |b.log| ==> b.log[i] < |b.regs|)
    && (forall r :: r in b.removed ==> r < |b.regs|)
    && (forall i, j :: 0 <= i < j < |b.log| ==> b.log[i] != b.log[j])
    && (forall r :: 0 <= r < |b.regs| ==> (Waiting(b, r) || r in b.log || r in b.removed))
    && (forall r :: Waiting(b, r) ==> r !in b.log && r !in b.removed)
    && (forall r :: r in b.log ==> r !in b.removed)
  }

  lemma RegisterKeeps(b: Book, k: Key, h: Handler)
    requires BookInv(b) && k !in b.held
    ensures BookInv(Register(b, k, h))
  {
    var b' := Register(b, k, h);
    forall r | 0 <= r < |b'.regs|
      ensures Waiting(b', r) <==> r == |b.regs| || Waiting(b, r)
    {
      if r < |b.regs| { assert b'.regs[r] == b.regs[r]; }
    }
  }

  lemma EndKeepsWaiting(b: Book, b': Book, k: Key)
    requires BookInv(b) && k in b.held && b'.regs == b.regs && b'.held == b.held - {k}
    ensures forall r :: Waiting(b', r) <==> Waiting(b, r) && r != b.held[k]
  {
  }

  lemma FireKeeps(b: Book, k: Key)
    requires BookInv(b) && k in b.held
    ensures BookInv(Fire(b, k))
  {
    var b' := Fire(b, k);
    EndKeepsWaiting(b, b', k);
    assert Waiting(b, b.held[k]);
    assert forall r :: r in b'.log <==> r in b.log || r == b.held[k];
  }

  lemma RemoveKeeps(b: Book, k: Key)
    requires BookInv(b) && k in b.held
    ensures BookInv(Remove(b, k))
  {
    EndKeepsWaiting(b, Remove(b, k), k);
    assert Waiting(b, b.held[k]);
  }

  // --- histories --------------------------------------------------------------------------------

  lemma LaterTrans(b1: Book, b2: Book, b3: Book)
    requires Later(b1, b2) && Later(b2, b3)
    ensures Later(b1, b3)
  {
  }

  /** How often a registration was handed to the scheduler. */
  function Times(log: seq<nat>, r: nat): nat {
    if log == [] then 0 else (if log[|log| - 1] == r then 1 else 0) + Times(log[..|log| - 1], r)
  }

  lemma {:induction false} TimesIs(log: seq<nat>, r: nat)
    requires forall i, j :: 0 <= i < j < |log| ==> log[i] != log[j]
    ensures Times(log, r) == if r in log then 1 else 0
  {
    if log != [] {
      var front := log[..|log| - 1];
      TimesIs(front, r);
      assert log == front + [log[|log| - 1]];
    }
  }

  /** A registration ends at most once and in one way, and stays ended: once it was scheduled or
      removed, nothing after changes how often it was scheduled. */
  lemma EndsOnce(b1: Book, b2: Book, r: nat)
    requires BookInv(b1) && BookInv(b2) && Later(b1, b2) && r < |b1.regs|
    ensures Times(b2.log, r) + (if r in b2.removed then 1 else 0) + (if Waiting(b2, r) then 1 else 0) == 1
    ensures !Waiting(b1, r) ==> !Waiting(b2, r) && Times(b2.log, r) == Times(b1.log, r) &&
                                (r in b2.removed <==> r in b1.removed)
    ensures b2.regs[r] == b1.regs[r]
  {
    TimesIs(b1.log, r);
    TimesIs(b2.log, r);
    assert r in b1.log ==> r in b2.log;
  }
}
