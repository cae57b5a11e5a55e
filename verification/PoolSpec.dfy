/** The pool of connections as a state machine.  The list of idle ones changes under a lock; the
    counter is read and changed outside of it, in steps of their own. */
module PoolSpec {
  import opened Options

  /** `requests` is the connection's own count; `lent` records how often it was handed out. */
  datatype Conn = Conn(created: nat, requests: nat, lent: nat)

  datatype Limits = Limits(maxSize: nat, maxAlive: nat, maxRequest: nat)

  /** Connections being made and not counted yet, handed out, given back and about to be put on the
      list, or given back and about to be discounted. */
  datatype Pool = Pool(
    conns: map<nat, Conn>, idle: seq<nat>, total: int,
    making: set<nat>, out: set<nat>, keeping: set<nat>, dying: set<nat>)

  function Start(): Pool { Pool(map[], [], 0, {}, {}, {}, {}) }

  datatype Act =
    | Borrow(seen: map<nat, nat>)
    | Make(c: nat, now: nat)
    | Count(c: nat)
    | Release(c: nat, alive: bool, now: nat)
    | Push(c: nat)
    | Drop(c: nat)

  predicate Expired(x: Conn, maxAlive: nat, now: nat) { x.created + maxAlive <= now }

  /** `seen` has the connections that are still connected when they are looked at, each with the
      clock's reading then. */
  predicate Usable(conns: map<nat, Conn>, c: nat, maxAlive: nat, seen: map<nat, nat>) {
    c in seen && c in conns && !Expired(conns[c], maxAlive, seen[c])
  }

  /** How many idle connections are passed over. */
  function FirstUsable(conns: map<nat, Conn>, idle: seq<nat>, maxAlive: nat, seen: map<nat, nat>): (i: nat)
    ensures i <= |idle|
    ensures i < |idle| ==> Usable(conns, idle[i], maxAlive, seen)
  {
    if idle == [] || Usable(conns, idle[0], maxAlive, seen) then 0
    else 1 + FirstUsable(conns, idle[1..], maxAlive, seen)
  }

  function Lend(x: Conn): Conn { x.(lent := x.lent + 1) }

  // The part under the lock: what cannot be used any more goes, and the first other one is taken.
  function Borrowed(p: Pool, l: Limits, seen: map<nat, nat>): (Pool, Option<nat>) {
    var i := FirstUsable(p.conns, p.idle, l.maxAlive, seen);
    var p1 := p.(total := p.total - i);
    if i == |p.idle| then (p1.(idle := []), None)
    else
      var c := p.idle[i];
      (p1.(idle := p.idle[i + 1..], out := p.out + {c}, conns := p.conns[c := Lend(p.conns[c])]), Some(c))
  }

  /** Whether a connection given back is kept. */
  predicate Kept(p: Pool, l: Limits, x: Conn, up: bool, now: nat) {
    up && p.total <= l.maxSize && !Expired(x, l.maxAlive, now) && x.requests < l.maxRequest
  }

  function Released(p: Pool, l: Limits, c: nat, up: bool, now: nat): Pool
    requires c in p.conns
  {
    var x := p.conns[c].(requests := p.conns[c].requests + 1);
    var p1 := p.(conns := p.conns[c := x], out := p.out - {c});
    if Kept(p, l, x, up, now) then p1.(keeping := p.keeping + {c}) else p1.(dying := p.dying + {c})
  }

  // A new connection is at an address of its own.
  predicate CanTake(p: Pool, a: Act) {
    match a
    case Borrow(_) => true
    case Make(c, _) => c !in p.conns
    case Count(c) => c in p.making && c in p.conns
    case Release(c, _, _) => c in p.out && c in p.conns
    case Push(c) => c in p.keeping
    case Drop(c) => c in p.dying
  }

  function Take(p: Pool, l: Limits, a: Act): Pool
    requires CanTake(p, a)
  {
    match a
    case Borrow(seen) => Borrowed(p, l, seen).0
    case Make(c, now) => p.(conns := p.conns[c := Conn(now, 0, 0)], making := p.making + {c})
    case Count(c) =>
      p.(conns := p.conns[c := Lend(p.conns[c])], making := p.making - {c}, out := p.out + {c}, total := p.total + 1)
    case Release(c, alive, now) => Released(p, l, c, alive, now)
    case Push(c) => p.(keeping := p.keeping - {c}, idle := p.idle + [c])
    case Drop(c) => p.(dying := p.dying - {c}, total := p.total - 1)
  }

  // --- what is always true -------------------------------------------------------------------------

  predicate Distinct(idle: seq<nat>) { forall i, j :: 0 <= i < j < |idle| ==> idle[i] != idle[j] }

  /** Each connection is in one place only, and was lent no more often than the limit says, or
      once. */
  predicate ConnOk(p: Pool, l: Limits, c: nat) {
    && (c in p.idle ==> c !in p.making && c !in p.out && c !in p.keeping && c !in p.dying)
    && (c in p.making ==> c !in p.out && c !in p.keeping && c !in p.dying)
    && (c in p.out ==> c !in p.keeping && c !in p.dying)
    && (c in p.keeping ==> c !in p.dying)
    && (c in p.idle || c in p.making || c in p.out || c in p.keeping || c in p.dying ==>
          c in p.conns && LentOk(p.conns[c], l, c in p.out))
    && (c in p.idle || c in p.keeping ==> c in p.conns && p.conns[c].requests < l.maxRequest)
    && (c in p.making ==> c in p.conns && p.conns[c].requests == 0)
  }

  predicate LentOk(x: Conn, l: Limits, out: bool) {
    x.lent == x.requests + (if out then 1 else 0) && x.lent <= if l.maxRequest == 0 then 1 else l.maxRequest
  }

  /** The counter counts what is idle or lent, or given back and still on its way; the list, with
      what is on its way there, is within its limit. */
  ghost predicate Inv(p: Pool, l: Limits) {
    && Distinct(p.idle)
    && (forall c :: ConnOk(p, l, c))
    && p.total == |p.idle| + |p.out| + |p.keeping| + |p.dying|
    && |p.idle| + |p.keeping| <= l.maxSize
  }

  lemma BorrowKeeps(p: Pool, l: Limits, seen: map<nat, nat>)
    requires Inv(p, l)
    ensures Inv(Borrowed(p, l, seen).0, l)
  {
    var i := FirstUsable(p.conns, p.idle, l.maxAlive, seen);
    if i < |p.idle| {
      var c, p' := p.idle[i], Borrowed(p, l, seen).0;
      assert c in p.idle && ConnOk(p, l, c);
      assert forall d :: d in p'.idle ==> d in p.idle && d != c;
      forall d ensures ConnOk(p', l, d) { assert ConnOk(p, l, d); }
    } else {
      forall d ensures ConnOk(Borrowed(p, l, seen).0, l, d) { assert ConnOk(p, l, d); }
    }
  }

  lemma OthersKeep(p: Pool, l: Limits, p': Pool, c: nat)
    requires (forall d :: ConnOk(p, l, d)) && ConnOk(p', l, c)
    requires forall d :: d != c ==>
      && (d in p'.conns <==> d in p.conns) && (d in p.conns ==> p'.conns[d] == p.conns[d])
      && (d in p'.idle <==> d in p.idle) && (d in p'.making <==> d in p.making) && (d in p'.out <==> d in p.out)
      && (d in p'.keeping <==> d in p.keeping) && (d in p'.dying <==> d in p.dying)
    ensures forall d :: ConnOk(p', l, d)
  {
    forall d ensures ConnOk(p', l, d) { assert ConnOk(p, l, d); }
  }

  /** In every interleaving of borrowers: nothing is counted twice or lost, the list stays within its
      limit although the counter is read without the lock, and no connection is lent too often. */
  lemma TakeKeeps(p: Pool, l: Limits, a: Act)
    requires Inv(p, l) && CanTake(p, a)
    ensures Inv(Take(p, l, a), l)
  {
    if a.Borrow? {
      BorrowKeeps(p, l, a.seen);
    } else {
      var p' := Take(p, l, a);
      assert ConnOk(p, l, a.c);
      assert ConnOk(p', l, a.c);
      OthersKeep(p, l, p', a.c);
    }
  }

  // --- which connection --------------------------------------------------------------------------------

  lemma {:induction false} FirstUsableIs(conns: map<nat, Conn>, idle: seq<nat>, maxAlive: nat, seen: map<nat, nat>)
    requires forall i :: 0 <= i < |idle| ==> idle[i] in conns
    ensures var k := FirstUsable(conns, idle, maxAlive, seen);
      && (forall i :: 0 <= i < k ==> idle[i] !in seen || conns[idle[i]].created + maxAlive <= seen[idle[i]])
      && (k < |idle| ==> idle[k] in seen && seen[idle[k]] < conns[idle[k]].created + maxAlive)
  {
    if idle != [] && !Usable(conns, idle[0], maxAlive, seen) {
      FirstUsableIs(conns, idle[1..], maxAlive, seen);
    }
  }

  /** The connection handed out is connected and younger than the limit when it is looked at; each one
      before it in the list has gone or is too old, and is dropped and counted off; those after it
      stay.  None is handed out when all have gone or are too old. */
  lemma BorrowPicks(p: Pool, l: Limits, seen: map<nat, nat>)
    requires Inv(p, l)
    ensures forall i :: 0 <= i < |p.idle| ==> p.idle[i] in p.conns
    ensures var (p', picked) := Borrowed(p, l, seen);
      if picked.None? then
        p'.idle == [] && p'.out == p.out && p'.total == p.total - |p.idle| &&
        forall i :: 0 <= i < |p.idle| ==>
          p.idle[i] !in seen || p.conns[p.idle[i]].created + l.maxAlive <= seen[p.idle[i]]
      else
        exists k: nat :: k < |p.idle| && p.idle[k] == picked.value && p'.idle == p.idle[k + 1..]
          && p'.out == p.out + {picked.value} && p'.total == p.total - k
          && picked.value in seen && seen[picked.value] < p.conns[picked.value].created + l.maxAlive
          && forall i :: 0 <= i < k ==>
               p.idle[i] !in seen || p.conns[p.idle[i]].created + l.maxAlive <= seen[p.idle[i]]
  {
    forall i | 0 <= i < |p.idle|
      ensures p.idle[i] in p.conns
    {
      assert p.idle[i] in p.idle && ConnOk(p, l, p.idle[i]);
    }
    FirstUsableIs(p.conns, p.idle, l.maxAlive, seen);
    var k := FirstUsable(p.conns, p.idle, l.maxAlive, seen);
    if k < |p.idle| { assert p.idle[k] == Borrowed(p, l, seen).1.value; }
  }

  /** A connection given back has served one request more.  It is kept exactly if it is connected, the
      counter is within the limit, it is younger than the limit and may serve another request;
      otherwise it is discounted. */
  lemma ReleaseKeepsIff(p: Pool, l: Limits, c: nat, alive: bool, now: nat)
    requires Inv(p, l) && CanTake(p, Release(c, alive, now))
    ensures var p' := Take(p, l, Release(c, alive, now)); var x := p.conns[c];
      && (c in p'.keeping <==>
            alive && p.total <= l.maxSize && now < x.created + l.maxAlive && x.requests + 1 < l.maxRequest)
      && (c in p'.dying <==> c !in p'.keeping) && c !in p'.out
      && p'.conns == p.conns[c := x.(requests := x.requests + 1)]
  {
    assert ConnOk(p, l, c);
  }

  /** A connection is as old as its making, and is lent once it is counted; one that is kept goes to the
      end of the list; one that is not is counted off. */
  lemma OthersAre(p: Pool, l: Limits, a: Act)
    requires Inv(p, l) && CanTake(p, a) && (a.Make? || a.Count? || a.Push? || a.Drop?)
    ensures var p' := Take(p, l, a); var c := a.c;
      && (a.Make? ==> c in p'.conns && p'.conns[c].created == a.now && p'.conns[c].requests == 0
                      && p'.total == p.total && p'.idle == p.idle && p'.out == p.out)
      && (a.Count? ==> c in p'.out && p'.total == p.total + 1 && p'.idle == p.idle
                       && c in p'.conns && c in p.conns && p'.conns[c].created == p.conns[c].created)
      && (a.Push? ==> p'.idle == p.idle + [c] && p'.total == p.total && p'.conns == p.conns && p'.out == p.out)
      && (a.Drop? ==> p'.idle == p.idle && p'.total == p.total - 1 && p'.out == p.out && c !in p'.dying)
  {
  }

  // --- runs ----------------------------------------------------------------------------------------

  datatype Run = Begins | Then(run: Run, act: Act)

  predicate Possible(r: Run, l: Limits)
    decreases r, 0
  {
    r.Begins? || (Possible(r.run, l) && CanTake(End(r.run, l), r.act))
  }

  function End(r: Run, l: Limits): Pool
    requires Possible(r, l)
    decreases r, 1
  {
    match r case Begins => Start() case Then(r', a) => Take(End(r', l), l, a)
  }

  /** After every run of borrowers, however their steps interleave. */
  lemma {:induction false} RunKeeps(r: Run, l: Limits)
    requires Possible(r, l)
    ensures Inv(End(r, l), l)
  {
    if r.Then? {
      RunKeeps(r.run, l);
      TakeKeeps(End(r.run, l), l, r.act);
    }
  }

  /** Once nobody is in the middle of giving back, the counter is what is idle and what is lent; and
      at any time no connection is lent more often than the limit, or once where the limit is 0. */
  lemma Conservation(r: Run, l: Limits, c: nat)
    requires Possible(r, l)
    ensures var p := End(r, l);
      && (p.keeping == p.dying == {} ==> p.total == |p.idle| + |p.out|)
      && |p.idle| <= l.maxSize && p.total >= |p.idle| + |p.out|
      && !(c in p.idle && c in p.out)
      && (c in p.idle || c in p.out ==>
            c in p.conns && p.conns[c].lent <= if l.maxRequest == 0 then 1 else l.maxRequest)
  {
    RunKeeps(r, l);
    assert ConnOk(End(r, l), l, c);
  }

  // --- the alive time ----------------------------------------------------------------------------------

  /** The pool stores the time asked for plus the time it was made, in 32 bits. */
  function AliveTime(asked: nat, made: nat): nat { (asked + made) % 0x1_0000_0000 }

  /** So a connection expires when it was asked to exactly in a pool made at a multiple of 2 to the
      32nd milliseconds. */
  lemma AliveTimeIff(asked: nat, made: nat)
    requires asked < 0x1_0000_0000
    ensures AliveTime(asked, made) == asked <==> made % 0x1_0000_0000 == 0
  {
    var m := made % 0x1_0000_0000;
    assert (asked + made) % 0x1_0000_0000 == (asked + m) % 0x1_0000_0000;
  }
}
