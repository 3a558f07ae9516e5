/** What happens to the server when the semaphore can refuse a caller. The server ignores the
    result of sync_mutex_lock, so a refused thread goes on as if it had the mutex. */
module ServerCrowd {
  import opened Common
  import opened Server
  import opened ServerOverLock
  import Mutex
  import BinSem

  // Single steps

  lemma StepKeepsWf(c: System, x: Step)
    requires ServerOverLock.Wf(c) && ServerOverLock.Enabled(c, x)
    ensures ServerOverLock.Wf(ServerOverLock.Apply(c, x))
  {
    match x
    case Own(t, a) => if a.Request? || a.Count? { Mutex.CallKeeps(c.lock, t); }
    case Inside(t, a) => Mutex.StepRefines(c.lock, t, a);
    case Return(t) =>
  }

  lemma {:induction false} RunKeepsWf(c0: System, steps: seq<Step>, c: System)
    requires ServerOverLock.Wf(c0) && Run(c0, steps, c)
    ensures ServerOverLock.Wf(c)
    decreases |steps|
  {
    if steps != [] {
      StepKeepsWf(c0, steps[0]);
      RunKeepsWf(ServerOverLock.Apply(c0, steps[0]), steps[1..], c);
    }
  }

  lemma {:induction false} RunThen(c0: System, steps: seq<Step>, c: System, x: Step)
    requires ServerOverLock.Wf(c) && Run(c0, steps, c) && ServerOverLock.Enabled(c, x)
    ensures Run(c0, steps + [x], ServerOverLock.Apply(c, x))
    decreases |steps|
  {
    if steps == [] {
      assert (steps + [x])[1..] == [];
    } else {
      assert (steps + [x])[1..] == steps[1..] + [x];
      RunThen(ServerOverLock.Apply(c0, steps[0]), steps[1..], c, x);
    }
  }

  /** Asking for a step in a state */
  predicate Try(c: System, x: Step) { true }

  /** Systems that lead to none but each other */
  ghost predicate Closed(systems: iset<System>) {
    forall c, x {:trigger Try(c, x)} :: c in systems && Try(c, x) ==>
      ServerOverLock.Wf(c) && (ServerOverLock.Enabled(c, x) ==> ServerOverLock.Apply(c, x) in systems)
  }

  ghost predicate CanReach(c0: System, c: System) { exists steps :: Run(c0, steps, c) }

  ghost function Reachable(c0: System): iset<System> { iset c | CanReach(c0, c) }

  lemma RunsAreClosed(c0: System)
    requires ServerOverLock.Wf(c0)
    ensures Closed(Reachable(c0)) && c0 in Reachable(c0)
  {
    assert Run(c0, [], c0);
    forall c, x | c in Reachable(c0) && Try(c, x)
      ensures ServerOverLock.Wf(c) && (ServerOverLock.Enabled(c, x) ==> ServerOverLock.Apply(c, x) in Reachable(c0))
    {
      var steps :| Run(c0, steps, c);
      RunKeepsWf(c0, steps, c);
      if ServerOverLock.Enabled(c, x) { RunThen(c0, steps, c, x); }
    }
  }

  // One thread over the semaphore

  predicate OnSem(c: System, t: Tid, pc: Pc, inner: BinSem.Pc) {
    c.lock.Sem? && t in c.core.pc && t in c.lock.sem.pc && c.core.pc[t] == pc && c.lock.sem.pc[t] == inner
  }

  /** `t` has gone to `to` in the server and to `inner` in the code of the semaphore. */
  function Put(c: System, t: Tid, to: Pc, inner: BinSem.Pc, value: int): System
    requires c.lock.Sem?
  {
    System(Mutex.Sem(c.lock.sem.(value := value, pc := c.lock.sem.pc[t := inner])),
           c.core.(pc := c.core.pc[t := to]))
  }

  lemma Asks(all: iset<System>, c: System, t: Tid, side: Side)
    requires Closed(all) && c in all && OnSem(c, t, Receiving, BinSem.Out)
    ensures Put(c, t, Locking(side), BinSem.Loading, c.lock.sem.value) in all
  {
    assert Try(c, Own(t, Request(side)));
  }

  /** The counter after a step of wait, and the place in it */
  function Next(b: BinSem.Action, inner: BinSem.Pc, value: int): (BinSem.Pc, int) {
    match (b, inner)
    case (Load, _) => (if value == INT_MIN then BinSem.Refused else BinSem.Swapping(value), value)
    case (Swap, Swapping(seen)) => (BinSem.Took(seen), value - 1)
    case (Decide, Took(from)) => (if from <= 0 then BinSem.Sleepy else BinSem.Inside, value)
    case _ => (inner, value)
  }

  lemma Waits(all: iset<System>, c: System, t: Tid, side: Side, inner: BinSem.Pc, value: int, b: BinSem.Action)
    requires Closed(all) && c.lock.Sem? && t in c.core.pc && Put(c, t, Locking(side), inner, value) in all
    requires (b.Load? && inner.Loading?) || (b.Swap? && inner == BinSem.Swapping(value)) || (b.Decide? && inner.Took?)
    ensures var (inner', value') := Next(b, inner, value); Put(c, t, Locking(side), inner', value') in all
  {
    var q, x := Put(c, t, Locking(side), inner, value), ServerOverLock.Inside(t, Mutex.OfSem(b));
    assert Try(q, x);
    var (inner', value') := Next(b, inner, value);
    assert q.lock.sem.pc[t := inner'] == c.lock.sem.pc[t := inner'];
    assert ServerOverLock.Apply(q, x) == Put(c, t, Locking(side), inner', value');
  }

  lemma Returns(all: iset<System>, c: System, t: Tid, side: Side, inner: BinSem.Pc, value: int)
    requires Closed(all) && c.lock.Sem? && t in c.core.pc && Put(c, t, Locking(side), inner, value) in all
    requires inner.Inside? || inner.Refused?
    ensures Put(c, t, Testing(side), inner, value) in all
  {
    var q := Put(c, t, Locking(side), inner, value);
    assert Try(q, Return(t));
    assert q.core.pc[t := Testing(side)] == c.core.pc[t := Testing(side)];
  }

  /** A step between lock and unlock that moves only its thread */
  lemma Goes(all: iset<System>, c: System, t: Tid, from: Pc, to: Pc, inner: BinSem.Pc, value: int, a: Action)
    requires Closed(all) && c.lock.Sem? && t in c.core.pc && Put(c, t, from, inner, value) in all
    requires (a.Test? && from.Testing? && to == Asserting(from.side) && !MustWait(c.core, from.side))
          || (a.Load? && from.Asserting? && to == Storing(from.side, c.core.buffer))
    ensures Put(c, t, to, inner, value) in all
  {
    var q := Put(c, t, from, inner, value);
    assert Try(q, Own(t, a));
    assert q.core.pc[t := to] == c.core.pc[t := to];
  }

  lemma Stores(all: iset<System>, c: System, t: Tid, side: Side, seen: int)
    requires Closed(all) && c in all && t in c.core.pc && c.core.pc[t] == Storing(side, seen)
    ensures c.(core := Stored(c.core.(pc := c.core.pc[t := Signalling(side)]), side, seen)) in all
  {
    assert Try(c, Own(t, Store));
  }

  // The run

  /** A thread decrements the semaphore. */
  lemma Joins(all: iset<System>, c: System, t: Tid, side: Side)
    requires Closed(all) && c in all && OnSem(c, t, Receiving, BinSem.Out) && c.lock.sem.value > INT_MIN
    ensures var v := c.lock.sem.value; Put(c, t, Locking(side), BinSem.Took(v), v - 1) in all
  {
    var v := c.lock.sem.value;
    Asks(all, c, t, side);
    Waits(all, c, t, side, BinSem.Loading, v, BinSem.Load);
    Waits(all, c, t, side, BinSem.Swapping(v), v, BinSem.Swap);
  }

  /** A thread back from sync_mutex_lock, with the mutex or without it, loads the counter. */
  lemma Loads(all: iset<System>, c: System, t: Tid, side: Side, inner: BinSem.Pc, value: int)
    requires Closed(all) && c.lock.Sem? && t in c.core.pc && Put(c, t, Locking(side), inner, value) in all
    requires (inner.Inside? || inner.Refused?) && !MustWait(c.core, side)
    ensures Put(c, t, Storing(side, c.core.buffer), inner, value) in all
  {
    Returns(all, c, t, side, inner, value);
    Goes(all, c, t, Testing(side), Asserting(side), inner, value, Test);
    Goes(all, c, t, Asserting(side), Storing(side, c.core.buffer), inner, value, Load);
  }

  /** The first caller gets the mutex. */
  lemma Enters(all: iset<System>, c: System, t: Tid, side: Side)
    requires Closed(all) && c in all && OnSem(c, t, Receiving, BinSem.Out)
    requires c.lock.sem.value == 1 && !MustWait(c.core, side)
    ensures Put(c, t, Storing(side, c.core.buffer), BinSem.Inside, 0) in all
  {
    Joins(all, c, t, side);
    Waits(all, c, t, side, BinSem.Took(1), 0, BinSem.Decide);
    Loads(all, c, t, side, BinSem.Inside, 0);
  }

  /** The last caller is refused. */
  lemma Slips(all: iset<System>, c: System, t: Tid, side: Side)
    requires Closed(all) && c in all && OnSem(c, t, Receiving, BinSem.Out)
    requires c.lock.sem.value == INT_MIN && !MustWait(c.core, side)
    ensures Put(c, t, Storing(side, c.core.buffer), BinSem.Refused, INT_MIN) in all
  {
    Asks(all, c, t, side);
    Waits(all, c, t, side, BinSem.Loading, INT_MIN, BinSem.Load);
    Loads(all, c, t, side, BinSem.Refused, INT_MIN);
  }

  /** Only the group has moved, and nothing but their places has changed in the server. */
  ghost predicate Piled(c: System, group: set<Tid>, r: System) {
    && c.lock.Sem? && r.lock.Sem? && r.core == c.core.(pc := r.core.pc)
    && r.core.pc.Keys == c.core.pc.Keys && r.lock.sem.pc.Keys == c.lock.sem.pc.Keys
    && (forall t | t in c.core.pc && t !in group :: r.core.pc[t] == c.core.pc[t])
    && (forall t | t in c.lock.sem.pc && t !in group :: r.lock.sem.pc[t] == c.lock.sem.pc[t])
    && r.lock.sem.value == c.lock.sem.value - |group|
  }

  /** Everybody in the group decrements. */
  lemma {:induction false} PilesUp(all: iset<System>, c: System, group: set<Tid>, side: Side) returns (r: System)
    requires Closed(all) && c in all && c.lock.Sem?
    requires forall t | t in group :: OnSem(c, t, Receiving, BinSem.Out)
    requires c.lock.sem.value - |group| >= INT_MIN
    ensures r in all && Piled(c, group, r)
    decreases group
  {
    if group == {} {
      r := c;
    } else {
      var t, v := Pick(group), c.lock.sem.value;
      var q := Put(c, t, Locking(side), BinSem.Took(v), v - 1);
      Joins(all, c, t, side);
      r := PilesUp(all, q, group - {t}, side);
    }
  }

  /** Two threads that have loaded the same counter store. */
  lemma BothStore(all: iset<System>, c: System, a: Tid, d: Tid, side: Side) returns (r: System)
    requires Closed(all) && c in all && a != d && a in c.core.pc && d in c.core.pc
    requires c.core.pc[a] == c.core.pc[d] == Storing(side, c.core.buffer)
    ensures r in all && r.core.buffer == c.core.buffer + (if side.Producer? then 1 else -1)
    ensures r.core.produced - r.core.consumed == c.core.produced - c.core.consumed + (if side.Producer? then 2 else -2)
  {
    var seen := c.core.buffer;
    Stores(all, c, d, side, seen);
    var q := c.(core := Stored(c.core.(pc := c.core.pc[d := Signalling(side)]), side, seen));
    Stores(all, q, a, side, seen);
    r := q.(core := Stored(q.core.(pc := q.core.pc[a := Signalling(side)]), side, seen));
  }

  /** With enough threads one change of the counter overwrites another. */
  lemma LosesAChange(c: System, limit: int, start: int) returns (r: System)
    requires Initial(c, limit, start) && !Few(c) && 1 <= limit && 0 <= start <= limit
    ensures r in Reachable(c) && !Safe(r.core, limit, start)
  {
    var all, threads := Reachable(c), c.core.pc.Keys;
    InitialWf(c, limit, start);
    RunsAreClosed(c);
    var a := Pick(threads);
    assert |threads - {a}| == |threads| - 1;
    var group := SubsetOfSize(threads - {a}, BinSem.CROWD - 2);
    var d := OneMore(threads - {a}, group);
    r := LosesFrom(all, c, limit, start, a, group, d);
  }

  lemma LosesFrom(all: iset<System>, c: System, limit: int, start: int, a: Tid, group: set<Tid>, d: Tid)
    returns (r: System)
    requires Closed(all) && c in all && c.lock.Sem? && c.lock.sem.value == 1
    requires c.core == Server.Init(c.core.pc.Keys, limit, start) && 1 <= limit && 0 <= start <= limit
    requires forall t | t in group + {a, d} :: OnSem(c, t, Receiving, BinSem.Out)
    requires |group| == BinSem.CROWD - 2 && a != d && a !in group && d !in group
    ensures r in all && !Safe(r.core, limit, start)
  {
    var side := if start < limit then Producer else Consumer;
    Enters(all, c, a, side);
    var c1 := Put(c, a, Storing(side, start), BinSem.Inside, 0);
    var c2 := PilesUp(all, c1, group, side);
    Slips(all, c2, d, side);
    r := BothStore(all, Put(c2, d, Storing(side, start), BinSem.Refused, INT_MIN), a, d, side);
  }

  lemma InitialWf(c: System, limit: int, start: int)
    requires Initial(c, limit, start) && c.lock.Sem?
    ensures ServerOverLock.Wf(c) && c.lock.sem.value == 1
    ensures forall t | t in c.core.pc :: OnSem(c, t, Receiving, BinSem.Out)
  {
    BinSem.InitInv(c.core.pc.Keys);
  }

  lemma OneMore(s: set<Tid>, group: set<Tid>) returns (d: Tid)
    requires group <= s && |group| < |s|
    ensures d in s && d !in group
  {
    if s - group == {} {
      assert s <= group by { assert forall t | t in s :: t !in s - group; }
      FewerMembers(s, group);
    }
    d := Pick(s - group);
  }

  ghost predicate AlwaysSafe(c: System, limit: int, start: int) {
    forall r | CanReach(c, r) :: Safe(r.core, limit, start)
  }

  /** The server is safe in every run exactly over a spin lock, or over a semaphore with fewer
      than 2^31 + 2 threads. */
  lemma SafeIffFew(c: System, limit: int, start: int)
    requires Initial(c, limit, start) && 1 <= limit && 0 <= start <= limit
    ensures AlwaysSafe(c, limit, start) <==> Few(c)
  {
    if Few(c) {
      forall r | CanReach(c, r) ensures Safe(r.core, limit, start) { SafeWhenFew(c, limit, start, r); }
    } else {
      var r := LosesAChange(c, limit, start);
      assert CanReach(c, r);
    }
  }

  lemma SafeWhenFew(c: System, limit: int, start: int, r: System)
    requires Initial(c, limit, start) && Few(c) && 1 <= limit && 0 <= start <= limit && CanReach(c, r)
    ensures Safe(r.core, limit, start)
  {
    var steps :| Run(c, steps, r);
    SafeOverEitherLock(c, limit, start, steps, r);
  }
}
