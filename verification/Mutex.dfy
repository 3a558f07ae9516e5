/** One interface to the two locks: `sync_mutex_t`, which is the binary semaphore, and the
    spin lock. What a client may rely on is stated here once for both. */
module Mutex {
  import opened Common
  import BinSem
  import BinSemLock
  import Spinlock
  import Lock

  datatype Impl = Sem(sem: BinSem.State) | Spin(spin: Spinlock.State)

  /** An internal step of a lock or unlock call. */
  datatype Action = OfSem(b: BinSem.Action) | OfSpin(p: Spinlock.Action)

  /** Where a thread is with respect to the lock. */
  datatype Phase = Outside | Acquiring | Holding | Releasing | Refused

  function Threads(l: Impl): set<Tid> {
    match l
    case Sem(s) => s.pc.Keys
    case Spin(s) => s.pc.Keys
  }

  function SemPhase(pc: BinSem.Pc): Phase {
    match pc
    case Out => Outside
    case Refused => Phase.Refused
    case Inside => Holding
    case Posted(_) | Checked(_) | Waking => Releasing
    case _ => Acquiring
  }

  function SpinPhase(pc: Spinlock.Pc): Phase {
    match pc
    case Out => Outside
    case Spinning => Acquiring
    case Inside => Holding
  }

  function PhaseOf(l: Impl, t: Tid): Phase
    requires t in Threads(l)
  {
    match l
    case Sem(s) => SemPhase(s.pc[t])
    case Spin(s) => SpinPhase(s.pc[t])
  }

  ghost predicate Inv(l: Impl) {
    match l
    case Sem(s) => BinSem.Inv(s)
    case Spin(s) => Spinlock.Inv(s)
  }

  /** Too few threads for a refusal */
  ghost predicate Roomy(l: Impl) {
    match l
    case Sem(s) => BinSem.Roomy(s)
    case Spin(s) => true
  }

  ghost function Owner(l: Impl): Option<Tid> {
    match l
    case Sem(s) => BinSemLock.Owner(s)
    case Spin(s) => Spinlock.Owner(s)
  }

  predicate CanCall(l: Impl, t: Tid) {
    t in Threads(l) && PhaseOf(l, t).Outside?
  }

  function Call(l: Impl, t: Tid): (r: Impl)
    requires Inv(l) && CanCall(l, t)
    ensures Threads(r) == Threads(l)
  {
    match l
    case Sem(s) => Sem(BinSem.Apply(s, BinSem.Move(t, BinSem.Call)))
    case Spin(s) => Spin(Spinlock.Apply(s, Spinlock.Move(t, Spinlock.Call)))
  }

  predicate Enabled(l: Impl, t: Tid, a: Action) {
    match (l, a)
    case (Sem(s), OfSem(b)) => !b.Call? && BinSem.Enabled(s, BinSem.Move(t, b))
    case (Spin(s), OfSpin(p)) => !p.Call? && !p.Try? && Spinlock.Enabled(s, Spinlock.Move(t, p))
    case _ => false
  }

  /** Neither a failed exchange of the spin lock nor a spurious one of the semaphore. */
  predicate Useful(l: Impl, t: Tid, a: Action) {
    && Enabled(l, t, a)
    && (a.OfSem? ==> BinSemLock.Progress(l.sem, BinSem.Move(t, a.b)))
    && (a.OfSpin? ==> !a.p.Miss?)
  }

  function Apply(l: Impl, t: Tid, a: Action): (r: Impl)
    requires Inv(l) && Enabled(l, t, a)
    ensures Threads(r) == Threads(l)
  {
    match l
    case Sem(s) => Sem(BinSem.Apply(s, BinSem.Move(t, a.b)))
    case Spin(s) => Spin(Spinlock.Apply(s, Spinlock.Move(t, a.p)))
  }

  function EventOf(l: Impl, t: Tid, a: Action): Lock.Event
    requires Inv(l) && Enabled(l, t, a)
  {
    match l
    case Sem(s) => BinSemLock.EventOf(s, BinSem.Move(t, a.b))
    case Spin(s) => Spinlock.EventOf(s, Spinlock.Move(t, a.p))
  }

  lemma OwnerPhase(l: Impl, t: Tid)
    requires Inv(l) && t in Threads(l)
    ensures PhaseOf(l, t).Holding? ==> Owner(l) == Some(t)
    ensures Owner(l) == Some(t) ==> PhaseOf(l, t).Holding? || PhaseOf(l, t).Acquiring?
    ensures Roomy(l) ==> !PhaseOf(l, t).Refused?
  {
    match l
    case Sem(s) => BinSemLock.OwnerIsHolder(s);
    case Spin(s) => Spinlock.OwnerIsHolder(s);
  }

  lemma CallKeeps(l: Impl, t: Tid)
    requires Inv(l) && CanCall(l, t)
    ensures Inv(Call(l, t)) && Owner(Call(l, t)) == Owner(l) && (Roomy(l) ==> Roomy(Call(l, t)))
    ensures forall u | u in Threads(l) ::
      PhaseOf(Call(l, t), u) == if u == t then Acquiring else PhaseOf(l, u)
  {
    match l
    case Sem(s) =>
      var m := BinSem.Move(t, BinSem.Call);
      BinSem.StepKeepsInv(s, m);
      if BinSem.Roomy(s) { BinSem.StepKeepsRoomy(s, m); }
      BinSemLock.StepRefines(s, m);
    case Spin(s) =>
      var m := Spinlock.Move(t, Spinlock.Call);
      Spinlock.StepKeepsInv(s, m);
      Spinlock.StepRefines(s, m);
  }

  /** Every internal step is a step of the abstract lock or leaves it alone. */
  lemma StepRefines(l: Impl, t: Tid, a: Action)
    requires Inv(l) && Enabled(l, t, a)
    ensures var e := EventOf(l, t, a); var r := Apply(l, t, a);
      Inv(r) && (Roomy(l) ==> Roomy(r)) && Lock.Allowed(Owner(l), e) && Owner(r) == Lock.After(Owner(l), e)
  {
    match l
    case Sem(s) =>
      var m := BinSem.Move(t, a.b);
      BinSem.StepKeepsInv(s, m);
      if BinSem.Roomy(s) { BinSem.StepKeepsRoomy(s, m); }
      BinSemLock.StepRefines(s, m);
    case Spin(s) =>
      var m := Spinlock.Move(t, a.p);
      Spinlock.StepKeepsInv(s, m);
      Spinlock.StepRefines(s, m);
  }

  /** How the phases of the threads move in an internal step of `t`. */
  lemma StepPhases(l: Impl, t: Tid, a: Action)
    requires Inv(l) && Enabled(l, t, a)
    ensures t in Threads(l)
    ensures var e := EventOf(l, t, a); var r := Apply(l, t, a);
      && (forall u | u in Threads(l) && u != t ::
            PhaseOf(r, u) == PhaseOf(l, u) || (PhaseOf(l, u).Acquiring? && PhaseOf(r, u).Holding?))
      && (e.Acquire? ==> e.t in Threads(l) && PhaseOf(l, e.t).Acquiring?)
      && (e.Release? ==> e.t == t)
      && match PhaseOf(l, t)
         case Acquiring => !PhaseOf(r, t).Outside? && !PhaseOf(r, t).Releasing?
         case Holding => e == Lock.Release(t) && !PhaseOf(r, t).Holding? && !PhaseOf(r, t).Acquiring?
         case Releasing => PhaseOf(r, t).Releasing? || PhaseOf(r, t).Outside?
         case _ => false
  {
    match l
    case Sem(s) =>
      BinSem.StepFrame(s, BinSem.Move(t, a.b));
      SemPhases(s, t, a.b, BinSem.Apply(s, BinSem.Move(t, a.b)));
    case Spin(s) =>
  }

  /** The same for a client that only wants the event and who is behind it. */
  lemma StepEvent(l: Impl, t: Tid, a: Action) returns (e: Lock.Event)
    requires Inv(l) && Enabled(l, t, a)
    ensures Lock.Allowed(Owner(l), e) && Owner(Apply(l, t, a)) == Lock.After(Owner(l), e)
    ensures e.Acquire? ==> e.t in Threads(l) && PhaseOf(l, e.t).Acquiring?
    ensures e.Release? ==> e.t == t && t in Threads(l) && PhaseOf(l, t).Holding?
  {
    e := EventOf(l, t, a);
    StepRefines(l, t, a);
    match l
    case Sem(s) =>
      BinSem.StepFrame(s, BinSem.Move(t, a.b));
      SemPhases(s, t, a.b, BinSem.Apply(s, BinSem.Move(t, a.b)));
    case Spin(s) =>
  }

  lemma SemPhases(s: BinSem.State, t: Tid, b: BinSem.Action, r: BinSem.State)
    requires !b.Call? && BinSem.Enabled(s, BinSem.Move(t, b)) && BinSem.Frame(s, BinSem.Move(t, b), r)
    ensures var e := BinSemLock.EventOf(s, BinSem.Move(t, b));
      && (forall u | u in s.pc && u != t ::
            SemPhase(r.pc[u]) == SemPhase(s.pc[u]) || (SemPhase(s.pc[u]).Acquiring? && SemPhase(r.pc[u]).Holding?))
      && (e.Acquire? ==> e.t in s.pc && SemPhase(s.pc[e.t]).Acquiring?)
      && (e.Release? ==> e.t == t && SemPhase(s.pc[t]).Holding?)
      && match SemPhase(s.pc[t])
         case Acquiring => !SemPhase(r.pc[t]).Outside? && !SemPhase(r.pc[t]).Releasing?
         case Holding => e == Lock.Release(t) && SemPhase(r.pc[t]).Releasing?
         case Releasing => SemPhase(r.pc[t]).Releasing? || SemPhase(r.pc[t]).Outside?
         case _ => false
  {
  }

  /** A thread that holds the lock, or can take a useful step towards having or leaving it. */
  ghost predicate CanGo(l: Impl, t: Tid) {
    && t in Threads(l)
    && (PhaseOf(l, t).Holding?
        || ((PhaseOf(l, t).Acquiring? || PhaseOf(l, t).Releasing?) && exists a :: Useful(l, t, a)))
  }

  /** Nobody waits for a lock that nobody holds and nobody is giving away. */
  lemma Progress(l: Impl, t: Tid)
    requires Inv(l) && t in Threads(l) && (PhaseOf(l, t).Acquiring? || PhaseOf(l, t).Releasing?)
    ensures exists u :: CanGo(l, u)
  {
    match l
    case Sem(s) => SemProgress(s, t);
    case Spin(s) =>
      Spinlock.OwnerIsHolder(s);
      if s.word == 0 {
        assert Useful(l, t, OfSpin(Spinlock.Swap));
        assert CanGo(l, t);
      } else {
        assert CanGo(l, Spinlock.Owner(s).value);
      }
  }

  lemma SemProgress(s: BinSem.State, t: Tid)
    requires BinSem.Inv(s) && t in s.pc && (SemPhase(s.pc[t]).Acquiring? || SemPhase(s.pc[t]).Releasing?)
    ensures exists u :: CanGo(Sem(s), u)
  {
    if !s.pc[t].Parked? {
      SemOwnMove(s, t);
      assert CanGo(Sem(s), t);
    } else {
      SomeMember(BinSem.Waiters(s), t);
      var u :| u in BinSem.Holders(s) + BinSem.Signallers(s);
      if !s.pc[u].Inside? { SemOwnMove(s, u); }
      assert CanGo(Sem(s), u);
    }
  }

  lemma SemOwnMove(s: BinSem.State, t: Tid)
    requires t in s.pc && !s.pc[t].Out? && !s.pc[t].Refused? && !s.pc[t].Parked?
    ensures exists a :: Useful(Sem(s), t, a)
  {
    BinSemLock.OwnMove(s, t);
    var m: BinSem.Move :| m.t == t && BinSemLock.Progress(s, m);
    assert m == BinSem.Move(t, m.action);
    assert Useful(Sem(s), t, OfSem(m.action));
  }

  lemma HolderCanRelease(l: Impl, t: Tid)
    requires t in Threads(l) && PhaseOf(l, t).Holding?
    ensures exists a :: Useful(l, t, a)
  {
    match l
    case Sem(s) => assert Useful(l, t, OfSem(BinSem.Post));
    case Spin(s) => assert Useful(l, t, OfSpin(Spinlock.Store));
  }
}
