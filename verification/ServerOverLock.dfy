/** The bounded-buffer server over the real locks. Every lock and unlock call is carried
    out step by step on the semaphore or the spin lock, interleaved with everything the
    other threads do; the result of a lock call is ignored, as the server ignores it. */
module ServerOverLock {
  import opened Common
  import opened Notification
  import opened Server
  import Mutex
  import Lock

  /** `core.owner` is not used: who owns the mutex is a matter of `lock` alone. */
  datatype System = System(lock: Mutex.Impl, core: State)

  datatype Step =
    | Own(t: Tid, action: Action)            // a step outside the lock code
    | Inside(t: Tid, inner: Mutex.Action)    // a step of a lock or unlock call
    | Return(t: Tid)                         // a lock or unlock call returns

  ghost predicate Wf(c: System) {
    Server.Wf(c.core) && Mutex.Inv(c.lock) && Mutex.Threads(c.lock) == c.core.pc.Keys
  }

  predicate Unlocks(pc: Pc) {
    pc.Leaving? || pc.Unlocking?
  }

  ghost predicate Enabled(c: System, x: Step)
    requires Wf(c)
  {
    x.t in c.core.pc &&
    var pc, phase := c.core.pc[x.t], Mutex.PhaseOf(c.lock, x.t);
    match x
    case Own(t, a) =>
      && !a.Acquire? && !a.Release? && Server.Enabled(c.core, Move(t, a))
      && (a.Request? || a.Count? ==> Mutex.CanCall(c.lock, t))
    case Inside(t, a) =>
      && Mutex.Enabled(c.lock, t, a)
      && ((pc.Locking? && phase.Acquiring?) || (Unlocks(pc) && (phase.Holding? || phase.Releasing?)))
    case Return(t) =>
      (pc.Locking? && (phase.Holding? || phase.Refused?)) || (Unlocks(pc) && phase.Outside?)
  }

  /** The place a call returns to. */
  function Back(pc: Pc): Pc
    requires pc.Locking? || Unlocks(pc)
  {
    match pc
    case Locking(side) => Testing(side)
    case Leaving(side) => Parking(side)
    case Unlocking(side) => Replying(side)
  }

  ghost function Apply(c: System, x: Step): System
    requires Wf(c) && Enabled(c, x)
  {
    match x
    case Own(t, a) =>
      var l := if a.Request? || a.Count? then Mutex.Call(c.lock, t) else c.lock;
      System(l, Server.Apply(c.core, Move(t, a)))
    case Inside(t, a) => c.(lock := Mutex.Apply(c.lock, t, a))
    case Return(t) => c.(core := Go(c.core, t, Back(c.core.pc[t])))
  }

  // Refinement of the server over the abstract lock

  /** A thread that owns the lock has acquired it, returned or not; one that does not own it
      any more has released it, returned or not. */
  function AbsPc(pc: Pc, owns: bool): Pc {
    match pc
    case Locking(side) => if owns then Testing(side) else pc
    case Leaving(side) => if owns then pc else Parking(side)
    case Unlocking(side) => if owns then pc else Replying(side)
    case _ => pc
  }

  ghost function AbsPcs(pc: map<Tid, Pc>, owner: Option<Tid>): map<Tid, Pc> {
    map t | t in pc :: AbsPc(pc[t], owner == Some(t))
  }

  ghost function AbsOf(s: State, owner: Option<Tid>): State {
    s.(owner := owner, pc := AbsPcs(s.pc, owner))
  }

  ghost function Abs(c: System): State {
    AbsOf(c.core, Mutex.Owner(c.lock))
  }

  predicate Fits(pc: Pc, phase: Mutex.Phase) {
    if pc.Locking? then phase.Acquiring? || phase.Holding?
    else if Unlocks(pc) then phase.Holding? || phase.Releasing? || phase.Outside?
    else if Critical(pc) then phase.Holding?
    else phase.Outside?
  }

  /** Each thread is in the phase of the lock that its place in the server calls for, and no
      call of the lock can fail. */
  ghost predicate Coupled(c: System) {
    Wf(c) && Mutex.Roomy(c.lock) && forall t | t in c.core.pc :: Fits(c.core.pc[t], Mutex.PhaseOf(c.lock, t))
  }

  lemma AbsWf(s: State, owner: Option<Tid>)
    requires Server.Wf(s)
    ensures Server.Wf(AbsOf(s, owner))
  {
    assert forall t, side | t in s.pc :: AbsPcs(s.pc, owner)[t] == Blocked(side) <==> s.pc[t] == Blocked(side);
  }

  lemma InsideKeepsCoupled(c: System, x: Step)
    requires Coupled(c) && Enabled(c, x) && x.Inside?
    ensures Coupled(Apply(c, x))
  {
    Mutex.StepRefines(c.lock, x.t, x.inner);
    Mutex.StepPhases(c.lock, x.t, x.inner);
    var r := Apply(c, x);
    forall t | t in r.core.pc
      ensures Fits(r.core.pc[t], Mutex.PhaseOf(r.lock, t))
    {
      Mutex.OwnerPhase(r.lock, t);
    }
  }

  lemma ReturnKeepsCoupled(c: System, x: Step)
    requires Coupled(c) && Enabled(c, x) && x.Return?
    ensures Coupled(Apply(c, x))
  {
    assert Fits(c.core.pc[x.t], Mutex.PhaseOf(c.lock, x.t));
  }

  lemma OwnKeepsCoupled(c: System, x: Step)
    requires Coupled(c) && Enabled(c, x) && x.Own?
    ensures Coupled(Apply(c, x))
  {
    var m := Move(x.t, x.action);
    StepFrame(c.core, m);
    if x.action.Request? || x.action.Count? { Mutex.CallKeeps(c.lock, x.t); }
    var r := Apply(c, x);
    forall t | t in r.core.pc
      ensures Fits(r.core.pc[t], Mutex.PhaseOf(r.lock, t))
    {
      OwnFits(c.core, m, r.core, t, Mutex.PhaseOf(c.lock, t));
    }
  }

  lemma OwnFits(s: State, m: Move, r: State, t: Tid, phase: Mutex.Phase)
    requires Server.Enabled(s, m) && Frame(s, m, r) && !m.action.Acquire? && !m.action.Release?
    requires t in s.pc && Fits(s.pc[t], phase)
    ensures Fits(r.pc[t], if t == m.t && (m.action.Request? || m.action.Count?) then Mutex.Acquiring else phase)
  {
  }

  lemma AbsUpdate(pc: map<Tid, Pc>, t: Tid, to: Pc, owner: Option<Tid>)
    requires t in pc
    ensures AbsPcs(pc[t := to], owner) == AbsPcs(pc, owner)[t := AbsPc(to, owner == Some(t))]
  {
  }

  /** Outside the lock code the abstraction does not get in the way. */
  lemma OwnCommutes(s: State, owner: Option<Tid>, m: Move)
    requires Server.Wf(s) && Server.Wf(AbsOf(s, owner))
    requires Server.Enabled(s, m) && !m.action.Acquire? && !m.action.Release?
    requires AbsPc(To(s, m), owner == Some(m.t)) == To(s, m)
    ensures Server.Enabled(AbsOf(s, owner), m)
    ensures Server.Apply(AbsOf(s, owner), m) == AbsOf(Server.Apply(s, m), owner)
  {
    assert AbsPcs(s.pc, owner)[m.t] == s.pc[m.t];
    SameRest(s, AbsOf(s, owner), m);
    AbsUpdate(s.pc, m.t, To(s, m), owner);
    if m.action.Notify? {
      NotifyCommutes(s, AbsOf(s, owner), owner, m);
    } else {
      PlaceOnly(s, m);
      PlaceOnly(AbsOf(s, owner), m);
    }
  }

  /** A step that wakes nobody changes one place. */
  lemma PlaceOnly(s: State, m: Move)
    requires Server.Wf(s) && Server.Enabled(s, m) && !m.action.Notify?
    ensures Server.Apply(s, m).pc == s.pc[m.t := To(s, m)]
  {
  }

  /** What a step does to the rest of the state depends on the place of one thread only. */
  lemma SameRest(s: State, a: State, m: Move)
    requires Server.Wf(s) && Server.Wf(a) && m.t in a.pc && m.t in s.pc && a.pc[m.t] == s.pc[m.t]
    requires a == s.(owner := a.owner, pc := a.pc)
    requires Server.Enabled(s, m) && !m.action.Acquire? && !m.action.Release?
    ensures Server.Enabled(a, m) && To(a, m) == To(s, m)
    ensures var r := Server.Apply(a, m); r == Server.Apply(s, m).(owner := a.owner, pc := r.pc)
  {
  }

  /** A step that wakes somebody changes two. */
  function Places(pc: map<Tid, Pc>, t: Tid, to: Pc, woken: Option<Tid>, other: Side): map<Tid, Pc> {
    if woken.Some? then pc[t := to][woken.value := Woken(other)] else pc[t := to]
  }

  lemma NotifyPlaces(s: State, m: Move)
    requires Server.Wf(s) && Server.Enabled(s, m) && m.action.Notify?
    ensures var other := Other(s.pc[m.t].side); var woken := Signal(List(s, other)).1;
      && Server.Apply(s, m).pc == Places(s.pc, m.t, To(s, m), woken, other)
      && (woken.Some? ==> woken.value in s.pc)
  {
  }

  lemma AbsPlaces(pc: map<Tid, Pc>, t: Tid, to: Pc, woken: Option<Tid>, other: Side, owner: Option<Tid>)
    requires t in pc && (woken.Some? ==> woken.value in pc) && AbsPc(to, owner == Some(t)) == to
    ensures AbsPcs(Places(pc, t, to, woken, other), owner) == Places(AbsPcs(pc, owner), t, to, woken, other)
  {
    AbsUpdate(pc, t, to, owner);
    if woken.Some? { AbsUpdate(pc[t := to], woken.value, Woken(other), owner); }
  }

  lemma NotifyCommutes(s: State, a: State, owner: Option<Tid>, m: Move)
    requires Server.Wf(s) && Server.Wf(a) && m.t in s.pc && m.t in a.pc && a.pc[m.t] == s.pc[m.t]
    requires a.pc == AbsPcs(s.pc, owner) && a.producers == s.producers && a.consumers == s.consumers
    requires m.action.Notify? && Server.Enabled(s, m)
    requires AbsPc(To(s, m), owner == Some(m.t)) == To(s, m)
    ensures Server.Apply(a, m).pc == AbsPcs(Server.Apply(s, m).pc, owner)
  {
    var other := Other(s.pc[m.t].side);
    NotifyPlaces(s, m);
    NotifyPlaces(a, m);
    AbsPlaces(s.pc, m.t, To(s, m), Signal(List(s, other)).1, other, owner);
  }

  /** A step of the server over the abstract lock that does what a step of the whole system
      does, and changes the counter only if that does. */
  ghost predicate Matched(c: System, x: Step, m: Move)
    requires Wf(c) && Server.Wf(Abs(c)) && Enabled(c, x)
  {
    && Server.Enabled(Abs(c), m) && Abs(Apply(c, x)) == Server.Apply(Abs(c), m)
    && (m.action.Store? ==> x == Own(m.t, m.action))
  }

  /** Every step of the whole system is a step of the server over the abstract lock, or
      leaves it where it was. */
  lemma StepRefines(c: System, x: Step)
    requires Coupled(c) && Enabled(c, x)
    ensures Coupled(Apply(c, x)) && Server.Wf(Abs(c))
    ensures Abs(Apply(c, x)) == Abs(c) || exists m :: Matched(c, x, m)
  {
    AbsWf(c.core, Mutex.Owner(c.lock));
    match x
    case Own(t, a) =>
      OwnKeepsCoupled(c, x);
      OwnRefines(c, x);
      assert Matched(c, x, Move(t, a));
    case Inside(_, _) => InsideKeepsCoupled(c, x); InsideRefines(c, x);
    case Return(_) => ReturnKeepsCoupled(c, x); ReturnRefines(c, x);
  }

  lemma OwnRefines(c: System, x: Step)
    requires Coupled(c) && Server.Wf(Abs(c)) && Enabled(c, x) && x.Own?
    ensures var m := Move(x.t, x.action);
      Server.Enabled(Abs(c), m) && Abs(Apply(c, x)) == Server.Apply(Abs(c), m)
  {
    assert Fits(c.core.pc[x.t], Mutex.PhaseOf(c.lock, x.t));
    Mutex.OwnerPhase(c.lock, x.t);
    if x.action.Request? || x.action.Count? { Mutex.CallKeeps(c.lock, x.t); }
    OwnCommutes(c.core, Mutex.Owner(c.lock), Move(x.t, x.action));
  }

  lemma ReturnRefines(c: System, x: Step)
    requires Coupled(c) && Enabled(c, x) && x.Return?
    ensures Abs(Apply(c, x)) == Abs(c)
  {
    assert Fits(c.core.pc[x.t], Mutex.PhaseOf(c.lock, x.t));
    Mutex.OwnerPhase(c.lock, x.t);
    BackIsAbstract(c.core.pc, x.t, Mutex.Owner(c.lock));
  }

  lemma BackIsAbstract(pc: map<Tid, Pc>, t: Tid, owner: Option<Tid>)
    requires t in pc && (pc[t].Locking? || Unlocks(pc[t]))
    requires pc[t].Locking? <==> owner == Some(t)
    ensures AbsPcs(pc[t := Back(pc[t])], owner) == AbsPcs(pc, owner)
  {
  }

  lemma InsideRefines(c: System, x: Step)
    requires Coupled(c) && Server.Wf(Abs(c)) && Enabled(c, x) && x.Inside?
    ensures Abs(Apply(c, x)) == Abs(c) || exists m :: Matched(c, x, m)
  {
    var e := InsideEvent(c, x);
    match e
    case Nothing =>
    case Acquire(u) =>
      AcquireCommutes(c.core, u);
      assert Matched(c, x, Move(u, Acquire));
    case Release(u) =>
      ReleaseCommutes(c.core, u);
      assert Matched(c, x, Move(u, Release));
  }

  /** A step inside the lock code is an event of the abstract lock by a thread whose place
      in the server allows it. */
  lemma InsideEvent(c: System, x: Step) returns (e: Lock.Event)
    requires Coupled(c) && Enabled(c, x) && x.Inside?
    ensures Lock.Allowed(Mutex.Owner(c.lock), e)
    ensures Apply(c, x).core == c.core
    ensures Mutex.Owner(Apply(c, x).lock) == Lock.After(Mutex.Owner(c.lock), e)
    ensures e.Acquire? ==> e.t in c.core.pc && c.core.pc[e.t].Locking?
    ensures e.Release? ==> e.t in c.core.pc && Unlocks(c.core.pc[e.t])
  {
    e := Mutex.StepEvent(c.lock, x.t, x.inner);
    if e.Acquire? { FitsAcquiring(c.core.pc[e.t], Mutex.PhaseOf(c.lock, e.t)); }
    if e.Release? { FitsReleasing(c, x); }
  }

  lemma FitsAcquiring(pc: Pc, phase: Mutex.Phase)
    requires Fits(pc, phase) && phase.Acquiring?
    ensures pc.Locking?
  {
  }

  lemma FitsReleasing(c: System, x: Step)
    requires Coupled(c) && Enabled(c, x) && x.Inside? && !Mutex.PhaseOf(c.lock, x.t).Acquiring?
    ensures Unlocks(c.core.pc[x.t])
  {
  }

  lemma AcquireCommutes(s: State, u: Tid)
    requires u in s.pc && s.pc[u].Locking? && Server.Wf(AbsOf(s, None))
    ensures var m := Move(u, Acquire);
      Server.Enabled(AbsOf(s, None), m) && AbsOf(s, Some(u)) == Server.Apply(AbsOf(s, None), m)
  {
    assert AbsPcs(s.pc, Some(u)) == AbsPcs(s.pc, None)[u := Testing(s.pc[u].side)];
  }

  lemma ReleaseCommutes(s: State, u: Tid)
    requires u in s.pc && Unlocks(s.pc[u]) && Server.Wf(AbsOf(s, Some(u)))
    ensures var m := Move(u, Release);
      Server.Enabled(AbsOf(s, Some(u)), m) && AbsOf(s, None) == Server.Apply(AbsOf(s, Some(u)), m)
  {
    assert AbsPcs(s.pc, Some(u))[u] == s.pc[u];
    assert AbsPcs(s.pc, None) == AbsPcs(s.pc, Some(u))[u := Back(s.pc[u])];
  }

  // Whole runs

  /** A run of the whole system. That `Wf` holds all along is part of `RunRefines`. */
  ghost predicate Run(c: System, steps: seq<Step>, r: System)
    decreases |steps|
  {
    if steps == [] then c == r
    else Wf(c) && Enabled(c, steps[0]) && Run(Apply(c, steps[0]), steps[1..], r)
  }

  ghost predicate Fresh(l: Mutex.Impl, threads: set<Tid>) {
    match l
    case Sem(s) => s == Mutex.BinSem.Init(threads)
    case Spin(s) => s == Mutex.Spinlock.Init(threads)
  }

  /** A spin lock, or a semaphore with too few threads to refuse any */
  predicate Few(c: System) {
    c.lock.Sem? ==> |c.core.pc.Keys| < Mutex.BinSem.CROWD
  }

  ghost predicate Initial(c: System, limit: int, start: int) {
    var threads := c.core.pc.Keys;
    Fresh(c.lock, threads) && c.core == Server.Init(threads, limit, start)
  }

  lemma InitialInv(c: System, limit: int, start: int)
    requires Initial(c, limit, start) && Few(c) && 1 <= limit && 0 <= start <= limit
    ensures Coupled(c) && Server.Inv(Abs(c))
  {
    var threads := c.core.pc.Keys;
    Server.InitInv(threads, limit, start);
    match c.lock {
      case Sem(s) =>
        Mutex.BinSem.InitInv(threads);
        assert |s.pc| == |s.pc.Keys| && s.pc.Keys == threads;
        assert Mutex.BinSem.Holders(s) == {};
      case Spin(s) =>
        Mutex.Spinlock.InitInv(threads);
    }
    assert Abs(c) == c.core;
  }

  /** Every run over a real lock is, seen through `Abs`, a run over the abstract lock. */
  lemma {:induction false} RunRefines(c: System, steps: seq<Step>, r: System) returns (moves: seq<Move>)
    requires Coupled(c) && Run(c, steps, r)
    ensures Coupled(r) && Server.Wf(Abs(c)) && Server.Exec(Abs(c), moves) == Some(Abs(r))
    decreases |steps|
  {
    AbsWf(c.core, Mutex.Owner(c.lock));
    if steps == [] {
      moves := [];
    } else {
      var next := Apply(c, steps[0]);
      StepRefines(c, steps[0]);
      var rest := RunRefines(next, steps[1..], r);
      if Abs(next) == Abs(c) {
        moves := rest;
      } else {
        var m :| Matched(c, steps[0], m);
        assert Matched(c, steps[0], m);
        moves := [m] + rest;
        assert moves[1..] == rest;
      }
    }
  }

  lemma ReachedInv(c: System, limit: int, start: int, steps: seq<Step>, r: System)
    requires Initial(c, limit, start) && Few(c) && 1 <= limit && 0 <= start <= limit && Run(c, steps, r)
    ensures Coupled(r) && Server.Inv(Abs(r)) && Abs(r).limit == limit && Abs(r).start == start
  {
    InitialInv(c, limit, start);
    var moves := RunRefines(c, steps, r);
    Server.RunKeepsInv(Abs(c), moves);
    SameParameters(Abs(c), moves);
  }

  /** The counter is within its bounds and equals its start plus the puts less the takes, and
      both asserts hold where they are reached. */
  ghost predicate Safe(s: State, limit: int, start: int) {
    && 0 <= s.buffer <= limit && s.buffer == start + s.produced - s.consumed
    && (forall t | t in s.pc && s.pc[t] == Asserting(Producer) :: s.buffer < limit)
    && (forall t | t in s.pc && s.pc[t] == Asserting(Consumer) :: s.buffer > 0)
  }

  function Requests(steps: seq<Step>, side: Side): nat
    decreases |steps|
  {
    if steps == [] then 0
    else One(steps[0].Own? && steps[0].action == Request(side)) + Requests(steps[1..], side)
  }

  lemma StepCounts(c: System, x: Step, side: Side)
    requires Wf(c) && Enabled(c, x)
    ensures var r := Apply(c, x);
      Done(r.core, side) + |PendingOn(r.core.pc, side)|
      == Done(c.core, side) + |PendingOn(c.core.pc, side)| + One(x.Own? && x.action == Request(side))
  {
    match x
    case Own(t, a) =>
      StepFrame(c.core, Move(t, a));
      Server.StepCounts(c.core, Move(t, a), Server.Apply(c.core, Move(t, a)), side);
    case Inside(_, _) =>
    case Return(t) => SamePending(c.core.pc, t, side);
  }

  lemma SamePending(pc: map<Tid, Pc>, t: Tid, side: Side)
    requires t in pc && (pc[t].Locking? || Unlocks(pc[t]))
    ensures PendingOn(pc[t := Back(pc[t])], side) == PendingOn(pc, side)
  {
  }

  /** Over any lock, however the calls of it end: every request counts once, on its own side. */
  lemma {:induction false} EveryRequestCounts(c: System, steps: seq<Step>, r: System, side: Side)
    requires Run(c, steps, r)
    ensures Done(r.core, side) + |PendingOn(r.core.pc, side)|
         == Done(c.core, side) + |PendingOn(c.core.pc, side)| + Requests(steps, side)
    decreases |steps|
  {
    if steps != [] {
      StepCounts(c, steps[0], side);
      EveryRequestCounts(Apply(c, steps[0]), steps[1..], r, side);
    }
  }

  ghost predicate AllCounted(s: State, steps: seq<Step>) {
    forall side :: Done(s, side) + |PendingOn(s.pc, side)| == Requests(steps, side)
  }

  ghost predicate OneAtATime(l: Mutex.Impl) {
    forall t, u | t in Mutex.Threads(l) && u in Mutex.Threads(l)
      && Mutex.PhaseOf(l, t).Holding? && Mutex.PhaseOf(l, u).Holding? :: t == u
  }

  /** From the start, every request that arrived has made its change or is still pending. */
  lemma RequestsCounted(c: System, steps: seq<Step>, r: System)
    requires Run(c, steps, r) && c.core.produced == c.core.consumed == 0
    requires forall t | t in c.core.pc :: c.core.pc[t].Receiving?
    ensures AllCounted(r.core, steps)
  {
    forall side ensures Done(r.core, side) + |PendingOn(r.core.pc, side)| == Requests(steps, side) {
      EveryRequestCounts(c, steps, r, side);
      assert PendingOn(c.core.pc, side) == {};
    }
  }

  /** Over either lock, in every run: the server is safe, each request counts once on its own
      side, and two threads never hold the mutex at once. */
  lemma SafeOverEitherLock(c: System, limit: int, start: int, steps: seq<Step>, r: System)
    requires Initial(c, limit, start) && Few(c) && 1 <= limit && 0 <= start <= limit && Run(c, steps, r)
    ensures Safe(r.core, limit, start) && AllCounted(r.core, steps)
    ensures Mutex.Threads(r.lock) == r.core.pc.Keys && OneAtATime(r.lock)
  {
    assert AllCounted(r.core, steps) by { RequestsCounted(c, steps, r); }
    assert Safe(r.core, limit, start) && Mutex.Threads(r.lock) == r.core.pc.Keys && OneAtATime(r.lock) by {
      ReachedInv(c, limit, start, steps, r);
      SafeState(r, limit, start);
      OneHolder(r.lock);
    }
  }

  lemma SafeState(r: System, limit: int, start: int)
    requires Bounded(Abs(r)) && Abs(r).limit == limit && Abs(r).start == start
    ensures Safe(r.core, limit, start)
  {
    AssertsHold(r.core, Mutex.Owner(r.lock));
  }

  lemma AssertsHold(s: State, owner: Option<Tid>)
    requires Bounded(AbsOf(s, owner))
    ensures forall t | t in s.pc && s.pc[t].Asserting? :: !MustWait(s, s.pc[t].side)
  {
    forall t | t in s.pc && s.pc[t].Asserting?
      ensures !MustWait(s, s.pc[t].side)
    {
      assert GuardAt(AbsOf(s, owner), AbsOf(s, owner).pc[t]);
    }
  }

  lemma OneHolder(l: Mutex.Impl)
    requires Mutex.Inv(l)
    ensures OneAtATime(l)
  {
    forall t | t in Mutex.Threads(l) && Mutex.PhaseOf(l, t).Holding?
      ensures Mutex.Owner(l) == Some(t)
    {
      Mutex.OwnerPhase(l, t);
    }
  }

  /** A step that is neither a new request nor a failed exchange. */
  ghost predicate Useful(c: System, x: Step)
    requires Wf(c)
  {
    Enabled(c, x) && (x.Own? ==> !x.action.Request?) && (x.Inside? ==> Mutex.Useful(c.lock, x.t, x.inner))
  }

  /** A thread that holds the lock or is getting somewhere with it can take a step. */
  lemma GoesOn(c: System, u: Tid)
    requires Coupled(c) && Mutex.CanGo(c.lock, u)
    ensures exists x :: Useful(c, x)
  {
    var pc, phase := c.core.pc[u], Mutex.PhaseOf(c.lock, u);
    assert Fits(pc, phase);
    if phase.Holding? {
      if pc.Locking? { assert Useful(c, Return(u)); }
      else if Unlocks(pc) {
        Mutex.HolderCanRelease(c.lock, u);
        var a :| Mutex.Useful(c.lock, u, a);
        assert Useful(c, Inside(u, a));
      } else { OwnStep(c, u); }
    } else {
      var a :| Mutex.Useful(c.lock, u, a);
      assert Useful(c, Inside(u, a));
    }
  }

  /** A thread outside the lock code that is neither receiving nor blocked. */
  lemma OwnStep(c: System, t: Tid)
    requires Coupled(c) && t in c.core.pc
    requires var pc := c.core.pc[t]; !pc.Receiving? && !pc.Blocked? && !pc.Locking? && !Unlocks(pc)
    ensures exists x :: Useful(c, x)
  {
    assert Fits(c.core.pc[t], Mutex.PhaseOf(c.lock, t));
    var a := OwnAction(c.core, t);
    assert Useful(c, Own(t, a));
  }

  lemma OwnAction(s: State, t: Tid) returns (a: Action)
    requires t in s.pc
    requires var pc := s.pc[t]; !pc.Receiving? && !pc.Blocked? && !pc.Locking? && !Unlocks(pc)
    ensures Server.Enabled(s, Move(t, a)) && !a.Acquire? && !a.Release? && !a.Request?
  {
    a := match s.pc[t]
      case Testing(_) => Test
      case Parking(_) => Sleep
      case Woken(_) => Count
      case Asserting(_) => Load
      case Storing(_, _) => Store
      case Signalling(_) => Notify
      case _ => Reply;
  }

  lemma SomeStep(c: System, t: Tid)
    requires Coupled(c) && t in c.core.pc && !c.core.pc[t].Receiving? && !c.core.pc[t].Blocked?
    ensures exists x :: Useful(c, x)
  {
    var pc, phase := c.core.pc[t], Mutex.PhaseOf(c.lock, t);
    assert Fits(pc, phase);
    if phase.Acquiring? || phase.Releasing? {
      Mutex.Progress(c.lock, t);
      var u :| Mutex.CanGo(c.lock, u);
      GoesOn(c, u);
    } else if phase.Holding? {
      assert Mutex.CanGo(c.lock, t);
      GoesOn(c, t);
    } else if Unlocks(pc) {
      assert Useful(c, Return(t));
    } else {
      OwnStep(c, t);
    }
  }

  /** Over either lock, in every reachable state with a pending request on each side,
      somebody can take a useful step: no deadlock and no lost wake-up. */
  lemma NeverBothStuckOverEitherLock(c: System, limit: int, start: int, steps: seq<Step>, r: System, p: Tid, q: Tid)
    requires Initial(c, limit, start) && Few(c) && 1 <= limit && 0 <= start <= limit && Run(c, steps, r)
    requires p in r.core.pc && Pending(r.core.pc[p], Producer)
    requires q in r.core.pc && Pending(r.core.pc[q], Consumer)
    ensures Wf(r) && exists x :: Useful(r, x)
  {
    ReachedInv(c, limit, start, steps, r);
    NotBothStuck(r, p, q);
  }

  lemma NotBothStuck(c: System, p: Tid, q: Tid)
    requires Coupled(c) && Server.Inv(Abs(c))
    requires p in c.core.pc && Pending(c.core.pc[p], Producer)
    requires q in c.core.pc && Pending(c.core.pc[q], Consumer)
    ensures exists x :: Useful(c, x)
  {
    var t := Mover(c.core, Mutex.Owner(c.lock), p, q);
    SomeStep(c, t);
  }

  /** The abstract server names a thread that is neither receiving nor blocked. */
  lemma Mover(s: State, owner: Option<Tid>, p: Tid, q: Tid) returns (t: Tid)
    requires Server.Inv(AbsOf(s, owner))
    requires p in s.pc && Pending(s.pc[p], Producer)
    requires q in s.pc && Pending(s.pc[q], Consumer)
    ensures t in s.pc && !s.pc[t].Receiving? && !s.pc[t].Blocked?
  {
    assert AbsOf(s, owner).pc[p] == AbsPc(s.pc[p], owner == Some(p));
    assert AbsOf(s, owner).pc[q] == AbsPc(s.pc[q], owner == Some(q));
    NeverBothStuck(AbsOf(s, owner), p, q);
    var m :| Inner(m) && Server.Enabled(AbsOf(s, owner), m);
    t := m.t;
    InnerPlace(AbsOf(s, owner), m);
  }

  lemma InnerPlace(s: State, m: Move)
    requires Inner(m) && Server.Enabled(s, m)
    ensures m.t in s.pc && !s.pc[m.t].Receiving? && !s.pc[m.t].Blocked?
  {
  }
}
