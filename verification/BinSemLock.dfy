/** The binary semaphore implements the abstract lock, and every caller gets through. */
module BinSemLock {
  import opened Common
  import opened Notification
  import opened BinSem
  import Lock

  // Refinement

  /** The owner seen by the abstract lock: whoever holds the semaphore. */
  ghost function Owner(s: State): Option<Tid> {
    if Holders(s) == {} then None else Some(Pick(Holders(s)))
  }

  lemma OwnerIsHolder(s: State)
    requires Inv(s)
    ensures forall t :: Owner(s) == Some(t) <==> t in s.pc && Holds(s.pc[t])
  {
    AtMostOne(Holders(s));
    assert forall t :: t in Holders(s) <==> t in s.pc && Holds(s.pc[t]);
  }

  /** A thread acquires by swapping away the 1, by taking the flag, or by being woken; it
      releases by incrementing. Nothing else concerns the abstract lock. */
  function EventOf(s: State, m: Move): Lock.Event
    requires Enabled(s, m)
  {
    match m.action
    case Swap => if s.value == 1 then Lock.Acquire(m.t) else Lock.Nothing
    case Sleep => if s.ntfn.Active? then Lock.Acquire(m.t) else Lock.Nothing
    case Wake => if Queue(s.ntfn) != [] then Lock.Acquire(Queue(s.ntfn)[0]) else Lock.Nothing
    case Post => Lock.Release(m.t)
    case _ => Lock.Nothing
  }

  /** When a step hands out the permission to enter, nobody holds it. */
  lemma FreeUnlessHeld(s: State, m: Move)
    requires Inv(s) && Enabled(s, m)
    ensures EventOf(s, m).Acquire? ==> Owner(s).None?
    ensures m.action.Swap? ==> s.value <= 1
  {
    if m.action.Wake? { SomeMember(Signallers(s), m.t); }
  }

  /** Who holds the semaphore changes as the event says. */
  lemma HoldersFollow(s: State, m: Move, r: State)
    requires Enabled(s, m) && Frame(s, m, r) && (m.action.Swap? ==> s.value <= 1)
    ensures var e := EventOf(s, m); forall t | t in s.pc ::
      Holds(r.pc[t]) <==> (e == Lock.Acquire(t) || (Holds(s.pc[t]) && e != Lock.Release(t)))
  {
  }

  /** Every step of every thread is a step of the abstract lock or leaves it alone. */
  lemma StepRefines(s: State, m: Move)
    requires Inv(s) && Enabled(s, m)
    ensures Lock.Allowed(Owner(s), EventOf(s, m))
    ensures Owner(Apply(s, m)) == Lock.After(Owner(s), EventOf(s, m))
  {
    StepKeepsInv(s, m);
    OwnerIsHolder(s);
    OwnerIsHolder(Apply(s, m));
    FreeUnlessHeld(s, m);
    StepFrame(s, m);
    HoldersFollow(s, m, Apply(s, m));
  }

  function Events(s: State, moves: seq<Move>): seq<Lock.Event>
    requires Wf(s) && Exec(s, moves).Some?
    decreases |moves|
  {
    if moves == [] then []
    else [EventOf(s, moves[0])] + Events(Apply(s, moves[0]), moves[1..])
  }

  /** Every run of the semaphore is a history of the abstract lock. */
  lemma {:induction false} RunRefines(s: State, moves: seq<Move>)
    requires Inv(s) && Exec(s, moves).Some?
    ensures Lock.Legal(Owner(s), Events(s, moves))
    ensures Lock.Final(Owner(s), Events(s, moves)) == Owner(Exec(s, moves).value)
    decreases |moves|
  {
    if moves != [] {
      var r := Apply(s, moves[0]);
      StepRefines(s, moves[0]);
      StepKeepsInv(s, moves[0]);
      RunRefines(r, moves[1..]);
      assert Events(s, moves)[1..] == Events(r, moves[1..]);
    }
  }

  // Progress

  /** A move that is neither a new call nor a spurious failure of the exchange. */
  predicate Progress(s: State, m: Move) {
    Enabled(s, m) && !m.action.Call? && (m.action.Miss? ==> s.pc[m.t].seen != s.value)
  }

  ghost predicate ProgressRun(s: State, moves: seq<Move>)
    requires Wf(s)
    decreases |moves|
  {
    moves == [] || (Progress(s, moves[0]) && ProgressRun(Apply(s, moves[0]), moves[1..]))
  }

  /** How often a thread will still change the counter. */
  function Debt(pc: Pc): nat {
    match pc
    case Loading | Swapping(_) => 2
    case Took(_) | Sleepy | Parked | Inside => 1
    case _ => 0
  }

  /** How far a thread is from its next change of the counter, or from being done. */
  function Rank(value: int): Pc -> nat {
    (pc: Pc) => match pc
      case Swapping(seen) => if seen == value then 1 else 3
      case Loading => 2
      case Took(_) => 4
      case Sleepy => 3
      case Parked => 2
      case Inside => 1
      case Posted(_) => 3
      case Checked(_) => 2
      case Waking => 1
      case _ => 0
  }

  ghost function Debts(s: State): nat { Weigh(s.pc, Debt) }
  ghost function Ranks(s: State): nat { Weigh(s.pc, Rank(s.value)) }

  /** An upper bound on the moves left without new calls. */
  ghost function Budget(s: State): nat {
    Lex(Debts(s), Ranks(s), 4 * |s.pc|)
  }

  /** A progress move pays: it settles a debt, or owes no more and ranks lower. */
  lemma ProgressPays(s: State, m: Move)
    requires Wf(s) && Progress(s, m)
    ensures var r := Apply(s, m);
      Debts(r) < Debts(s) || (Debts(r) == Debts(s) && Ranks(r) < Ranks(s))
  {
    if m.action.Wake? {
      WakePays(s, m);
    } else {
      var r := Apply(s, m);
      StepFrame(s, m);
      OwnPlacePays(s, m, r);
      WeighUpdate(s.pc, m.t, r.pc[m.t], Debt);
      WeighUpdate(s.pc, m.t, r.pc[m.t], Rank(s.value));
    }
  }

  lemma OwnPlacePays(s: State, m: Move, r: State)
    requires Progress(s, m) && Frame(s, m, r) && !m.action.Wake?
    ensures var from, to := s.pc[m.t], r.pc[m.t];
      Debt(to) < Debt(from)
      || (Debt(to) == Debt(from) && r.value == s.value && Rank(s.value)(to) < Rank(s.value)(from))
  {
  }

  lemma WakePays(s: State, m: Move)
    requires Wf(s) && Progress(s, m) && m.action.Wake?
    ensures Debts(Apply(s, m)) == Debts(s) && Ranks(Apply(s, m)) < Ranks(s)
  {
    var r := Apply(s, m);
    var woken := Signal(s.ntfn).1;
    if woken.Some? {
      HandOverPays(s, r, m.t, woken.value);
    } else {
      WeighUpdate(s.pc, m.t, Out, Debt);
      WeighUpdate(s.pc, m.t, Out, Rank(s.value));
    }
  }

  lemma HandOverPays(s: State, r: State, t: Tid, u: Tid)
    requires t in s.pc && s.pc[t].Waking? && u in s.pc && s.pc[u].Parked?
    requires r.value == s.value && r.pc == s.pc[t := Out][u := Inside]
    ensures Debts(r) == Debts(s) && Ranks(r) < Ranks(s)
  {
    WeighUpdate2(s.pc, t, Out, u, Inside, Debt);
    WeighUpdate2(s.pc, t, Out, u, Inside, Rank(s.value));
  }

  lemma RanksBound(s: State)
    ensures Ranks(s) <= 4 * |s.pc|
  {
    WeighBound(s.pc, Rank(s.value), 4);
  }

  lemma SameThreads(s: State, m: Move)
    requires Wf(s) && Enabled(s, m)
    ensures |Apply(s, m).pc| == |s.pc|
  {
    assert |Apply(s, m).pc| == |Apply(s, m).pc.Keys|;
  }

  lemma ProgressLowersBudget(s: State, m: Move)
    requires Wf(s) && Progress(s, m)
    ensures Budget(Apply(s, m)) < Budget(s)
  {
    var r := Apply(s, m);
    ProgressPays(s, m);
    RanksBound(r);
    SameThreads(s, m);
    LexLess(Debts(r), Ranks(r), Debts(s), Ranks(s), 4 * |s.pc|);
  }

  /** When no progress move is left nobody is waiting, holding or signalling. */
  lemma StuckMeansDone(s: State)
    requires Inv(s) && forall m :: !Progress(s, m)
    ensures forall t | t in s.pc :: s.pc[t].Out? || s.pc[t].Refused?
    ensures s.value == 1 && s.ntfn.Idle?
  {
    assert s.ntfn.Waiting? ==> s.ntfn.queue[0] in Queue(s.ntfn);
    forall t | t in s.pc
      ensures s.pc[t].Out? || s.pc[t].Refused? || s.pc[t].Parked?
    {
      if !s.pc[t].Out? && !s.pc[t].Refused? && !s.pc[t].Parked? { OwnMove(s, t); }
    }
    assert Holders(s) == {} && Signallers(s) == {};
    forall t | t in s.pc
      ensures !s.pc[t].Parked?
    {
      if s.pc[t].Parked? { SomeMember(Waiters(s), t); }
    }
    assert Waiters(s) == {};
  }

  /** A thread inside a call can move unless it is blocked. */
  lemma OwnMove(s: State, t: Tid)
    requires t in s.pc && !s.pc[t].Out? && !s.pc[t].Refused? && !s.pc[t].Parked?
    ensures exists m: Move :: m.t == t && Progress(s, m)
  {
    var a := match s.pc[t]
      case Loading => Load
      case Swapping(seen) => if seen == s.value then Swap else Miss
      case Took(_) => Decide
      case Sleepy => Sleep
      case Inside => Post
      case Posted(_) => Reread
      case Checked(_) => Test
      case _ => Wake;
    assert Progress(s, Move(t, a));
  }

  /** In wait, and not yet inside. */
  predicate Entering(pc: Pc) {
    pc.Loading? || pc.Swapping? || Waits(pc)
  }

  /** Without a new call, a thread leaves this state by acquiring or by being refused. */
  lemma EnteringStep(s: State, m: Move, t: Tid, r: State)
    requires Progress(s, m) && Frame(s, m, r) && t in s.pc && Entering(s.pc[t]) && (m.action.Swap? ==> s.value <= 1)
    ensures Entering(r.pc[t]) || r.pc[t].Refused? || EventOf(s, m) == Lock.Acquire(t)
  {
  }

  /** Whoever was in wait and is out has been inside. */
  lemma {:induction false} OutMeansServed(s: State, moves: seq<Move>, t: Tid)
    requires Inv(s) && ProgressRun(s, moves) && Exec(s, moves).Some?
    requires t in s.pc && (Entering(s.pc[t]) || s.pc[t].Refused?)
    ensures t in Exec(s, moves).value.pc
    ensures Exec(s, moves).value.pc[t].Out? ==> Lock.Acquire(t) in Events(s, moves)
    decreases |moves|
  {
    if moves != [] {
      var m, r := moves[0], Apply(s, moves[0]);
      StepKeepsInv(s, m);
      FreeUnlessHeld(s, m);
      StepFrame(s, m);
      if !s.pc[t].Refused? { EnteringStep(s, m, t, r); }
      if Entering(r.pc[t]) || r.pc[t].Refused? {
        OutMeansServed(r, moves[1..], t);
      } else {
        assert Events(s, moves)[0] == Lock.Acquire(t);
        SameThreadsRun(r, moves[1..]);
      }
    }
  }

  lemma {:induction false} SameThreadsRun(s: State, moves: seq<Move>)
    requires Wf(s) && Exec(s, moves).Some?
    ensures Exec(s, moves).value.pc.Keys == s.pc.Keys
    decreases |moves|
  {
    if moves != [] { SameThreadsRun(Apply(s, moves[0]), moves[1..]); }
  }

  lemma {:induction false} ProgressIsShort(s: State, moves: seq<Move>)
    requires Inv(s) && ProgressRun(s, moves)
    ensures |moves| <= Budget(s) && Exec(s, moves).Some? && Inv(Exec(s, moves).value)
    decreases |moves|
  {
    if moves != [] {
      ProgressLowersBudget(s, moves[0]);
      StepKeepsInv(s, moves[0]);
      ProgressIsShort(Apply(s, moves[0]), moves[1..]);
    }
  }

  /** However the scheduler orders them, the calls in progress finish within the budget when
      nobody starts a new one and the exchange fails only for a reason. When no move is left,
      every caller that was not refused is out, and has had the lock if it was waiting for it;
      and with too few threads for a refusal that is every caller. */
  lemma EveryCallerGetsThrough(s: State, moves: seq<Move>)
    requires Inv(s) && ProgressRun(s, moves)
    ensures |moves| <= Budget(s)
    ensures Exec(s, moves).Some? && Exec(s, moves).value.pc.Keys == s.pc.Keys
    ensures var r := Exec(s, moves).value;
      (forall m :: !Progress(r, m)) ==>
        && r.value == 1 && r.ntfn.Idle?
        && (forall t | t in s.pc :: r.pc[t].Out? || r.pc[t].Refused?)
        && (forall t | t in s.pc && Entering(s.pc[t]) && r.pc[t].Out? :: Lock.Acquire(t) in Events(s, moves))
        && (Roomy(s) ==> forall t | t in s.pc :: r.pc[t].Out?)
  {
    ProgressIsShort(s, moves);
    SameThreadsRun(s, moves);
    var r := Exec(s, moves).value;
    if forall m :: !Progress(r, m) {
      StuckMeansDone(r);
      forall t | t in s.pc && Entering(s.pc[t]) && r.pc[t].Out? ensures Lock.Acquire(t) in Events(s, moves) {
        OutMeansServed(s, moves, t);
      }
      if Roomy(s) { RefusedOnlyInACrowd(s, moves); }
    }
  }

  // First come, first served

  /** The threads that acquire, in order. */
  function Acquirers(events: seq<Lock.Event>): seq<Tid> {
    if events == [] then []
    else (if events[0].Acquire? then [events[0].t] else []) + Acquirers(events[1..])
  }

  /** While somebody is blocked nobody else acquires, and only the head of the queue leaves it. */
  lemma HeadAcquires(s: State, m: Move)
    requires Inv(s) && Enabled(s, m) && Queue(s.ntfn) != []
    ensures var q, q' := Queue(s.ntfn), Queue(Apply(s, m).ntfn);
      if EventOf(s, m).Acquire? then EventOf(s, m) == Lock.Acquire(q[0]) && q' == q[1..] else q <= q'
  {
    SomeMember(Waiters(s), Queue(s.ntfn)[0]);
  }

  /** `a` takes from `q` in order, and what is left of `q` is at the front of `end`. */
  predicate InOrder(q: seq<Tid>, a: seq<Tid>, end: seq<Tid>) {
    if |a| <= |q| then a <= q && q[|a|..] <= end else q <= a
  }

  /** In every run, however many calls keep arriving, the threads blocked at its start acquire
      in the order of the queue and before anybody else, and those that have not yet done so
      are still at the front. */
  lemma {:induction false} FirstComeFirstServed(s: State, moves: seq<Move>)
    requires Inv(s) && Exec(s, moves).Some?
    ensures InOrder(Queue(s.ntfn), Acquirers(Events(s, moves)), Queue(Exec(s, moves).value.ntfn))
    decreases |moves|
  {
    var q, a := Queue(s.ntfn), Acquirers(Events(s, moves));
    if moves != [] && q != [] {
      var r, e := Apply(s, moves[0]), EventOf(s, moves[0]);
      assert Events(s, moves)[1..] == Events(r, moves[1..]);
      StepKeepsInv(s, moves[0]);
      HeadAcquires(s, moves[0]);
      FirstComeFirstServed(r, moves[1..]);
      Later(q, Queue(r.ntfn), a, Acquirers(Events(r, moves[1..])), Queue(Exec(s, moves).value.ntfn), e.Acquire?);
    }
  }

  /** The same for the queue and the acquisitions one step later. */
  lemma Later(q: seq<Tid>, q': seq<Tid>, a: seq<Tid>, a': seq<Tid>, end: seq<Tid>, first: bool)
    requires q != [] && if first then a == [q[0]] + a' && q' == q[1..] else a == a' && q <= q'
    requires InOrder(q', a', end)
    ensures InOrder(q, a, end)
  {
    if first { assert q == [q[0]] + q'; }
  }

  /** Number k of the queue is number k to acquire, or has moved up in the queue. */
  predicate Turn(q: seq<Tid>, a: seq<Tid>, end: seq<Tid>, k: nat)
    requires k < |q|
  {
    if k < |a| then a[k] == q[k] else k - |a| < |end| && end[k - |a|] == q[k]
  }

  lemma InOrderTurn(q: seq<Tid>, a: seq<Tid>, end: seq<Tid>, k: nat)
    requires k < |q| && InOrder(q, a, end)
    ensures Turn(q, a, end, k)
  {
    if k >= |a| { assert q[|a|..][k - |a|] == q[k]; }
  }

  /** A thread with k others before it in the queue is the one to acquire after them. */
  lemma EntersAtItsTurn(s: State, moves: seq<Move>, r: State, k: nat)
    requires Inv(s) && Exec(s, moves) == Some(r) && k < |Queue(s.ntfn)|
    ensures Turn(Queue(s.ntfn), Acquirers(Events(s, moves)), Queue(r.ntfn), k)
  {
    FirstComeFirstServed(s, moves);
    InOrderTurn(Queue(s.ntfn), Acquirers(Events(s, moves)), Queue(r.ntfn), k);
  }
}
