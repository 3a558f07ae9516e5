/** How long the server can work over the real locks without completing a request. */
module ServerLockProgress {
  import opened Common
  import opened Server
  import opened ServerProgress
  import opened ServerOverLock
  import Mutex
  import BinSem
  import BinSemLock
  import Spinlock

  // What the lock code can still do

  function SpinRank(pc: Spinlock.Pc): nat {
    match pc case Out => 0 case Spinning => 2 case Inside => 1
  }

  /** How many useful steps the calls in progress can still take inside the lock code */
  ghost function LockBudget(l: Mutex.Impl): nat {
    match l
    case Sem(s) => BinSemLock.Budget(s)
    case Spin(s) => Weigh(s.pc, SpinRank)
  }

  lemma UsefulLowersBudget(l: Mutex.Impl, t: Tid, a: Mutex.Action)
    requires Mutex.Inv(l) && Mutex.Useful(l, t, a)
    ensures LockBudget(Mutex.Apply(l, t, a)) < LockBudget(l)
  {
    match l
    case Sem(s) => BinSemLock.ProgressLowersBudget(s, BinSem.Move(t, a.b));
    case Spin(s) => WeighUpdate(s.pc, t, Spinlock.Apply(s, Spinlock.Move(t, a.p)).pc[t], SpinRank);
  }

  function MostBudget(n: nat): nat { Lex(2 * n, 4 * n, 4 * n) }

  lemma BudgetBound(l: Mutex.Impl)
    ensures LockBudget(l) <= MostBudget(|Mutex.Threads(l)|)
  {
    match l
    case Sem(s) =>
      assert |s.pc| == |s.pc.Keys|;
      WeighBound(s.pc, BinSemLock.Debt, 2);
      BinSemLock.RanksBound(s);
      LexBound(BinSemLock.Debts(s), BinSemLock.Ranks(s), 2 * |s.pc|, 4 * |s.pc|, 4 * |s.pc|);
    case Spin(s) =>
      assert |s.pc| == |s.pc.Keys|;
      WeighBound(s.pc, SpinRank, 2);
      LexBound(0, 4 * |s.pc|, 2 * |s.pc|, 4 * |s.pc|, 4 * |s.pc|);
  }

  // Calls about to return

  predicate Returnable(pc: Pc, phase: Mutex.Phase) {
    (pc.Locking? && (phase.Holding? || phase.Refused?)) || (Unlocks(pc) && phase.Outside?)
  }

  function Returnables(pc: map<Tid, Pc>, l: Mutex.Impl): set<Tid>
    requires Mutex.Threads(l) == pc.Keys
  {
    set t | t in pc && Returnable(pc[t], Mutex.PhaseOf(l, t))
  }

  lemma ReturnLowers(pc: map<Tid, Pc>, l: Mutex.Impl, t: Tid)
    requires Mutex.Threads(l) == pc.Keys && t in pc && Returnable(pc[t], Mutex.PhaseOf(l, t))
    ensures |Returnables(pc[t := Back(pc[t])], l)| < |Returnables(pc, l)|
  {
    assert Returnables(pc[t := Back(pc[t])], l) == Returnables(pc, l) - {t};
  }

  // Everything together

  ghost function Local(c: System): nat
    requires Mutex.Threads(c.lock) == c.core.pc.Keys
  {
    Lex(LockBudget(c.lock), |Returnables(c.core.pc, c.lock)|, |c.core.pc.Keys|)
  }

  function MostLocal(n: nat): nat { Lex(MostBudget(n), n, n) }

  lemma LocalBound(c: System)
    requires Mutex.Threads(c.lock) == c.core.pc.Keys
    ensures Local(c) <= MostLocal(|c.core.pc.Keys|) && |Returnables(c.core.pc, c.lock)| <= |c.core.pc.Keys|
  {
    BudgetBound(c.lock);
    FewerMembers(Returnables(c.core.pc, c.lock), c.core.pc.Keys);
    var n := |c.core.pc.Keys|;
    LexBound(LockBudget(c.lock), |Returnables(c.core.pc, c.lock)|, MostBudget(n), n, n);
  }

  /** What the whole system can still do before somebody must change the counter */
  ghost function Effort(c: System): nat
    requires Mutex.Threads(c.lock) == c.core.pc.Keys
  {
    Lex(Energy(Abs(c)), Local(c), MostLocal(|c.core.pc.Keys|))
  }

  function MostEffort(n: nat): nat { Lex(19 * n + 10, MostLocal(n), MostLocal(n)) }

  /** The bound is a polynomial of the number of threads. */
  lemma MostEffortValue(n: nat)
    ensures MostBudget(n) == (2 * n) * (4 * n + 1) + 4 * n
    ensures MostLocal(n) == MostBudget(n) * (n + 1) + n
    ensures MostEffort(n) == (19 * n + 10) * (MostLocal(n) + 1) + MostLocal(n)
  {
    LexValue(2 * n, 4 * n, 4 * n);
    LexValue(MostBudget(n), n, n);
    LexValue(19 * n + 10, MostLocal(n), MostLocal(n));
  }

  lemma AbstractEnergyBound(c: System)
    ensures Energy(Abs(c)) <= 19 * |c.core.pc.Keys| + 10
  {
    EnergyBound(Abs(c));
    assert Abs(c).pc.Keys == c.core.pc.Keys && |Abs(c).pc| == |Abs(c).pc.Keys|;
  }

  lemma EffortBound(c: System)
    requires Mutex.Threads(c.lock) == c.core.pc.Keys
    ensures Effort(c) <= MostEffort(|c.core.pc.Keys|)
  {
    var n := |c.core.pc.Keys|;
    LocalBound(c);
    AbstractEnergyBound(c);
    WithinMost(n, Energy(Abs(c)), Local(c));
  }

  lemma WithinMost(n: nat, energy: nat, local: nat)
    requires energy <= 19 * n + 10 && local <= MostLocal(n)
    ensures Lex(energy, local, MostLocal(n)) <= MostEffort(n)
  {
    LexBound(energy, local, 19 * n + 10, MostLocal(n), MostLocal(n));
  }

  /** Any step but a change of the counter and a failed exchange; new requests may arrive. */
  ghost predicate Spends(c: System, x: Step)
    requires ServerOverLock.Wf(c)
  {
    && ServerOverLock.Enabled(c, x) && (x.Own? ==> !x.action.Store?)
    && (x.Inside? ==> Mutex.Useful(c.lock, x.t, x.inner))
  }

  lemma StepLowersEffort(c: System, x: Step)
    requires Coupled(c) && Spends(c, x)
    ensures var r := ServerOverLock.Apply(c, x);
      Coupled(r) && r.core.pc.Keys == c.core.pc.Keys && Effort(r) < Effort(c)
  {
    var r := ServerOverLock.Apply(c, x);
    ServerOverLock.StepRefines(c, x);
    LocalBound(r);
    match x {
      case Own(_, _) => OwnCosts(c, x);
      case Inside(_, _) => InsideCosts(c, x);
      case Return(t) => ReturnCosts(c, t);
    }
    LexLess(Energy(Abs(r)), Local(r), Energy(Abs(c)), Local(c), MostLocal(|c.core.pc.Keys|));
  }

  lemma OwnCosts(c: System, x: Step)
    requires Coupled(c) && Spends(c, x) && x.Own?
    ensures Energy(Abs(ServerOverLock.Apply(c, x))) < Energy(Abs(c))
  {
    AbsWf(c.core, Mutex.Owner(c.lock));
    OwnRefines(c, x);
    MoveCosts(Abs(c), Move(x.t, x.action));
  }

  /** A step inside the lock code is a step of the abstract server, or spends the budget. */
  lemma InsideCosts(c: System, x: Step)
    requires Coupled(c) && Spends(c, x) && x.Inside?
    ensures var r := ServerOverLock.Apply(c, x);
      && Mutex.Threads(r.lock) == r.core.pc.Keys
      && (Energy(Abs(r)) < Energy(Abs(c)) || (Energy(Abs(r)) == Energy(Abs(c)) && Local(r) < Local(c)))
  {
    AbsWf(c.core, Mutex.Owner(c.lock));
    InsideRefines(c, x);
    InsideSpends(c, x);
    if Abs(ServerOverLock.Apply(c, x)) != Abs(c) {
      var m :| Matched(c, x, m);
      assert Matched(c, x, m);
      MoveCosts(Abs(c), m);
    }
  }

  lemma InsideSpends(c: System, x: Step)
    requires ServerOverLock.Wf(c) && Spends(c, x) && x.Inside?
    ensures var r := ServerOverLock.Apply(c, x); Mutex.Threads(r.lock) == r.core.pc.Keys && Local(r) < Local(c)
  {
    var r := ServerOverLock.Apply(c, x);
    LocalBound(r);
    UsefulLowersBudget(c.lock, x.t, x.inner);
    var late, early := |Returnables(r.core.pc, r.lock)|, |Returnables(c.core.pc, c.lock)|;
    LexLess(LockBudget(r.lock), late, LockBudget(c.lock), early, |c.core.pc.Keys|);
  }

  lemma ReturnCosts(c: System, t: Tid)
    requires Coupled(c) && Spends(c, Return(t))
    ensures var r := ServerOverLock.Apply(c, Return(t));
      Mutex.Threads(r.lock) == r.core.pc.Keys && Abs(r) == Abs(c) && Local(r) < Local(c)
  {
    var r := ServerOverLock.Apply(c, Return(t));
    ReturnRefines(c, Return(t));
    ReturnLowers(c.core.pc, c.lock, t);
    var late, early := |Returnables(r.core.pc, r.lock)|, |Returnables(c.core.pc, c.lock)|;
    LexLess(LockBudget(r.lock), late, LockBudget(c.lock), early, |c.core.pc.Keys|);
  }

  // Whole runs

  ghost predicate SpendingRun(c: System, steps: seq<Step>, r: System)
    decreases |steps|
  {
    if steps == [] then c == r
    else
      && ServerOverLock.Wf(c) && Spends(c, steps[0])
      && SpendingRun(ServerOverLock.Apply(c, steps[0]), steps[1..], r)
  }

  /** Over either lock, without a change of the counter the whole system runs out of steps. */
  lemma {:induction false} NoSpinning(c: System, steps: seq<Step>, r: System)
    requires Coupled(c) && SpendingRun(c, steps, r)
    ensures Coupled(r) && r.core.pc.Keys == c.core.pc.Keys && |steps| + Effort(r) <= Effort(c)
    decreases |steps|
  {
    if steps != [] {
      StepLowersEffort(c, steps[0]);
      NoSpinning(ServerOverLock.Apply(c, steps[0]), steps[1..], r);
    }
  }

  lemma {:induction false} SpendingIsRun(c: System, steps: seq<Step>, r: System)
    requires SpendingRun(c, steps, r)
    ensures Run(c, steps, r)
    decreases |steps|
  {
    if steps != [] { SpendingIsRun(ServerOverLock.Apply(c, steps[0]), steps[1..], r); }
  }

  lemma {:induction false} RequestStays(c: System, steps: seq<Step>, r: System, t: Tid, side: Side)
    requires Coupled(c) && SpendingRun(c, steps, r) && t in c.core.pc && Pending(c.core.pc[t], side)
    ensures t in r.core.pc && Pending(r.core.pc[t], side)
    decreases |steps|
  {
    if steps != [] {
      StepLowersEffort(c, steps[0]);
      StepKeepsRequest(c, steps[0], t, side);
      RequestStays(ServerOverLock.Apply(c, steps[0]), steps[1..], r, t, side);
    }
  }

  lemma StepKeepsRequest(c: System, x: Step, t: Tid, side: Side)
    requires ServerOverLock.Wf(c) && Spends(c, x) && t in c.core.pc && Pending(c.core.pc[t], side)
    ensures Pending(ServerOverLock.Apply(c, x).core.pc[t], side)
  {
    if x.Own? {
      var m := Move(x.t, x.action);
      StepFrame(c.core, m);
      StepKeepsPending(c.core, m, Server.Apply(c.core, m), t, side);
    }
  }

  /** Over either lock, with a request on each side under way: within a number of steps that
      depends on the number of threads only, the counter changes, because a run without that
      is short and can always go on. */
  lemma SomeRequestCompletesOverEitherLock(c0: System, limit: int, start: int, before: seq<Step>, c: System,
                                           p: Tid, q: Tid, steps: seq<Step>, r: System)
    requires Initial(c0, limit, start) && Few(c0) && 1 <= limit && 0 <= start <= limit && Run(c0, before, c)
    requires p in c.core.pc && Pending(c.core.pc[p], Producer)
    requires q in c.core.pc && Pending(c.core.pc[q], Consumer)
    requires SpendingRun(c, steps, r)
    ensures |steps| <= MostEffort(|c.core.pc.Keys|)
    ensures ServerOverLock.Wf(r) && exists x :: ServerOverLock.Useful(r, x)
  {
    ServerOverLock.ReachedInv(c0, limit, start, before, c);
    NoSpinning(c, steps, r);
    EffortBound(c);
    SpendingIsRun(c, steps, r);
    var moves := ServerOverLock.RunRefines(c, steps, r);
    Server.RunKeepsInv(Abs(c), moves);
    RequestStays(c, steps, r, p, Producer);
    RequestStays(c, steps, r, q, Consumer);
    NotBothStuck(r, p, q);
  }
}
