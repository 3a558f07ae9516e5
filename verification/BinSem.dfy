/** The unmanaged binary semaphore over a notification, as a transition system.

    Any number of threads run `sync_bin_sem_bare_wait` and `sync_bin_sem_bare_post`.
    Every access to the shared counter and every system call is one step, and the steps
    of different threads interleave in any order. */
module BinSem {
  import opened Common
  import opened Notification

  /** Where a thread is in its call of wait or post. */
  datatype Pc =
    | Out                  // neither holds the semaphore nor is inside a call
    | Refused              // wait returned -1
    | Loading              // wait: about to read the counter
    | Swapping(seen: int)  // wait: about to compare-and-swap `seen` for `seen - 1`
    | Took(from: int)      // wait: decremented from `from`, about to look at it
    | Sleepy               // wait: about to call seL4_Wait
    | Parked               // wait: blocked in seL4_Wait
    | Inside               // wait returned 0
    | Posted(val: int)     // post: incremented to `val`, about to re-read for the assert
    | Checked(val: int)    // post: past the assert, about to look at `val`
    | Waking               // post: about to call seL4_Signal

  datatype Action = Call | Load | Swap | Miss | Decide | Sleep | Post | Reread | Test | Wake

  datatype Move = Move(t: Tid, action: Action)

  datatype State = State(value: int, ntfn: Ntfn, pc: map<Tid, Pc>)

  /** The blocked threads are exactly the queue of the notification. */
  ghost predicate Wf(s: State) {
    && Valid(s.ntfn)
    && (forall t | t in Queue(s.ntfn) :: t in s.pc && s.pc[t].Parked?)
    && (forall t | t in s.pc && s.pc[t].Parked? :: t in Queue(s.ntfn))
  }

  predicate Enabled(s: State, m: Move) {
    m.t in s.pc &&
    var pc := s.pc[m.t];
    match m.action
    case Call => pc.Out? || pc.Refused?
    case Load => pc.Loading?
    case Swap => pc.Swapping? && s.value == pc.seen
    case Miss => pc.Swapping?  // the weak exchange may fail whatever the counter holds
    case Decide => pc.Took?
    case Sleep => pc.Sleepy?
    case Post => pc.Inside?
    case Reread => pc.Posted?
    case Test => pc.Checked?
    case Wake => pc.Waking?
  }

  function Apply(s: State, m: Move): (r: State)
    requires Wf(s) && Enabled(s, m)
    ensures Wf(r) && r.pc.Keys == s.pc.Keys
  {
    var t := m.t;
    var pc := s.pc[t];
    match m.action
    case Call => s.(pc := s.pc[t := Loading])
    case Load => s.(pc := s.pc[t := if s.value == INT_MIN then Refused else Swapping(s.value)])
    case Swap => s.(value := s.value - 1, pc := s.pc[t := Took(pc.seen)])
    case Miss => s.(pc := s.pc[t := Loading])
    case Decide => s.(pc := s.pc[t := if pc.from <= 0 then Sleepy else Inside])
    case Sleep =>
      var (n, blocked) := Wait(s.ntfn, t);
      s.(ntfn := n, pc := s.pc[t := if blocked then Parked else Inside])
    case Post =>
      var v := WrapInt(s.value + 1);
      s.(value := v, pc := s.pc[t := Posted(v)])
    case Reread => s.(pc := s.pc[t := Checked(pc.val)])
    case Test => s.(pc := s.pc[t := if pc.val <= 0 then Waking else Out])
    case Wake =>
      var (n, woken) := Signal(s.ntfn);
      var rest := s.pc[t := Out];
      s.(ntfn := n, pc := if woken.Some? then rest[woken.value := Inside] else rest)
  }

  /** Where a move takes its own thread */
  function To(s: State, m: Move): Pc
    requires Enabled(s, m)
  {
    var pc := s.pc[m.t];
    match m.action
    case Call | Miss => Loading
    case Load => if s.value == INT_MIN then Refused else Swapping(s.value)
    case Swap => Took(pc.seen)
    case Decide => if pc.from <= 0 then Sleepy else Inside
    case Sleep => if s.ntfn.Active? then Inside else Parked
    case Post => Posted(WrapInt(s.value + 1))
    case Reread => Checked(pc.val)
    case Test => if pc.val <= 0 then Waking else Out
    case Wake => Out
  }

  /** What a move does to the counter and to the threads */
  ghost predicate Frame(s: State, m: Move, r: State)
    requires Enabled(s, m)
  {
    && r.value == (if m.action.Swap? then s.value - 1 else if m.action.Post? then WrapInt(s.value + 1) else s.value)
    && if m.action.Wake? && Queue(s.ntfn) != [] then
         var w := Queue(s.ntfn)[0];
         w in s.pc && s.pc[w].Parked? && r.pc == s.pc[m.t := Out][w := Inside]
       else r.pc == s.pc[m.t := To(s, m)]
  }

  lemma StepFrame(s: State, m: Move)
    requires Wf(s) && Enabled(s, m)
    ensures Frame(s, m, Apply(s, m))
  {
    HeadIsQueued(s.ntfn);
  }

  /** The state after a sequence of moves, when every one of them was possible. */
  function Exec(s: State, moves: seq<Move>): Option<State>
    requires Wf(s)
    decreases |moves|
  {
    if moves == [] then Some(s)
    else if Enabled(s, moves[0]) then Exec(Apply(s, moves[0]), moves[1..])
    else None
  }

  /** `sync_bin_sem_init(sem, ntfn, 1)` before any thread has called it. */
  function Init(threads: set<Tid>): (s: State)
    ensures Wf(s)
  {
    State(1, Idle, map t | t in threads :: Out)
  }

  // The whole-run invariant

  predicate Holds(pc: Pc) {
    pc.Inside? || (pc.Took? && pc.from > 0)
  }

  predicate Waits(pc: Pc) {
    pc.Sleepy? || pc.Parked? || (pc.Took? && pc.from <= 0)
  }

  /** A signal that has been decided on and not yet been sent. */
  predicate OwesSignal(pc: Pc) {
    pc.Waking? || (pc.Posted? && pc.val <= 0) || (pc.Checked? && pc.val <= 0)
  }

  function Holders(s: State): set<Tid> { Those(s.pc, Holds) }
  function Waiters(s: State): set<Tid> { Those(s.pc, Waits) }
  function Signallers(s: State): set<Tid> { Those(s.pc, OwesSignal) }

  /** How many permissions to enter exist: the counter itself, a holder, a signal on its
      way, or the flag of the notification. */
  function Tokens(s: State): nat {
    One(s.value == 1) + |Holders(s)| + |Signallers(s)| + One(s.ntfn.Active?)
  }

  ghost predicate Inv(s: State) {
    && Wf(s)
    && s.value == 1 - |Holders(s)| - |Waiters(s)|
    && s.value >= INT_MIN
    && Tokens(s) == 1
    && (forall t | t in s.pc && s.pc[t].Swapping? :: s.pc[t].seen > INT_MIN)
  }

  /** How the three groups of threads move when `t` goes from its place to `to`. */
  lemma Regroup(s: State, t: Tid, to: Pc, r: State)
    requires t in s.pc && r.pc == s.pc[t := to]
    ensures |Holders(r)| == |Holders(s)| - One(Holds(s.pc[t])) + One(Holds(to))
    ensures |Waiters(r)| == |Waiters(s)| - One(Waits(s.pc[t])) + One(Waits(to))
    ensures |Signallers(r)| == |Signallers(s)| - One(OwesSignal(s.pc[t])) + One(OwesSignal(to))
  {
    ThoseUpdate(s.pc, t, to, Holds);
    ThoseUpdate(s.pc, t, to, Waits);
    ThoseUpdate(s.pc, t, to, OwesSignal);
  }

  lemma StepKeepsInv(s: State, m: Move)
    requires Inv(s) && Enabled(s, m)
    ensures Inv(Apply(s, m))
  {
    match m.action
    case Swap => SwapKeepsInv(s, m);
    case Sleep => SleepKeepsInv(s, m);
    case Post => PostKeepsInv(s, m);
    case Wake => WakeKeepsInv(s, m);
    case _ => LocalKeepsInv(s, m);
  }

  lemma SwapKeepsInv(s: State, m: Move)
    requires Inv(s) && Enabled(s, m) && m.action.Swap?
    ensures Inv(Apply(s, m))
  {
    Regroup(s, m.t, Apply(s, m).pc[m.t], Apply(s, m));
  }

  lemma SleepKeepsInv(s: State, m: Move)
    requires Inv(s) && Enabled(s, m) && m.action.Sleep?
    ensures Inv(Apply(s, m))
  {
    Regroup(s, m.t, Apply(s, m).pc[m.t], Apply(s, m));
  }

  lemma PostKeepsInv(s: State, m: Move)
    requires Inv(s) && Enabled(s, m) && m.action.Post?
    ensures Inv(Apply(s, m))
  {
    Regroup(s, m.t, Apply(s, m).pc[m.t], Apply(s, m));
  }

  lemma LocalKeepsInv(s: State, m: Move)
    requires Inv(s) && Enabled(s, m)
    requires !m.action.Swap? && !m.action.Sleep? && !m.action.Post? && !m.action.Wake?
    ensures Inv(Apply(s, m))
  {
    Regroup(s, m.t, Apply(s, m).pc[m.t], Apply(s, m));
  }

  lemma WakeKeepsInv(s: State, m: Move)
    requires Inv(s) && Enabled(s, m) && m.action.Wake?
    ensures Inv(Apply(s, m))
  {
    var woken := Signal(s.ntfn).1;
    var mid := s.(pc := s.pc[m.t := Out]);
    Regroup(s, m.t, Out, mid);
    if woken.Some? { Regroup(mid, woken.value, Inside, Apply(s, m)); }
  }

  // Whole runs

  lemma {:induction false} RunKeepsInv(s: State, moves: seq<Move>)
    requires Inv(s) && Exec(s, moves).Some?
    ensures Inv(Exec(s, moves).value)
    decreases |moves|
  {
    if moves != [] {
      StepKeepsInv(s, moves[0]);
      RunKeepsInv(Apply(s, moves[0]), moves[1..]);
    }
  }

  lemma InitInv(threads: set<Tid>)
    ensures Inv(Init(threads))
  {
    var s := Init(threads);
    assert Holders(s) == {} && Waiters(s) == {} && Signallers(s) == {};
  }

  /** The state after a run from a fresh semaphore. */
  ghost predicate Reached(threads: set<Tid>, moves: seq<Move>, s: State) {
    Exec(Init(threads), moves) == Some(s)
  }

  lemma ReachedInv(threads: set<Tid>, moves: seq<Move>, s: State)
    requires Reached(threads, moves, s)
    ensures Inv(s)
  {
    InitInv(threads);
    RunKeepsInv(Init(threads), moves);
  }

  /** In every run: the counter is one less the threads that hold or wait; one permission
      to enter exists; two threads are never inside; no signal meets a set flag; the
      assert of post holds at every moment between the increment and the re-read, and
      after; and neither the checked decrement nor the unchecked increment overflows. */
  lemma MutualExclusion(threads: set<Tid>, moves: seq<Move>, s: State)
    requires Reached(threads, moves, s)
    ensures s.value == 1 - |Holders(s)| - |Waiters(s)|
    ensures Tokens(s) == 1
    ensures forall t, u | t in s.pc && u in s.pc && Holds(s.pc[t]) && Holds(s.pc[u]) :: t == u
    ensures forall t | t in s.pc && s.pc[t].Waking? :: !s.ntfn.Active?
    ensures INT_MIN <= s.value <= 1
    ensures forall t | t in s.pc && s.pc[t].Inside? :: WrapInt(s.value + 1) == s.value + 1
  {
    ReachedInv(threads, moves, s);
    AtMostOne(Holders(s));
    assert forall t | t in s.pc && Holds(s.pc[t]) :: t in Holders(s);
    forall t | t in s.pc && s.pc[t].Waking?
      ensures !s.ntfn.Active?
    {
      SomeMember(Signallers(s), t);
    }
    forall t | t in s.pc && s.pc[t].Inside?
      ensures s.value <= 0
    {
      SomeMember(Holders(s), t);
    }
  }

  /** A thread that has decremented and is not inside is never forgotten: somebody holds
      the semaphore, or owes a signal, or the flag is set and no waiter is blocked. */
  lemma NoLostWakeup(threads: set<Tid>, moves: seq<Move>, s: State, w: Tid)
    requires Reached(threads, moves, s)
    requires w in s.pc && Waits(s.pc[w])
    ensures Holders(s) != {} || Signallers(s) != {}
            || (s.ntfn.Active? && forall t | t in Waiters(s) :: !s.pc[t].Parked?)
    ensures s.pc[w].Parked? ==> !s.ntfn.Active?
  {
    ReachedInv(threads, moves, s);
    SomeMember(Waiters(s), w);
  }

  // When wait can return -1

  /** With this many threads the counter can run down to INT_MIN under a caller. */
  const CROWD: nat := 0x8000_0002

  /** Holders and waiters are different threads, and `t` is neither. */
  lemma CountedThreads(s: State, t: Tid)
    requires t in s.pc && !Holds(s.pc[t]) && !Waits(s.pc[t])
    ensures |Holders(s)| + |Waiters(s)| + 1 <= |s.pc|
  {
    assert Holders(s) !! Waiters(s);
    assert |Holders(s) + Waiters(s) + {t}| == |Holders(s)| + |Waiters(s)| + 1;
    FewerMembers(Holders(s) + Waiters(s) + {t}, s.pc.Keys);
  }

  ghost predicate Roomy(s: State) {
    |s.pc| < CROWD && forall t | t in s.pc :: !s.pc[t].Refused?
  }

  lemma StepKeepsRoomy(s: State, m: Move)
    requires Inv(s) && Roomy(s) && Enabled(s, m)
    ensures Roomy(Apply(s, m))
  {
    assert |Apply(s, m).pc| == |Apply(s, m).pc.Keys| == |s.pc.Keys|;
    if m.action.Load? { CountedThreads(s, m.t); }
  }

  lemma {:induction false} RefusedOnlyInACrowd(s: State, moves: seq<Move>)
    requires Inv(s) && Roomy(s) && Exec(s, moves).Some?
    ensures Roomy(Exec(s, moves).value)
    decreases |moves|
  {
    if moves != [] {
      StepKeepsInv(s, moves[0]);
      StepKeepsRoomy(s, moves[0]);
      RefusedOnlyInACrowd(Apply(s, moves[0]), moves[1..]);
    }
  }

  lemma {:induction false} ExecJoin(s: State, a: seq<Move>, b: seq<Move>)
    requires Wf(s) && Exec(s, a).Some? && Wf(Exec(s, a).value)
    ensures Exec(s, a + b) == Exec(Exec(s, a).value, b)
    decreases |a|
  {
    if a == [] {
      assert a + b == b;
    } else {
      assert (a + b)[0] == a[0] && (a + b)[1..] == a[1..] + b;
      ExecJoin(Apply(s, a[0]), a[1..], b);
    }
  }

  /** Any group of threads can all get past their decrement before anybody else moves. */
  lemma {:induction false} PileUp(threads: set<Tid>, group: set<Tid>) returns (moves: seq<Move>, s: State)
    requires group <= threads && |group| < CROWD
    ensures Reached(threads, moves, s)
    ensures s.value == 1 - |group| && s.pc.Keys == threads
    ensures forall t | t in threads - group :: s.pc[t].Out?
    decreases group
  {
    if group == {} {
      moves, s := [], Init(threads);
    } else {
      var t := Pick(group);
      var before, mid := PileUp(threads, group - {t});
      ReachedInv(threads, before, mid);
      var mine := [Move(t, Call), Move(t, Load), Move(t, Swap)];
      s := Runs3(mid, t);
      ExecJoin(Init(threads), before, mine);
      moves := before + mine;
    }
  }

  /** An undisturbed thread gets through its decrement in three moves. */
  lemma Runs3(s: State, t: Tid) returns (r: State)
    requires Wf(s) && t in s.pc && s.pc[t].Out? && s.value > INT_MIN
    ensures Exec(s, [Move(t, Call), Move(t, Load), Move(t, Swap)]) == Some(r)
    ensures r.value == s.value - 1 && r.pc == s.pc[t := Took(s.value)] && r.ntfn == s.ntfn
  {
    var moves := [Move(t, Call), Move(t, Load), Move(t, Swap)];
    var s1 := Apply(s, moves[0]);
    var s2 := Apply(s1, moves[1]);
    r := Apply(s2, moves[2]);
    assert Exec(r, []) == Some(r);
    assert moves[2..] == [Move(t, Swap)] && moves[2..][1..] == [];
    assert Exec(s2, moves[2..]) == Some(r);
    assert moves[1..][1..] == moves[2..];
    assert Exec(s1, moves[1..]) == Some(r);
  }

  /** After a pile-up the next caller is refused. */
  lemma OneTooMany(threads: set<Tid>) returns (moves: seq<Move>, s: State, t: Tid)
    requires |threads| >= CROWD
    ensures Reached(threads, moves, s) && t in s.pc && s.pc[t].Refused?
  {
    var group := SubsetOfSize(threads, CROWD - 1);
    var before, mid := PileUp(threads, group);
    ReachedInv(threads, before, mid);
    assert exists u :: u in threads - group by {
      if threads <= group { FewerMembers(threads, group); }
    }
    t :| t in threads - group;
    s := NextRefused(mid, t);
    ExecJoin(Init(threads), before, [Move(t, Call), Move(t, Load)]);
    moves := before + [Move(t, Call), Move(t, Load)];
  }

  lemma NextRefused(s: State, t: Tid) returns (r: State)
    requires Wf(s) && s.value == INT_MIN && t in s.pc && s.pc[t].Out?
    ensures Exec(s, [Move(t, Call), Move(t, Load)]) == Some(r) && t in r.pc && r.pc[t].Refused?
  {
    var mine := [Move(t, Call), Move(t, Load)];
    var s1 := Apply(s, mine[0]);
    r := Apply(s1, mine[1]);
    assert mine[1..] == [Move(t, Load)] && mine[1..][1..] == [];
    assert Exec(r, []) == Some(r);
    assert Exec(s1, mine[1..]) == Some(r);
  }

  /** Some run makes wait return -1 if and only if there are enough threads. */
  lemma WaitFailsIffCrowded(threads: set<Tid>)
    ensures (exists moves, s, t :: Reached(threads, moves, s) && t in s.pc && s.pc[t].Refused?)
            <==> |threads| >= CROWD
  {
    if |threads| >= CROWD {
      var moves, s, t := OneTooMany(threads);
    } else {
      InitInv(threads);
      var s0 := Init(threads);
      assert |s0.pc| == |s0.pc.Keys| && s0.pc.Keys == threads;
      forall moves, s, t | Reached(threads, moves, s) && t in s.pc
        ensures !s.pc[t].Refused?
      {
        RefusedOnlyInACrowd(s0, moves);
      }
    }
  }
}
