/** The bounded-buffer server: any number of threads answer PRODUCER and CONSUMER requests
    with one mutex, one counter and two notifications.

    The mutex is the abstract lock here; `ServerOverLock` puts the real ones in its place.
    The increment and the decrement of the counter are a load and a store. */
module Server {
  import opened Common
  import opened Notification

  datatype Side = Producer | Consumer

  function Other(side: Side): Side {
    if side.Producer? then Consumer else Producer
  }

  /** Where a server thread is in the handling of a request. */
  datatype Pc =
    | Receiving                       // in seL4_Recv
    | Locking(side: Side)             // in sync_mutex_lock
    | Testing(side: Side)             // about to test the loop condition
    | Leaving(side: Side)             // must wait: in sync_mutex_unlock
    | Parking(side: Side)             // about to call seL4_Wait
    | Blocked(side: Side)             // blocked in seL4_Wait
    | Woken(side: Side)               // about to count the wait and lock again
    | Asserting(side: Side)           // past the loop, at the assert
    | Storing(side: Side, seen: int)  // has loaded the counter for the change
    | Signalling(side: Side)          // about to signal the other side
    | Unlocking(side: Side)           // in the last sync_mutex_unlock
    | Replying(side: Side)            // about to answer

  datatype Action = Request(side: Side)
    | Acquire | Test | Release | Sleep | Count | Load | Store | Notify | Reply

  datatype Move = Move(t: Tid, action: Action)

  /** `produced`, `consumed` and `last` record the changes of the counter so far; the code
      has no such variables and no step looks at them. */
  datatype State = State(
    limit: int,
    start: int,
    owner: Option<Tid>,
    buffer: int,
    producers: Ntfn,
    consumers: Ntfn,
    pc: map<Tid, Pc>,
    produced: nat,
    consumed: nat,
    last: Option<Side>)

  /** The notification a side waits on. */
  function List(s: State, side: Side): Ntfn {
    if side.Producer? then s.producers else s.consumers
  }

  function WithList(s: State, side: Side, n: Ntfn): State {
    if side.Producer? then s.(producers := n) else s.(consumers := n)
  }

  /** The loop condition of a side. */
  predicate MustWait(s: State, side: Side) {
    if side.Producer? then s.buffer == s.limit else s.buffer == 0
  }

  /** The blocked threads of a side are exactly the queue of its notification. */
  ghost predicate Matches(n: Ntfn, pc: map<Tid, Pc>, side: Side) {
    && Valid(n)
    && (forall t | t in Queue(n) :: t in pc && pc[t] == Blocked(side))
    && (forall t | t in pc && pc[t] == Blocked(side) :: t in Queue(n))
  }

  ghost predicate Wf(s: State) {
    Matches(s.producers, s.pc, Producer) && Matches(s.consumers, s.pc, Consumer)
  }

  predicate Enabled(s: State, m: Move) {
    m.t in s.pc &&
    var pc := s.pc[m.t];
    match m.action
    case Request(_) => pc.Receiving?
    case Acquire => pc.Locking? && s.owner.None?
    case Test => pc.Testing?
    case Release => pc.Leaving? || pc.Unlocking?
    case Sleep => pc.Parking?
    case Count => pc.Woken?
    case Load => pc.Asserting?
    case Store => pc.Storing?
    case Notify => pc.Signalling?
    case Reply => pc.Replying?
  }

  /** The place a thread goes to. */
  function To(s: State, m: Move): Pc
    requires Enabled(s, m)
  {
    var pc := s.pc[m.t];
    match m.action
    case Request(side) => Locking(side)
    case Acquire => Testing(pc.side)
    case Test => if MustWait(s, pc.side) then Leaving(pc.side) else Asserting(pc.side)
    case Release => if pc.Leaving? then Parking(pc.side) else Replying(pc.side)
    case Sleep => if List(s, pc.side).Active? then Woken(pc.side) else Blocked(pc.side)
    case Count => Locking(pc.side)
    case Load => Storing(pc.side, s.buffer)
    case Store => Signalling(pc.side)
    case Notify => Unlocking(pc.side)
    case Reply => Receiving
  }

  function Apply(s: State, m: Move): (r: State)
    requires Wf(s) && Enabled(s, m)
    ensures Wf(r) && r.pc.Keys == s.pc.Keys
  {
    var pc := s.pc[m.t];
    match m.action
    case Acquire => Go(s, m.t, To(s, m)).(owner := Some(m.t))
    case Release => Go(s, m.t, To(s, m)).(owner := None)
    case Store => Stored(Go(s, m.t, To(s, m)), pc.side, pc.seen)
    case Sleep => Slept(s, m.t, pc.side)
    case Notify => Notified(s, m.t, pc.side)
    case _ => Go(s, m.t, To(s, m))
  }

  /** A thread goes from one place to another, neither of them in a queue. */
  function Go(s: State, t: Tid, to: Pc): (r: State)
    requires Wf(s) && t in s.pc && !s.pc[t].Blocked? && !to.Blocked?
    ensures Wf(r)
  {
    s.(pc := s.pc[t := to])
  }

  function Stored(s: State, side: Side, seen: int): State {
    var r := s.(last := Some(side));
    if side.Producer? then r.(buffer := seen + 1, produced := s.produced + 1)
    else r.(buffer := seen - 1, consumed := s.consumed + 1)
  }

  function Slept(s: State, t: Tid, side: Side): (r: State)
    requires Wf(s) && t in s.pc && s.pc[t] == Parking(side)
    ensures Wf(r) && r.pc.Keys == s.pc.Keys
  {
    var (n, blocked) := Wait(List(s, side), t);
    var pc := s.pc[t := if blocked then Blocked(side) else Woken(side)];
    SleptMatches(List(s, side), s.pc, t, side);
    SleptOthers(List(s, Other(side)), s.pc, t, side, blocked);
    WithList(s, side, n).(pc := pc)
  }

  /** Waiting puts the thread both into the queue and into its blocked place, or into neither, */
  lemma SleptMatches(n: Ntfn, pc: map<Tid, Pc>, t: Tid, side: Side)
    requires t in pc && pc[t] == Parking(side) && Matches(n, pc, side)
    ensures var (n', blocked) := Wait(n, t);
      Matches(n', pc[t := if blocked then Blocked(side) else Woken(side)], side)
  {
  }

  /** and leaves the queue of the other side alone. */
  lemma SleptOthers(other: Ntfn, pc: map<Tid, Pc>, t: Tid, side: Side, blocked: bool)
    requires t in pc && pc[t] == Parking(side) && Matches(other, pc, Other(side))
    ensures Matches(other, pc[t := if blocked then Blocked(side) else Woken(side)], Other(side))
  {
  }

  function Notified(s: State, t: Tid, side: Side): (r: State)
    requires Wf(s) && t in s.pc && s.pc[t] == Signalling(side)
    ensures Wf(r) && r.pc.Keys == s.pc.Keys
  {
    var other := Other(side);
    var (n, woken) := Signal(List(s, other));
    NotifiedMatches(List(s, other), s.pc, t, side);
    NotifiedOthers(List(s, side), s.pc, t, side, woken);
    WithList(s, other, n).(pc := Wake(s.pc, t, side, woken))
  }

  /** The places after a signal */
  function Wake(pc: map<Tid, Pc>, t: Tid, side: Side, woken: Option<Tid>): map<Tid, Pc> {
    var rest := pc[t := Unlocking(side)];
    if woken.Some? then rest[woken.value := Woken(Other(side))] else rest
  }

  /** Signalling takes the woken thread out of the queue and out of its blocked place, */
  lemma NotifiedMatches(n: Ntfn, pc: map<Tid, Pc>, t: Tid, side: Side)
    requires t in pc && pc[t] == Signalling(side) && Matches(n, pc, Other(side))
    ensures var (n', woken) := Signal(n);
      && (woken.Some? ==> woken.value in pc && pc[woken.value] == Blocked(Other(side)))
      && Matches(n', Wake(pc, t, side, woken), Other(side))
  {
    var (n', woken) := Signal(n);
    SignalLeaves(n);
    WakeMatches(Queue(n), Queue(n'), pc, t, side, woken);
  }

  /** The same on the queues as sets */
  lemma WakeMatches(q: seq<Tid>, q': seq<Tid>, pc: map<Tid, Pc>, t: Tid, side: Side, woken: Option<Tid>)
    requires t in pc && pc[t] == Signalling(side) && (woken.Some? ==> woken.value !in q')
    requires forall u :: u in q <==> u in pc && pc[u] == Blocked(Other(side))
    requires forall u :: u in q <==> (woken == Some(u) || u in q')
    ensures forall u :: u in q' <==> u in pc && Wake(pc, t, side, woken)[u] == Blocked(Other(side))
  {
  }

  /** and leaves the queue of the other side alone. */
  lemma NotifiedOthers(mine: Ntfn, pc: map<Tid, Pc>, t: Tid, side: Side, woken: Option<Tid>)
    requires t in pc && pc[t] == Signalling(side) && Matches(mine, pc, side)
    requires woken.Some? ==> woken.value in pc && pc[woken.value] == Blocked(Other(side))
    ensures Matches(mine, Wake(pc, t, side, woken), side)
  {
  }

  function Exec(s: State, moves: seq<Move>): Option<State>
    requires Wf(s)
    decreases |moves|
  {
    if moves == [] then Some(s)
    else if Enabled(s, moves[0]) then Exec(Apply(s, moves[0]), moves[1..])
    else None
  }

  function Init(threads: set<Tid>, limit: int, start: int): (s: State)
    ensures Wf(s)
  {
    State(limit, start, None, start, Idle, Idle, map t | t in threads :: Receiving, 0, 0, None)
  }

  // The invariant

  /** The places between taking the mutex and giving it back. */
  predicate Critical(pc: Pc) {
    pc.Testing? || pc.Leaving? || pc.Asserting? || pc.Storing? || pc.Signalling? || pc.Unlocking?
  }

  ghost predicate Exclusive(s: State) {
    && (s.owner.Some? ==> s.owner.value in s.pc)
    && forall t | t in s.pc :: Critical(s.pc[t]) <==> s.owner == Some(t)
  }

  /** A thread past its loop has room, and has loaded what is still there. */
  predicate GuardAt(s: State, pc: Pc) {
    && (pc.Asserting? || pc.Storing? ==> !MustWait(s, pc.side))
    && (pc.Storing? ==> pc.seen == s.buffer)
  }

  ghost predicate Bounded(s: State) {
    && 1 <= s.limit && 0 <= s.buffer <= s.limit
    && s.buffer == s.start + s.produced - s.consumed
    && forall t | t in s.pc :: GuardAt(s, s.pc[t])
  }

  /** A request of a side that is on its way to looking at the counter. */
  predicate Awake(pc: Pc, side: Side) {
    && (pc.Woken? || pc.Locking? || pc.Testing? || pc.Asserting? || pc.Storing?)
    && pc.side == side
  }

  /** A request of a side that has found it must wait. */
  predicate Retired(pc: Pc, side: Side) {
    (pc.Leaving? || pc.Parking? || pc.Blocked?) && pc.side == side
  }

  /** The last change has opened the way for the other side, and the other side will learn
      of it: a signal is owed, the flag is set, or a request of that side is awake. */
  ghost predicate Heard(s: State, side: Side) {
    && !MustWait(s, Other(side))
    && (|| (exists t :: t in s.pc && s.pc[t] == Signalling(side))
        || List(s, Other(side)).Active?
        || (exists t :: t in s.pc && Awake(s.pc[t], Other(side))))
  }

  ghost predicate Lead(s: State) {
    match s.last
    case Some(side) => Heard(s, side)
    case None => forall t, side | t in s.pc && Retired(s.pc[t], side) :: MustWait(s, side)
  }

  ghost predicate Inv(s: State) {
    Wf(s) && Exclusive(s) && Bounded(s) && Lead(s)
  }

  /** What a step does to everything but the two notifications. */
  ghost predicate Frame(s: State, m: Move, r: State)
    requires Enabled(s, m)
  {
    && r.pc.Keys == s.pc.Keys && r.pc[m.t] == To(s, m)
    && (forall u | u in s.pc && u != m.t ::
          r.pc[u] == s.pc[u] || (s.pc[u].Blocked? && r.pc[u] == Woken(s.pc[u].side)))
    && r.owner == (if m.action.Acquire? then Some(m.t) else if m.action.Release? then None else s.owner)
    && r.limit == s.limit && r.start == s.start
    && if m.action.Store? then
         var Storing(side, seen) := s.pc[m.t];
         var q := Stored(s, side, seen);
         r.buffer == q.buffer && r.last == q.last && r.produced == q.produced && r.consumed == q.consumed
       else
         r.buffer == s.buffer && r.last == s.last && r.produced == s.produced && r.consumed == s.consumed
  }

  lemma StepFrame(s: State, m: Move)
    requires Wf(s) && Enabled(s, m)
    ensures Frame(s, m, Apply(s, m))
  {
    match m.action
    case Notify => NotifyFrame(s, m);
    case Sleep => SleepFrame(s, m);
    case _ => GoFrame(s, m);
  }

  lemma SleepFrame(s: State, m: Move)
    requires Wf(s) && Enabled(s, m) && m.action.Sleep?
    ensures Frame(s, m, Apply(s, m))
  {
  }

  lemma GoFrame(s: State, m: Move)
    requires Wf(s) && Enabled(s, m) && !m.action.Sleep? && !m.action.Notify?
    ensures Frame(s, m, Apply(s, m))
  {
  }

  lemma NotifyFrame(s: State, m: Move)
    requires Wf(s) && Enabled(s, m) && m.action.Notify?
    ensures Frame(s, m, Apply(s, m))
  {
    HeadIsQueued(List(s, Other(s.pc[m.t].side)));
  }

  /** Which notifications a step leaves alone. */
  lemma StepLists(s: State, m: Move)
    requires Wf(s) && Enabled(s, m)
    ensures var r := Apply(s, m);
      if m.action.Sleep? then List(r, Other(s.pc[m.t].side)) == List(s, Other(s.pc[m.t].side))
      else if m.action.Notify? then List(r, s.pc[m.t].side) == List(s, s.pc[m.t].side)
      else r.producers == s.producers && r.consumers == s.consumers
  {
  }

  lemma KeepsExclusive(s: State, m: Move, r: State)
    requires Enabled(s, m) && Frame(s, m, r) && Exclusive(s)
    ensures Exclusive(r)
  {
  }

  lemma KeepsBounded(s: State, m: Move, r: State)
    requires Enabled(s, m) && Frame(s, m, r) && Exclusive(s) && Bounded(s)
    ensures Bounded(r)
  {
  }

  lemma KeepsLead(s: State, m: Move, r: State)
    requires Enabled(s, m) && Frame(s, m, r) && Exclusive(s) && Bounded(s) && Lead(s)
    requires m.action.Store? || s.last.None?
    ensures Lead(r)
  {
    if m.action.Store? {
      assert r.pc[m.t] == Signalling(s.pc[m.t].side);
    } else {
      forall t, side | t in r.pc && Retired(r.pc[t], side)
        ensures MustWait(r, side)
      {
        if t == m.t && m.action.Test? {
          assert r.pc[t] == Leaving(side);
          assert MustWait(s, side);
        } else {
          assert Retired(s.pc[t], side);
          assert MustWait(s, side);
        }
      }
    }
  }

  lemma KeepsHeard(s: State, m: Move, side: Side)
    requires Wf(s) && Enabled(s, m) && !m.action.Store? && Heard(s, side)
    ensures Heard(Apply(s, m), side)
  {
    StepFrame(s, m);
    if w :| w in s.pc && Awake(s.pc[w], Other(side)) {
      AwakeStaysHeard(s, m, side, w, Apply(s, m));
    } else if w :| w in s.pc && s.pc[w] == Signalling(side) {
      if w == m.t { NotifyIsHeard(s, m, side); }
      else { assert Apply(s, m).pc[w] == s.pc[w]; }
    } else {
      FlagStaysHeard(s, m, side);
    }
  }

  lemma AwakeStaysHeard(s: State, m: Move, side: Side, w: Tid, r: State)
    requires Enabled(s, m) && !m.action.Store? && Frame(s, m, r) && !MustWait(s, Other(side))
    requires w in s.pc && Awake(s.pc[w], Other(side))
    ensures Heard(r, side)
  {
    assert Awake(r.pc[w], Other(side));
  }

  lemma NotifyIsHeard(s: State, m: Move, side: Side)
    requires Wf(s) && Enabled(s, m) && m.action.Notify? && s.pc[m.t] == Signalling(side)
    requires !MustWait(s, Other(side))
    ensures Heard(Apply(s, m), side)
  {
    var woken := Signal(List(s, Other(side))).1;
    if woken.Some? { assert Awake(Apply(s, m).pc[woken.value], Other(side)); }
  }

  lemma FlagStaysHeard(s: State, m: Move, side: Side)
    requires Wf(s) && Enabled(s, m) && !m.action.Store? && !MustWait(s, Other(side))
    requires List(s, Other(side)).Active?
    ensures Heard(Apply(s, m), side)
  {
    var r := Apply(s, m);
    StepFrame(s, m);
    if !List(r, Other(side)).Active? { assert Awake(r.pc[m.t], Other(side)); }
  }

  lemma StepKeepsInv(s: State, m: Move)
    requires Inv(s) && Enabled(s, m)
    ensures Inv(Apply(s, m))
  {
    var r := Apply(s, m);
    StepFrame(s, m);
    KeepsExclusive(s, m, r);
    KeepsBounded(s, m, r);
    if m.action.Store? || s.last.None? { KeepsLead(s, m, r); }
    else { KeepsHeard(s, m, s.last.value); }
  }

  // Whole runs

  lemma {:induction false} RunKeepsInv(s: State, moves: seq<Move>)
    requires Inv(s) && Exec(s, moves).Some?
    ensures Inv(Exec(s, moves).value)
    decreases |moves|
  {
    if moves != [] {
      StepKeepsInv(s, moves[0]);
      RunKeepsInv(Apply(s, moves[0]), moves[1..]);
    }
  }

  lemma {:induction false} SameParameters(s: State, moves: seq<Move>)
    requires Wf(s) && Exec(s, moves).Some?
    ensures Exec(s, moves).value.limit == s.limit && Exec(s, moves).value.start == s.start
    decreases |moves|
  {
    if moves != [] {
      StepFrame(s, moves[0]);
      SameParameters(Apply(s, moves[0]), moves[1..]);
    }
  }

  lemma InitInv(threads: set<Tid>, limit: int, start: int)
    requires 1 <= limit && 0 <= start <= limit
    ensures Inv(Init(threads, limit, start))
  {
  }

  /** A request that has not changed the counter yet. */
  predicate Pending(pc: Pc, side: Side) {
    Awake(pc, side) || Retired(pc, side)
  }

  // Requests and changes of the counter

  function Done(s: State, side: Side): nat {
    if side.Producer? then s.produced else s.consumed
  }

  function PendingOn(pc: map<Tid, Pc>, side: Side): set<Tid> {
    set t | t in pc && Pending(pc[t], side)
  }

  function Asked(moves: seq<Move>, side: Side): nat
    decreases |moves|
  {
    if moves == [] then 0 else One(moves[0].action == Request(side)) + Asked(moves[1..], side)
  }

  /** A request of a side makes one change of its own side, after which it is not pending. */
  lemma StepCounts(s: State, m: Move, r: State, side: Side)
    requires Enabled(s, m) && Frame(s, m, r)
    ensures Done(r, side) + |PendingOn(r.pc, side)|
         == Done(s, side) + |PendingOn(s.pc, side)| + One(m.action == Request(side))
  {
    assert PendingOn(r.pc, side) - {m.t} == PendingOn(s.pc, side) - {m.t};
    AllButOne(PendingOn(r.pc, side), PendingOn(s.pc, side), m.t);
  }

  /** In every run, for each side: the changes made and the requests still pending are as many
      as the requests that arrived, on top of what there was at the start. */
  lemma {:induction false} EveryRequestCounts(s: State, moves: seq<Move>, side: Side)
    requires Wf(s) && Exec(s, moves).Some?
    ensures var r := Exec(s, moves).value;
      Done(r, side) + |PendingOn(r.pc, side)| == Done(s, side) + |PendingOn(s.pc, side)| + Asked(moves, side)
    decreases |moves|
  {
    if moves != [] {
      StepFrame(s, moves[0]);
      StepCounts(s, moves[0], Apply(s, moves[0]), side);
      EveryRequestCounts(Apply(s, moves[0]), moves[1..], side);
    }
  }

  /** A move other than the arrival of a new request. */
  predicate Inner(m: Move) {
    !m.action.Request?
  }

  /** With a pending request on each side somebody can move, although signals merge. */
  lemma NeverBothStuck(s: State, p: Tid, c: Tid)
    requires Inv(s)
    requires p in s.pc && Pending(s.pc[p], Producer)
    requires c in s.pc && Pending(s.pc[c], Consumer)
    ensures exists m :: Inner(m) && Enabled(s, m)
  {
    if !s.pc[p].Blocked? {
      OwnMove(s, p);
    } else if !s.pc[c].Blocked? {
      OwnMove(s, c);
    } else {
      assert Retired(s.pc[p], Producer) && Retired(s.pc[c], Consumer);
      assert p in Queue(s.producers) && c in Queue(s.consumers);
      assert s.last.None? ==> MustWait(s, Producer) && MustWait(s, Consumer);
      var t :| t in s.pc && (s.pc[t].Signalling? || Awake(s.pc[t], Other(s.last.value)));
      assert s.pc[t].Signalling? || Awake(s.pc[t], Other(s.last.value));
      OwnMove(s, t);
    }
  }

  /** A thread that is neither receiving nor blocked can move, or the owner of the mutex can. */
  lemma OwnMove(s: State, t: Tid)
    requires Exclusive(s) && t in s.pc && !s.pc[t].Receiving? && !s.pc[t].Blocked?
    ensures exists m :: Inner(m) && Enabled(s, m)
  {
    var u := if s.pc[t].Locking? && s.owner.Some? then s.owner.value else t;
    var a := match s.pc[u]
      case Locking(_) => Acquire
      case Testing(_) => Test
      case Leaving(_) | Unlocking(_) => Release
      case Parking(_) => Sleep
      case Woken(_) => Count
      case Asserting(_) => Load
      case Storing(_, _) => Store
      case Signalling(_) => Notify
      case _ => Reply;
    assert Enabled(s, Move(u, a));
  }
}
