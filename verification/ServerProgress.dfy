/** How the bounded-buffer server makes progress: how long it can work without completing a
    request. */
module ServerProgress {
  import opened Common
  import opened Notification
  import opened Server

  // No busy waiting

  function Rank(pc: Pc): nat {
    match pc
    case Signalling(_) => 19
    case Unlocking(_) => 13
    case Replying(_) => 11
    case Receiving => 10
    case Woken(_) => 6
    case Locking(_) => 5
    case Testing(_) => 4
    case Leaving(_) | Asserting(_) => 3
    case Parking(_) | Storing(_, _) => 2
    case Blocked(_) => 1
  }

  function Flags(s: State): nat {
    5 * One(s.producers.Active?) + 5 * One(s.consumers.Active?)
  }

  /** What the server can still spend before somebody must change the counter. */
  ghost function Energy(s: State): nat {
    Weigh(s.pc, Rank) + Flags(s)
  }

  lemma EnergyBound(s: State)
    ensures Energy(s) <= 19 * |s.pc| + 10
  {
    WeighBound(s.pc, Rank, 19);
  }

  lemma MoveCosts(s: State, m: Move)
    requires Wf(s) && Enabled(s, m) && !m.action.Store?
    ensures Energy(Apply(s, m)) < Energy(s)
  {
    if m.action.Notify? {
      NotifyCosts(s, m);
    } else {
      var r := Apply(s, m);
      OwnPlaceCosts(s, m);
      WeighUpdate(s.pc, m.t, r.pc[m.t], Rank);
    }
  }

  lemma OwnPlaceCosts(s: State, m: Move)
    requires Wf(s) && Enabled(s, m) && !m.action.Store? && !m.action.Notify?
    ensures var r := Apply(s, m);
      r.pc == s.pc[m.t := r.pc[m.t]] && Rank(r.pc[m.t]) + Flags(r) < Rank(s.pc[m.t]) + Flags(s)
  {
  }

  lemma NotifyCosts(s: State, m: Move)
    requires Wf(s) && Enabled(s, m) && m.action.Notify?
    ensures Energy(Apply(s, m)) < Energy(s)
  {
    var side := s.pc[m.t].side;
    var woken := Signal(List(s, Other(side))).1;
    NotifyEffect(s, m);
    if woken.Some? {
      WeighUpdate2(s.pc, m.t, Unlocking(side), woken.value, Woken(Other(side)), Rank);
    } else {
      WeighUpdate(s.pc, m.t, Unlocking(side), Rank);
    }
  }

  lemma NotifyEffect(s: State, m: Move)
    requires Wf(s) && Enabled(s, m) && m.action.Notify?
    ensures var side := s.pc[m.t].side; var woken := Signal(List(s, Other(side))).1; var r := Apply(s, m);
      && r.pc == Wake(s.pc, m.t, side, woken)
      && (woken.Some? ==> woken.value in s.pc && s.pc[woken.value].Blocked? && Flags(r) <= Flags(s))
      && Flags(r) <= Flags(s) + 5
  {
  }

  ghost predicate NoStore(moves: seq<Move>) {
    forall m | m in moves :: !m.action.Store?
  }

  /** Without a change of the counter the server runs out of moves, whatever arrives and
      however its threads are scheduled. */
  lemma {:induction false} NoBusyWaiting(s: State, moves: seq<Move>)
    requires Wf(s) && Exec(s, moves).Some? && NoStore(moves)
    ensures |moves| + Energy(Exec(s, moves).value) <= Energy(s)
    decreases |moves|
  {
    if moves != [] {
      MoveCosts(s, moves[0]);
      NoBusyWaiting(Apply(s, moves[0]), moves[1..]);
    }
  }

  lemma {:induction false} PendingStays(s: State, moves: seq<Move>, t: Tid, side: Side)
    requires Wf(s) && Exec(s, moves).Some? && NoStore(moves)
    requires t in s.pc && Pending(s.pc[t], side)
    ensures var r := Exec(s, moves).value; t in r.pc && Pending(r.pc[t], side)
    decreases |moves|
  {
    if moves != [] {
      StepFrame(s, moves[0]);
      StepKeepsPending(s, moves[0], Apply(s, moves[0]), t, side);
      PendingStays(Apply(s, moves[0]), moves[1..], t, side);
    }
  }

  lemma StepKeepsPending(s: State, m: Move, r: State, t: Tid, side: Side)
    requires Enabled(s, m) && Frame(s, m, r) && !m.action.Store?
    requires t in s.pc && Pending(s.pc[t], side)
    ensures Pending(r.pc[t], side)
  {
  }

  /** A request on each side: within a bounded number of moves one of them is done, because
      a run without a change of the counter is short and can always go on. */
  lemma SomeRequestCompletes(s: State, moves: seq<Move>, p: Tid, c: Tid)
    requires Inv(s) && Exec(s, moves).Some? && NoStore(moves)
    requires p in s.pc && Pending(s.pc[p], Producer)
    requires c in s.pc && Pending(s.pc[c], Consumer)
    ensures |moves| <= 19 * |s.pc| + 10
    ensures exists m :: Inner(m) && Enabled(Exec(s, moves).value, m)
  {
    NoBusyWaiting(s, moves);
    EnergyBound(s);
    RunKeepsInv(s, moves);
    PendingStays(s, moves, p, Producer);
    PendingStays(s, moves, c, Consumer);
    NeverBothStuck(Exec(s, moves).value, p, c);
  }
}
