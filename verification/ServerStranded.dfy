/** A notification keeps one signal, so two changes of the counter in a row may wake only
    one of two requests. This module says exactly when a request can be left blocked with
    nobody about to wake it although the counter would let it through. */
module ServerStranded {
  import opened Common
  import opened Notification
  import opened Server

  /** Somebody of this side is blocked, there is room, and nothing moves by itself. */
  ghost predicate Stranded(s: State, side: Side) {
    && (exists t :: t in s.pc && s.pc[t] == Blocked(side))
    && !MustWait(s, side)
    && forall m :: Inner(m) ==> !Enabled(s, m)
  }

  ghost predicate Reached(threads: set<Tid>, limit: int, start: int, moves: seq<Move>, s: State) {
    Exec(Init(threads, limit, start), moves) == Some(s)
  }

  ghost predicate NeverStranded(threads: set<Tid>, limit: int, start: int) {
    forall moves, s, side | Reached(threads, limit, start, moves, s) :: !Stranded(s, side)
  }

  // What holds for every number of threads

  /** A request is stranded only when the last change was by its own side. */
  lemma StrandedByOwnSide(s: State, side: Side)
    requires Inv(s) && Stranded(s, side)
    ensures s.last == Some(side)
  {
    var t :| t in s.pc && s.pc[t] == Blocked(side);
    assert Retired(s.pc[t], side);
    assert t in Queue(List(s, side));
    assert s.last.None? ==> MustWait(s, side);
    if s.last == Some(Other(side)) {
      assert Heard(s, Other(side)) && Other(Other(side)) == side;
      var w :| w in s.pc && (s.pc[w].Signalling? || Awake(s.pc[w], side));
      assert s.pc[w].Signalling? || Awake(s.pc[w], side);
      OwnMove(s, w);
    }
  }

  /** With room for one item nobody is stranded. */
  lemma OneSlotSuffices(s: State, side: Side)
    requires Inv(s) && s.limit == 1
    ensures !Stranded(s, side)
  {
    if Stranded(s, side) {
      StrandedByOwnSide(s, side);
    }
  }

  // Two threads

  /** A retired request of a pair is right to wait, or will hear of the change. */
  ghost predicate Informed(s: State, side: Side) {
    || MustWait(s, side)
    || List(s, side).Active?
    || exists u :: u in s.pc && s.pc[u] == Signalling(Other(side))
  }

  ghost predicate Pair(s: State) {
    && (forall t, side | t in s.pc && Retired(s.pc[t], side) :: Informed(s, side))
    && (forall t, u, side | t in s.pc && u in s.pc && t != u && Retired(s.pc[t], side) && Retired(s.pc[u], side) ::
          MustWait(s, side))
  }

  lemma OnlyTwo(s: set<Tid>, a: Tid, b: Tid)
    requires |s| <= 2 && a in s && b in s && a != b
    ensures s == {a, b}
  {
    var rest := s - {a, b};
    assert s == rest + {a, b};
    assert |rest| == |s| - 2;
  }

  lemma StepKeepsInformed(s: State, m: Move, t: Tid, side: Side)
    requires Inv(s) && Pair(s) && |s.pc| <= 2 && Enabled(s, m)
    requires t in s.pc && Retired(Apply(s, m).pc[t], side)
    ensures Informed(Apply(s, m), side)
  {
    var r := Apply(s, m);
    StepFrame(s, m);
    if t == m.t && m.action.Test? {
      assert MustWait(s, side);
    } else if t == m.t {
      assert Retired(s.pc[t], side) && Informed(s, side);
      assert s.pc[t].Parking? || s.pc[t].Leaving?;
      if u :| u in s.pc && s.pc[u] == Signalling(Other(side)) { assert r.pc[u] == s.pc[u]; }
    } else {
      OtherKeepsInformed(s, m, t, side);
    }
  }

  /** The other thread of the pair moves. */
  lemma OtherKeepsInformed(s: State, m: Move, t: Tid, side: Side)
    requires Inv(s) && Pair(s) && |s.pc| <= 2 && Enabled(s, m)
    requires t in s.pc && t != m.t && Retired(Apply(s, m).pc[t], side)
    ensures Informed(Apply(s, m), side)
  {
    assert |s.pc| == |s.pc.Keys|;
    OnlyTwo(s.pc.Keys, t, m.t);
    StepFrame(s, m);
    StepLists(s, m);
    assert Retired(s.pc[t], side) && Informed(s, side);
    if m.action.Notify? && s.pc[m.t].side != side {
      NotifyInPair(s, m, t, side);
    } else if m.action.Sleep? && s.pc[m.t].side == side {
      assert Retired(s.pc[m.t], side) && MustWait(s, side);
    } else {
      LocalInPair(s, m, t, side, Apply(s, m));
    }
  }

  lemma LocalInPair(s: State, m: Move, t: Tid, side: Side, r: State)
    requires Enabled(s, m) && Frame(s, m, r) && GuardAt(s, s.pc[m.t])
    requires !m.action.Notify? || s.pc[m.t].side == side
    requires s.pc.Keys == {t, m.t} && t != m.t && Retired(s.pc[t], side) && Informed(s, side)
    requires List(r, side) == List(s, side)
    ensures Informed(r, side)
  {
    if m.action.Store? && s.pc[m.t].side != side { assert r.pc[m.t] == Signalling(Other(side)); }
  }

  lemma NotifyInPair(s: State, m: Move, t: Tid, side: Side)
    requires Wf(s) && Enabled(s, m) && m.action.Notify? && s.pc[m.t] == Signalling(Other(side))
    requires s.pc.Keys == {t, m.t} && t != m.t && Retired(Apply(s, m).pc[t], side)
    ensures List(Apply(s, m), side).Active?
  {
    var n := List(s, side);
    assert Other(Other(side)) == side;
  }

  lemma StepKeepsPair(s: State, m: Move)
    requires Inv(s) && Pair(s) && |s.pc| <= 2 && Enabled(s, m)
    ensures Pair(Apply(s, m))
  {
    var r := Apply(s, m);
    StepFrame(s, m);
    forall t, side | t in r.pc && Retired(r.pc[t], side)
      ensures Informed(r, side)
    {
      StepKeepsInformed(s, m, t, side);
    }
    forall t, u, side | t in r.pc && u in r.pc && t != u && Retired(r.pc[t], side) && Retired(r.pc[u], side)
      ensures MustWait(r, side)
    {
      TwoRetired(s, m, r, t, u, side);
    }
  }

  lemma TwoRetired(s: State, m: Move, r: State, t: Tid, u: Tid, side: Side)
    requires Pair(s) && |s.pc| <= 2 && Enabled(s, m) && Frame(s, m, r)
    requires t in s.pc && u in s.pc && t != u && Retired(r.pc[t], side) && Retired(r.pc[u], side)
    ensures MustWait(r, side)
  {
    assert |s.pc| == |s.pc.Keys|;
    OnlyTwo(s.pc.Keys, t, u);
    if m.action.Test? {
      assert MustWait(s, side);
    } else {
      assert Retired(s.pc[t], side) && Retired(s.pc[u], side);
      assert MustWait(s, side);
    }
  }

  lemma {:induction false} PairRun(s: State, moves: seq<Move>)
    requires Inv(s) && Pair(s) && |s.pc| <= 2 && Exec(s, moves).Some?
    ensures Pair(Exec(s, moves).value)
    decreases |moves|
  {
    if moves != [] {
      StepKeepsInv(s, moves[0]);
      StepKeepsPair(s, moves[0]);
      assert |Apply(s, moves[0]).pc| == |Apply(s, moves[0]).pc.Keys| == |s.pc.Keys|;
      PairRun(Apply(s, moves[0]), moves[1..]);
    }
  }

  lemma PairNotStranded(s: State, side: Side)
    requires Inv(s) && Pair(s)
    ensures !Stranded(s, side)
  {
    if Stranded(s, side) {
      var t :| t in s.pc && s.pc[t] == Blocked(side);
      assert Retired(s.pc[t], side) && t in Queue(List(s, side));
      assert Informed(s, side);
      var u :| u in s.pc && s.pc[u] == Signalling(Other(side));
      assert Enabled(s, Move(u, Notify));
    }
  }

  /** With at most two threads nobody is stranded, whatever the limit. */
  lemma TwoThreadsSuffice(threads: set<Tid>, limit: int, start: int, moves: seq<Move>, s: State, side: Side)
    requires |threads| <= 2 && limit >= 1 && 0 <= start <= limit && Reached(threads, limit, start, moves, s)
    ensures !Stranded(s, side)
  {
    var s0 := Init(threads, limit, start);
    InitInv(threads, limit, start);
    RunKeepsInv(s0, moves);
    assert s0.pc.Keys == threads && |s0.pc| == |s0.pc.Keys|;
    PairRun(s0, moves);
    PairNotStranded(s, side);
  }

  // Three threads and room for two

  /** A run from `s0` to `s`, with nobody blocked at its end. */
  ghost predicate Leads(s0: State, moves: seq<Move>, s: State) {
    && Wf(s0) && Exec(s0, moves) == Some(s) && Wf(s)
    && forall t | t in s.pc :: !s.pc[t].Blocked?
  }

  lemma {:induction false} ExecThen(s: State, moves: seq<Move>, r: State, m: Move)
    requires Wf(s) && Exec(s, moves) == Some(r) && Wf(r) && Enabled(r, m)
    ensures Exec(s, moves + [m]) == Some(Apply(r, m))
    decreases |moves|
  {
    if moves == [] {
      assert moves + [m] == [m] && [m][1..] == [];
      assert Exec(Apply(s, m), []) == Some(Apply(s, m));
    } else {
      assert (moves + [m])[0] == moves[0] && (moves + [m])[1..] == moves[1..] + [m];
      ExecThen(Apply(s, moves[0]), moves[1..], r, m);
    }
  }

  /** One more move by `t`: `t` goes to its next place and everybody else stays. */
  lemma Do(s0: State, moves: seq<Move>, s: State, t: Tid, a: Action) returns (moves': seq<Move>, r: State)
    requires Leads(s0, moves, s) && Enabled(s, Move(t, a)) && !a.Sleep? && !a.Notify?
    ensures Leads(s0, moves', r) && Frame(s, Move(t, a), r)
    ensures forall u | u in s.pc && u != t :: r.pc[u] == s.pc[u]
    ensures r.producers == s.producers && r.consumers == s.consumers
  {
    var m := Move(t, a);
    moves', r := moves + [m], Apply(s, m);
    ExecThen(s0, moves, s, m);
    StepFrame(s, m);
    StepLists(s, m);
  }

  /** `t` takes the flag of its side instead of blocking. */
  lemma DoSleep(s0: State, moves: seq<Move>, s: State, t: Tid, side: Side) returns (moves': seq<Move>, r: State)
    requires Leads(s0, moves, s) && t in s.pc && s.pc[t] == Parking(side) && List(s, side).Active?
    ensures Leads(s0, moves', r) && Frame(s, Move(t, Sleep), r)
    ensures forall u | u in s.pc && u != t :: r.pc[u] == s.pc[u]
    ensures List(r, side).Idle?
  {
    var m := Move(t, Sleep);
    moves', r := moves + [m], Apply(s, m);
    ExecThen(s0, moves, s, m);
    StepFrame(s, m);
  }

  /** With nobody blocked a signal sets the flag, whether or not it was set before. */
  lemma DoNotify(s0: State, moves: seq<Move>, s: State, t: Tid, side: Side) returns (moves': seq<Move>, r: State)
    requires Leads(s0, moves, s) && t in s.pc && s.pc[t] == Signalling(side)
    ensures Leads(s0, moves', r) && Frame(s, Move(t, Notify), r)
    ensures forall u | u in s.pc && u != t :: r.pc[u] == s.pc[u]
    ensures List(r, Other(side)).Active? && List(r, side) == List(s, side)
  {
    var m := Move(t, Notify);
    HeadIsQueued(List(s, Other(side)));
    moves', r := moves + [m], Apply(s, m);
    ExecThen(s0, moves, s, m);
    StepFrame(s, m);
    StepLists(s, m);
  }

  /** `t` is at `to`, the counter is `buffer`, and the rest is as before. */
  ghost predicate Only(s: State, t: Tid, to: Pc, buffer: int, r: State) {
    && r.pc.Keys == s.pc.Keys && t in s.pc && r.pc[t] == to
    && (forall u | u in s.pc && u != t :: r.pc[u] == s.pc[u])
    && r.limit == s.limit && r.owner.None? && r.buffer == buffer
  }

  /** `c` puts items in until the buffer is full. */
  lemma {:induction false} FillUp(s0: State, moves: seq<Move>, s: State, c: Tid) returns (moves': seq<Move>, r: State)
    requires Leads(s0, moves, s) && c in s.pc && s.pc[c].Receiving? && s.owner.None? && s.buffer <= s.limit
    ensures Leads(s0, moves', r) && Only(s, c, Receiving, s.limit, r)
    decreases s.limit - s.buffer
  {
    if s.buffer == s.limit {
      moves', r := moves, s;
    } else {
      moves', r := Do(s0, moves, s, c, Request(Producer));
      moves', r := Finishes(s0, moves', r, c, Producer);
      moves', r := FillUp(s0, moves', r, c);
    }
  }

  /** A producer finds the buffer full and gets as far as seL4_Wait. */
  lemma Fills(s0: State, moves: seq<Move>, s: State, t: Tid) returns (moves': seq<Move>, r: State)
    requires Leads(s0, moves, s) && t in s.pc && s.pc[t].Receiving? && s.owner.None? && s.buffer == s.limit
    ensures Leads(s0, moves', r) && Only(s, t, Parking(Producer), s.buffer, r)
    ensures r.producers == s.producers && r.consumers == s.consumers
  {
    moves', r := Do(s0, moves, s, t, Request(Producer));
    moves', r := Do(s0, moves', r, t, Acquire);
    moves', r := Do(s0, moves', r, t, Test);
    moves', r := Do(s0, moves', r, t, Release);
  }

  /** From the change of the counter to the reply, with nobody blocked: the other side's
      flag is set, whether or not it was set before. */
  lemma Finishes(s0: State, moves: seq<Move>, s: State, t: Tid, side: Side) returns (moves': seq<Move>, r: State)
    requires Leads(s0, moves, s) && t in s.pc && s.pc[t] == Locking(side) && s.owner.None? && !MustWait(s, side)
    ensures Leads(s0, moves', r)
    ensures Only(s, t, Receiving, if side.Producer? then s.buffer + 1 else s.buffer - 1, r)
    ensures List(r, Other(side)).Active? && List(r, side) == List(s, side)
  {
    moves', r := Enters(s0, moves, s, t, side);
    moves', r := Do(s0, moves', r, t, Store);
    moves', r := TellsAndReplies(s0, moves', r, t, side);
  }

  lemma Enters(s0: State, moves: seq<Move>, s: State, t: Tid, side: Side) returns (moves': seq<Move>, r: State)
    requires Leads(s0, moves, s) && t in s.pc && s.pc[t] == Locking(side) && s.owner.None? && !MustWait(s, side)
    ensures Leads(s0, moves', r) && Only(s, t, Storing(side, s.buffer), s.buffer, r.(owner := None))
    ensures r.producers == s.producers && r.consumers == s.consumers
  {
    moves', r := Do(s0, moves, s, t, Acquire);
    moves', r := Do(s0, moves', r, t, Test);
    moves', r := Do(s0, moves', r, t, Load);
  }

  lemma TellsAndReplies(s0: State, moves: seq<Move>, s: State, t: Tid, side: Side) returns (moves': seq<Move>, r: State)
    requires Leads(s0, moves, s) && t in s.pc && s.pc[t] == Signalling(side)
    ensures Leads(s0, moves', r) && Only(s, t, Receiving, s.buffer, r)
    ensures List(r, Other(side)).Active? && List(r, side) == List(s, side)
  {
    moves', r := DoNotify(s0, moves, s, t, side);
    moves', r := Do(s0, moves', r, t, Release);
    moves', r := Do(s0, moves', r, t, Reply);
  }

  /** `t` takes one item out. */
  lemma Takes(s0: State, moves: seq<Move>, s: State, t: Tid) returns (moves': seq<Move>, r: State)
    requires Leads(s0, moves, s) && t in s.pc && s.pc[t].Receiving? && s.owner.None? && s.buffer != 0
    ensures Leads(s0, moves', r) && Only(s, t, Receiving, s.buffer - 1, r)
    ensures r.producers.Active? && r.consumers == s.consumers
  {
    moves', r := Do(s0, moves, s, t, Request(Consumer));
    moves', r := Finishes(s0, moves', r, t, Consumer);
  }

  /** `t` takes the flag instead of blocking, and puts one item in. */
  lemma Resumes(s0: State, moves: seq<Move>, s: State, t: Tid) returns (moves': seq<Move>, r: State)
    requires Leads(s0, moves, s) && t in s.pc && s.pc[t] == Parking(Producer) && s.owner.None?
    requires s.producers.Active? && s.buffer != s.limit
    ensures Leads(s0, moves', r) && Only(s, t, Receiving, s.buffer + 1, r)
    ensures r.producers.Idle?
  {
    moves', r := DoSleep(s0, moves, s, t, Producer);
    moves', r := Do(s0, moves', r, t, Count);
    moves', r := Finishes(s0, moves', r, t, Producer);
  }

  /** The buffer fills up, two producers are on their way to seL4_Wait, two takes follow each
      other, and their signals are one. */
  lemma Strand(threads: set<Tid>, limit: int, start: int, a: Tid, b: Tid, c: Tid)
    returns (moves: seq<Move>, s: State)
    requires limit >= 2 && start <= limit && {a, b, c} <= threads && a != b && a != c && b != c
    ensures Reached(threads, limit, start, moves, s) && Stranded(s, Producer)
  {
    var s0 := Init(threads, limit, start);
    var q: State;
    moves, q := FillUp(s0, [], s0, c);
    assert forall t | t in q.pc :: q.pc[t] == Receiving;
    moves, s := StrandFull(s0, moves, q, a, b, c);
  }

  lemma StrandFull(s0: State, moves: seq<Move>, s: State, a: Tid, b: Tid, c: Tid) returns (moves': seq<Move>, r: State)
    requires Leads(s0, moves, s) && {a, b, c} <= s.pc.Keys && a != b && a != c && b != c
    requires s.owner.None? && s.buffer == s.limit && s.limit >= 2 && forall t | t in s.pc :: s.pc[t] == Receiving
    ensures Exec(s0, moves') == Some(r) && Stranded(r, Producer)
  {
    moves', r := Fills(s0, moves, s, a);
    moves', r := Fills(s0, moves', r, b);
    moves', r := StrandFrom(s0, moves', r, a, b, c);
  }

  lemma StrandFrom(s0: State, moves: seq<Move>, s: State, a: Tid, b: Tid, c: Tid) returns (moves': seq<Move>, r: State)
    requires Leads(s0, moves, s) && a in s.pc && b in s.pc && c in s.pc && a != b && a != c && b != c
    requires s.owner.None? && s.buffer == s.limit && s.limit >= 2
    requires forall t | t in s.pc :: s.pc[t] == if t == a || t == b then Parking(Producer) else Receiving
    ensures Exec(s0, moves') == Some(r) && Stranded(r, Producer)
  {
    moves', r := Takes(s0, moves, s, c);
    moves', r := Takes(s0, moves', r, c);
    moves', r := Resumes(s0, moves', r, a);
    assert forall t | t in r.pc :: r.pc[t] == if t == b then Parking(Producer) else Receiving;
    moves', r := Blocks(s0, moves', r, b);
  }

  /** The last thread that is not receiving blocks on an idle notification. */
  lemma Blocks(s0: State, moves: seq<Move>, s: State, b: Tid) returns (moves': seq<Move>, r: State)
    requires Leads(s0, moves, s) && b in s.pc && !MustWait(s, Producer) && !s.producers.Active?
    requires forall t | t in s.pc :: s.pc[t] == if t == b then Parking(Producer) else Receiving
    ensures Exec(s0, moves') == Some(r) && Stranded(r, Producer)
  {
    ExecThen(s0, moves, s, Move(b, Sleep));
    moves', r := moves + [Move(b, Sleep)], Apply(s, Move(b, Sleep));
    StepFrame(s, Move(b, Sleep));
    AloneIsStranded(r, b);
  }

  lemma AloneIsStranded(s: State, b: Tid)
    requires b in s.pc && !MustWait(s, Producer)
    requires forall t | t in s.pc :: s.pc[t] == if t == b then Blocked(Producer) else Receiving
    ensures Stranded(s, Producer)
  {
    assert s.pc[b] == Blocked(Producer);
  }

  /** Whatever the counter starts with, signals that merge can strand a request exactly when
      the buffer has room for at least two items and there are at least three threads. */
  lemma NeverStrandedIff(threads: set<Tid>, limit: int, start: int)
    requires limit >= 1 && 0 <= start <= limit
    ensures NeverStranded(threads, limit, start) <==> limit == 1 || |threads| <= 2
  {
    if limit == 1 || |threads| <= 2 {
      forall moves, s, side | Reached(threads, limit, start, moves, s)
        ensures !Stranded(s, side)
      {
        NotStranded(threads, limit, start, moves, s, side);
      }
    } else {
      var a := Pick(threads);
      assert |threads - {a}| == |threads| - 1;
      var b := Pick(threads - {a});
      assert |threads - {a} - {b}| == |threads| - 2;
      var c := Pick(threads - {a} - {b});
      var moves, s := Strand(threads, limit, start, a, b, c);
    }
  }

  lemma NotStranded(threads: set<Tid>, limit: int, start: int, moves: seq<Move>, s: State, side: Side)
    requires 0 <= start <= limit && Reached(threads, limit, start, moves, s)
    requires limit == 1 || (limit >= 1 && |threads| <= 2)
    ensures !Stranded(s, side)
  {
    if limit == 1 {
      var s0 := Init(threads, limit, start);
      InitInv(threads, limit, start);
      RunKeepsInv(s0, moves);
      SameParameters(s0, moves);
      OneSlotSuffices(s, side);
    } else {
      TwoThreadsSuffice(threads, limit, start, moves, s, side);
    }
  }
}
