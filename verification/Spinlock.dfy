/** The spin lock as a transition system over any number of threads, and its refinement of
    the abstract lock. Releases are by the holder, as the interface demands. */
module Spinlock {
  import opened Common
  import Lock

  datatype Pc = Out | Spinning | Inside

  /** `Swap` and `Miss` are the two outcomes of the weak exchange in lock, `Try` is the
      strong exchange of trylock, and `Store` is unlock. */
  datatype Action = Call | Swap | Miss | Try | Store

  datatype Move = Move(t: Tid, action: Action)

  datatype State = State(word: int, pc: map<Tid, Pc>)

  function Init(threads: set<Tid>): State {
    State(0, map t | t in threads :: Out)
  }

  predicate Enabled(s: State, m: Move) {
    m.t in s.pc &&
    match m.action
    case Call => s.pc[m.t].Out?
    case Swap => s.pc[m.t].Spinning? && s.word == 0
    case Miss => s.pc[m.t].Spinning?
    case Try => s.pc[m.t].Out?
    case Store => s.pc[m.t].Inside?
  }

  function Apply(s: State, m: Move): (r: State)
    requires Enabled(s, m)
    ensures r.pc.Keys == s.pc.Keys
  {
    match m.action
    case Call => s.(pc := s.pc[m.t := Spinning])
    case Swap => State(1, s.pc[m.t := Inside])
    case Miss => s
    case Try => if s.word == 0 then State(1, s.pc[m.t := Inside]) else s
    case Store => State(0, s.pc[m.t := Out])
  }

  function Exec(s: State, moves: seq<Move>): Option<State>
    decreases |moves|
  {
    if moves == [] then Some(s)
    else if Enabled(s, moves[0]) then Exec(Apply(s, moves[0]), moves[1..])
    else None
  }

  predicate Holds(pc: Pc) { pc.Inside? }

  function Holders(s: State): set<Tid> { Those(s.pc, Holds) }

  /** The word counts the threads inside, and is a flag. */
  ghost predicate Inv(s: State) {
    s.word == |Holders(s)| && s.word <= 1
  }

  ghost function Owner(s: State): Option<Tid> {
    if Holders(s) == {} then None else Some(Pick(Holders(s)))
  }

  lemma OwnerIsHolder(s: State)
    requires Inv(s)
    ensures forall t :: Owner(s) == Some(t) <==> t in s.pc && Holds(s.pc[t])
    ensures s.word == 0 <==> Owner(s).None?
  {
    AtMostOne(Holders(s));
    assert forall t :: t in Holders(s) <==> t in s.pc && Holds(s.pc[t]);
  }

  lemma StepKeepsInv(s: State, m: Move)
    requires Inv(s) && Enabled(s, m)
    ensures Inv(Apply(s, m))
  {
    ThoseUpdate(s.pc, m.t, Apply(s, m).pc[m.t], Holds);
    assert s.pc[m.t := s.pc[m.t]] == s.pc;
    if m.action.Store? { SomeMember(Holders(s), m.t); }
  }

  function EventOf(s: State, m: Move): Lock.Event
    requires Enabled(s, m)
  {
    match m.action
    case Swap => Lock.Acquire(m.t)
    case Try => if s.word == 0 then Lock.Acquire(m.t) else Lock.Nothing
    case Store => Lock.Release(m.t)
    case _ => Lock.Nothing
  }

  /** Every step of every thread is a step of the abstract lock or leaves it alone; in
      particular trylock succeeds exactly when the abstract lock is free. */
  lemma StepRefines(s: State, m: Move)
    requires Inv(s) && Enabled(s, m)
    ensures Lock.Allowed(Owner(s), EventOf(s, m))
    ensures Owner(Apply(s, m)) == Lock.After(Owner(s), EventOf(s, m))
    ensures m.action.Try? ==> (Apply(s, m).pc[m.t].Inside? <==> Owner(s).None?)
  {
    StepKeepsInv(s, m);
    OwnerIsHolder(s);
    OwnerIsHolder(Apply(s, m));
    assert forall t | t in s.pc && t != m.t :: Apply(s, m).pc[t] == s.pc[t];
  }

  function Events(s: State, moves: seq<Move>): seq<Lock.Event>
    requires Exec(s, moves).Some?
    decreases |moves|
  {
    if moves == [] then []
    else [EventOf(s, moves[0])] + Events(Apply(s, moves[0]), moves[1..])
  }

  /** Every run of the spin lock is a history of the abstract lock. */
  lemma {:induction false} RunRefines(s: State, moves: seq<Move>)
    requires Inv(s) && Exec(s, moves).Some?
    ensures Inv(Exec(s, moves).value)
    ensures Lock.Legal(Owner(s), Events(s, moves))
    ensures Lock.Final(Owner(s), Events(s, moves)) == Owner(Exec(s, moves).value)
    decreases |moves|
  {
    if moves != [] {
      var r := Apply(s, moves[0]);
      StepRefines(s, moves[0]);
      StepKeepsInv(s, moves[0]);
      RunRefines(r, moves[1..]);
      assert Events(s, moves)[1..] == Events(r, moves[1..]);
    }
  }

  lemma InitInv(threads: set<Tid>)
    ensures Inv(Init(threads)) && Owner(Init(threads)).None?
  {
    assert Holders(Init(threads)) == {};
  }
}
