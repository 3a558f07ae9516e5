/** Saved reply capabilities: a server thread moves the caller of a PRODUCER or CONSUMER
    request from its TCB into a slot of its own, may block for any time while other threads
    serve other requests, and finally answers through the slot. The callers of INIT are kept in
    slots of their own until all clients have called, and are then answered by some thread. */
module Replies {
  import opened Common

  /** The `number`-th call of a client. A reply capability names one of these. */
  datatype Req = Req(client: nat, number: nat)

  datatype Client = Ready(number: nat) | Calling(number: nat, taken: bool)

  datatype Pc =
    | Receiving                  // in seL4_Recv
    | Dispatching(work: bool)    // at the switch; `work` says PRODUCER or CONSUMER
    | Working                    // between saving the caller and answering
    | Answering                  // about to send on the slot

  /** `caller` is the reply capability in the TCB, `slot` the one in the thread's own slot. */
  datatype Thread = Thread(pc: Pc, caller: Option<Req>, slot: Option<Req>)

  datatype Answer = Answer(t: Tid, req: Req)

  /** `early` holds the callers kept by INIT. `got` records which thread received which PRODUCER
      or CONSUMER request, and `skipped` the calls that were taken and neither kept nor served. */
  datatype State = State(
    threads: map<Tid, Thread>,
    clients: map<nat, Client>,
    early: set<Req>,
    skipped: set<Req>,
    got: map<Req, Tid>,
    log: seq<Answer>)

  datatype Move =
    | Call(c: nat)                           // a client calls the server
    | Receive(t: Tid, c: nat, work: bool)    // a thread receives a call
    | Note(t: Tid)                           // a thread receives a message sent without a call
    | Save(t: Tid)                           // vka_cnode_saveCaller
    | Finish(t: Tid)                         // process_message returns 1
    | Reply(t: Tid)                          // seL4_Send on the slot
    | Keep(t: Tid)                           // INIT saves the caller, process_message returns 0
    | Admit(r: Req)                          // seL4_Send on a slot kept by INIT
    | Skip(t: Tid)                           // process_message returns 0

  predicate Enabled(s: State, m: Move) {
    match m
    case Call(c) => c in s.clients && s.clients[c].Ready?
    case Receive(t, c, _) =>
      && t in s.threads && s.threads[t].pc.Receiving?
      && c in s.clients && s.clients[c].Calling? && !s.clients[c].taken
    case Note(t) => t in s.threads && s.threads[t].pc.Receiving?
    case Save(t) => t in s.threads && s.threads[t].pc == Dispatching(true)
    case Finish(t) => t in s.threads && s.threads[t].pc.Working?
    case Reply(t) => t in s.threads && s.threads[t].pc.Answering?
    case Keep(t) => t in s.threads && s.threads[t].pc == Dispatching(false)
    case Skip(t) => t in s.threads && s.threads[t].pc == Dispatching(false)
    case Admit(r) => r in s.early
  }

  /** Saving fails when the slot is full, and moves nothing when there is no caller; the
      server goes on in every case. */
  function Saved(th: Thread): Thread {
    if th.slot.Some? || th.caller.None? then th.(pc := Working)
    else Thread(Working, None, th.caller)
  }

  /** A reply wakes its client if the client waits for exactly this reply. */
  function Woken(clients: map<nat, Client>, r: Req): map<nat, Client> {
    if r.client in clients && clients[r.client] == Calling(r.number, true)
    then clients[r.client := Ready(r.number + 1)]
    else clients
  }

  function Apply(s: State, m: Move): State
    requires Enabled(s, m)
  {
    match m
    case Call(c) => s.(clients := s.clients[c := Calling(s.clients[c].number, false)])
    case Receive(t, c, work) =>
      // receiving deletes the caller capability left in the TCB before it sets up the new one
      var r := Req(c, s.clients[c].number);
      s.(threads := s.threads[t := s.threads[t].(pc := Dispatching(work), caller := Some(r))],
         clients := s.clients[c := Calling(r.number, true)],
         got := if work then s.got[r := t] else s.got)
    case Note(t) => s.(threads := s.threads[t := s.threads[t].(pc := Dispatching(false), caller := None)])
    case Save(t) => s.(threads := s.threads[t := Saved(s.threads[t])])
    case Finish(t) => s.(threads := s.threads[t := s.threads[t].(pc := Answering)])
    case Reply(t) =>
      var th := s.threads[t];
      if th.slot.None? then s.(threads := s.threads[t := th.(pc := Receiving)])
      else s.(threads := s.threads[t := th.(pc := Receiving, slot := None)],
              clients := Woken(s.clients, th.slot.value),
              log := s.log + [Answer(t, th.slot.value)])
    case Keep(t) =>
      var th := s.threads[t];
      s.(threads := s.threads[t := th.(pc := Receiving, caller := None)],
         early := if th.caller.Some? then s.early + {th.caller.value} else s.early)
    case Admit(r) => s.(clients := Woken(s.clients, r), early := s.early - {r})
    case Skip(t) =>
      var th := s.threads[t];
      s.(threads := s.threads[t := th.(pc := Receiving)],
         skipped := if th.caller.Some? then s.skipped + {th.caller.value} else s.skipped)
  }

  function Exec(s: State, moves: seq<Move>): Option<State>
    decreases |moves|
  {
    if moves == [] then Some(s)
    else if Enabled(s, moves[0]) then Exec(Apply(s, moves[0]), moves[1..])
    else None
  }

  function Init(threads: set<Tid>, clients: set<nat>): State {
    State(map t | t in threads :: Thread(Receiving, None, None), map c | c in clients :: Ready(0), {}, {}, map[], [])
  }

  // The invariant

  /** The request a thread is working on. */
  function Held(th: Thread): Option<Req> {
    match th.pc
    case Receiving => None
    case Dispatching(work) => if work then th.caller else None
    case Working | Answering => th.slot
  }

  /** The caller a thread has received and may keep. */
  function Fresh(th: Thread): Option<Req> {
    if th.pc == Dispatching(false) then th.caller else None
  }

  /** A slot is full exactly while its thread is between saving and answering, and the reply
      capability is then nowhere else. */
  predicate Tidy(th: Thread) {
    match th.pc
    case Receiving => th.slot.None?
    case Dispatching(work) => th.slot.None? && (work ==> th.caller.Some?)
    case Working | Answering => th.slot.Some? && th.caller.None?
  }

  /** The client of a held request waits for exactly this request. */
  predicate Waits(s: State, r: Req) {
    r.client in s.clients && s.clients[r.client] == Calling(r.number, true)
  }

  /** The client of an answered request has gone on. */
  predicate GoneOn(s: State, r: Req) {
    r.client in s.clients && r.number < s.clients[r.client].number
  }

  ghost predicate Answered(s: State, r: Req) {
    exists i :: 0 <= i < |s.log| && s.log[i].req == r
  }

  /** A request that is not PRODUCER or CONSUMER and has not been answered. */
  ghost predicate Apart(s: State, r: Req) { Waits(s, r) && r !in s.got }

  /** Such requests are with one thread, among the early ones or among the skipped ones, and in
      one of these places only. */
  ghost predicate EarlyInv(s: State) {
    && (forall r | r in s.early :: Apart(s, r) && r !in s.skipped)
    && (forall r | r in s.skipped :: Apart(s, r))
    && (forall t | t in s.threads && Fresh(s.threads[t]).Some? ::
          var r := Fresh(s.threads[t]).value; Apart(s, r) && r !in s.early && r !in s.skipped)
    && (forall t, u | t in s.threads && u in s.threads && t != u && Fresh(s.threads[t]).Some? ::
          Fresh(s.threads[t]) != Fresh(s.threads[u]))
  }

  /** Somebody has the call, or it was let go of. */
  ghost predicate Accounted(s: State, r: Req) {
    || (exists t :: t in s.threads && (Held(s.threads[t]) == Some(r) || Fresh(s.threads[t]) == Some(r)))
    || r in s.early || r in s.skipped
  }

  /** Every call that has been received and not answered is accounted for. */
  ghost predicate NobodyForgotten(s: State) {
    forall r | Waits(s, r) :: Accounted(s, r)
  }

  ghost predicate Inv(s: State) { WorkInv(s) && EarlyInv(s) && NobodyForgotten(s) }

  ghost predicate WorkInv(s: State) {
    && (forall t | t in s.threads :: Tidy(s.threads[t]))
    && (forall t | t in s.threads && Held(s.threads[t]).Some? ::
          var r := Held(s.threads[t]).value; r in s.got && s.got[r] == t && Waits(s, r))
    && (forall i | 0 <= i < |s.log| ::
          var Answer(t, r) := s.log[i]; r in s.got && s.got[r] == t && GoneOn(s, r))
    && (forall i, j | 0 <= i < j < |s.log| :: s.log[i].req != s.log[j].req)
    && (forall r | r in s.got ::
          Answered(s, r) || (s.got[r] in s.threads && Held(s.threads[s.got[r]]) == Some(r)))
  }

  lemma CallKeepsInv(s: State, m: Move)
    requires WorkInv(s) && Enabled(s, m) && m.Call?
    ensures WorkInv(Apply(s, m))
  {
    var q := Apply(s, m);
    assert forall r :: Answered(s, r) ==> Answered(q, r);
    assert forall r :: GoneOn(s, r) ==> GoneOn(q, r);
  }

  lemma ReceiveKeepsInv(s: State, m: Move)
    requires WorkInv(s) && Enabled(s, m) && m.Receive?
    ensures WorkInv(Apply(s, m))
  {
    var q := Apply(s, m);
    var r := Req(m.c, s.clients[m.c].number);
    assert r !in s.got;
    assert forall r :: Answered(s, r) ==> Answered(q, r);
    assert forall r :: GoneOn(s, r) ==> GoneOn(q, r);
  }

  /** Steps of one thread that neither receive nor answer. */
  lemma LocalKeepsInv(s: State, m: Move)
    requires WorkInv(s) && Enabled(s, m) && (m.Note? || m.Save? || m.Finish? || m.Keep? || m.Skip?)
    ensures WorkInv(Apply(s, m))
  {
    HolderOnly(s, m.t, Apply(s, m).threads[m.t], Apply(s, m));
  }

  /** One thread moves with what it holds. */
  lemma HolderOnly(s: State, t: Tid, th: Thread, q: State)
    requires WorkInv(s) && t in s.threads && Tidy(th) && Held(th) == Held(s.threads[t])
    requires q == s.(threads := s.threads[t := th], early := q.early, skipped := q.skipped)
    ensures WorkInv(q)
  {
    assert forall r :: Answered(s, r) ==> Answered(q, r);
  }

  lemma ReplyKeepsInv(s: State, m: Move)
    requires WorkInv(s) && Enabled(s, m) && m.Reply?
    ensures WorkInv(Apply(s, m))
  {
    var q := Apply(s, m);
    var r := s.threads[m.t].slot.value;
    assert q.log[|s.log|] == Answer(m.t, r) && Answered(q, r);
    LongerLog(s, q);
    assert forall r :: GoneOn(s, r) ==> GoneOn(q, r);
  }

  lemma AdmitKeepsInv(s: State, m: Move)
    requires Inv(s) && Enabled(s, m) && m.Admit?
    ensures WorkInv(Apply(s, m))
  {
    var q := Apply(s, m);
    assert forall r :: Answered(s, r) ==> Answered(q, r);
    assert forall r :: GoneOn(s, r) ==> GoneOn(q, r);
    assert forall r | r != m.r :: Waits(s, r) ==> Waits(q, r);
  }

  lemma LongerLog(s: State, q: State)
    requires |s.log| <= |q.log| && forall i | 0 <= i < |s.log| :: q.log[i] == s.log[i]
    ensures forall r :: Answered(s, r) ==> Answered(q, r)
  {
    forall r | Answered(s, r)
      ensures Answered(q, r)
    {
      var i :| 0 <= i < |s.log| && s.log[i].req == r;
      assert q.log[i].req == r;
    }
  }

  /** A new call is nobody's caller yet. */
  lemma ReceiveKeepsEarly(s: State, m: Move)
    requires Inv(s) && Enabled(s, m) && m.Receive?
    ensures EarlyInv(Apply(s, m))
  {
    var q, r := Apply(s, m), Req(m.c, s.clients[m.c].number);
    assert r !in s.got && !Waits(s, r);
    assert forall r' | Waits(s, r') :: r'.client != m.c && Waits(q, r');
    assert forall r' | Apart(s, r') :: Apart(q, r');
  }

  lemma OthersKeepEarly(s: State, m: Move)
    requires Inv(s) && Enabled(s, m) && !m.Receive?
    ensures EarlyInv(Apply(s, m))
  {
    var q := Apply(s, m);
    if m.Reply? { assert Held(s.threads[m.t]) == s.threads[m.t].slot; }
    forall r | Apart(s, r) && !(m.Admit? && r == m.r) ensures Apart(q, r) {
      if m.Reply? { assert r != s.threads[m.t].slot.value; }
    }
  }

  /** Whoever has a call keeps it, passes it on, answers it or lets it go. */
  lemma StepKeepsAccounts(s: State, m: Move, r: Req)
    requires Inv(s) && Enabled(s, m) && Waits(Apply(s, m), r)
    ensures Accounted(Apply(s, m), r)
  {
    var q := Apply(s, m);
    if m.Receive? && r == Req(m.c, s.clients[m.c].number) {
      assert Held(q.threads[m.t]) == Some(r) || Fresh(q.threads[m.t]) == Some(r);
    } else {
      assert Waits(s, r) && Accounted(s, r);
      if t :| t in s.threads && (Held(s.threads[t]) == Some(r) || Fresh(s.threads[t]) == Some(r)) {
        assert Tidy(s.threads[t]);
        assert t in q.threads;
        HolderKeeps(s, m, q, t, r);
      }
    }
  }

  lemma HolderKeeps(s: State, m: Move, q: State, t: Tid, r: Req)
    requires Enabled(s, m) && q == Apply(s, m) && Waits(q, r)
    requires t in s.threads && Tidy(s.threads[t]) && (Held(s.threads[t]) == Some(r) || Fresh(s.threads[t]) == Some(r))
    ensures Accounted(q, r)
  {
    assert t in q.threads;
    if (m.Keep? || m.Skip?) && m.t == t {
      assert r in q.early || r in q.skipped;
    } else {
      assert Held(q.threads[t]) == Some(r) || Fresh(q.threads[t]) == Some(r);
    }
  }

  lemma StepKeepsInv(s: State, m: Move)
    requires Inv(s) && Enabled(s, m)
    ensures Inv(Apply(s, m))
  {
    forall r | Waits(Apply(s, m), r) ensures Accounted(Apply(s, m), r) { StepKeepsAccounts(s, m, r); }
    if m.Receive? { ReceiveKeepsEarly(s, m); } else { OthersKeepEarly(s, m); }
    match m
    case Call(_) => CallKeepsInv(s, m);
    case Receive(_, _, _) => ReceiveKeepsInv(s, m);
    case Reply(_) => ReplyKeepsInv(s, m);
    case Admit(_) => AdmitKeepsInv(s, m);
    case _ => LocalKeepsInv(s, m);
  }

  // Whole runs

  lemma {:induction false} RunKeepsInv(s: State, moves: seq<Move>)
    requires Inv(s) && Exec(s, moves).Some?
    ensures Inv(Exec(s, moves).value)
    decreases |moves|
  {
    if moves != [] {
      StepKeepsInv(s, moves[0]);
      RunKeepsInv(Apply(s, moves[0]), moves[1..]);
    }
  }

  /** In every run, however requests of different threads overlap: saving never fails and
      always has a caller to move; no request is answered twice; an answer comes from the
      thread that received the request; and an answer about to be sent goes to a client
      that waits for exactly this answer. */
  lemma AnsweredOnceByItsReceiver(threads: set<Tid>, clients: set<nat>, moves: seq<Move>, s: State)
    requires Exec(Init(threads, clients), moves) == Some(s)
    ensures forall t | t in s.threads && s.threads[t].pc == Dispatching(true) ::
      s.threads[t].slot.None? && s.threads[t].caller.Some?
    ensures forall i, j | 0 <= i < j < |s.log| :: s.log[i].req != s.log[j].req
    ensures forall i | 0 <= i < |s.log| :: s.log[i].req in s.got && s.got[s.log[i].req] == s.log[i].t
    ensures forall t | t in s.threads && s.threads[t].pc.Answering? ::
      && s.threads[t].slot.Some? && s.threads[t].caller.None? && Waits(s, s.threads[t].slot.value)
      && s.threads[t].slot.value in s.got && s.got[s.threads[t].slot.value] == t
  {
    RunKeepsInv(Init(threads, clients), moves);
    assert forall t | t in s.threads :: Tidy(s.threads[t]);
    forall t | t in s.threads && s.threads[t].pc.Answering?
      ensures var r := s.threads[t].slot.value; Waits(s, r) && r in s.got && s.got[r] == t
    {
      assert Held(s.threads[t]) == s.threads[t].slot;
    }
  }

  /** In every run no request is lost: a received one has been answered, or its receiver
      still holds it and its client still waits. */
  lemma NoRequestLost(threads: set<Tid>, clients: set<nat>, moves: seq<Move>, s: State, r: Req)
    requires Exec(Init(threads, clients), moves) == Some(s) && r in s.got
    ensures Answered(s, r) <==> !(s.got[r] in s.threads && Held(s.threads[s.got[r]]) == Some(r))
    ensures !Answered(s, r) ==> Waits(s, r)
  {
    RunKeepsInv(Init(threads, clients), moves);
    if Answered(s, r) {
      var i :| 0 <= i < |s.log| && s.log[i].req == r;
      assert GoneOn(s, s.log[i].req);
    }
  }

  /** In every run a client kept by INIT waits, and once admitted can call again. */
  lemma EarlyCallersWait(threads: set<Tid>, clients: set<nat>, moves: seq<Move>, s: State, r: Req)
    requires Exec(Init(threads, clients), moves) == Some(s) && r in s.early
    ensures Waits(s, r) && r !in s.got
    ensures Apply(s, Admit(r)).clients[r.client] == Ready(r.number + 1)
  {
    RunKeepsInv(Init(threads, clients), moves);
    assert Apart(s, r);
  }

  /** In every run a client whose call has been received is waiting for a thread that has the
      call, for its turn among the callers of INIT, or for nobody, because the call was skipped. */
  lemma EveryCallAccounted(threads: set<Tid>, clients: set<nat>, moves: seq<Move>, s: State, c: nat)
    requires Exec(Init(threads, clients), moves) == Some(s) && c in s.clients
    requires s.clients[c].Calling? && s.clients[c].taken
    ensures Accounted(s, Req(c, s.clients[c].number))
  {
    RunKeepsInv(Init(threads, clients), moves);
    assert Waits(s, Req(c, s.clients[c].number));
  }

  /** A skipped call is never answered: its client waits for ever. */
  lemma SkippedForEver(threads: set<Tid>, clients: set<nat>, moves: seq<Move>, s: State, m: Move, r: Req)
    requires Exec(Init(threads, clients), moves) == Some(s) && r in s.skipped && Enabled(s, m)
    ensures Waits(s, r) && r !in s.got && r !in s.early && !Answered(s, r)
    ensures r in Apply(s, m).skipped && Waits(Apply(s, m), r)
  {
    RunKeepsInv(Init(threads, clients), moves);
    StepKeepsInv(s, m);
    assert Apart(s, r) && Apart(Apply(s, m), r);
  }

  /** Only messages that are neither INIT nor PRODUCER nor CONSUMER let go of a call. */
  lemma {:induction false} OnlySkipLetsGo(s: State, moves: seq<Move>)
    requires Exec(s, moves).Some? && forall m | m in moves :: !m.Skip?
    ensures Exec(s, moves).value.skipped == s.skipped
    decreases |moves|
  {
    if moves != [] { OnlySkipLetsGo(Apply(s, moves[0]), moves[1..]); }
  }
}
