/** The kernel's notification object: a binary flag with a queue of blocked threads.
    Badges are left out, because none of the modelled callers reads them. */
module Notification {
  import opened Common

  datatype Ntfn = Idle | Active | Waiting(queue: seq<Tid>)

  /** The threads blocked on the object, in the order in which they will be woken. */
  function Queue(n: Ntfn): seq<Tid> {
    if n.Waiting? then n.queue else []
  }

  /** A waiting object has somebody in its queue, and nobody twice. */
  ghost predicate Valid(n: Ntfn) {
    && (n.Waiting? ==> n.queue != [])
    && Distinct(Queue(n))
  }

  ghost predicate Distinct(q: seq<Tid>) {
    forall i, j | 0 <= i < j < |q| :: q[i] != q[j]
  }

  /** `seL4_Signal`: wake the head of the queue, or leave the flag set. A flag that is
      already set absorbs the signal. */
  function Signal(n: Ntfn): (r: (Ntfn, Option<Tid>))
    requires Valid(n)
    ensures Valid(r.0)
    ensures r.1.Some? <==> Queue(n) != []
    ensures r.1.Some? ==> Queue(n) == [r.1.value] + Queue(r.0) && r.1.value !in Queue(r.0)
    ensures r.1.Some? ==> !r.0.Active?
    ensures r.1.None? ==> r.0.Active? && Queue(r.0) == []
  {
    match n
    case Idle => (Active, None)
    case Active => (Active, None)
    case Waiting(q) =>
      assert Distinct(q) && forall i | 0 <= i < |q| - 1 :: q[1..][i] == q[i + 1];
      (if |q| == 1 then Idle else Waiting(q[1..]), Some(q[0]))
  }

  /** `seL4_Wait` by `t`: take the flag if it is set, otherwise block at the tail of the
      queue. The second component says whether the thread blocked. */
  function Wait(n: Ntfn, t: Tid): (r: (Ntfn, bool))
    requires Valid(n) && t !in Queue(n)
    ensures Valid(r.0)
    ensures r.1 <==> !n.Active?
    ensures !r.0.Active?
    ensures Queue(r.0) == Queue(n) + (if r.1 then [t] else [])
  {
    match n
    case Active => (Idle, false)
    case Idle => (Waiting([t]), true)
    case Waiting(q) => (Waiting(q + [t]), true)
  }

  lemma HeadIsQueued(n: Ntfn)
    requires Valid(n)
    ensures n.Waiting? ==> n.queue[0] in Queue(n)
  {
  }

  /** A signal takes the woken thread out of the queue and nobody else. */
  lemma SignalLeaves(n: Ntfn)
    requires Valid(n)
    ensures var (n', woken) := Signal(n);
      forall t :: t in Queue(n) <==> (woken == Some(t) || t in Queue(n'))
  {
    var (n', woken) := Signal(n);
    if woken.Some? {
      forall t ensures t in Queue(n) <==> (woken == Some(t) || t in Queue(n')) {
        assert t in [woken.value] + Queue(n') <==> (t in [woken.value] || t in Queue(n'));
      }
    }
  }
}
