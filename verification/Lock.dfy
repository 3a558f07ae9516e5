/** The abstract lock: at most one owner, who alone may release it. */
module Lock {
  import opened Common

  /** What one step of an implementation amounts to. */
  datatype Event = Nothing | Acquire(t: Tid) | Release(t: Tid)

  predicate Allowed(owner: Option<Tid>, e: Event) {
    match e
    case Nothing => true
    case Acquire(_) => owner.None?
    case Release(t) => owner == Some(t)
  }

  function After(owner: Option<Tid>, e: Event): Option<Tid> {
    match e
    case Nothing => owner
    case Acquire(t) => Some(t)
    case Release(_) => None
  }

  /** A history the abstract lock can produce from a given owner. */
  predicate Legal(owner: Option<Tid>, events: seq<Event>)
    decreases |events|
  {
    events == [] || (Allowed(owner, events[0]) && Legal(After(owner, events[0]), events[1..]))
  }

  function Final(owner: Option<Tid>, events: seq<Event>): Option<Tid>
    decreases |events|
  {
    if events == [] then owner else Final(After(owner, events[0]), events[1..])
  }
}
