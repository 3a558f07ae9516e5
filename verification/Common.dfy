/** Vocabulary shared by the concurrent models: thread names, C integer limits,
    and totals taken over the threads of a state. */
module Common {

  datatype Option<+T> = None | Some(value: T)

  /** A thread name. A model fixes the set of its threads and nothing else about it. */
  type Tid = nat

  const INT_MIN: int := -0x8000_0000
  const INT_MAX: int := 0x7fff_ffff

  /** Two's complement reading of an integer as a C `int`. */
  function WrapInt(x: int): (r: int)
    ensures INT_MIN <= r <= INT_MAX
    ensures INT_MIN <= x <= INT_MAX ==> r == x
    ensures (r - x) % 0x1_0000_0000 == 0
  {
    (x - INT_MIN) % 0x1_0000_0000 + INT_MIN
  }

  function One(b: bool): nat { if b then 1 else 0 }

  /** The threads that stand at a place of a given kind. */
  function Those<P>(pc: map<Tid, P>, kind: P -> bool): set<Tid> {
    set t | t in pc && kind(pc[t])
  }

  /** How many stand there after one thread has moved. */
  lemma ThoseUpdate<P>(pc: map<Tid, P>, t: Tid, to: P, kind: P -> bool)
    requires t in pc
    ensures |Those(pc[t := to], kind)| == |Those(pc, kind)| - One(kind(pc[t])) + One(kind(to))
  {
    var rest := Those(pc, kind) - {t};
    if kind(to) {
      assert Those(pc[t := to], kind) == rest + {t};
    } else {
      assert Those(pc[t := to], kind) == rest;
    }
    if kind(pc[t]) {
      assert Those(pc, kind) == rest + {t};
    } else {
      assert Those(pc, kind) == rest;
    }
  }

  /** Two sets that agree on everything but one thread */
  lemma AllButOne(a: set<Tid>, b: set<Tid>, t: Tid)
    requires a - {t} == b - {t}
    ensures |a| + One(t in b) == |b| + One(t in a)
  {
    WithoutOne(a, t);
    WithoutOne(b, t);
  }

  lemma WithoutOne(a: set<Tid>, t: Tid)
    ensures |a| == |a - {t}| + One(t in a)
  {
    if t in a { assert a == (a - {t}) + {t}; } else { assert a == a - {t}; }
  }

  lemma SomeMember(s: set<Tid>, t: Tid)
    requires t in s
    ensures |s| >= 1
  {
  }

  /** A set of at most one thread has at most one member. */
  lemma AtMostOne(s: set<Tid>)
    requires |s| <= 1
    ensures forall t, u | t in s && u in s :: t == u
  {
    forall t, u | t in s && u in s
      ensures t == u
    {
      assert |s - {t}| == 0;
      assert u !in s - {t};
    }
  }

  lemma {:induction false} FewerMembers(a: set<Tid>, b: set<Tid>)
    requires a <= b
    ensures |a| <= |b|
    decreases a
  {
    if a != {} {
      var t := Pick(a);
      FewerMembers(a - {t}, b - {t});
    }
  }

  lemma {:induction false} SubsetOfSize(s: set<Tid>, n: nat) returns (r: set<Tid>)
    requires n <= |s|
    ensures r <= s && |r| == n
  {
    if n == 0 {
      r := {};
    } else {
      var t := Pick(s);
      r := SubsetOfSize(s - {t}, n - 1);
      r := r + {t};
    }
  }

  /** The sum of the weights of all threads. */
  ghost function Total(weight: map<Tid, nat>): nat
    decreases |weight|
  {
    if weight == map[] then 0
    else
      var t := Pick(weight.Keys);
      weight[t] + Total(weight - {t})
  }

  /** Some thread of a non-empty set, always the same one. */
  ghost function Pick(s: set<Tid>): (t: Tid)
    requires s != {}
    ensures t in s
  {
    var t :| t in s; t
  }

  lemma {:induction false} TotalAt(weight: map<Tid, nat>, t: Tid)
    requires t in weight
    ensures Total(weight) == weight[t] + Total(weight - {t})
    decreases |weight|
  {
    var pick := Pick(weight.Keys);
    if t != pick {
      TotalAt(weight - {pick}, t);
      TotalAt(weight - {t}, pick);
      assert weight - {pick} - {t} == weight - {t} - {pick};
    }
  }

  /** Changing the weight of one thread moves the total by the difference. */
  lemma TotalUpdate(weight: map<Tid, nat>, t: Tid, w: nat)
    requires t in weight
    ensures Total(weight[t := w]) == Total(weight) - weight[t] + w
  {
    TotalAt(weight, t);
    TotalAt(weight[t := w], t);
    assert weight[t := w] - {t} == weight - {t};
  }

  /** A total is at most the number of threads times the largest weight. */
  lemma {:induction false} TotalBound(weight: map<Tid, nat>, most: nat)
    requires forall t | t in weight :: weight[t] <= most
    ensures Total(weight) <= most * |weight|
    decreases |weight|
  {
    if weight != map[] {
      var t := Pick(weight.Keys);
      TotalBound(weight - {t}, most);
      assert (weight - {t}).Keys == weight.Keys - {t};
      OneTimesMore(most, |weight - {t}|);
    }
  }

  lemma OneTimesMore(a: nat, b: nat)
    ensures a * (b + 1) == a * b + a
  {
  }

  /** The weights of all threads, when a thread weighs what its place does. */
  function Weights<P>(pc: map<Tid, P>, weight: P -> nat): map<Tid, nat> {
    map t | t in pc :: weight(pc[t])
  }

  ghost function Weigh<P>(pc: map<Tid, P>, weight: P -> nat): nat {
    Total(Weights(pc, weight))
  }

  lemma WeighUpdate<P>(pc: map<Tid, P>, t: Tid, to: P, weight: P -> nat)
    requires t in pc
    ensures Weigh(pc[t := to], weight) == Weigh(pc, weight) - weight(pc[t]) + weight(to)
  {
    TotalUpdate(Weights(pc, weight), t, weight(to));
    assert Weights(pc[t := to], weight) == Weights(pc, weight)[t := weight(to)];
  }

  /** Two threads moving at once. */
  lemma WeighUpdate2<P>(pc: map<Tid, P>, t: Tid, to: P, u: Tid, to': P, weight: P -> nat)
    requires t in pc && u in pc && t != u
    ensures Weigh(pc[t := to][u := to'], weight)
         == Weigh(pc, weight) - weight(pc[t]) + weight(to) - weight(pc[u]) + weight(to')
  {
    WeighUpdate(pc, t, to, weight);
    WeighUpdate(pc[t := to], u, to', weight);
  }

  lemma WeighBound<P(!new)>(pc: map<Tid, P>, weight: P -> nat, most: nat)
    requires forall p :: weight(p) <= most
    ensures Weigh(pc, weight) <= most * |pc|
  {
    TotalBound(Weights(pc, weight), most);
    assert Weights(pc, weight).Keys == pc.Keys;
    assert |Weights(pc, weight)| == |Weights(pc, weight).Keys| && |pc| == |pc.Keys|;
  }

  /** A number that is lower when `high` is, and otherwise when `low` is, as long as `low` is at
      most `most`: the number high * (most + 1) + low. */
  function Lex(high: nat, low: nat, most: nat): nat {
    if high == 0 then low else most + 1 + Lex(high - 1, low, most)
  }

  lemma {:induction false} LexValue(high: nat, low: nat, most: nat)
    ensures Lex(high, low, most) == high * (most + 1) + low
  {
    if high > 0 { LexValue(high - 1, low, most); }
  }

  lemma {:induction false} LexLess(high': nat, low': nat, high: nat, low: nat, most: nat)
    requires (high' < high && low' <= most) || (high' == high && low' < low)
    ensures Lex(high', low', most) < Lex(high, low, most)
    decreases high'
  {
    if high' > 0 {
      LexLess(high' - 1, low', high - 1, low, most);
    }
  }

  lemma {:induction false} LexBound(high': nat, low': nat, high: nat, low: nat, most: nat)
    requires high' <= high && low' <= low
    ensures Lex(high', low', most) <= Lex(high, low, most)
    decreases high
  {
    if high' > 0 {
      LexBound(high' - 1, low', high - 1, low, most);
    } else if high > 0 {
      LexBound(0, low', high - 1, low, most);
    }
  }
}
