/** Greedy allocation of untyped memory: powers of two from the largest down, against an
    allocator that may refuse any request, with `size_t` a 32-bit word. */
module Untypeds {
  import opened Powers

  const WORD: nat := 0x1_0000_0000
  const TOP_BITS: nat := 31       // seL4_WordBits - 1
  const PAGE_BITS: nat := 12      // PAGE_BITS_4K

  /** `vka_object_t`; a failed allocation leaves it zeroed. */
  datatype Object = Object(cptr: nat, sizeBits: nat)

  const ZEROED := Object(0, 0)

  datatype Try = Try(sizeBits: nat, granted: bool)

  /** An allocator answers its k-th request as it likes. */
  type Oracle = (nat, nat) -> bool

  // What the loop computes

  datatype Progress = Progress(taken: nat, sizes: seq<nat>, tries: seq<Try>)

  /** `size_t` addition. */
  function Sum(taken: nat, bits: nat): nat {
    (taken + Pow2(bits)) % WORD
  }

  /** The inner loop: allocate one size until a limit is met or the allocator refuses. */
  function Fill(answer: Oracle, base: nat, bytes: nat, max: nat, bits: nat, p: Progress): (q: Progress)
    decreases max - |p.sizes|
  {
    if |p.sizes| < max && Sum(p.taken, bits) <= bytes then
      var granted := answer(base + |p.tries|, bits);
      var tries := p.tries + [Try(bits, granted)];
      if granted then
        Fill(answer, base, bytes, max, bits,
             Progress(Sum(p.taken, bits), p.sizes + [bits], tries))
      else p.(tries := tries)
    else p
  }

  /** The outer loop, from `bits` down to just above a 4K page. */
  function Sweep(answer: Oracle, base: nat, bytes: nat, max: nat, bits: nat, p: Progress): Progress
    decreases bits, base
  {
    if bits <= PAGE_BITS then p
    else Sweep(answer, base, bytes, max, bits - 1, Fill(answer, base, bytes, max, bits, p))
  }

  function Greedy(answer: Oracle, base: nat, bytes: nat, max: nat): Progress {
    Sweep(answer, base, bytes, max, TOP_BITS, Progress(0, [], []))
  }

  // The loops in place

  /** `tries` records the requests so far; a granted object gets their number as its name, which no
      object had before. */
  class Vka {
    const answer: Oracle
    var tries: seq<Try>
    var live: set<Object>

    constructor (answer: Oracle)
      ensures this.answer == answer && tries == [] && live == {}
    {
      this.answer := answer;
      tries, live := [], {};
    }

    ghost predicate Valid()
      reads this
    {
      forall o | o in live :: 0 < o.cptr <= |tries|
    }

    method AllocUntyped(bits: nat) returns (ok: bool, o: Object)
      requires Valid()
      modifies this
      ensures Valid() && ok == answer(|old(tries)|, bits) && tries == old(tries) + [Try(bits, ok)]
      ensures ok ==> o == Object(|tries|, bits) && o !in old(live) && live == old(live) + {o}
      ensures !ok ==> o == ZEROED && live == old(live)
    {
      ok := answer(|tries|, bits);
      tries := tries + [Try(bits, ok)];
      if ok {
        o := Object(|tries|, bits);
        live := live + {o};
      } else {
        o := ZEROED;
      }
    }

    method Free(o: Object)
      requires Valid()
      modifies this
      ensures Valid() && live == old(live) - {o} && tries == old(tries)
    {
      live := live - {o};
    }
  }

  function Members(objects: seq<Object>): set<Object> {
    set o | o in objects
  }

  /** The allocator and the array as a call finds them. */
  datatype Snapshot = Snapshot(tries: seq<Try>, live: set<Object>, objects: seq<Object>)

  /** The allocator and the array after `p`: the first `|p.sizes|` objects are new and have
      these sizes, they are what is live besides the old, the entry after them may have
      been zeroed, and the rest of the array is as it was. */
  ghost predicate After(s0: Snapshot, p: Progress, s: Snapshot) {
    var n := |p.sizes|;
    && s.tries == s0.tries + p.tries
    && n <= |s.objects| == |s0.objects|
    && (forall i | 0 <= i < n :: s.objects[i].sizeBits == p.sizes[i] && |s0.tries| < s.objects[i].cptr <= |s.tries|)
    && s.live == s0.live + Members(s.objects[..n])
    && (n < |s.objects| ==> s.objects[n] == s0.objects[n] || s.objects[n] == ZEROED)
    && (forall i | n < i < |s.objects| :: s.objects[i] == s0.objects[i])
  }

  lemma Granted(s0: Snapshot, p: Progress, s: Snapshot, bits: nat, sum: nat)
    requires After(s0, p, s) && |p.sizes| < |s.objects|
    ensures var o := Object(|s.tries| + 1, bits);
      After(s0, Progress(sum, p.sizes + [bits], p.tries + [Try(bits, true)]),
            Snapshot(s.tries + [Try(bits, true)], s.live + {o}, s.objects[|p.sizes| := o]))
  {
    var n := |p.sizes|;
    var o := Object(|s.tries| + 1, bits);
    var objects := s.objects[n := o];
    assert objects[..n + 1] == s.objects[..n] + [o];
    assert Members(s.objects[..n] + [o]) == Members(s.objects[..n]) + {o};
  }

  lemma Denied(s0: Snapshot, p: Progress, s: Snapshot, bits: nat)
    requires After(s0, p, s) && |p.sizes| < |s.objects|
    ensures After(s0, p.(tries := p.tries + [Try(bits, false)]),
                  Snapshot(s.tries + [Try(bits, false)], s.live, s.objects[|p.sizes| := ZEROED]))
  {
    assert s.objects[|p.sizes| := ZEROED][..|p.sizes|] == s.objects[..|p.sizes|];
  }

  /** The allocator and the array now. */
  ghost predicate Shows(vka: Vka, untypeds: array<Object>, s: Snapshot)
    reads vka, untypeds
  {
    vka.Valid() && vka.tries == s.tries && vka.live == s.live && untypeds[..] == s.objects
  }

  /** Allocate untyped objects until `bytes` or `max` is reached: the loops of the source
      compute `Greedy` in place. */
  method AllocateUntypeds(vka: Vka, untypeds: array<Object>, bytes: nat, max: nat, ghost s0: Snapshot)
    returns (n: nat, ghost s: Snapshot)
    requires Shows(vka, untypeds, s0) && bytes < WORD && max <= untypeds.Length
    modifies vka, untypeds
    ensures Shows(vka, untypeds, s)
    ensures var p := Greedy(vka.answer, |s0.tries|, bytes, max);
      n == |p.sizes| <= max && After(s0, p, s)
  {
    n, s := 0, s0;
    var taken := 0;
    ghost var p := Progress(0, [], []);
    var bits: nat := TOP_BITS;
    while bits > PAGE_BITS
      invariant n <= max && |p.sizes| == n && p.taken == taken
      invariant Shows(vka, untypeds, s) && After(s0, p, s)
      invariant Greedy(vka.answer, |s0.tries|, bytes, max) == Sweep(vka.answer, |s0.tries|, bytes, max, bits, p)
    {
      n, taken, p, s := FillInPlace(vka, untypeds, bytes, max, bits, n, taken, p, s0, s);
      bits := bits - 1;
    }
  }

  /** The inner loop, starting from the `n0` objects of `p0`. */
  method FillInPlace(vka: Vka, untypeds: array<Object>, bytes: nat, max: nat, bits: nat,
                     n0: nat, taken0: nat, ghost p0: Progress, ghost s0: Snapshot, ghost s1: Snapshot)
    returns (n: nat, taken: nat, ghost p: Progress, ghost s: Snapshot)
    requires max <= untypeds.Length && n0 <= max && |p0.sizes| == n0 && p0.taken == taken0
    requires Shows(vka, untypeds, s1) && After(s0, p0, s1)
    modifies vka, untypeds
    ensures p == Fill(vka.answer, |s0.tries|, bytes, max, bits, p0)
    ensures n <= max && |p.sizes| == n && p.taken == taken
    ensures Shows(vka, untypeds, s) && After(s0, p, s)
  {
    n, taken, p, s := n0, taken0, p0, s1;
    while n < max && Sum(taken, bits) <= bytes
      invariant n <= max && |p.sizes| == n && p.taken == taken
      invariant Shows(vka, untypeds, s) && After(s0, p, s)
      invariant Fill(vka.answer, |s0.tries|, bytes, max, bits, p0) == Fill(vka.answer, |s0.tries|, bytes, max, bits, p)
    {
      ghost var q;
      var ok;
      ok, q, s := TryOne(vka, untypeds, n, bits, Sum(taken, bits), p, s0, s);
      p := q;
      if !ok { break; }
      taken := Sum(taken, bits);
      n := n + 1;
    }
  }

  /** One request of the inner loop: the object goes into the array, or zeroes do. */
  method TryOne(vka: Vka, untypeds: array<Object>, n: nat, bits: nat, sum: nat,
                ghost p: Progress, ghost s0: Snapshot, ghost s: Snapshot)
    returns (ok: bool, ghost q: Progress, ghost s': Snapshot)
    requires n < untypeds.Length && |p.sizes| == n && Shows(vka, untypeds, s) && After(s0, p, s)
    modifies vka, untypeds
    ensures ok == vka.answer(|s0.tries| + |p.tries|, bits)
    ensures q == if ok then Progress(sum, p.sizes + [bits], p.tries + [Try(bits, true)])
                 else p.(tries := p.tries + [Try(bits, false)])
    ensures Shows(vka, untypeds, s') && After(s0, q, s')
  {
    var o;
    ok, o := vka.AllocUntyped(bits);
    untypeds[n] := o;
    if ok {
      Granted(s0, p, s, bits, sum);
      s' := Snapshot(s.tries + [Try(bits, true)], s.live + {o}, s.objects[n := o]);
      q := Progress(sum, p.sizes + [bits], p.tries + [Try(bits, true)]);
    } else {
      Denied(s0, p, s, bits);
      s' := Snapshot(s.tries + [Try(bits, false)], s.live, s.objects[n := o]);
      q := p.(tries := p.tries + [Try(bits, false)]);
    }
  }
}
