/** What the greedy loop achieves against every allocator, and against one that never refuses. */
module UntypedsLaws {
  import opened Powers
  import opened Untypeds

  const HALF: nat := 0x8000_0000

  /** The bytes of objects of these sizes, as a number and not as a word. */
  function Bytes(sizes: seq<nat>): nat {
    if sizes == [] then 0 else Bytes(sizes[..|sizes| - 1]) + Pow2(sizes[|sizes| - 1])
  }

  lemma BytesPush(sizes: seq<nat>, bits: nat)
    ensures Bytes(sizes + [bits]) == Bytes(sizes) + Pow2(bits)
  {
    assert (sizes + [bits])[..|sizes|] == sizes;
  }

  lemma Pow2Top()
    ensures Pow2(TOP_BITS) == HALF
  {
    assert Pow2(10) == 1024;
    assert Pow2(20) == 1024 * 1024;
    assert Pow2(31) == HALF;
  }

  lemma {:induction false} Pow2Most(bits: nat)
    requires bits <= TOP_BITS
    ensures Pow2(bits) <= HALF
    decreases TOP_BITS - bits
  {
    if bits == TOP_BITS { Pow2Top(); } else { Pow2Most(bits + 1); }
  }

  // What every limit keeps

  /** The bytes an allocator has handed out in answer to these requests */
  function Given(tries: seq<Try>): nat {
    if tries == [] then 0
    else Given(tries[..|tries| - 1]) + if tries[|tries| - 1].granted then Pow2(tries[|tries| - 1].sizeBits) else 0
  }

  lemma GivenPush(tries: seq<Try>, t: Try)
    ensures Given(tries + [t]) == Given(tries) + if t.granted then Pow2(t.sizeBits) else 0
  {
    assert (tries + [t])[..|tries|] == tries;
  }

  /** The sum the loop keeps is the bytes taken modulo the word, and below half the address
      space it is the bytes taken. */
  ghost predicate Sound(p: Progress, bytes: nat, max: nat, bits: nat) {
    && |p.sizes| <= max && Given(p.tries) == Bytes(p.sizes)
    && p.taken == Bytes(p.sizes) % WORD <= bytes
    && (bytes < HALF ==> p.taken == Bytes(p.sizes))
    && (forall i | 0 <= i < |p.sizes| :: bits <= p.sizes[i] <= TOP_BITS)
    && (forall i, j | 0 <= i < j < |p.sizes| :: p.sizes[i] >= p.sizes[j])
  }

  /** Below half the address space the sum does not wrap. */
  lemma SumExact(taken: nat, bits: nat)
    requires taken < HALF && bits <= TOP_BITS
    ensures Sum(taken, bits) == taken + Pow2(bits)
  {
    Pow2Most(bits);
  }

  lemma SumWraps(total: nat, bits: nat)
    ensures Sum(total % WORD, bits) == (total + Pow2(bits)) % WORD
  {
    WrapTwice(total, Pow2(bits));
  }

  lemma WrapTwice(a: nat, b: nat)
    ensures (a % WORD + b) % WORD == (a + b) % WORD
  {
    var rest := a % WORD + b;
    assert a == WORD * (a / WORD) + a % WORD;
    assert rest == WORD * (rest / WORD) + rest % WORD;
    DivModOf(a + b, WORD, a / WORD + rest / WORD, rest % WORD);
  }

  lemma PushSound(p: Progress, bytes: nat, max: nat, bits: nat)
    requires Sound(p, bytes, max, bits) && |p.sizes| < max && bits <= TOP_BITS && Sum(p.taken, bits) <= bytes
    ensures Sound(Progress(Sum(p.taken, bits), p.sizes + [bits], p.tries + [Try(bits, true)]), bytes, max, bits)
  {
    BytesPush(p.sizes, bits);
    GivenPush(p.tries, Try(bits, true));
    SumWraps(Bytes(p.sizes), bits);
    if bytes < HALF { SumExact(p.taken, bits); }
  }

  lemma DenySound(p: Progress, bytes: nat, max: nat, bits: nat)
    requires Sound(p, bytes, max, bits)
    ensures Sound(p.(tries := p.tries + [Try(bits, false)]), bytes, max, bits)
  {
    GivenPush(p.tries, Try(bits, false));
  }

  lemma {:induction false} FillSound(answer: Oracle, base: nat, bytes: nat, max: nat, bits: nat, p: Progress)
    requires bits <= TOP_BITS && Sound(p, bytes, max, bits)
    ensures Sound(Fill(answer, base, bytes, max, bits, p), bytes, max, bits)
    decreases max - |p.sizes|
  {
    if |p.sizes| < max && Sum(p.taken, bits) <= bytes {
      if answer(base + |p.tries|, bits) {
        PushSound(p, bytes, max, bits);
        FillSound(answer, base, bytes, max, bits,
                  Progress(Sum(p.taken, bits), p.sizes + [bits], p.tries + [Try(bits, true)]));
      } else {
        DenySound(p, bytes, max, bits);
      }
    }
  }

  lemma {:induction false} SweepSound(answer: Oracle, base: nat, bytes: nat, max: nat, bits: nat, p: Progress)
    requires PAGE_BITS < bits <= TOP_BITS && Sound(p, bytes, max, bits)
    ensures Sound(Sweep(answer, base, bytes, max, bits, p), bytes, max, PAGE_BITS + 1)
    decreases bits, base
  {
    FillSound(answer, base, bytes, max, bits, p);
    if bits == PAGE_BITS + 1 {
      assert Sweep(answer, base, bytes, max, bits, p) == Fill(answer, base, bytes, max, bits, p);
    } else {
      SweepSound(answer, base, bytes, max, bits - 1, Fill(answer, base, bytes, max, bits, p));
    }
  }

  // When it stops

  predicate LastRefusal(tries: seq<Try>, bits: nat, i: nat)
    requires i < |tries|
  {
    tries[i] == Try(bits, false) && forall j | i < j < |tries| :: tries[j].sizeBits != bits
  }

  /** The last try of this size was refused. */
  ghost predicate Refused(tries: seq<Try>, bits: nat) {
    exists i :: 0 <= i < |tries| && LastRefusal(tries, bits, i)
  }

  /** Only this size is tried, and the loop ends for one of three reasons. */
  lemma {:induction false} FillExit(answer: Oracle, base: nat, bytes: nat, max: nat, bits: nat, p: Progress)
    ensures var q := Fill(answer, base, bytes, max, bits, p);
      && |p.tries| <= |q.tries| && q.tries[..|p.tries|] == p.tries
      && (forall i | |p.tries| <= i < |q.tries| :: q.tries[i].sizeBits == bits)
      && |p.sizes| <= |q.sizes|
      && (|q.sizes| >= max || Sum(q.taken, bits) > bytes || Refused(q.tries, bits))
    decreases max - |p.sizes|
  {
    if |p.sizes| < max && Sum(p.taken, bits) <= bytes {
      var granted := answer(base + |p.tries|, bits);
      var tries := p.tries + [Try(bits, granted)];
      if granted {
        FillExit(answer, base, bytes, max, bits, Progress(Sum(p.taken, bits), p.sizes + [bits], tries));
        assert tries[..|p.tries|] == p.tries;
      } else {
        assert LastRefusal(tries, bits, |p.tries|);
      }
    }
  }

  lemma RefusedStays(tries: seq<Try>, more: seq<Try>, bits: nat)
    requires |tries| <= |more| && more[..|tries|] == tries && Refused(tries, bits)
    requires forall i | |tries| <= i < |more| :: more[i].sizeBits != bits
    ensures Refused(more, bits)
  {
    var i :| 0 <= i < |tries| && LastRefusal(tries, bits, i);
    assert more[i] == tries[i];
    assert forall j | i < j < |tries| :: more[j] == tries[j];
    assert LastRefusal(more, bits, i);
  }

  /** Each size from `bits` up would exceed the bytes or was refused when last tried. */
  ghost predicate Exhausted(p: Progress, bytes: nat, bits: nat) {
    forall b | bits <= b <= TOP_BITS :: Bytes(p.sizes) + Pow2(b) > bytes || Refused(p.tries, b)
  }

  lemma {:induction false} FillGrows(answer: Oracle, base: nat, bytes: nat, max: nat, bits: nat, p: Progress)
    ensures Bytes(p.sizes) <= Bytes(Fill(answer, base, bytes, max, bits, p).sizes)
    decreases max - |p.sizes|
  {
    if |p.sizes| < max && Sum(p.taken, bits) <= bytes && answer(base + |p.tries|, bits) {
      BytesPush(p.sizes, bits);
      FillGrows(answer, base, bytes, max, bits,
                Progress(Sum(p.taken, bits), p.sizes + [bits], p.tries + [Try(bits, true)]));
    }
  }

  /** What the loop finds too much, wrapped, is too much in bytes. */
  lemma TooMuch(total: nat, bits: nat, bytes: nat)
    requires Sum(total % WORD, bits) > bytes
    ensures total + Pow2(bits) > bytes
  {
    SumWraps(total, bits);
  }

  lemma FillExhausts(answer: Oracle, base: nat, bytes: nat, max: nat, bits: nat, p: Progress)
    requires bits <= TOP_BITS && Sound(p, bytes, max, bits) && Exhausted(p, bytes, bits + 1)
    ensures var q := Fill(answer, base, bytes, max, bits, p); |q.sizes| < max ==> Exhausted(q, bytes, bits)
  {
    var q := Fill(answer, base, bytes, max, bits, p);
    FillExit(answer, base, bytes, max, bits, p);
    FillGrows(answer, base, bytes, max, bits, p);
    FillSound(answer, base, bytes, max, bits, p);
    if |q.sizes| < max {
      forall b | bits <= b <= TOP_BITS
        ensures Bytes(q.sizes) + Pow2(b) > bytes || Refused(q.tries, b)
      {
        if b > bits {
          if Refused(p.tries, b) { RefusedStays(p.tries, q.tries, b); }
        } else if !Refused(q.tries, bits) {
          TooMuch(Bytes(q.sizes), bits, bytes);
        }
      }
    }
  }

  lemma {:induction false} SweepExhausts(answer: Oracle, base: nat, bytes: nat, max: nat, bits: nat, p: Progress)
    requires PAGE_BITS <= bits <= TOP_BITS && Sound(p, bytes, max, bits)
    requires |p.sizes| < max ==> Exhausted(p, bytes, bits + 1)
    ensures var q := Sweep(answer, base, bytes, max, bits, p);
      |p.sizes| <= |q.sizes| && (|q.sizes| < max ==> Exhausted(q, bytes, PAGE_BITS + 1))
    decreases bits, base
  {
    if bits > PAGE_BITS {
      var q := Fill(answer, base, bytes, max, bits, p);
      FillSound(answer, base, bytes, max, bits, p);
      FillExit(answer, base, bytes, max, bits, p);
      if |p.sizes| < max { FillExhausts(answer, base, bytes, max, bits, p); }
      SweepExhausts(answer, base, bytes, max, bits - 1, q);
    }
  }

  lemma GreedySound(answer: Oracle, base: nat, bytes: nat, max: nat)
    ensures Sound(Greedy(answer, base, bytes, max), bytes, max, PAGE_BITS + 1)
  {
    SweepSound(answer, base, bytes, max, TOP_BITS, Progress(0, [], []));
  }

  lemma KeptIff(total: nat, bytes: nat)
    requires total % WORD <= bytes < WORD
    ensures total <= bytes <==> total < WORD
  {
  }

  lemma AllExhausted(answer: Oracle, base: nat, bytes: nat, max: nat)
    ensures var p := Greedy(answer, base, bytes, max); |p.sizes| < max ==> Exhausted(p, bytes, PAGE_BITS + 1)
  {
    SweepExhausts(answer, base, bytes, max, TOP_BITS, Progress(0, [], []));
  }

  /** For every allocator and every limit: at most `max` objects, each larger than a page, in
      non-increasing order of size; if the count limit was not reached, no size that fits was
      left untried since its last refusal; and the limit is kept exactly when fewer bytes than
      the address space has were taken, as they are below half of it. */
  lemma GreedyFits(answer: Oracle, base: nat, bytes: nat, max: nat)
    requires bytes < WORD
    ensures var p := Greedy(answer, base, bytes, max);
      && |p.sizes| <= max
      && (forall i | 0 <= i < |p.sizes| :: PAGE_BITS < p.sizes[i] <= TOP_BITS)
      && (forall i, j | 0 <= i < j < |p.sizes| :: p.sizes[i] >= p.sizes[j])
      && (|p.sizes| < max ==> forall b | PAGE_BITS < b <= TOP_BITS ::
            Bytes(p.sizes) + Pow2(b) > bytes || Refused(p.tries, b))
      && (Bytes(p.sizes) <= bytes <==> Bytes(p.sizes) < WORD)
      && (bytes < HALF ==> Bytes(p.sizes) <= bytes)
  {
    GreedySound(answer, base, bytes, max);
    AllExhausted(answer, base, bytes, max);
    KeptIff(Bytes(Greedy(answer, base, bytes, max).sizes), bytes);
  }

  /** So an allocator that hands out less than the address space in the call keeps every limit. */
  lemma SupplyKeepsLimit(answer: Oracle, base: nat, bytes: nat, max: nat)
    requires bytes < WORD && Given(Greedy(answer, base, bytes, max).tries) < WORD
    ensures Bytes(Greedy(answer, base, bytes, max).sizes) <= bytes
  {
    GreedySound(answer, base, bytes, max);
    GreedyFits(answer, base, bytes, max);
  }

  // From half the address space on, the sum can wrap

  /** Grants two requests and refuses all others. */
  function Two(base: nat): Oracle { (k: nat, _) => k < base + 2 }

  lemma {:induction false} SweepRefused(base: nat, bytes: nat, max: nat, bits: nat, p: Progress)
    requires |p.tries| >= 2
    ensures Sweep(Two(base), base, bytes, max, bits, p).sizes == p.sizes
    decreases bits, base
  {
    if bits > PAGE_BITS {
      var q := Fill(Two(base), base, bytes, max, bits, p);
      SweepRefused(base, bytes, max, bits - 1, q);
    }
  }

  /** Two halves of the address space are taken, and their sum is 0. */
  lemma Overshoots(base: nat, bytes: nat, max: nat)
    requires HALF <= bytes < WORD && max >= 2
    ensures var p := Greedy(Two(base), base, bytes, max);
      Bytes(p.sizes) == Given(p.tries) == WORD > bytes
  {
    var none, two := Progress(0, [], []), Two(base);
    var yes := Try(TOP_BITS, true);
    Pow2Top();
    var one := Progress(HALF, [TOP_BITS], [yes]);
    var both := Progress(0, [TOP_BITS, TOP_BITS], [yes, yes]);
    assert [] + [TOP_BITS] == [TOP_BITS] && [] + [yes] == [yes];
    assert [TOP_BITS] + [TOP_BITS] == [TOP_BITS, TOP_BITS] && [yes] + [yes] == [yes, yes];
    assert Fill(two, base, bytes, max, TOP_BITS, none) == Fill(two, base, bytes, max, TOP_BITS, one);
    assert Fill(two, base, bytes, max, TOP_BITS, one) == Fill(two, base, bytes, max, TOP_BITS, both);
    var q := Fill(two, base, bytes, max, TOP_BITS, both);
    assert q.sizes == both.sizes && |q.tries| >= 2;
    SweepRefused(base, bytes, max, TOP_BITS - 1, q);
    BytesPush([], TOP_BITS);
    BytesPush([TOP_BITS], TOP_BITS);
    GreedySound(two, base, bytes, max);
  }

  /** One object is at most half the address space. */
  lemma OneObject(sizes: seq<nat>)
    requires |sizes| <= 1 && forall i | 0 <= i < |sizes| :: sizes[i] <= TOP_BITS
    ensures Bytes(sizes) < WORD
  {
    if sizes != [] {
      assert sizes[..0] == [];
      Pow2Most(sizes[0]);
    }
  }

  /** With allocators of so much memory the byte limit is kept, whatever they do, exactly below
      half the address space, or for one object, or when they have less than the address space. */
  lemma WithinSupplyIff(bytes: nat, max: nat, supply: nat)
    requires bytes < WORD
    ensures (forall answer: Oracle, base: nat | Given(Greedy(answer, base, bytes, max).tries) <= supply ::
               Bytes(Greedy(answer, base, bytes, max).sizes) <= bytes)
            <==> bytes < HALF || max <= 1 || supply < WORD
  {
    if bytes < HALF || max <= 1 || supply < WORD {
      forall answer: Oracle, base: nat | Given(Greedy(answer, base, bytes, max).tries) <= supply
        ensures Bytes(Greedy(answer, base, bytes, max).sizes) <= bytes
      {
        GreedyFits(answer, base, bytes, max);
        GreedySound(answer, base, bytes, max);
        if max <= 1 { OneObject(Greedy(answer, base, bytes, max).sizes); }
      }
    } else {
      Overshoots(0, bytes, max);
    }
  }

  /** With no bound on what an allocator has, the last way out is gone. */
  lemma WithinBytesIff(bytes: nat, max: nat)
    requires bytes < WORD
    ensures (forall answer: Oracle, base: nat :: Bytes(Greedy(answer, base, bytes, max).sizes) <= bytes)
            <==> bytes < HALF || max <= 1
  {
    if bytes < HALF || max <= 1 {
      forall answer: Oracle, base: nat
        ensures Bytes(Greedy(answer, base, bytes, max).sizes) <= bytes
      {
        GreedyFits(answer, base, bytes, max);
        if max <= 1 { OneObject(Greedy(answer, base, bytes, max).sizes); }
      }
    } else {
      Overshoots(0, bytes, max);
    }
  }

  /** With UINT_MAX as the limit the limit never stops the loop: short of `max` objects,
      every size was refused when last tried. */
  lemma {:induction false} UnlimitedSweep(answer: Oracle, base: nat, max: nat, bits: nat, p: Progress)
    requires PAGE_BITS <= bits <= TOP_BITS
    requires |p.sizes| < max ==> forall b | bits < b <= TOP_BITS :: Refused(p.tries, b)
    ensures var q := Sweep(answer, base, WORD - 1, max, bits, p);
      |p.sizes| <= |q.sizes| && (|q.sizes| < max ==> forall b | PAGE_BITS < b <= TOP_BITS :: Refused(q.tries, b))
    decreases bits, base
  {
    if bits > PAGE_BITS {
      var q := Fill(answer, base, WORD - 1, max, bits, p);
      FillExit(answer, base, WORD - 1, max, bits, p);
      if |q.sizes| < max {
        forall b | bits - 1 < b <= TOP_BITS
          ensures Refused(q.tries, b)
        {
          if b > bits { RefusedStays(p.tries, q.tries, b); }
        }
      }
      UnlimitedSweep(answer, base, max, bits - 1, q);
    }
  }

  // An allocator that never refuses

  predicate BitSet(bytes: nat, bits: nat) {
    bytes / Pow2(bits) % 2 == 1
  }

  /** The positions of the set bits from `bits` down to just above a page. */
  function BitsDown(bytes: nat, bits: nat): seq<nat>
    decreases bits, bytes
  {
    if bits <= PAGE_BITS then []
    else (if BitSet(bytes, bits) then [bits] else []) + BitsDown(bytes, bits - 1)
  }

  /** A bit is set when the remainder of the next power reaches it. */
  lemma BitAndRest(bytes: nat, bits: nat)
    ensures var m := Pow2(bits); var rest := bytes % (2 * m);
      && (BitSet(bytes, bits) <==> rest >= m)
      && bytes % m == if rest >= m then rest - m else rest
  {
    HalfMod(bytes, Pow2(bits));
  }

  lemma FillTakesBit(base: nat, bytes: nat, max: nat, bits: nat, p: Progress)
    requires bytes < HALF && bits <= TOP_BITS
    requires p.taken == bytes - bytes % Pow2(bits + 1)
    requires BitSet(bytes, bits) ==> |p.sizes| < max
    ensures var q := Fill((_, _) => true, base, bytes, max, bits, p);
      && q.sizes == p.sizes + (if BitSet(bytes, bits) then [bits] else [])
      && q.taken == bytes - bytes % Pow2(bits)
  {
    BitAndRest(bytes, bits);
    SumExact(p.taken, bits);
    if BitSet(bytes, bits) {
      SumExact(p.taken + Pow2(bits), bits);
    }
  }

  lemma {:induction false} SweepTakesBits(base: nat, bytes: nat, max: nat, bits: nat, p: Progress)
    requires bytes < HALF && PAGE_BITS <= bits <= TOP_BITS
    requires p.taken == bytes - bytes % Pow2(bits + 1)
    requires |p.sizes| + |BitsDown(bytes, bits)| <= max
    ensures Sweep((_, _) => true, base, bytes, max, bits, p).sizes == p.sizes + BitsDown(bytes, bits)
    ensures Sweep((_, _) => true, base, bytes, max, bits, p).taken == bytes - bytes % Pow2(PAGE_BITS + 1)
    decreases bits, base
  {
    if bits > PAGE_BITS {
      FillTakesBit(base, bytes, max, bits, p);
      SweepTakesBits(base, bytes, max, bits - 1, Fill((_, _) => true, base, bytes, max, bits, p));
    }
  }

  /** An allocator that never refuses, with room for enough objects: one object per set bit
      above the page bits, the largest first, and everything but the remainder of 2^13. */
  lemma GreedyTakesSetBits(base: nat, bytes: nat, max: nat)
    requires bytes < HALF && |BitsDown(bytes, TOP_BITS)| <= max
    ensures var p := Greedy((_, _) => true, base, bytes, max);
      && p.sizes == BitsDown(bytes, TOP_BITS)
      && Bytes(p.sizes) == bytes - bytes % 0x2000
  {
    var none := Progress(0, [], []);
    Pow2Top();
    assert Pow2(TOP_BITS + 1) == WORD;
    assert Pow2(PAGE_BITS + 1) == 0x2000;
    SweepTakesBits(base, bytes, max, TOP_BITS, none);
    assert [] + BitsDown(bytes, TOP_BITS) == BitsDown(bytes, TOP_BITS);
    SweepSound((_, _) => true, base, bytes, max, TOP_BITS, none);
  }
}
