/** Measuring more events than the processor has counters, one chunk of events after another. */
module Counters {
  import opened Powers
  import opened Words

  type Event = nat

  /** Words of four bytes in an address space of 2^32 bytes */
  const MAX_WORDS: nat := 0x4000_0000

  function WrapWord(x: nat): nat { x % 0x1_0000_0000 }

  function Chunks(n: nat, events: nat): nat
    requires n > 0
  {
    events / n + if events % n == 0 then 0 else 1
  }

  /** Number i of a chunk is used: it has an event. */
  predicate Used(n: nat, events: nat, chunk: nat, i: nat) { i < n && chunk * n + i < events }

  predicate UsedMask(mask: Word, n: nat, events: nat, chunk: nat) {
    forall i | 0 <= i < BITS :: mask[i] <==> Used(n, events, chunk, i)
  }

  // Which event is where

  lemma ChunkExists(n: nat, events: nat, chunk: nat)
    requires n > 0
    ensures chunk < Chunks(n, events) <==> chunk * n < events
  {
    var q, r := events / n, events % n;
    assert events == n * q + r;
    assert n * (chunk - q) == chunk * n - n * q;
    Multiple(n, chunk - q);
  }

  /** Each event has one place, a chunk and a counter, and that chunk is run. */
  lemma OnePlace(n: nat, events: nat, e: nat, chunk: nat, i: nat)
    requires n > 0 && i < n && e < events
    ensures chunk * n + i == e <==> chunk == e / n && i == e % n
    ensures e / n < Chunks(n, events) && Used(n, events, e / n, e % n)
  {
    assert e == (e / n) * n + e % n;
    ChunkExists(n, events, e / n);
    if chunk * n + i == e { DivModOf(e, n, chunk, i); }
  }

  // The hardware

  class Pmu {
    const n: nat
    const p6: bool
    var selected: seq<Event>
    var enabled: seq<bool>
    var counts: seq<nat>

    predicate Valid()
      reads this
    {
      && 1 <= n <= BITS && (p6 ==> n == 2)
      && |selected| == |enabled| == |counts| == n
    }

    constructor (n: nat, p6: bool)
      requires 1 <= n <= BITS && (p6 ==> n == 2)
      ensures Valid() && this.n == n && this.p6 == p6
    {
      this.n, this.p6 := n, p6;
      selected, enabled, counts := seq(n, _ => 0), seq(n, _ => false), seq(n, _ => 0);
    }

    /** On a P6 one flag is for both counters. */
    predicate Counting(c: nat)
      requires Valid() && c < n
      reads this
    {
      if p6 then enabled[0] else enabled[c]
    }

    /** A mask of all ones stands for every counter. */
    function Meant(mask: Word): Word {
      if mask == Not(Zeros(BITS)) then seq(BITS, i => i < n) else mask
    }

    /** The asserts of start and stop */
    predicate Accepts(mask: Word)
      requires Valid()
      reads this
    {
      (forall i | n <= i < BITS :: !Meant(mask)[i]) && (p6 ==> Meant(mask) == Mask(2))
    }

    method SetCountEvent(c: nat, e: Event)
      requires Valid() && c < n
      modifies this
      ensures Valid() && counts == old(counts)
      ensures selected == old(selected)[c := e] && enabled == old(enabled)[c := false]
    {
      selected, enabled := selected[c := e], enabled[c := false];
    }

    method Reset()
      requires Valid()
      modifies this
      ensures Valid() && selected == old(selected) && enabled == old(enabled)
      ensures forall c | 0 <= c < n :: counts[c] == 0
    {
      var i := 0;
      while i < n
        invariant i <= n && Valid() && selected == old(selected) && enabled == old(enabled)
        invariant forall c | 0 <= c < i :: counts[c] == 0
      {
        counts := counts[i := 0];
        i := i + 1;
      }
    }

    /** Sets the enable flags of a mask one by one, and clears the counters when it starts them. */
    method Switch(mask: Word, on: bool) returns (ok: bool)
      requires Valid()
      modifies this
      ensures Valid() && selected == old(selected)
      ensures ok == Accepts(mask) && (mask == Not(Zeros(BITS)) ==> ok)
      ensures !ok ==> enabled == old(enabled) && counts == old(counts)
      ensures ok ==> forall c | 0 <= c < n && mask[c] :: Counting(c) == on
      ensures ok ==> forall c | 0 <= c < n ::
        counts[c] == if on && (if p6 then c == 0 else mask[c]) then 0 else old(counts)[c]
      ensures !p6 ==> forall c | 0 <= c < n && !mask[c] :: enabled[c] == old(enabled)[c]
    {
      ok := Accepts(mask);
      assert mask == Not(Zeros(BITS)) && p6 ==> Meant(mask) == Mask(2);
      if !ok { return; }
      var flags: Word := if p6 then Single(0) else Meant(mask);
      assert forall i | 0 <= i < n :: mask[i] == Meant(mask)[i];
      var rest: Word, c: nat := flags, 0;
      while rest != Zeros(BITS)
        invariant Valid() && c <= BITS && selected == old(selected)
        invariant forall i | 0 <= i < BITS :: rest[i] == (c <= i && flags[i])
        invariant forall i | 0 <= i < n && i < c && flags[i] :: enabled[i] == on
        invariant forall i | 0 <= i < n && !flags[i] :: enabled[i] == old(enabled)[i]
        invariant forall i | 0 <= i < n :: counts[i] == if on && i < c && flags[i] then 0 else old(counts)[i]
        decreases BITS - c
      {
        assert c < BITS by { assert c == BITS ==> rest == Zeros(BITS); }
        if rest[c] {
          assert c < n;
          rest := And(rest, Not(Single(c)));
          enabled := enabled[c := on];
          if on { counts := counts[c := 0]; }
        }
        c := c + 1;
      }
      assert forall i | 0 <= i < n && flags[i] :: enabled[i] == on && i < c by {
        forall i | 0 <= i < n && flags[i] ensures enabled[i] == on && i < c { assert !rest[i]; }
      }
    }

    /** The measured program: whatever counts adds up the occurrences of its event. */
    method Work(occurrences: Event -> nat)
      requires Valid()
      modifies this
      ensures Valid() && selected == old(selected) && enabled == old(enabled)
      ensures forall c | 0 <= c < n ::
        counts[c] == old(counts)[c] + if Counting(c) then occurrences(selected[c]) else 0
    {
      var before := counts;
      counts := seq(n, c requires 0 <= c < n && Valid() && |before| == n reads this =>
        before[c] + if Counting(c) then occurrences(selected[c]) else 0);
    }
  }

  // The library

  /** Configures the counters of a chunk, and reports what the asserts of start make of it. */
  method EnableCounters(pmu: Pmu, events: array<Event>, chunk: nat) returns (mask: Word, ok: bool)
    requires pmu.Valid() && events.Length <= MAX_WORDS && chunk < Chunks(pmu.n, events.Length)
    modifies pmu
    ensures pmu.Valid() && UsedMask(mask, pmu.n, events.Length, chunk)
    ensures ok == pmu.Accepts(mask)
    ensures forall i | 0 <= i < pmu.n && mask[i] :: chunk * pmu.n + i < events.Length
    ensures forall i | 0 <= i < pmu.n && mask[i] :: pmu.selected[i] == events[chunk * pmu.n + i]
    ensures forall i | 0 <= i < pmu.n && mask[i] && ok :: pmu.Counting(i) && pmu.counts[i] == 0
    ensures !pmu.p6 ==> Untouched(pmu, mask, old(pmu.enabled))
  {
    ChunkExists(pmu.n, events.Length, chunk);
    var count;
    mask, count := Configure(pmu, events, chunk * pmu.n);
    forall j | 0 <= j < BITS ensures mask[j] <==> Used(pmu.n, events.Length, chunk, j) {}
    pmu.Reset();
    ok := pmu.Switch(mask, true);
  }

  /** The loop over the counters, for the events from `base` on */
  method Configure(pmu: Pmu, events: array<Event>, base: nat) returns (mask: Word, i: nat)
    requires pmu.Valid() && base < events.Length <= MAX_WORDS
    modifies pmu
    ensures pmu.Valid() && i <= pmu.n && base + i <= events.Length
    ensures i == pmu.n || base + i == events.Length
    ensures forall j | 0 <= j < BITS :: mask[j] <==> j < i
    ensures forall j | 0 <= j < i :: pmu.selected[j] == events[base + j]
    ensures forall j | i <= j < pmu.n :: pmu.enabled[j] == old(pmu.enabled)[j]
  {
    mask := Zeros(BITS);
    i := 0;
    while i < pmu.n
      invariant i <= pmu.n && base + i <= events.Length && pmu.Valid()
      invariant forall j | 0 <= j < BITS :: mask[j] <==> j < i
      invariant forall j | 0 <= j < i :: pmu.selected[j] == events[base + j]
      invariant forall j | i <= j < pmu.n :: pmu.enabled[j] == old(pmu.enabled)[j]
    {
      var counter := WrapWord(base + i);
      if counter >= events.Length { break; }
      pmu.SetCountEvent(i, events[counter]);
      mask := Or(mask, Single(i));
      i := i + 1;
    }
  }

  /** A word with `c` bits shifted out */
  function Shifted(w: Word, c: nat): Word
    requires c <= BITS
  {
    w[c..] + Zeros(c)
  }

  lemma ShiftedNext(w: Word, c: nat)
    requires c < BITS
    ensures Shr(Shifted(w, c), 1) == Shifted(w, c + 1) && Shifted(w, c)[0] == w[c]
  {
  }

  lemma ShiftedAll(w: Word, c: nat)
    requires c <= BITS
    ensures Shifted(w, c) == Zeros(BITS) <==> forall i | c <= i < BITS :: !w[i]
  {
    if Shifted(w, c) == Zeros(BITS) {
      forall i | c <= i < BITS ensures !w[i] { assert w[i] == Shifted(w, c)[i - c]; }
    }
  }

  /** Reads the counters of the mask into the results from `base` on. */
  method GetCounters(pmu: Pmu, mask: Word, results: array<nat>, base: nat)
    requires pmu.Valid()
    requires forall i | 0 <= i < BITS && mask[i] :: i < pmu.n && base + i < results.Length
    modifies results
    ensures forall e | 0 <= e < results.Length ::
      results[e] == if base <= e < base + BITS && mask[e - base] then pmu.counts[e - base] else old(results[e])
  {
    var rest: Word, counter: nat := mask, 0;
    assert rest == Shifted(mask, 0);
    while rest != Zeros(BITS)
      invariant counter <= BITS && rest == Shifted(mask, counter)
      invariant forall e | 0 <= e < results.Length ::
        results[e] == if base <= e < base + counter && mask[e - base] then pmu.counts[e - base] else old(results[e])
      decreases BITS - counter
    {
      ShiftedAll(mask, counter);
      ShiftedNext(mask, counter);
      if rest[0] {
        results[base + counter] := pmu.counts[counter];
      }
      rest := Shr(rest, 1);
      counter := counter + 1;
    }
    ShiftedAll(mask, counter);
  }

  predicate Stopped(pmu: Pmu, mask: Word)
    requires pmu.Valid()
    reads pmu
  {
    forall c | 0 <= c < pmu.n && mask[c] :: !pmu.Counting(c)
  }

  predicate Untouched(pmu: Pmu, mask: Word, enabled: seq<bool>)
    requires pmu.Valid() && |enabled| == pmu.n
    reads pmu
  {
    forall c | 0 <= c < pmu.n && !mask[c] :: pmu.enabled[c] == enabled[c]
  }

  method ReadAndStopCounters(pmu: Pmu, mask: Word, chunk: nat, results: array<nat>) returns (ok: bool)
    requires pmu.Valid()
    requires forall i | 0 <= i < BITS && mask[i] :: i < pmu.n && chunk * pmu.n + i < results.Length
    modifies pmu, results
    ensures pmu.Valid() && ok == pmu.Accepts(mask)
    ensures ok ==> Stopped(pmu, mask) && (!pmu.p6 ==> Untouched(pmu, mask, old(pmu.enabled)))
    ensures var base := chunk * pmu.n;
      forall e | 0 <= e < results.Length ::
        results[e] == if base <= e < base + BITS && mask[e - base] then old(pmu.counts)[e - base] else old(results[e])
  {
    GetCounters(pmu, mask, results, chunk * pmu.n);
    ok := pmu.Switch(mask, false);
  }

  // A whole measurement

  predicate ChunkMeasured(n: nat, events: seq<Event>, before: seq<nat>, after: seq<nat>,
                          occurrences: Event -> nat, chunk: nat)
    requires n > 0 && |events| == |before| == |after|
  {
    forall e | 0 <= e < |events| :: after[e] == if e / n == chunk then occurrences(events[e]) else before[e]
  }

  /** One run of the measured program: the events of the chunk get their counts. */
  method MeasureChunk(pmu: Pmu, events: array<Event>, results: array<nat>, chunk: nat, occurrences: Event -> nat)
    returns (ok: bool)
    requires pmu.Valid() && events.Length == results.Length <= MAX_WORDS && chunk < Chunks(pmu.n, events.Length)
    requires events != results
    modifies pmu, results
    ensures pmu.Valid()
    ensures ok <==> (pmu.p6 ==> chunk * 2 + 1 < events.Length)
    ensures ok ==> forall c | 0 <= c < pmu.n && Used(pmu.n, events.Length, chunk, c) :: !pmu.Counting(c)
    ensures ok && !pmu.p6 ==> forall c | 0 <= c < pmu.n && !Used(pmu.n, events.Length, chunk, c) ::
      pmu.enabled[c] == old(pmu.enabled)[c]
    ensures ok ==> ChunkMeasured(pmu.n, events[..], old(results[..]), results[..], occurrences, chunk)
  {
    var mask, started := EnableCounters(pmu, events, chunk);
    AcceptsUsed(pmu, mask, events.Length, chunk);
    if !started { return false; }
    pmu.Work(occurrences);
    ok := ReadAndStopCounters(pmu, mask, chunk, results);
    forall e | 0 <= e < results.Length
      ensures results[e] == if e / pmu.n == chunk then occurrences(events[e]) else old(results[e])
    {
      InMask(mask, pmu.n, events.Length, chunk, e);
    }
  }

  lemma InMask(mask: Word, n: nat, events: nat, chunk: nat, e: nat)
    requires 0 < n <= BITS && UsedMask(mask, n, events, chunk) && e < events
    ensures var base := chunk * n;
      (base <= e < base + BITS && mask[e - base]) <==> e / n == chunk
  {
    OnePlace(n, events, e, chunk, 0);
    OnePlace(n, events, e, chunk, e % n);
    var base := chunk * n;
    if base <= e < base + n { OnePlace(n, events, e, chunk, e - base); }
  }

  lemma AcceptsUsed(pmu: Pmu, mask: Word, events: nat, chunk: nat)
    requires pmu.Valid() && chunk < Chunks(pmu.n, events) && UsedMask(mask, pmu.n, events, chunk)
    ensures pmu.Accepts(mask) <==> (pmu.p6 ==> chunk * 2 + 1 < events)
  {
    ChunkExists(pmu.n, events, chunk);
    assert forall i | 0 <= i < BITS :: mask[i] <==> Used(pmu.n, events, chunk, i);
    assert pmu.Meant(mask) == mask by {
      if mask == Not(Zeros(BITS)) { assert mask[BITS - 1]; }
    }
    if pmu.p6 {
      assert mask[0] && (mask[1] <==> chunk * 2 + 1 < events);
      if chunk * 2 + 1 < events { assert mask == Mask(2); } else { assert mask[1] != Mask(2)[1]; }
    }
  }

  /** With two counters, a chunk with one event is the last of an odd number of events. */
  lemma HalfChunk(n: nat, events: nat, chunk: nat)
    requires n == 2
    ensures chunk < Chunks(n, events) && chunk * 2 + 1 >= events ==> events % 2 == 1
    ensures Chunks(n, events) * 2 <= events <==> events % 2 == 0
  {
  }

  predicate Measured(n: nat, events: seq<Event>, results: seq<nat>, occurrences: (nat, Event) -> nat, chunks: nat)
    requires n > 0 && |events| == |results|
  {
    forall e | 0 <= e < |events| && e / n < chunks :: results[e] == occurrences(e / n, events[e])
  }

  predicate AllMeasured(n: nat, events: seq<Event>, results: seq<nat>, occurrences: (nat, Event) -> nat)
    requires n > 0 && |events| == |results|
  {
    forall e | 0 <= e < |events| :: results[e] == occurrences(e / n, events[e])
  }

  lemma MeasuredNone(n: nat, events: seq<Event>, results: seq<nat>, occurrences: (nat, Event) -> nat)
    requires n > 0 && |events| == |results|
    ensures Measured(n, events, results, occurrences, 0)
  {
    forall e | 0 <= e < |events| ensures e / n >= 0 { OnePlace(n, |events|, e, 0, 0); }
  }

  lemma MeasuredNext(n: nat, events: seq<Event>, before: seq<nat>, after: seq<nat>, occurrences: (nat, Event) -> nat,
                     chunk: nat)
    requires n > 0 && |events| == |before| == |after| && Measured(n, events, before, occurrences, chunk)
    requires ChunkMeasured(n, events, before, after, e => occurrences(chunk, e), chunk)
    ensures Measured(n, events, after, occurrences, chunk + 1)
  {
  }

  lemma MeasuredAll(n: nat, events: seq<Event>, results: seq<nat>, occurrences: (nat, Event) -> nat)
    requires n > 0 && |events| == |results| && Measured(n, events, results, occurrences, Chunks(n, |events|))
    ensures AllMeasured(n, events, results, occurrences)
  {
    forall e | 0 <= e < |events| ensures results[e] == occurrences(e / n, events[e]) {
      OnePlace(n, |events|, e, 0, 0);
    }
  }

  /** Runs the measured program once for every chunk. Each event ends up with its own count,
      at its own index. On a P6 the asserts let this happen only for an even number of events. */
  method MeasureAll(pmu: Pmu, events: array<Event>, results: array<nat>, occurrences: (nat, Event) -> nat)
    returns (ok: bool)
    requires pmu.Valid() && events.Length == results.Length <= MAX_WORDS
    requires events != results
    modifies pmu, results
    ensures pmu.Valid()
    ensures ok <==> (pmu.p6 ==> events.Length % 2 == 0)
    ensures ok ==> AllMeasured(pmu.n, events[..], results[..], occurrences)
  {
    var chunk, chunks := 0, Chunks(pmu.n, events.Length);
    ok := true;
    MeasuredNone(pmu.n, events[..], results[..], occurrences);
    while chunk < chunks
      invariant chunk <= chunks && ok && pmu.Valid()
      invariant Measured(pmu.n, events[..], results[..], occurrences, chunk)
      invariant pmu.p6 ==> chunk * 2 <= events.Length
    {
      ghost var before := results[..];
      ok := MeasureChunk(pmu, events, results, chunk, e => occurrences(chunk, e));
      if pmu.p6 { HalfChunk(pmu.n, events.Length, chunk); }
      if !ok { return; }
      MeasuredNext(pmu.n, events[..], before, results[..], occurrences, chunk);
      chunk := chunk + 1;
    }
    if pmu.p6 { HalfChunk(pmu.n, events.Length, 0); }
    MeasuredAll(pmu.n, events[..], results[..], occurrences);
  }
}
