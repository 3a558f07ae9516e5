/** `populate_untypeds`: set some memory aside for the driver, take everything else for the
    tests, and give the driver's part back. */
module Populate {
  import opened Powers
  import opened Untypeds
  import opened UntypedsLaws

  const DRIVER_UNTYPED_MEMORY: nat := 0x200_0000
  const DRIVER_NUM_UNTYPEDS: nat := 16
  const MAX_UNTYPEDS: nat := 167    // CONFIG_MAX_NUM_BOOTINFO_UNTYPED_CAPS

  method FreeObjects(vka: Vka, objects: array<Object>, num: nat)
    requires vka.Valid() && num <= objects.Length
    modifies vka
    ensures vka.Valid() && vka.tries == old(vka.tries)
    ensures vka.live == old(vka.live) - Members(objects[..num])
  {
    var i := 0;
    while i < num
      invariant i <= num && vka.Valid() && vka.tries == old(vka.tries)
      invariant vka.live == old(vka.live) - Members(objects[..i])
    {
      vka.Free(objects[i]);
      assert objects[..i + 1] == objects[..i] + [objects[i]];
      assert Members(objects[..i] + [objects[i]]) == Members(objects[..i]) + {objects[i]};
      i := i + 1;
    }
  }

  method ListSizes(untypeds: array<Object>, sizeList: array<nat>, n: nat)
    requires n <= untypeds.Length && n <= sizeList.Length
    modifies sizeList
    ensures forall i | 0 <= i < n :: sizeList[i] == untypeds[i].sizeBits
    ensures forall i | n <= i < sizeList.Length :: sizeList[i] == old(sizeList[i])
  {
    var i := 0;
    while i < n
      invariant i <= n
      invariant forall j | 0 <= j < i :: sizeList[j] == untypeds[j].sizeBits
      invariant forall j | i <= j < sizeList.Length :: sizeList[j] == old(sizeList[j])
    {
      sizeList[i] := untypeds[i].sizeBits;
      i := i + 1;
    }
  }

  /** What is named after one moment is not among what was named before it. */
  lemma NewIsNotOld(s0: Snapshot, p: Progress, s: Snapshot, older: set<Object>)
    requires After(s0, p, s) && forall o | o in older :: o.cptr <= |s0.tries|
    ensures Members(s.objects[..|p.sizes|]) !! older
  {
  }

  /** Afterwards the live objects are those before and the ones for the tests: the driver's
      reserve, whatever it was, has been returned. The size list matches the objects, from the
      largest down and within a byte, and short of the table's length every size was refused
      when last tried.
      `fatal` is the case the source reports as having no untypeds at all. */
  method PopulateUntypeds(vka: Vka, untypeds: array<Object>, sizeList: array<nat>)
    returns (n: nat, fatal: bool)
    requires vka.Valid() && untypeds.Length == sizeList.Length == MAX_UNTYPEDS
    modifies vka, untypeds, sizeList
    ensures vka.Valid() && n <= MAX_UNTYPEDS && (fatal <==> n == 0)
    ensures vka.tries == old(vka.tries) + Requests(vka.answer, |old(vka.tries)|)
    ensures sizeList[..n] == ForTests(vka.answer, |old(vka.tries)|).sizes
    ensures vka.live == old(vka.live) + Members(untypeds[..n])
    ensures Members(untypeds[..n]) !! old(vka.live)
    ensures forall i | 0 <= i < n :: sizeList[i] == untypeds[i].sizeBits
    ensures forall i | 0 <= i < n :: PAGE_BITS < sizeList[i] <= TOP_BITS
    ensures forall i, j | 0 <= i < j < n :: sizeList[i] >= sizeList[j]
    ensures forall i | n <= i < MAX_UNTYPEDS :: sizeList[i] == old(sizeList[i])
    ensures n < MAX_UNTYPEDS ==> forall b | PAGE_BITS < b <= TOP_BITS :: Refused(vka.tries, b)
  {
    var reserve := new Object[DRIVER_NUM_UNTYPEDS](_ => ZEROED);
    ghost var s0 := Snapshot(vka.tries, vka.live, reserve[..]);
    var num, s1 := AllocateUntypeds(vka, reserve, DRIVER_UNTYPED_MEMORY, DRIVER_NUM_UNTYPEDS, s0);
    ghost var s2 := Snapshot(vka.tries, vka.live, untypeds[..]);
    ghost var s3;
    n, s3 := AllocateUntypeds(vka, untypeds, WORD - 1, MAX_UNTYPEDS, s2);
    ListSizes(untypeds, sizeList, n);
    FreeObjects(vka, reserve, num);
    fatal := n == 0;
    Outcome(vka.answer, s0, s1, s2, s3);
    assert sizeList[..n] == ForTests(vka.answer, |s0.tries|).sizes;
    if n < MAX_UNTYPEDS { AllRefused(vka.answer, s2.tries); }
  }

  /** Both allocations, and the reserve gone again */
  lemma Outcome(answer: Oracle, s0: Snapshot, s1: Snapshot, s2: Snapshot, s3: Snapshot)
    requires After(s0, ForDriver(answer, |s0.tries|), s1) && s2 == s1.(objects := s2.objects)
    requires After(s2, Greedy(answer, |s2.tries|, WORD - 1, MAX_UNTYPEDS), s3)
    requires forall o | o in s0.live :: o.cptr <= |s0.tries|
    ensures var num, p := |ForDriver(answer, |s0.tries|).sizes|, ForTests(answer, |s0.tries|); var n := |p.sizes|;
      && p == Greedy(answer, |s2.tries|, WORD - 1, MAX_UNTYPEDS)
      && s3.tries == s0.tries + Requests(answer, |s0.tries|)
      && s3.live - Members(s1.objects[..num]) == s0.live + Members(s3.objects[..n])
      && Members(s3.objects[..n]) !! s0.live
      && (forall i | 0 <= i < n :: PAGE_BITS < s3.objects[i].sizeBits <= TOP_BITS)
      && (forall i, j | 0 <= i < j < n :: s3.objects[i].sizeBits >= s3.objects[j].sizeBits)
  {
    var first, num := ForDriver(answer, |s0.tries|), |ForDriver(answer, |s0.tries|).sizes|;
    var p := Greedy(answer, |s2.tries|, WORD - 1, MAX_UNTYPEDS);
    BothRequests(answer, s0.tries, s2.tries, s3.tries);
    SizesInOrder(answer, s2, s3);
    NewIsNotOld(s0, first, s1, s0.live);
    NewIsNotOld(s2, p, s3, s0.live + Members(s1.objects[..num]));
  }

  /** What the driver sets aside: 32 megabytes in at most 16 objects */
  function ForDriver(answer: Oracle, base: nat): Progress { Greedy(answer, base, 0x200_0000, 16) }

  /** What the tests get after that: anything, in at most 167 objects */
  function ForTests(answer: Oracle, base: nat): Progress {
    Greedy(answer, base + |ForDriver(answer, base).tries|, 0xffff_ffff, 167)
  }

  function Requests(answer: Oracle, base: nat): seq<Try> {
    ForDriver(answer, base).tries + ForTests(answer, base).tries
  }

  lemma BothRequests(answer: Oracle, t0: seq<Try>, t1: seq<Try>, t2: seq<Try>)
    requires t1 == t0 + Greedy(answer, |t0|, DRIVER_UNTYPED_MEMORY, DRIVER_NUM_UNTYPEDS).tries
    requires t2 == t1 + Greedy(answer, |t1|, WORD - 1, MAX_UNTYPEDS).tries
    ensures t2 == t0 + Requests(answer, |t0|) && |t1| == |t0| + |ForDriver(answer, |t0|).tries|
  {
    assert t0 + ForDriver(answer, |t0|).tries + ForTests(answer, |t0|).tries == t0 + Requests(answer, |t0|);
  }

  /** An allocator that never refuses gives the driver one object of 2^25 bytes. */
  lemma OneObjectForDriver(base: nat)
    ensures ForDriver((_, _) => true, base).sizes == [25]
  {
    SetBits25();
    GreedyTakesSetBits(base, 0x200_0000, 16);
  }

  lemma SetBits25()
    ensures BitsDown(0x200_0000, TOP_BITS) == [25]
  {
    BitsFrom25(TOP_BITS);
  }

  lemma {:induction false} BitsFrom25(bits: nat)
    requires 25 <= bits <= TOP_BITS
    ensures BitsDown(0x200_0000, bits) == [25]
    decreases bits
  {
    PowerTable();
    if bits == 25 {
      NoBitsBelow(24);
      assert BitsDown(0x200_0000, 25) == [25] + BitsDown(0x200_0000, 24);
    } else {
      BitsFrom25(bits - 1);
      Higher(25, bits);
      DivModOf(0x200_0000, Pow2(bits), 0, 0x200_0000);
    }
  }

  lemma {:induction false} Higher(a: nat, b: nat)
    requires a < b
    ensures Pow2(a) < Pow2(b)
    decreases b
  {
    if a < b - 1 { Higher(a, b - 1); }
  }

  lemma {:induction false} NoBitsBelow(bits: nat)
    requires bits < 25
    ensures BitsDown(0x200_0000, bits) == []
    decreases bits, 0x200_0000
  {
    if bits > PAGE_BITS {
      PowerTable();
      Pow2Sum(bits, 25 - bits);
      DivModOf(0x200_0000, Pow2(bits), Pow2(25 - bits), 0);
      assert Pow2(25 - bits) == 2 * Pow2(24 - bits);
      NoBitsBelow(bits - 1);
    }
  }

  lemma SizesInOrder(answer: Oracle, s0: Snapshot, s: Snapshot)
    requires After(s0, Greedy(answer, |s0.tries|, WORD - 1, MAX_UNTYPEDS), s)
    ensures var n := |Greedy(answer, |s0.tries|, WORD - 1, MAX_UNTYPEDS).sizes|;
      && (forall i | 0 <= i < n :: PAGE_BITS < s.objects[i].sizeBits <= TOP_BITS)
      && (forall i, j | 0 <= i < j < n :: s.objects[i].sizeBits >= s.objects[j].sizeBits)
  {
    GreedyFits(answer, |s0.tries|, WORD - 1, MAX_UNTYPEDS);
  }

  lemma AllRefused(answer: Oracle, before: seq<Try>)
    requires |Greedy(answer, |before|, WORD - 1, MAX_UNTYPEDS).sizes| < MAX_UNTYPEDS
    ensures var p := Greedy(answer, |before|, WORD - 1, MAX_UNTYPEDS);
      forall b | PAGE_BITS < b <= TOP_BITS :: Refused(before + p.tries, b)
  {
    UnlimitedSweep(answer, |before|, MAX_UNTYPEDS, TOP_BITS, Progress(0, [], []));
    RefusedLater(before, Greedy(answer, |before|, WORD - 1, MAX_UNTYPEDS).tries);
  }

  lemma RefusedLater(before: seq<Try>, tries: seq<Try>)
    requires forall b | PAGE_BITS < b <= TOP_BITS :: Refused(tries, b)
    ensures forall b | PAGE_BITS < b <= TOP_BITS :: Refused(before + tries, b)
  {
    forall b | PAGE_BITS < b <= TOP_BITS
      ensures Refused(before + tries, b)
    {
      assert Refused(tries, b);
      var i :| 0 <= i < |tries| && LastRefusal(tries, b, i);
      assert LastRefusal(before + tries, b, |before| + i);
    }
  }
}
