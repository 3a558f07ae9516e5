/** Processor sets: bitmaps over 32-bit longs, whose size is given in bytes. */
module CpuSet {
  import opened Words

  datatype Operator = Both | Either | OneOf

  /** `sizeof(long)`, in bytes */
  const LONG: nat := 4

  predicate Fits(size: nat, s: seq<Word>) { size <= LONG * |s| }

  function Bit(s: seq<Word>, k: nat): bool
    requires k < BITS * |s|
  {
    s[k / BITS][k % BITS]
  }

  /** The processors a bitmap of `size` bytes holds */
  function Members(s: seq<Word>, size: nat): set<nat>
    requires Fits(size, s)
  {
    set k: nat | k < 8 * size && Bit(s, k)
  }

  // The operations, on values

  function Put(s: seq<Word>, size: nat, cpu: nat, on: bool): seq<Word>
    requires Fits(size, s)
  {
    if cpu / 8 >= size then s
    else
      var j := cpu / 8 / LONG;
      s[j := if on then Or(s[j], Single(cpu % BITS)) else And(s[j], Not(Single(cpu % BITS)))]
  }

  function Operate(op: Operator, a: Word, b: Word): Word {
    match op case Both => And(a, b) case Either => Or(a, b) case OneOf => Xor(a, b)
  }

  /** Whole longs only: bytes of `size` after the last whole long keep their old content. */
  function Merge(op: Operator, size: nat, dest: seq<Word>, a: seq<Word>, b: seq<Word>): seq<Word>
    requires Fits(size, a) && Fits(size, b)
  {
    seq(|dest|, j requires 0 <= j < |dest| => if j < size / LONG then Operate(op, a[j], b[j]) else dest[j])
  }

  /** `memset(set, 0, size)` on a little-endian machine */
  function Blank(size: nat, s: seq<Word>): seq<Word> {
    seq(|s|, j requires 0 <= j < |s| => BlankWord(8 * size - BITS * j, s[j]))
  }

  function BlankWord(bits: int, w: Word): Word { seq(BITS, b requires 0 <= b < BITS => b >= bits && w[b]) }

  function Byte(s: seq<Word>, j: nat): seq<bool>
    requires j < LONG * |s|
  {
    s[j / LONG][8 * (j % LONG)..8 * (j % LONG) + 8]
  }

  /** `!memcmp(a, b, size)` */
  predicate SameBytes(a: seq<Word>, b: seq<Word>, size: nat)
    requires Fits(size, a) && Fits(size, b)
  {
    forall j: nat | j < size :: Byte(a, j) == Byte(b, j)
  }

  function AllocSize(n: nat): nat { LONG * (n / (8 * LONG) + (n % (8 * LONG) + 8 * LONG - 1) / (8 * LONG)) }

  // The operations, in place

  method Insert(cpu: nat, size: nat, bits: array<Word>)
    requires Fits(size, bits[..])
    modifies bits
    ensures bits[..] == Put(old(bits[..]), size, cpu, true)
    ensures Members(bits[..], size) == old(Members(bits[..], size)) + (if cpu < 8 * size then {cpu} else {})
  {
    PutMembers(bits[..], size, cpu, true);
    if cpu / 8 < size {
      var j := cpu / 8 / LONG;
      bits[j] := Or(bits[j], Single(cpu % BITS));
    }
  }

  method Remove(cpu: nat, size: nat, bits: array<Word>)
    requires Fits(size, bits[..])
    modifies bits
    ensures bits[..] == Put(old(bits[..]), size, cpu, false)
    ensures Members(bits[..], size) == old(Members(bits[..], size)) - {cpu}
  {
    PutMembers(bits[..], size, cpu, false);
    if cpu / 8 < size {
      var j := cpu / 8 / LONG;
      bits[j] := And(bits[j], Not(Single(cpu % BITS)));
    }
  }

  /** Anything but zero means that the processor is in the set. */
  method IsSet(cpu: nat, size: nat, bits: array<Word>) returns (r: Word)
    requires Fits(size, bits[..])
    ensures r != Zeros(BITS) <==> cpu in Members(bits[..], size)
  {
    if cpu / 8 >= size { return Zeros(BITS); }
    var j := cpu / 8 / LONG;
    r := And(bits[j], Single(cpu % BITS));
    assert r[cpu % BITS] == Bit(bits[..], cpu);
    assert forall b | 0 <= b < BITS && b != cpu % BITS :: !r[b];
    assert !Bit(bits[..], cpu) ==> r == Zeros(BITS);
  }

  /** The arrays may be one and the same. */
  method Combine(op: Operator, size: nat, dest: array<Word>, a: array<Word>, b: array<Word>)
    requires Fits(size, dest[..]) && Fits(size, a[..]) && Fits(size, b[..])
    modifies dest
    ensures dest[..] == Merge(op, size, old(dest[..]), old(a[..]), old(b[..]))
  {
    var i := 0;
    while i < size / LONG
      invariant i <= size / LONG
      invariant forall j | 0 <= j < i :: dest[j] == Operate(op, old(a[j]), old(b[j]))
      invariant forall j | i <= j < dest.Length :: dest[j] == old(dest[j])
      invariant forall j | i <= j < a.Length :: a[j] == old(a[j])
      invariant forall j | i <= j < b.Length :: b[j] == old(b[j])
    {
      dest[i] := Operate(op, a[i], b[i]);
      i := i + 1;
    }
  }

  // What they do to the set

  function Result(op: Operator, a: set<nat>, b: set<nat>): set<nat> {
    match op case Both => a * b case Either => a + b case OneOf => (a - b) + (b - a)
  }

  lemma PutMembers(s: seq<Word>, size: nat, cpu: nat, on: bool)
    requires Fits(size, s)
    ensures Members(Put(s, size, cpu, on), size)
         == if on then Members(s, size) + (if cpu < 8 * size then {cpu} else {}) else Members(s, size) - {cpu}
  {
    forall k: nat | k < 8 * size
      ensures Bit(Put(s, size, cpu, on), k) == if k == cpu then on else Bit(s, k)
    {
      PutBit(s, size, cpu, on, k);
    }
  }

  lemma PutBit(s: seq<Word>, size: nat, cpu: nat, on: bool, k: nat)
    requires Fits(size, s) && k < 8 * size
    ensures Bit(Put(s, size, cpu, on), k) == if k == cpu then on else Bit(s, k)
  {
    assert cpu / 8 / LONG == cpu / BITS;
    assert k / BITS == cpu / BITS && k % BITS == cpu % BITS ==> k == cpu;
  }

  lemma MergeBit(op: Operator, size: nat, dest: seq<Word>, a: seq<Word>, b: seq<Word>, k: nat)
    requires Fits(size, dest) && Fits(size, a) && Fits(size, b) && k < 8 * size
    ensures Bit(Merge(op, size, dest, a, b), k)
         == if k / BITS >= size / LONG then Bit(dest, k)
            else match op
              case Both => Bit(a, k) && Bit(b, k)
              case Either => Bit(a, k) || Bit(b, k)
              case OneOf => Bit(a, k) != Bit(b, k)
  {
  }

  lemma MergeMembers(op: Operator, size: nat, dest: seq<Word>, a: seq<Word>, b: seq<Word>)
    requires Fits(size, dest) && Fits(size, a) && Fits(size, b) && size % LONG == 0
    ensures Members(Merge(op, size, dest, a, b), size) == Result(op, Members(a, size), Members(b, size))
  {
    forall k: nat | k < 8 * size
      ensures k in Members(Merge(op, size, dest, a, b), size) <==> k in Result(op, Members(a, size), Members(b, size))
    {
      MergeBit(op, size, dest, a, b, k);
    }
  }

  lemma BlankMembers(size: nat, s: seq<Word>)
    requires Fits(size, s)
    ensures Members(Blank(size, s), size) == {}
  {
    forall k: nat | k < 8 * size ensures !Bit(Blank(size, s), k) {
      assert Blank(size, s)[k / BITS] == BlankWord(8 * size - BITS * (k / BITS), s[k / BITS]);
    }
  }

  /** No operation touches a bit after the bytes it is given. */
  lemma BeyondUnchanged(op: Operator, size: nat, s: seq<Word>, a: seq<Word>, b: seq<Word>, cpu: nat, on: bool, k: nat)
    requires Fits(size, s) && Fits(size, a) && Fits(size, b) && 8 * size <= k < BITS * |s|
    ensures Bit(Put(s, size, cpu, on), k) == Bit(s, k)
    ensures Bit(Merge(op, size, s, a, b), k) == Bit(s, k)
    ensures |Blank(size, s)| == |s| && Bit(Blank(size, s), k) == Bit(s, k)
  {
    assert cpu / 8 / LONG == cpu / BITS;
    assert k / BITS == cpu / BITS && k % BITS == cpu % BITS ==> k == cpu;
    assert Blank(size, s)[k / BITS] == BlankWord(8 * size - BITS * (k / BITS), s[k / BITS]);
  }

  /** Comparing memory compares the sets. */
  lemma SameBytesIff(a: seq<Word>, b: seq<Word>, size: nat)
    requires Fits(size, a) && Fits(size, b)
    ensures SameBytes(a, b, size) <==> Members(a, size) == Members(b, size)
  {
    if SameBytes(a, b, size) {
      forall k: nat | k < 8 * size ensures Bit(a, k) == Bit(b, k) {
        assert Byte(a, k / 8) == Byte(b, k / 8);
        assert Byte(a, k / 8)[k % 8] == Bit(a, k) && Byte(b, k / 8)[k % 8] == Bit(b, k);
      }
    }
    if Members(a, size) == Members(b, size) {
      forall j: nat | j < size ensures Byte(a, j) == Byte(b, j) {
        forall t | 0 <= t < 8 ensures Byte(a, j)[t] == Byte(b, j)[t] {
          ByteBit(a, j, t);
          ByteBit(b, j, t);
          assert 8 * j + t in Members(a, size) <==> 8 * j + t in Members(b, size);
        }
      }
    }
  }

  lemma ByteBit(s: seq<Word>, j: nat, t: nat)
    requires j < LONG * |s| && t < 8
    ensures Byte(s, j)[t] == Bit(s, 8 * j + t)
  {
  }

  /** The allocated size holds the processors below n, in the fewest longs. */
  lemma AllocFits(n: nat, cpu: nat)
    ensures AllocSize(n) % LONG == 0 && n <= 8 * AllocSize(n) < n + 8 * LONG
    ensures cpu < n ==> cpu / 8 < AllocSize(n)
  {
    var q := n / 32 + (n % 32 + 31) / 32;
    assert AllocSize(n) == 4 * q;
  }

  // Programs over several bitmaps

  datatype Op =
    | Set(dest: nat, cpu: nat)
    | Clear(dest: nat, cpu: nat)
    | Zero(dest: nat)
    | Mix(op: Operator, dest: nat, a: nat, b: nat)

  predicate Names(o: Op, n: nat) { o.dest < n && (o.Mix? ==> o.a < n && o.b < n) }

  predicate AllFit(size: nat, memory: seq<seq<Word>>) {
    forall i | 0 <= i < |memory| :: Fits(size, memory[i])
  }

  function Perform(o: Op, size: nat, memory: seq<seq<Word>>): (r: seq<seq<Word>>)
    requires AllFit(size, memory) && Names(o, |memory|)
    ensures |r| == |memory| && AllFit(size, r)
  {
    var d := memory[o.dest];
    match o
    case Set(_, cpu) => memory[o.dest := Put(d, size, cpu, true)]
    case Clear(_, cpu) => memory[o.dest := Put(d, size, cpu, false)]
    case Zero(_) => memory[o.dest := Blank(size, d)]
    case Mix(op, _, a, b) => memory[o.dest := Merge(op, size, d, memory[a], memory[b])]
  }

  function OnSets(o: Op, size: nat, sets: seq<set<nat>>): seq<set<nat>>
    requires Names(o, |sets|)
  {
    var d := sets[o.dest];
    match o
    case Set(_, cpu) => sets[o.dest := if cpu < 8 * size then d + {cpu} else d]
    case Clear(_, cpu) => sets[o.dest := d - {cpu}]
    case Zero(_) => sets[o.dest := {}]
    case Mix(op, _, a, b) => sets[o.dest := Result(op, sets[a], sets[b])]
  }

  function View(size: nat, memory: seq<seq<Word>>): seq<set<nat>>
    requires AllFit(size, memory)
  {
    seq(|memory|, i requires 0 <= i < |memory| => Members(memory[i], size))
  }

  function PerformAll(program: seq<Op>, size: nat, memory: seq<seq<Word>>): (r: seq<seq<Word>>)
    requires AllFit(size, memory) && forall o | o in program :: Names(o, |memory|)
    ensures |r| == |memory| && AllFit(size, r)
    decreases |program|
  {
    if program == [] then memory else PerformAll(program[1..], size, Perform(program[0], size, memory))
  }

  function AllOnSets(program: seq<Op>, size: nat, sets: seq<set<nat>>): seq<set<nat>>
    requires forall o | o in program :: Names(o, |sets|)
    decreases |program|
  {
    if program == [] then sets else AllOnSets(program[1..], size, OnSets(program[0], size, sets))
  }

  lemma StepRefines(o: Op, size: nat, memory: seq<seq<Word>>)
    requires AllFit(size, memory) && Names(o, |memory|) && size % LONG == 0
    ensures View(size, Perform(o, size, memory)) == OnSets(o, size, View(size, memory))
  {
    var d := memory[o.dest];
    match o
    case Set(_, cpu) => PutMembers(d, size, cpu, true);
    case Clear(_, cpu) => PutMembers(d, size, cpu, false);
    case Zero(_) => BlankMembers(size, d);
    case Mix(op, _, a, b) => MergeMembers(op, size, d, memory[a], memory[b]);
  }

  lemma {:induction false} ProgramRefines(program: seq<Op>, size: nat, memory: seq<seq<Word>>)
    requires AllFit(size, memory) && size % LONG == 0
    requires forall o | o in program :: Names(o, |memory|)
    ensures View(size, PerformAll(program, size, memory)) == AllOnSets(program, size, View(size, memory))
    decreases |program|
  {
    if program != [] {
      StepRefines(program[0], size, memory);
      ProgramRefines(program[1..], size, Perform(program[0], size, memory));
    }
  }

  ghost predicate ActsOnSets(size: nat) {
    forall program: seq<Op>, memory: seq<seq<Word>> |
      AllFit(size, memory) && (forall o | o in program :: Names(o, |memory|)) ::
      View(size, PerformAll(program, size, memory)) == AllOnSets(program, size, View(size, memory))
  }

  /** Programs over bitmaps act on sets exactly for sizes of whole longs. */
  lemma ActsOnSetsIff(size: nat)
    ensures ActsOnSets(size) <==> size % LONG == 0
  {
    if size % LONG == 0 {
      forall program: seq<Op>, memory: seq<seq<Word>> |
        AllFit(size, memory) && (forall o | o in program :: Names(o, |memory|))
        ensures View(size, PerformAll(program, size, memory)) == AllOnSets(program, size, View(size, memory))
      {
        ProgramRefines(program, size, memory);
      }
    } else {
      TailNotMerged(size);
    }
  }

  /** Otherwise a union misses the processors of the last bytes. */
  lemma TailNotMerged(size: nat)
    requires size % LONG != 0
    ensures !ActsOnSets(size)
  {
    var n := size / LONG + 1;
    var empty, full: seq<Word> := seq(n, _ => Zeros(BITS)), seq(n, _ => Not(Zeros(BITS)));
    var memory, o := [empty, full], Mix(Either, 0, 1, 1);
    var k := BITS * (size / LONG);
    MergeBit(Either, size, empty, full, full, k);
    assert k in View(size, memory)[1] && k in OnSets(o, size, View(size, memory))[0];
    assert k !in View(size, Perform(o, size, memory))[0];
    OneStep(o, size, memory);
    assert forall p | p in [o] :: Names(p, |memory|);
  }

  lemma OneStep(o: Op, size: nat, memory: seq<seq<Word>>)
    requires AllFit(size, memory) && Names(o, |memory|)
    ensures PerformAll([o], size, memory) == Perform(o, size, memory)
    ensures AllOnSets([o], size, View(size, memory)) == OnSets(o, size, View(size, memory))
  {
    assert [o][1..] == [];
  }
}
