/** 32-bit words as lists of bits, least significant first, with the C operators the
    modelled code uses. Their arithmetic meaning is proved below. */
module Words {
  import opened Powers

  const BITS: nat := 32

  type Word = w: seq<bool> | |w| == BITS witness seq(BITS, _ => false)

  function Zeros(n: nat): (z: seq<bool>)
    ensures |z| == n && forall i | 0 <= i < n :: !z[i]
  {
    seq(n, _ => false)
  }

  /** `a & b`, `a | b`, `a ^ b` and `~a` */
  function And(a: Word, b: Word): Word { seq(BITS, i requires 0 <= i < BITS => a[i] && b[i]) }
  function Or(a: Word, b: Word): Word { seq(BITS, i requires 0 <= i < BITS => a[i] || b[i]) }
  function Xor(a: Word, b: Word): Word { seq(BITS, i requires 0 <= i < BITS => a[i] != b[i]) }
  function Not(a: Word): Word { seq(BITS, i requires 0 <= i < BITS => !a[i]) }

  /** `w << f`; bits pushed over the top are lost. */
  function Shl(w: Word, f: nat): Word
    requires f < BITS
  {
    Zeros(f) + w[..BITS - f]
  }

  /** `w >> f` */
  function Shr(w: Word, f: nat): Word
    requires f < BITS
  {
    w[f..] + Zeros(f)
  }

  /** `BIT(n)`, which is `1ul << n` */
  function Single(n: nat): Word
    requires n < BITS
  {
    seq(BITS, i => i == n)
  }

  /** `MASK(n)`, which is `BIT(n) - 1` and asserts that n is less than the word size */
  function Mask(n: nat): Word
    requires n < BITS
  {
    seq(BITS, i => i < n)
  }

  // Arithmetic

  function Value(bits: seq<bool>): nat {
    if bits == [] then 0 else (if bits[0] then 1 else 0) + 2 * Value(bits[1..])
  }

  lemma {:induction false} ValueJoin(a: seq<bool>, b: seq<bool>)
    ensures Value(a + b) == Value(a) + Pow2(|a|) * Value(b)
    decreases |a|
  {
    if a == [] {
      assert a + b == b;
    } else {
      assert (a + b)[1..] == a[1..] + b;
      ValueJoin(a[1..], b);
      Twice(Pow2(|a| - 1), Value(b));
    }
  }

  lemma {:induction false} ValueZeros(n: nat)
    ensures Value(Zeros(n)) == 0
  {
    if n != 0 {
      assert Zeros(n)[1..] == Zeros(n - 1);
      ValueZeros(n - 1);
    }
  }

  lemma {:induction false} ValueBound(a: seq<bool>)
    ensures Value(a) < Pow2(|a|)
    decreases |a|
  {
    if a != [] { ValueBound(a[1..]); }
  }

  lemma {:induction false} ValueOnes(n: nat)
    ensures Value(seq(n, _ => true)) == Pow2(n) - 1
  {
    var ones := seq(n, _ => true);
    if n != 0 {
      assert ones[1..] == seq(n - 1, _ => true);
      ValueOnes(n - 1);
    }
  }

  /** The top bit of a word splits off: a value below a power is in the low bits. */
  lemma ValueSplit(w: seq<bool>, n: nat)
    requires n <= |w|
    ensures Value(w) / Pow2(n) == Value(w[n..]) && Value(w) % Pow2(n) == Value(w[..n])
  {
    assert w == w[..n] + w[n..];
    ValueJoin(w[..n], w[n..]);
    ValueBound(w[..n]);
    DivModOf(Value(w), Pow2(n), Value(w[n..]), Value(w[..n]));
  }

  /** Shifting right divides, and a mask takes the remainder. */
  lemma ShrValue(w: Word, f: nat)
    requires f < BITS
    ensures Value(Shr(w, f)) == Value(w) / Pow2(f)
  {
    ValueSplit(w, f);
    ValueJoin(w[f..], Zeros(f));
    ValueZeros(f);
  }

  lemma LowValue(w: Word, n: nat)
    requires n < BITS
    ensures Value(And(w, Mask(n))) == Value(w) % Pow2(n)
  {
    ValueSplit(w, n);
    assert And(w, Mask(n)) == w[..n] + Zeros(BITS - n);
    ValueJoin(w[..n], Zeros(BITS - n));
    ValueZeros(BITS - n);
  }

  /** Shifting left multiplies, modulo the word. */
  lemma ShlValue(w: Word, f: nat)
    requires f < BITS
    ensures Value(Shl(w, f)) == Value(w) * Pow2(f) % Pow2(BITS)
  {
    var low, high := Value(w[..BITS - f]), Value(w[BITS - f..]);
    ValueJoin(Zeros(f), w[..BITS - f]);
    ValueZeros(f);
    assert w == w[..BITS - f] + w[BITS - f..];
    ValueJoin(w[..BITS - f], w[BITS - f..]);
    Pow2Sum(f, BITS - f);
    ValueBound(Shl(w, f));
    ShiftedOut(Value(w), low, high, Pow2(f), Pow2(BITS - f), Pow2(BITS));
  }

  lemma MaskValue(n: nat)
    requires n < BITS
    ensures Value(Mask(n)) == Pow2(n) - 1 && Value(Single(n)) == Pow2(n)
  {
    assert Mask(n) == seq(n, _ => true) + Zeros(BITS - n);
    ValueJoin(seq(n, _ => true), Zeros(BITS - n));
    ValueOnes(n);
    ValueZeros(BITS - n);
    assert Single(n) == Zeros(n) + ([true] + Zeros(BITS - n - 1));
    ValueJoin(Zeros(n), [true] + Zeros(BITS - n - 1));
    ValueJoin([true], Zeros(BITS - n - 1));
    ValueZeros(n);
    ValueZeros(BITS - n - 1);
  }
}
