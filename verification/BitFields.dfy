/** In-place access to the bit fields of a device register. */
module BitFields {
  import opened Powers
  import opened Words

  /** A field the accessors accept. A field of all 32 bits passes their own asserts and is
      refused by the assert inside MASK. */
  predicate Field(first: nat, nbits: nat) {
    first < BITS && nbits <= BITS - first && nbits < BITS
  }

  function Read(word: Word, first: nat, nbits: nat): Word
    requires Field(first, nbits)
  {
    And(Shr(word, first), Mask(nbits))
  }

  function Write(word: Word, first: nat, nbits: nat, value: Word): Word
    requires Field(first, nbits)
  {
    Masked(word, Shl(Mask(nbits), first), Shl(value, first))
  }

  function Masked(word: Word, mask: Word, value: Word): Word {
    Or(And(word, Not(mask)), value)
  }

  /** The assert of write_masked, as write_bits calls it. */
  predicate Accepts(first: nat, nbits: nat, value: Word)
    requires Field(first, nbits)
  {
    And(Shl(value, first), Shl(Mask(nbits), first)) == Shl(value, first)
  }

  class Register {
    var word: Word

    constructor (w: Word)
      ensures word == w
    {
      word := w;
    }

    method ReadMasked(mask: Word) returns (r: Word)
      ensures forall i | 0 <= i < BITS :: r[i] == (word[i] && mask[i])
    {
      r := And(word, mask);
    }

    /** The bits of the mask come from the value, the others stay. */
    method WriteMasked(mask: Word, value: Word)
      requires And(value, mask) == value
      modifies this
      ensures word == Masked(old(word), mask, value)
      ensures forall i | 0 <= i < BITS :: word[i] == if mask[i] then value[i] else old(word)[i]
    {
      var rest := ReadMasked(Not(mask));
      assert rest == And(word, Not(mask));
      word := Or(rest, value);
      assert forall i | 0 <= i < BITS :: And(value, mask)[i] == (value[i] && mask[i]);
    }

    method ReadBits(first: nat, nbits: nat) returns (r: Word)
      requires Field(first, nbits)
      ensures r == Read(word, first, nbits)
      ensures Value(r) == Value(word) / Pow2(first) % Pow2(nbits)
    {
      r := And(Shr(word, first), Mask(nbits));
      ReadValue(word, first, nbits);
    }

    method WriteBits(first: nat, nbits: nat, value: Word)
      requires Field(first, nbits) && Accepts(first, nbits, value)
      modifies this
      ensures word == Write(old(word), first, nbits, value)
      ensures forall i | 0 <= i < BITS ::
        word[i] == if first <= i < first + nbits then value[i - first] else old(word)[i]
    {
      WriteBit(word, first, nbits, value);
      WriteMasked(Shl(Mask(nbits), first), Shl(value, first));
    }
  }

  /** Reading is division and remainder. */
  lemma ReadValue(word: Word, first: nat, nbits: nat)
    requires Field(first, nbits)
    ensures Value(Read(word, first, nbits)) == Value(word) / Pow2(first) % Pow2(nbits)
  {
    LowValue(Shr(word, first), nbits);
    ShrValue(word, first);
  }

  /** The bits of a value that stay in the word above `first` are its remainder. */
  lemma KeptValue(value: Word, first: nat)
    requires first < BITS
    ensures Value(value[..BITS - first]) == Value(value) % Pow2(BITS - first)
  {
    ValueSplit(value, BITS - first);
  }

  lemma AcceptsBits(first: nat, nbits: nat, value: Word)
    requires Field(first, nbits)
    ensures Accepts(first, nbits, value) <==> forall i | nbits <= i < BITS - first :: !value[i]
  {
    var a, b := Shl(value, first), Shl(Mask(nbits), first);
    assert forall i | 0 <= i < BITS - first :: a[i + first] == value[i] && b[i + first] == (i < nbits);
    if forall i | nbits <= i < BITS - first :: !value[i] {
      assert And(a, b) == a;
    } else {
      var i :| nbits <= i < BITS - first && value[i];
      assert And(a, b)[i + first] != a[i + first];
    }
  }

  /** The assert passes exactly when what stays in the word fits the field. Bits that fall
      off the end are not looked at. */
  lemma AcceptsIff(first: nat, nbits: nat, value: Word)
    requires Field(first, nbits)
    ensures Accepts(first, nbits, value) <==> Value(value) % Pow2(BITS - first) < Pow2(nbits)
  {
    AcceptsBits(first, nbits, value);
    KeptValue(value, first);
    SmallIff(value[..BITS - first], nbits);
  }

  /** A number is below a power of two exactly when its higher bits are clear. */
  lemma SmallIff(bits: seq<bool>, n: nat)
    requires n <= |bits|
    ensures Value(bits) < Pow2(n) <==> forall i | n <= i < |bits| :: !bits[i]
  {
    ValueSplit(bits, n);
    ValueBound(bits[..n]);
    ZeroIff(bits[n..]);
    assert forall i | 0 <= i < |bits| - n :: bits[n..][i] == bits[n + i];
    if Value(bits[n..]) == 0 {
      assert forall i | n <= i < |bits| :: bits[i] == bits[n..][i - n];
    } else {
      Multiple(Pow2(n), Value(bits[n..]));
    }
  }

  lemma {:induction false} ZeroIff(bits: seq<bool>)
    ensures Value(bits) == 0 <==> forall i | 0 <= i < |bits| :: !bits[i]
    decreases |bits|
  {
    if bits != [] {
      ZeroIff(bits[1..]);
      assert forall i | 1 <= i < |bits| :: bits[i] == bits[1..][i - 1];
    }
  }

  /** Writing replaces the bits of the field by those of the value and keeps the others. */
  lemma WriteBit(word: Word, first: nat, nbits: nat, value: Word)
    requires Field(first, nbits) && Accepts(first, nbits, value)
    ensures forall i | 0 <= i < BITS ::
      Write(word, first, nbits, value)[i] == if first <= i < first + nbits then value[i - first] else word[i]
  {
    AcceptsBits(first, nbits, value);
    var mask, v := Shl(Mask(nbits), first), Shl(value, first);
    assert forall i | 0 <= i < BITS :: mask[i] == (first <= i < first + nbits);
    assert forall i | 0 <= i < BITS :: v[i] == (first <= i && value[i - first]);
  }

  /** What was written is read back modulo 2^(32 - first). */
  lemma ReadAfterWrite(word: Word, first: nat, nbits: nat, value: Word)
    requires Field(first, nbits) && Accepts(first, nbits, value)
    ensures Value(Read(Write(word, first, nbits, value), first, nbits)) == Value(value) % Pow2(BITS - first)
  {
    var r := Read(Write(word, first, nbits, value), first, nbits);
    WriteBit(word, first, nbits, value);
    AcceptsBits(first, nbits, value);
    assert r == value[..BITS - first] + Zeros(first);
    ValueJoin(value[..BITS - first], Zeros(first));
    ValueZeros(first);
    KeptValue(value, first);
  }

  predicate Disjoint(first: nat, nbits: nat, first': nat, nbits': nat) {
    first + nbits <= first' || first' + nbits' <= first
  }

  /** A write to one field is not seen in another. */
  lemma OtherFieldUnchanged(word: Word, first: nat, nbits: nat, value: Word, first': nat, nbits': nat)
    requires Field(first, nbits) && Field(first', nbits') && Disjoint(first, nbits, first', nbits')
    requires Accepts(first, nbits, value)
    ensures Read(Write(word, first, nbits, value), first', nbits') == Read(word, first', nbits')
  {
    WriteBit(word, first, nbits, value);
  }

  /** Writes to disjoint fields commute. */
  lemma WritesCommute(word: Word, first: nat, nbits: nat, value: Word, first': nat, nbits': nat, value': Word)
    requires Field(first, nbits) && Field(first', nbits') && Disjoint(first, nbits, first', nbits')
    requires Accepts(first, nbits, value) && Accepts(first', nbits', value')
    ensures Write(Write(word, first, nbits, value), first', nbits', value')
         == Write(Write(word, first', nbits', value'), first, nbits, value)
  {
    WriteBit(word, first, nbits, value);
    WriteBit(word, first', nbits', value');
    WriteBit(Write(word, first, nbits, value), first', nbits', value');
    WriteBit(Write(word, first', nbits', value'), first, nbits, value);
  }
}
