/** The kernel's message tag: four fields packed into one word. */
module MessageInfo {
  import opened Common
  import opened Powers
  import opened Words
  import BitFields

  datatype Part = Label | CapsUnwrapped | ExtraCaps | Length

  function First(p: Part): nat {
    match p case Label => 12 case CapsUnwrapped => 9 case ExtraCaps => 7 case Length => 0
  }

  function Width(p: Part): nat {
    match p case Label => 20 case CapsUnwrapped => 3 case ExtraCaps => 2 case Length => 7
  }

  function PartMask(p: Part): Word { Shl(Mask(Width(p)), First(p)) }

  function New(lbl: Word, capsUnwrapped: Word, extraCaps: Word, length: Word): Word {
    var w := Zeros(BITS);
    var w := Or(w, Shl(And(lbl, Mask(20)), 12));
    var w := Or(w, Shl(And(capsUnwrapped, Mask(3)), 9));
    var w := Or(w, Shl(And(extraCaps, Mask(2)), 7));
    Or(w, Shl(And(length, Mask(7)), 0))
  }

  function Get(w: Word, p: Part): Word { Shr(And(w, PartMask(p)), First(p)) }

  function Set(w: Word, p: Part, v: Word): Word {
    Or(And(w, Not(PartMask(p))), And(Shl(v, First(p)), PartMask(p)))
  }

  /** `w >> f` on a signed operand: the sign bit fills in. */
  function Sar(w: Word, f: nat): Word
    requires f < BITS
  {
    w[f..] + seq(f, _ => w[BITS - 1])
  }

  /** The bits the debug assert of a setter looks at. Only the constant of the label is too
      large for a signed integer, so only there is the shift unsigned. */
  function Guard(p: Part): Word {
    if p.Label? then Shr(Not(PartMask(p)), First(p)) else Sar(Not(PartMask(p)), First(p))
  }

  predicate Checked(p: Part, v: Word) { And(Guard(p), v) == Zeros(BITS) }

  /** The pointer forms, which update a tag in place. */
  class Tag {
    var word: Word

    constructor (lbl: Word, capsUnwrapped: Word, extraCaps: Word, length: Word)
      ensures word == New(lbl, capsUnwrapped, extraCaps, length)
    {
      word := New(lbl, capsUnwrapped, extraCaps, length);
    }

    method Reset(lbl: Word, capsUnwrapped: Word, extraCaps: Word, length: Word)
      modifies this
      ensures word == New(lbl, capsUnwrapped, extraCaps, length)
    {
      word := Zeros(BITS);
      word := Or(word, Shl(And(lbl, Mask(20)), 12));
      word := Or(word, Shl(And(capsUnwrapped, Mask(3)), 9));
      word := Or(word, Shl(And(extraCaps, Mask(2)), 7));
      word := Or(word, Shl(And(length, Mask(7)), 0));
    }

    method Update(p: Part, v: Word)
      modifies this
      ensures word == Set(old(word), p, v)
    {
      word := And(word, Not(PartMask(p)));
      word := Or(word, And(Shl(v, First(p)), PartMask(p)));
    }
  }

  /** The masks are the constants of the generated code. */
  lemma PartMasks(p: Part)
    ensures Value(PartMask(p)) == match p
      case Label => 0xfffff000 case CapsUnwrapped => 0xe00 case ExtraCaps => 0x180 case Length => 0x7f
  {
    FieldMask(First(p), Width(p));
    Constants(p);
  }

  lemma FieldMask(first: nat, nbits: nat)
    requires first < BITS && nbits < BITS
    ensures Value(Shl(Mask(nbits), first)) == (Pow2(nbits) - 1) * Pow2(first) % Pow2(BITS)
  {
    MaskValue(nbits);
    ShlValue(Mask(nbits), first);
  }

  lemma Constants(p: Part)
    ensures (Pow2(Width(p)) - 1) * Pow2(First(p)) % Pow2(BITS) == match p
      case Label => 0xfffff000 case CapsUnwrapped => 0xe00 case ExtraCaps => 0x180 case Length => 0x7f
  {
    PowerTable();
  }

  lemma MaskBit(p: Part, i: nat)
    requires i < BITS
    ensures PartMask(p)[i] == (First(p) <= i < First(p) + Width(p))
  {
  }

  /** A getter is a read of the field: a quotient and a remainder. */
  lemma GetValue(w: Word, p: Part)
    ensures Get(w, p) == BitFields.Read(w, First(p), Width(p))
    ensures Value(Get(w, p)) == Value(w) / Pow2(First(p)) % Pow2(Width(p))
  {
    assert Get(w, p) == BitFields.Read(w, First(p), Width(p));
    BitFields.ReadValue(w, First(p), Width(p));
  }

  lemma GetBit(w: Word, p: Part, i: nat)
    requires i < BITS
    ensures Get(w, p)[i] == (i < Width(p) && w[i + First(p)])
  {
    if i < BITS - First(p) {
      MaskBit(p, i + First(p));
    }
  }

  lemma SetBit(w: Word, p: Part, v: Word, i: nat)
    requires i < BITS
    ensures Set(w, p, v)[i] == if First(p) <= i < First(p) + Width(p) then v[i - First(p)] else w[i]
  {
    MaskBit(p, i);
  }

  lemma NewBit(lbl: Word, capsUnwrapped: Word, extraCaps: Word, length: Word, i: nat)
    requires i < BITS
    ensures New(lbl, capsUnwrapped, extraCaps, length)[i]
         == if i < 7 then length[i] else if i < 9 then extraCaps[i - 7] else if i < 12 then capsUnwrapped[i - 9]
            else lbl[i - 12]
  {
  }

  function Given(lbl: Word, capsUnwrapped: Word, extraCaps: Word, length: Word, p: Part): Word {
    match p case Label => lbl case CapsUnwrapped => capsUnwrapped case ExtraCaps => extraCaps case Length => length
  }

  /** Packing and unpacking: every field comes back, cut to its width. */
  lemma GetOfNew(lbl: Word, capsUnwrapped: Word, extraCaps: Word, length: Word, p: Part)
    ensures Value(Get(New(lbl, capsUnwrapped, extraCaps, length), p))
         == Value(Given(lbl, capsUnwrapped, extraCaps, length, p)) % Pow2(Width(p))
  {
    var w, v := New(lbl, capsUnwrapped, extraCaps, length), Given(lbl, capsUnwrapped, extraCaps, length, p);
    forall i | 0 <= i < Width(p) ensures w[First(p) + i] == v[i] {
      NewBit(lbl, capsUnwrapped, extraCaps, length, First(p) + i);
    }
    GetCut(w, p, v);
  }

  lemma GetCut(w: Word, p: Part, v: Word)
    requires forall i | 0 <= i < Width(p) :: w[First(p) + i] == v[i]
    ensures Get(w, p) == And(v, Mask(Width(p)))
    ensures Value(Get(w, p)) == Value(v) % Pow2(Width(p))
  {
    forall i | 0 <= i < BITS ensures Get(w, p)[i] == And(v, Mask(Width(p)))[i] {
      GetBit(w, p, i);
    }
    LowValue(v, Width(p));
  }

  /** Unpacking and packing: a tag is the sum of its fields, so nothing in it is lost. */
  lemma NewOfGets(w: Word)
    ensures New(Get(w, Label), Get(w, CapsUnwrapped), Get(w, ExtraCaps), Get(w, Length)) == w
  {
    var lbl, capsUnwrapped := Get(w, Label), Get(w, CapsUnwrapped);
    var extraCaps, length := Get(w, ExtraCaps), Get(w, Length);
    forall i | 0 <= i < BITS ensures New(lbl, capsUnwrapped, extraCaps, length)[i] == w[i] {
      NewBit(lbl, capsUnwrapped, extraCaps, length, i);
      if i < 7 { GetBit(w, Length, i); }
      else if i < 9 { GetBit(w, ExtraCaps, i - 7); }
      else if i < 12 { GetBit(w, CapsUnwrapped, i - 9); }
      else { GetBit(w, Label, i - 12); }
    }
  }

  /** A setter stores the value cut to the field's width and no other field sees it. */
  lemma GetOfSet(w: Word, p: Part, v: Word, q: Part)
    ensures Get(Set(w, p, v), q) == if p == q then And(v, Mask(Width(p))) else Get(w, q)
  {
    forall i | 0 <= i < BITS ensures p != q ==> Get(Set(w, p, v), q)[i] == Get(w, q)[i] {
      GetBit(Set(w, p, v), q, i);
      GetBit(w, q, i);
      if i < Width(q) { SetBit(w, p, v, i + First(q)); }
    }
    if p == q {
      forall i | 0 <= i < Width(p) ensures Set(w, p, v)[First(p) + i] == v[i] {
        SetBit(w, p, v, First(p) + i);
      }
      GetCut(Set(w, p, v), p, v);
    }
  }

  /** What is stored is what was passed exactly when the value fits the field. */
  lemma SetKeepsIff(w: Word, p: Part, v: Word)
    ensures Get(Set(w, p, v), p) == v <==> Value(v) < Pow2(Width(p))
  {
    GetOfSet(w, p, v, p);
    LowValue(v, Width(p));
    if Value(v) < Pow2(Width(p)) {
      BitFields.SmallIff(v, Width(p));
      assert And(v, Mask(Width(p))) == v;
    } else {
      RemainderBelow(Value(v), Pow2(Width(p)));
    }
  }

  lemma RemainderBelow(n: nat, d: nat)
    requires d > 0
    ensures n % d < d
  {
  }

  /** The debug assert of a setter is that the value fits, except for the label, whose
      setter accepts every value. */
  lemma CheckedIff(p: Part, v: Word)
    ensures Checked(p, v) <==> p == Label || Value(v) < Pow2(Width(p))
  {
    forall i | 0 <= i < BITS ensures Guard(p)[i] == (!p.Label? && Width(p) <= i) {
      GuardBit(p, i);
    }
    BitFields.SmallIff(v, Width(p));
    if p != Label && Value(v) >= Pow2(Width(p)) {
      var i :| Width(p) <= i < BITS && v[i];
      assert And(Guard(p), v)[i];
    }
  }

  lemma GuardBit(p: Part, i: nat)
    requires i < BITS
    ensures Guard(p)[i] == (!p.Label? && Width(p) <= i)
  {
    MaskBit(p, BITS - 1);
    if i < BITS - First(p) { MaskBit(p, i + First(p)); }
  }

  /** So the label setter's assert lets through a value it does not store. */
  lemma LabelCutSilently(w: Word)
    ensures Checked(Label, Single(20)) && Get(Set(w, Label, Single(20)), Label) == Zeros(BITS)
  {
    CheckedIff(Label, Single(20));
    GetOfSet(w, Label, Single(20), Label);
  }

  /** A setter is a register write of the cut value. */
  lemma SetIsWrite(w: Word, p: Part, v: Word)
    ensures var cut := And(v, Mask(Width(p)));
      && BitFields.Accepts(First(p), Width(p), cut)
      && Set(w, p, v) == BitFields.Write(w, First(p), Width(p), cut)
  {
    var cut := And(v, Mask(Width(p)));
    BitFields.AcceptsBits(First(p), Width(p), cut);
    BitFields.WriteBit(w, First(p), Width(p), cut);
    forall i | 0 <= i < BITS ensures Set(w, p, v)[i] == BitFields.Write(w, First(p), Width(p), cut)[i] {
      SetBit(w, p, v, i);
    }
  }

  lemma SetsCommute(w: Word, p: Part, v: Word, q: Part, u: Word)
    requires p != q
    ensures Set(Set(w, p, v), q, u) == Set(Set(w, q, u), p, v)
  {
    SetIsWrite(w, p, v);
    SetIsWrite(w, q, u);
    SetIsWrite(Set(w, p, v), q, u);
    SetIsWrite(Set(w, q, u), p, v);
    BitFields.WritesCommute(w, First(p), Width(p), And(v, Mask(Width(p))), First(q), Width(q), And(u, Mask(Width(q))));
  }

  // Histories of updates

  function Sets(w: Word, updates: seq<(Part, Word)>): Word
    decreases |updates|
  {
    if updates == [] then w else Sets(Set(w, updates[0].0, updates[0].1), updates[1..])
  }

  /** The last value given to a field, if any. */
  function Last(updates: seq<(Part, Word)>, p: Part): Option<Word> {
    if updates == [] then None
    else if updates[|updates| - 1].0 == p then Some(updates[|updates| - 1].1)
    else Last(updates[..|updates| - 1], p)
  }

  lemma {:induction false} SetsJoin(w: Word, updates: seq<(Part, Word)>, last: (Part, Word))
    ensures Sets(w, updates + [last]) == Set(Sets(w, updates), last.0, last.1)
    decreases |updates|
  {
    if updates == [] {
      assert (updates + [last])[1..] == [];
    } else {
      assert (updates + [last])[1..] == updates[1..] + [last];
      SetsJoin(Set(w, updates[0].0, updates[0].1), updates[1..], last);
    }
  }

  /** After any updates in any order, each field reads as its own last update. */
  lemma {:induction false} ReadsLastUpdate(w: Word, updates: seq<(Part, Word)>, p: Part)
    ensures Get(Sets(w, updates), p)
         == match Last(updates, p) case None => Get(w, p) case Some(v) => And(v, Mask(Width(p)))
    decreases |updates|
  {
    if updates != [] {
      var last, before := updates[|updates| - 1], updates[..|updates| - 1];
      assert updates == before + [last];
      SetsJoin(w, before, last);
      GetOfSet(Sets(w, before), last.0, last.1, p);
      ReadsLastUpdate(w, before, p);
    }
  }

  /** Two histories with the same last updates leave the same tag. */
  lemma SameLastUpdates(w: Word, us: seq<(Part, Word)>, vs: seq<(Part, Word)>)
    requires forall p :: Last(us, p) == Last(vs, p)
    ensures Sets(w, us) == Sets(w, vs)
  {
    var a, b := Sets(w, us), Sets(w, vs);
    forall p ensures Get(a, p) == Get(b, p) {
      ReadsLastUpdate(w, us, p);
      ReadsLastUpdate(w, vs, p);
    }
    NewOfGets(a);
    NewOfGets(b);
  }
}
