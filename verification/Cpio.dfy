/** Removing build-dependent metadata from a cpio archive, in place. */
module Cpio {
  import opened Common

  type Byte = b: nat | b < 256

  const HEADER: nat := 110
  const MAGIC: seq<Byte> := [48, 55, 48, 55, 48, 49]
  const TRAILER: seq<Byte> := [84, 82, 65, 73, 76, 69, 82, 33, 33, 33, 0]

  predicate Spells(s: seq<Byte>, text: string) {
    |s| == |text| && forall i | 0 <= i < |s| :: s[i] == text[i] as int
  }

  lemma Texts()
    ensures Spells(MAGIC, "070701") && Spells(TRAILER, "TRAILER!!!\0")
  {
  }

  /** Up to the next multiple of the alignment */
  function Up(x: nat): nat { (x + 3) / 4 * 4 }

  lemma UpFrom(h: nat, x: nat)
    requires h % 4 == 0
    ensures Up(h + x) == h + Up(x)
  {
    assert h + x + 3 == 4 * (h / 4) + (x + 3);
  }

  // Reading an archive

  function Digit(c: Byte): Option<nat> {
    if 48 <= c <= 57 then Some(c - 48)
    else if 65 <= c <= 70 then Some(c - 55)
    else if 97 <= c <= 102 then Some(c - 87)
    else None
  }

  function Number(s: seq<Byte>): Option<nat> {
    if s == [] then Some(0)
    else match (Number(s[..|s| - 1]), Digit(s[|s| - 1]))
      case (Some(n), Some(d)) => Some(16 * n + d)
      case _ => None
  }

  /** Where an entry lies: its header, the size of its name with the final zero, its data */
  datatype Place = Place(header: nat, nameSize: nat, data: nat, size: nat)

  /** The place of the entry at `h`, if the header can be read */
  function PlaceAt(b: seq<Byte>, h: nat): Option<Place> {
    if h + HEADER > |b| || b[h..h + 6] != MAGIC then None
    else match (Number(b[h + 94..h + 102]), Number(b[h + 54..h + 62]))
      case (Some(nameSize), Some(size)) =>
        if h + HEADER + nameSize > |b| then None
        else Some(Place(h, nameSize, Up(h + HEADER + nameSize), size))
      case _ => None
  }

  predicate IsTrailer(b: seq<Byte>, p: Place)
    requires p.header + HEADER + p.nameSize <= |b|
  {
    b[p.header + HEADER..p.header + HEADER + p.nameSize] == TRAILER
  }

  function Next(p: Place): nat { Up(p.data + p.size) }

  /** The entries from `h` to the trailer, or nothing when the archive cannot be read */
  function Places(b: seq<Byte>, h: nat): Option<seq<Place>>
    decreases |b| - h
  {
    match PlaceAt(b, h)
    case None => None
    case Some(p) =>
      if IsTrailer(b, p) then Some([])
      else if Next(p) > |b| then None
      else match Places(b, Next(p))
        case None => None
        case Some(rest) => Some([p] + rest)
  }

  /** `strlen` of the string at `at` */
  function Length(b: seq<Byte>, at: nat): nat
    decreases |b| - at
  {
    if at >= |b| || b[at] == 0 then 0 else 1 + Length(b, at + 1)
  }

  /** The string of the name and the size given for it are aligned to the same place. */
  predicate NameFits(length: nat, p: Place) { Up(HEADER + p.nameSize) == Up(HEADER + length + 1) }

  predicate Named(b: seq<Byte>, ps: seq<Place>) {
    forall i | 0 <= i < |ps| :: NameFits(Length(b, ps[i].header + HEADER), ps[i])
  }

  /** From the data of an entry back to its header */
  function GetHeader(data: nat, length: nat): int {
    var p := data - length - 1 - HEADER;
    p - p % 4
  }

  /** This finds the header exactly when the size in the header and the length of the string
      lead to the same alignment, as they do when they agree. */
  lemma GetHeaderIff(h: nat, nameSize: nat, length: nat)
    requires h % 4 == 0
    ensures GetHeader(Up(h + HEADER + nameSize), length) == h <==> Up(HEADER + nameSize) == Up(HEADER + length + 1)
  {
    UpFrom(h, HEADER + nameSize);
  }

  // The metadata

  /** The bytes of the inode, owner, group and modification time */
  predicate Meta(h: nat, k: nat) { h + 6 <= k < h + 14 || h + 22 <= k < h + 38 || h + 46 <= k < h + 54 }

  predicate IsMeta(ps: seq<Place>, k: nat) { exists i :: 0 <= i < |ps| && Meta(ps[i].header, k) }

  predicate SameButMeta(b: seq<Byte>, c: seq<Byte>, ps: seq<Place>) {
    |b| == |c| && forall k | 0 <= k < |b| && !IsMeta(ps, k) :: b[k] == c[k]
  }

  /** A number in hexadecimal, in capital or in small letters. `snprintf` with `%08x` uses small ones. */
  function Hex(v: nat, digits: nat, capital: bool): (s: seq<Byte>)
    ensures |s| == digits
    decreases digits, v
  {
    if digits == 0 then []
    else Hex(v / 16, digits - 1, capital) + [HexDigit(v % 16, capital)]
  }

  function HexDigit(d: nat, capital: bool): Byte
    requires d < 16
  {
    if d < 10 then 48 + d else if capital then 55 + d else 87 + d
  }

  lemma HexDigits(capital: bool)
    ensures Spells(seq(16, d requires 0 <= d < 16 => HexDigit(d, capital)),
                   if capital then "0123456789ABCDEF" else "0123456789abcdef")
  {
  }

  function Power16(n: nat): nat { if n == 0 then 1 else 16 * Power16(n - 1) }

  /** What is written in hexadecimal is read back. */
  lemma {:induction false} NumberOfHex(v: nat, digits: nat, capital: bool)
    requires v < Power16(digits)
    ensures Number(Hex(v, digits, capital)) == Some(v)
    decreases digits
  {
    if digits > 0 {
      var s := Hex(v, digits, capital);
      NumberOfHex(v / 16, digits - 1, capital);
      assert s[..digits - 1] == Hex(v / 16, digits - 1, capital);
    }
  }

  /** Digits and nothing else are read. */
  lemma DigitIff(c: Byte, d: nat)
    ensures Digit(c) == Some(d) <==> d < 16 && (c == HexDigit(d, false) || c == HexDigit(d, true))
  {
  }

  lemma {:induction false} NumberIff(s: seq<Byte>)
    ensures Number(s).Some? <==> forall i | 0 <= i < |s| :: Digit(s[i]).Some?
    decreases |s|
  {
    if s != [] {
      NumberIff(s[..|s| - 1]);
      assert forall i | 0 <= i < |s| - 1 :: s[..|s| - 1][i] == s[i];
    }
  }

  function Inode(i: nat): nat { (11 + i) % 0x1_0000_0000 }

  /** What `snprintf` leaves in the eight bytes: the first seven digits and a zero */
  function InodeField(i: nat): (s: seq<Byte>)
    ensures |s| == 8
  {
    Hex(Inode(i), 8, false)[..7] + [0]
  }

  function Patch(b: seq<Byte>, at: nat, field: seq<Byte>): (r: seq<Byte>)
    requires at + |field| <= |b|
    ensures |r| == |b|
  {
    b[..at] + field + b[at + |field|..]
  }

  const BLANK: seq<Byte> := [0, 0, 0, 0, 0, 0, 0, 0]

  function Rewrite(b: seq<Byte>, h: nat, i: nat): (r: seq<Byte>)
    requires h + HEADER <= |b|
    ensures |r| == |b|
  {
    Patch(Patch(Patch(Patch(b, h + 6, InodeField(i)), h + 22, BLANK), h + 30, BLANK), h + 46, BLANK)
  }

  predicate Inside(b: seq<Byte>, ps: seq<Place>) {
    forall i | 0 <= i < |ps| :: ps[i].header + HEADER <= |b|
  }

  /** The archive with the entries from number i on stripped */
  function Stripped(b: seq<Byte>, ps: seq<Place>, i: nat): (r: seq<Byte>)
    requires Inside(b, ps) && i <= |ps|
    ensures |r| == |b|
    decreases |ps| - i
  {
    if i == |ps| then b else Stripped(Rewrite(b, ps[i].header, i), ps, i + 1)
  }

  // Stripping does not disturb reading

  predicate Fine(b: seq<Byte>, h: nat, p: Place) {
    h <= p.header && p.header % 4 == 0 && p.data == Up(p.header + HEADER + p.nameSize) <= |b|
  }

  /** Entries from `h` on, aligned and one after the other */
  predicate Laid(b: seq<Byte>, h: nat, ps: seq<Place>) {
    && (forall i | 0 <= i < |ps| :: Fine(b, h, ps[i]))
    && (forall i, j | 0 <= i < j < |ps| :: ps[i].data <= ps[j].header)
  }

  lemma UpTo(x: nat)
    ensures x <= Up(x) < x + 4 && Up(x) % 4 == 0
  {
  }

  /** One step of the reader */
  lemma Reading(b: seq<Byte>, h: nat, p: Place, ps: seq<Place>)
    requires Places(b, h) == Some(ps) && PlaceAt(b, h) == Some(p)
    ensures p.header == h && p.data == Up(h + HEADER + p.nameSize) && h + HEADER + p.nameSize <= |b|
    ensures p.data <= Next(p) && Next(p) % 4 == 0
    ensures if IsTrailer(b, p) then ps == []
            else ps != [] && ps[0] == p && Next(p) <= |b| && Places(b, Next(p)) == Some(ps[1..])
  {
    UpTo(h + HEADER + p.nameSize);
    UpTo(p.data + p.size);
    if !IsTrailer(b, p) {
      assert ps == [p] + Places(b, Next(p)).value;
    }
  }

  lemma {:induction false} PlacesLaid(b: seq<Byte>, h: nat, ps: seq<Place>)
    requires h % 4 == 0 && Places(b, h) == Some(ps)
    ensures Laid(b, h, ps) && Inside(b, ps)
    decreases |b| - h
  {
    var p := PlaceAt(b, h).value;
    Reading(b, h, p, ps);
    UpTo(h + HEADER + p.nameSize);
    if !IsTrailer(b, p) {
      PlacesLaid(b, Next(p), ps[1..]);
      LaidMore(b, h, ps, Next(p));
    }
  }

  /** A header is read where the magic and the two sizes are. */
  predicate Header(b: seq<Byte>, h: nat, nameSize: nat, size: nat) {
    && h + HEADER + nameSize <= |b| && b[h..h + 6] == MAGIC
    && Number(b[h + 54..h + 62]) == Some(size) && Number(b[h + 94..h + 102]) == Some(nameSize)
  }

  /** Only headers are read, one behind the other, up to a header with the name of the trailer. */
  lemma {:induction false} OnlyHeaders(b: seq<Byte>, h: nat, ps: seq<Place>) returns (end: Place)
    requires Places(b, h) == Some(ps)
    ensures forall i | 0 <= i < |ps| :: Header(b, ps[i].header, ps[i].nameSize, ps[i].size)
    ensures forall i | 0 < i < |ps| :: ps[i].header == Next(ps[i - 1])
    ensures end.header == (if ps == [] then h else Next(ps[|ps| - 1]))
    ensures Header(b, end.header, end.nameSize, end.size) && IsTrailer(b, end)
    ensures ps != [] ==> ps[0].header == h
    decreases |b| - h
  {
    var p := PlaceAt(b, h).value;
    Reading(b, h, p, ps);
    if IsTrailer(b, p) {
      end := p;
    } else {
      end := OnlyHeaders(b, Next(p), ps[1..]);
      assert forall i | 0 < i < |ps| :: ps[i] == ps[1..][i - 1];
    }
  }

  lemma LaidMore(b: seq<Byte>, h: nat, ps: seq<Place>, next: nat)
    requires ps != [] && Laid(b, next, ps[1..]) && Inside(b, ps[1..])
    requires h == ps[0].header <= ps[0].data <= next <= |b| && h % 4 == 0 && h + HEADER <= |b|
    requires ps[0].data == Up(h + HEADER + ps[0].nameSize)
    ensures Laid(b, h, ps) && Inside(b, ps)
  {
    forall i | 0 <= i < |ps| ensures Fine(b, h, ps[i]) && ps[i].header + HEADER <= |b| {
      if i > 0 { assert ps[i] == ps[1..][i - 1] && Fine(b, next, ps[1..][i - 1]); }
    }
    forall i, j | 0 <= i < j < |ps| ensures ps[i].data <= ps[j].header {
      assert ps[j] == ps[1..][j - 1] && Fine(b, next, ps[1..][j - 1]);
      if i > 0 { assert ps[i] == ps[1..][i - 1]; }
    }
  }

  lemma PlaceStable(b: seq<Byte>, c: seq<Byte>, h: nat)
    requires |b| == |c| && PlaceAt(b, h).Some?
    requires forall k | h <= k < h + HEADER + PlaceAt(b, h).value.nameSize && !Meta(h, k) :: b[k] == c[k]
    ensures PlaceAt(c, h) == PlaceAt(b, h)
    ensures IsTrailer(c, PlaceAt(b, h).value) == IsTrailer(b, PlaceAt(b, h).value)
  {
    var n := h + HEADER + PlaceAt(b, h).value.nameSize;
    assert b[h..h + 6] == c[h..h + 6];
    assert b[h + 94..h + 102] == c[h + 94..h + 102];
    assert b[h + 54..h + 62] == c[h + 54..h + 62];
    assert b[h + HEADER..n] == c[h + HEADER..n];
  }

  /** The reader finds the same entries whatever the metadata holds. */
  lemma {:induction false} ReadingIgnoresMeta(b: seq<Byte>, c: seq<Byte>, h: nat, ps: seq<Place>)
    requires h % 4 == 0 && Places(b, h) == Some(ps) && |b| == |c|
    requires forall k | h <= k < |b| && !IsMeta(ps, k) :: b[k] == c[k]
    ensures Places(c, h) == Some(ps)
    decreases |b| - h
  {
    PlacesLaid(b, h, ps);
    var p := PlaceAt(b, h).value;
    Reading(b, h, p, ps);
    forall k | h <= k < h + HEADER + p.nameSize && !Meta(h, k) ensures b[k] == c[k] {
      NotMeta(b, h, ps, p, k);
    }
    PlaceStable(b, c, h);
    if !IsTrailer(b, p) {
      forall k | Next(p) <= k < |b| && !IsMeta(ps[1..], k) ensures b[k] == c[k] {
        LaterMeta(ps, 0, k);
        UpTo(h + HEADER + p.nameSize);
        assert ps[0..] == ps;
      }
      ReadingIgnoresMeta(b, c, Next(p), ps[1..]);
      assert ps == [p] + ps[1..];
    }
  }

  lemma NotMeta(b: seq<Byte>, h: nat, ps: seq<Place>, p: Place, k: nat)
    requires Laid(b, h, ps) && (ps == [] || ps[0] == p)
    requires h == p.header <= k < h + HEADER + p.nameSize && !Meta(h, k)
    ensures !IsMeta(ps, k)
  {
    UpTo(h + HEADER + p.nameSize);
    forall i | 0 <= i < |ps| ensures !Meta(ps[i].header, k) {
      assert i > 0 ==> ps[0].data <= ps[i].header;
    }
  }

  // What stripping does

  lemma PatchAt(b: seq<Byte>, at: nat, field: seq<Byte>, k: nat)
    requires at + |field| <= |b| && k < |b|
    ensures Patch(b, at, field)[k] == if at <= k < at + |field| then field[k - at] else b[k]
  {
  }

  function Rewritten(b: seq<Byte>, h: nat, i: nat, k: nat): Byte
    requires k < |b|
  {
    if h + 6 <= k < h + 14 then InodeField(i)[k - h - 6] else if Meta(h, k) then 0 else b[k]
  }

  lemma RewriteAt(b: seq<Byte>, h: nat, i: nat, k: nat)
    requires h + HEADER <= |b| && k < |b|
    ensures Rewrite(b, h, i)[k] == Rewritten(b, h, i, k)
  {
    var r := Patch(b, h + 6, InodeField(i));
    var s := Patch(r, h + 22, BLANK);
    var t := Patch(s, h + 30, BLANK);
    PatchAt(b, h + 6, InodeField(i), k);
    PatchAt(r, h + 22, BLANK, k);
    PatchAt(s, h + 30, BLANK, k);
    PatchAt(t, h + 46, BLANK, k);
  }

  lemma {:induction false} StrippedOnlyMeta(b: seq<Byte>, ps: seq<Place>, i: nat)
    requires Inside(b, ps) && i <= |ps|
    ensures SameButMeta(b, Stripped(b, ps, i), ps[i..])
    decreases |ps| - i
  {
    if i < |ps| {
      var c := Rewrite(b, ps[i].header, i);
      StrippedOnlyMeta(c, ps, i + 1);
      forall k | 0 <= k < |b| && !IsMeta(ps[i..], k) ensures b[k] == Stripped(b, ps, i)[k] {
        assert !Meta(ps[i..][0].header, k);
        RewriteAt(b, ps[i].header, i, k);
        LaterMeta(ps, i, k);
      }
    }
  }

  lemma LaterMeta(ps: seq<Place>, i: nat, k: nat)
    requires i < |ps|
    ensures IsMeta(ps[i..], k) <==> Meta(ps[i].header, k) || IsMeta(ps[i + 1..], k)
  {
    if IsMeta(ps[i..], k) {
      var j :| 0 <= j < |ps[i..]| && Meta(ps[i..][j].header, k);
      assert j > 0 ==> ps[i..][j] == ps[i + 1..][j - 1];
    }
    if IsMeta(ps[i + 1..], k) {
      var j :| 0 <= j < |ps[i + 1..]| && Meta(ps[i + 1..][j].header, k);
      assert ps[i + 1..][j] == ps[i..][j + 1];
    }
    if Meta(ps[i].header, k) { assert ps[i..][0] == ps[i]; }
  }

  /** Archives that differ in metadata only become equal. */
  lemma {:induction false} StrippedCanonical(b: seq<Byte>, c: seq<Byte>, ps: seq<Place>, i: nat)
    requires Inside(b, ps) && i <= |ps| && SameButMeta(b, c, ps[i..])
    ensures Stripped(b, ps, i) == Stripped(c, ps, i)
    decreases |ps| - i
  {
    if i == |ps| {
      assert forall k | 0 <= k < |b| :: !IsMeta(ps[i..], k);
    } else {
      var d, e := Rewrite(b, ps[i].header, i), Rewrite(c, ps[i].header, i);
      forall k | 0 <= k < |d| && !IsMeta(ps[i + 1..], k) ensures d[k] == e[k] {
        LaterMeta(ps, i, k);
        RewriteAt(b, ps[i].header, i, k);
        RewriteAt(c, ps[i].header, i, k);
      }
      StrippedCanonical(d, e, ps, i + 1);
    }
  }

  /** Two readable archives strip to the same bytes exactly when they hold the same entries
      and differ in metadata only. */
  lemma SameStrippedIff(b: seq<Byte>, ps: seq<Place>, c: seq<Byte>, qs: seq<Place>)
    requires Places(b, 0) == Some(ps) && Places(c, 0) == Some(qs)
    ensures Inside(b, ps) && Inside(c, qs)
    ensures Stripped(b, ps, 0) == Stripped(c, qs, 0) <==> SameButMeta(b, c, ps)
  {
    PlacesLaid(b, 0, ps);
    PlacesLaid(c, 0, qs);
    assert ps[0..] == ps && qs[0..] == qs;
    StrippedOnlyMeta(b, ps, 0);
    StrippedOnlyMeta(c, qs, 0);
    ReadingIgnoresMeta(b, Stripped(b, ps, 0), 0, ps);
    ReadingIgnoresMeta(c, Stripped(c, qs, 0), 0, qs);
    if SameButMeta(b, c, ps) {
      ReadingIgnoresMeta(b, c, 0, ps);
      StrippedCanonical(b, c, ps, 0);
    }
  }

  lemma StripAgain(b: seq<Byte>, ps: seq<Place>)
    requires Places(b, 0) == Some(ps)
    ensures Inside(b, ps) && Places(Stripped(b, ps, 0), 0) == Some(ps)
    ensures Stripped(Stripped(b, ps, 0), ps, 0) == Stripped(b, ps, 0)
  {
    PlacesLaid(b, 0, ps);
    assert ps[0..] == ps;
    StrippedOnlyMeta(b, ps, 0);
    ReadingIgnoresMeta(b, Stripped(b, ps, 0), 0, ps);
    StrippedCanonical(b, Stripped(b, ps, 0), ps, 0);
  }

  /** The metadata an entry has after stripping */
  predicate HasFields(r: seq<Byte>, at: nat, i: nat)
    requires at + HEADER <= |r|
  {
    && r[at + 6..at + 14] == InodeField(i)
    && r[at + 22..at + 30] == r[at + 30..at + 38] == r[at + 46..at + 54] == BLANK
  }

  lemma RewriteFields(b: seq<Byte>, at: nat, i: nat)
    requires at + HEADER <= |b|
    ensures HasFields(Rewrite(b, at, i), at, i)
  {
    var r := Rewrite(b, at, i);
    forall k | at <= k < at + HEADER
      ensures r[k] == Rewritten(b, at, i, k)
    {
      RewriteAt(b, at, i, k);
    }
    assert r[at + 6..at + 14] == InodeField(i);
    assert r[at + 22..at + 30] == BLANK;
    assert r[at + 30..at + 38] == BLANK;
    assert r[at + 46..at + 54] == BLANK;
  }

  lemma SameFields(r: seq<Byte>, c: seq<Byte>, at: nat, i: nat)
    requires |r| == |c| && at + HEADER <= |r| && HasFields(c, at, i)
    requires forall k | at <= k < at + HEADER :: r[k] == c[k]
    ensures HasFields(r, at, i)
  {
    assert r[at + 6..at + 14] == c[at + 6..at + 14];
    assert r[at + 22..at + 30] == c[at + 22..at + 30];
    assert r[at + 30..at + 38] == c[at + 30..at + 38];
    assert r[at + 46..at + 54] == c[at + 46..at + 54];
  }

  lemma {:induction false} StrippedFields(b: seq<Byte>, h: nat, ps: seq<Place>, i: nat, j: nat)
    requires Laid(b, h, ps) && Inside(b, ps) && i <= j < |ps|
    ensures HasFields(Stripped(b, ps, i), ps[j].header, j)
    decreases j - i
  {
    var at, c := ps[i].header, Rewrite(b, ps[i].header, i);
    if i < j {
      StrippedFields(c, h, ps, i + 1, j);
    } else {
      StrippedOnlyMeta(c, ps, i + 1);
      forall k | at <= k < at + HEADER ensures Stripped(b, ps, i)[k] == c[k] {
        LaterHeaders(b, h, ps, i, k);
      }
      RewriteFields(b, at, i);
      SameFields(Stripped(b, ps, i), c, at, i);
    }
  }

  lemma LaterHeaders(b: seq<Byte>, h: nat, ps: seq<Place>, i: nat, k: nat)
    requires Laid(b, h, ps) && i < |ps| && k < ps[i].header + HEADER
    ensures !IsMeta(ps[i + 1..], k)
  {
    UpTo(ps[i].header + HEADER + ps[i].nameSize);
    var later := ps[i + 1..];
    forall j | 0 <= j < |later| ensures !Meta(later[j].header, k) {
      assert later[j] == ps[i + 1 + j];
      assert ps[i].data <= ps[i + 1 + j].header;
    }
  }

  // Inode numbers

  /** Digits and small letters */
  predicate SmallHex(s: seq<Byte>) {
    forall i | 0 <= i < |s| :: '0' as int <= s[i] <= '9' as int || 'a' as int <= s[i] <= 'f' as int
  }

  lemma {:induction false} SmallLetters(v: nat, digits: nat)
    ensures SmallHex(Hex(v, digits, false))
    decreases digits
  {
    if digits > 0 { SmallLetters(v / 16, digits - 1); }
  }

  /** The field is a string of seven digits that read as the number without its last digit. */
  lemma InodeFieldReads(i: nat)
    ensures InodeField(i)[7] == 0 && Number(InodeField(i)[..7]) == Some((11 + i) % 0x1_0000_0000 / 16)
    ensures SmallHex(InodeField(i)[..7])
  {
    var v := Inode(i);
    SmallLetters(v / 16, 7);
    assert InodeField(i)[..7] == Hex(v / 16, 7, false);
    assert Power16(7) == 0x1000_0000;
    NumberOfHex(v / 16, 7, false);
  }

  /** The last digit is cut off, so sixteen consecutive numbers share a field. */
  lemma InodeFieldIff(i: nat, j: nat)
    ensures InodeField(i) == InodeField(j) <==> Inode(i) / 16 == Inode(j) / 16
  {
    InodeFieldReads(i);
    InodeFieldReads(j);
    assert InodeField(i) == Hex(Inode(i) / 16, 7, false) + [0];
    assert InodeField(j) == Hex(Inode(j) / 16, 7, false) + [0];
  }

  /** So a stripped archive shows entry j with the number 11 + j divided by 16. */
  lemma StrippedInode(b: seq<Byte>, ps: seq<Place>, j: nat)
    requires Places(b, 0) == Some(ps) && j < |ps|
    ensures Inside(b, ps)
    ensures ShowsInode(Stripped(b, ps, 0), ps[j], j)
  {
    EntryFields(b, ps, j);
    FieldReads(Stripped(b, ps, 0), ps[j], j);
  }

  /** The inode field holds seven digits that read as (11 + j) / 16 in 32 bits, and a zero. */
  predicate ShowsInode(r: seq<Byte>, p: Place, j: nat)
    requires p.header + HEADER <= |r|
  {
    && InodeOf(r, p)[7] == 0 && SmallHex(InodeOf(r, p)[..7])
    && Number(InodeOf(r, p)[..7]) == Some((11 + j) % 0x1_0000_0000 / 16)
  }

  lemma FieldReads(r: seq<Byte>, p: Place, j: nat)
    requires p.header + HEADER <= |r| && HasFields(r, p.header, j)
    ensures ShowsInode(r, p, j)
  {
    InodeFieldReads(j);
  }

  /** The inode numbers are meant to be distinct within the archive. Two of them clash exactly
      when they differ in the last digit only, */
  lemma ClashIff(b: seq<Byte>, ps: seq<Place>, i: nat, j: nat)
    requires Places(b, 0) == Some(ps) && i < |ps| && j < |ps|
    ensures Inside(b, ps)
    ensures InodeOf(Stripped(b, ps, 0), ps[i]) == InodeOf(Stripped(b, ps, 0), ps[j]) <==> Inode(i) / 16 == Inode(j) / 16
  {
    EntryFields(b, ps, i);
    EntryFields(b, ps, j);
    SameInodeIff(Stripped(b, ps, 0), ps[i], ps[j], i, j);
  }

  lemma EntryFields(b: seq<Byte>, ps: seq<Place>, j: nat)
    requires Places(b, 0) == Some(ps) && j < |ps|
    ensures Inside(b, ps) && HasFields(Stripped(b, ps, 0), ps[j].header, j)
  {
    PlacesLaid(b, 0, ps);
    StrippedFields(b, 0, ps, 0, j);
  }

  lemma SameInodeIff(r: seq<Byte>, p: Place, q: Place, i: nat, j: nat)
    requires p.header + HEADER <= |r| && q.header + HEADER <= |r|
    requires HasFields(r, p.header, i) && HasFields(r, q.header, j)
    ensures InodeOf(r, p) == InodeOf(r, q) <==> Inode(i) / 16 == Inode(j) / 16
  {
    InodeFieldIff(i, j);
  }

  predicate DistinctInodes(r: seq<Byte>, ps: seq<Place>)
    requires Inside(r, ps)
  {
    forall i, j | 0 <= i < j < |ps| :: InodeOf(r, ps[i]) != InodeOf(r, ps[j])
  }

  /** so they are distinct exactly for archives of at most one file. */
  lemma InodesDistinctIff(b: seq<Byte>, ps: seq<Place>)
    requires Places(b, 0) == Some(ps)
    ensures Inside(b, ps)
    ensures DistinctInodes(Stripped(b, ps, 0), ps) <==> |ps| <= 1
  {
    assert Inside(b, ps) by { PlacesLaid(b, 0, ps); }
    if |ps| > 1 {
      assert !DistinctInodes(Stripped(b, ps, 0), ps) by { FirstTwoClash(b, ps, 0, 1); }
    } else {
      assert DistinctInodes(Stripped(b, ps, 0), ps);
    }
  }

  lemma FirstTwoClash(b: seq<Byte>, ps: seq<Place>, i: nat, j: nat)
    requires Places(b, 0) == Some(ps) && i == 0 && j == 1 < |ps|
    ensures Inside(b, ps) && !DistinctInodes(Stripped(b, ps, 0), ps)
  {
    SameNumber(i, j);
    Clash(b, ps, i, j);
  }

  lemma SameNumber(i: nat, j: nat)
    requires i == 0 && j == 1
    ensures Inode(i) / 16 == Inode(j) / 16
  {
  }

  lemma Clash(b: seq<Byte>, ps: seq<Place>, i: nat, j: nat)
    requires Places(b, 0) == Some(ps) && i < j < |ps| && Inode(i) / 16 == Inode(j) / 16
    ensures Inside(b, ps) && !DistinctInodes(Stripped(b, ps, 0), ps)
  {
    ClashIff(b, ps, i, j);
    NotDistinct(Stripped(b, ps, 0), ps, i, j);
  }

  lemma NotDistinct(r: seq<Byte>, ps: seq<Place>, i: nat, j: nat)
    requires Inside(r, ps) && i < j < |ps| && InodeOf(r, ps[i]) == InodeOf(r, ps[j])
    ensures !DistinctInodes(r, ps)
  {
  }

  function InodeOf(b: seq<Byte>, p: Place): seq<Byte>
    requires p.header + HEADER <= |b|
  {
    b[p.header + 6..p.header + 14]
  }

  // The program

  /** `memset` and `snprintf` into a field */
  method Store(a: array<Byte>, at: nat, field: seq<Byte>)
    requires at + |field| <= a.Length
    modifies a
    ensures a[..] == Patch(old(a[..]), at, field)
  {
    var k := 0;
    while k < |field|
      invariant k <= |field|
      invariant forall t | 0 <= t < a.Length ::
        a[t] == if at <= t < at + k then field[t - at] else old(a[t])
    {
      a[at + k] := field[k];
      k := k + 1;
    }
  }

  lemma Found(b: seq<Byte>, p: Place, length: nat)
    requires Fine(b, 0, p) && NameFits(length, p)
    ensures GetHeader(p.data, length) == p.header
  {
    GetHeaderIff(p.header, p.nameSize, length);
  }

  /** Entry i is looked up in the bytes as they are by then. */
  method FindHeader(b: seq<Byte>, i: nat, ghost ps: seq<Place>) returns (header: nat)
    requires Places(b, 0) == Some(ps) && Named(b, ps) && i < |ps|
    ensures header == ps[i].header
  {
    PlacesLaid(b, 0, ps);
    var entry := Places(b, 0).value[i];
    assert Fine(b, 0, entry);
    var length := Length(b, entry.header + HEADER);
    assert NameFits(length, entry);
    Found(b, entry, length);
    header := GetHeader(entry.data, length);
  }

  method WriteMeta(a: array<Byte>, header: nat, i: nat)
    requires header + HEADER <= a.Length
    modifies a
    ensures a[..] == Rewrite(old(a[..]), header, i)
  {
    Store(a, header + 6, InodeField(i));
    Store(a, header + 22, BLANK);
    Store(a, header + 30, BLANK);
    Store(a, header + 46, BLANK);
  }

  /** Strips a readable archive and leaves an unreadable one alone. */
  method Strip(a: array<Byte>) returns (ok: bool)
    requires Places(a[..], 0).Some? ==> Named(a[..], Places(a[..], 0).value)
    modifies a
    ensures ok == old(Places(a[..], 0)).Some?
    ensures !ok ==> a[..] == old(a[..])
    ensures ok ==> var ps := old(Places(a[..], 0)).value; Inside(old(a[..]), ps) && a[..] == Stripped(old(a[..]), ps, 0)
    ensures ok ==> Numbered(a[..], old(Places(a[..], 0)).value)
  {
    ghost var b := a[..];
    var info := Places(a[..], 0);
    if info.None? { return false; }
    ghost var ps := info.value;
    PlacesLaid(b, 0, ps);
    var i := 0;
    while i < |info.value|
      invariant i <= |ps| && Going(a[..], b, ps, i)
    {
      GoesOn(a[..], b, ps, i);
      var header := FindHeader(a[..], i, ps);
      WriteMeta(a, header, i);
      i := i + 1;
    }
    AllNumbered(b, ps);
    return true;
  }

  predicate Numbered(r: seq<Byte>, ps: seq<Place>) {
    Inside(r, ps) && forall j | 0 <= j < |ps| :: ShowsInode(r, ps[j], j)
  }

  lemma AllNumbered(b: seq<Byte>, ps: seq<Place>)
    requires Places(b, 0) == Some(ps)
    ensures Inside(b, ps) && Numbered(Stripped(b, ps, 0), ps)
  {
    PlacesLaid(b, 0, ps);
    forall j | 0 <= j < |ps| ensures ShowsInode(Stripped(b, ps, 0), ps[j], j) { StrippedInode(b, ps, j); }
  }

  /** Stripping `b`, with the entries from number i on still to do */
  ghost predicate Going(c: seq<Byte>, b: seq<Byte>, ps: seq<Place>, i: nat)
    requires i <= |ps|
  {
    && |c| == |b| && Inside(b, ps) && Places(c, 0) == Some(ps) && Named(c, ps)
    && Stripped(c, ps, i) == Stripped(b, ps, 0)
  }

  lemma GoesOn(c: seq<Byte>, b: seq<Byte>, ps: seq<Place>, i: nat)
    requires i < |ps| && Going(c, b, ps, i)
    ensures Going(Rewrite(c, ps[i].header, i), b, ps, i + 1)
  {
    RewriteKeeps(c, ps, i);
  }

  /** One entry's rewrite keeps the layout and the names. */
  lemma RewriteKeeps(b: seq<Byte>, ps: seq<Place>, i: nat)
    requires Places(b, 0) == Some(ps) && Inside(b, ps) && Named(b, ps) && i < |ps|
    ensures var c := Rewrite(b, ps[i].header, i); Places(c, 0) == Some(ps) && Named(c, ps)
  {
    var c := Rewrite(b, ps[i].header, i);
    PlacesLaid(b, 0, ps);
    forall k | 0 <= k < |b| && !IsMeta(ps, k) ensures b[k] == c[k] {
      RewriteAt(b, ps[i].header, i, k);
    }
    ReadingIgnoresMeta(b, c, 0, ps);
    forall j | 0 <= j < |ps| ensures Length(c, ps[j].header + HEADER) == Length(b, ps[j].header + HEADER) {
      NameKept(b, ps, i, j);
    }
  }

  lemma NameKept(b: seq<Byte>, ps: seq<Place>, i: nat, j: nat)
    requires Laid(b, 0, ps) && Inside(b, ps) && Named(b, ps) && i < |ps| && j < |ps|
    ensures var at := ps[j].header + HEADER; Length(Rewrite(b, ps[i].header, i), at) == Length(b, at)
  {
    var at, c := ps[j].header + HEADER, Rewrite(b, ps[i].header, i);
    assert Fine(b, 0, ps[j]) && NameFits(Length(b, at), ps[j]);
    NameEnds(ps[j], Length(b, at));
    forall k | at <= k < ps[j].data ensures b[k] == c[k] {
      RewriteAt(b, ps[i].header, i, k);
      Apart(b, ps, i, j);
    }
    SameLength(b, c, at, ps[j].data);
  }

  lemma Apart(b: seq<Byte>, ps: seq<Place>, i: nat, j: nat)
    requires Laid(b, 0, ps) && i < |ps| && j < |ps|
    ensures i < j ==> ps[i].header + HEADER <= ps[j].header
    ensures j < i ==> ps[j].data <= ps[i].header
  {
    assert Fine(b, 0, ps[i]);
    UpTo(ps[i].header + HEADER + ps[i].nameSize);
  }

  /** The final zero of a name lies before the data. */
  lemma NameEnds(p: Place, length: nat)
    requires p.header % 4 == 0 && p.data == Up(p.header + HEADER + p.nameSize) && NameFits(length, p)
    ensures p.header + HEADER + length < p.data
  {
    UpTo(HEADER + length + 1);
    UpFrom(p.header, HEADER + p.nameSize);
  }

  lemma {:induction false} SameLength(b: seq<Byte>, c: seq<Byte>, at: nat, end: nat)
    requires |b| == |c| && at + Length(b, at) < end <= |b|
    requires forall k | at <= k < end :: b[k] == c[k]
    ensures Length(c, at) == Length(b, at)
    decreases end - at
  {
    if b[at] != 0 { SameLength(b, c, at + 1, end); }
  }
}
