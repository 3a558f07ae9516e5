/** Archives built from files, as the new ASCII format lays them out: what the reader finds in
    them, and what stripping makes of the files. */
module CpioArchive {
  import opened Common
  import opened Cpio

  type Field = s: seq<Byte> | |s| == 8 witness [0, 0, 0, 0, 0, 0, 0, 0]

  datatype File = File(
    ino: Field, mode: Field, uid: Field, gid: Field, nlink: Field, mtime: Field,
    devmajor: Field, devminor: Field, rdevmajor: Field, rdevminor: Field, check: Field,
    name: seq<Byte>, data: seq<Byte>)

  // Building

  /** The thirteen fields of `struct cpio_header` after the magic, in order */
  function Fields(f: File, capital: bool): seq<Field> {
    [f.ino, f.mode, f.uid, f.gid, f.nlink, f.mtime, Hex(|f.data|, 8, capital),
     f.devmajor, f.devminor, f.rdevmajor, f.rdevminor, Hex(|f.name| + 1, 8, capital), f.check]
  }

  function Joined(fields: seq<Field>): (s: seq<Byte>)
    ensures |s| == 8 * |fields|
  {
    if fields == [] then [] else fields[0] + Joined(fields[1..])
  }

  /** Zeros up to the alignment */
  function Padding(n: nat): (s: seq<Byte>)
    ensures |s| == Up(n) - n
  {
    UpTo(n);
    seq(Up(n) - n, _ => 0)
  }

  /** An entry: header, name with its final zero, and data, each of the last two filled up */
  datatype Entry = Entry(head: seq<Byte>, name: seq<Byte>, pad: seq<Byte>, data: seq<Byte>, end: seq<Byte>)

  function Bytes(e: Entry): seq<Byte> { e.head + (e.name + e.pad + e.data + e.end) }

  function EntryOf(f: File, capital: bool): Entry {
    var n := HEADER + |f.name| + 1;
    Entry(MAGIC + Joined(Fields(f, capital)), f.name + [0], Padding(n), f.data, Padding(Up(n) + |f.data|))
  }

  function EntriesOf(files: seq<File>, capital: bool): (es: seq<Entry>)
    ensures |es| == |files|
    ensures forall i | 0 <= i < |files| :: es[i] == EntryOf(files[i], capital)
  {
    seq(|files|, i requires 0 <= i < |files| => EntryOf(files[i], capital))
  }

  function All(es: seq<Entry>): seq<Byte> {
    if es == [] then [] else Bytes(es[0]) + All(es[1..])
  }

  /** The files, the trailer, and whatever fills up the archive */
  function Archive(files: seq<File>, last: File, capital: bool, filler: seq<Byte>): seq<Byte> {
    All(EntriesOf(files, capital)) + (Bytes(EntryOf(last, capital)) + filler)
  }

  /** Names and sizes that the format can hold, and a name that does not end the archive */
  predicate Regular(f: File) {
    |f.data| < Power16(8) && |f.name| + 1 < Power16(8) && 0 !in f.name && f.name + [0] != TRAILER
  }

  predicate Last(f: File) { |f.data| < Power16(8) && f.name + [0] == TRAILER }

  // Where the entries lie

  function PlaceOf(e: Entry, h: nat): Place {
    Place(h, |e.name|, h + |e.head| + |e.name| + |e.pad|, |e.data|)
  }

  function PlacesOf(es: seq<Entry>, h: nat): seq<Place> {
    if es == [] then [] else [PlaceOf(es[0], h)] + PlacesOf(es[1..], h + |Bytes(es[0])|)
  }

  /** Header and sizes agree with the rest of the entry, and the parts end at multiples of four. */
  predicate Sound(e: Entry) {
    && SoundHead(e.head, |e.name|, |e.data|) && |e.pad| < 4 && |e.end| < 4
    && (|e.head| + |e.name| + |e.pad|) % 4 == 0 && |Bytes(e)| % 4 == 0
  }

  lemma {:induction false} JoinedAt(fields: seq<Field>, k: nat)
    requires k < |fields|
    ensures Joined(fields)[8 * k..8 * k + 8] == fields[k]
    decreases k
  {
    var s := Joined(fields);
    if k > 0 {
      JoinedAt(fields[1..], k - 1);
      assert s[8 * k..8 * k + 8] == Joined(fields[1..])[8 * (k - 1)..8 * (k - 1) + 8];
    }
  }

  lemma HeaderField(fields: seq<Field>, k: nat, at: nat)
    requires k < |fields| && at == 6 + 8 * k
    ensures (MAGIC + Joined(fields))[at..at + 8] == fields[k]
  {
    JoinedAt(fields, k);
    Behind(MAGIC, Joined(fields), k, at);
  }

  lemma Behind(m: seq<Byte>, s: seq<Byte>, k: nat, at: nat)
    requires |m| == 6 && 8 * k + 8 <= |s| && at == 6 + 8 * k
    ensures (m + s)[at..at + 8] == s[8 * k..8 * k + 8]
  {
    After(m, s, 8 * k, 8 * k + 8);
  }

  lemma After(a: seq<Byte>, s: seq<Byte>, i: nat, j: nat)
    requires i <= j <= |s|
    ensures (a + s)[|a| + i..|a| + j] == s[i..j]
  {
  }

  predicate SoundHead(head: seq<Byte>, name: nat, data: nat) {
    && |head| == HEADER && head[..6] == MAGIC
    && Number(head[54..62]) == Some(data) && Number(head[94..102]) == Some(name)
  }

  lemma HeadIsSound(f: File, capital: bool)
    requires |f.data| < Power16(8) && |f.name| + 1 < Power16(8)
    ensures SoundHead(EntryOf(f, capital).head, |f.name| + 1, |f.data|)
  {
    var fields := Fields(f, capital);
    var head := MAGIC + Joined(fields);
    assert head[..6] == MAGIC;
    assert Number(head[54..62]) == Some(|f.data|) by {
      HeaderField(fields, 6, 54);
      NumberOfHex(|f.data|, 8, capital);
    }
    assert Number(head[94..102]) == Some(|f.name| + 1) by {
      HeaderField(fields, 11, 94);
      NumberOfHex(|f.name| + 1, 8, capital);
    }
  }

  /** What is built from a file whose sizes fit is sound. */
  lemma BuiltIsSound(f: File, capital: bool)
    requires |f.data| < Power16(8) && |f.name| + 1 < Power16(8)
    ensures Sound(EntryOf(f, capital))
  {
    var n := HEADER + |f.name| + 1;
    HeadIsSound(f, capital);
    UpTo(n);
    UpTo(Up(n) + |f.data|);
  }

  // Reading

  /** The parts of an entry that lies between other bytes */
  lemma PartsAt(pre: seq<Byte>, e: Entry, post: seq<Byte>)
    requires |e.head| == HEADER
    ensures var b, h, p := pre + Bytes(e) + post, |pre|, PlaceOf(e, |pre|);
      && p.data + p.size + |e.end| <= |b| && b[h..h + HEADER] == e.head
      && b[h + HEADER..h + HEADER + p.nameSize] == e.name && b[p.data..p.data + p.size] == e.data
  {
    var b := pre + Bytes(e) + post;
    assert b == pre + e.head + (e.name + e.pad + e.data + e.end + post);
    assert b == (pre + e.head) + e.name + (e.pad + e.data + e.end + post);
    assert b == (pre + e.head + e.name + e.pad) + e.data + (e.end + post);
  }

  lemma UpIs(x: nat, r: nat)
    requires x <= r < x + 4 && r % 4 == 0
    ensures Up(x) == r
  {
    UpTo(x);
  }

  lemma SumAligned(a: nat, b: nat)
    requires a % 4 == 0 && b % 4 == 0
    ensures (a + b) % 4 == 0
  {
  }

  /** The alignment leads from the name to the data and from the data to the next entry. */
  lemma Steps(e: Entry, h: nat)
    requires Sound(e) && h % 4 == 0
    ensures Up(h + HEADER + |e.name|) == PlaceOf(e, h).data && Next(PlaceOf(e, h)) == h + |Bytes(e)|
    ensures (h + |Bytes(e)|) % 4 == 0
  {
    SumAligned(h, |e.head| + |e.name| + |e.pad|);
    SumAligned(h, |Bytes(e)|);
    UpIs(h + HEADER + |e.name|, h + |e.head| + |e.name| + |e.pad|);
    UpIs(PlaceOf(e, h).data + |e.data|, h + |Bytes(e)|);
  }

  lemma HeaderRead(b: seq<Byte>, h: nat, e: Entry)
    requires Sound(e) && h + HEADER + |e.name| <= |b| && b[h..h + HEADER] == e.head
    ensures PlaceAt(b, h) == Some(Place(h, |e.name|, Up(h + HEADER + |e.name|), |e.data|))
  {
    Slice(b, h, HEADER, 0, 6);
    Slice(b, h, HEADER, 54, 62);
    Slice(b, h, HEADER, 94, 102);
  }

  lemma Slice(b: seq<Byte>, h: nat, n: nat, i: nat, j: nat)
    requires i <= j <= n && h + n <= |b|
    ensures b[h..h + n][i..j] == b[h + i..h + j]
  {
    var a := b[h..h + n];
    forall t | 0 <= t < j - i ensures a[i..j][t] == b[h + i..h + j][t] {
      assert a[i + t] == b[h + (i + t)];
    }
  }

  /** From `h` on the reader finds these entries. */
  ghost predicate Reads(b: seq<Byte>, h: nat, ps: seq<Place>) { Places(b, h) == Some(ps) }

  lemma ReadsOne(b: seq<Byte>, h: nat, p: Place, ps: seq<Place>)
    requires PlaceAt(b, h) == Some(p) && p.header + HEADER + p.nameSize <= |b| && !IsTrailer(b, p)
    requires Next(p) <= |b| && Reads(b, Next(p), ps)
    ensures Reads(b, h, [p] + ps)
  {
  }

  lemma ReadsEnd(b: seq<Byte>, h: nat, p: Place)
    requires PlaceAt(b, h) == Some(p) && p.header + HEADER + p.nameSize <= |b| && IsTrailer(b, p)
    ensures Reads(b, h, [])
  {
  }

  lemma FindsEntry(pre: seq<Byte>, e: Entry, post: seq<Byte>)
    requires Sound(e) && |pre| % 4 == 0
    ensures var b, h := pre + Bytes(e) + post, |pre|; var p := PlaceOf(e, h);
      && PlaceAt(b, h) == Some(p) && p.header + HEADER + p.nameSize <= |b|
      && IsTrailer(b, p) == (e.name == TRAILER) && Next(p) == h + |Bytes(e)| <= |b|
  {
    var b, h := pre + Bytes(e) + post, |pre|;
    PartsAt(pre, e, post);
    HeaderRead(b, h, e);
    Steps(e, h);
  }

  /** Positions in `b` from which the reader gets to the trailer, with what it finds */
  type Readings = iset<(nat, seq<Place>)>

  /** Asking for a step of the reader */
  predicate Try(pre: seq<Byte>, e: Entry, post: seq<Byte>, ps: seq<Place>) { true }

  /** The reader steps over an entry and stops at the trailer. */
  ghost predicate Closed(b: seq<Byte>, all: Readings) {
    forall pre: seq<Byte>, e, post: seq<Byte>, ps {:trigger Try(pre, e, post, ps)} ::
      Try(pre, e, post, ps) && b == pre + Bytes(e) + post && Sound(e) && |pre| % 4 == 0 ==>
        && (e.name == TRAILER ==> (|pre|, []) in all)
        && (e.name != TRAILER && (|pre| + |Bytes(e)|, ps) in all ==> (|pre|, [PlaceOf(e, |pre|)] + ps) in all)
  }

  lemma ReaderIsClosed(b: seq<Byte>)
    ensures Closed(b, iset x: (nat, seq<Place>) | Reads(b, x.0, x.1))
  {
    var all := iset x: (nat, seq<Place>) | Reads(b, x.0, x.1);
    forall pre: seq<Byte>, e, post: seq<Byte>, ps
      | Try(pre, e, post, ps) && b == pre + Bytes(e) + post && Sound(e) && |pre| % 4 == 0
      ensures e.name == TRAILER ==> (|pre|, []) in all
      ensures e.name != TRAILER && (|pre| + |Bytes(e)|, ps) in all ==> (|pre|, [PlaceOf(e, |pre|)] + ps) in all
    {
      FindsEntry(pre, e, post);
      if e.name == TRAILER {
        ReadsEnd(b, |pre|, PlaceOf(e, |pre|));
      } else if (|pre| + |Bytes(e)|, ps) in all {
        ReadsOne(b, |pre|, PlaceOf(e, |pre|), ps);
      }
    }
  }

  lemma Regroup(pre: seq<Byte>, e: seq<Byte>, rest: seq<Byte>, post: seq<Byte>)
    ensures pre + ((e + rest) + post) == pre + e + (rest + post)
  {
  }

  /** The reader finds exactly the entries before the trailer. */
  lemma {:induction false} ReadsBack(b: seq<Byte>, all: Readings, pre: seq<Byte>, es: seq<Entry>, last: Entry,
                                     filler: seq<Byte>)
    requires Closed(b, all) && b == pre + (All(es) + (Bytes(last) + filler))
    requires |pre| % 4 == 0 && Sound(last) && last.name == TRAILER
    requires forall e | e in es :: Sound(e) && e.name != TRAILER
    ensures (|pre|, PlacesOf(es, |pre|)) in all
    decreases |es|
  {
    var post := Bytes(last) + filler;
    if es == [] {
      assert b == pre + Bytes(last) + filler;
      assert Try(pre, last, filler, []);
    } else {
      var e, rest, ps := es[0], All(es[1..]), PlacesOf(es[1..], |pre| + |Bytes(es[0])|);
      assert b == pre + Bytes(e) + (rest + post) by { Regroup(pre, Bytes(e), rest, post); }
      assert |pre + Bytes(e)| % 4 == 0 by { Steps(e, |pre|); }
      assert (|pre| + |Bytes(e)|, ps) in all by { ReadsBack(b, all, pre + Bytes(e), es[1..], last, filler); }
      assert Try(pre, e, rest + post, ps);
    }
  }

  // Names

  lemma {:induction false} LengthOf(b: seq<Byte>, at: nat, name: seq<Byte>)
    requires at + |name| + 1 <= |b| && b[at..at + |name| + 1] == name + [0] && 0 !in name
    ensures Length(b, at) == |name|
    decreases |name|
  {
    assert b[at] == (name + [0])[0];
    if name != [] {
      assert name[0] in name;
      assert b[at + 1..at + 1 + |name[1..]| + 1] == b[at..at + |name| + 1][1..] == name[1..] + [0];
      LengthOf(b, at + 1, name[1..]);
    }
  }

  /** The name is a string that ends with the entry's name. */
  predicate IsString(e: Entry) { |e.name| > 0 && e.name[|e.name| - 1] == 0 && 0 !in e.name[..|e.name| - 1] }

  lemma NameLength(pre: seq<Byte>, e: Entry, post: seq<Byte>)
    requires |e.head| == HEADER && IsString(e)
    ensures Length(pre + Bytes(e) + post, |pre| + HEADER) + 1 == |e.name|
  {
    var b, name := pre + Bytes(e) + post, e.name[..|e.name| - 1];
    PartsAt(pre, e, post);
    assert e.name == name + [0];
    LengthOf(b, |pre| + HEADER, name);
  }

  predicate AllFit(b: seq<Byte>, ps: seq<Place>) {
    ps == [] || (NameFits(Length(b, ps[0].header + HEADER), ps[0]) && AllFit(b, ps[1..]))
  }

  lemma {:induction false} FitMeansNamed(b: seq<Byte>, ps: seq<Place>)
    requires AllFit(b, ps)
    ensures Named(b, ps)
    decreases |ps|
  {
    if ps != [] {
      FitMeansNamed(b, ps[1..]);
      forall i | 0 <= i < |ps| ensures NameFits(Length(b, ps[i].header + HEADER), ps[i]) {
        if i > 0 { assert ps[i] == ps[1..][i - 1]; }
      }
    }
  }

  /** Every name has the size given for it, so the archive can be stripped. */
  lemma {:induction false} NamesFit(b: seq<Byte>, pre: seq<Byte>, es: seq<Entry>, post: seq<Byte>)
    requires b == pre + (All(es) + post) && forall e | e in es :: |e.head| == HEADER && IsString(e)
    ensures AllFit(b, PlacesOf(es, |pre|))
    decreases |es|
  {
    if es != [] {
      var e, rest := es[0], All(es[1..]);
      var p, ps := PlaceOf(e, |pre|), PlacesOf(es[1..], |pre| + |Bytes(e)|);
      assert b == pre + Bytes(e) + (rest + post) by { Regroup(pre, Bytes(e), rest, post); }
      assert NameFits(Length(b, p.header + HEADER), p) by { NameLength(pre, e, rest + post); }
      assert AllFit(b, ps) by { NamesFit(b, pre + Bytes(e), es[1..], post); }
      assert ([p] + ps)[1..] == ps;
    }
  }

  // Stripping

  /** File number i without its metadata */
  function Clean(f: File, i: nat): File {
    f.(ino := InodeField(i), uid := BLANK, gid := BLANK, mtime := BLANK)
  }

  function Cleaned(files: seq<File>): (r: seq<File>)
    ensures |r| == |files|
    ensures forall i | 0 <= i < |files| :: r[i] == Clean(files[i], i)
  {
    seq(|files|, i requires 0 <= i < |files| => Clean(files[i], i))
  }

  lemma PatchBetween(a: seq<Byte>, old': seq<Byte>, c: seq<Byte>, field: seq<Byte>)
    requires |old'| == |field|
    ensures Patch(a + old' + c, |a|, field) == a + field + c
  {
  }

  lemma {:induction false} PatchJoined(pre: seq<Byte>, fields: seq<Field>, post: seq<Byte>, k: nat, field: Field)
    requires k < |fields|
    ensures |pre| + 8 * k + 8 <= |pre + Joined(fields) + post|
    ensures Patch(pre + Joined(fields) + post, |pre| + 8 * k, field) == pre + Joined(fields[k := field]) + post
    decreases k
  {
    var rest := fields[1..];
    if k == 0 {
      assert pre + Joined(fields) + post == pre + fields[0] + (Joined(rest) + post);
      PatchBetween(pre, fields[0], Joined(rest) + post, field);
      assert fields[0 := field][1..] == rest;
      assert pre + (field + Joined(rest)) + post == pre + field + (Joined(rest) + post);
    } else {
      PatchJoined(pre + fields[0], rest, post, k - 1, field);
      assert fields[k := field][1..] == rest[k - 1 := field];
      Shift(pre, fields[0], Joined(rest), post);
      Shift(pre, fields[0], Joined(rest[k - 1 := field]), post);
    }
  }

  lemma Shift(pre: seq<Byte>, a: seq<Byte>, b: seq<Byte>, post: seq<Byte>)
    ensures pre + (a + b) + post == (pre + a) + b + post
  {
  }

  function CleanFields(fields: seq<Field>, ino: Field): seq<Field>
    requires |fields| == 13
  {
    fields[0 := ino][2 := BLANK][3 := BLANK][5 := BLANK]
  }

  lemma FieldsOfClean(f: File, capital: bool, i: nat)
    ensures Fields(Clean(f, i), capital) == CleanFields(Fields(f, capital), InodeField(i))
  {
  }

  /** The four patches of a header, on its fields */
  lemma PatchAll(p: seq<Byte>, fields: seq<Field>, post: seq<Byte>, ino: Field)
    requires |fields| == 13
    ensures var b := Patch(Patch(p + Joined(fields) + post, |p|, ino), |p| + 16, BLANK);
      Patch(Patch(b, |p| + 24, BLANK), |p| + 40, BLANK) == p + Joined(CleanFields(fields, ino)) + post
  {
    var f1 := fields[0 := ino];
    var f2 := f1[2 := BLANK];
    PatchJoined(p, fields, post, 0, ino);
    PatchJoined(p, f1, post, 2, BLANK);
    PatchJoined(p, f2, post, 3, BLANK);
    PatchJoined(p, f2[3 := BLANK], post, 5, BLANK);
  }

  lemma RewriteHead(pre: seq<Byte>, fields: seq<Field>, post: seq<Byte>, i: nat)
    requires |fields| == 13
    ensures Rewrite(pre + (MAGIC + Joined(fields)) + post, |pre|, i)
         == pre + (MAGIC + Joined(CleanFields(fields, InodeField(i)))) + post
  {
    Shift(pre, MAGIC, Joined(fields), post);
    Shift(pre, MAGIC, Joined(CleanFields(fields, InodeField(i))), post);
    PatchAll(pre + MAGIC, fields, post, InodeField(i));
  }

  lemma HeadAndRest(pre: seq<Byte>, e: Entry, post: seq<Byte>)
    ensures pre + Bytes(e) + post == pre + e.head + (e.name + e.pad + e.data + e.end + post)
  {
  }

  /** A new header before the same rest */
  lemma NewHead(pre: seq<Byte>, e: Entry, c: Entry, post: seq<Byte>, fields: seq<Field>, i: nat)
    requires |fields| == 13 && e.head == MAGIC + Joined(fields)
    requires c == e.(head := MAGIC + Joined(CleanFields(fields, InodeField(i))))
    ensures Rewrite(pre + Bytes(e) + post, |pre|, i) == pre + Bytes(c) + post
  {
    var tail := e.name + e.pad + e.data + e.end + post;
    HeadAndRest(pre, e, post);
    HeadAndRest(pre, c, post);
    RewriteHead(pre, fields, tail, i);
  }

  /** Rewriting the header of an entry cleans its file and touches nothing around it. */
  lemma RewriteEntry(pre: seq<Byte>, f: File, capital: bool, post: seq<Byte>, i: nat)
    ensures |EntryOf(f, capital).head| == HEADER
    ensures Rewrite(pre + Bytes(EntryOf(f, capital)) + post, |pre|, i)
         == pre + Bytes(EntryOf(Clean(f, i), capital)) + post
  {
    FieldsOfClean(f, capital, i);
    NewHead(pre, EntryOf(f, capital), EntryOf(Clean(f, i), capital), post, Fields(f, capital), i);
  }

  /** Asking for an entry between other bytes */
  predicate Between(pre: seq<Byte>, post: seq<Byte>) { true }

  /** An entry and what rewriting makes of it, as number i */
  ghost predicate Rewrites(e: Entry, c: Entry, i: nat) {
    && |e.head| == HEADER && |Bytes(c)| == |Bytes(e)|
    && forall pre: seq<Byte>, post: seq<Byte> {:trigger Between(pre, post)} ::
         Between(pre, post) ==> Rewrite(pre + Bytes(e) + post, |pre|, i) == pre + Bytes(c) + post
  }

  lemma CleanRewrites(f: File, capital: bool, i: nat)
    ensures Rewrites(EntryOf(f, capital), EntryOf(Clean(f, i), capital), i)
  {
    forall pre: seq<Byte>, post: seq<Byte>
      ensures Rewrite(pre + Bytes(EntryOf(f, capital)) + post, |pre|, i)
           == pre + Bytes(EntryOf(Clean(f, i), capital)) + post
    {
      RewriteEntry(pre, f, capital, post, i);
    }
  }

  ghost predicate AllRewrite(es: seq<Entry>, cs: seq<Entry>, i: nat)
    requires |es| == |cs|
  {
    forall k | 0 <= k < |es| :: Rewrites(es[k], cs[k], i + k)
  }

  /** Archives, the number of the entry to go on with, and the archive this leads to */
  type Runs = iset<(seq<Byte>, nat, seq<Byte>)>

  /** Asking for the stripping of an entry */
  predicate Ask(pre: seq<Byte>, e: Entry, c: Entry, post: seq<Byte>, i: nat, r: seq<Byte>) { true }

  /** Stripping rewrites one entry and goes on. */
  ghost predicate GoesOn(ps: seq<Place>, all: Runs) {
    forall pre: seq<Byte>, e, c, post: seq<Byte>, i: nat, r: seq<Byte> {:trigger Ask(pre, e, c, post, i, r)} ::
      && Ask(pre, e, c, post, i, r) && Rewrites(e, c, i) && i < |ps| && ps[i] == PlaceOf(e, |pre|)
      && (pre + Bytes(c) + post, i + 1, r) in all
      ==> (pre + Bytes(e) + post, i, r) in all
  }

  ghost predicate Ends(b: seq<Byte>, ps: seq<Place>, i: nat, r: seq<Byte>) {
    i <= |ps| && Inside(b, ps) && Stripped(b, ps, i) == r
  }

  lemma StrippingGoesOn(ps: seq<Place>)
    ensures GoesOn(ps, AllRuns(ps))
  {
    var all := AllRuns(ps);
    forall pre: seq<Byte>, e, c, post: seq<Byte>, i: nat, r: seq<Byte>
      | Ask(pre, e, c, post, i, r) && Rewrites(e, c, i) && i < |ps| && ps[i] == PlaceOf(e, |pre|)
        && (pre + Bytes(c) + post, i + 1, r) in all
      ensures (pre + Bytes(e) + post, i, r) in all
    {
      assert Between(pre, post);
      assert |pre + Bytes(e) + post| == |pre + Bytes(c) + post|;
    }
  }

  /** Stripping the entries from number i on rewrites each of them. */
  lemma {:induction false} StripsFrom(b: seq<Byte>, all: Runs, pre: seq<Byte>, es: seq<Entry>, cs: seq<Entry>,
                                      post: seq<Byte>, ps: seq<Place>, i: nat, r: seq<Byte>)
    requires GoesOn(ps, all) && b == pre + (All(es) + post) && r == pre + (All(cs) + post) && (r, |ps|, r) in all
    requires |es| == |cs| && i <= |ps| && ps[i..] == PlacesOf(es, |pre|)
    requires AllRewrite(es, cs, i)
    ensures (b, i, r) in all
    decreases |es|
  {
    if es != [] {
      var e, c, rest := es[0], cs[0], All(es[1..]) + post;
      assert ps[i] == ps[i..][0] == PlaceOf(e, |pre|) && ps[i + 1..] == ps[i..][1..];
      assert Rewrites(e, c, i) by { LaterRewrites(es, cs, i); }
      assert b == pre + Bytes(e) + rest by { Regroup(pre, Bytes(e), All(es[1..]), post); }
      assert r == (pre + Bytes(c)) + (All(cs[1..]) + post) by { Regroup(pre, Bytes(c), All(cs[1..]), post); }
      assert (pre + Bytes(c) + rest, i + 1, r) in all by {
        LaterRewrites(es, cs, i);
        StripsFrom(pre + Bytes(c) + rest, all, pre + Bytes(c), es[1..], cs[1..], post, ps, i + 1, r);
      }
      assert Ask(pre, e, c, rest, i, r);
    }
  }

  lemma LaterRewrites(es: seq<Entry>, cs: seq<Entry>, i: nat)
    requires |es| == |cs| > 0 && AllRewrite(es, cs, i)
    ensures Rewrites(es[0], cs[0], i) && AllRewrite(es[1..], cs[1..], i + 1)
  {
    assert Rewrites(es[0], cs[0], i + 0);
    forall k | 0 <= k < |es[1..]| ensures Rewrites(es[1..][k], cs[1..][k], i + 1 + k) {
      assert Rewrites(es[k + 1], cs[k + 1], i + (k + 1));
    }
  }

  lemma RegularEntries(files: seq<File>, capital: bool)
    requires forall f | f in files :: Regular(f)
    ensures forall e | e in EntriesOf(files, capital) :: Sound(e) && IsString(e) && e.name != TRAILER
  {
    var es := EntriesOf(files, capital);
    forall i | 0 <= i < |es| ensures Sound(es[i]) && IsString(es[i]) && es[i].name != TRAILER {
      var f := files[i];
      assert Regular(f);
      BuiltIsSound(f, capital);
      assert es[i].name[..|es[i].name| - 1] == f.name;
    }
  }

  /** The reader finds exactly the files of an archive, at the places their sizes lead to, */
  lemma ReadsTheFiles(files: seq<File>, last: File, capital: bool, filler: seq<Byte>)
    requires Last(last) && forall f | f in files :: Regular(f)
    ensures var b, ps := Archive(files, last, capital, filler), PlacesOf(EntriesOf(files, capital), 0);
      Places(b, 0) == Some(ps) && Named(b, ps) && Inside(b, ps)
  {
    var b, es, end := Archive(files, last, capital, filler), EntriesOf(files, capital), EntryOf(last, capital);
    assert [] + b == b;
    RegularEntries(files, capital);
    assert |last.name| + 1 == |TRAILER| < Power16(8);
    BuiltIsSound(last, capital);
    var all := iset x: (nat, seq<Place>) | Reads(b, x.0, x.1);
    assert (0, PlacesOf(es, 0)) in all by {
      ReaderIsClosed(b);
      ReadsBack(b, all, [], es, end, filler);
    }
    NamesFit(b, [], es, Bytes(end) + filler);
    FitMeansNamed(b, PlacesOf(es, 0));
    PlacesLaid(b, 0, PlacesOf(es, 0));
  }

  /** and stripping gives the archive of the same files without their metadata. */
  lemma StripsTheFiles(files: seq<File>, last: File, capital: bool, filler: seq<Byte>)
    requires Last(last) && forall f | f in files :: Regular(f)
    ensures var b, ps := Archive(files, last, capital, filler), PlacesOf(EntriesOf(files, capital), 0);
      Inside(b, ps) && Stripped(b, ps, 0) == Archive(Cleaned(files), last, capital, filler)
  {
    var es, cs := EntriesOf(files, capital), EntriesOf(Cleaned(files), capital);
    var b, r := Archive(files, last, capital, filler), Archive(Cleaned(files), last, capital, filler);
    var ps, post := PlacesOf(es, 0), Bytes(EntryOf(last, capital)) + filler;
    assert Inside(b, ps) by { ReadsTheFiles(files, last, capital, filler); }
    assert AllRewrite(es, cs, 0) && |All(es)| == |All(cs)| by {
      forall k | 0 <= k < |es| ensures Rewrites(es[k], cs[k], 0 + k) { CleanRewrites(files[k], capital, k); }
      SameLengths(es, cs, 0);
    }
    assert [] + (All(es) + post) == b && [] + (All(cs) + post) == r;
    assert ps[0..] == ps;
    StripsAll(b, [], es, cs, post, ps, 0, r);
  }

  lemma {:induction false} SameLengths(es: seq<Entry>, cs: seq<Entry>, i: nat)
    requires |es| == |cs| && AllRewrite(es, cs, i)
    ensures |All(es)| == |All(cs)|
    decreases |es|
  {
    if es != [] {
      LaterRewrites(es, cs, i);
      SameLengths(es[1..], cs[1..], i + 1);
    }
  }

  ghost function AllRuns(ps: seq<Place>): Runs {
    iset x: (seq<Byte>, nat, seq<Byte>) | Ends(x.0, ps, x.1, x.2)
  }

  lemma StripsAll(b: seq<Byte>, pre: seq<Byte>, es: seq<Entry>, cs: seq<Entry>, post: seq<Byte>, ps: seq<Place>,
                  i: nat, r: seq<Byte>)
    requires b == pre + (All(es) + post) && r == pre + (All(cs) + post) && |r| == |b|
    requires |es| == |cs| && i <= |ps| && ps[i..] == PlacesOf(es, |pre|) && Inside(b, ps) && AllRewrite(es, cs, i)
    ensures Stripped(b, ps, i) == r
  {
    var all := AllRuns(ps);
    NothingLeft(b, r, ps);
    StrippingGoesOn(ps);
    StripsFrom(b, all, pre, es, cs, post, ps, i, r);
    assert Ends(b, ps, i, r);
  }

  lemma NothingLeft(b: seq<Byte>, r: seq<Byte>, ps: seq<Place>)
    requires |r| == |b| && Inside(b, ps)
    ensures (r, |ps|, r) in AllRuns(ps)
  {
    assert Ends(r, ps, |ps|, r);
  }
}
