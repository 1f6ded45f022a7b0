/**
 An oat file inside its ELF file: ElfBuilder::Write with OatWriter::Write as one of the pieces. The
 loader is led from the bytes of the file to the oat data, and every method can be found from there.
 */
module ElfOat {
  import opened Wrappers
  import opened Bytes
  import opened Streams
  import opened DedupLayout
  import opened ElfFormat
  import opened ElfStrings
  import opened ElfSymbols
  import opened ElfLoader
  import opened ElfLayout
  import opened ElfContents
  import opened OatFormat
  import OatPasses
  import OatCalls
  import OatRoundTrip
  import OatWriter
  import ElfHash

  // ----- where everything goes -----

  /** o[i] is the offset of section i. */
  ghost predicate IsOffsets(e: Elf, o: seq<nat>) {
    && ElfLayout.Complete(e) && Alignable(Sections(e)) && |o| == |Sections(e)|
    && forall i: nat :: i < |o| ==> OffsetIs(e, o, i)
  }

  ghost predicate OffsetIs(e: Elf, o: seq<nat>, i: nat)
    requires Alignable(Sections(e)) && |o| == |Sections(e)|
  {
    i < |o| ==> o[i] == ElfLayout.OffsetOf(BASE, Sections(e), i)
  }

  lemma {:induction false} FirstSections(e: Elf)
    requires ElfLayout.Complete(e)
    ensures Alignable(Sections(e)) && |Sections(e)| >= 7
    ensures Sections(e)[DYNSYM].bytes == e.dynsym && Sections(e)[DYNSTR].bytes == e.dynstr
    ensures Sections(e)[HASH].bytes == e.hash
    ensures Sections(e)[RODATA].bytes == e.rodata && Sections(e)[TEXT].bytes == e.text
    ensures Sections(e)[DYNAMIC].bytes == e.dynamic
  {
    SectionsAlignable(e);
  }

  lemma {:induction false} SectionsInOrder(e: Elf, o: seq<nat>, i: nat, j: nat)
    requires IsOffsets(e, o) && i < j < |o|
    ensures BASE <= o[i] && o[i] + |Sections(e)[i].bytes| <= o[j]
    ensures o[j] + |Sections(e)[j].bytes| <= EndOf(BASE, Sections(e))
  {
    assert OffsetIs(e, o, i) && OffsetIs(e, o, j);
    SectionWithin(BASE, Sections(e), i);
    SectionWithin(BASE, Sections(e), j);
    SectionsApart(BASE, Sections(e), i, j);
  }

  lemma {:induction false} OffsetsInOrder(e: Elf, o: seq<nat>)
    requires IsOffsets(e, o) && EndOf(BASE, Sections(e)) < TWO_32 && |o| < 65535
    ensures InOrder(e, o)
  {
    FirstSections(e);
    SectionsInOrder(e, o, DYNSYM, DYNSTR);
    SectionsInOrder(e, o, DYNSTR, HASH);
    SectionsInOrder(e, o, HASH, RODATA);
    SectionsInOrder(e, o, RODATA, TEXT);
    SectionsInOrder(e, o, TEXT, DYNAMIC);
  }

  /** Other contents of the same sizes go to the same places. */
  lemma {:induction false} OffsetsStay(e: Elf, e': Elf, o: seq<nat>)
    requires IsOffsets(e, o) && ElfLayout.Complete(e') && SameShape(Sections(e), Sections(e'))
    ensures IsOffsets(e', o)
  {
    SectionsAlignable(e');
    forall i: nat | i < |o| ensures OffsetIs(e', o, i) {
      assert OffsetIs(e, o, i);
      SameOffsets(BASE, Sections(e), Sections(e'), i);
    }
  }

  // ----- the pieces -----

  /** What is written before the oat file: the headers, .dynamic, .dynsym, .dynstr and .hash. */
  function PiecesBefore(e: Elf, o: seq<nat>): seq<Piece>
    requires |o| >= 7
  {
    HeaderPieces(e) + [Piece(o[5], e.dynamic), Piece(o[0], e.dynsym), Piece(o[1], e.dynstr), Piece(o[2], e.hash)]
  }

  /** All sections as pieces. */
  function PiecesAt(sections: seq<Section>, o: seq<nat>): (r: seq<Piece>)
    requires |o| == |sections|
    ensures |r| == |o|
  {
    seq(|o|, i requires 0 <= i < |o| => Piece(o[i], sections[i].bytes))
  }

  /** And what is written behind it. */
  function PiecesBehind(e: Elf, o: seq<nat>): seq<Piece>
    requires |o| == |Sections(e)| >= 7 + DebugCount(e.debug)
  {
    Behind(PiecesAt(Sections(e), o), DebugCount(e.debug), TablePieces(TableOffset(e), e.sectionHeaders))
  }

  /** .symtab and .strtab, .shstrtab, the section header table, and the other sections. */
  function Behind(p: seq<Piece>, d: nat, table: seq<Piece>): seq<Piece>
    requires |p| >= 7 + d
  {
    p[6..6 + d] + [p[|p| - 1]] + table + p[6 + d..|p| - 1]
  }

  lemma {:induction false} SameBehind(p: seq<Piece>, q: seq<Piece>, d: nat, table: seq<Piece>)
    requires |p| == |q| >= 7 + d && forall i :: 5 <= i < |p| ==> p[i] == q[i]
    ensures Behind(p, d, table) == Behind(q, d, table)
  {
    assert p[6..6 + d] == q[6..6 + d] && p[6 + d..|p| - 1] == q[6 + d..|p| - 1] && p[|p| - 1] == q[|p| - 1];
  }

  lemma {:induction false} PiecesAre(e: Elf, o: seq<nat>)
    requires IsOffsets(e, o)
    ensures Alignable(Sections(e)) && PiecesAt(Sections(e), o) == SectionPieces(BASE, Sections(e))
    ensures |o| >= 7 + DebugCount(e.debug)
  {
    forall i: nat | i < |o| ensures PiecesAt(Sections(e), o)[i] == SectionPieces(BASE, Sections(e))[i] {
      assert OffsetIs(e, o, i);
    }
  }

  lemma {:induction false} PiecesInSourceOrder(e: Elf, o: seq<nat>)
    requires IsOffsets(e, o)
    ensures |o| >= 7 + DebugCount(e.debug) && BeforeOat(e) == PiecesBefore(e, o) && BehindOat(e) == PiecesBehind(e, o)
    ensures OatPiece(e) == Piece(o[RODATA], e.rodata + e.text)
  {
    PiecesAre(e, o);
    FirstSections(e);
    assert OffsetIs(e, o, RODATA);
  }

  lemma {:induction false} SectionBehind(e: Elf, o: seq<nat>, i: nat)
    requires IsOffsets(e, o) && TEXT < i < |o|
    ensures o[TEXT] + |e.text| <= o[i] <= EndOf(BASE, Sections(e))
  {
    FirstSections(e);
    SectionsInOrder(e, o, TEXT, i);
  }

  /** Everything that is written after the oat file lies behind it. */
  lemma {:induction false} BehindIsBehind(e: Elf, o: seq<nat>, lo: nat)
    requires IsOffsets(e, o) && |o| >= 7 + DebugCount(e.debug) && lo == o[TEXT] + |e.text|
    ensures forall i :: 0 <= i < |PiecesBehind(e, o)| ==> lo <= PiecesBehind(e, o)[i].offset
  {
    var p, d := PiecesAt(Sections(e), o), DebugCount(e.debug);
    forall i: nat | TEXT < i < |p| ensures lo <= p[i].offset && lo <= TableOffset(e) {
      SectionBehind(e, o, i);
    }
    assert lo <= p[5].offset;
    var a, b, t, c := p[6..6 + d], [p[|p| - 1]], TablePieces(TableOffset(e), e.sectionHeaders), p[6 + d..|p| - 1];
    AllBehind(a, b, t, c, lo);
  }

  lemma {:induction false} AllBehind(a: seq<Piece>, b: seq<Piece>, c: seq<Piece>, d: seq<Piece>, lo: nat)
    requires forall i :: 0 <= i < |a| ==> lo <= a[i].offset
    requires forall i :: 0 <= i < |b| ==> lo <= b[i].offset
    requires forall i :: 0 <= i < |c| ==> lo <= c[i].offset
    requires forall i :: 0 <= i < |d| ==> lo <= d[i].offset
    ensures forall i :: 0 <= i < |a + b + c + d| ==> lo <= (a + b + c + d)[i].offset
  {
  }

  // ----- writing -----

  /** The bytes of a file in a range. */
  function BytesFrom(d: seq<byte>, at: nat, size: nat): (b: seq<byte>)
    ensures |b| == size && forall k :: 0 <= k < size ==> b[k] == At(d, at + k)
  {
    seq<byte>(size, k requires 0 <= k < size => At(d, at + k))
  }

  /** What OatWriter::Write did to the file is one write of what is there now. */
  lemma {:induction false} OatAsPiece(d1: seq<byte>, d2: seq<byte>, base: nat, rodata: seq<byte>, text: seq<byte>)
    requires rodata == BytesFrom(d2, base, |rodata|) && text == BytesFrom(d2, base + |rodata|, |text|)
    requires OatPasses.OnlyWithin(d1, d2, base, base + |rodata| + |text|)
    ensures SameFile(d2, WritePiece(d1, Piece(base, rodata + text)))
  {
    var bytes := rodata + text;
    PutAt(Content(d1, base), bytes);
    forall k: nat ensures At(d2, k) == At(WritePiece(d1, Piece(base, bytes)), k) {
      if base <= k < base + |bytes| {
        assert bytes[k - base] == At(d2, k);
      }
    }
  }

  /** The file as a whole: the pieces in the order of the source, with what the oat writer wrote as one of them. */
  lemma {:induction false} WholeFile(e: Elf, o: seq<nat>, d1: seq<byte>, d2: seq<byte>, d3: seq<byte>)
    requires IsOffsets(e, o) && |o| >= 7 + DebugCount(e.debug)
    requires d1 == WriteAll(PiecesBefore(e, o)) && SameFile(d2, WritePiece(d1, Piece(o[RODATA], e.rodata + e.text)))
    requires d3 == WriteOn(d2, PiecesBehind(e, o))
    ensures SameFile(d3, WriteAll(WriteOrder(e)))
  {
    PiecesInSourceOrder(e, o);
    var a, p, b := BeforeOat(e), OatPiece(e), BehindOat(e);
    assert WriteAll(a + [p]) == WritePiece(d1, p) by { assert (a + [p])[..|a|] == a; }
    WriteAllOn(a + [p], b);
    SameOn(d2, WritePiece(d1, p), b);
  }

  lemma {:induction false} HeldIn(d: seq<byte>, d': seq<byte>, at: nat, bytes: seq<byte>)
    requires SameFile(d, d') && Holds(d', at, bytes)
    ensures Holds(d, at, bytes)
  {
    forall k | 0 <= k < |bytes| ensures At(d, at + k) == bytes[k] {
      assert At(d', at + k) == bytes[k];
    }
  }

  lemma {:induction false} AllHeld(e: Elf, o: seq<nat>, file: seq<byte>)
    requires IsOffsets(e, o) && InOrder(e, o) && Aligned(|e.rodata|, PAGE_SIZE)
    requires SameFile(file, WriteAll(WriteOrder(e)))
    ensures TablesHeld(file, e, o) && o[TEXT] == o[RODATA] + |e.rodata|
  {
    FileIs(e);
    TextFollows(e);
    FirstSections(e);
    var d := WriteAll(WriteOrder(e));
    assert OffsetIs(e, o, DYNSYM) && OffsetIs(e, o, DYNSTR) && OffsetIs(e, o, HASH) && OffsetIs(e, o, DYNAMIC);
    assert OffsetIs(e, o, RODATA) && OffsetIs(e, o, TEXT);
    HeldIn(file, d, 0, e.header);
    HeldIn(file, d, EHDR_SIZE, e.programHeaders);
    HeldIn(file, d, o[DYNSYM], e.dynsym);
    HeldIn(file, d, o[DYNSTR], e.dynstr);
    HeldIn(file, d, o[HASH], e.hash);
    HeldIn(file, d, o[DYNAMIC], e.dynamic);
  }

  /** The sizes of .rodata and .text are those of the two parts of the oat file. */
  ghost predicate RoomFor(e: Elf, oat: Oat, l: Layout) {
    Good(oat, l) && |e.rodata| == l.executable && |e.rodata| + |e.text| == Last(l.code)
  }

  /**
   .rodata ends on a page boundary because the code of an oat file starts on one, so the writer's check never
   fires.
   */
  lemma {:induction false} RodataAligned(e: Elf, oat: Oat, l: Layout)
    requires RoomFor(e, oat, l)
    ensures Aligned(|e.rodata|, PAGE_SIZE)
  {
  }

  /** The same file with what has been written to .rodata and .text. */
  function Filled(e: Elf, d: seq<byte>, base: nat): (e': Elf)
    ensures |e'.rodata| == |e.rodata| && |e'.text| == |e.text|
  {
    e.(rodata := BytesFrom(d, base, |e.rodata|), text := BytesFrom(d, base + |e.rodata|, |e.text|))
  }

  ghost predicate SameSizes(e: Elf, e': Elf) {
    && |e.dynsym| == |e'.dynsym| && |e.dynstr| == |e'.dynstr| && |e.hash| == |e'.hash|
    && |e.rodata| == |e'.rodata| && |e.text| == |e'.text| && |e.dynamic| == |e'.dynamic|
    && e.debug == e'.debug && e.others == e'.others && e.shstrtab == e'.shstrtab
  }

  lemma {:induction false} SectionsOfSizes(e: Elf, e': Elf)
    requires SameSizes(e, e')
    ensures |Sections(e)| >= 7 + DebugCount(e.debug) && SameShape(Sections(e), Sections(e'))
    ensures forall i :: 6 <= i < |Sections(e)| ==> Sections(e')[i] == Sections(e)[i]
  {
    var s, t := Sections(e), Sections(e');
    var rest := DebugSections(e.debug) + e.others + [Section(1, e.shstrtab)];
    assert s == s[..6] + rest && t == t[..6] + rest;
    forall i | 6 <= i < |s| ensures s[i] == t[i] {
      assert s[i] == rest[i - 6] == t[i];
    }
  }

  lemma {:induction false} FilledSections(e: Elf, d: seq<byte>, base: nat)
    ensures |Sections(Filled(e, d, base))| == |Sections(e)| >= 7 + DebugCount(e.debug)
    ensures SameShape(Sections(e), Sections(Filled(e, d, base)))
    ensures forall i :: 5 <= i < |Sections(e)| ==> Sections(Filled(e, d, base))[i] == Sections(e)[i]
  {
    SectionsOfSizes(e, Filled(e, d, base));
  }

  lemma {:induction false} FilledOffsets(e: Elf, o: seq<nat>, d: seq<byte>, base: nat)
    requires IsOffsets(e, o) && InOrder(e, o)
    ensures IsOffsets(Filled(e, d, base), o) && InOrder(Filled(e, d, base), o)
    ensures TableOffset(Filled(e, d, base)) == TableOffset(e)
  {
    FilledSections(e, d, base);
    OffsetsStay(e, Filled(e, d, base), o);
    ElfLayout.SameEnds(BASE, Sections(e), Sections(Filled(e, d, base)));
  }

  lemma {:induction false} FilledPieces(e: Elf, o: seq<nat>, d: seq<byte>, base: nat)
    requires |o| == |Sections(e)| >= 7 + DebugCount(e.debug) && TableOffset(Filled(e, d, base)) == TableOffset(e)
    ensures |Sections(Filled(e, d, base))| == |o|
    ensures PiecesBefore(Filled(e, d, base), o) == PiecesBefore(e, o)
    ensures PiecesBehind(Filled(e, d, base), o) == PiecesBehind(e, o)
  {
    FilledSections(e, d, base);
    var p, q := PiecesAt(Sections(e), o), PiecesAt(Sections(Filled(e, d, base)), o);
    assert forall i :: 5 <= i < |p| ==> p[i] == q[i];
    SameBehind(p, q, DebugCount(e.debug), TablePieces(TableOffset(e), e.sectionHeaders));
  }

  /** What a successful run leaves: all tables, and the whole oat file behind oatdata. */
  ghost predicate Delivered(file: seq<byte>, e: Elf, o: seq<nat>, oat: Oat, l: Layout) {
    && InOrder(e, o) && TablesHeld(file, Filled(e, file, o[RODATA]), o) && o[TEXT] == o[RODATA] + |e.rodata|
    && OatPasses.Complete(file, o[RODATA], oat, l)
  }

  lemma {:induction false} TablesDelivered(e: Elf, o: seq<nat>, d1: seq<byte>, d2: seq<byte>, d3: seq<byte>, size: nat)
    requires IsOffsets(e, o) && InOrder(e, o) && Aligned(|e.rodata|, PAGE_SIZE) && |o| >= 7 + DebugCount(e.debug)
    requires size == |e.rodata| + |e.text| && OatPasses.OnlyWithin(d1, d2, o[RODATA], o[RODATA] + size)
    requires d1 == WriteAll(PiecesBefore(e, o)) && d3 == WriteOn(d2, PiecesBehind(e, o))
    ensures TablesHeld(d3, Filled(e, d2, o[RODATA]), o) && o[TEXT] == o[RODATA] + |e.rodata|
  {
    var base := o[RODATA];
    var e' := Filled(e, d2, base);
    FilledOffsets(e, o, d2, base);
    FilledPieces(e, o, d2, base);
    OatAsPiece(d1, d2, base, e'.rodata, e'.text);
    WholeFile(e', o, d1, d2, d3);
    AllHeld(e', o, d3);
  }

  lemma {:induction false} DeliveredIf(e: Elf, o: seq<nat>, oat: Oat, l: Layout, d1: seq<byte>, d2: seq<byte>,
                                       d3: seq<byte>)
    requires IsOffsets(e, o) && InOrder(e, o) && RoomFor(e, oat, l) && |o| >= 7 + DebugCount(e.debug)
    requires d1 == WriteAll(PiecesBefore(e, o)) && d3 == WriteOn(d2, PiecesBehind(e, o))
    requires OatPasses.Complete(d2, o[RODATA], oat, l)
    requires OatPasses.OnlyWithin(d1, d2, o[RODATA], o[RODATA] + Last(l.code))
    ensures Delivered(d3, e, o, oat, l)
  {
    var base, end := o[RODATA], o[RODATA] + Last(l.code);
    RodataAligned(e, oat, l);
    TablesDelivered(e, o, d1, d2, d3, Last(l.code));
    Untouched(e, o, d2, end);
    SameOat(oat, l, base, d2, d3);
    SameFilling(e, d2, d3, base, end);
  }

  lemma {:induction false} Untouched(e: Elf, o: seq<nat>, d: seq<byte>, end: nat)
    requires IsOffsets(e, o) && |o| >= 7 + DebugCount(e.debug) && end == o[TEXT] + |e.text|
    ensures forall k: nat :: k < end ==> At(WriteOn(d, PiecesBehind(e, o)), k) == At(d, k)
  {
    BehindIsBehind(e, o, end);
    forall k: nat | k < end ensures At(WriteOn(d, PiecesBehind(e, o)), k) == At(d, k) {
      BehindOnly(d, PiecesBehind(e, o), end, k);
    }
  }

  lemma {:induction false} SameFilling(e: Elf, d2: seq<byte>, d3: seq<byte>, base: nat, end: nat)
    requires base + |e.rodata| + |e.text| == end && forall k: nat :: k < end ==> At(d3, k) == At(d2, k)
    ensures Filled(e, d3, base) == Filled(e, d2, base)
  {
    assert BytesFrom(d3, base, |e.rodata|) == BytesFrom(d2, base, |e.rodata|);
    assert BytesFrom(d3, base + |e.rodata|, |e.text|) == BytesFrom(d2, base + |e.rodata|, |e.text|);
  }

  lemma {:induction false} SameOat(oat: Oat, l: Layout, base: nat, d2: seq<byte>, d3: seq<byte>)
    requires OatPasses.Complete(d2, base, oat, l) && forall k: nat :: k < base + Last(l.code) ==> At(d3, k) == At(d2, k)
    ensures OatPasses.Complete(d3, base, oat, l)
  {
    var lo := base + Last(l.code);
    var hi := if |d2| <= |d3| then lo + |d3| else lo + |d2|;
    assert OatPasses.OnlyWithin(d2, d3, lo, hi);
    OatPasses.CompleteKept(oat, l, base, d2, d3, lo, hi);
  }

  /** ElfFileRodataPiece: a seek, and OatWriter::Write through a buffered stream. */
  method WriteOatPiece(sink: Sink, base: nat, oat: Oat, ghost l: Layout) returns (ok: bool, out: Sink)
    requires sink.kind == File && Good(oat, l) && base + Last(l.code) < TWO_32 - 1
    ensures out.kind == File && Streams.Kept(Buffered(sink, []), Buffered(out, []), ok)
    ensures ok && (OatCalls.SmallTables(oat) || out.failures == sink.failures) ==>
      && OatPasses.Complete(out.content.data, base, oat, l)
      && OatPasses.OnlyWithin(sink.content.data, out.content.data, base, base + Last(l.code))
  {
    var (sought, _) := SinkSeek(sink, base, SeekSet);
    var stream := new BufferedOutputStream(sought);
    ok := OatRoundTrip.WriteOat(oat, l, stream);
    out := stream.sink;
  }

  /** ElfBuilder::Write from the pieces on. */
  method WriteFile(e: Elf, o: seq<nat>, oat: Oat, ghost l: Layout, faults: seq<bool>) returns (ok: bool, out: Sink)
    requires IsOffsets(e, o) && InOrder(e, o) && RoomFor(e, oat, l) && o[RODATA] + Last(l.code) < TWO_32 - 1
    ensures !ok ==> out.failures > 0
    ensures ok && (OatCalls.SmallTables(oat) || out.failures == 0) ==> Delivered(out.content.data, e, o, oat, l)
  {
    PiecesAre(e, o);
    var sink := Sink(File, Content([], 0), faults, 0);
    ok, out := WriteOutFile(sink, PiecesBefore(e, o));
    if !ok { return; }
    ghost var d1 := out.content.data;
    WriteAllOn([], PiecesBefore(e, o));
    assert [] + PiecesBefore(e, o) == PiecesBefore(e, o);
    ok, out := WriteOatPiece(out, o[RODATA], oat, l);
    if !ok { return; }
    ghost var d2, failures := out.content.data, out.failures;
    ok, out := WriteOutFile(out, PiecesBehind(e, o));
    if ok && (OatCalls.SmallTables(oat) || out.failures == 0) {
      DeliveredIf(e, o, oat, l, d1, d2, out.content.data);
    }
  }

  // ----- building the tables -----

  /** The pieces whose contents do not matter here. */
  datatype Frame = Frame(header: seq<byte>, debug: Debug, others: seq<Section>, shstrtab: seq<byte>,
                         sectionHeaders: seq<seq<byte>>)

  ghost predicate ValidFrame(f: Frame) {
    && PointsToPrograms(f.header) && Alignable(f.others)
    && |f.sectionHeaders| == 8 + DebugCount(f.debug) + |f.others|
    && forall i :: 0 <= i < |f.sectionHeaders| ==> |f.sectionHeaders[i]| == SHDR_SIZE
  }

  /** .hash with two buckets for three symbols */
  const HASH_SIZE := 32

  /** GenerateStrtab, and the name of the file behind it. */
  method BuildDynstr(names: seq<Name>, fileName: Name) returns (dynstr: seq<byte>, index: seq<nat>, soname: nat)
    ensures NamesIn(dynstr, names, index) && soname < |dynstr| == TableSize(names + [fileName])
  {
    dynstr, index := GenerateStrtab(names);
    soname := |dynstr|;
    Appended(dynstr, names, index, fileName);
    var table := dynstr + (fileName + [0]);
    forall i | 0 <= i < |names| ensures index[i] < |table| && CString(table, index[i]) == CName(names[i]) {
      assert (names + [fileName])[i] == names[i] && (index + [soname])[i] == index[i];
    }
    assert (names + [fileName])[..|names|] == names;
    dynstr := table;
  }

  /** All entries of a hash table are indices or counts. */
  lemma {:induction false} TableIsSmall(table: seq<nat>, names: seq<Name>)
    requires ElfHash.IsTable(table, names) && |table| < TWO_32
    ensures forall i :: 0 <= i < |table| ==> table[i] < TWO_32
  {
    var n := table[0];
    var buckets, chain, hashes := table[2..2 + n], table[2 + n..], ElfHash.BucketsOf(names, n);
    forall i | 0 <= i < |table| ensures table[i] < TWO_32 {
      if 2 <= i < 2 + n {
        assert buckets[i - 2] == table[i];
        ElfHash.NextIs(hashes, i - 2, 1);
      } else if i >= 2 + n {
        var k := i - (2 + n);
        assert chain[k] == table[i];
        if 0 < k <= |hashes| {
          ElfHash.NextIs(hashes, hashes[k - 1], k + 1);
        }
      }
    }
  }

  /** The file before its tables are filled in; only sizes count. */
  function Blank(f: Frame, dynstr: seq<byte>, hash: seq<byte>, rodataSize: nat, textSize: nat): Elf {
    Elf(f.header, Zeros(PHDR_SIZE * PH_NUM), Zeros(SymOffset(4)), dynstr, hash, Zeros(rodataSize), Zeros(textSize),
        Zeros(DynOffset(DYN_COUNT)), f.debug, f.others, f.shstrtab, f.sectionHeaders)
  }

  /** The tables filled in, now that the offsets are known. */
  function FillIn(e: Elf, o: seq<nat>, index: seq<nat>, soname: nat): (e': Elf)
    requires 7 <= |o| < 65535 && |index| == 3
    ensures |e'.dynsym| == SymOffset(4) && |e'.dynamic| == DynOffset(DYN_COUNT)
    ensures |e'.programHeaders| == PHDR_SIZE * PH_NUM
  {
    e.(dynsym := SymtabBytes(Symtab(RequiredSymbols(|e.rodata|, |e.text|), index, o)),
       dynamic := Words(DynamicWords(o[HASH], o[DYNSTR], o[DYNSYM], |e.dynstr|, soname)),
       programHeaders := Words(ProgramWords(o[RODATA] + |e.rodata|, o[TEXT], |e.text|, o[DYNAMIC],
         DynOffset(DYN_COUNT))))
  }

  lemma {:induction false} FillInSections(e: Elf, o: seq<nat>, index: seq<nat>, soname: nat)
    requires 7 <= |o| < 65535 && |index| == 3 && |e.dynsym| == SymOffset(4) && |e.dynamic| == DynOffset(DYN_COUNT)
    ensures SameShape(Sections(e), Sections(FillIn(e, o, index, soname)))
  {
    SectionsOfSizes(e, FillIn(e, o, index, soname));
  }

  ghost predicate Built(e: Elf, o: seq<nat>, names: seq<Name>, index: seq<nat>, table: seq<nat>, soname: nat) {
    IsOffsets(e, o) && InOrder(e, o) && Pointing(e, o, soname) && Naming(e, o, names, index, table)
  }

  lemma {:induction false} FillInStays(e: Elf, o: seq<nat>, index: seq<nat>, soname: nat)
    requires IsOffsets(e, o) && EndOf(BASE, Sections(e)) < TWO_32 && 7 <= |o| < 65535 && |index| == 3
    requires |e.dynsym| == SymOffset(4) && |e.dynamic| == DynOffset(DYN_COUNT)
    ensures IsOffsets(FillIn(e, o, index, soname), o) && InOrder(FillIn(e, o, index, soname), o)
  {
    var e' := FillIn(e, o, index, soname);
    FillInSections(e, o, index, soname);
    OffsetsStay(e, e', o);
    ElfLayout.SameEnds(BASE, Sections(e), Sections(e'));
    OffsetsInOrder(e', o);
  }

  lemma {:induction false} FillInPoints(e: Elf, o: seq<nat>, index: seq<nat>, soname: nat)
    requires 7 <= |o| < 65535 && |index| == 3 && InOrder(FillIn(e, o, index, soname), o)
    requires soname < |e.dynstr| && PointsToPrograms(e.header)
    ensures Pointing(FillIn(e, o, index, soname), o, soname)
  {
  }

  lemma {:induction false} FillInNames(e: Elf, o: seq<nat>, names: seq<Name>, index: seq<nat>, table: seq<nat>,
                                       soname: nat)
    requires 7 <= |o| < 65535 && |names| == |index| == 3 && InOrder(FillIn(e, o, index, soname), o)
    requires NamesIn(e.dynstr, names, index) && ElfHash.IsTable(table, names) && e.hash == Words(table)
    ensures Naming(FillIn(e, o, index, soname), o, names, index, table)
  {
    TableIsSmall(table, names);
  }

  /**
   All offsets of the file are 32-bit numbers and its sections can be numbered, which the builder takes for
   granted.
   */
  ghost predicate Fits(f: Frame, dynstrSize: nat, rodataSize: nat, textSize: nat)
    requires ValidFrame(f)
  {
    var sections := Sections(Blank(f, Zeros(dynstrSize), Zeros(HASH_SIZE), rodataSize, textSize));
    SectionsFit(sections)
  }

  ghost predicate SectionsFit(sections: seq<Section>) {
    Alignable(sections) && EndOf(BASE, sections) < TWO_32 && |sections| < 65535
  }

  lemma {:induction false} BlankShape(f: Frame, dynstr: seq<byte>, hash: seq<byte>, rodataSize: nat, textSize: nat)
    requires ValidFrame(f) && |hash| == HASH_SIZE
    ensures SectionsFit(Sections(Blank(f, dynstr, hash, rodataSize, textSize))) <==>
      Fits(f, |dynstr|, rodataSize, textSize)
  {
    var e, e' := Blank(f, dynstr, hash, rodataSize, textSize),
      Blank(f, Zeros(|dynstr|), Zeros(HASH_SIZE), rodataSize, textSize);
    SectionsOfSizes(e, e');
    ElfLayout.SameEnds(BASE, Sections(e), Sections(e'));
  }

  /** What ElfBuilder::Write does before it writes: it lays the sections out and fills the tables in. */
  method Build(f: Frame, names: seq<Name>, fileName: Name, rodataSize: nat, textSize: nat)
    returns (fits: bool, e: Elf, o: seq<nat>, ghost index: seq<nat>, ghost table: seq<nat>, ghost soname: nat)
    requires ValidFrame(f) && |names| == 3
    ensures fits <==> Fits(f, TableSize(names + [fileName]), rodataSize, textSize)
    ensures fits ==> Built(e, o, names, index, table, soname) && |e.rodata| == rodataSize && |e.text| == textSize
    ensures fits ==> table[0] == 2
  {
    var dynstr, at, name := BuildDynstr(names, fileName);
    var hash := ElfHash.GenerateHashContents(names);
    index, soname, table := at, name, hash;
    e := Blank(f, dynstr, Words(hash), rodataSize, textSize);
    BlankShape(f, dynstr, Words(hash), rodataSize, textSize);
    SectionsAlignable(e);
    var end;
    o, end := AssignOffsets(BASE, Sections(e));
    fits := end < TWO_32 && |o| < 65535;
    if fits {
      assert IsOffsets(e, o) by {
        forall i: nat | i < |o| ensures OffsetIs(e, o, i) { }
      }
      FirstSections(e);
      FillInStays(e, o, at, name);
      FillInPoints(e, o, at, name);
      FillInNames(e, o, names, at, hash, name);
      e := FillIn(e, o, at, name);
    }
  }

  /** The size of the executable part. */
  ghost function TextSize(oat: Oat, l: Layout): nat
    requires Good(oat, l)
  {
    PartOrder(oat, l);
    Last(l.code) - l.executable
  }

  // ----- from the bytes of the file back to the methods -----

  /** The loader gets from these bytes to oat data at [begin, end), and from there to every method. */
  ghost predicate Openable(file: seq<byte>, t: Tables, names: seq<Name>, table: seq<nat>, begin: nat, end: nat,
                           oat: Oat) {
    && Loaded(file) == Some(t) && SymbolsHeld(file, t, names, table) && table[0] == 2
    && ValueOf(file, t, 1) == begin && ValueOf(file, t, 3) + 4 == end
    && OatRoundTrip.AllFound(file, begin, oat)
  }

  lemma {:induction false} FilledPoints(e: Elf, o: seq<nat>, soname: nat, d: seq<byte>, base: nat)
    requires Pointing(e, o, soname)
    ensures Pointing(Filled(e, d, base), o, soname)
  {
  }

  lemma {:induction false} FilledNames(e: Elf, o: seq<nat>, names: seq<Name>, index: seq<nat>, table: seq<nat>,
                                       d: seq<byte>, base: nat)
    requires Naming(e, o, names, index, table)
    ensures Naming(Filled(e, d, base), o, names, index, table) && e.dynstr != [] && e.hash != []
  {
  }

  lemma {:induction false} DeliveredOpens(file: seq<byte>, e: Elf, o: seq<nat>, oat: Oat, l: Layout, names: seq<Name>,
                                          index: seq<nat>, table: seq<nat>, soname: nat)
    requires Built(e, o, names, index, table, soname) && table[0] == 2 && RoomFor(e, oat, l)
    requires Delivered(file, e, o, oat, l)
    ensures Openable(file, Tables(o[HASH], o[DYNSYM], o[DYNSTR]), names, table, o[RODATA], o[RODATA] + Last(l.code),
      oat)
  {
    FilledPoints(e, o, soname, file, o[RODATA]);
    FilledNames(e, o, names, index, table, file, o[RODATA]);
    TablesLoaded(file, Filled(e, file, o[RODATA]), o, soname);
    SymbolsLinked(file, Filled(e, file, o[RODATA]), o, names, index, table);
    OatRoundTrip.CompleteFindsAll(file, o[RODATA], oat, l);
  }

  /** .dynamic lies behind the oat data. */
  lemma {:induction false} OatEndsEarly(e: Elf, o: seq<nat>)
    requires IsOffsets(e, o) && InOrder(e, o) && |e.dynamic| == DynOffset(DYN_COUNT)
    ensures o[RODATA] + |e.rodata| + |e.text| < TWO_32 - 1
  {
    FirstSections(e);
    SectionsInOrder(e, o, RODATA, TEXT);
    SectionsInOrder(e, o, TEXT, DYNAMIC);
  }

  /** Writes an oat file into an ELF file. */
  method WriteElf(f: Frame, names: seq<Name>, fileName: Name, oat: Oat, ghost l: Layout, faults: seq<bool>)
    returns (ok: bool, out: Sink, ghost t: Tables, ghost table: seq<nat>, ghost begin: nat)
    requires ValidFrame(f) && |names| == 3 && Good(oat, l)
    ensures !ok ==> out.failures > 0 || !Fits(f, TableSize(names + [fileName]), l.executable, TextSize(oat, l))
    ensures ok && (OatCalls.SmallTables(oat) || out.failures == 0) ==>
      Openable(out.content.data, t, names, table, begin, begin + Last(l.code), oat)
  {
    var writer := new OatWriter.OatWriter(oat, l);
    assert l.executable + TextSize(oat, l) == Last(l.code);
    var fits, e, o, index, words, soname :=
      Build(f, names, fileName, writer.executableOffset, writer.size - writer.executableOffset);
    ok, out, t, table, begin := false, Sink(File, Content([], 0), faults, 0), Tables(0, 0, 0), words, 0;
    if !fits { return; }
    OatEndsEarly(e, o);
    ok, out := WriteFile(e, o, oat, l, faults);
    t, begin := Tables(o[HASH], o[DYNSYM], o[DYNSTR]), o[RODATA];
    if ok && (OatCalls.SmallTables(oat) || out.failures == 0) {
      DeliveredOpens(out.content.data, e, o, oat, l, names, index, table, soname);
    }
  }

  /**
   Writes an oat file into an ELF file and opens that file: the range found is that of the oat file, and every
   method is found in it.
   */
  method RoundTrip(f: Frame, fileName: Name, oat: Oat, ghost l: Layout, faults: seq<bool>)
    returns (ok: bool, out: Sink, range: Option<Range>)
    requires ValidFrame(f) && Good(oat, l)
    ensures !ok ==> out.failures > 0 || !Fits(f, TableSize(REQUIRED + [fileName]), l.executable, TextSize(oat, l))
    ensures ok && (OatCalls.SmallTables(oat) || out.failures == 0) ==>
      && range.Some? && range.value.end == range.value.begin + Last(l.code)
      && OatRoundTrip.AllFound(out.content.data, range.value.begin, oat)
  {
    var names := REQUIRED;
    OatNames(names);
    ghost var t, table, begin;
    ok, out, t, table, begin := WriteElf(f, names, fileName, oat, l, faults);
    range := None;
    if ok && (OatCalls.SmallTables(oat) || out.failures == 0) {
      range := OpenOat(out.content.data, names, t, table);
    }
  }
}
