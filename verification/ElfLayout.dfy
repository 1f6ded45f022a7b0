/**
 The file that ElfBuilder::Write puts together: where the sections go, why no two pieces of the file
 overlap, and why the order in which the pieces are written does not matter. After chapter 4,
 "Sections" and "String Table", of the System V ABI (gABI).
 */
module ElfLayout {
  import opened Bytes
  import opened Streams
  import opened DedupLayout
  import opened ElfFormat

  const PH_NUM: nat := 5

  // ----- pieces of a file -----

  datatype Piece = Piece(offset: nat, bytes: seq<byte>)

  function End(p: Piece): nat {
    p.offset + |p.bytes|
  }

  predicate Disjoint(p: Piece, q: Piece) {
    End(p) <= q.offset || End(q) <= p.offset
  }

  ghost predicate AllDisjoint(pieces: seq<Piece>) {
    forall p, q :: p in pieces && q in pieces && p != q ==> Disjoint(p, q)
  }

  /** ElfFilePiece::Write: seek, then write */
  function WritePiece(d: seq<byte>, p: Piece): seq<byte> {
    Put(Content(d, p.offset), p.bytes).data
  }

  function WriteAll(pieces: seq<Piece>): seq<byte> {
    if pieces == [] then [] else WritePiece(WriteAll(pieces[..|pieces| - 1]), pieces[|pieces| - 1])
  }

  /** Byte k of a file that holds the pieces and nothing else; the last piece wins. */
  function ByteAt(pieces: seq<Piece>, k: nat): byte {
    if pieces == [] then 0
    else
      var p := pieces[|pieces| - 1];
      if p.offset <= k < End(p) then p.bytes[k - p.offset] else ByteAt(pieces[..|pieces| - 1], k)
  }

  function Size(pieces: seq<Piece>): nat {
    if pieces == [] then 0
    else
      var rest, p := Size(pieces[..|pieces| - 1]), pieces[|pieces| - 1];
      if p.bytes != [] && rest < End(p) then End(p) else rest
  }

  lemma {:induction false} WriteAllIs(pieces: seq<Piece>, k: nat)
    ensures |WriteAll(pieces)| == Size(pieces)
    ensures At(WriteAll(pieces), k) == ByteAt(pieces, k)
    decreases |pieces|
  {
    if pieces != [] {
      var n := |pieces| - 1;
      WriteAllIs(pieces[..n], k);
      PutAt(Content(WriteAll(pieces[..n]), pieces[n].offset), pieces[n].bytes);
    }
  }

  /** If pieces do not overlap, each byte comes from the one piece that covers it. */
  lemma {:induction false} CoveredBy(pieces: seq<Piece>, i: nat, k: nat)
    requires AllDisjoint(pieces) && i < |pieces| && pieces[i].offset <= k < End(pieces[i])
    ensures ByteAt(pieces, k) == pieces[i].bytes[k - pieces[i].offset]
    decreases |pieces|
  {
    var n := |pieces| - 1;
    if i < n {
      assert pieces[i] in pieces && pieces[n] in pieces;
      assert pieces[i] != pieces[n] ==> Disjoint(pieces[i], pieces[n]);
      CoveredBy(pieces[..n], i, k);
    }
  }

  lemma {:induction false} CoveredByNone(pieces: seq<Piece>, k: nat)
    requires forall i :: 0 <= i < |pieces| ==> !(pieces[i].offset <= k < End(pieces[i]))
    ensures ByteAt(pieces, k) == 0
    decreases |pieces|
  {
    if pieces != [] {
      CoveredByNone(pieces[..|pieces| - 1], k);
    }
  }

  /** Every piece is found in the file where it was to go. */
  lemma {:induction false} PiecesHeld(pieces: seq<Piece>, i: nat)
    requires AllDisjoint(pieces) && i < |pieces|
    ensures Holds(WriteAll(pieces), pieces[i].offset, pieces[i].bytes)
  {
    var p := pieces[i];
    forall k | 0 <= k < |p.bytes| ensures At(WriteAll(pieces), p.offset + k) == p.bytes[k] {
      WriteAllIs(pieces, p.offset + k);
      CoveredBy(pieces, i, p.offset + k);
    }
  }

  lemma {:induction false} SizeIs(pieces: seq<Piece>)
    ensures forall i :: 0 <= i < |pieces| && pieces[i].bytes != [] ==> End(pieces[i]) <= Size(pieces)
    ensures Size(pieces) == 0 ||
      exists i :: 0 <= i < |pieces| && pieces[i].bytes != [] && End(pieces[i]) == Size(pieces)
    decreases |pieces|
  {
    if pieces != [] {
      var n := |pieces| - 1;
      SizeIs(pieces[..n]);
      if Size(pieces) != 0 && Size(pieces) == Size(pieces[..n]) {
        var i :| 0 <= i < n && pieces[..n][i].bytes != [] && End(pieces[..n][i]) == Size(pieces[..n]);
        assert pieces[i] == pieces[..n][i];
      }
    }
  }

  lemma {:induction false} SameBytes(p: seq<Piece>, q: seq<Piece>, k: nat)
    requires AllDisjoint(p) && forall x :: x in p <==> x in q
    ensures ByteAt(p, k) == ByteAt(q, k)
  {
    if i :| 0 <= i < |p| && p[i].offset <= k < End(p[i]) {
      assert p[i] in q;
      var j :| 0 <= j < |q| && q[j] == p[i];
      CoveredBy(p, i, k);
      CoveredBy(q, j, k);
    } else {
      forall j | 0 <= j < |q| ensures !(q[j].offset <= k < End(q[j])) {
        assert q[j] in p;
      }
      CoveredByNone(p, k);
      CoveredByNone(q, k);
    }
  }

  lemma {:induction false} SizeBelow(p: seq<Piece>, q: seq<Piece>)
    requires forall x :: x in p ==> x in q
    ensures Size(p) <= Size(q)
  {
    SizeIs(p);
    SizeIs(q);
    if Size(p) != 0 {
      var i :| 0 <= i < |p| && p[i].bytes != [] && End(p[i]) == Size(p);
      assert p[i] in q;
    }
  }

  /** Pieces that do not overlap make the same file in whatever order they are written. */
  lemma {:induction false} OrderIrrelevant(p: seq<Piece>, q: seq<Piece>)
    requires AllDisjoint(p) && forall x :: x in p <==> x in q
    ensures WriteAll(p) == WriteAll(q)
  {
    SizeBelow(p, q);
    SizeBelow(q, p);
    WriteAllIs(p, 0);
    WriteAllIs(q, 0);
    forall k | 0 <= k < |WriteAll(p)| ensures WriteAll(p)[k] == WriteAll(q)[k] {
      WriteAllIs(p, k);
      WriteAllIs(q, k);
      SameBytes(p, q, k);
    }
  }

  /** One write of both contents is two writes if the second starts where the first ends. */
  lemma {:induction false} OneWrite(d: seq<byte>, p: Piece, q: Piece)
    requires q.offset == End(p)
    ensures WritePiece(d, Piece(p.offset, p.bytes + q.bytes)) == WritePiece(WritePiece(d, p), q)
  {
    PutPut(Content(d, p.offset), p.bytes, q.bytes);
    var c := Put(Content(d, p.offset), p.bytes);
    assert c == Content(WritePiece(d, p), q.offset);
  }

  /** The pieces written one after the other onto a file. */
  function WriteOn(d: seq<byte>, pieces: seq<Piece>): seq<byte> {
    if pieces == [] then d else WritePiece(WriteOn(d, pieces[..|pieces| - 1]), pieces[|pieces| - 1])
  }

  lemma {:induction false} WriteAllOn(a: seq<Piece>, b: seq<Piece>)
    ensures WriteAll(a + b) == WriteOn(WriteAll(a), b)
    decreases |b|
  {
    if b == [] {
      assert a + b == a;
    } else {
      WriteAllOn(a, b[..|b| - 1]);
      assert (a + b)[..|a + b| - 1] == a + b[..|b| - 1];
    }
  }

  /** Two files read the same. */
  ghost predicate SameFile(d: seq<byte>, d': seq<byte>) {
    forall k: nat :: At(d, k) == At(d', k)
  }

  lemma {:induction false} SamePiece(d: seq<byte>, d': seq<byte>, p: Piece)
    requires SameFile(d, d')
    ensures SameFile(WritePiece(d, p), WritePiece(d', p))
  {
    PutAt(Content(d, p.offset), p.bytes);
    PutAt(Content(d', p.offset), p.bytes);
  }

  lemma {:induction false} SameOn(d: seq<byte>, d': seq<byte>, pieces: seq<Piece>)
    requires SameFile(d, d')
    ensures SameFile(WriteOn(d, pieces), WriteOn(d', pieces))
    decreases |pieces|
  {
    if pieces != [] {
      var n := |pieces| - 1;
      SameOn(d, d', pieces[..n]);
      SamePiece(WriteOn(d, pieces[..n]), WriteOn(d', pieces[..n]), pieces[n]);
    }
  }

  /** Pieces behind an offset leave everything in front of it alone. */
  lemma {:induction false} BehindOnly(d: seq<byte>, pieces: seq<Piece>, lo: nat, k: nat)
    requires k < lo && forall i :: 0 <= i < |pieces| ==> lo <= pieces[i].offset
    ensures At(WriteOn(d, pieces), k) == At(d, k)
    decreases |pieces|
  {
    if pieces != [] {
      var n := |pieces| - 1;
      BehindOnly(d, pieces[..n], lo, k);
      PutAt(Content(WriteOn(d, pieces[..n]), pieces[n].offset), pieces[n].bytes);
    }
  }

  /** WriteOutFile: seek to each piece and write it, until a write fails. */
  method WriteOutFile(sink: Sink, pieces: seq<Piece>) returns (ok: bool, out: Sink)
    requires sink.kind == File
    ensures out.kind == File && Kept(Buffered(sink, []), Buffered(out, []), ok)
    ensures ok ==> out.failures == sink.failures && out.content.data == WriteOn(sink.content.data, pieces)
  {
    ok, out := true, sink;
    for i := 0 to |pieces|
      invariant out.kind == File && Later(Buffered(sink, []), Buffered(out, [])) && out.failures == sink.failures
      invariant out.content.data == WriteOn(sink.content.data, pieces[..i])
    {
      var (sought, _) := SinkSeek(out, pieces[i].offset, SeekSet);
      var (written, done) := SinkWrite(sought, pieces[i].bytes);
      out := written;
      if !done {
        return false, out;
      }
      assert pieces[..i + 1][..i] == pieces[..i];
    }
    assert pieces[..|pieces|] == pieces;
  }

  // ----- sections -----

  datatype Section = Section(align: nat, bytes: seq<byte>)

  ghost predicate Alignable(sections: seq<Section>) {
    forall i :: 0 <= i < |sections| ==> sections[i].align > 0
  }

  /** The end of the last section if the first one may start at `start`. */
  function EndOf(start: nat, sections: seq<Section>): nat {
    if sections == [] then start
    else
      var last := sections[|sections| - 1];
      if last.align == 0 then EndOf(start, sections[..|sections| - 1])
      else RoundUp(EndOf(start, sections[..|sections| - 1]), last.align) + |last.bytes|
  }

  /** NextOffset: each section starts at the first aligned offset behind the one before it. */
  ghost function OffsetOf(start: nat, sections: seq<Section>, i: nat): nat
    requires i < |sections| && Alignable(sections)
  {
    RoundUp(EndOf(start, sections[..i]), sections[i].align)
  }

  lemma {:induction false} EndStep(start: nat, sections: seq<Section>, i: nat)
    requires Alignable(sections) && i < |sections|
    ensures EndOf(start, sections[..i + 1]) == OffsetOf(start, sections, i) + |sections[i].bytes|
    ensures EndOf(start, sections[..i]) <= OffsetOf(start, sections, i)
  {
    assert sections[..i + 1][..i] == sections[..i];
  }

  lemma {:induction false} EndGrows(start: nat, sections: seq<Section>, i: nat, j: nat)
    requires Alignable(sections) && i <= j <= |sections|
    ensures start <= EndOf(start, sections[..i]) <= EndOf(start, sections[..j])
    decreases j
  {
    if i < j {
      EndStep(start, sections, j - 1);
      EndGrows(start, sections, i, j - 1);
    } else if i > 0 {
      EndStep(start, sections, i - 1);
      EndGrows(start, sections, i - 1, i - 1);
    }
  }

  /** Sections are aligned and lie between `start` and the end of the last one. */
  lemma {:induction false} SectionWithin(start: nat, sections: seq<Section>, i: nat)
    requires Alignable(sections) && i < |sections|
    ensures start <= OffsetOf(start, sections, i) && Aligned(OffsetOf(start, sections, i), sections[i].align)
    ensures OffsetOf(start, sections, i) + |sections[i].bytes| <= EndOf(start, sections)
  {
    EndStep(start, sections, i);
    EndGrows(start, sections, i, i);
    EndGrows(start, sections, i + 1, |sections|);
    assert sections[..|sections|] == sections;
  }

  /** Sections follow one another. */
  lemma {:induction false} SectionsApart(start: nat, sections: seq<Section>, i: nat, j: nat)
    requires Alignable(sections) && i < j < |sections|
    ensures OffsetOf(start, sections, i) + |sections[i].bytes| <= OffsetOf(start, sections, j)
  {
    EndStep(start, sections, i);
    EndStep(start, sections, j);
    EndGrows(start, sections, i + 1, j);
  }

  /** Offsets depend on sizes and alignments only. */
  ghost predicate SameShape(s: seq<Section>, t: seq<Section>) {
    |s| == |t| && forall i :: 0 <= i < |s| ==> s[i].align == t[i].align && |s[i].bytes| == |t[i].bytes|
  }

  lemma {:induction false} SameEnds(start: nat, s: seq<Section>, t: seq<Section>)
    requires SameShape(s, t)
    ensures EndOf(start, s) == EndOf(start, t)
    decreases |s|
  {
    if s != [] {
      SameEnds(start, s[..|s| - 1], t[..|t| - 1]);
    }
  }

  lemma {:induction false} SameOffsets(start: nat, s: seq<Section>, t: seq<Section>, i: nat)
    requires SameShape(s, t) && Alignable(s) && i < |s|
    ensures Alignable(t) && OffsetOf(start, s, i) == OffsetOf(start, t, i)
  {
    SameEnds(start, s[..i], t[..i]);
  }

  /** The offsets of all sections and the end of the last one. */
  method AssignOffsets(start: nat, sections: seq<Section>) returns (offsets: seq<nat>, end: nat)
    requires Alignable(sections)
    ensures |offsets| == |sections| && forall i :: 0 <= i < |sections| ==> offsets[i] == OffsetOf(start, sections, i)
    ensures end == EndOf(start, sections)
  {
    offsets, end := [], start;
    for i := 0 to |sections|
      invariant |offsets| == i && forall k :: 0 <= k < i ==> offsets[k] == OffsetOf(start, sections, k)
      invariant end == EndOf(start, sections[..i])
    {
      var offset := RoundUp(end, sections[i].align);
      EndStep(start, sections, i);
      offsets, end := offsets + [offset], offset + |sections[i].bytes|;
    }
    assert sections[..|sections|] == sections;
  }

  // ----- the whole file -----

  datatype Debug = NoDebug | Symbols(symtab: seq<byte>, strtab: seq<byte>)

  /** The contents of all pieces; `sectionHeaders` starts with the null header. */
  datatype Elf = Elf(
    header: seq<byte>, programHeaders: seq<byte>,
    dynsym: seq<byte>, dynstr: seq<byte>, hash: seq<byte>, rodata: seq<byte>, text: seq<byte>, dynamic: seq<byte>,
    debug: Debug, others: seq<Section>, shstrtab: seq<byte>, sectionHeaders: seq<seq<byte>>)

  const BASE: nat := EHDR_SIZE + PHDR_SIZE * PH_NUM

  const RODATA: nat := 3
  const TEXT: nat := 4

  function DebugSections(debug: Debug): seq<Section> {
    match debug
    case NoDebug => []
    case Symbols(symtab, strtab) => [Section(WORD_SIZE, symtab), Section(1, strtab)]
  }

  /** The sections in the order of their offsets. */
  function Sections(e: Elf): seq<Section> {
    [Section(WORD_SIZE, e.dynsym), Section(1, e.dynstr), Section(WORD_SIZE, e.hash),
     Section(PAGE_SIZE, e.rodata), Section(PAGE_SIZE, e.text), Section(PAGE_SIZE, e.dynamic)]
    + DebugSections(e.debug) + e.others + [Section(1, e.shstrtab)]
  }

  /** What the writer guarantees. */
  ghost predicate Complete(e: Elf) {
    && |e.header| == EHDR_SIZE && |e.programHeaders| == PHDR_SIZE * PH_NUM
    && Alignable(e.others)
    && |e.sectionHeaders| == |Sections(e)| + 1 && forall i :: 0 <= i < |e.sectionHeaders| ==>
      |e.sectionHeaders[i]| == SHDR_SIZE
  }

  lemma {:induction false} SectionsAlignable(e: Elf)
    requires Alignable(e.others)
    ensures Alignable(Sections(e)) && |Sections(e)| >= 7
  {
  }

  ghost function SectionPieces(start: nat, sections: seq<Section>): (r: seq<Piece>)
    requires Alignable(sections)
    ensures |r| == |sections|
  {
    seq(|sections|, i requires 0 <= i < |sections| => Piece(OffsetOf(start, sections, i), sections[i].bytes))
  }

  function TablePieces(start: nat, headers: seq<seq<byte>>): (r: seq<Piece>)
    ensures |r| == |headers|
  {
    seq(|headers|, i requires 0 <= i < |headers| => Piece(start + SHDR_SIZE * i, headers[i]))
  }

  /** Pieces in a row: each ends before the next one starts, and all lie within bounds. */
  ghost predicate Ascending(pieces: seq<Piece>, lo: nat, hi: nat) {
    && (forall i, j :: 0 <= i < j < |pieces| ==> End(pieces[i]) <= pieces[j].offset)
    && (forall i :: 0 <= i < |pieces| ==> lo <= pieces[i].offset && End(pieces[i]) <= hi)
  }

  lemma {:induction false} AscendingJoin(a: seq<Piece>, b: seq<Piece>, lo: nat, mid: nat, hi: nat)
    requires Ascending(a, lo, mid) && Ascending(b, mid, hi) && lo <= mid <= hi
    ensures Ascending(a + b, lo, hi)
  {
  }

  lemma {:induction false} AscendingDisjoint(pieces: seq<Piece>, lo: nat, hi: nat)
    requires Ascending(pieces, lo, hi)
    ensures AllDisjoint(pieces)
  {
    forall p, q | p in pieces && q in pieces && p != q ensures Disjoint(p, q) {
      var i :| 0 <= i < |pieces| && pieces[i] == p;
      var j :| 0 <= j < |pieces| && pieces[j] == q;
      assert i < j || j < i;
    }
  }

  lemma {:induction false} SectionsAscend(start: nat, sections: seq<Section>)
    requires Alignable(sections)
    ensures Ascending(SectionPieces(start, sections), start, EndOf(start, sections))
  {
    var pieces := SectionPieces(start, sections);
    forall i, j | 0 <= i < j < |pieces| ensures End(pieces[i]) <= pieces[j].offset {
      SectionsApart(start, sections, i, j);
    }
    forall i | 0 <= i < |pieces| ensures start <= pieces[i].offset && End(pieces[i]) <= EndOf(start, sections) {
      SectionWithin(start, sections, i);
    }
  }

  lemma {:induction false} TableAscends(start: nat, headers: seq<seq<byte>>)
    requires forall i :: 0 <= i < |headers| ==> |headers[i]| == SHDR_SIZE
    ensures Ascending(TablePieces(start, headers), start, start + SHDR_SIZE * |headers|)
  {
  }

  function TableOffset(e: Elf): nat {
    RoundUp(EndOf(BASE, Sections(e)), WORD_SIZE)
  }

  function HeaderPieces(e: Elf): seq<Piece> {
    [Piece(0, e.header), Piece(EHDR_SIZE, e.programHeaders)]
  }

  /** All pieces in the order of their offsets. */
  ghost function FilePieces(e: Elf): seq<Piece>
    requires Complete(e)
  {
    SectionsAlignable(e);
    HeaderPieces(e) + SectionPieces(BASE, Sections(e)) + TablePieces(TableOffset(e), e.sectionHeaders)
  }

  /** No two pieces of the file overlap. */
  lemma {:induction false} NoOverlap(e: Elf)
    requires Complete(e)
    ensures AllDisjoint(FilePieces(e))
  {
    SectionsAlignable(e);
    var s := Sections(e);
    var end, table := EndOf(BASE, s), TableOffset(e);
    assert Ascending(HeaderPieces(e), 0, BASE);
    SectionsAscend(BASE, s);
    EndGrows(BASE, s, 0, |s|);
    assert s[..|s|] == s;
    AscendingJoin(HeaderPieces(e), SectionPieces(BASE, s), 0, BASE, end);
    TableAscends(table, e.sectionHeaders);
    AscendingUpTo(HeaderPieces(e) + SectionPieces(BASE, s), 0, end, table);
    AscendingJoin(HeaderPieces(e) + SectionPieces(BASE, s), TablePieces(table, e.sectionHeaders), 0, table,
                  table + SHDR_SIZE * |e.sectionHeaders|);
    AscendingDisjoint(FilePieces(e), 0, table + SHDR_SIZE * |e.sectionHeaders|);
  }

  lemma {:induction false} AscendingUpTo(pieces: seq<Piece>, lo: nat, hi: nat, hi': nat)
    requires Ascending(pieces, lo, hi) && hi <= hi'
    ensures Ascending(pieces, lo, hi')
  {
  }

  /**
   .text starts exactly where .rodata ends, and the writer's check on that passes, if the size of
   .rodata is a multiple of the page size. Then one write of the oat file fills both.
   */
  lemma {:induction false} TextFollows(e: Elf)
    requires Complete(e) && Aligned(|e.rodata|, PAGE_SIZE)
    ensures Alignable(Sections(e)) && |Sections(e)| >= 7
    ensures OffsetOf(BASE, Sections(e), TEXT) == OffsetOf(BASE, Sections(e), RODATA) + |e.rodata|
    ensures Aligned(OffsetOf(BASE, Sections(e), TEXT), PAGE_SIZE)
  {
    SectionsAlignable(e);
    var s := Sections(e);
    assert s[RODATA] == Section(PAGE_SIZE, e.rodata) && s[TEXT] == Section(PAGE_SIZE, e.text);
    EndStep(BASE, s, RODATA);
    SectionWithin(BASE, s, RODATA);
    var end := OffsetOf(BASE, s, RODATA) + |e.rodata|;
    AlignedSum(OffsetOf(BASE, s, RODATA), |e.rodata|, PAGE_SIZE);
    RoundUpLeast(end, PAGE_SIZE, end);
  }

  function DebugCount(debug: Debug): nat {
    if debug.NoDebug? then 0 else 2
  }

  /** The pieces in the order in which the source writes them; .rodata and .text are one write of the oat file. */
  ghost function WriteOrder(e: Elf): seq<Piece>
    requires Complete(e)
  {
    SectionsAlignable(e);
    BeforeOat(e) + [OatPiece(e)] + BehindOat(e)
  }

  ghost function BeforeOat(e: Elf): seq<Piece>
    requires Complete(e)
  {
    SectionsAlignable(e);
    var p := SectionPieces(BASE, Sections(e));
    HeaderPieces(e) + [p[5], p[0], p[1], p[2]]
  }

  ghost function OatPiece(e: Elf): Piece
    requires Complete(e)
  {
    SectionsAlignable(e);
    Piece(OffsetOf(BASE, Sections(e), RODATA), e.rodata + e.text)
  }

  ghost function BehindOat(e: Elf): seq<Piece>
    requires Complete(e)
  {
    SectionsAlignable(e);
    var p, d := SectionPieces(BASE, Sections(e)), DebugCount(e.debug);
    p[6..6 + d] + [p[|p| - 1]] + TablePieces(TableOffset(e), e.sectionHeaders) + p[6 + d..|p| - 1]
  }

  lemma {:induction false} SamePieces(h: seq<Piece>, p: seq<Piece>, t: seq<Piece>, d: nat)
    requires |p| >= 7 + d
    ensures forall x :: x in h + p + t <==>
      x in h + [p[5], p[0], p[1], p[2]] + [p[3], p[4]] + (p[6..6 + d] + [p[|p| - 1]] + t + p[6 + d..|p| - 1])
  {
    var last := |p| - 1;
    var q := [p[5], p[0], p[1], p[2]] + [p[3], p[4]];
    assert p == p[..6] + p[6..6 + d] + p[6 + d..last] + [p[last]];
    forall x ensures x in p[..6] <==> x in q {
      assert p[..6] == [p[0], p[1], p[2], p[3], p[4], p[5]];
    }
  }

  /** In the middle of other writes, one write of both contents is two writes. */
  lemma {:induction false} JoinedWrite(a: seq<Piece>, p: Piece, q: Piece, b: seq<Piece>)
    requires q.offset == End(p)
    ensures WriteAll(a + [Piece(p.offset, p.bytes + q.bytes)] + b) == WriteAll(a + [p, q] + b)
    decreases |b|
  {
    var joined := Piece(p.offset, p.bytes + q.bytes);
    if b == [] {
      var one, two := a + [joined] + b, a + [p, q] + b;
      assert one[..|one| - 1] == a && two[..|two| - 1] == a + [p] && (a + [p])[..|a|] == a;
      OneWrite(WriteAll(a), p, q);
    } else {
      var n := |b| - 1;
      JoinedWrite(a, p, q, b[..n]);
      assert (a + [joined] + b)[..|a| + 1 + n] == a + [joined] + b[..n];
      assert (a + [p, q] + b)[..|a| + 2 + n] == a + [p, q] + b[..n];
    }
  }

  lemma {:induction false} SourceOrder(h: seq<Piece>, p: seq<Piece>, t: seq<Piece>, d: nat, q: seq<Piece>)
    requires |p| >= 7 + d && AllDisjoint(h + p + t)
    requires q == h + [p[5], p[0], p[1], p[2]] + [p[3], p[4]] + (p[6..6 + d] + [p[|p| - 1]] + t + p[6 + d..|p| - 1])
    ensures WriteAll(q) == WriteAll(h + p + t)
  {
    SamePieces(h, p, t, d);
    var all := h + p + t;
    assert forall x :: x in all <==> x in q;
    OrderIrrelevant(all, q);
  }

  /** .rodata and .text written one after the other, and everything else in the order of the source. */
  lemma {:induction false} SeparateWrites(e: Elf, p: seq<Piece>)
    requires Complete(e) && Alignable(Sections(e)) && p == SectionPieces(BASE, Sections(e))
    requires |p| >= 7 + DebugCount(e.debug)
    ensures WriteAll(BeforeOat(e) + [p[RODATA], p[TEXT]] + BehindOat(e)) == WriteAll(FilePieces(e))
  {
    NoOverlap(e);
    var h, t, d := HeaderPieces(e), TablePieces(TableOffset(e), e.sectionHeaders), DebugCount(e.debug);
    assert FilePieces(e) == h + p + t;
    assert BeforeOat(e) == h + [p[5], p[0], p[1], p[2]];
    assert BehindOat(e) == p[6..6 + d] + [p[|p| - 1]] + t + p[6 + d..|p| - 1];
    SourceOrder(h, p, t, d, BeforeOat(e) + [p[RODATA], p[TEXT]] + BehindOat(e));
  }

  lemma {:induction false} OrderOfSource(e: Elf)
    requires Complete(e) && Aligned(|e.rodata|, PAGE_SIZE)
    ensures WriteAll(WriteOrder(e)) == WriteAll(FilePieces(e))
  {
    TextFollows(e);
    var s := Sections(e);
    var p := SectionPieces(BASE, s);
    assert s[RODATA].bytes == e.rodata && s[TEXT].bytes == e.text && |s| >= 7 + DebugCount(e.debug);
    SeparateWrites(e, p);
    JoinedWrite(BeforeOat(e), p[RODATA], p[TEXT], BehindOat(e));
  }

  /** The file the source writes is the one laid out, and holds every section where its header says. */
  lemma {:induction false} FileIs(e: Elf)
    requires Complete(e) && Aligned(|e.rodata|, PAGE_SIZE)
    ensures WriteAll(WriteOrder(e)) == WriteAll(FilePieces(e))
    ensures Alignable(Sections(e))
    ensures Holds(WriteAll(WriteOrder(e)), 0, e.header) && Holds(WriteAll(WriteOrder(e)), EHDR_SIZE, e.programHeaders)
    ensures forall i: nat :: i < |Sections(e)| ==>
      Holds(WriteAll(WriteOrder(e)), OffsetOf(BASE, Sections(e), i), Sections(e)[i].bytes)
  {
    OrderOfSource(e);
    SectionsAlignable(e);
    NoOverlap(e);
    var s, all := Sections(e), FilePieces(e);
    assert all[0] == HeaderPieces(e)[0] && all[1] == HeaderPieces(e)[1];
    PiecesHeld(all, 0);
    PiecesHeld(all, 1);
    forall i: nat | i < |s| ensures Holds(WriteAll(all), OffsetOf(BASE, s, i), s[i].bytes) {
      assert all[2 + i] == SectionPieces(BASE, s)[i];
      PiecesHeld(all, 2 + i);
    }
  }
}
