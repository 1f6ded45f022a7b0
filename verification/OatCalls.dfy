/**
 What OatWriter::Write does with the stream up to the maps, as a list of calls: the header, five writes for
 every dex file entry, a seek and a write for every dex file, three or five writes for every class.
 */
module OatCalls {
  import opened Bytes
  import opened Streams
  import opened StreamRuns
  import opened DedupLayout
  import opened OatFormat
  import opened OatPasses

  /** No piece of an entry is too large for the buffer of the stream. */
  predicate SmallEntry(dex: DexFile, classOffsets: seq<nat>) {
    |dex.location| <= BUFFER_SIZE && 4 * |classOffsets| <= BUFFER_SIZE
  }

  predicate SmallClass(c: OatClass, offsets: seq<nat>) {
    BitmapSize(c) <= BUFFER_SIZE && 4 * |offsets| <= BUFFER_SIZE
  }

  predicate SmallEntries(o: Oat) {
    && (forall d :: 0 <= d < |o.dexFiles| ==> |o.dexFiles[d].location| <= BUFFER_SIZE)
    && (forall d :: 0 <= d < |o.dexFiles| ==> 4 * o.dexFiles[d].numClassDefs <= BUFFER_SIZE)
  }

  predicate SmallClasses(o: Oat) {
    && (forall c :: 0 <= c < |o.classes| ==> BitmapSize(o.classes[c]) <= BUFFER_SIZE)
    && (forall c :: 0 <= c < |o.classes| ==> 4 * |Compiled(o.classes[c].methods)| <= BUFFER_SIZE)
  }

  predicate SmallTables(o: Oat) {
    SmallEntries(o) && SmallClasses(o)
  }

  /**
   The caller has nothing pending, no piece of a table is larger than the buffer, and the last offset is not
   that of an error.
   */
  ghost predicate Sure(o: Oat, end: nat, b: Buffered) {
    b.pending == [] && SmallTables(o) && View(b).pos + end < TWO_32 - 1
  }

  /** Five writes in a row, of which the first that fails is the last. */
  function WriteFive(b: Buffered, a1: seq<byte>, a2: seq<byte>, a3: seq<byte>, a4: seq<byte>,
                     a5: seq<byte>): (Buffered, bool) {
    var (b1, ok1) := BufWrite(b, a1);
    if !ok1 then (b1, false) else
      var (b2, ok2) := BufWrite(b1, a2);
      if !ok2 then (b2, false) else
        var (b3, ok3) := BufWrite(b2, a3);
        if !ok3 then (b3, false) else
          var (b4, ok4) := BufWrite(b3, a4);
          if !ok4 then (b4, false) else BufWrite(b4, a5)
  }

  lemma {:induction false} EmittedFive(b: Buffered, a1: seq<byte>, a2: seq<byte>, a3: seq<byte>, a4: seq<byte>,
                                       a5: seq<byte>, small: bool)
    requires small ==> |a1| <= BUFFER_SIZE && |a2| <= BUFFER_SIZE && |a3| <= BUFFER_SIZE && |a4| <= BUFFER_SIZE
    requires small ==> |a5| <= BUFFER_SIZE
    ensures var (b', ok) := WriteFive(b, a1, a2, a3, a4, a5); Emitted(b, b', ok, a1 + a2 + a3 + a4 + a5, small)
  {
    EmittedOne(b, a1);
    var (b1, ok1) := BufWrite(b, a1);
    if ok1 {
      EmittedOne(b1, a2);
      var (b2, ok2) := BufWrite(b1, a2);
      EmittedTwice(b, b1, b2, ok2, a1, a2, small, small, small);
      if ok2 {
        EmittedThree(b, b2, a1 + a2, a3, a4, a5, small);
      }
    }
  }

  lemma {:induction false} EmittedThree(b: Buffered, b2: Buffered, a: seq<byte>, a3: seq<byte>, a4: seq<byte>,
                                        a5: seq<byte>, small: bool)
    requires Emitted(b, b2, true, a, small)
    requires small ==> |a3| <= BUFFER_SIZE && |a4| <= BUFFER_SIZE && |a5| <= BUFFER_SIZE
    ensures var (b3, ok3) := BufWrite(b2, a3); !ok3 ==> Kept(b, b3, false)
    ensures var (b3, ok3) := BufWrite(b2, a3); var (b4, ok4) := BufWrite(b3, a4);
      ok3 && !ok4 ==> Kept(b, b4, false)
    ensures var (b3, ok3) := BufWrite(b2, a3); var (b4, ok4) := BufWrite(b3, a4); var (b5, ok5) := BufWrite(b4, a5);
      ok3 && ok4 ==> Emitted(b, b5, ok5, a + a3 + a4 + a5, small)
  {
    EmittedOne(b2, a3);
    var (b3, ok3) := BufWrite(b2, a3);
    EmittedTwice(b, b2, b3, ok3, a, a3, small, small, small);
    if ok3 {
      EmittedOne(b3, a4);
      var (b4, ok4) := BufWrite(b3, a4);
      EmittedTwice(b, b3, b4, ok4, a + a3, a4, small, small, small);
      if ok4 {
        EmittedOne(b4, a5);
        var (b5, ok5) := BufWrite(b4, a5);
        EmittedTwice(b, b4, b5, ok5, a + a3 + a4, a5, small, small, small);
      }
    }
  }

  lemma {:induction false} FiveCalls(b: Buffered, a1: seq<byte>, a2: seq<byte>, a3: seq<byte>, a4: seq<byte>,
                                     a5: seq<byte>)
    ensures Attempt(b, [WriteOp(a1), WriteOp(a2), WriteOp(a3), WriteOp(a4), WriteOp(a5)])
         == WriteFive(b, a1, a2, a3, a4, a5)
  {
    var o1, o2, o3, o4, o5 := WriteOp(a1), WriteOp(a2), WriteOp(a3), WriteOp(a4), WriteOp(a5);
    assert [o1, o2, o3, o4, o5] == [o1] + ([o2] + ([o3] + ([o4] + [o5])));
    var b1 := BufWrite(b, a1).0;
    var b2 := BufWrite(b1, a2).0;
    var b3 := BufWrite(b2, a3).0;
    AttemptFirst(b, o1, [o2] + ([o3] + ([o4] + [o5])));
    AttemptFirst(b1, o2, [o3] + ([o4] + [o5]));
    AttemptFirst(b2, o3, [o4] + [o5]);
    AttemptFirst(b3, o4, [o5]);
    AttemptOne(BufWrite(b3, a4).0, o5);
  }

  lemma {:induction false} AttemptFirst(b: Buffered, op: Op, rest: seq<Op>)
    ensures Attempt(b, [op] + rest) ==
      if Failed(BufStep(b, op).1) then (BufStep(b, op).0, false) else Attempt(BufStep(b, op).0, rest)
  {
    assert ([op] + rest)[1..] == rest;
  }

  /** OatDexFile::Write on the stream */
  function WriteEntry(b: Buffered, dex: DexFile, dexOffset: nat, classOffsets: seq<nat>): (Buffered, bool) {
    WriteFive(b, Le32(U32(|dex.location|)), dex.location, Le32(dex.checksum), Le32(U32(dexOffset)), Words(classOffsets))
  }

  function EntryCalls(dex: DexFile, dexOffset: nat, classOffsets: seq<nat>): seq<Op> {
    [WriteOp(Le32(U32(|dex.location|))), WriteOp(dex.location), WriteOp(Le32(dex.checksum)),
     WriteOp(Le32(U32(dexOffset))), WriteOp(Words(classOffsets))]
  }

  lemma {:induction false} EntryIsCalls(b: Buffered, dex: DexFile, dexOffset: nat, classOffsets: seq<nat>)
    ensures WriteEntry(b, dex, dexOffset, classOffsets) == Attempt(b, EntryCalls(dex, dexOffset, classOffsets))
  {
    FiveCalls(b, Le32(U32(|dex.location|)), dex.location, Le32(dex.checksum), Le32(U32(dexOffset)),
              Words(classOffsets));
  }

  lemma {:induction false} EmittedEntry(b: Buffered, dex: DexFile, dexOffset: nat, classOffsets: seq<nat>)
    ensures var (b', ok) := WriteEntry(b, dex, dexOffset, classOffsets);
      Emitted(b, b', ok, DexEntryBytes(dex, dexOffset, classOffsets), SmallEntry(dex, classOffsets))
  {
    EmittedFive(b, Le32(U32(|dex.location|)), dex.location, Le32(dex.checksum), Le32(U32(dexOffset)),
                Words(classOffsets), SmallEntry(dex, classOffsets));
  }

  /** OatClass::Write on the stream */
  function WriteClassOn(b: Buffered, c: OatClass, offsets: seq<nat>): (Buffered, bool) {
    if BitmapSize(c) != 0 then
      WriteFive(b, Le16(c.status), Le16(ClassType(c)), Le32(U32(BitmapSize(c))), Bitmap(c), Words(offsets))
    else
      var (b1, ok1) := BufWrite(b, Le16(c.status));
      if !ok1 then (b1, false) else
        var (b2, ok2) := BufWrite(b1, Le16(ClassType(c)));
        if !ok2 then (b2, false) else BufWrite(b2, Words(offsets))
  }

  function ClassCalls(c: OatClass, offsets: seq<nat>): seq<Op> {
    if BitmapSize(c) != 0 then
      [WriteOp(Le16(c.status)), WriteOp(Le16(ClassType(c))), WriteOp(Le32(U32(BitmapSize(c)))), WriteOp(Bitmap(c)),
       WriteOp(Words(offsets))]
    else
      [WriteOp(Le16(c.status))] + ([WriteOp(Le16(ClassType(c)))] + [WriteOp(Words(offsets))])
  }

  lemma {:induction false} ClassIsCalls(b: Buffered, c: OatClass, offsets: seq<nat>)
    ensures WriteClassOn(b, c, offsets) == Attempt(b, ClassCalls(c, offsets))
  {
    var a1, a2, w := Le16(c.status), Le16(ClassType(c)), Words(offsets);
    if BitmapSize(c) != 0 {
      FiveCalls(b, a1, a2, Le32(U32(BitmapSize(c))), Bitmap(c), w);
    } else {
      var b1 := BufWrite(b, a1).0;
      AttemptFirst(b, WriteOp(a1), [WriteOp(a2)] + [WriteOp(w)]);
      AttemptFirst(b1, WriteOp(a2), [WriteOp(w)]);
      AttemptOne(BufWrite(b1, a2).0, WriteOp(w));
    }
  }

  lemma {:induction false} EmittedClass(b: Buffered, c: OatClass, offsets: seq<nat>)
    ensures var (b', ok) := WriteClassOn(b, c, offsets);
      Emitted(b, b', ok, ClassBytes(c, offsets), SmallClass(c, offsets))
  {
    ClassBytesIs(c, offsets);
    var a1, a2, w, small := Le16(c.status), Le16(ClassType(c)), Words(offsets), SmallClass(c, offsets);
    if BitmapSize(c) != 0 {
      EmittedFive(b, a1, a2, Le32(U32(BitmapSize(c))), Bitmap(c), w, small);
    } else {
      EmittedOne(b, a1);
      var (b1, ok1) := BufWrite(b, a1);
      EmittedOne(b1, a2);
      var (b2, ok2) := BufWrite(b1, a2);
      EmittedOne(b2, w);
      var (b3, ok3) := BufWrite(b2, w);
      if ok1 {
        EmittedTwice(b, b1, b2, ok2, a1, a2, true, true, small);
        if ok2 {
          EmittedTwice(b, b2, b3, ok3, a1 + a2, w, small, small, small);
        }
      }
    }
  }

  // ----- all tables -----

  ghost function EntryGroups(o: Oat, l: Layout): (g: seq<seq<Op>>)
    requires Good(o, l)
    ensures |g| == |o.dexFiles| && forall d :: 0 <= d < |g| ==>
      g[d] == EntryCalls(o.dexFiles[d], l.dex.places[d], OfDexFile(o, l.classes.places, d))
  {
    seq(|o.dexFiles|, d requires 0 <= d < |o.dexFiles| =>
      EntryCalls(o.dexFiles[d], l.dex.places[d], OfDexFile(o, l.classes.places, d)))
  }

  function DexCalls(place: nat, bytes: seq<byte>): seq<Op> {
    [SeekOp(place, SeekSet)] + [WriteOp(bytes)]
  }

  lemma {:induction false} TwoCalls(b: Buffered, first: Op, second: Op)
    ensures Attempt(b, [first] + [second]) ==
      if Failed(BufStep(b, first).1) then (BufStep(b, first).0, false)
      else (BufStep(BufStep(b, first).0, second).0, !Failed(BufStep(BufStep(b, first).0, second).1))
  {
    AttemptFirst(b, first, [second]);
    AttemptOne(BufStep(b, first).0, second);
  }

  ghost function DexGroups(o: Oat, p: Plan<nat>, base: nat): (g: seq<seq<Op>>)
    requires |p.places| == |o.dexFiles|
    ensures |g| == |o.dexFiles|
    ensures forall d :: 0 <= d < |g| ==> g[d] == DexCalls(base + p.places[d], o.dexFiles[d].bytes)
  {
    seq(|o.dexFiles|, d requires 0 <= d < |o.dexFiles| =>
      DexCalls(base + p.places[d], o.dexFiles[d].bytes))
  }

  ghost function ClassGroups(o: Oat, p: Plan<CodeKey>): (g: seq<seq<Op>>)
    requires CodePart(o, p) && o.methods == Visited(o.classes)
    ensures |g| == |o.classes| && forall c :: 0 <= c < |g| ==>
      g[c] == ClassCalls(o.classes[c], OfClass(o, FinalOffsets(o, p), c))
  {
    seq(|o.classes|, c requires 0 <= c < |o.classes| =>
      ClassCalls(o.classes[c], OfClass(o, FinalOffsets(o, p), c)))
  }

  /** The header and the dex file entries. */
  ghost function HeadCalls(o: Oat, l: Layout): seq<Op> {
    if Good(o, l) then [WriteOp(o.header)] + Flat(EntryGroups(o, l)) else []
  }

  /** The dex files and the classes. */
  ghost function TailCalls(o: Oat, l: Layout, base: nat): seq<Op> {
    if Good(o, l) then Flat(DexGroups(o, l.dex, base)) + Flat(ClassGroups(o, l.code)) else []
  }

  /** All tables, from the stream `b` on. */
  ghost function TablesFrom(o: Oat, l: Layout, base: nat, b: Buffered): (Buffered, bool) {
    var head := Attempt(b, HeadCalls(o, l));
    if head.1 then Attempt(head.0, TailCalls(o, l, base)) else head
  }

  ghost predicate RunsTo(o: Oat, l: Layout, base: nat, b: Buffered, run: (Buffered, bool)) {
    forall b' {:trigger TablesFrom(o, l, base, b')} :: b' == b ==> TablesFrom(o, l, base, b') == run
  }

  /** The calls succeed, and no fault is left for what comes after them. */
  ghost predicate Faultless(e: (Buffered, bool)) {
    e.1 && e.0.sink.faults == []
  }

  /**
   What is known of the tables when the calls for them have been tried, whatever the sink did: `head` is the
   stream in front of the dex files, `run` behind the classes.
   */
  ghost predicate TablesTried(o: Oat, l: Layout, base: nat, b: Buffered, head: (Buffered, bool),
                              run: (Buffered, bool)) {
    && Good(o, l)
    && (run.1 && View(head.0).pos == base + Last(l.dexEntries) && View(run.0).pos == base + Last(l.classes) ==>
          && TablesWritten(View(run.0).data, base, o, l)
          && OnlyWithin(View(b).data, View(run.0).data, base, base + Last(l.classes)))
    && ((run.1 && SmallTables(o)) || Unharmed(b, run.0) ==>
          View(head.0).pos == base + Last(l.dexEntries) && View(run.0).pos == base + Last(l.classes))
    && (|o.dexFiles| > 0 && Faultless(head) ==>
          && Faultless(run) && View(run.0).pos == base + Last(l.classes)
          && OnlyWithin(View(head.0).data, View(run.0).data, base + Start(l.dex), base + Last(l.classes)))
  }

  /** The position has been asked for. */
  ghost predicate Moved(c: Content, c': Content) {
    c'.pos == c.pos && OnlyWithin(c.data, c'.data, 0, 0)
  }

  /** The tables have been written, and the position is known relative to `base`. */
  ghost predicate Arrived(run: (Buffered, bool), b: Buffered, base: nat, relative: nat) {
    && run.1 && Later(run.0, b) && Unharmed(run.0, b) && Moved(View(run.0), View(b))
    && (base <= View(run.0).pos < TWO_32 ==> base + relative == View(run.0).pos)
  }

  // ----- what a lost byte can come to -----

  predicate NoMaps(o: Oat, kind: MapKind) {
    forall i :: 0 <= i < |o.methods| ==> BytesAt(o, MapOf(kind, o.methods[i])) == []
  }

  predicate NoMapsAtAll(o: Oat) {
    NoMaps(o, GcMap) && NoMaps(o, MappingTable) && NoMaps(o, VmapTable)
  }

  /** If the maps end at `relative`, the first code is still put where it should be. */
  ghost predicate Absorbs(o: Oat, l: Layout, relative: nat) {
    && Good(o, l) && o.trampolines == [] && o.methods != [] && NoMapsAtAll(o)
    && relative <= Last(l.vmap) <= l.executable
    && RoundUp(relative + (l.executable - Last(l.vmap)), Alignment(o.isa)) == RoundUp(l.executable, Alignment(o.isa))
  }

  /** The maps should have ended later than at `relative`, but the code starts where it should. */
  ghost predicate Late(o: Oat, l: Layout, relative: nat, base: nat, pos: nat) {
    Absorbs(o, l, relative) && pos == base + relative && base + Last(l.code) < TWO_32
  }

  lemma {:induction false} SameRounding(align: nat, head: seq<byte>, code: seq<byte>, codeOffset: nat, x: nat, y: nat)
    requires align > 0
    ensures RoundUp(x, align) == RoundUp(y, align) ==>
      x + |CodeBytes(align, head, code, codeOffset, x)| == y + |CodeBytes(align, head, code, codeOffset, y)|
  {
  }

  /** The run up to the dex files, from the position check at the start of Write on. */
  ghost function HeadRun(o: Oat, l: Layout, b: Buffered): (Buffered, bool) {
    Attempt(BufSeek(b, 0, SeekCurrent).0, HeadCalls(o, l))
  }

  /** The run up to the maps. */
  ghost function TableRun(o: Oat, l: Layout, b: Buffered): (Buffered, bool) {
    TablesFrom(o, l, View(b).pos, BufSeek(b, 0, SeekCurrent).0)
  }

  /** The tables have been written too early, all faults are used up, and nobody will notice. */
  ghost predicate Hidden(o: Oat, l: Layout, base: nat, e: (Buffered, bool)) {
    Good(o, l) && Faultless(e) && base <= View(e.0).pos <= base + Last(l.classes) && Absorbs(o, l, View(e.0).pos - base)
  }

  lemma {:induction false} HiddenIsLate(o: Oat, l: Layout, base: nat, e: (Buffered, bool), relative: nat)
    requires Hidden(o, l, base, e) && base + Last(l.code) < TWO_32 && View(e.0).pos == base + relative
    ensures Late(o, l, relative, base, View(e.0).pos)
  {
  }

  /**
   A true result means that every part of the plan is in the file, the rest of the file is as it was, the
   position is at the end and nothing is left in the buffer, if it is Sure or no write to the sink has failed.
   */
  ghost predicate Finished(o: Oat, l: Layout, base: nat, b: Buffered, b': Buffered, ok: bool) {
    && Good(o, l)
    && (ok && (Sure(o, Last(l.code), b) || Unharmed(b, b')) ==>
          && Complete(b'.sink.content.data, base, o, l)
          && b'.sink.content.pos == base + Last(l.code) && b'.pending == []
          && OnlyWithin(View(b).data, b'.sink.content.data, base, base + Last(l.code)))
  }

  /**
   What a run comes to in which bytes of the tables are lost. If the header and the dex file entries have used
   up all faults, the result is true, and what the stream showed in front of the dex files is what is in the
   file. If the header and all tables have, and the code hides how many bytes are missing, the same holds of
   all tables.
   */
  ghost predicate Outcome(o: Oat, l: Layout, base: nat, head: (Buffered, bool), run: (Buffered, bool), ok: bool,
                          d: seq<byte>) {
    && Good(o, l)
    && (|o.dexFiles| > 0 && Faultless(head) ==>
          ok && OnlyWithin(View(head.0).data, d, base + Start(l.dex), base + Last(l.code)))
    && (Hidden(o, l, base, run) ==>
          && ok
          && OnlyWithin(View(run.0).data, d, View(run.0).pos + (l.executable - Last(l.vmap)), base + Last(l.code)))
  }
}
