/**
 The two walks of OatWriter. The constructor's Init passes give every table, map and piece of code
 an offset; Write walks the same lists again and decides from the stored offsets alone what still
 has to be written.
 */
module OatWriter {
  import opened Bytes
  import opened Streams
  import opened StreamRuns
  import opened DedupLayout
  import opened OatFormat
  import opened OatPasses
  import opened OatCalls
  import opened OatTables

  class OatWriter {
    const oat: Oat
    /** method_offsets_ and method_headers_ of all classes, in visiting order */
    var codeOffsets: seq<uint32>
    var headers: seq<Header>
    var dexFileOffsets: seq<nat>
    var classOffsets: seq<nat>
    var methodsOffsets: seq<seq<nat>>
    var executableOffset: nat
    var executableAlignment: nat
    var size: nat
    var stats: seq<nat>
    ghost const layout: Layout

    /** The Init passes have run: every offset and header is final. */
    ghost predicate Planned()
      reads this
    {
      && Good(oat, layout)
      && headers == FinalHeaders(oat, layout)
      && codeOffsets == FinalOffsets(oat, layout.code)
      && dexFileOffsets == layout.dex.places
      && |methodsOffsets| == |oat.dexFiles|
      && (forall d :: 0 <= d < |oat.dexFiles| ==> methodsOffsets[d] == OfDexFile(oat, layout.classes.places, d))
      && executableOffset == layout.executable
      && executableAlignment == layout.executable - Last(layout.vmap)
      && size == Last(layout.code)
      && |stats| == STATS
    }

    /** An input has one layout (LayoutOf) and no other (LayoutUnique), so naming it restricts nothing. */
    constructor (o: Oat, ghost l: Layout)
      requires Good(o, l)
      ensures oat == o && layout == l && Planned()
      ensures Sum(stats) == Padding(l.dex, |o.dexFiles|)
    {
      oat := o;
      layout := l;
      codeOffsets := NoOffsets(|o.methods|);
      headers := seq(|o.methods|, _ => NO_HEADER);
      dexFileOffsets, classOffsets, methodsOffsets := [], [], [];
      executableOffset, executableAlignment, size := 0, 0, 0;
      stats := seq(STATS, _ => 0);
      new;
      SumZeros(stats);
      var offset := InitTables();
      size := InitContents(offset);
    }

    method InitTables() returns (end: nat)
      requires Good(oat, layout) && |stats| == STATS
      modifies `dexFileOffsets, `classOffsets, `methodsOffsets, `stats
      ensures end == Last(layout.classes) && dexFileOffsets == layout.dex.places
      ensures |methodsOffsets| == |oat.dexFiles|
      ensures forall d :: 0 <= d < |oat.dexFiles| ==> methodsOffsets[d] == OfDexFile(oat, layout.classes.places, d)
      ensures |stats| == STATS && Sum(stats) == old(Sum(stats)) + Padding(layout.dex, |oat.dexFiles|)
    {
      end := |oat.header|;
      end := InitOatDexFiles(end, layout.dexEntries);
      end := InitDexFiles(end, layout.dex);
      end := InitOatClasses(end, layout.classes);
      UpdateOatDexFiles();
    }

    method InitContents(offset: nat) returns (end: nat)
      requires Good(oat, layout) && offset == Last(layout.classes)
      requires |headers| == |oat.methods| && codeOffsets == NoOffsets(|oat.methods|)
      requires forall i :: 0 <= i < |headers| ==> headers[i] == NO_HEADER
      modifies `headers, `codeOffsets, `executableOffset, `executableAlignment
      ensures end == Last(layout.code)
      ensures headers == FinalHeaders(oat, layout) && codeOffsets == FinalOffsets(oat, layout.code)
      ensures executableOffset == layout.executable && executableAlignment == layout.executable - Last(layout.vmap)
    {
      end := InitOatMaps(offset, layout);
      end := InitOatCode(end, layout);
      end := InitOatCodeDexFiles(end, layout.code);
      CodesFinal(oat, layout, headers, codeOffsets);
    }

    /** Adds to one of the size_ counters. */
    method Count(counter: nat, n: nat)
      requires counter < |stats|
      modifies `stats
      ensures |stats| == old(|stats|) && Sum(stats) == old(Sum(stats)) + n
      ensures stats == old(stats)[counter := old(stats)[counter] + n]
    {
      SumBump(stats, counter, n);
      stats := stats[counter := stats[counter] + n];
    }

    /** Writes bytes and adds them to a counter, as every Write pass does. */
    method EmitPiece(out: BufferedOutputStream, bytes: seq<byte>, counter: nat) returns (ok: bool)
      requires out.Valid() && counter < |stats|
      modifies `stats, out, out.buffer
      ensures out.Valid() && (out.State(), ok) == BufWrite(old(out.State()), bytes)
      ensures |stats| == old(|stats|) && (ok ==> Sum(stats) == old(Sum(stats)) + |bytes|)
    {
      ok := out.WriteFully(bytes);
      if ok {
        Count(counter, |bytes|);
      }
    }

    method Emit(out: BufferedOutputStream, bytes: seq<byte>, counter: nat) returns (ok: bool)
      requires out.Valid() && counter < |stats|
      modifies `stats, out, out.buffer
      ensures out.Valid()
      ensures Emitted(old(out.State()), out.State(), ok, bytes, |bytes| <= BUFFER_SIZE || old(out.used) == 0)
      ensures |stats| == old(|stats|) && (ok ==> Sum(stats) == old(Sum(stats)) + |bytes|)
    {
      EmittedOne(out.State(), bytes);
      ok := EmitPiece(out, bytes, counter);
    }

    /** Seeks forward; only the position changes, unless the flush in front of the seek fails. */
    method SeekExactly(out: BufferedOutputStream, offset: nat, whence: Whence) returns (r: int)
      requires out.Valid() && whence != SeekEnd
      modifies out, out.buffer
      ensures out.Valid() && out.used == 0 && out.sink.content == out.Seen()
      ensures (out.State(), r) == BufSeek(old(out.State()), offset, whence)
      ensures Later(old(out.State()), out.State())
      ensures old(out.used) == 0 ==> out.sink.faults == old(out.sink.faults)
      ensures Unharmed(old(out.State()), out.State()) ==>
        && r == out.Seen().pos == (if whence == SeekSet then offset else old(out.Seen()).pos + offset)
        && OnlyWithin(old(out.Seen()).data, out.Seen().data, 0, 0)
      ensures !Unharmed(old(out.State()), out.State()) ==>
        r == -1 && old(out.used) > 0 && out.Seen().pos < old(out.Seen()).pos
    {
      SeekEffect(out.State(), offset, whence);
      r := out.Seek(offset, whence);
      MoveOnly(out.sink.kind, old(out.Seen()),
               if whence == SeekSet then offset else old(out.Seen()).pos + offset, 0, 0);
    }

    /** The same, as most callers need it. */
    method SeekTo(out: BufferedOutputStream, offset: nat, whence: Whence) returns (r: int)
      requires out.Valid() && whence != SeekEnd
      modifies out, out.buffer
      ensures out.Valid() && out.used == 0 && out.sink.content == out.Seen()
      ensures Later(old(out.State()), out.State())
      ensures old(out.used) == 0 ==> out.sink.faults == old(out.sink.faults)
      ensures Unharmed(old(out.State()), out.State()) ==>
        && r == out.Seen().pos == (if whence == SeekSet then offset else old(out.Seen()).pos + offset)
        && OnlyWithin(old(out.Seen()).data, out.Seen().data, 0, 0)
      ensures !Unharmed(old(out.State()), out.State()) ==>
        r == -1 && old(out.used) > 0 && out.Seen().pos < old(out.Seen()).pos
    {
      r := SeekExactly(out, offset, whence);
    }

    method InitOatDexFiles(offset: nat, ghost p: Plan<nat>) returns (end: nat)
      requires ListPart(p, DexEntrySizes(oat), 1) && Start(p) == offset
      ensures end == Last(p)
    {
      end := offset;
      for i := 0 to |oat.dexFiles|
        invariant end == p.ends[i]
      {
        RepeatBelow(p, i);
        end := end + DexEntrySize(oat.dexFiles[i]);
      }
    }

    method InitDexFiles(offset: nat, ghost p: Plan<nat>) returns (end: nat)
      requires ListPart(p, Lengths(DexBlobs(oat)), 4) && Start(p) == offset
      requires |stats| == STATS
      modifies `dexFileOffsets, `stats
      ensures end == Last(p) && dexFileOffsets == p.places
      ensures |stats| == STATS && Sum(stats) == old(Sum(stats)) + Padding(p, |p.keys|)
    {
      end := offset;
      dexFileOffsets := [];
      for i := 0 to |oat.dexFiles|
        invariant end == p.ends[i]
        invariant dexFileOffsets == p.places[..i]
        invariant |stats| == STATS && Sum(stats) == old(Sum(stats)) + Padding(p, i)
      {
        RepeatBelow(p, i);
        var originalOffset := end;
        end := RoundUp(end, 4);
        Count(SIZE_DEX_FILE_ALIGNMENT, end - originalOffset);
        dexFileOffsets := dexFileOffsets + [end];
        end := end + |oat.dexFiles[i].bytes|;
      }
    }

    method InitOatClasses(offset: nat, ghost p: Plan<nat>) returns (end: nat)
      requires ListPart(p, ClassSizes(oat), 1) && Start(p) == offset
      modifies `classOffsets
      ensures end == Last(p) && classOffsets == p.places
    {
      end := offset;
      classOffsets := [];
      for i := 0 to |oat.classes|
        invariant end == p.ends[i]
        invariant classOffsets == p.places[..i]
      {
        RepeatBelow(p, i);
        classOffsets := classOffsets + [end];
        end := end + ClassSize(oat.classes[i]);
      }
    }

    /** The second half of InitOatClasses: hand the class offsets out to the dex files. */
    method UpdateOatDexFiles()
      requires ClassDefs(oat.dexFiles) == |oat.classes| == |classOffsets|
      modifies `methodsOffsets
      ensures |methodsOffsets| == |oat.dexFiles|
      ensures forall d :: 0 <= d < |oat.dexFiles| ==> methodsOffsets[d] == OfDexFile(oat, classOffsets, d)
    {
      var it := 0;
      methodsOffsets := [];
      for d := 0 to |oat.dexFiles|
        invariant it == DexBase(oat, d)
        invariant |methodsOffsets| == d
        invariant forall e :: 0 <= e < d ==> methodsOffsets[e] == OfDexFile(oat, classOffsets, e)
      {
        ClassDefsPrefix(oat.dexFiles, d);
        var next := it + oat.dexFiles[d].numClassDefs;
        methodsOffsets := methodsOffsets + [classOffsets[it..next]];
        it := next;
      }
      assert oat.dexFiles[..|oat.dexFiles|] == oat.dexFiles;
      assert it == |oat.classes|;
    }

    /** InitMapMethodVisitor: the code offsets are still 0, so 0 - offset is recorded. */
    method InitMaps(kind: MapKind, offset: nat, ghost p: Plan<Ptr>) returns (end: nat)
      requires MapPart(oat, kind, p) && Start(p) == offset
      requires |headers| == |oat.methods| && codeOffsets == NoOffsets(|oat.methods|)
      modifies `headers
      ensures end == Last(p)
      ensures headers == Recorded(kind, old(headers), p, |oat.methods|)
    {
      var dedupe: map<Ptr, nat> := map[];
      end := offset;
      for n := 0 to |oat.methods|
        invariant end == p.ends[n]
        invariant dedupe == Dedupe(p, n, 0)
        invariant headers == Recorded(kind, old(headers), p, n)
      {
        RecordedStep(kind, old(headers), p, n, headers);
        end, dedupe := InitMap(kind, n, end, dedupe, p);
      }
    }

    method InitOatMaps(offset: nat, ghost l: Layout) returns (end: nat)
      requires Parts(oat, l) && Chained(oat, l) && offset == Last(l.classes)
      requires |headers| == |oat.methods| && codeOffsets == NoOffsets(|oat.methods|)
      requires forall i :: 0 <= i < |headers| ==> headers[i] == NO_HEADER
      modifies `headers
      ensures end == Last(l.vmap) && headers == MappedHeaders(oat, l)
    {
      ghost var hs0 := headers;
      end := InitMaps(GcMap, offset, l.gc);
      ghost var hs1 := headers;
      end := InitMaps(MappingTable, end, l.mapping);
      ghost var hs2 := headers;
      end := InitMaps(VmapTable, end, l.vmap);
      ThreePasses(oat, l, hs0, hs1, hs2, headers);
    }

    /** InitMapMethodVisitor::VisitMethod */
    method InitMap(kind: MapKind, n: nat, offset: nat, dedupe: map<Ptr, nat>, ghost p: Plan<Ptr>)
      returns (end: nat, dedupe': map<Ptr, nat>)
      requires MapPart(oat, kind, p) && n < |oat.methods| && offset == p.ends[n] && dedupe == Dedupe(p, n, 0)
      requires |headers| == |codeOffsets| == |oat.methods| && codeOffsets[n] == 0
      modifies `headers
      ensures end == p.ends[n + 1] && dedupe' == Dedupe(p, n + 1, 0)
      ensures headers == if p.sizes[n] == 0 then old(headers)
        else old(headers)[n := WithMapField(kind, old(headers)[n], U32(0 - p.places[n] as int))]
    {
      var key := MapOf(kind, oat.methods[n]);
      var mapSize := |BytesAt(oat, key)|;
      end, dedupe' := offset, dedupe;
      RepeatBelow(p, n);
      assert p.keys[n] == key && p.sizes[n] == mapSize;
      if mapSize != 0 {
        Lookup(p, n, 0);
        if key in dedupe {
          SetOffset(kind, n, dedupe[key]);
        } else {
          SetOffset(kind, n, offset);
          dedupe' := dedupe[key := offset];
          end := offset + mapSize;
        }
      }
    }

    /** SetOffset of the DataAccess structures. */
    method SetOffset(kind: MapKind, n: nat, offset: nat)
      requires n < |headers| == |codeOffsets|
      modifies `headers
      ensures headers == old(headers)[n := WithMapField(kind, old(headers)[n], U32(ClearLow(codeOffsets[n]) - offset))]
    {
      headers := headers[n := WithMapField(kind, headers[n], U32(ClearLow(codeOffsets[n]) - offset))];
    }

    /** InitOatCode: a page boundary, then the trampolines. */
    method InitOatCode(offset: nat, ghost l: Layout) returns (end: nat)
      requires Parts(oat, l) && Chained(oat, l) && offset == Last(l.vmap)
      modifies `executableOffset, `executableAlignment
      ensures end == Last(l.trampolines)
      ensures executableOffset == l.executable && executableAlignment == l.executable - Last(l.vmap)
    {
      end := RoundUp(offset, PAGE_SIZE);
      executableOffset := end;
      executableAlignment := end - offset;
      end := InitTrampolines(end, l.trampolines);
    }

    method InitTrampolines(offset: nat, ghost p: Plan<nat>) returns (end: nat)
      requires ListPart(p, Lengths(oat.trampolines), Alignment(oat.isa)) && Start(p) == offset
      ensures end == Last(p)
    {
      end := offset;
      for i := 0 to |oat.trampolines|
        invariant end == p.ends[i]
      {
        RepeatBelow(p, i);
        end := RoundUp(end, Alignment(oat.isa));
        end := end + |oat.trampolines[i]|;
      }
    }

    /** InitCodeMethodVisitor::VisitMethod */
    method InitCode(n: nat, offset: nat, dedupe: map<CodeKey, nat>, ghost p: Plan<CodeKey>)
      returns (end: nat, dedupe': map<CodeKey, nat>)
      requires CodePart(oat, p) && n < |oat.methods| == |headers| == |codeOffsets|
      requires offset == p.ends[n] && dedupe == Dedupe(p, n, HEADER_SIZE + CodeDelta(oat.isa))
      modifies `headers, `codeOffsets
      ensures end == p.ends[n + 1] && dedupe' == Dedupe(p, n + 1, HEADER_SIZE + CodeDelta(oat.isa))
      ensures headers == old(headers)[n := CodedHeader(oat, p, old(headers)[n], n)]
      ensures codeOffsets == old(codeOffsets)[n := U32(CodeAt(p, n) + CodeDelta(oat.isa))]
    {
      VisitCodePlanned(oat, p, n, headers[n]);
      var m := oat.methods[n];
      var key := KeyOf(m);
      end := RoundUp(offset, Alignment(oat.isa));
      var codeSize := |BytesAt(oat, m.code)|;
      var thumbOffset := CodeDelta(oat.isa);
      var quickCodeOffset := end + HEADER_SIZE + thumbOffset;
      var deduped := key in dedupe;
      if deduped {
        quickCodeOffset := dedupe[key];
        dedupe' := dedupe;
      } else {
        dedupe' := dedupe[key := quickCodeOffset];
      }
      var codeOffset := quickCodeOffset - thumbOffset;
      var h := headers[n];
      headers := headers[n := Header(Corrected(h.mapping, codeOffset), Corrected(h.vmap, codeOffset),
                                     Corrected(h.gc, codeOffset), m.frameSize, m.coreSpill, m.fpSpill, U32(codeSize))];
      if !deduped {
        end := end + HEADER_SIZE + codeSize;
      }
      codeOffsets := codeOffsets[n := U32(quickCodeOffset)];
    }

    method InitOatCodeDexFiles(offset: nat, ghost p: Plan<CodeKey>) returns (end: nat)
      requires CodePart(oat, p) && Start(p) == offset
      requires |oat.methods| == |headers| == |codeOffsets|
      modifies `headers, `codeOffsets
      ensures end == Last(p) && Coded(oat, p, old(headers), headers, codeOffsets, |oat.methods|)
    {
      var dedupe: map<CodeKey, nat> := map[];
      end := offset;
      for n := 0 to |oat.methods|
        invariant end == p.ends[n] && dedupe == Dedupe(p, n, HEADER_SIZE + CodeDelta(oat.isa))
        invariant Coded(oat, p, old(headers), headers, codeOffsets, n)
      {
        ghost var hs, offsets := headers, codeOffsets;
        end, dedupe := InitCode(n, end, dedupe, p);
        CodedStep(oat, p, old(headers), hs, offsets, n, headers, codeOffsets);
      }
    }

    // ----- writing -----

    /** WriteMapMethodVisitor::VisitMethod */
    method WriteMap(kind: MapKind, n: nat, out: BufferedOutputStream, offset: nat) returns (ok: bool, end: nat)
      requires out.Valid() && n < |oat.methods| == |headers| == |codeOffsets|
      modifies out, out.buffer
      ensures out.Valid()
      ensures var bytes := MapBytes(oat, kind, headers[n], codeOffsets[n], n, offset);
        && Emitted(old(out.State()), out.State(), ok, bytes, false) && (ok ==> end == offset + |bytes|)
        && (bytes == [] ==> ok && out.State() == old(out.State()))
    {
      ok, end := true, offset;
      var mapOffset := GetOffset(MapField(kind, headers[n]), codeOffsets[n]);
      var bytes := BytesAt(oat, MapOf(kind, oat.methods[n]));
      if |bytes| != 0 && mapOffset == offset {
        EmittedOne(out.State(), bytes);
        ok := out.WriteFully(bytes);
        if ok {
          end := offset + |bytes|;
        }
      } else {
        EmittedNone(out.State(), false);
      }
    }

    /**
     `plan` says that the pass starts where its plan says, as far as the offset goes; bytes may have been lost
     before.
     */
    method WriteMaps(kind: MapKind, out: BufferedOutputStream, relative: nat, ghost base: nat, ghost p: Plan<Ptr>,
                     ghost plan: bool)
      returns (ok: bool, end: nat)
      requires out.Valid() && |oat.methods| == |headers| == |codeOffsets|
      requires MapPart(oat, kind, p)
      requires forall i :: 0 <= i < |oat.methods| ==> MapDecided(kind, headers[i], codeOffsets[i], p, i)
      requires plan ==> relative == Start(p) && out.Seen().pos <= base + relative
      modifies out, out.buffer
      ensures out.Valid() && Kept(old(out.State()), out.State(), ok)
      ensures plan && ok ==>
        end == Last(p) && Going(old(out.Seen()), out.Seen(), base, p, MapBlobs(oat, kind), |oat.methods|)
      ensures plan && Unharmed(old(out.State()), out.State()) ==>
        out.Seen().pos == old(out.Seen()).pos + (end - relative)
      ensures NoMaps(oat, kind) ==> ok && end == relative && out.State() == old(out.State())
    {
      end := relative;
      ok := true;
      for n := 0 to |oat.methods|
        invariant out.Valid() && Kept(old(out.State()), out.State(), ok) && ok
        invariant NoMaps(oat, kind) ==> end == relative && out.State() == old(out.State())
        invariant plan ==> end == p.ends[n] && Going(old(out.Seen()), out.Seen(), base, p, MapBlobs(oat, kind), n)
        invariant plan && Unharmed(old(out.State()), out.State()) ==>
          out.Seen().pos == old(out.Seen()).pos + (end - relative)
      {
        ghost var seen := out.Seen();
        ok, end := WriteMap(kind, n, out, end);
        if !ok {
          return;
        }
        MapCount(oat, kind, headers[n], codeOffsets[n], p, n);
        if plan && out.Seen().pos == base + p.ends[n + 1] {
          MapWriteStep(oat, kind, headers[n], codeOffsets[n], p, base, old(out.Seen()), seen, out.Seen(), n);
        }
      }
    }

    /** WriteCodeMethodVisitor::VisitMethod, given the header and the code of the method */
    method WriteCode(header: seq<byte>, code: seq<byte>, codeOffset: nat, out: BufferedOutputStream, offset: nat)
      returns (ok: bool, end: nat)
      requires out.Valid() && |stats| == STATS
      modifies `stats, out, out.buffer
      ensures out.Valid() && |stats| == STATS
      ensures var bytes := CodeBytes(Alignment(oat.isa), header, code, codeOffset, offset);
        && Emitted(old(out.State()), out.State(), ok, bytes, false)
        && (ok ==> end == offset + |bytes| && Sum(stats) == old(Sum(stats)) + |bytes|)
    {
      ghost var b := out.State();
      end := RoundUp(offset, Alignment(oat.isa));
      var alignedCodeDelta := end - offset;
      ok := WritePadding(out, alignedCodeDelta);
      if !ok {
        return;
      }
      ghost var padded := out.State();
      var first := codeOffset >= end;
      ok := WriteUnlessRepeated(out, header, code, first);
      EmittedTwice(b, padded, out.State(), ok, Zeros(alignedCodeDelta),
                   if first then header + code else [], false, false, false);
      if first {
        end := end + (|header| + |code|);
      }
    }

    /** Header and code are written where they occur first. */
    method WriteUnlessRepeated(out: BufferedOutputStream, header: seq<byte>, code: seq<byte>, first: bool)
      returns (ok: bool)
      requires out.Valid() && |stats| == STATS
      modifies `stats, out, out.buffer
      ensures out.Valid() && |stats| == STATS
      ensures Emitted(old(out.State()), out.State(), ok, if first then header + code else [], false)
      ensures ok ==> Sum(stats) == old(Sum(stats)) + if first then |header| + |code| else 0
    {
      ok := true;
      if first {
        ok := WriteHeaderAndCode(out, header, code);
      } else {
        EmittedNone(out.State(), false);
      }
    }

    method WritePadding(out: BufferedOutputStream, alignedCodeDelta: nat) returns (ok: bool)
      requires out.Valid() && |stats| == STATS && alignedCodeDelta < 16
      modifies `stats, out, out.buffer
      ensures out.Valid() && |stats| == STATS
      ensures Emitted(old(out.State()), out.State(), ok, Zeros(alignedCodeDelta), false)
      ensures ok ==> Sum(stats) == old(Sum(stats)) + alignedCodeDelta
    {
      ok := true;
      if alignedCodeDelta != 0 {
        ok := Emit(out, Zeros(alignedCodeDelta), SIZE_CODE_ALIGNMENT);
      } else {
        EmittedNone(out.State(), false);
        assert Zeros(alignedCodeDelta) == [];
      }
    }

    method WriteHeaderAndCode(out: BufferedOutputStream, header: seq<byte>, code: seq<byte>) returns (ok: bool)
      requires out.Valid() && |stats| == STATS
      modifies `stats, out, out.buffer
      ensures out.Valid() && |stats| == STATS
      ensures Emitted(old(out.State()), out.State(), ok, header + code, false)
      ensures ok ==> Sum(stats) == old(Sum(stats)) + |header + code|
    {
      ghost var b := out.State();
      ok := Emit(out, header, SIZE_METHOD_HEADER);
      if ok {
        ghost var b1 := out.State();
        ok := Emit(out, code, SIZE_CODE);
        EmittedTwice(b, b1, out.State(), ok, header, code, false, false, false);
      }
    }

    method WriteCodeDexFiles(out: BufferedOutputStream, relative: nat, ghost base: nat,
                             ghost p: Plan<CodeKey>, ghost blobs: seq<seq<byte>>, ghost plan: bool)
      returns (ok: bool, end: nat)
      requires out.Valid() && CodePart(oat, p) && Fitting(p, blobs) && |stats| == STATS
      requires |headers| == |oat.methods| && codeOffsets == FinalOffsets(oat, p)
      requires forall i :: 0 <= i < |blobs| ==>
        BytesAt(oat, oat.methods[i].code) != [] &&
          blobs[i] == HeaderBytes(headers[i]) + BytesAt(oat, oat.methods[i].code)
      requires plan ==> relative == Start(p) && out.Seen().pos <= base + relative
      modifies `stats, out, out.buffer
      ensures out.Valid() && Kept(old(out.State()), out.State(), ok) && |stats| == STATS
      ensures plan && ok ==> end == Last(p) && Going(old(out.Seen()), out.Seen(), base, p, blobs, |blobs|)
      ensures plan && ok ==> Sum(stats) == old(Sum(stats)) + (end - relative)
      ensures Unharmed(old(out.State()), out.State()) ==>
        && out.Seen().pos == old(out.Seen()).pos + (end - relative)
        && OnlyWithin(old(out.Seen()).data, out.Seen().data, old(out.Seen()).pos, out.Seen().pos)
      ensures ok && |oat.methods| > 0 && RoundUp(relative, p.align) == RoundUp(Start(p), p.align) ==> end == Last(p)
    {
      ghost var aligned := RoundUp(relative, p.align) == RoundUp(Start(p), p.align);
      end := relative;
      ok := true;
      for n := 0 to |oat.methods|
        invariant out.Valid() && Kept(old(out.State()), out.State(), ok) && ok && |stats| == STATS
        invariant plan ==> Going(old(out.Seen()), out.Seen(), base, p, blobs, n)
        invariant plan ==> Sum(stats) == old(Sum(stats)) + (end - relative)
        invariant relative <= end
        invariant Unharmed(old(out.State()), out.State()) ==>
          && out.Seen().pos == old(out.Seen()).pos + (end - relative)
          && OnlyWithin(old(out.Seen()).data, out.Seen().data, old(out.Seen()).pos, out.Seen().pos)
        invariant n == 0 ==> end == relative
        invariant aligned && (n > 0 || relative == Start(p)) ==> end == p.ends[n]
      {
        ghost var seen := out.Seen();
        var header, code := HeaderBytes(headers[n]), BytesAt(oat, oat.methods[n].code);
        ghost var bytes := CodeBytes(p.align, header, code, codeOffsets[n], end);
        ok, end := WriteCode(header, code, codeOffsets[n], out, end);
        if !ok {
          return;
        }
        CodeCount(oat, header, code, p, codeOffsets[n], n);
        if n == 0 {
          SameRounding(p.align, header, code, codeOffsets[n], relative, Start(p));
        }
        if Unharmed(old(out.State()), out.State()) {
          PutMore(old(out.Seen()), seen, bytes);
        }
        if plan && out.Seen().pos == base + p.ends[n + 1] {
          CodeWriteStep(oat, header, code, p, blobs, codeOffsets[n], base, old(out.Seen()), seen, out.Seen(), n);
        }
      }
    }

    /** OatDexFile::Write */
    method WriteDexEntry(d: nat, out: BufferedOutputStream, ghost calls: seq<Op>) returns (ok: bool)
      requires out.Valid() && d < |oat.dexFiles| == |dexFileOffsets| == |methodsOffsets| && |stats| == STATS
      requires calls == EntryCalls(oat.dexFiles[d], dexFileOffsets[d], methodsOffsets[d])
      modifies `stats, out, out.buffer
      ensures out.Valid() && |stats| == STATS && (out.State(), ok) == Attempt(old(out.State()), calls)
      ensures ok ==> Sum(stats) == old(Sum(stats)) + 12 + |oat.dexFiles[d].location| + 4 * |methodsOffsets[d]|
    {
      var dex := oat.dexFiles[d];
      EntryIsCalls(out.State(), dex, dexFileOffsets[d], methodsOffsets[d]);
      ok := EmitPiece(out, Le32(U32(|dex.location|)), SIZE_LOCATION_SIZE);
      if !ok { return; }
      ok := EmitPiece(out, dex.location, SIZE_LOCATION_DATA);
      if !ok { return; }
      ok := EmitPiece(out, Le32(dex.checksum), SIZE_LOCATION_CHECKSUM);
      if !ok { return; }
      ok := EmitPiece(out, Le32(U32(dexFileOffsets[d])), SIZE_DEX_FILE_OFFSET);
      if !ok { return; }
      ok := EmitPiece(out, Words(methodsOffsets[d]), SIZE_METHODS_OFFSETS);
    }

    method WriteDexEntries(out: BufferedOutputStream, ghost p: Plan<nat>, ghost groups: seq<seq<Op>>)
      returns (ok: bool)
      requires out.Valid() && ListPart(p, DexEntrySizes(oat), 1) && |stats| == STATS
      requires |oat.dexFiles| == |dexFileOffsets| == |methodsOffsets| == |groups|
      requires forall d :: 0 <= d < |groups| ==>
        && |methodsOffsets[d]| == oat.dexFiles[d].numClassDefs
        && groups[d] == EntryCalls(oat.dexFiles[d], dexFileOffsets[d], methodsOffsets[d])
      modifies `stats, out, out.buffer
      ensures out.Valid() && |stats| == STATS && (out.State(), ok) == Tried(old(out.State()), groups, |groups|)
      ensures ok ==> Sum(stats) == old(Sum(stats)) + (Last(p) - Start(p))
    {
      ok := true;
      for n := 0 to |oat.dexFiles|
        invariant out.Valid() && |stats| == STATS && ok && (out.State(), ok) == Tried(old(out.State()), groups, n)
        invariant Sum(stats) == old(Sum(stats)) + (p.ends[n] - Start(p))
      {
        RepeatBelow(p, n);
        ok := WriteDexEntry(n, out, groups[n]);
        if !ok {
          TriedStops(old(out.State()), groups, n + 1, |groups|);
          return;
        }
      }
    }

    /**
     One dex file is sought out at its own aligned offset; the result of the seek is checked. `plan` says that
     the offset cannot be mistaken for that of an error.
     */
    method WriteDexFile(n: nat, out: BufferedOutputStream, base: nat, ghost calls: seq<Op>, ghost plan: bool)
      returns (ok: bool)
      requires out.Valid() && |stats| == STATS && n < |oat.dexFiles| == |dexFileOffsets|
      requires calls == DexCalls(base + dexFileOffsets[n], oat.dexFiles[n].bytes)
      requires plan ==> base + dexFileOffsets[n] < TWO_32 - 1
      modifies `stats, out, out.buffer
      ensures out.Valid() && Kept(old(out.State()), out.State(), ok) && |stats| == STATS
      ensures plan ==> (out.State(), ok) == Attempt(old(out.State()), calls)
      ensures ok ==> Sum(stats) == old(Sum(stats)) + |oat.dexFiles[n].bytes|
    {
      TwoCalls(out.State(), SeekOp(base + dexFileOffsets[n], SeekSet), WriteOp(oat.dexFiles[n].bytes));
      var expectedOffset := U32(base + dexFileOffsets[n]);
      var actualOffset := SeekExactly(out, expectedOffset, SeekSet);
      if U32(actualOffset) != expectedOffset {
        return false;
      }
      EmittedOne(out.State(), oat.dexFiles[n].bytes);
      ok := EmitPiece(out, oat.dexFiles[n].bytes, SIZE_DEX_FILE);
    }

    method WriteDexFiles(out: BufferedOutputStream, base: nat, ghost p: Plan<nat>, ghost groups: seq<seq<Op>>,
                         ghost plan: bool)
      returns (ok: bool)
      requires out.Valid() && ListPart(p, Lengths(DexBlobs(oat)), 4) && |stats| == STATS && dexFileOffsets == p.places
      requires |groups| == |oat.dexFiles| && forall d :: 0 <= d < |groups| ==>
        oat.dexFiles[d].bytes != [] && groups[d] == DexCalls(base + dexFileOffsets[d], oat.dexFiles[d].bytes)
      requires plan ==> base + Last(p) < TWO_32
      modifies `stats, out, out.buffer
      ensures out.Valid() && Kept(old(out.State()), out.State(), ok) && |stats| == STATS
      ensures plan ==> (out.State(), ok) == Tried(old(out.State()), groups, |groups|)
      ensures ok ==> Sum(stats) + Padding(p, |groups|) == old(Sum(stats)) + (Last(p) - Start(p))
    {
      ok := true;
      for n := 0 to |oat.dexFiles|
        invariant out.Valid() && Kept(old(out.State()), out.State(), ok) && ok && |stats| == STATS
        invariant plan ==> (out.State(), ok) == Tried(old(out.State()), groups, n)
        invariant Sum(stats) + Padding(p, n) == old(Sum(stats)) + (p.ends[n] - Start(p))
      {
        RepeatBelow(p, n);
        EndsGrow(p, n + 1, |groups|);
        ok := WriteDexFile(n, out, base, groups[n], plan);
        if !ok {
          if plan {
            TriedStops(old(out.State()), groups, n + 1, |groups|);
          }
          return;
        }
      }
    }

    /** OatClass::Write */
    method WriteClass(c: OatClass, offsets: seq<nat>, out: BufferedOutputStream, ghost calls: seq<Op>)
      returns (ok: bool)
      requires out.Valid() && |stats| == STATS && calls == ClassCalls(c, offsets)
      modifies `stats, out, out.buffer
      ensures out.Valid() && |stats| == STATS && (out.State(), ok) == Attempt(old(out.State()), calls)
      ensures ok ==> Sum(stats) == old(Sum(stats)) + |ClassBytes(c, offsets)|
    {
      ClassIsCalls(out.State(), c, offsets);
      ok := EmitPiece(out, Le16(c.status), SIZE_CLASS_STATUS);
      if !ok { return; }
      ok := EmitPiece(out, Le16(ClassType(c)), SIZE_CLASS_TYPE);
      if !ok { return; }
      if BitmapSize(c) != 0 {
        ok := EmitPiece(out, Le32(U32(BitmapSize(c))), SIZE_CLASS_BITMAPS);
        if !ok { return; }
        ok := EmitPiece(out, Bitmap(c), SIZE_CLASS_BITMAPS);
        if !ok { return; }
      }
      ok := EmitPiece(out, Words(offsets), SIZE_CLASS_METHOD_OFFSETS);
    }

    /** The method_offsets_ of each class. */
    method SplitByClass() returns (offsets: seq<seq<nat>>)
      requires oat.methods == Visited(oat.classes) && |codeOffsets| == |oat.methods|
      ensures |offsets| == |oat.classes|
      ensures forall c :: 0 <= c < |offsets| ==> offsets[c] == OfClass(oat, codeOffsets, c)
    {
      offsets := [];
      var it := 0;
      for n := 0 to |oat.classes|
        invariant it == ClassBase(oat, n)
        invariant |offsets| == n
        invariant forall c :: 0 <= c < n ==> offsets[c] == OfClass(oat, codeOffsets, c)
      {
        ClassMethods(oat, n);
        var next := it + |Compiled(oat.classes[n].methods)|;
        offsets := offsets + [codeOffsets[it..next]];
        it := next;
      }
    }

    method WriteClasses(out: BufferedOutputStream, offsets: seq<seq<nat>>, ghost p: Plan<nat>,
                        ghost groups: seq<seq<Op>>)
      returns (ok: bool)
      requires out.Valid() && ListPart(p, ClassSizes(oat), 1) && |stats| == STATS
      requires |oat.classes| == |offsets| == |groups|
      requires forall c :: 0 <= c < |groups| ==>
        && |offsets[c]| == |Compiled(oat.classes[c].methods)|
        && groups[c] == ClassCalls(oat.classes[c], offsets[c])
      modifies `stats, out, out.buffer
      ensures out.Valid() && |stats| == STATS && (out.State(), ok) == Tried(old(out.State()), groups, |groups|)
      ensures ok ==> Sum(stats) == old(Sum(stats)) + (Last(p) - Start(p))
    {
      ok := true;
      for n := 0 to |oat.classes|
        invariant out.Valid() && |stats| == STATS && ok && (out.State(), ok) == Tried(old(out.State()), groups, n)
        invariant Sum(stats) == old(Sum(stats)) + (p.ends[n] - Start(p))
      {
        RepeatBelow(p, n);
        ok := WriteClass(oat.classes[n], offsets[n], out, groups[n]);
        if !ok {
          TriedStops(old(out.State()), groups, n + 1, |groups|);
          return;
        }
      }
    }

    /** One trampoline: the gap in front of it is skipped, not filled, and the result of the seek is not looked at. */
    method WriteTrampoline(code: seq<byte>, out: BufferedOutputStream, offset: nat)
      returns (ok: bool, end: nat, ghost sought: Content)
      requires out.Valid() && |stats| == STATS
      modifies `stats, out, out.buffer
      ensures out.Valid() && Kept(old(out.State()), out.State(), ok) && |stats| == STATS
      ensures ok ==>
        end == RoundUp(offset, Alignment(oat.isa)) + |code| && Sum(stats) == old(Sum(stats)) + (end - offset)
      ensures ok ==>
        && sought.pos <= old(out.Seen()).pos + (RoundUp(offset, Alignment(oat.isa)) - offset)
        && (sought.pos == old(out.Seen()).pos + (RoundUp(offset, Alignment(oat.isa)) - offset) ==>
              OnlyWithin(old(out.Seen()).data, sought.data, 0, 0))
        && NothingLost(sought, code, out.Seen())
      ensures Unharmed(old(out.State()), out.State()) ==> out.Seen().pos == old(out.Seen()).pos + (end - offset)
    {
      var alignmentPadding := RoundUp(offset, Alignment(oat.isa)) - offset;
      var _ := SeekTo(out, alignmentPadding, SeekCurrent);
      Count(SIZE_TRAMPOLINE_ALIGNMENT, alignmentPadding);
      sought := out.Seen();
      ok := Emit(out, code, SIZE_TRAMPOLINES);
      end := offset + alignmentPadding + |code|;
    }

    method WriteTrampolines(out: BufferedOutputStream, relative: nat, ghost base: nat, ghost p: Plan<nat>,
                            ghost plan: bool)
      returns (ok: bool, end: nat)
      requires out.Valid() && Fitting(p, oat.trampolines) && p.align == Alignment(oat.isa)
      requires |stats| == STATS && p.firsts == Indices(|oat.trampolines|)
      requires plan ==> relative == Start(p) && out.Seen().pos <= base + relative
      modifies `stats, out, out.buffer
      ensures out.Valid() && Kept(old(out.State()), out.State(), ok) && |stats| == STATS
      ensures plan && ok ==>
        end == Last(p) && Going(old(out.Seen()), out.Seen(), base, p, oat.trampolines, |oat.trampolines|)
      ensures plan && ok ==> Sum(stats) == old(Sum(stats)) + (end - relative)
      ensures plan && Unharmed(old(out.State()), out.State()) ==>
        out.Seen().pos == old(out.Seen()).pos + (end - relative)
      ensures |oat.trampolines| == 0 ==> ok && end == relative && out.State() == old(out.State())
    {
      ok := true;
      end := relative;
      for n := 0 to |oat.trampolines|
        invariant out.Valid() && Kept(old(out.State()), out.State(), ok) && ok && |stats| == STATS
        invariant n == 0 ==> end == relative && out.State() == old(out.State())
        invariant plan ==> end == p.ends[n] && Going(old(out.Seen()), out.Seen(), base, p, oat.trampolines, n)
        invariant plan ==> Sum(stats) == old(Sum(stats)) + (end - relative)
        invariant plan && Unharmed(old(out.State()), out.State()) ==>
          out.Seen().pos == old(out.Seen()).pos + (end - relative)
      {
        ghost var seen := out.Seen();
        ghost var sought;
        ghost var place := RoundUp(end, p.align);
        ok, end, sought := WriteTrampoline(oat.trampolines[n], out, end);
        if !ok { return; }
        if plan {
          GapStep(old(out.Seen()), seen, sought, out.Seen(), base, p, oat.trampolines, n, place);
        }
      }
    }

    method WriteOatDexFiles(out: BufferedOutputStream) returns (ok: bool)
      requires out.Valid() && Planned()
      modifies `stats, out, out.buffer
      ensures out.Valid() && Kept(old(out.State()), out.State(), ok) && |stats| == STATS
      ensures (out.State(), ok) == Attempt(old(out.State()), Flat(EntryGroups(oat, layout)))
      ensures ok ==> Sum(stats) == old(Sum(stats)) + (Last(layout.dexEntries) - Start(layout.dexEntries))
    {
      EntriesKept(oat, layout, out.State());
      TriedAll(out.State(), EntryGroups(oat, layout));
      ok := WriteDexEntries(out, layout.dexEntries, EntryGroups(oat, layout));
    }

    method WriteOatClasses(out: BufferedOutputStream) returns (ok: bool)
      requires out.Valid() && Planned()
      modifies `stats, out, out.buffer
      ensures out.Valid() && Kept(old(out.State()), out.State(), ok) && |stats| == STATS
      ensures (out.State(), ok) == Attempt(old(out.State()), Flat(ClassGroups(oat, layout.code)))
      ensures ok ==> Sum(stats) == old(Sum(stats)) + (Last(layout.classes) - Start(layout.classes))
    {
      ClassesKept(oat, layout, out.State());
      TriedAll(out.State(), ClassGroups(oat, layout.code));
      var offsets := SplitByClass();
      ok := WriteClasses(out, offsets, layout.classes, ClassGroups(oat, layout.code));
    }

    method WriteAllDexFiles(out: BufferedOutputStream, base: nat, ghost plan: bool) returns (ok: bool)
      requires out.Valid() && Planned()
      requires plan ==> base + size < TWO_32
      modifies `stats, out, out.buffer
      ensures out.Valid() && Kept(old(out.State()), out.State(), ok) && |stats| == STATS
      ensures plan ==> (out.State(), ok) == Attempt(old(out.State()), Flat(DexGroups(oat, layout.dex, base)))
      ensures ok ==>
        Sum(stats) + Padding(layout.dex, |oat.dexFiles|) == old(Sum(stats)) + (Last(layout.dex) - Start(layout.dex))
    {
      PartOrder(oat, layout);
      NoEmptyDexFile(oat, layout);
      TriedAll(out.State(), DexGroups(oat, layout.dex, base));
      ok := WriteDexFiles(out, base, layout.dex, DexGroups(oat, layout.dex, base), plan);
    }

    /** The dex files and the classes behind them. */
    method WriteDexAndClasses(out: BufferedOutputStream, base: nat, ghost plan: bool) returns (ok: bool)
      requires out.Valid() && Planned()
      requires plan ==> base + size < TWO_32
      modifies `stats, out, out.buffer
      ensures out.Valid() && Kept(old(out.State()), out.State(), ok) && |stats| == STATS
      ensures plan ==> (out.State(), ok) == Attempt(old(out.State()), TailCalls(oat, layout, base))
      ensures ok ==>
        Sum(stats) + Padding(layout.dex, |oat.dexFiles|) == old(Sum(stats)) + (Last(layout.classes) - Start(layout.dex))
    {
      AttemptSplit(out.State(), Flat(DexGroups(oat, layout.dex, base)), Flat(ClassGroups(oat, layout.code)));
      ok := WriteAllDexFiles(out, base, plan);
      if !ok { return; }
      ok := WriteOatClasses(out);
    }

    /** The oat header and the tables behind it. */
    method WriteHeaderAndTables(out: BufferedOutputStream, base: nat, ghost plan: bool) returns (ok: bool)
      requires out.Valid() && Planned()
      requires plan ==> base + size < TWO_32
      modifies `stats, out, out.buffer
      ensures out.Valid() && Kept(old(out.State()), out.State(), ok) && |stats| == STATS
      ensures plan ==> (out.State(), ok) == TablesFrom(oat, layout, base, old(out.State()))
      ensures ok ==> Sum(stats) + Padding(layout.dex, |oat.dexFiles|) == old(Sum(stats)) + Last(layout.classes)
    {
      AttemptFirst(out.State(), WriteOp(oat.header), Flat(EntryGroups(oat, layout)));
      EmittedOne(out.State(), oat.header);
      ok := EmitPiece(out, oat.header, SIZE_OAT_HEADER);
      if !ok { return; }
      ok := WriteOatDexFiles(out);
      if !ok { return; }
      ok := WriteDexAndClasses(out, base, plan);
    }

    /** One of the three passes of WriteMaps with its counter. */
    method WriteMapsOf(kind: MapKind, out: BufferedOutputStream, relative: nat, counter: nat, ghost base: nat,
                       ghost plan: bool)
      returns (ok: bool, end: nat)
      requires out.Valid() && Planned() && counter < STATS
      requires plan ==> relative == Start(MapPlan(layout, kind)) && out.Seen().pos <= base + relative
      modifies `stats, out, out.buffer
      ensures out.Valid() && Kept(old(out.State()), out.State(), ok) && |stats| == STATS
      ensures plan && ok ==>
        && end == Last(MapPlan(layout, kind)) && Sum(stats) == old(Sum(stats)) + (end - relative)
        && Going(old(out.Seen()), out.Seen(), base, MapPlan(layout, kind), MapBlobs(oat, kind), |oat.methods|)
      ensures plan && Unharmed(old(out.State()), out.State()) ==>
        out.Seen().pos == old(out.Seen()).pos + (end - relative)
      ensures NoMaps(oat, kind) ==> ok && end == relative && out.State() == old(out.State())
    {
      MapDecisions(oat, layout, kind);
      ok, end := WriteMaps(kind, out, relative, base, MapPlan(layout, kind), plan);
      if ok {
        PlanGrows(MapPlan(layout, kind));
        CountPass(counter, relative, end);
      }
    }

    /** A pass never ends below its start, whatever the stream did. */
    method CountPass(counter: nat, start: nat, end: nat)
      requires counter < |stats|
      modifies `stats
      ensures |stats| == old(|stats|) && (start <= end ==> Sum(stats) == old(Sum(stats)) + (end - start))
    {
      if start <= end {
        Count(counter, end - start);
      }
    }

    method WriteAllMaps(out: BufferedOutputStream, relative: nat, ghost base: nat, ghost plan: bool)
      returns (ok: bool, end: nat)
      requires out.Valid() && Planned()
      requires plan ==> relative == Last(layout.classes) && out.Seen().pos == base + relative
      modifies `stats, out, out.buffer
      ensures out.Valid() && Kept(old(out.State()), out.State(), ok) && |stats| == STATS
      ensures plan && ok ==>
        end == Last(layout.vmap) && out.Seen().pos <= base + end && Sum(stats) == old(Sum(stats)) + (end - relative)
      ensures plan && ok && out.Seen().pos == base + end ==>
        && MapsWritten(out.Seen().data, base, oat, layout)
        && OnlyWithin(old(out.Seen()).data, out.Seen().data, base + relative, base + end)
      ensures plan && Unharmed(old(out.State()), out.State()) ==> out.Seen().pos == base + end
      ensures NoMapsAtAll(oat) ==> ok && end == relative && out.State() == old(out.State())
    {
      ghost var c0 := out.Seen();
      ok, end := WriteMapsOf(GcMap, out, relative, SIZE_GC_MAP, base, plan);
      if !ok { return; }
      ghost var c1 := out.Seen();
      ok, end := WriteMapsOf(MappingTable, out, end, SIZE_MAPPING_TABLE, base, plan);
      if !ok { return; }
      ghost var c2 := out.Seen();
      ok, end := WriteMapsOf(VmapTable, out, end, SIZE_VMAP_TABLE, base, plan);
      if plan && ok {
        MapsGone(oat, layout, base, c0, c1, c2, out.Seen());
      }
    }

    /** The gap up to the page boundary is skipped; the result of the seek is checked. */
    method SeekToCode(out: BufferedOutputStream, relative: nat, base: nat, ghost plan: bool)
      returns (ok: bool, end: nat)
      requires out.Valid()
      requires plan ==> out.Seen().pos <= base + relative
      requires plan ==> base + relative + executableAlignment < TWO_32
      modifies out, out.buffer
      ensures out.Valid() && Later(old(out.State()), out.State())
      ensures end == relative + executableAlignment
      ensures plan ==> out.Seen().pos <= base + end
      ensures plan && ok && out.Seen().pos == base + end ==>
        old(out.Seen()).pos == base + relative && OnlyWithin(old(out.Seen()).data, out.Seen().data, 0, 0)
      ensures plan && old(out.Seen()).pos == base + relative && Unharmed(old(out.State()), out.State()) ==>
        ok && out.Seen().pos == base + end
    {
      var newOffset := SeekTo(out, executableAlignment, SeekCurrent);
      end := relative + executableAlignment;
      ok := U32(newOffset) == U32(base + end);
    }

    method WriteAllCode(out: BufferedOutputStream, relative: nat, base: nat, ghost plan: bool)
      returns (ok: bool, end: nat)
      requires out.Valid() && Planned()
      requires plan ==> relative == Last(layout.vmap) && out.Seen().pos <= base + relative && base + size < TWO_32
      modifies `stats, out, out.buffer
      ensures out.Valid() && Later(old(out.State()), out.State()) && |stats| == STATS
      ensures plan && ok ==>
        && end == size && out.Seen().pos <= base + end
        && Sum(stats) + executableAlignment == old(Sum(stats)) + (end - relative)
      ensures plan && ok && out.Seen().pos == base + end ==>
        && old(out.Seen()).pos == base + relative
        && CodeWritten(out.Seen().data, base, oat, layout)
        && OnlyWithin(old(out.Seen()).data, out.Seen().data, base + relative, base + end)
      ensures plan && old(out.Seen()).pos == base + relative && Unharmed(old(out.State()), out.State()) ==>
        ok && out.Seen().pos == base + end
      ensures Late(oat, layout, relative, base, old(out.Seen()).pos) && Unharmed(old(out.State()), out.State()) ==>
        && ok && end == size && out.Seen().pos == base + size
        && OnlyWithin(old(out.Seen()).data, out.Seen().data, base + relative + executableAlignment, base + size)
    {
      ghost var c0 := out.Seen();
      PartOrder(oat, layout);
      ok, end := SeekToCode(out, relative, base, plan || Late(oat, layout, relative, base, out.Seen().pos));
      if !ok { return; }
      ghost var c1 := out.Seen();
      ok, end := WriteTrampolines(out, end, base, layout.trampolines, plan);
      if !ok { return; }
      ghost var c2 := out.Seen();
      ok, end := WriteCodeDexFiles(out, end, base, layout.code, CodeBlobs(oat, layout), plan);
      if plan && ok {
        CodeGone(oat, layout, base, c0, c1, c2, out.Seen());
      }
    }

    method WriteMapsAndCode(out: BufferedOutputStream, tablesEnd: nat, base: nat, ghost plan: bool)
      returns (ok: bool, end: nat)
      requires out.Valid() && Planned()
      requires plan ==> tablesEnd == Last(layout.classes) && out.Seen().pos == base + tablesEnd && base + size < TWO_32
      modifies `stats, out, out.buffer
      ensures out.Valid() && Later(old(out.State()), out.State())
      ensures plan && Unharmed(old(out.State()), out.State()) ==> ok && out.Seen().pos == base + end
      ensures plan && ok ==>
        && end == size && out.Seen().pos <= base + end
        && Sum(stats) + executableAlignment == old(Sum(stats)) + (end - tablesEnd)
      ensures plan && ok && out.Seen().pos == base + end ==>
        && RestWritten(out.Seen().data, base, oat, layout)
        && OnlyWithin(old(out.Seen()).data, out.Seen().data, base + tablesEnd, base + end)
      ensures Late(oat, layout, tablesEnd, base, old(out.Seen()).pos) && Unharmed(old(out.State()), out.State()) ==>
        && ok && end == size && out.Seen().pos == base + size
        && OnlyWithin(old(out.Seen()).data, out.Seen().data, base + tablesEnd + executableAlignment, base + size)
    {
      ghost var d1 := out.Seen().data;
      PartOrder(oat, layout);
      ok, end := WriteAllMaps(out, tablesEnd, base, plan);
      if !ok { return; }
      ghost var d2 := out.Seen().data;
      ok, end := WriteAllCode(out, end, base, plan);
      if plan && ok && out.Seen().pos == base + end {
        RestDone(oat, layout, base, d1, d2, out.Seen().data);
      }
    }

    /** Write from WriteMaps on. At the last two checks the source aborts. */
    method WriteRest(out: BufferedOutputStream, tablesEnd: nat, fileOffset: nat, ghost plan: bool) returns (ok: bool)
      requires out.Valid() && Planned()
      requires plan ==>
        tablesEnd == Last(layout.classes) && out.Seen().pos == fileOffset + tablesEnd && fileOffset + size < TWO_32
      modifies `stats, out, out.buffer
      ensures out.Valid() && Later(old(out.State()), out.State())
      ensures plan && Unharmed(old(out.State()), out.State()) ==> ok
      ensures plan && ok && (fileOffset + size < TWO_32 - 1 || Unharmed(old(out.State()), out.State())) ==>
        && RestWritten(out.sink.content.data, fileOffset, oat, layout)
        && out.sink.content.pos == fileOffset + size && out.used == 0
        && OnlyWithin(old(out.Seen()).data, out.sink.content.data, fileOffset + tablesEnd, fileOffset + size)
        && Sum(stats) + executableAlignment == old(Sum(stats)) + (size - tablesEnd)
      ensures
        Late(oat, layout, tablesEnd, fileOffset, old(out.Seen()).pos) && Unharmed(old(out.State()), out.State()) ==>
        && ok
        && OnlyWithin(old(out.Seen()).data, out.sink.content.data, fileOffset + tablesEnd + executableAlignment,
                      fileOffset + size)
    {
      var relative;
      ok, relative := WriteMapsAndCode(out, tablesEnd, fileOffset, plan);
      if !ok { return; }
      ghost var c3 := out.Seen();
      var position := SeekTo(out, 0, SeekCurrent);
      ok := U32(position) == U32(fileOffset + size) && relative == size;
      if plan && ok && position >= 0 && c3.pos == fileOffset + size {
        RestKept(oat, layout, fileOffset, c3.data, out.Seen().data, fileOffset + size, fileOffset + size);
      }
    }

    /** Write up to WriteMaps; `relative` is where the tables end, modulo 2^32. */
    method WriteUpToMaps(out: BufferedOutputStream, base: nat, ghost run: (Buffered, bool), ghost plan: bool)
      returns (ok: bool, relative: nat)
      requires out.Valid() && Planned()
      requires RunsTo(oat, layout, base, out.State(), run)
      requires plan ==> base + size < TWO_32
      modifies `stats, out, out.buffer
      ensures out.Valid() && Kept(old(out.State()), out.State(), ok) && |stats| == STATS
      ensures plan ==> Later(old(out.State()), run.0) && Later(run.0, out.State())
      ensures plan && ok ==> Arrived(run, out.State(), base, relative)
      ensures plan && !ok ==> !run.1 || !Unharmed(run.0, out.State())
      ensures ok ==> Sum(stats) + Padding(layout.dex, |oat.dexFiles|) == old(Sum(stats)) + Last(layout.classes)
    {
      relative := 0;
      ok := WriteHeaderAndTables(out, base, plan);
      if !ok { return; }
      var position := SeekTo(out, 0, SeekCurrent);
      // After a failed seek the source goes on with an offset that has wrapped around. No map is due
      // there, so that nothing more is written before the next position check, and that check fails.
      ok := position >= 0;
      relative := U32(position - base);
    }

    /**
     OatWriter::Write. If the result is true and no write to the sink has failed, or if the result is
     true and Sure, every part of the plan is in the file, the rest of the file is as it was, the
     position is at the end, the counters add up to size_, and nothing is left in the buffer. Otherwise
     the result can be true although bytes of the tables were lost on the way: if the header and the dex file
     entries have used up all faults, what the stream shows in front of the dex files is what will be in the
     file; and if the header and all tables have, what it shows of them will be, provided that there are neither
     maps nor trampolines and the alignment of the code hides how many bytes are missing.
     */
    method Write(out: BufferedOutputStream) returns (ok: bool)
      requires out.Valid() && Planned() && out.Seen().pos + size < TWO_32
      requires Sum(stats) == Padding(layout.dex, |oat.dexFiles|)
      modifies `stats, out, out.buffer
      ensures out.Valid() && Kept(old(out.State()), out.State(), ok)
      ensures Finished(oat, layout, old(out.Seen()).pos, old(out.State()), out.State(), ok)
      ensures ok && (Sure(oat, size, old(out.State())) || Unharmed(old(out.State()), out.State())) ==>
        Sum(stats) + executableAlignment == size
      ensures old(out.used) == 0 ==>
        Outcome(oat, layout, old(out.Seen()).pos, HeadRun(oat, layout, old(out.State())),
                TableRun(oat, layout, old(out.State())), ok, out.sink.content.data)
    {
      ghost var b := out.State();
      var fileOffset := SeekExactly(out, 0, SeekCurrent);
      ghost var b1 := out.State();
      // On a failed seek file_offset is the unsigned -1.
      ok := WriteAt(out, U32(fileOffset), fileOffset >= 0);
      if fileOffset >= 0 {
        FinishedSince(oat, layout, fileOffset, b, b1, out.State(), ok);
      }
    }

    /** Write after the position is known. */
    method WriteAt(out: BufferedOutputStream, fileOffset: nat, ghost plan: bool) returns (ok: bool)
      requires out.Valid() && Planned() && out.used == 0 && fileOffset < TWO_32
      requires plan ==> out.Seen().pos == fileOffset && fileOffset + size < TWO_32
      modifies `stats, out, out.buffer
      ensures out.Valid() && Later(old(out.State()), out.State())
      ensures plan && Unharmed(old(out.State()), out.State()) ==> ok
      ensures plan ==> Finished(oat, layout, fileOffset, old(out.State()), out.State(), ok)
      ensures plan && ok && (Sure(oat, size, old(out.State())) || Unharmed(old(out.State()), out.State())) ==>
        Sum(stats) + executableAlignment + Padding(layout.dex, |oat.dexFiles|) == old(Sum(stats)) + size
      ensures plan ==>
        Outcome(oat, layout, fileOffset, Attempt(old(out.State()), HeadCalls(oat, layout)),
                TablesFrom(oat, layout, fileOffset, old(out.State())), ok, out.sink.content.data)
    {
      ghost var head := Attempt(out.State(), HeadCalls(oat, layout));
      ghost var run := TablesFrom(oat, layout, fileOffset, out.State());
      if plan {
        TablesAreTried(oat, layout, fileOffset, out.State(), head, run);
      }
      ok := WriteFrom(out, fileOffset, head, run, plan);
    }

    /** From the maps on, after the tables have been tried on the stream `b`. */
    method WriteAfterTables(out: BufferedOutputStream, relative: nat, fileOffset: nat, ghost b: Buffered,
                            ghost head: (Buffered, bool), ghost run: (Buffered, bool), ghost plan: bool)
      returns (ok: bool)
      requires out.Valid() && Planned()
      requires plan ==>
        && TablesTried(oat, layout, fileOffset, b, head, run) && Later(b, run.0)
        && Arrived(run, out.State(), fileOffset, relative)
        && View(b).pos == fileOffset && fileOffset + size < TWO_32
      modifies `stats, out, out.buffer
      ensures out.Valid() && Later(old(out.State()), out.State())
      ensures plan && Unharmed(b, out.State()) ==> ok
      ensures plan ==> Finished(oat, layout, fileOffset, b, out.State(), ok)
      ensures plan && ok && (Sure(oat, size, b) || Unharmed(b, out.State())) ==>
        Sum(stats) + executableAlignment == old(Sum(stats)) + (size - Last(layout.classes))
      ensures plan ==> Outcome(oat, layout, fileOffset, head, run, ok, out.sink.content.data)
    {
      ghost var d1 := out.Seen().data;
      PartOrder(oat, layout);
      ghost var onPlan := plan && View(run.0).pos == fileOffset + Last(layout.classes);
      if plan && Hidden(oat, layout, fileOffset, run) {
        HiddenIsLate(oat, layout, fileOffset, run, relative);
      }
      ok := WriteRest(out, relative, fileOffset, onPlan);
      if plan && ok && (Sure(oat, size, b) || Unharmed(b, out.State())) {
        TablesKept(View(run.0).data, d1, fileOffset, oat, layout, fileOffset + relative, fileOffset + relative);
        AllDone(oat, layout, fileOffset, View(b).data, d1, out.sink.content.data);
      }
    }

    method WriteFrom(out: BufferedOutputStream, fileOffset: nat, ghost head: (Buffered, bool),
                     ghost run: (Buffered, bool), ghost plan: bool)
      returns (ok: bool)
      requires out.Valid() && Planned() && out.used == 0 && fileOffset < TWO_32
      requires RunsTo(oat, layout, fileOffset, out.State(), run)
      requires plan ==> TablesTried(oat, layout, fileOffset, out.State(), head, run)
      requires plan ==> out.Seen().pos == fileOffset && fileOffset + size < TWO_32
      modifies `stats, out, out.buffer
      ensures out.Valid() && Later(old(out.State()), out.State())
      ensures plan && Unharmed(old(out.State()), out.State()) ==> ok
      ensures plan ==> Finished(oat, layout, fileOffset, old(out.State()), out.State(), ok)
      ensures plan && ok && (Sure(oat, size, old(out.State())) || Unharmed(old(out.State()), out.State())) ==>
        Sum(stats) + executableAlignment + Padding(layout.dex, |oat.dexFiles|) == old(Sum(stats)) + size
      ensures plan ==> Outcome(oat, layout, fileOffset, head, run, ok, out.sink.content.data)
    {
      var relative;
      ok, relative := WriteUpToMaps(out, fileOffset, run, plan);
      if !ok {
        if plan {
          NoOutcome(oat, layout, fileOffset, old(out.State()), head, run, out.State());
        }
        return;
      }
      ok := WriteAfterTables(out, relative, fileOffset, old(out.State()), head, run, plan);
    }
  }
}
