/**
 The passes of OatWriter as functions of what they walk over, and the proof that each follows its
 plan: the Init passes compute the planned offsets, and the Write passes, which decide from the
 stored offsets alone what still has to be written, put everything at its planned place.
 */
module OatPasses {
  import opened Bytes
  import opened Streams
  import opened DedupLayout
  import opened OatFormat

  /** The size_ counters, by position. */
  const SIZE_DEX_FILE_ALIGNMENT: nat := 0
  const SIZE_OAT_HEADER: nat := 1
  const SIZE_DEX_FILE: nat := 2
  const SIZE_TRAMPOLINES: nat := 3
  const SIZE_TRAMPOLINE_ALIGNMENT: nat := 4
  const SIZE_METHOD_HEADER: nat := 5
  const SIZE_CODE: nat := 6
  const SIZE_CODE_ALIGNMENT: nat := 7
  const SIZE_MAPPING_TABLE: nat := 8
  const SIZE_VMAP_TABLE: nat := 9
  const SIZE_GC_MAP: nat := 10
  const SIZE_LOCATION_SIZE: nat := 11
  const SIZE_LOCATION_DATA: nat := 12
  const SIZE_LOCATION_CHECKSUM: nat := 13
  const SIZE_DEX_FILE_OFFSET: nat := 14
  const SIZE_METHODS_OFFSETS: nat := 15
  const SIZE_CLASS_STATUS: nat := 16
  const SIZE_CLASS_TYPE: nat := 17
  const SIZE_CLASS_BITMAPS: nat := 18
  const SIZE_CLASS_METHOD_OFFSETS: nat := 19
  const STATS: nat := 20

  function Sum(s: seq<nat>): nat {
    if s == [] then 0 else Sum(s[..|s| - 1]) + s[|s| - 1]
  }

  lemma {:induction false} SumBump(s: seq<nat>, i: nat, n: nat)
    requires i < |s|
    ensures Sum(s[i := s[i] + n]) == Sum(s) + n
    decreases |s|
  {
    var t := s[i := s[i] + n];
    if i < |s| - 1 {
      SumBump(s[..|s| - 1], i, n);
      assert t[..|s| - 1] == s[..|s| - 1][i := s[i] + n];
    } else {
      assert t[..|s| - 1] == s[..|s| - 1];
    }
  }

  lemma {:induction false} SumZeros(s: seq<nat>)
    requires forall i :: 0 <= i < |s| ==> s[i] == 0
    ensures Sum(s) == 0
    decreases |s|
  {
    if s != [] {
      SumZeros(s[..|s| - 1]);
    }
  }

  /** Alignment bytes before the first n items of a plan. */
  ghost function Padding<K>(p: Plan<K>, n: nat): nat
    requires Shape(p) && n <= |p.keys|
  {
    if n == 0 then 0 else Padding(p, n - 1) + (RoundUp(p.ends[n - 1], p.align) - p.ends[n - 1])
  }

  ghost predicate OnlyWithin(d: seq<byte>, d': seq<byte>, lo: nat, hi: nat) {
    forall k: nat :: k < lo || hi <= k ==> At(d', k) == At(d, k)
  }

  /** A dedupe map after n items: the keys of items with bytes, each with the place of its bytes. */
  ghost function Dedupe<K>(p: Plan<K>, n: nat, delta: nat): map<K, nat>
    requires Shape(p) && n <= |p.keys|
    decreases n
  {
    if n == 0 then map[]
    else
      var d := Dedupe(p, n - 1, delta);
      if p.sizes[n - 1] == 0 || p.keys[n - 1] in d then d else d[p.keys[n - 1] := p.places[n - 1] + delta]
  }

  lemma {:induction false} DedupeSound<K>(p: Plan<K>, n: nat, delta: nat, q: K) returns (j: nat)
    requires Ok(p) && n <= |p.keys| && q in Dedupe(p, n, delta)
    ensures j < n && p.keys[j] == q && Dedupe(p, n, delta)[q] == p.places[j] + delta
    decreases n
  {
    if q in Dedupe(p, n - 1, delta) {
      j := DedupeSound(p, n - 1, delta, q);
    } else {
      j := n - 1;
    }
  }

  lemma {:induction false} DedupeComplete<K>(p: Plan<K>, n: nat, delta: nat, j: nat)
    requires Shape(p) && j < n <= |p.keys| && p.sizes[j] > 0
    ensures p.keys[j] in Dedupe(p, n, delta)
    decreases n
  {
    if j < n - 1 {
      DedupeComplete(p, n - 1, delta, j);
    }
  }

  /** Looking an item up finds its place, or shows that it is a first occurrence. */
  lemma {:induction false} Lookup<K>(p: Plan<K>, n: nat, delta: nat)
    requires Ok(p) && n < |p.keys| && p.sizes[n] > 0
    ensures p.keys[n] in Dedupe(p, n, delta) <==> p.firsts[n] < n
    ensures p.keys[n] in Dedupe(p, n, delta) ==> Dedupe(p, n, delta)[p.keys[n]] == p.places[n] + delta
    ensures p.firsts[n] <= n
  {
    assert Step(p, n);
    if p.keys[n] in Dedupe(p, n, delta) {
      var j := DedupeSound(p, n, delta, p.keys[n]);
      Sharing(p, j, n);
    } else if p.firsts[n] < n {
      DedupeComplete(p, n, delta, p.firsts[n]);
    }
  }

  /** The headers after InitMapMethodVisitor has visited n methods. */
  ghost function Recorded(kind: MapKind, hs: seq<Header>, p: Plan<Ptr>, n: nat): (r: seq<Header>)
    requires Shape(p) && |hs| == |p.keys| && n <= |hs|
    ensures |r| == |hs|
    decreases n
  {
    if n == 0 then hs
    else
      var r := Recorded(kind, hs, p, n - 1);
      if p.sizes[n - 1] == 0 then r else r[n - 1 := WithMapField(kind, r[n - 1], U32(0 - p.places[n - 1] as int))]
  }

  lemma {:induction false} RecordedStep(kind: MapKind, hs: seq<Header>, p: Plan<Ptr>, n: nat, r: seq<Header>)
    requires Shape(p) && |hs| == |p.keys| && n < |hs| && r == Recorded(kind, hs, p, n)
    ensures Recorded(kind, hs, p, n + 1) ==
      if p.sizes[n] == 0 then r else r[n := WithMapField(kind, r[n], U32(0 - p.places[n] as int))]
  {
  }

  lemma {:induction false} RecordedAt(kind: MapKind, hs: seq<Header>, p: Plan<Ptr>, n: nat, i: nat)
    requires Shape(p) && |hs| == |p.keys| && n <= |hs| && i < |hs|
    ensures Recorded(kind, hs, p, n)[i] == if i < n && p.sizes[i] != 0 then WithMapField(kind, hs[i], Provisional(p, i))
      else hs[i]
    decreases n
  {
    if n > 0 {
      RecordedAt(kind, hs, p, n - 1, i);
    }
  }

  /** What is recorded for a map before the code has a place: 0 - offset, or 0 for no map. */
  ghost function Provisional(p: Plan<Ptr>, i: nat): uint32
    requires Shape(p) && i < |p.keys|
  {
    if p.sizes[i] == 0 then 0 else U32(0 - p.places[i] as int)
  }

  /** A header when all maps have places and no code has. */
  ghost function MappedHeader(l: Layout, i: nat): Header
    requires Shape(l.gc) && Shape(l.mapping) && Shape(l.vmap)
    requires i < |l.gc.keys| && i < |l.mapping.keys| && i < |l.vmap.keys|
  {
    Header(Provisional(l.mapping, i), Provisional(l.vmap, i), Provisional(l.gc, i), 0, 0, 0, 0)
  }

  const NO_HEADER: Header := Header(0, 0, 0, 0, 0, 0, 0)

  ghost function MappedHeaders(o: Oat, l: Layout): (hs: seq<Header>)
    requires Parts(o, l)
    ensures |hs| == |o.methods| && forall i :: 0 <= i < |hs| ==> hs[i] == MappedHeader(l, i)
  {
    seq(|o.methods|, i requires 0 <= i < |o.methods| => MappedHeader(l, i))
  }

  lemma {:induction false} ThreePassesAt(l: Layout, hs0: seq<Header>, hs1: seq<Header>, hs2: seq<Header>,
                                         hs3: seq<Header>, i: nat)
    requires Shape(l.gc) && Shape(l.mapping) && Shape(l.vmap)
    requires i < |hs0| == |l.gc.keys| == |l.mapping.keys| == |l.vmap.keys| && hs0[i] == NO_HEADER
    requires hs1 == Recorded(GcMap, hs0, l.gc, |hs0|)
    requires hs2 == Recorded(MappingTable, hs1, l.mapping, |hs1|)
    requires hs3 == Recorded(VmapTable, hs2, l.vmap, |hs2|)
    ensures hs3[i] == MappedHeader(l, i)
  {
    RecordedAt(GcMap, hs0, l.gc, |hs0|, i);
    RecordedAt(MappingTable, hs1, l.mapping, |hs1|, i);
    RecordedAt(VmapTable, hs2, l.vmap, |hs2|, i);
  }

  /** After the three map passes every header holds what is recorded for its three maps. */
  lemma {:induction false} ThreePasses(o: Oat, l: Layout, hs0: seq<Header>, hs1: seq<Header>, hs2: seq<Header>,
                                       hs3: seq<Header>)
    requires Parts(o, l) && |hs0| == |o.methods| && forall i :: 0 <= i < |hs0| ==> hs0[i] == NO_HEADER
    requires hs1 == Recorded(GcMap, hs0, l.gc, |hs0|)
    requires hs2 == Recorded(MappingTable, hs1, l.mapping, |hs1|)
    requires hs3 == Recorded(VmapTable, hs2, l.vmap, |hs2|)
    ensures hs3 == MappedHeaders(o, l)
  {
    forall i | 0 <= i < |hs0| {
      ThreePassesAt(l, hs0, hs1, hs2, hs3, i);
    }
  }

  /** The correction of a recorded offset once the code offset is known. */
  function Corrected(field: uint32, codeOffset: int): uint32 {
    if field == 0 then 0 else U32(field + codeOffset)
  }

  lemma {:induction false} CorrectedDistance(code: nat, delta: nat, place: nat, empty: bool)
    requires 0 < place < code && code + delta < TWO_32 && delta <= 1 && code % 2 == 0
    ensures Corrected(if empty then 0 else U32(0 - place as int), code) == U32(if empty then 0 else code - place)
  {
    Distance(code, delta, place);
  }

  lemma {:induction false} CorrectedField(o: Oat, l: Layout, kind: MapKind, i: nat)
    requires Good(o, l) && i < |o.methods|
    ensures Corrected(Provisional(MapPlan(l, kind), i), CodeAt(l.code, i)) == U32(MapDistance(l, kind, i))
    ensures CodeAt(l.code, i) + CodeDelta(o.isa) < TWO_32
  {
    MapBeforeCode(o, l, kind, i);
    CorrectedDistance(CodeAt(l.code, i), CodeDelta(o.isa), MapPlan(l, kind).places[i], MapPlan(l, kind).sizes[i] == 0);
  }

  lemma {:induction false} CorrectedHeader(o: Oat, l: Layout, i: nat, h: Header)
    requires Good(o, l) && i < |o.methods| && h == MappedHeader(l, i)
    ensures CodedHeader(o, l.code, h, i) == FinalHeader(o, l, i)
    ensures CodeAt(l.code, i) + CodeDelta(o.isa) < TWO_32
  {
    CorrectedField(o, l, MappingTable, i);
    CorrectedField(o, l, VmapTable, i);
    CorrectedField(o, l, GcMap, i);
  }

  ghost function FinalHeaders(o: Oat, l: Layout): (hs: seq<Header>)
    requires Parts(o, l)
    ensures |hs| == |o.methods| && forall i :: 0 <= i < |hs| ==> hs[i] == FinalHeader(o, l, i)
  {
    seq(|o.methods|, i requires 0 <= i < |o.methods| => FinalHeader(o, l, i))
  }

  /** Code offsets before InitOatCodeDexFiles. */
  function NoOffsets(n: nat): (s: seq<uint32>)
    ensures |s| == n && forall i :: 0 <= i < n ==> s[i] == 0
  {
    seq(n, _ => 0)
  }

  /** What InitCodeMethodVisitor does with one method. */
  datatype CodeVisit = CodeVisit(end: nat, dedupe: map<CodeKey, nat>, header: Header, codeOffset: uint32)

  function VisitCode(o: Oat, n: nat, offset: nat, dedupe: map<CodeKey, nat>, h: Header): CodeVisit
    requires n < |o.methods|
  {
    var m := o.methods[n];
    var at := RoundUp(offset, Alignment(o.isa));
    var codeSize := |BytesAt(o, m.code)|;
    var known := KeyOf(m) in dedupe;
    var quick := if known then dedupe[KeyOf(m)] else at + HEADER_SIZE + CodeDelta(o.isa);
    var code := quick - CodeDelta(o.isa);
    CodeVisit(
      if known then at else at + HEADER_SIZE + codeSize,
      if known then dedupe else dedupe[KeyOf(m) := quick],
      Header(Corrected(h.mapping, code), Corrected(h.vmap, code), Corrected(h.gc, code),
             m.frameSize, m.coreSpill, m.fpSpill, U32(codeSize)),
      U32(quick))
  }

  /** A header after its code has a place. */
  ghost function CodedHeader(o: Oat, p: Plan<CodeKey>, h: Header, i: nat): Header
    requires CodePart(o, p) && i < |o.methods|
  {
    var m := o.methods[i];
    var code := CodeAt(p, i);
    Header(Corrected(h.mapping, code), Corrected(h.vmap, code), Corrected(h.gc, code),
           m.frameSize, m.coreSpill, m.fpSpill, U32(|BytesAt(o, m.code)|))
  }

  lemma {:induction false} VisitCodePlanned(o: Oat, p: Plan<CodeKey>, n: nat, h: Header)
    requires CodePart(o, p) && n < |o.methods|
    ensures var v := VisitCode(o, n, p.ends[n], Dedupe(p, n, HEADER_SIZE + CodeDelta(o.isa)), h);
      && v.end == p.ends[n + 1]
      && v.dedupe == Dedupe(p, n + 1, HEADER_SIZE + CodeDelta(o.isa))
      && v.codeOffset == U32(CodeAt(p, n) + CodeDelta(o.isa))
      && v.header == CodedHeader(o, p, h, n)
  {
    RepeatBelow(p, n);
    Lookup(p, n, HEADER_SIZE + CodeDelta(o.isa));
  }

  /** The code pass has visited n methods. */
  ghost predicate Coded(o: Oat, p: Plan<CodeKey>, hs0: seq<Header>, hs: seq<Header>, offsets: seq<uint32>, n: nat)
    requires CodePart(o, p)
  {
    && n <= |o.methods| == |hs0| == |hs| == |offsets|
    && (forall i :: 0 <= i < n ==> hs[i] == CodedHeader(o, p, hs0[i], i))
    && (forall i :: n <= i < |hs| ==> hs[i] == hs0[i])
    && (forall i :: 0 <= i < n ==> offsets[i] == U32(CodeAt(p, i) + CodeDelta(o.isa)))
  }

  lemma {:induction false} CodedStep(o: Oat, p: Plan<CodeKey>, hs0: seq<Header>, hs: seq<Header>, offsets: seq<uint32>,
                                     n: nat, hs': seq<Header>, offsets': seq<uint32>)
    requires CodePart(o, p) && n < |o.methods| && Coded(o, p, hs0, hs, offsets, n)
    requires hs' == hs[n := CodedHeader(o, p, hs[n], n)]
    requires offsets' == offsets[n := U32(CodeAt(p, n) + CodeDelta(o.isa))]
    ensures Coded(o, p, hs0, hs', offsets', n + 1)
  {
  }

  /** After the code pass every header and code offset has its final value. */
  lemma {:induction false} CodesFinal(o: Oat, l: Layout, hs: seq<Header>, offsets: seq<uint32>)
    requires Good(o, l) && |o.methods| == |hs| == |offsets|
    requires forall i :: 0 <= i < |hs| ==> hs[i] == CodedHeader(o, l.code, MappedHeaders(o, l)[i], i)
    requires forall i :: 0 <= i < |hs| ==> offsets[i] == U32(CodeAt(l.code, i) + CodeDelta(o.isa))
    ensures hs == FinalHeaders(o, l) && offsets == FinalOffsets(o, l.code)
  {
    forall i | 0 <= i < |hs| ensures hs[i] == FinalHeader(o, l, i) && offsets[i] == FinalOffsets(o, l.code)[i] {
      CorrectedHeader(o, l, i, MappedHeaders(o, l)[i]);
    }
  }

  // ----- writing -----

  /** A writing pass has got to item n of its plan: all before it is in place, nothing else changed. */
  ghost predicate Progress<K>(c0: Content, c: Content, base: nat, p: Plan<K>, blobs: seq<seq<byte>>, n: nat) {
    && Fitting(p, blobs)
    && n <= |blobs|
    && c.pos == base + p.ends[n]
    && Written(c.data, base, p, blobs, n)
    && OnlyWithin(c0.data, c.data, base + Start(p), base + p.ends[n])
  }

  /** Moving to the next aligned offset, with or without writing padding, then writing a first occurrence. */
  lemma {:induction false} ProgressStep<K>(c0: Content, c: Content, c1: Content, c2: Content, base: nat,
                                           p: Plan<K>, blobs: seq<seq<byte>>, n: nat)
    requires Progress(c0, c, base, p, blobs, n) && n < |blobs|
    requires c1.pos == base + RoundUp(p.ends[n], p.align) && OnlyWithin(c.data, c1.data, c.pos, c1.pos)
    requires c2 == if p.firsts[n] == n then Put(c1, blobs[n]) else c1
    ensures Progress(c0, c2, base, p, blobs, n + 1)
  {
    PutAt(c1, blobs[n]);
    WrittenKept(c.data, c1.data, base, p, blobs, n);
    WrittenStep(c1, c2, base, p, blobs, n);
    EndsGrow(p, 0, n);
    RepeatBelow(p, n);
  }

  /** A pass that may have lost bytes on the way: it stands where its plan says only if nothing was lost. */
  ghost predicate Going<K>(c0: Content, c: Content, base: nat, p: Plan<K>, blobs: seq<seq<byte>>, n: nat) {
    && Fitting(p, blobs)
    && n <= |blobs|
    && c0.pos <= base + Start(p)
    && c.pos <= c0.pos + (p.ends[n] - Start(p))
    && (c.pos == base + p.ends[n] ==> Progress(c0, c, base, p, blobs, n))
  }

  /** What WriteMapMethodVisitor writes for one method: its map, if the stored offset is where the pass stands. */
  function MapBytes(o: Oat, kind: MapKind, h: Header, codeOffset: nat, n: nat, offset: nat): seq<byte>
    requires n < |o.methods|
  {
    var bytes := BytesAt(o, MapOf(kind, o.methods[n]));
    if |bytes| != 0 && GetOffset(MapField(kind, h), codeOffset) == offset then bytes else []
  }

  lemma {:induction false} FinalMapField(o: Oat, l: Layout, kind: MapKind, i: nat)
    requires Parts(o, l) && i < |o.methods|
    ensures MapField(kind, FinalHeader(o, l, i)) == U32(MapDistance(l, kind, i))
  {
  }

  /**
   The stored offset, read back through the code offset, is where the writing pass stands only at first
   occurrences.
   */
  ghost predicate MapDecided(kind: MapKind, h: Header, codeOffset: nat, p: Plan<Ptr>, i: nat)
    requires Shape(p) && i < |p.keys|
  {
    p.sizes[i] == 0 || (GetOffset(MapField(kind, h), codeOffset) == p.ends[i] <==> p.firsts[i] == i)
  }

  lemma {:induction false} MapDecision(o: Oat, l: Layout, kind: MapKind, i: nat)
    requires Good(o, l) && i < |o.methods|
    ensures MapDecided(kind, FinalHeaders(o, l)[i], FinalOffsets(o, l.code)[i], MapPlan(l, kind), i)
  {
    MapBeforeCode(o, l, kind, i);
    FinalMapField(o, l, kind, i);
    MapDecisionAt(l, kind, i, FinalHeader(o, l, i), CodeDelta(o.isa), FinalOffsets(o, l.code)[i]);
  }

  lemma {:induction false} MapDecisionAt(l: Layout, kind: MapKind, i: nat, h: Header, delta: nat, codeOffset: nat)
    requires Ok(MapPlan(l, kind)) && MapPlan(l, kind).align == 1 && i < |MapPlan(l, kind).keys|
    requires Ok(l.code) && i < |l.code.keys| && delta <= 1
    requires MapField(kind, h) == U32(MapDistance(l, kind, i))
    requires 0 < MapPlan(l, kind).places[i] < CodeAt(l.code, i)
    requires CodeAt(l.code, i) + delta == codeOffset < TWO_32 && CodeAt(l.code, i) % 2 == 0
    ensures MapDecided(kind, h, codeOffset, MapPlan(l, kind), i)
  {
    var p := MapPlan(l, kind);
    OffsetBack(CodeAt(l.code, i), delta, p.places[i], p.sizes[i] == 0);
    RepeatBelow(p, i);
  }

  /** The offset of a map pass follows the plan, whatever becomes of the bytes. */
  lemma {:induction false} MapCount(o: Oat, kind: MapKind, h: Header, codeOffset: nat, p: Plan<Ptr>, n: nat)
    requires MapPart(o, kind, p) && n < |o.methods| && MapDecided(kind, h, codeOffset, p, n)
    ensures p.ends[n] + |MapBytes(o, kind, h, codeOffset, n, p.ends[n])| == p.ends[n + 1]
  {
    RepeatBelow(p, n);
  }

  lemma {:induction false} MapWriteStep(o: Oat, kind: MapKind, h: Header, codeOffset: nat, p: Plan<Ptr>, base: nat,
                                        c0: Content, c: Content, c2: Content, n: nat)
    requires MapPart(o, kind, p) && n < |o.methods| && MapDecided(kind, h, codeOffset, p, n)
    requires Progress(c0, c, base, p, MapBlobs(o, kind), n)
    requires c2 == Put(c, MapBytes(o, kind, h, codeOffset, n, p.ends[n]))
    ensures Progress(c0, c2, base, p, MapBlobs(o, kind), n + 1)
  {
    RepeatBelow(p, n);
    ProgressStep(c0, c, c, c2, base, p, MapBlobs(o, kind), n);
  }

  /** What WriteCodeMethodVisitor writes for one method: padding always, header and code only at a first occurrence. */
  function CodeBytes(align: nat, head: seq<byte>, code: seq<byte>, codeOffset: nat, offset: nat): seq<byte>
    requires align > 0
  {
    var at := RoundUp(offset, align);
    Zeros(at - offset) + if codeOffset >= at then head + code else []
  }

  /** The offset of the code pass follows the plan, whatever becomes of the bytes. */
  lemma {:induction false} CodeCount(o: Oat, head: seq<byte>, code: seq<byte>, p: Plan<CodeKey>, codeOffset: nat,
                                     n: nat)
    requires CodePart(o, p) && n < |o.methods| && code == BytesAt(o, o.methods[n].code) != []
    requires |head| == HEADER_SIZE && codeOffset == CodeAt(p, n) + CodeDelta(o.isa)
    ensures p.ends[n] + |CodeBytes(p.align, head, code, codeOffset, p.ends[n])| == p.ends[n + 1]
    ensures codeOffset >= RoundUp(p.ends[n], p.align) <==> p.firsts[n] == n
  {
    CodeWriteTest(o, p, n);
    RepeatBelow(p, n);
  }

  lemma {:induction false} PaddingOnly(c: Content, n: nat)
    ensures OnlyWithin(c.data, Put(c, Zeros(n)).data, c.pos, c.pos + n)
  {
    PutAt(c, Zeros(n));
  }

  /** One more piece behind those written since c0. */
  lemma {:induction false} PutMore(c0: Content, c: Content, bytes: seq<byte>)
    requires c0.pos <= c.pos && OnlyWithin(c0.data, c.data, c0.pos, c.pos)
    ensures OnlyWithin(c0.data, Put(c, bytes).data, c0.pos, c.pos + |bytes|)
  {
    PutAt(c, bytes);
  }

  lemma {:induction false} CodeWriteStep(o: Oat, head: seq<byte>, code: seq<byte>, p: Plan<CodeKey>,
                                         blobs: seq<seq<byte>>, codeOffset: nat, base: nat, c0: Content, c: Content,
                                         c2: Content, n: nat)
    requires CodePart(o, p) && Progress(c0, c, base, p, blobs, n) && n < |o.methods|
    requires code == BytesAt(o, o.methods[n].code) != [] && |head| == HEADER_SIZE && blobs[n] == head + code
    requires codeOffset == CodeAt(p, n) + CodeDelta(o.isa)
    requires c2 == Put(c, CodeBytes(p.align, head, code, codeOffset, p.ends[n]))
    ensures Progress(c0, c2, base, p, blobs, n + 1)
  {
    var padding := Zeros(RoundUp(p.ends[n], p.align) - p.ends[n]);
    var c1 := Put(c, padding);
    CodeCount(o, head, code, p, codeOffset, n);
    PutPut(c, padding, if p.firsts[n] == n then head + code else []);
    PaddingOnly(c, |padding|);
    ProgressStep(c0, c, c1, c2, base, p, blobs, n);
  }

  /** The next item of a plan without alignment, or after a move to its aligned place. */
  lemma {:induction false} ListStep(c0: Content, c: Content, c1: Content, c2: Content, base: nat,
                                    p: Plan<nat>, blobs: seq<seq<byte>>, n: nat)
    requires Progress(c0, c, base, p, blobs, n) && n < |blobs| && p.firsts[n] == n
    requires c1.pos == base + RoundUp(p.ends[n], p.align)
    requires OnlyWithin(c.data, c1.data, c.pos, c1.pos) && c2 == Put(c1, blobs[n])
    ensures Progress(c0, c2, base, p, blobs, n + 1)
    ensures p.places[n] == RoundUp(p.ends[n], p.align) && p.ends[n + 1] == p.places[n] + p.sizes[n]
  {
    RepeatBelow(p, n);
    ProgressStep(c0, c, c1, c2, base, p, blobs, n);
  }

  /** One piece of a list, behind a gap that is skipped. */
  lemma {:induction false} GapStep(c0: Content, c: Content, c1: Content, c2: Content, base: nat, p: Plan<nat>,
                                   blobs: seq<seq<byte>>, n: nat, place: nat)
    requires Going(c0, c, base, p, blobs, n) && n < |blobs| && p.firsts[n] == n && place == RoundUp(p.ends[n], p.align)
    requires c1.pos <= c.pos + (place - p.ends[n]) && NothingLost(c1, blobs[n], c2)
    requires c1.pos == c.pos + (place - p.ends[n]) ==> OnlyWithin(c.data, c1.data, 0, 0)
    ensures p.ends[n + 1] == place + |blobs[n]| && Going(c0, c2, base, p, blobs, n + 1)
  {
    RepeatBelow(p, n);
    if c2.pos == base + p.ends[n + 1] {
      ListStep(c0, c, c1, c2, base, p, blobs, n);
    }
  }

  /** Moving the position leaves every byte as it reads. */
  lemma {:induction false} MoveOnly(kind: Kind, c: Content, target: nat, lo: nat, hi: nat)
    ensures OnlyWithin(c.data, MoveTo(kind, c, target).data, lo, hi)
  {
  }

  lemma {:induction false} ClassBytesIs(c: OatClass, offsets: seq<nat>)
    ensures BitmapSize(c) == 0 ==> ClassBytes(c, offsets) == Le16(c.status) + Le16(ClassType(c)) + Words(offsets)
    ensures BitmapSize(c) != 0 ==>
      ClassBytes(c, offsets) == Le16(c.status) + Le16(ClassType(c)) + Le32(U32(BitmapSize(c))) + Bitmap(c) +
        Words(offsets)
  {
    var a, w := Le16(c.status) + Le16(ClassType(c)), Words(offsets);
    if BitmapSize(c) == 0 {
      assert ClassPrefix(c) == a + [] == a;
    } else {
      var d, e := Le32(U32(BitmapSize(c))), Bitmap(c);
      assert ClassPrefix(c) == a + (d + e);
      assert a + (d + e) + w == a + d + e + w;
    }
  }

  // ----- the whole file -----

  ghost predicate EntriesWritten(d: seq<byte>, base: nat, o: Oat, l: Layout)
    requires Good(o, l)
  {
    Holds(d, base, o.header) && Written(d, base, l.dexEntries, DexEntryBlobs(o, l), |o.dexFiles|)
  }

  ghost predicate DexWritten(d: seq<byte>, base: nat, o: Oat, l: Layout)
    requires Good(o, l)
  {
    && Written(d, base, l.dex, DexBlobs(o), |o.dexFiles|)
    && Written(d, base, l.classes, ClassBlobs(o, l.code), |o.classes|)
  }

  ghost predicate TablesWritten(d: seq<byte>, base: nat, o: Oat, l: Layout)
    requires Good(o, l)
  {
    EntriesWritten(d, base, o, l) && DexWritten(d, base, o, l)
  }

  ghost predicate MapsWritten(d: seq<byte>, base: nat, o: Oat, l: Layout) {
    && Written(d, base, l.gc, MapBlobs(o, GcMap), |o.methods|)
    && Written(d, base, l.mapping, MapBlobs(o, MappingTable), |o.methods|)
    && Written(d, base, l.vmap, MapBlobs(o, VmapTable), |o.methods|)
  }

  ghost predicate CodeWritten(d: seq<byte>, base: nat, o: Oat, l: Layout)
    requires Good(o, l)
  {
    && Written(d, base, l.trampolines, o.trampolines, |o.trampolines|)
    && Written(d, base, l.code, CodeBlobs(o, l), |o.methods|)
  }

  /** Everything the plans call for is in the file, whose oat part starts at `base`. */
  ghost predicate Complete(d: seq<byte>, base: nat, o: Oat, l: Layout) {
    Good(o, l) && TablesWritten(d, base, o, l) && MapsWritten(d, base, o, l) && CodeWritten(d, base, o, l)
  }

  /** What a pass wrote survives a later pass that stays above it. */
  lemma {:induction false} PassKept<K>(d: seq<byte>, d': seq<byte>, base: nat, p: Plan<K>, blobs: seq<seq<byte>>,
                                       lo: nat, hi: nat)
    requires Fitting(p, blobs) && Written(d, base, p, blobs, |blobs|)
    requires OnlyWithin(d, d', lo, hi) && base + Last(p) <= lo
    ensures Written(d', base, p, blobs, |blobs|)
  {
    WrittenKept(d, d', base, p, blobs, |blobs|);
  }

  lemma {:induction false} TablesKept(d: seq<byte>, d': seq<byte>, base: nat, o: Oat, l: Layout, lo: nat, hi: nat)
    requires Good(o, l) && TablesWritten(d, base, o, l)
    requires OnlyWithin(d, d', lo, hi) && base + Last(l.classes) <= lo
    ensures TablesWritten(d', base, o, l)
  {
    PartOrder(o, l);
    HoldsKept(d, d', base, o.header);
    PassKept(d, d', base, l.dexEntries, DexEntryBlobs(o, l), lo, hi);
    PassKept(d, d', base, l.dex, DexBlobs(o), lo, hi);
    PassKept(d, d', base, l.classes, ClassBlobs(o, l.code), lo, hi);
  }

  lemma {:induction false} MapsKept(d: seq<byte>, d': seq<byte>, base: nat, o: Oat, l: Layout, lo: nat, hi: nat)
    requires Good(o, l) && MapsWritten(d, base, o, l)
    requires OnlyWithin(d, d', lo, hi) && base + Last(l.vmap) <= lo
    ensures MapsWritten(d', base, o, l)
  {
    PartOrder(o, l);
    PassKept(d, d', base, l.gc, MapBlobs(o, GcMap), lo, hi);
    PassKept(d, d', base, l.mapping, MapBlobs(o, MappingTable), lo, hi);
    PassKept(d, d', base, l.vmap, MapBlobs(o, VmapTable), lo, hi);
  }

  lemma {:induction false} MapDecisions(o: Oat, l: Layout, kind: MapKind)
    requires Good(o, l)
    ensures forall i :: 0 <= i < |o.methods| ==>
      MapDecided(kind, FinalHeaders(o, l)[i], FinalOffsets(o, l.code)[i], MapPlan(l, kind), i)
  {
    forall i | 0 <= i < |o.methods|
      ensures MapDecided(kind, FinalHeaders(o, l)[i], FinalOffsets(o, l.code)[i], MapPlan(l, kind), i)
    {
      MapDecision(o, l, kind, i);
    }
  }

  lemma {:induction false} TableBlobs(o: Oat, l: Layout)
    requires Good(o, l)
    ensures Fitting(l.dexEntries, DexEntryBlobs(o, l)) && Fitting(l.dex, DexBlobs(o))
    ensures Fitting(l.classes, ClassBlobs(o, l.code))
    ensures forall d :: 0 <= d < |o.dexFiles| ==>
      DexEntryBlobs(o, l)[d] == DexEntryBytes(o.dexFiles[d], l.dex.places[d], OfDexFile(o, l.classes.places, d))
    ensures forall c :: 0 <= c < |o.classes| ==>
      ClassBlobs(o, l.code)[c] == ClassBytes(o.classes[c], OfClass(o, FinalOffsets(o, l.code), c))
  {
  }

  lemma {:induction false} NoEmptyDexFile(o: Oat, l: Layout)
    requires Good(o, l)
    ensures forall d :: 0 <= d < |o.dexFiles| ==> DexBlobs(o)[d] == o.dexFiles[d].bytes != []
  {
    forall d | 0 <= d < |o.dexFiles| ensures o.dexFiles[d].bytes != [] {
      assert HasHeader(o.dexFiles[d]);
    }
  }

  /** The dex files and the classes, one behind the other. */
  lemma {:induction false} DexDone(o: Oat, l: Layout, base: nat, c1: Content, c2: Content, c3: Content)
    requires Good(o, l)
    requires Progress(c1, c2, base, l.dex, DexBlobs(o), |o.dexFiles|)
    requires Progress(c2, c3, base, l.classes, ClassBlobs(o, l.code), |o.classes|)
    ensures DexWritten(c3.data, base, o, l) && c3.pos == base + Last(l.classes)
    ensures OnlyWithin(c1.data, c3.data, base + Start(l.dex), base + Last(l.classes))
  {
    PartOrder(o, l);
    PassKept(c2.data, c3.data, base, l.dex, DexBlobs(o), base + Start(l.classes), base + Last(l.classes));
  }

  /** The header and the dex file entries in front of them stay. */
  lemma {:induction false} EntriesDone(o: Oat, l: Layout, base: nat, c0: Content, c1: Content, d: seq<byte>)
    requires Good(o, l) && Holds(c0.data, base, o.header)
    requires Progress(c0, c1, base, l.dexEntries, DexEntryBlobs(o, l), |o.dexFiles|)
    requires OnlyWithin(c1.data, d, base + Start(l.dex), base + Last(l.classes))
    ensures EntriesWritten(d, base, o, l)
    ensures OnlyWithin(c0.data, d, base + |o.header|, base + Last(l.classes))
  {
    PartOrder(o, l);
    HoldsKept(c0.data, c1.data, base, o.header);
    HoldsKept(c1.data, d, base, o.header);
    PassKept(c1.data, d, base, l.dexEntries, DexEntryBlobs(o, l), base + Start(l.dex), base + Last(l.classes));
  }

  /** Header, entries, dex files and classes have been written and nothing else; then the position is asked for. */
  lemma {:induction false} TablesDone(o: Oat, l: Layout, base: nat, c: Content, c0: Content, c1: Content, d1: seq<byte>,
                                      d: seq<byte>)
    requires Good(o, l) && c.pos == base && c0 == Put(c, o.header)
    requires Progress(c0, c1, base, l.dexEntries, DexEntryBlobs(o, l), |o.dexFiles|)
    requires DexWritten(d1, base, o, l) && OnlyWithin(c1.data, d1, base + Start(l.dex), base + Last(l.classes))
    requires OnlyWithin(d1, d, 0, 0)
    ensures TablesWritten(d, base, o, l) && OnlyWithin(c.data, d, base, base + Last(l.classes))
  {
    HeaderDone(o, base, c);
    EntriesDone(o, l, base, c0, c1, d1);
    TablesKept(d1, d, base, o, l, base + Last(l.classes), base + Last(l.classes));
    PartOrder(o, l);
  }

  lemma {:induction false} MapsDone(o: Oat, l: Layout, base: nat, c0: Content, c1: Content, c2: Content, c3: Content)
    requires Good(o, l)
    requires Progress(c0, c1, base, l.gc, MapBlobs(o, GcMap), |o.methods|)
    requires Progress(c1, c2, base, l.mapping, MapBlobs(o, MappingTable), |o.methods|)
    requires Progress(c2, c3, base, l.vmap, MapBlobs(o, VmapTable), |o.methods|)
    ensures MapsWritten(c3.data, base, o, l) && c3.pos == base + Last(l.vmap)
    ensures OnlyWithin(c0.data, c3.data, base + Start(l.gc), base + Last(l.vmap))
  {
    PartOrder(o, l);
    PassKept(c1.data, c2.data, base, l.gc, MapBlobs(o, GcMap), base + Start(l.mapping), base + Last(l.mapping));
    PassKept(c2.data, c3.data, base, l.gc, MapBlobs(o, GcMap), base + Start(l.vmap), base + Last(l.vmap));
    PassKept(c2.data, c3.data, base, l.mapping, MapBlobs(o, MappingTable), base + Start(l.vmap), base + Last(l.vmap));
  }

  /** Three passes on which bytes may have been lost: only if none was does the last one end where it should. */
  lemma {:induction false} MapsGone(o: Oat, l: Layout, base: nat, c0: Content, c1: Content, c2: Content, c3: Content)
    requires Good(o, l)
    requires Going(c0, c1, base, l.gc, MapBlobs(o, GcMap), |o.methods|)
    requires Going(c1, c2, base, l.mapping, MapBlobs(o, MappingTable), |o.methods|)
    requires Going(c2, c3, base, l.vmap, MapBlobs(o, VmapTable), |o.methods|)
    ensures c3.pos <= base + Last(l.vmap)
    ensures c3.pos == base + Last(l.vmap) ==>
      && MapsWritten(c3.data, base, o, l)
      && OnlyWithin(c0.data, c3.data, base + Start(l.gc), base + Last(l.vmap))
  {
    if c3.pos == base + Last(l.vmap) {
      MapsDone(o, l, base, c0, c1, c2, c3);
    }
  }

  /** c0 and c1 are before and after the gap up to the page boundary. */
  lemma {:induction false} CodeDone(o: Oat, l: Layout, base: nat, c0: Content, c1: Content, c2: Content, c3: Content)
    requires Good(o, l) && OnlyWithin(c0.data, c1.data, base + Last(l.vmap), base + l.executable)
    requires Progress(c1, c2, base, l.trampolines, o.trampolines, |o.trampolines|)
    requires Progress(c2, c3, base, l.code, CodeBlobs(o, l), |o.methods|)
    ensures CodeWritten(c3.data, base, o, l) && c3.pos == base + Last(l.code)
    ensures OnlyWithin(c0.data, c3.data, base + Last(l.vmap), base + Last(l.code))
  {
    PartOrder(o, l);
    PassKept(c2.data, c3.data, base, l.trampolines, o.trampolines, base + Start(l.code), base + Last(l.code));
  }

  /** The same, if bytes may have been lost on the way. */
  lemma {:induction false} CodeGone(o: Oat, l: Layout, base: nat, c0: Content, c1: Content, c2: Content, c3: Content)
    requires Good(o, l) && c1.pos <= base + l.executable
    requires c1.pos == base + l.executable ==> c0.pos == base + Last(l.vmap) && OnlyWithin(c0.data, c1.data, 0, 0)
    requires Going(c1, c2, base, l.trampolines, o.trampolines, |o.trampolines|)
    requires Going(c2, c3, base, l.code, CodeBlobs(o, l), |o.methods|)
    ensures c3.pos <= base + Last(l.code)
    ensures c3.pos == base + Last(l.code) ==>
      && c0.pos == base + Last(l.vmap) && CodeWritten(c3.data, base, o, l)
      && OnlyWithin(c0.data, c3.data, base + Last(l.vmap), base + Last(l.code))
  {
    PartOrder(o, l);
    if c3.pos == base + Last(l.code) {
      CodeDone(o, l, base, c0, c1, c2, c3);
    }
  }

  lemma {:induction false} HeaderDone(o: Oat, base: nat, c: Content)
    requires c.pos == base
    ensures Holds(Put(c, o.header).data, base, o.header)
    ensures OnlyWithin(c.data, Put(c, o.header).data, base, base + |o.header|)
  {
    PutAt(c, o.header);
  }

  /** Everything behind the tables. */
  ghost predicate RestWritten(d: seq<byte>, base: nat, o: Oat, l: Layout)
    requires Good(o, l)
  {
    MapsWritten(d, base, o, l) && CodeWritten(d, base, o, l)
  }

  lemma {:induction false} RestDone(o: Oat, l: Layout, base: nat, d1: seq<byte>, d2: seq<byte>, d3: seq<byte>)
    requires Good(o, l) && MapsWritten(d2, base, o, l) && CodeWritten(d3, base, o, l)
    requires OnlyWithin(d1, d2, base + Last(l.classes), base + Last(l.vmap))
    requires OnlyWithin(d2, d3, base + Last(l.vmap), base + Last(l.code))
    ensures RestWritten(d3, base, o, l) && OnlyWithin(d1, d3, base + Last(l.classes), base + Last(l.code))
  {
    PartOrder(o, l);
    MapsKept(d2, d3, base, o, l, base + Last(l.vmap), base + Last(l.code));
  }

  lemma {:induction false} RestKept(o: Oat, l: Layout, base: nat, d: seq<byte>, d': seq<byte>, lo: nat, hi: nat)
    requires Good(o, l) && RestWritten(d, base, o, l) && OnlyWithin(d, d', lo, hi) && base + Last(l.code) <= lo
    ensures RestWritten(d', base, o, l)
  {
    PartOrder(o, l);
    MapsKept(d, d', base, o, l, lo, hi);
    PassKept(d, d', base, l.trampolines, o.trampolines, lo, hi);
    PassKept(d, d', base, l.code, CodeBlobs(o, l), lo, hi);
  }

  lemma {:induction false} AllDone(o: Oat, l: Layout, base: nat, d0: seq<byte>, d1: seq<byte>, d3: seq<byte>)
    requires Good(o, l) && TablesWritten(d1, base, o, l) && RestWritten(d3, base, o, l)
    requires OnlyWithin(d0, d1, base, base + Last(l.classes))
    requires OnlyWithin(d1, d3, base + Last(l.classes), base + Last(l.code))
    ensures Complete(d3, base, o, l) && OnlyWithin(d0, d3, base, base + Last(l.code))
  {
    PartOrder(o, l);
    TablesKept(d1, d3, base, o, l, base + Last(l.classes), base + Last(l.code));
  }

  /** A complete file stays complete if only bytes behind it change. */
  lemma {:induction false} CompleteKept(o: Oat, l: Layout, base: nat, d: seq<byte>, d': seq<byte>, lo: nat, hi: nat)
    requires Complete(d, base, o, l) && OnlyWithin(d, d', lo, hi) && base + Last(l.code) <= lo
    ensures Complete(d', base, o, l)
  {
    PartOrder(o, l);
    TablesKept(d, d', base, o, l, lo, hi);
    RestKept(o, l, base, d, d', lo, hi);
  }
}
