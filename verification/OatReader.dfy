/**
 Reading a method back the way the runtime does (oat_file-inl.h): from its code offset to the
 header in front of the code, and from the header back to the maps.
 */
module OatReader {
  import opened Wrappers
  import opened Bytes
  import opened Streams
  import opened DedupLayout
  import opened FileReads
  import opened OatFormat
  import opened OatPasses

  /** EntryPointToCodePointer */
  function CodePointer(codeOffset: nat): nat {
    ClearLow(codeOffset)
  }

  /** A field of the OatQuickMethodHeader in front of the code at `code` in the file. */
  function HeaderField(d: seq<byte>, base: nat, code: nat, field: nat): nat
    requires HEADER_SIZE <= code
  {
    Word(d, base + code - HEADER_SIZE + field)
  }

  function FieldOf(kind: MapKind): nat {
    match kind
    case MappingTable => 0
    case VmapTable => 4
    case GcMap => 8
  }

  /** GetGcMap, GetMappingTable and GetVmapTable: none if nothing is recorded, else back from the code. */
  function ReadMap(d: seq<byte>, base: nat, code: nat, kind: MapKind): Option<int>
    requires HEADER_SIZE <= code
  {
    var offset := HeaderField(d, base, code, FieldOf(kind));
    if offset == 0 then None else Some(code - offset)
  }

  // ----- reading pieces of what a file holds -----

  /** The blob of item i is where the plan says. */
  lemma {:induction false} HeldItem<K>(d: seq<byte>, base: nat, p: Plan<K>, blobs: seq<seq<byte>>, i: nat)
    requires Fitting(p, blobs) && Written(d, base, p, blobs, |blobs|) && i < |blobs|
    ensures p.firsts[i] <= i && p.keys[p.firsts[i]] == p.keys[i] && Holds(d, base + p.places[i], blobs[p.firsts[i]])
  {
    assert Step(p, i);
    assert HeldAt(d, base, p, blobs, i);
  }

  // ----- methods -----

  lemma {:induction false} HeaderWord(d: seq<byte>, at: nat, h: Header, code: seq<byte>, k: nat)
    requires Holds(d, at, HeaderBytes(h) + code) && k < 7
    ensures Word(d, at + 4 * k) == [h.mapping, h.vmap, h.gc, h.frameSize, h.coreSpill, h.fpSpill, h.codeSize][k]
  {
    var ws := [h.mapping, h.vmap, h.gc, h.frameSize, h.coreSpill, h.fpSpill, h.codeSize];
    WordsAt(ws, k);
    assert (HeaderBytes(h) + code)[4 * k..4 * k + 4] == HeaderBytes(h)[4 * k..4 * k + 4];
    HeldWord(d, at, HeaderBytes(h) + code, 4 * k, ws[k]);
  }

  /** Methods with the same code and maps have the same way back to each map. */
  lemma {:induction false} SameDistance(o: Oat, l: Layout, kind: MapKind, f: nat, i: nat)
    requires CodePart(o, l.code) && MapPart(o, kind, MapPlan(l, kind))
    requires f < |o.methods| && i < |o.methods| && l.code.keys[f] == l.code.keys[i]
    ensures MapDistance(l, kind, f) == MapDistance(l, kind, i)
  {
    Sharing(l.code, f, i);
    assert KeyOf(o.methods[f]) == KeyOf(o.methods[i]);
    Sharing(MapPlan(l, kind), f, i);
  }

  /** The map a method shares is at its place. */
  lemma {:induction false} MapFound(d: seq<byte>, base: nat, o: Oat, kind: MapKind, p: Plan<Ptr>, i: nat)
    requires MapPart(o, kind, p) && i < |o.methods| && Written(d, base, p, MapBlobs(o, kind), |o.methods|)
    ensures Holds(d, base + p.places[i], BytesAt(o, MapOf(kind, o.methods[i])))
  {
    HeldItem(d, base, p, MapBlobs(o, kind), i);
  }

  /** What a header says can be read off the file. */
  lemma {:induction false} HeaderReads(d: seq<byte>, at: nat, h: Header, code: seq<byte>, kind: MapKind)
    requires Holds(d, at, HeaderBytes(h) + code)
    ensures Word(d, at + FieldOf(kind)) == MapField(kind, h) && Word(d, at + 24) == h.codeSize
    ensures Holds(d, at + HEADER_SIZE, code)
  {
    match kind {
      case MappingTable => HeaderWord(d, at, h, code, 0);
      case VmapTable => HeaderWord(d, at, h, code, 1);
      case GcMap => HeaderWord(d, at, h, code, 2);
    }
    HeaderWord(d, at, h, code, 6);
    assert HeaderBytes(h) + code + [] == HeaderBytes(h) + code;
    HeldPart(d, at, HeaderBytes(h), code, []);
  }

  /** The header in front of a method's code is that of the first method with its key. */
  lemma {:induction false} SharedHeader(d: seq<byte>, base: nat, p: Plan<CodeKey>, blobs: seq<seq<byte>>, i: nat,
                                        h: Header, code: seq<byte>, kind: MapKind)
    requires Fitting(p, blobs) && Written(d, base, p, blobs, |blobs|) && i < |blobs|
    requires p.firsts[i] < |blobs| && blobs[p.firsts[i]] == HeaderBytes(h) + code
    ensures Word(d, base + p.places[i] + FieldOf(kind)) == MapField(kind, h)
    ensures Word(d, base + p.places[i] + 24) == h.codeSize
    ensures Holds(d, base + p.places[i] + HEADER_SIZE, code)
  {
    HeldItem(d, base, p, blobs, i);
    HeaderReads(d, base + p.places[i], h, code, kind);
  }

  /** The header of the first method with the same key says the same about code size and maps. */
  lemma {:induction false} SharedHeaderFits(o: Oat, l: Layout, i: nat, kind: MapKind, blobs: seq<seq<byte>>)
    returns (h: Header)
    requires Parts(o, l) && i < |o.methods| && blobs == CodeBlobs(o, l)
    ensures |blobs| == |o.methods| && Fitting(l.code, blobs) && l.code.firsts[i] < |blobs|
    ensures blobs[l.code.firsts[i]] == HeaderBytes(h) + BytesAt(o, o.methods[i].code)
    ensures h.codeSize == U32(|BytesAt(o, o.methods[i].code)|) && MapField(kind, h) == U32(MapDistance(l, kind, i))
  {
    var f := l.code.firsts[i];
    assert Step(l.code, i);
    assert KeyOf(o.methods[f]) == l.code.keys[f] == l.code.keys[i] == KeyOf(o.methods[i]);
    SameDistance(o, l, kind, f, i);
    FinalMapField(o, l, kind, f);
    h := FinalHeader(o, l, f);
  }

  lemma {:induction false} WayBack(field: nat, code: nat, delta: nat, place: nat, empty: bool)
    requires 0 < place < code && code + delta < TWO_32 && delta <= 1 && code % 2 == 0
    requires field == U32(if empty then 0 else code - place)
    ensures (field == 0 <==> empty) && (!empty ==> code - field == place)
  {
    Distance(code, delta, place);
  }

  /** Following a code offset leads to `code`, its size, and the map of the kind, which is `bytes`. */
  ghost predicate Decoded(d: seq<byte>, base: nat, code: seq<byte>, bytes: seq<byte>, codeOffset: nat, kind: MapKind) {
    var at := CodePointer(codeOffset);
    && HEADER_SIZE <= at
    && Holds(d, base + at, code)
    && HeaderField(d, base, at, 24) == |code|
    && match ReadMap(d, base, at, kind)
       case None => bytes == []
       case Some(map_) => bytes != [] && 0 <= map_ && Holds(d, base + map_, bytes)
  }

  /** What is in the file around a method: its header and code at `head`, its map at `place`. */
  ghost predicate Around(d: seq<byte>, base: nat, code: seq<byte>, bytes: seq<byte>, kind: MapKind, head: nat,
                         place: nat) {
    && Holds(d, base + head + HEADER_SIZE, code)
    && Word(d, base + head + 24) == U32(|code|)
    && Word(d, base + head + FieldOf(kind)) == U32(if bytes == [] then 0 else head + HEADER_SIZE - place)
    && Holds(d, base + place, bytes)
  }

  lemma {:induction false} DecodedFrom(d: seq<byte>, base: nat, code: seq<byte>, bytes: seq<byte>, kind: MapKind,
                                       head: nat, delta: nat, place: nat, codeOffset: nat)
    requires 0 < place < head + HEADER_SIZE && head + HEADER_SIZE + delta < TWO_32 && delta <= 1 && head % 2 == 0
    requires |code| < TWO_32 && Around(d, base, code, bytes, kind, head, place)
    requires codeOffset == head + HEADER_SIZE + delta
    ensures Decoded(d, base, code, bytes, codeOffset, kind)
  {
    var at := head + HEADER_SIZE;
    Distance(at, delta, place);
    WayBack(Word(d, base + head + FieldOf(kind)), at, delta, place, bytes == []);
    assert base + at - HEADER_SIZE + FieldOf(kind) == base + head + FieldOf(kind);
    assert base + at - HEADER_SIZE + 24 == base + head + 24;
  }

  lemma {:induction false} PlacesInRange(o: Oat, l: Layout, i: nat, kind: MapKind)
    requires Good(o, l) && i < |o.methods|
    ensures 0 < MapPlan(l, kind).places[i] < l.code.places[i] + HEADER_SIZE
    ensures l.code.places[i] + HEADER_SIZE + CodeDelta(o.isa) < TWO_32 && l.code.places[i] % 2 == 0
    ensures |BytesAt(o, o.methods[i].code)| < TWO_32
    ensures MapDistance(l, kind, i)
         == if BytesAt(o, MapOf(kind, o.methods[i])) == [] then 0
           else l.code.places[i] + HEADER_SIZE - MapPlan(l, kind).places[i]
  {
    MapBeforeCode(o, l, kind, i);
    CodeRange(o, l.code, i);
  }

  lemma {:induction false} MapHeld(d: seq<byte>, base: nat, o: Oat, l: Layout, i: nat, kind: MapKind)
    requires Complete(d, base, o, l) && i < |o.methods|
    ensures Holds(d, base + MapPlan(l, kind).places[i], BytesAt(o, MapOf(kind, o.methods[i])))
  {
    MapFound(d, base, o, kind, MapPlan(l, kind), i);
  }

  /** The header in front of method i says what method i needs. */
  lemma {:induction false} HeaderHeld(d: seq<byte>, base: nat, o: Oat, l: Layout, i: nat, kind: MapKind)
    requires Parts(o, l) && i < |o.methods| && Written(d, base, l.code, CodeBlobs(o, l), |o.methods|)
    ensures Word(d, base + l.code.places[i] + FieldOf(kind)) == U32(MapDistance(l, kind, i))
    ensures Word(d, base + l.code.places[i] + 24) == U32(|BytesAt(o, o.methods[i].code)|)
    ensures Holds(d, base + l.code.places[i] + HEADER_SIZE, BytesAt(o, o.methods[i].code))
  {
    var h := SharedHeaderFits(o, l, i, kind, CodeBlobs(o, l));
    SharedHeader(d, base, l.code, CodeBlobs(o, l), i, h, BytesAt(o, o.methods[i].code), kind);
  }

  lemma {:induction false} MethodAround(d: seq<byte>, base: nat, o: Oat, l: Layout, i: nat, kind: MapKind)
    requires Complete(d, base, o, l) && i < |o.methods|
    ensures Around(d, base, BytesAt(o, o.methods[i].code), BytesAt(o, MapOf(kind, o.methods[i])), kind,
                   l.code.places[i], MapPlan(l, kind).places[i])
  {
    HeaderHeld(d, base, o, l, i, kind);
    PlacesInRange(o, l, i, kind);
    MapHeld(d, base, o, l, i, kind);
  }

  /**
   The code of method i is at its code offset with the low bit cleared, and the header in front of
   it records its size and the way back to its map of the kind, although the header there may be
   that of an earlier method with the same code and maps.
   */
  lemma {:induction false} MethodDecodes(d: seq<byte>, base: nat, o: Oat, l: Layout, i: nat, kind: MapKind)
    requires Complete(d, base, o, l) && i < |o.methods|
    ensures Decoded(d, base, BytesAt(o, o.methods[i].code), BytesAt(o, MapOf(kind, o.methods[i])),
      FinalOffsets(o, l.code)[i], kind)
  {
    MethodAround(d, base, o, l, i, kind);
    PlacesInRange(o, l, i, kind);
    DecodedFrom(d, base, BytesAt(o, o.methods[i].code), BytesAt(o, MapOf(kind, o.methods[i])), kind,
                l.code.places[i], CodeDelta(o.isa), MapPlan(l, kind).places[i], FinalOffsets(o, l.code)[i]);
  }
}
