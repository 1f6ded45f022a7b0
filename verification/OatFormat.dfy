/**
 The oat file: what goes into it and where. Everything here is a function of the input, the list
 of dex files with their classes and compiled methods; the passes of OatWriter are proved to
 compute these functions, and OatReader is proved to find its way back.
 */
module OatFormat {
  import opened Wrappers
  import opened Bytes
  import opened Streams
  import opened DedupLayout

  datatype Isa = Arm | Thumb2 | Arm64 | Mips | X86 | X86_64

  /** GetInstructionSetAlignment */
  function Alignment(isa: Isa): (a: nat)
    ensures a == 8 || a == 16
  {
    match isa
    case Arm | Thumb2 | Mips => 8
    case Arm64 | X86 | X86_64 => 16
  }

  /** CompiledCode::CodeDelta: Thumb2 entry points have the low bit set. */
  function CodeDelta(isa: Isa): (d: nat)
    ensures d <= 1
  {
    if isa == Thumb2 then 1 else 0
  }

  /** sizeof(OatQuickMethodHeader) */
  const HEADER_SIZE: nat := 28

  /** A vector of bytes owned by the compiler driver, known by its address: an index into its heap. */
  type Ptr = nat

  datatype CompiledMethod = CompiledMethod(
    code: Ptr, mapping: Ptr, vmap: Ptr, gc: Ptr,
    frameSize: uint32, coreSpill: uint32, fpSpill: uint32)

  /** OatQuickMethodHeader, in the order of its fields. */
  datatype Header = Header(
    mapping: uint32, vmap: uint32, gc: uint32,
    frameSize: uint32, coreSpill: uint32, fpSpill: uint32, codeSize: uint32)

  datatype MapKind = GcMap | MappingTable | VmapTable

  /** GetData of the three DataAccess structures. */
  function MapOf(kind: MapKind, m: CompiledMethod): Ptr {
    match kind
    case GcMap => m.gc
    case MappingTable => m.mapping
    case VmapTable => m.vmap
  }

  function MapField(kind: MapKind, h: Header): uint32 {
    match kind
    case GcMap => h.gc
    case MappingTable => h.mapping
    case VmapTable => h.vmap
  }

  function WithMapField(kind: MapKind, h: Header, v: uint32): Header {
    match kind
    case GcMap => h.(gc := v)
    case MappingTable => h.(mapping := v)
    case VmapTable => h.(vmap := v)
  }

  /** What CodeOffsetsKeyComparator looks at. */
  datatype CodeKey = CodeKey(code: Ptr, mapping: Ptr, vmap: Ptr, gc: Ptr)

  function KeyOf(m: CompiledMethod): CodeKey {
    CodeKey(m.code, m.mapping, m.vmap, m.gc)
  }

  predicate KeyLess(a: CompiledMethod, b: CompiledMethod) {
    if a.code != b.code then a.code < b.code
    else if a.mapping != b.mapping then a.mapping < b.mapping
    else if a.vmap != b.vmap then a.vmap < b.vmap
    else if a.gc != b.gc then a.gc < b.gc
    else false
  }

  type uint16 = x: int | 0 <= x < 65536

  datatype OatClass = OatClass(status: uint16, methods: seq<Option<CompiledMethod>>)

  datatype DexFile = DexFile(location: seq<byte>, checksum: uint32, bytes: seq<byte>, numClassDefs: uint32)

  /** The offset of class_defs_size_ in the header of a dex file, and the size of the header */
  const CLASS_DEFS_SIZE: nat := 96
  const DEX_HEADER_SIZE: nat := 112

  /** The offsets of dex_file_count_ and key_value_store_size_ in OatHeader, and its size without the store */
  const DEX_FILE_COUNT: nat := 20
  const KEY_VALUE_STORE_SIZE: nat := 80
  const OAT_HEADER_SIZE: nat := 84

  /** The header of a dex file says how many class defs it has. */
  predicate HasHeader(d: DexFile) {
    |d.bytes| >= DEX_HEADER_SIZE && d.bytes[CLASS_DEFS_SIZE..CLASS_DEFS_SIZE + 4] == Le32(d.numClassDefs)
  }

  /**
   `header` is the flattened oat header, `trampolines` is empty unless an image is compiled, and
   `methods` are the compiled methods of all classes in the order VisitDexMethods meets them.
   */
  datatype Oat = Oat(
    isa: Isa, header: seq<byte>, dexFiles: seq<DexFile>, classes: seq<OatClass>,
    methods: seq<CompiledMethod>, trampolines: seq<seq<byte>>, data: seq<seq<byte>>)

  /** The oat header says how many dex files there are and how long the key-value store behind it is. */
  predicate HasOatHeader(o: Oat) {
    && |o.dexFiles| < TWO_32 && OAT_HEADER_SIZE <= |o.header| < TWO_32
    && o.header[DEX_FILE_COUNT..DEX_FILE_COUNT + 4] == Le32(|o.dexFiles|)
    && o.header[KEY_VALUE_STORE_SIZE..KEY_VALUE_STORE_SIZE + 4] == Le32(|o.header| - OAT_HEADER_SIZE)
  }

  function BytesAt(o: Oat, q: Ptr): seq<byte> {
    if q < |o.data| then o.data[q] else []
  }

  /** The compiled methods of a class in order; the k-th has method_offsets_index_ k. */
  function Compiled(methods: seq<Option<CompiledMethod>>): (r: seq<CompiledMethod>)
    ensures |r| <= |methods|
  {
    if methods == [] then []
    else
      var last := methods[|methods| - 1];
      Compiled(methods[..|methods| - 1]) + if last.Some? then [last.value] else []
  }

  /** All compiled methods in the order VisitDexMethods meets them. */
  function Visited(classes: seq<OatClass>): seq<CompiledMethod> {
    if classes == [] then []
    else Visited(classes[..|classes| - 1]) + Compiled(classes[|classes| - 1].methods)
  }

  function Lengths(blobs: seq<seq<byte>>): (s: seq<nat>)
    ensures |s| == |blobs| && forall i :: 0 <= i < |s| ==> s[i] == |blobs[i]|
  {
    seq(|blobs|, i requires 0 <= i < |blobs| => |blobs[i]|)
  }

  /** A plan for items that are all different: every item is a first occurrence. */
  ghost predicate ListPart(p: Plan<nat>, sizes: seq<nat>, align: nat) {
    && Ok(p) && p.keys == Indices(|sizes|) && p.sizes == sizes && p.align == align
    && p.firsts == Indices(|sizes|)
  }

  ghost function Listing(sizes: seq<nat>, align: nat, start: nat): (p: Plan<nat>)
    requires align > 0
    ensures ListPart(p, sizes, align) && Start(p) == start
  {
    var p := Make(Indices(|sizes|), sizes, align, start);
    assert p.firsts == Indices(|sizes|) by {
      forall i | 0 <= i < |sizes| ensures p.firsts[i] == i { assert Step(p, i); }
    }
    p
  }

  // ----- class and dex file tables -----

  const ALL_COMPILED: nat := 0
  const SOME_COMPILED: nat := 1
  const NONE_COMPILED: nat := 2

  function ClassType(c: OatClass): (t: nat)
    ensures t <= 2
  {
    var k := |Compiled(c.methods)|;
    if k == 0 then NONE_COMPILED else if k == |c.methods| then ALL_COMPILED else SOME_COMPILED
  }

  /** BitVector::GetSizeOf for a bit per method, or 0 without a bitmap. */
  function BitmapSize(c: OatClass): nat {
    if ClassType(c) == SOME_COMPILED then 4 * ((|c.methods| + 31) / 32) else 0
  }

  function ClassSize(c: OatClass): nat {
    4 + (if BitmapSize(c) == 0 then 0 else 4) + BitmapSize(c) + 4 * |Compiled(c.methods)|
  }

  function DexEntrySize(d: DexFile): nat {
    12 + |d.location| + 4 * d.numClassDefs
  }

  function ClassSizes(o: Oat): seq<nat> {
    seq(|o.classes|, i requires 0 <= i < |o.classes| => ClassSize(o.classes[i]))
  }

  function DexEntrySizes(o: Oat): seq<nat> {
    seq(|o.dexFiles|, i requires 0 <= i < |o.dexFiles| => DexEntrySize(o.dexFiles[i]))
  }

  function DexBlobs(o: Oat): seq<seq<byte>> {
    seq(|o.dexFiles|, i requires 0 <= i < |o.dexFiles| => o.dexFiles[i].bytes)
  }

  // ----- the plans, each starting where the one before it ended -----

  datatype Layout = Layout(
    dexEntries: Plan<nat>, dex: Plan<nat>, classes: Plan<nat>,
    gc: Plan<Ptr>, mapping: Plan<Ptr>, vmap: Plan<Ptr>,
    executable: nat, trampolines: Plan<nat>, code: Plan<CodeKey>)

  function MapPlan(l: Layout, kind: MapKind): Plan<Ptr> {
    match kind
    case GcMap => l.gc
    case MappingTable => l.mapping
    case VmapTable => l.vmap
  }

  function MapBlobs(o: Oat, kind: MapKind): (b: seq<seq<byte>>)
    ensures |b| == |o.methods|
    ensures forall i :: 0 <= i < |b| ==> b[i] == BytesAt(o, MapOf(kind, o.methods[i]))
  {
    var ms := o.methods;
    seq(|ms|, i requires 0 <= i < |ms| => BytesAt(o, MapOf(kind, ms[i])))
  }

  function MapKeys(o: Oat, kind: MapKind): (k: seq<Ptr>)
    ensures |k| == |o.methods|
    ensures forall i :: 0 <= i < |k| ==> k[i] == MapOf(kind, o.methods[i])
  {
    var ms := o.methods;
    seq(|ms|, i requires 0 <= i < |ms| => MapOf(kind, ms[i]))
  }

  ghost predicate MapPart(o: Oat, kind: MapKind, p: Plan<Ptr>) {
    Fitting(p, MapBlobs(o, kind)) && p.align == 1 && p.keys == MapKeys(o, kind)
  }

  ghost function MapsFrom(o: Oat, kind: MapKind, start: nat): (p: Plan<Ptr>)
    ensures MapPart(o, kind, p) && Start(p) == start
  {
    Make(MapKeys(o, kind), Lengths(MapBlobs(o, kind)), 1, start)
  }

  function CodeKeys(o: Oat): (k: seq<CodeKey>)
    ensures |k| == |o.methods|
    ensures forall i :: 0 <= i < |k| ==> k[i] == KeyOf(o.methods[i])
  {
    var ms := o.methods;
    seq(|ms|, i requires 0 <= i < |ms| => KeyOf(ms[i]))
  }

  function CodeSizes(o: Oat): (s: seq<nat>)
    ensures |s| == |o.methods|
    ensures forall i :: 0 <= i < |s| ==> s[i] == HEADER_SIZE + |BytesAt(o, o.methods[i].code)|
  {
    var ms := o.methods;
    seq(|ms|, i requires 0 <= i < |ms| => HEADER_SIZE + |BytesAt(o, ms[i].code)|)
  }

  ghost predicate CodePart(o: Oat, p: Plan<CodeKey>) {
    Ok(p) && p.keys == CodeKeys(o) && p.sizes == CodeSizes(o) && p.align == Alignment(o.isa)
  }

  ghost function CodesFrom(o: Oat, start: nat): (p: Plan<CodeKey>)
    ensures CodePart(o, p) && Start(p) == start
  {
    Make(CodeKeys(o), CodeSizes(o), Alignment(o.isa), start)
  }

  ghost predicate Parts(o: Oat, l: Layout) {
    && ListPart(l.dexEntries, DexEntrySizes(o), 1)
    && ListPart(l.dex, Lengths(DexBlobs(o)), 4)
    && ListPart(l.classes, ClassSizes(o), 1)
    && MapPart(o, GcMap, l.gc)
    && MapPart(o, MappingTable, l.mapping)
    && MapPart(o, VmapTable, l.vmap)
    && ListPart(l.trampolines, Lengths(o.trampolines), Alignment(o.isa))
    && CodePart(o, l.code)
  }

  /** The order of the parts: tables, GC maps, mapping tables, vmap tables, a page boundary, code. */
  ghost predicate Chained(o: Oat, l: Layout)
    requires Parts(o, l)
  {
    && Start(l.dexEntries) == |o.header|
    && Start(l.dex) == Last(l.dexEntries)
    && Start(l.classes) == Last(l.dex)
    && Start(l.gc) == Last(l.classes)
    && Start(l.mapping) == Last(l.gc)
    && Start(l.vmap) == Last(l.mapping)
    && l.executable == RoundUp(Last(l.vmap), PAGE_SIZE)
    && Start(l.trampolines) == l.executable
    && Start(l.code) == Last(l.trampolines)
  }

  /** Every input has a layout, and only one: see LayoutUnique. */
  ghost function LayoutOf(o: Oat): (l: Layout)
    ensures Parts(o, l) && Chained(o, l)
  {
    var dexEntries := Listing(DexEntrySizes(o), 1, |o.header|);
    var dex := Listing(Lengths(DexBlobs(o)), 4, Last(dexEntries));
    var classes := Listing(ClassSizes(o), 1, Last(dex));
    var gc := MapsFrom(o, GcMap, Last(classes));
    var mapping := MapsFrom(o, MappingTable, Last(gc));
    var vmap := MapsFrom(o, VmapTable, Last(mapping));
    var executable := RoundUp(Last(vmap), PAGE_SIZE);
    var trampolines := Listing(Lengths(o.trampolines), Alignment(o.isa), executable);
    Layout(dexEntries, dex, classes, gc, mapping, vmap, executable, trampolines, CodesFrom(o, Last(trampolines)))
  }

  lemma {:induction false} LayoutUnique(o: Oat, l: Layout, l': Layout)
    requires Parts(o, l) && Chained(o, l) && Parts(o, l') && Chained(o, l')
    ensures l == l'
  {
    PlanUnique(l.dexEntries, l'.dexEntries);
    PlanUnique(l.dex, l'.dex);
    PlanUnique(l.classes, l'.classes);
    PlanUnique(l.gc, l'.gc);
    PlanUnique(l.mapping, l'.mapping);
    PlanUnique(l.vmap, l'.vmap);
    PlanUnique(l.trampolines, l'.trampolines);
    PlanUnique(l.code, l'.code);
  }

  function ClassDefs(dexFiles: seq<DexFile>): nat {
    if dexFiles == [] then 0
    else ClassDefs(dexFiles[..|dexFiles| - 1]) + dexFiles[|dexFiles| - 1].numClassDefs
  }

  /**
   What the checks of OatWriter demand: the header OatHeader::Create makes, no empty code, dex files with
   headers, one class per class def, 32-bit offsets.
   */
  ghost predicate Good(o: Oat, l: Layout) {
    && Parts(o, l)
    && Chained(o, l)
    && HasOatHeader(o)
    && o.methods == Visited(o.classes)
    && (forall i :: 0 <= i < |o.methods| ==> BytesAt(o, o.methods[i].code) != [])
    && (forall d :: 0 <= d < |o.dexFiles| ==> HasHeader(o.dexFiles[d]))
    && ClassDefs(o.dexFiles) == |o.classes|
    && Last(l.code) < TWO_32
  }

  // ----- final values -----

  /** Address of the code of method i: just behind its header. */
  ghost function CodeAt(p: Plan<CodeKey>, i: nat): nat
    requires i < |p.places|
  {
    p.places[i] + HEADER_SIZE
  }

  /** A map is found by going back from the code; no map is recorded as 0. */
  ghost function MapDistance(l: Layout, kind: MapKind, i: nat): int
    requires i < |l.code.places| && i < |MapPlan(l, kind).places| && i < |MapPlan(l, kind).sizes|
  {
    if MapPlan(l, kind).sizes[i] == 0 then 0 else CodeAt(l.code, i) - MapPlan(l, kind).places[i]
  }

  ghost function FinalHeader(o: Oat, l: Layout, i: nat): Header
    requires Parts(o, l) && i < |o.methods|
  {
    var m := o.methods[i];
    Header(U32(MapDistance(l, MappingTable, i)), U32(MapDistance(l, VmapTable, i)), U32(MapDistance(l, GcMap, i)),
           m.frameSize, m.coreSpill, m.fpSpill, U32(|BytesAt(o, m.code)|))
  }

  function HeaderBytes(h: Header): (b: seq<byte>)
    ensures |b| == HEADER_SIZE
  {
    Words([h.mapping, h.vmap, h.gc, h.frameSize, h.coreSpill, h.fpSpill, h.codeSize])
  }

  ghost function CodeBlob(o: Oat, l: Layout, i: nat): (b: seq<byte>)
    requires Parts(o, l) && i < |o.methods|
    ensures |b| == CodeSizes(o)[i]
  {
    HeaderBytes(FinalHeader(o, l, i)) + BytesAt(o, o.methods[i].code)
  }

  ghost function CodeBlobs(o: Oat, l: Layout): (b: seq<seq<byte>>)
    requires Parts(o, l)
    ensures Fitting(l.code, b)
    ensures forall i :: 0 <= i < |b| ==> b[i] == CodeBlob(o, l, i)
  {
    seq(|o.methods|, i requires 0 <= i < |o.methods| => CodeBlob(o, l, i))
  }

  /** The number with the given bits, lowest first. */
  function BitsValue(bits: seq<bool>): (r: nat)
    ensures r < Pow2(|bits|)
  {
    if bits == [] then 0 else (if bits[0] then 1 else 0) + 2 * BitsValue(bits[1..])
  }

  /** Which of n methods are compiled. */
  function Flags(methods: seq<Option<CompiledMethod>>, start: nat, n: nat): (bits: seq<bool>)
    ensures |bits| == n
  {
    seq(n, i requires 0 <= i => start + i < |methods| && methods[start + i].Some?)
  }

  /** Byte j of the bitmap is about methods 8 * j to 8 * j + 7. */
  function BitmapByte(methods: seq<Option<CompiledMethod>>, j: nat): byte {
    Pow2Eight();
    BitsValue(Flags(methods, 8 * j, 8))
  }

  function Bitmap(c: OatClass): (b: seq<byte>)
    ensures |b| == BitmapSize(c)
    ensures forall j :: 0 <= j < |b| ==> b[j] == BitmapByte(c.methods, j)
  {
    seq(BitmapSize(c), j requires 0 <= j < BitmapSize(c) => BitmapByte(c.methods, j))
  }

  /** code_offset_ of every method */
  ghost function FinalOffsets(o: Oat, p: Plan<CodeKey>): (s: seq<nat>)
    requires CodePart(o, p)
    ensures |s| == |o.methods|
    ensures forall i :: 0 <= i < |s| ==> s[i] == CodeAt(p, i) + CodeDelta(o.isa)
  {
    seq(|o.methods|, i requires 0 <= i < |o.methods| => CodeAt(p, i) + CodeDelta(o.isa))
  }

  /** Number of compiled methods before class c. */
  function ClassBase(o: Oat, c: nat): nat
    requires c <= |o.classes|
  {
    |Visited(o.classes[..c])|
  }

  lemma {:induction false} VisitedPrefix(classes: seq<OatClass>, c: nat)
    requires c <= |classes|
    ensures Visited(classes[..c]) <= Visited(classes)
    decreases |classes|
  {
    if c < |classes| {
      VisitedPrefix(classes[..|classes| - 1], c);
      assert classes[..|classes| - 1][..c] == classes[..c];
    } else {
      assert classes[..c] == classes;
    }
  }

  /** The compiled methods of class c are consecutive in visiting order. */
  lemma {:induction false} ClassMethods(o: Oat, c: nat)
    requires o.methods == Visited(o.classes) && c < |o.classes|
    ensures ClassBase(o, c + 1) == ClassBase(o, c) + |Compiled(o.classes[c].methods)| <= |o.methods|
    ensures o.methods[ClassBase(o, c)..ClassBase(o, c + 1)] == Compiled(o.classes[c].methods)
  {
    VisitedPrefix(o.classes, c + 1);
    assert o.classes[..c + 1][..c] == o.classes[..c];
  }

  function ClassPrefix(c: OatClass): (b: seq<byte>)
    ensures |b| == ClassSize(c) - 4 * |Compiled(c.methods)|
  {
    Le16(c.status) + Le16(ClassType(c)) + if BitmapSize(c) == 0 then [] else Le32(U32(BitmapSize(c))) + Bitmap(c)
  }

  /** DexBase(o, d) is the class index of the first class of dex file d. */
  function DexBase(o: Oat, d: nat): nat
    requires d <= |o.dexFiles|
  {
    ClassDefs(o.dexFiles[..d])
  }

  lemma {:induction false} ClassDefsPrefix(ds: seq<DexFile>, d: nat)
    requires d < |ds|
    ensures ClassDefs(ds[..d]) + ds[d].numClassDefs <= ClassDefs(ds)
    ensures ClassDefs(ds[..d + 1]) == ClassDefs(ds[..d]) + ds[d].numClassDefs
    decreases |ds|
  {
    assert ds[..d + 1][..d] == ds[..d];
    if d < |ds| - 1 {
      ClassDefsPrefix(ds[..|ds| - 1], d);
      assert ds[..|ds| - 1][..d] == ds[..d];
    } else {
      assert ds[..d + 1] == ds;
    }
  }

  /** The part of a list of code offsets that belongs to class c. */
  function OfClass(o: Oat, offsets: seq<nat>, c: nat): (r: seq<nat>)
    requires o.methods == Visited(o.classes) && |offsets| == |o.methods| && c < |o.classes|
    ensures |r| == |Compiled(o.classes[c].methods)|
  {
    ClassMethods(o, c);
    offsets[ClassBase(o, c)..ClassBase(o, c + 1)]
  }

  /** OatClass::Write, given the code offsets of the class's compiled methods */
  function ClassBytes(c: OatClass, offsets: seq<nat>): (b: seq<byte>)
    ensures |b| == ClassSize(c) - 4 * |Compiled(c.methods)| + 4 * |offsets|
  {
    ClassPrefix(c) + Words(offsets)
  }

  ghost function ClassBlob(o: Oat, p: Plan<CodeKey>, c: nat): (b: seq<byte>)
    requires CodePart(o, p) && o.methods == Visited(o.classes) && c < |o.classes|
    ensures |b| == ClassSizes(o)[c]
  {
    ClassBytes(o.classes[c], OfClass(o, FinalOffsets(o, p), c))
  }

  ghost function ClassBlobs(o: Oat, p: Plan<CodeKey>): (b: seq<seq<byte>>)
    requires CodePart(o, p) && o.methods == Visited(o.classes)
    ensures |b| == |o.classes|
    ensures forall i :: 0 <= i < |b| ==> |b[i]| == ClassSizes(o)[i] && b[i] == ClassBlob(o, p, i)
  {
    seq(|o.classes|, i requires 0 <= i < |o.classes| => ClassBlob(o, p, i))
  }

  /** The part of a list of class offsets that belongs to dex file d. */
  function OfDexFile(o: Oat, offsets: seq<nat>, d: nat): (r: seq<nat>)
    requires |offsets| == ClassDefs(o.dexFiles) && d < |o.dexFiles|
    ensures |r| == o.dexFiles[d].numClassDefs
  {
    ClassDefsPrefix(o.dexFiles, d);
    offsets[DexBase(o, d)..DexBase(o, d + 1)]
  }

  /** OatDexFile::Write, given where the dex file and its classes are */
  function DexEntryBytes(dex: DexFile, dexOffset: nat, classOffsets: seq<nat>): (b: seq<byte>)
    ensures |b| == 12 + |dex.location| + 4 * |classOffsets|
  {
    Le32(U32(|dex.location|)) + dex.location + Le32(dex.checksum) + Le32(U32(dexOffset)) + Words(classOffsets)
  }

  ghost function DexEntryBlob(o: Oat, l: Layout, d: nat): (b: seq<byte>)
    requires Parts(o, l) && ClassDefs(o.dexFiles) == |o.classes| && d < |o.dexFiles|
    ensures |b| == DexEntrySizes(o)[d]
  {
    DexEntryBytes(o.dexFiles[d], l.dex.places[d], OfDexFile(o, l.classes.places, d))
  }

  ghost function DexEntryBlobs(o: Oat, l: Layout): (b: seq<seq<byte>>)
    requires Parts(o, l) && ClassDefs(o.dexFiles) == |o.classes|
    ensures |b| == |o.dexFiles|
    ensures forall i :: 0 <= i < |b| ==> |b[i]| == DexEntrySizes(o)[i] && b[i] == DexEntryBlob(o, l, i)
  {
    seq(|o.dexFiles|, i requires 0 <= i < |o.dexFiles| => DexEntryBlob(o, l, i))
  }

  // ----- facts about the layout -----

  lemma {:induction false} MapRange(o: Oat, kind: MapKind, p: Plan<Ptr>, i: nat)
    requires MapPart(o, kind, p) && i < |o.methods|
    ensures Start(p) <= p.places[i] && p.places[i] + p.sizes[i] <= Last(p)
  {
    PlaceBounds(p, i, |o.methods|);
  }

  lemma {:induction false} CodeRange(o: Oat, p: Plan<CodeKey>, i: nat)
    requires CodePart(o, p) && i < |o.methods|
    ensures Start(p) + HEADER_SIZE <= CodeAt(p, i)
    ensures CodeAt(p, i) + |BytesAt(o, o.methods[i].code)| <= Last(p)
    ensures CodeAt(p, i) % 2 == 0
  {
    PlaceBounds(p, i, |o.methods|);
    CodeEven(p, i);
  }

  lemma {:induction false} CodeEven(p: Plan<CodeKey>, i: nat)
    requires Ok(p) && (p.align == 8 || p.align == 16) && i < |p.keys|
    ensures CodeAt(p, i) % 2 == 0
  {
    assert Step(p, i);
    EvenMultiple(p.places[i], p.align);
  }

  lemma {:induction false} PlanGrows<K>(p: Plan<K>)
    requires Ok(p)
    ensures Start(p) <= Last(p)
  {
    EndsGrow(p, 0, |p.keys|);
  }

  /** The parts follow one another. */
  lemma {:induction false} PartOrder(o: Oat, l: Layout)
    requires Parts(o, l) && Chained(o, l)
    ensures |o.header| == Start(l.dexEntries) <= Start(l.dex) <= Start(l.classes) <= Start(l.gc)
    ensures Start(l.gc) <= Last(l.gc) == Start(l.mapping) <= Last(l.mapping) == Start(l.vmap) <= Last(l.vmap)
    ensures Last(l.vmap) <= l.executable == Start(l.trampolines) <= Start(l.code) <= Last(l.code)
  {
    PlanGrows(l.dexEntries);
    PlanGrows(l.dex);
    PlanGrows(l.classes);
    PlanGrows(l.gc);
    PlanGrows(l.mapping);
    PlanGrows(l.vmap);
    PlanGrows(l.trampolines);
    PlanGrows(l.code);
  }

  /** A map lies before all code, and code is within the file. */
  lemma {:induction false} MapBeforeCode(o: Oat, l: Layout, kind: MapKind, i: nat)
    requires Good(o, l) && i < |o.methods|
    ensures 0 < MapPlan(l, kind).places[i] < CodeAt(l.code, i)
    ensures CodeAt(l.code, i) + CodeDelta(o.isa) < TWO_32
    ensures CodeAt(l.code, i) % 2 == 0
  {
    PartOrder(o, l);
    MapRange(o, kind, MapPlan(l, kind), i);
    CodeRange(o, l.code, i);
    assert BytesAt(o, o.methods[i].code) != [];
  }

  function ClearLow(x: nat): nat {
    x - x % 2
  }

  /**
   The distance from a place back to it is stored modulo 2^32: going back by it from an entry point
   (low bit cleared) finds the place, and 0 - place becomes that distance when the code is known.
   */
  lemma {:induction false} Distance(code: nat, delta: nat, place: nat)
    requires 0 < place < code && code + delta < TWO_32 && delta <= 1 && code % 2 == 0
    ensures U32(code - place) == code - place
    ensures ClearLow(code + delta) == code
    ensures U32(code - (code - place)) == place
    ensures U32(0 - place) != 0 && U32(U32(0 - place) + code) == code - place
  {
    assert U32(0 - place) == TWO_32 - place;
    assert TWO_32 - place + code == TWO_32 + (code - place);
  }

  /** GetOffset of the DataAccess structures: back from the code, or 0 if nothing is recorded. */
  function GetOffset(field: uint32, codeOffset: nat): uint32 {
    if field == 0 then 0 else U32(ClearLow(codeOffset) - field)
  }

  /** Recorded modulo 2^32 before the code had a place and corrected later, the offset reads back. */
  lemma {:induction false} OffsetBack(code: nat, delta: nat, place: nat, empty: bool)
    requires 0 < place < code && code + delta < TWO_32 && delta <= 1 && code % 2 == 0
    ensures GetOffset(if empty then 0 else U32(code - place), code + delta) == if empty then 0 else place
  {
    Distance(code, delta, place);
  }

  /**
   The comparison the writing pass makes on code offsets singles out first occurrences. A repeated
   Thumb2 method of one byte has its odd entry point just where an unaligned offset could be, so
   this depends on the alignment being even.
   */
  lemma {:induction false} CodeWriteTest(o: Oat, p: Plan<CodeKey>, i: nat)
    requires CodePart(o, p) && i < |o.methods| && BytesAt(o, o.methods[i].code) != []
    ensures CodeAt(p, i) + CodeDelta(o.isa) >= RoundUp(p.ends[i], p.align) <==> p.firsts[i] == i
    ensures p.firsts[i] == i ==> CodeAt(p, i) == RoundUp(p.ends[i], p.align) + HEADER_SIZE
  {
    RepeatBelow(p, i);
    EvenMultiple(RoundUp(p.ends[i], p.align), p.align);
    CodeRange(o, p, i);
  }

  /** The comparator is a strict order whose ties are exactly equal keys, so the lookup is by key. */
  lemma {:induction false} KeyOrder(a: CompiledMethod, b: CompiledMethod, c: CompiledMethod)
    ensures !KeyLess(a, b) && !KeyLess(b, a) <==> KeyOf(a) == KeyOf(b)
    ensures KeyLess(a, b) ==> !KeyLess(b, a)
    ensures KeyLess(a, b) && KeyLess(b, c) ==> KeyLess(a, c)
  {
  }
}
