/**
 A loss in the class table. The position check behind the tables takes whatever position it finds, and from there
 on only the offset of the code decides: if there are no maps and no trampolines, and fewer bytes are missing than
 the alignment of the code makes up for, Write succeeds.
 */
module OatHidden {
  import opened Wrappers
  import opened Bytes
  import opened Streams
  import opened StreamRuns
  import opened DedupLayout
  import opened OatFormat
  import opened OatPasses
  import opened OatCalls
  import opened OatTables
  import opened OatRoundTrip
  import opened OatTorn

  // ----- the calls for the classes -----

  lemma {:induction false} ClassTotal(c: OatClass, offsets: seq<nat>)
    ensures TotalBytes(ClassCalls(c, offsets)) == |ClassBytes(c, offsets)|
  {
    var ops := ClassCalls(c, offsets);
    if BitmapSize(c) != 0 {
      assert ops == [ops[0]] + ([ops[1]] + ([ops[2]] + ([ops[3]] + [ops[4]])));
      TotalSplit([ops[0]], [ops[1]] + ([ops[2]] + ([ops[3]] + [ops[4]])));
      TotalSplit([ops[1]], [ops[2]] + ([ops[3]] + [ops[4]]));
      TotalSplit([ops[2]], [ops[3]] + [ops[4]]);
      TotalSplit([ops[3]], [ops[4]]);
    } else {
      TotalSplit([ops[0]], [ops[1]] + [ops[2]]);
      TotalSplit([ops[1]], [ops[2]]);
    }
    assert forall i :: 0 <= i < |ops| ==> TotalBytes([ops[i]]) == |ops[i].bytes|;
  }

  lemma {:induction false} ClassesTotalTo(o: Oat, l: Layout, n: nat)
    requires Good(o, l) && n <= |o.classes|
    ensures TotalBytes(Flat(ClassGroups(o, l.code)[..n])) == l.classes.ends[n] - Start(l.classes)
    decreases n
  {
    if n > 0 {
      var groups, c := ClassGroups(o, l.code), n - 1;
      ClassesTotalTo(o, l, c);
      FlatStep(groups, c);
      TotalSplit(Flat(groups[..c]), groups[c]);
      ClassTotal(o.classes[c], OfClass(o, FinalOffsets(o, l.code), c));
      RepeatBelow(l.classes, c);
    }
  }

  lemma {:induction false} ClassesAreWrites(o: Oat, l: Layout)
    requires Good(o, l)
    ensures AllWrites(Flat(ClassGroups(o, l.code)))
  {
    var groups := ClassGroups(o, l.code);
    forall c | 0 <= c < |groups| ensures AllWrites(groups[c]) {
      ClassWrites(o.classes[c], OfClass(o, FinalOffsets(o, l.code), c));
    }
    FlatWrites(groups);
  }

  lemma {:induction false} ClassesTotal(o: Oat, l: Layout)
    requires Good(o, l)
    ensures TotalBytes(Flat(ClassGroups(o, l.code))) == Last(l.classes) - Start(l.classes)
  {
    var groups := ClassGroups(o, l.code);
    ClassesTotalTo(o, l, |groups|);
    assert groups[..|groups|] == groups;
  }

  // ----- the calls in front of them, none of which fails -----

  lemma {:induction false} HeadGranted(o: Oat, l: Layout, base: nat, b: Buffered, rest: seq<bool>)
    requires Good(o, l) && b.pending == [] && View(b).pos == base
    requires b.sink.faults == Granted(Demands(0, HeadCalls(o, l)).0, rest)
    ensures var head := Attempt(b, HeadCalls(o, l));
      && head.1 && head.0.sink.faults == rest && |head.0.pending| == Demands(0, HeadCalls(o, l)).1
      && View(head.0).pos == base + Start(l.dex)
      && OnlyWithin(View(b).data, View(head.0).data, base, base + Start(l.dex))
  {
    HeadWrites(o, l);
    AttemptGranted(b, HeadCalls(o, l), rest);
    HeadTried(o, l, base, b);
    HeaderDone(o, base, View(b));
    PartOrder(o, l);
  }

  lemma {:induction false} DexPlain(o: Oat, p: Plan<nat>, base: nat)
    requires |p.places| == |o.dexFiles|
    ensures AllPlain(Flat(DexGroups(o, p, base)))
  {
    FlatPlain(DexGroups(o, p, base));
  }

  lemma {:induction false} DexGranted(o: Oat, l: Layout, base: nat, b: Buffered, rest: seq<bool>)
    requires Good(o, l) && View(b).pos == base + Start(l.dex)
    requires b.sink.faults == Granted(Demands(|b.pending|, Flat(DexGroups(o, l.dex, base))).0, rest)
    ensures var d := Attempt(b, Flat(DexGroups(o, l.dex, base)));
      && d.1 && d.0.sink.faults == rest && |d.0.pending| == Demands(|b.pending|, Flat(DexGroups(o, l.dex, base))).1
      && View(d.0).pos == base + Start(l.classes)
      && OnlyWithin(View(b).data, View(d.0).data, base + Start(l.dex), base + Start(l.classes))
  {
    DexPlain(o, l.dex, base);
    AttemptGranted(b, Flat(DexGroups(o, l.dex, base)), rest);
    AllDexTried(o, l, base, b);
  }

  // ----- a torn class -----

  /** What the calls in front of the classes demand, and what they leave pending. */
  ghost function Before(o: Oat, l: Layout, base: nat): (nat, nat, nat)
    requires Good(o, l)
  {
    var (w1, n1) := Demands(0, HeadCalls(o, l));
    var (w2, n2) := Demands(n1, Flat(DexGroups(o, l.dex, base)));
    (w1, w2, n2)
  }

  /** How many bytes are pending in front of call k for the classes. */
  ghost function Missing(o: Oat, l: Layout, base: nat, k: nat): nat
    requires Good(o, l) && k <= |Flat(ClassGroups(o, l.code))|
  {
    Demands(Before(o, l, base).2, Flat(ClassGroups(o, l.code))[..k]).1
  }

  /** Every write succeeds but the one that flushes the buffer in front of call k for the classes. */
  ghost function RefusedAt(o: Oat, l: Layout, base: nat, k: nat): seq<bool>
    requires Good(o, l) && k <= |Flat(ClassGroups(o, l.code))|
  {
    var (w1, w2, n) := Before(o, l, base);
    Granted(w1, Granted(w2, Granted(Demands(n, Flat(ClassGroups(o, l.code))[..k]).0, [true])))
  }

  /** A sink that refuses the flush in front of an oversized piece of a class, whose loss the code then hides. */
  ghost predicate Hides(o: Oat, l: Layout, s: Sink, k: nat) {
    && Good(o, l) && Tearable(Flat(ClassGroups(o, l.code)), k)
    && s.faults == RefusedAt(o, l, s.content.pos, k)
    && Missing(o, l, s.content.pos, k) <= l.executable - Last(l.vmap)
    && Missing(o, l, s.content.pos, k) <= Last(l.classes)
    && Absorbs(o, l, Last(l.classes) - Missing(o, l, s.content.pos, k))
    && !EndsWith(s.content.data, s.content.pos, Last(l.classes), ClassBlobs(o, l.code))
  }

  lemma {:induction false} TornClasses(b: Buffered, ops: seq<Op>, k: nat, base: nat, end: nat, blobs: seq<seq<byte>>)
    requires AllWrites(ops) && Tearable(ops, k) && b.sink.faults == Granted(Demands(|b.pending|, ops[..k]).0, [true])
    requires 0 < TotalBytes(ops) && View(b).pos + TotalBytes(ops) == base + end && 0 < end
    requires !EndsWith(View(b).data, base, end, blobs)
    ensures Faultless(Attempt(b, ops))
    ensures View(Attempt(b, ops).0).pos + Demands(|b.pending|, ops[..k]).1 == base + end
    ensures !EndsWith(View(Attempt(b, ops).0).data, base, end, blobs)
  {
    var at := base + end - 1;
    PutAt(b.sink.content, b.pending);
    assert At(View(b).data, at) == At(b.sink.content.data, at);
    TornRun(b, ops, k, at, At(b.sink.content.data, at));
    StillOther(View(b).data, View(Attempt(b, ops).0).data, base, end, blobs);
  }

  lemma {:induction false} TearableTotal(ops: seq<Op>, k: nat)
    requires Tearable(ops, k)
    ensures TotalBytes(ops) > 0
  {
    assert ops == ops[..k] + ops[k..];
    TotalSplit(ops[..k], ops[k..]);
  }

  /** Where the run stands behind the tables, and what it has left in front of the maps. */
  lemma {:induction false} HiddenFrom(o: Oat, l: Layout, s: Sink, k: nat, b: Buffered)
    requires Hides(o, l, s, k) && b.pending == [] && b.sink.faults == s.faults && View(b).pos == s.content.pos
    requires OnlyWithin(s.content.data, View(b).data, 0, 0)
    ensures var run := TablesFrom(o, l, s.content.pos, b);
      && Faultless(run) && View(run.0).pos + Missing(o, l, s.content.pos, k) == s.content.pos + Last(l.classes)
      && !EndsWith(View(run.0).data, s.content.pos, Last(l.classes), ClassBlobs(o, l.code))
  {
    var base, ops, blobs := s.content.pos, Flat(ClassGroups(o, l.code)), ClassBlobs(o, l.code);
    var (w1, w2, n) := Before(o, l, base);
    var w3 := Demands(n, ops[..k]).0;
    HeadGranted(o, l, base, b, Granted(w2, Granted(w3, [true])));
    var head := Attempt(b, HeadCalls(o, l));
    DexGranted(o, l, base, head.0, Granted(w3, [true]));
    var d := Attempt(head.0, Flat(DexGroups(o, l.dex, base)));
    AttemptSplit(head.0, Flat(DexGroups(o, l.dex, base)), ops);
    ClassesAreWrites(o, l);
    ClassesTotal(o, l);
    TearableTotal(ops, k);
    PartOrder(o, l);
    Untouching(s.content.data, View(b).data, View(head.0).data, View(d.0).data, base, Start(l.dex), Start(l.classes),
               Last(l.classes), blobs);
    TornClasses(d.0, ops, k, base, Last(l.classes), blobs);
  }

  lemma {:induction false} Untouching(d0: seq<byte>, d1: seq<byte>, d2: seq<byte>, d3: seq<byte>, base: nat, x: nat,
                                      y: nat, end: nat, blobs: seq<seq<byte>>)
    requires OnlyWithin(d0, d1, 0, 0) && OnlyWithin(d1, d2, base, base + x) && OnlyWithin(d2, d3, base + x, base + y)
    requires x <= y < end && !EndsWith(d0, base, end, blobs)
    ensures !EndsWith(d3, base, end, blobs)
  {
    StillOther(d0, d3, base, end, blobs);
  }

  lemma {:induction false} HiddenAt(o: Oat, l: Layout, base: nat, e: (Buffered, bool), relative: nat)
    requires Faultless(e) && View(e.0).pos == base + relative && Absorbs(o, l, relative) && relative <= Last(l.classes)
    ensures Hidden(o, l, base, e)
  {
    assert View(e.0).pos - base == relative;
  }

  /** The stream after the position check at the start. */
  lemma {:induction false} Checked(s: Sink) returns (b: Buffered)
    ensures b == BufSeek(Buffered(s, []), 0, SeekCurrent).0 && b.pending == [] && b.sink.faults == s.faults
    ensures View(b).pos == s.content.pos && OnlyWithin(s.content.data, View(b).data, 0, 0)
  {
    AfterCheck(Buffered(s, []));
    b := BufSeek(Buffered(s, []), 0, SeekCurrent).0;
  }

  lemma {:induction false} HiddenRun(o: Oat, l: Layout, s: Sink, k: nat)
    requires Hides(o, l, s, k)
    ensures var run := TableRun(o, l, Buffered(s, []));
      && Hidden(o, l, s.content.pos, run)
      && s.content.pos + Last(l.classes) <= View(run.0).pos + (l.executable - Last(l.vmap))
      && !EndsWith(View(run.0).data, s.content.pos, Last(l.classes), ClassBlobs(o, l.code))
  {
    var b := Checked(s);
    var run := TablesFrom(o, l, s.content.pos, b);
    var missing := Missing(o, l, s.content.pos, k);
    HiddenFrom(o, l, s, k, b);
    HiddenAt(o, l, s.content.pos, run, Last(l.classes) - missing);
    assert TableRun(o, l, Buffered(s, [])) == run;
  }

  lemma {:induction false} ClassesEnd(o: Oat, l: Layout)
    requires Good(o, l) && o.classes != []
    ensures var blobs := ClassBlobs(o, l.code); |blobs| > 0 && blobs[|blobs| - 1] != [] && Last(l.classes) > 0
  {
    PartOrder(o, l);
    PlanGrows(l.classes);
  }

  lemma {:induction false} HiddenIncomplete(o: Oat, l: Layout, base: nat, d: seq<byte>, d': seq<byte>, lo: nat, hi: nat)
    requires Good(o, l) && o.classes != [] && !EndsWith(d, base, Last(l.classes), ClassBlobs(o, l.code))
    requires OnlyWithin(d, d', lo, hi) && base + Last(l.classes) <= lo
    ensures !Complete(d', base, o, l)
  {
    ClassesEnd(o, l);
    TableBlobs(o, l);
    StillOther(d, d', base, Last(l.classes), ClassBlobs(o, l.code));
    if Complete(d', base, o, l) {
      WrittenEnd(d', base, l.classes, ClassBlobs(o, l.code));
    }
  }

  /** One write to the sink fails, and Write returns true for a file whose class table is not complete. */
  method WriteHidden(o: Oat, ghost l: Layout, s: Sink, ghost k: nat) returns (ok: bool, file: seq<byte>)
    requires Hides(o, l, s, k) && s.content.pos + Last(l.code) < TWO_32
    ensures ok && !Complete(file, s.content.pos, o, l)
  {
    HiddenRun(o, l, s, k);
    ClassNeeded(o, l, k);
    var out := new BufferedOutputStream(s);
    ghost var run := TableRun(o, l, out.State());
    ok := WriteOat(o, l, out);
    file := out.sink.content.data;
    HiddenIncomplete(o, l, s.content.pos, View(run.0).data, file,
                     View(run.0).pos + (l.executable - Last(l.vmap)), s.content.pos + Last(l.code));
  }

  lemma {:induction false} ClassNeeded(o: Oat, l: Layout, k: nat)
    requires Good(o, l) && Tearable(Flat(ClassGroups(o, l.code)), k)
    ensures o.classes != []
  {
  }

  // ----- an input -----

  const METHOD_COUNT: nat := 2049

  const STUB: CompiledMethod := CompiledMethod(0, 1, 1, 1, 0, 0, 0)

  /** A class all of whose methods share one stub without maps. */
  function Stubs(n: nat): (c: OatClass)
    ensures |c.methods| == n && forall i :: 0 <= i < n ==> c.methods[i] == Some(STUB)
  {
    OatClass(0, seq(n, _ => Some(STUB)))
  }

  function LargeDex(): (d: DexFile)
    ensures HasHeader(d) && d.numClassDefs == 1 && |d.location| == 1 && |d.bytes| == 8300
  {
    var bytes := Zeros(96) + Le32(1) + Zeros(8200);
    assert bytes[96..100] == Le32(1);
    DexFile([47], 0, bytes, 1)
  }

  function PlainHeader(): (h: seq<byte>)
    ensures |h| == OAT_HEADER_SIZE && h[DEX_FILE_COUNT..DEX_FILE_COUNT + 4] == Le32(1)
    ensures h[KEY_VALUE_STORE_SIZE..KEY_VALUE_STORE_SIZE + 4] == Le32(0)
  {
    Zeros(20) + Le32(1) + Zeros(56) + Le32(0)
  }

  /** One dex file with one class of n stubs. */
  function Input(n: nat): Oat {
    Oat(Arm, PlainHeader(), [LargeDex()], [Stubs(n)], Compiled(Stubs(n).methods), [], [[0]])
  }

  lemma {:induction false} StubsCompiled(methods: seq<Option<CompiledMethod>>)
    requires forall i :: 0 <= i < |methods| ==> methods[i] == Some(STUB)
    ensures |Compiled(methods)| == |methods| && forall i :: 0 <= i < |methods| ==> Compiled(methods)[i] == STUB
    decreases |methods|
  {
    if methods != [] {
      StubsCompiled(methods[..|methods| - 1]);
    }
  }

  lemma {:induction false} InputMethods(o: Oat, n: nat)
    requires o == Input(n)
    ensures o.methods == Visited(o.classes) && |o.methods| == n
    ensures forall i :: 0 <= i < n ==> o.methods[i] == STUB
    ensures ClassDefs(o.dexFiles) == 1 && NoMapsAtAll(o)
  {
    StubsCompiled(o.classes[0].methods);
    assert o.classes[..0] == [];
    assert Visited(o.classes[..0]) == [];
    assert o.dexFiles[..0] == [];
  }

  /** A plan takes no more room than its items and their alignment. */
  lemma {:induction false} EndsBound<K>(p: Plan<K>, size: nat, n: nat)
    requires Ok(p) && n <= |p.keys| && forall i :: 0 <= i < |p.sizes| ==> p.sizes[i] + p.align <= size
    ensures p.ends[n] <= Start(p) + n * size
    decreases n
  {
    if n > 0 {
      EndsBound(p, size, n - 1);
      assert Step(p, n - 1);
      assert n * size == (n - 1) * size + size;
    }
  }

  /** Maps without bytes take no room. */
  lemma {:induction false} NoMapsEnd(o: Oat, kind: MapKind, p: Plan<Ptr>, n: nat)
    requires MapPart(o, kind, p) && NoMaps(o, kind) && n <= |o.methods|
    ensures p.ends[n] == Start(p)
    decreases n
  {
    if n > 0 {
      NoMapsEnd(o, kind, p, n - 1);
      RepeatBelow(p, n - 1);
    }
  }

  /** A list of one item ends behind it. */
  lemma {:induction false} OneItem(p: Plan<nat>, sizes: seq<nat>, align: nat)
    requires align > 0 && ListPart(p, sizes, align) && |sizes| == 1
    ensures Start(p) <= Last(p) - sizes[0] < Start(p) + align && (Last(p) - sizes[0]) % align == 0
  {
    RepeatBelow(p, 0);
    AlignedMod(p.places[0], align);
  }

  lemma {:induction false} DexEnd(o: Oat, l: Layout, n: nat)
    requires o == Input(n) && Parts(o, l) && Chained(o, l)
    ensures Last(l.dex) == 8404
  {
    OneItem(l.dexEntries, DexEntrySizes(o), 1);
    OneItem(l.dex, Lengths(DexBlobs(o)), 4);
  }

  lemma {:induction false} TableEnds(o: Oat, l: Layout, n: nat)
    requires o == Input(n) && Parts(o, l) && Chained(o, l) && n > 0
    ensures Last(l.classes) == 8408 + 4 * n
  {
    DexEnd(o, l, n);
    StubsCompiled(o.classes[0].methods);
    assert ClassSizes(o)[0] == 4 + 4 * n;
    OneItem(l.classes, ClassSizes(o), 1);
  }

  lemma {:induction false} MapEnds(o: Oat, l: Layout, n: nat)
    requires o == Input(n) && Parts(o, l) && Chained(o, l)
    ensures Last(l.vmap) == Last(l.classes)
  {
    InputMethods(o, n);
    NoMapsEnd(o, GcMap, l.gc, n);
    NoMapsEnd(o, MappingTable, l.mapping, n);
    NoMapsEnd(o, VmapTable, l.vmap, n);
  }

  lemma {:induction false} InputEnds(o: Oat, l: Layout, n: nat)
    requires o == Input(n) && n == METHOD_COUNT && Parts(o, l) && Chained(o, l)
    ensures Last(l.classes) == Last(l.vmap) == 16604 && l.executable == 20480 && Last(l.code) < 200000
  {
    TableEnds(o, l, n);
    MapEnds(o, l, n);
    InputMethods(o, n);
    AlignedMod(l.executable, PAGE_SIZE);
    EndsBound(l.code, 37, n);
    assert |o.trampolines| == 0;
  }

  lemma {:induction false} InputIsGood(o: Oat, l: Layout, n: nat)
    requires o == Input(n) && n == METHOD_COUNT && Parts(o, l) && Chained(o, l)
    ensures Good(o, l)
  {
    InputMethods(o, n);
    InputEnds(o, l, n);
  }

  lemma {:induction false} LastDemand(n: nat, ops: seq<Op>, op: Op)
    ensures Demands(n, ops + [op]).1 == Demand(Demands(n, ops).1, op).1
    decreases |ops|
  {
    if ops == [] {
      assert ops + [op] == [op];
      assert [op][1..] == [];
    } else {
      assert (ops + [op])[1..] == ops[1..] + [op];
      LastDemand(Demand(n, ops[0]).1, ops[1..], op);
    }
  }

  /** Nothing is pending behind the dex file, and four bytes are when the offsets of the class come. */
  lemma {:induction false} FourMissing(o: Oat, l: Layout, n: nat, base: nat)
    requires o == Input(n) && Good(o, l) && n > BUFFER_SIZE / 4
    ensures Tearable(Flat(ClassGroups(o, l.code)), 2) && Missing(o, l, base, 2) == 4
  {
    var dex, classes := DexGroups(o, l.dex, base), ClassGroups(o, l.code);
    assert dex[..0] == [] && classes[..0] == [];
    assert Flat(dex[..0]) == [] && Flat(classes[..0]) == [];
    var seek, big := [SeekOp(base + l.dex.places[0], SeekSet)], WriteOp(o.dexFiles[0].bytes);
    assert Flat(dex) == seek + [big];
    LastDemand(Demands(0, HeadCalls(o, l)).1, seek, big);
    StubsCompiled(o.classes[0].methods);
    var calls := ClassCalls(o.classes[0], OfClass(o, FinalOffsets(o, l.code), 0));
    assert Flat(classes) == calls;
    var first, second := WriteOp(Le16(o.classes[0].status)), WriteOp(Le16(ClassType(o.classes[0])));
    assert calls[..2] == [first] + [second];
    LastDemand(0, [first], second);
    LastDemand(0, [], first);
    assert [] + [first] == [first];
  }

  lemma {:induction false} RoundsBack(x: nat, y: nat, align: nat)
    requires align == 8 && y % align == 0 && y - align < x <= y
    ensures RoundUp(x, align) == RoundUp(y, align)
  {
    AlignedMod(RoundUp(x, align), align);
    AlignedMod(RoundUp(y, align), align);
  }

  lemma {:induction false} InputAbsorbs(o: Oat, l: Layout, n: nat, relative: nat)
    requires o == Input(n) && n == METHOD_COUNT && Good(o, l) && relative + 4 == Last(l.classes)
    ensures Absorbs(o, l, relative)
  {
    InputEnds(o, l, n);
    InputMethods(o, n);
    RoundsBack(l.executable - 4, l.executable, Alignment(o.isa));
  }

  lemma {:induction false} InputHides(o: Oat, l: Layout, n: nat) returns (s: Sink)
    requires o == Input(n) && n == METHOD_COUNT && Parts(o, l) && Chained(o, l)
    ensures Hides(o, l, s, 2) && s.content.pos == 0 && Last(l.code) < TWO_32
  {
    InputIsGood(o, l, n);
    InputEnds(o, l, n);
    InputAbsorbs(o, l, n, Last(l.classes) - 4);
    FourMissing(o, l, n, 0);
    ClassesEnd(o, l);
    var file := OtherEnd(0, Last(l.classes), ClassBlobs(o, l.code));
    s := Sink(File, Content(file, 0), RefusedAt(o, l, 0, 2), 0);
  }
}
