/**
 Runs of OatWriter::Write that succeed although bytes of the file have been lost. An oversized piece of a dex
 file entry makes them possible for every input; an oversized piece of a class does if the alignment of the code
 hides the loss.
 */
module OatTorn {
  import opened Wrappers
  import opened Bytes
  import opened Streams
  import opened StreamRuns
  import opened DedupLayout
  import opened OatFormat
  import opened OatPasses
  import opened OatCalls
  import opened OatReader
  import opened OatTables
  import opened OatRoundTrip

  /** The byte that should end a list. */
  ghost predicate EndsWith(d: seq<byte>, base: nat, end: nat, blobs: seq<seq<byte>>) {
    && blobs != [] && blobs[|blobs| - 1] != [] && 0 < end
    && At(d, base + end - 1) == blobs[|blobs| - 1][|blobs[|blobs| - 1]| - 1]
  }

  lemma {:induction false} WrittenEnd(d: seq<byte>, base: nat, p: Plan<nat>, blobs: seq<seq<byte>>)
    requires Fitting(p, blobs) && p.firsts == Indices(|blobs|) && Written(d, base, p, blobs, |blobs|)
    requires blobs != [] && blobs[|blobs| - 1] != []
    ensures EndsWith(d, base, Last(p), blobs)
  {
    var i := |blobs| - 1;
    RepeatBelow(p, i);
    HeldItem(d, base, p, blobs, i);
    var bytes := blobs[i];
    assert At(d, base + p.places[i] + (|bytes| - 1)) == bytes[|bytes| - 1];
  }

  // ----- the header and the dex file entries -----

  lemma {:induction false} HeadWrites(o: Oat, l: Layout)
    requires Good(o, l)
    ensures AllWrites(HeadCalls(o, l))
  {
    var groups := EntryGroups(o, l);
    forall d | 0 <= d < |groups| ensures AllWrites(groups[d]) {
      EntryWrites(o.dexFiles[d], l.dex.places[d], OfDexFile(o, l.classes.places, d));
    }
    FlatWrites(groups);
  }

  lemma {:induction false} EntryBytes(dex: DexFile, dexOffset: nat, classOffsets: seq<nat>)
    ensures TotalBytes(EntryCalls(dex, dexOffset, classOffsets)) == 12 + |dex.location| + 4 * |classOffsets|
  {
    var c := EntryCalls(dex, dexOffset, classOffsets);
    assert c == [c[0]] + ([c[1]] + ([c[2]] + ([c[3]] + [c[4]])));
    TotalSplit([c[0]], [c[1]] + ([c[2]] + ([c[3]] + [c[4]])));
    TotalSplit([c[1]], [c[2]] + ([c[3]] + [c[4]]));
    TotalSplit([c[2]], [c[3]] + [c[4]]);
    TotalSplit([c[3]], [c[4]]);
    assert forall i :: 0 <= i < 5 ==> TotalBytes([c[i]]) == |c[i].bytes|;
  }

  lemma {:induction false} EntriesBytes(o: Oat, l: Layout, n: nat)
    requires Good(o, l) && n <= |o.dexFiles|
    ensures TotalBytes(Flat(EntryGroups(o, l)[..n])) == l.dexEntries.ends[n] - Start(l.dexEntries)
    decreases n
  {
    if n > 0 {
      var groups, d := EntryGroups(o, l), n - 1;
      EntriesBytes(o, l, d);
      FlatStep(groups, d);
      TotalSplit(Flat(groups[..d]), groups[d]);
      EntryBytes(o.dexFiles[d], l.dex.places[d], OfDexFile(o, l.classes.places, d));
      RepeatBelow(l.dexEntries, d);
    }
  }

  lemma {:induction false} HeadBytes(o: Oat, l: Layout)
    requires Good(o, l)
    ensures TotalBytes(HeadCalls(o, l)) == Start(l.dex)
  {
    var groups := EntryGroups(o, l);
    EntriesBytes(o, l, |groups|);
    assert groups[..|groups|] == groups;
    TotalSplit([WriteOp(o.header)], Flat(groups));
    assert TotalBytes([WriteOp(o.header)]) == |o.header|;
  }

  /** A sink that refuses the flush in front of call k, which is oversized, and has something else in the file. */
  ghost predicate Tears(o: Oat, l: Layout, s: Sink, k: nat) {
    && Good(o, l) && Tearable(HeadCalls(o, l), k)
    && s.faults == Granted(Demands(0, HeadCalls(o, l)[..k]).0, [true])
    && !EndsWith(s.content.data, s.content.pos, Start(l.dex), DexEntryBlobs(o, l))
  }

  /** What an oversized piece j of entry d comes to. */
  lemma {:induction false} PieceTears(o: Oat, l: Layout, d: nat, j: nat) returns (k: nat)
    requires Good(o, l) && d < |o.dexFiles| && (j == 1 || j == 4)
    requires j == 1 ==> |o.dexFiles[d].location| > BUFFER_SIZE
    requires j == 4 ==> 4 * o.dexFiles[d].numClassDefs > BUFFER_SIZE
    ensures Tearable(HeadCalls(o, l), k)
  {
    var groups := EntryGroups(o, l);
    var ops, before := Flat(groups), Flat(groups[..d]);
    FlatParts(groups, d);
    k := 1 + |before| + j;
    assert |groups[d]| == 5;
    assert ops[|before| + j] == (before + groups[d])[|before| + j] == groups[d][j];
    assert ops[|before| + j - 1] == (before + groups[d])[|before| + j - 1] == groups[d][j - 1];
    assert HeadCalls(o, l)[k] == groups[d][j] && HeadCalls(o, l)[k - 1] == groups[d][j - 1];
  }

  predicate SmallOps(ops: seq<Op>) {
    forall i :: 0 <= i < |ops| && ops[i].WriteOp? ==> |ops[i].bytes| <= BUFFER_SIZE
  }

  lemma {:induction false} FlatSmall(groups: seq<seq<Op>>)
    requires forall n :: 0 <= n < |groups| ==> SmallOps(groups[n])
    ensures SmallOps(Flat(groups))
    decreases |groups|
  {
    if groups != [] {
      FlatSmall(groups[..|groups| - 1]);
    }
  }

  lemma {:induction false} EntrySmall(dex: DexFile, dexOffset: nat, classOffsets: seq<nat>)
    requires SmallEntry(dex, classOffsets)
    ensures SmallOps(EntryCalls(dex, dexOffset, classOffsets))
  {
  }

  lemma {:induction false} BehindFirst(op: Op, ops: seq<Op>, k: nat)
    requires SmallOps(ops)
    ensures !Tearable([op] + ops, k)
  {
    assert 0 < k <= |ops| ==> ([op] + ops)[k] == ops[k - 1];
  }

  lemma {:induction false} SmallCannotTear(o: Oat, l: Layout, k: nat)
    requires Good(o, l) && SmallEntries(o)
    ensures !Tearable(HeadCalls(o, l), k)
  {
    var groups := EntryGroups(o, l);
    forall d | 0 <= d < |groups| ensures SmallOps(groups[d]) {
      EntrySmall(o.dexFiles[d], l.dex.places[d], OfDexFile(o, l.classes.places, d));
    }
    FlatSmall(groups);
    BehindFirst(WriteOp(o.header), Flat(groups), k);
  }

  /** A file whose byte at the place is not v. */
  function Unlike(at: nat, v: byte): (d: seq<byte>)
    ensures At(d, at) != v
  {
    Zeros(at) + [if v == 0 then 1 else 0]
  }

  lemma {:induction false} EntriesEnd(o: Oat, l: Layout)
    requires Good(o, l) && o.dexFiles != []
    ensures var blobs := DexEntryBlobs(o, l); |blobs| > 0 && blobs[|blobs| - 1] != [] && Start(l.dex) > 0
  {
    PartOrder(o, l);
  }

  lemma {:induction false} SomePieceTears(o: Oat, l: Layout) returns (k: nat)
    requires Good(o, l) && !SmallEntries(o)
    ensures Tearable(HeadCalls(o, l), k)
  {
    if d: nat :| d < |o.dexFiles| && |o.dexFiles[d].location| > BUFFER_SIZE {
      k := PieceTears(o, l, d, 1);
    } else {
      var d: nat :| d < |o.dexFiles| && 4 * o.dexFiles[d].numClassDefs > BUFFER_SIZE;
      k := PieceTears(o, l, d, 4);
    }
  }

  lemma {:induction false} OtherEnd(base: nat, end: nat, blobs: seq<seq<byte>>) returns (d: seq<byte>)
    requires blobs != [] && blobs[|blobs| - 1] != [] && end > 0
    ensures !EndsWith(d, base, end, blobs)
  {
    var last := blobs[|blobs| - 1];
    d := Unlike(base + end - 1, last[|last| - 1]);
  }

  lemma {:induction false} TearingSink(o: Oat, l: Layout, kind: Kind, base: nat) returns (s: Sink, k: nat)
    requires Good(o, l) && !SmallEntries(o)
    ensures Tears(o, l, s, k) && s.kind == kind && s.content.pos == base && s.failures == 0
  {
    k := SomePieceTears(o, l);
    EntriesEnd(o, l);
    var file := OtherEnd(base, Start(l.dex), DexEntryBlobs(o, l));
    s := Sink(kind, Content(file, base), Granted(Demands(0, HeadCalls(o, l)[..k]).0, [true]), 0);
  }

  /** There is such a sink if and only if a piece of a dex file entry is larger than the buffer. */
  lemma {:induction false} TearsExactly(o: Oat, l: Layout)
    requires Good(o, l)
    ensures SmallEntries(o) <==> forall s, k :: !Tears(o, l, s, k)
  {
    if SmallEntries(o) {
      forall s, k ensures !Tears(o, l, s, k) {
        SmallCannotTear(o, l, k);
      }
    } else {
      var s, k := TearingSink(o, l, File, 0);
    }
  }

  /** The position check at the start of Write. */
  lemma {:induction false} AfterCheck(b: Buffered)
    requires b.pending == []
    ensures var b1 := BufSeek(b, 0, SeekCurrent).0;
      && b1.pending == [] && b1.sink.faults == b.sink.faults && b1.sink.content.pos == b.sink.content.pos
      && forall k: nat :: At(b1.sink.content.data, k) == At(b.sink.content.data, k)
  {
  }

  /** If a file does not end a list as it should, neither does one with the same byte there. */
  lemma {:induction false} StillOther(d: seq<byte>, d': seq<byte>, base: nat, end: nat, blobs: seq<seq<byte>>)
    requires !EndsWith(d, base, end, blobs) && (end > 0 ==> At(d', base + end - 1) == At(d, base + end - 1))
    ensures !EndsWith(d', base, end, blobs)
  {
  }

  /** From the position check on, calls that are torn at k. */
  lemma {:induction false} TornCalls(s: Sink, ops: seq<Op>, k: nat, blobs: seq<seq<byte>>)
    requires AllWrites(ops) && Tearable(ops, k) && s.faults == Granted(Demands(0, ops[..k]).0, [true])
    requires TotalBytes(ops) > 0 && !EndsWith(s.content.data, s.content.pos, TotalBytes(ops), blobs)
    ensures var e := Attempt(BufSeek(Buffered(s, []), 0, SeekCurrent).0, ops);
      Faultless(e) && !EndsWith(View(e.0).data, s.content.pos, TotalBytes(ops), blobs)
  {
    var b1 := BufSeek(Buffered(s, []), 0, SeekCurrent).0;
    AfterCheck(Buffered(s, []));
    var at := s.content.pos + TotalBytes(ops) - 1;
    TornRun(b1, ops, k, at, At(b1.sink.content.data, at));
    StillOther(s.content.data, View(Attempt(b1, ops).0).data, s.content.pos, TotalBytes(ops), blobs);
  }

  lemma {:induction false} TornHead(o: Oat, l: Layout, s: Sink, k: nat)
    requires Tears(o, l, s, k)
    ensures |o.dexFiles| > 0 && Faultless(HeadRun(o, l, Buffered(s, [])))
    ensures !EndsWith(View(HeadRun(o, l, Buffered(s, [])).0).data, s.content.pos, Start(l.dex), DexEntryBlobs(o, l))
  {
    if SmallEntries(o) {
      SmallCannotTear(o, l, k);
    }
    EntriesEnd(o, l);
    HeadWrites(o, l);
    HeadBytes(o, l);
    TornCalls(s, HeadCalls(o, l), k, DexEntryBlobs(o, l));
  }

  lemma {:induction false} TornIncomplete(o: Oat, l: Layout, base: nat, d: seq<byte>, d': seq<byte>, hi: nat)
    requires Good(o, l) && o.dexFiles != [] && !EndsWith(d, base, Start(l.dex), DexEntryBlobs(o, l))
    requires OnlyWithin(d, d', base + Start(l.dex), hi)
    ensures !Complete(d', base, o, l)
  {
    EntriesEnd(o, l);
    TableBlobs(o, l);
    StillOther(d, d', base, Start(l.dex), DexEntryBlobs(o, l));
    if Complete(d', base, o, l) {
      WrittenEnd(d', base, l.dexEntries, DexEntryBlobs(o, l));
    }
  }

  /** One write to the sink fails, and Write returns true for a file that is not complete. */
  method WriteTorn(o: Oat, ghost l: Layout, s: Sink, ghost k: nat) returns (ok: bool, file: seq<byte>)
    requires Tears(o, l, s, k) && s.content.pos + Last(l.code) < TWO_32
    ensures ok && !Complete(file, s.content.pos, o, l)
  {
    TornHead(o, l, s, k);
    var out := new BufferedOutputStream(s);
    ghost var head := HeadRun(o, l, out.State());
    ok := WriteOat(o, l, out);
    file := out.sink.content.data;
    TornIncomplete(o, l, s.content.pos, View(head.0).data, file, s.content.pos + Last(l.code));
  }
}
