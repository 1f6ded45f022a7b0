/**
 What the calls of OatCalls come to, whatever the sink does: the tables are in place if nothing was lost, and
 only the position can show that something was.
 */
module OatTables {
  import opened Bytes
  import opened Streams
  import opened StreamRuns
  import opened DedupLayout
  import opened OatFormat
  import opened OatPasses
  import opened OatCalls

  /** The calls write these bytes, and lose none of them if they are small. */
  ghost predicate Emits(calls: seq<Op>, bytes: seq<byte>, small: bool) {
    forall b: Buffered :: Emitted(b, Attempt(b, calls).0, Attempt(b, calls).1, bytes, small)
  }

  lemma {:induction false} EntryEmits(dex: DexFile, dexOffset: nat, classOffsets: seq<nat>)
    ensures Emits(EntryCalls(dex, dexOffset, classOffsets), DexEntryBytes(dex, dexOffset, classOffsets),
                  SmallEntry(dex, classOffsets))
  {
    var calls := EntryCalls(dex, dexOffset, classOffsets);
    forall b: Buffered
      ensures Emitted(b, Attempt(b, calls).0, Attempt(b, calls).1, DexEntryBytes(dex, dexOffset, classOffsets),
                      SmallEntry(dex, classOffsets))
    {
      EntryIsCalls(b, dex, dexOffset, classOffsets);
      EmittedEntry(b, dex, dexOffset, classOffsets);
    }
  }

  lemma {:induction false} ClassEmits(c: OatClass, offsets: seq<nat>)
    ensures Emits(ClassCalls(c, offsets), ClassBytes(c, offsets), SmallClass(c, offsets))
  {
    var calls := ClassCalls(c, offsets);
    forall b: Buffered
      ensures Emitted(b, Attempt(b, calls).0, Attempt(b, calls).1, ClassBytes(c, offsets), SmallClass(c, offsets))
    {
      ClassIsCalls(b, c, offsets);
      EmittedClass(b, c, offsets);
    }
  }

  /** Emits with a stronger demand on the sizes. */
  lemma {:induction false} EmitsIf(calls: seq<Op>, bytes: seq<byte>, small: bool, small': bool)
    requires Emits(calls, bytes, small) && (small' ==> small)
    ensures Emits(calls, bytes, small')
  {
  }

  /** How far a list of pieces has got. */
  ghost predicate Listed(b: Buffered, e: (Buffered, bool), base: nat, p: Plan<nat>, blobs: seq<seq<byte>>,
                         small: bool, n: nat) {
    && Kept(b, e.0, e.1) && Fitting(p, blobs) && n <= |blobs|
    && (e.1 ==> Going(View(b), View(e.0), base, p, blobs, n))
    && ((e.1 && small) || Unharmed(b, e.0) ==> View(e.0).pos == base + p.ends[n])
  }

  lemma {:induction false} ListedStep(b: Buffered, e: (Buffered, bool), e': (Buffered, bool), base: nat, p: Plan<nat>,
                                      blobs: seq<seq<byte>>, small: bool, n: nat)
    requires Listed(b, e, base, p, blobs, small, n) && e.1 && n < |blobs| && p.align == 1 && p.firsts[n] == n
    requires Emitted(e.0, e'.0, e'.1, blobs[n], small)
    ensures Listed(b, e', base, p, blobs, small, n + 1)
  {
    RepeatBelow(p, n);
    if e'.1 && View(e'.0).pos == base + p.ends[n + 1] {
      ListStep(View(b), View(e.0), View(e.0), View(e'.0), base, p, blobs, n);
    }
  }

  /** A list of pieces that follow one another. */
  lemma {:induction false} ListTried(b: Buffered, groups: seq<seq<Op>>, base: nat, p: Plan<nat>, blobs: seq<seq<byte>>,
                                     small: bool, n: nat)
    requires Fitting(p, blobs) && p.align == 1 && p.firsts == Indices(|blobs|) && |groups| == |blobs| && n <= |blobs|
    requires forall i :: 0 <= i < |groups| ==> Emits(groups[i], blobs[i], small)
    requires View(b).pos == base + Start(p)
    ensures Listed(b, Tried(b, groups, n), base, p, blobs, small, n)
    decreases n
  {
    if n > 0 {
      ListTried(b, groups, base, p, blobs, small, n - 1);
      var e := Tried(b, groups, n - 1);
      if e.1 {
        assert Emits(groups[n - 1], blobs[n - 1], small);
        ListedStep(b, e, Attempt(e.0, groups[n - 1]), base, p, blobs, small, n - 1);
      }
    }
  }

  lemma {:induction false} EntriesTried(o: Oat, l: Layout, base: nat, b: Buffered)
    requires Good(o, l) && View(b).pos == base + Start(l.dexEntries)
    ensures Listed(b, Attempt(b, Flat(EntryGroups(o, l))), base, l.dexEntries, DexEntryBlobs(o, l), SmallEntries(o),
                   |o.dexFiles|)
  {
    var groups, blobs := EntryGroups(o, l), DexEntryBlobs(o, l);
    TableBlobs(o, l);
    forall d | 0 <= d < |groups| ensures Emits(groups[d], blobs[d], SmallEntries(o)) {
      var offsets := OfDexFile(o, l.classes.places, d);
      EntryEmits(o.dexFiles[d], l.dex.places[d], offsets);
      EmitsIf(groups[d], blobs[d], SmallEntry(o.dexFiles[d], offsets), SmallEntries(o));
    }
    ListTried(b, groups, base, l.dexEntries, blobs, SmallEntries(o), |groups|);
    TriedAll(b, groups);
  }

  lemma {:induction false} ClassesTried(o: Oat, l: Layout, base: nat, b: Buffered)
    requires Good(o, l) && View(b).pos == base + Start(l.classes)
    ensures Listed(b, Attempt(b, Flat(ClassGroups(o, l.code))), base, l.classes, ClassBlobs(o, l.code),
                   SmallClasses(o), |o.classes|)
  {
    var groups, blobs := ClassGroups(o, l.code), ClassBlobs(o, l.code);
    TableBlobs(o, l);
    forall c | 0 <= c < |groups| ensures Emits(groups[c], blobs[c], SmallClasses(o)) {
      var offsets := OfClass(o, FinalOffsets(o, l.code), c);
      ClassEmits(o.classes[c], offsets);
      EmitsIf(groups[c], blobs[c], SmallClass(o.classes[c], offsets), SmallClasses(o));
    }
    ListTried(b, groups, base, l.classes, blobs, SmallClasses(o), |groups|);
    TriedAll(b, groups);
  }

  /** A dex file arrives at its place or not at all. */
  lemma {:induction false} DexEffect(b: Buffered, place: nat, bytes: seq<byte>) returns (sought: Content)
    ensures var e := Attempt(b, DexCalls(place, bytes));
      && Kept(b, e.0, e.1)
      && (e.1 ==> View(e.0) == Put(sought, bytes) && sought.pos == place && OnlyWithin(View(b).data, sought.data, 0, 0))
  {
    TwoCalls(b, SeekOp(place, SeekSet), WriteOp(bytes));
    SeekEffect(b, place, SeekSet);
    var b1 := BufSeek(b, place, SeekSet).0;
    sought := View(b1);
    EmittedOne(b1, bytes);
    MoveOnly(b.sink.kind, View(b), place, 0, 0);
  }

  lemma {:induction false} DexTried(b: Buffered, groups: seq<seq<Op>>, base: nat, p: Plan<nat>, blobs: seq<seq<byte>>,
                                    n: nat)
    requires Fitting(p, blobs) && p.firsts == Indices(|blobs|) && |groups| == |blobs| && n <= |blobs|
    requires forall i :: 0 <= i < |groups| ==> groups[i] == DexCalls(base + p.places[i], blobs[i])
    ensures var e := Tried(b, groups, n);
      && Kept(b, e.0, e.1)
      && (e.1 ==> Progress(View(b), Content(View(e.0).data, base + p.ends[n]), base, p, blobs, n))
      && (e.1 && n > 0 ==> View(e.0).pos == base + p.ends[n])
    decreases n
  {
    if n > 0 {
      DexTried(b, groups, base, p, blobs, n - 1);
      var e := Tried(b, groups, n - 1);
      if e.1 {
        assert groups[n - 1] == DexCalls(base + p.places[n - 1], blobs[n - 1]);
        var sought := DexEffect(e.0, base + p.places[n - 1], blobs[n - 1]);
        var e' := Tried(b, groups, n);
        RepeatBelow(p, n - 1);
        if e'.1 {
          var c := Content(View(e.0).data, base + p.ends[n - 1]);
          ListStep(View(b), c, sought, View(e'.0), base, p, blobs, n - 1);
        }
      }
    }
  }

  lemma {:induction false} WritesKept(b: Buffered, groups: seq<seq<Op>>)
    requires forall n :: 0 <= n < |groups| ==> AllWrites(groups[n])
    ensures Kept(b, Attempt(b, Flat(groups)).0, Attempt(b, Flat(groups)).1)
  {
    FlatWrites(groups);
    AttemptKept(b, Flat(groups));
  }

  lemma {:induction false} EntryWrites(dex: DexFile, dexOffset: nat, classOffsets: seq<nat>)
    ensures AllWrites(EntryCalls(dex, dexOffset, classOffsets))
  {
  }

  lemma {:induction false} ClassWrites(c: OatClass, offsets: seq<nat>)
    ensures AllWrites(ClassCalls(c, offsets))
  {
  }

  lemma {:induction false} ClassesKept(o: Oat, l: Layout, b: Buffered)
    requires Good(o, l)
    ensures var e := Attempt(b, Flat(ClassGroups(o, l.code))); Kept(b, e.0, e.1)
  {
    var groups := ClassGroups(o, l.code);
    forall c | 0 <= c < |groups| ensures AllWrites(groups[c]) {
      ClassWrites(o.classes[c], OfClass(o, FinalOffsets(o, l.code), c));
    }
    WritesKept(b, groups);
  }

  lemma {:induction false} EntriesKept(o: Oat, l: Layout, b: Buffered)
    requires Good(o, l)
    ensures var e := Attempt(b, Flat(EntryGroups(o, l))); Kept(b, e.0, e.1)
  {
    var groups := EntryGroups(o, l);
    forall d | 0 <= d < |groups| ensures AllWrites(groups[d]) {
      EntryWrites(o.dexFiles[d], l.dex.places[d], OfDexFile(o, l.classes.places, d));
    }
    WritesKept(b, groups);
  }

  /** The dex files and the classes, from wherever the stream stands if there is a dex file. */
  ghost predicate TailDone(o: Oat, l: Layout, base: nat, b: Buffered, e: (Buffered, bool)) {
    && Good(o, l) && Kept(b, e.0, e.1)
    && (e.1 && View(e.0).pos == base + Last(l.classes) ==>
          && DexWritten(View(e.0).data, base, o, l)
          && OnlyWithin(View(b).data, View(e.0).data, base + Start(l.dex), base + Last(l.classes)))
    && ((e.1 && SmallClasses(o)) || Unharmed(b, e.0) ==> View(e.0).pos == base + Last(l.classes))
  }

  lemma {:induction false} AllDexTried(o: Oat, l: Layout, base: nat, b: Buffered)
    requires Good(o, l) && (|o.dexFiles| > 0 || View(b).pos == base + Start(l.dex))
    ensures var d := Attempt(b, Flat(DexGroups(o, l.dex, base)));
      Kept(b, d.0, d.1) && (d.1 ==> Progress(View(b), View(d.0), base, l.dex, DexBlobs(o), |o.dexFiles|))
  {
    var groups := DexGroups(o, l.dex, base);
    NoEmptyDexFile(o, l);
    forall d | 0 <= d < |groups| ensures groups[d] == DexCalls(base + l.dex.places[d], DexBlobs(o)[d]) {
      assert DexBlobs(o)[d] == o.dexFiles[d].bytes;
    }
    DexTried(b, groups, base, l.dex, DexBlobs(o), |groups|);
    TriedAll(b, groups);
    if |o.dexFiles| == 0 {
      assert Tried(b, groups, 0) == (b, true);
    }
  }

  lemma {:induction false} TailTried(o: Oat, l: Layout, base: nat, b: Buffered)
    requires Good(o, l) && (|o.dexFiles| > 0 || View(b).pos == base + Start(l.dex))
    ensures TailDone(o, l, base, b, Attempt(b, TailCalls(o, l, base)))
  {
    AttemptSplit(b, Flat(DexGroups(o, l.dex, base)), Flat(ClassGroups(o, l.code)));
    AllDexTried(o, l, base, b);
    var d := Attempt(b, Flat(DexGroups(o, l.dex, base)));
    if d.1 {
      ClassesTried(o, l, base, d.0);
      var e := Attempt(d.0, Flat(ClassGroups(o, l.code)));
      if e.1 && View(e.0).pos == base + Last(l.classes) {
        DexDone(o, l, base, View(b), View(d.0), View(e.0));
      }
    }
  }

  /** The header goes out first, with nothing pending, so that nothing is lost with it. */
  lemma {:induction false} HeadTried(o: Oat, l: Layout, base: nat, b: Buffered)
    requires Good(o, l) && b.pending == [] && View(b).pos == base
    ensures var head := Attempt(b, HeadCalls(o, l));
      && Kept(b, head.0, head.1)
      && (head.1 ==> Going(Put(View(b), o.header), View(head.0), base, l.dexEntries, DexEntryBlobs(o, l), |o.dexFiles|))
      && ((head.1 && SmallEntries(o)) || Unharmed(b, head.0) ==> View(head.0).pos == base + Last(l.dexEntries))
  {
    AttemptFirst(b, WriteOp(o.header), Flat(EntryGroups(o, l)));
    EmittedOne(b, o.header);
    var (b1, ok) := BufWrite(b, o.header);
    if ok {
      EntriesTried(o, l, base, b1);
    }
  }

  /** Whatever the sink does, this is what becomes of the tables. */
  lemma {:induction false} TablesAreTried(o: Oat, l: Layout, base: nat, b: Buffered, head: (Buffered, bool),
                                          run: (Buffered, bool))
    requires Good(o, l) && b.pending == [] && View(b).pos == base
    requires head == Attempt(b, HeadCalls(o, l)) && run == TablesFrom(o, l, base, b)
    ensures TablesTried(o, l, base, b, head, run)
  {
    HeadTried(o, l, base, b);
    if head.1 {
      TailTried(o, l, base, head.0);
      if run.1 && View(head.0).pos == base + Last(l.dexEntries) && View(run.0).pos == base + Last(l.classes) {
        var d := View(run.0).data;
        TablesDone(o, l, base, View(b), Put(View(b), o.header), View(head.0), d, d);
      }
    }
  }

  /** Asking for the position first makes no difference. */
  lemma {:induction false} FinishedSince(o: Oat, l: Layout, base: nat, b: Buffered, b1: Buffered, b': Buffered,
                                         ok: bool)
    requires Finished(o, l, base, b1, b', ok) && Later(b, b1) && Unharmed(b, b1) && Moved(View(b), View(b1))
    requires b1.pending == [] && Later(b1, b')
    ensures Finished(o, l, base, b, b', ok)
  {
  }

  /** If the tables have not been written to the end, no run is meant in which all faults were used up. */
  lemma {:induction false} NoOutcome(o: Oat, l: Layout, base: nat, b: Buffered, head: (Buffered, bool),
                                     run: (Buffered, bool), b': Buffered)
    requires TablesTried(o, l, base, b, head, run) && Later(run.0, b') && (!run.1 || !Unharmed(run.0, b'))
    ensures Outcome(o, l, base, head, run, false, b'.sink.content.data)
  {
  }
}
