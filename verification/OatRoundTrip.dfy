/** Writing an oat file and reading it back: every method of the input is found in the bytes that were written. */
module OatRoundTrip {
  import opened Wrappers
  import opened Bytes
  import opened Streams
  import opened DedupLayout
  import opened FileReads
  import opened OatFormat
  import opened OatPasses
  import opened OatLookup
  import opened OatCalls
  import OatWriter

  predicate HasMethod(o: Oat, f: nat, k: uint16, m: nat) {
    && f < |o.dexFiles| && k < o.dexFiles[f].numClassDefs
    && DexBase(o, f) + k < |o.classes| && m < |o.classes[DexBase(o, f) + k].methods|
  }

  /** Method m of class def k of dex file f is found, with its map of the kind, if there is such a method. */
  ghost predicate Found(d: seq<byte>, base: nat, o: Oat, f: nat, k: uint16, m: nat, kind: MapKind) {
    HasMethod(o, f, k, m) ==>
      Answers(d, base, o, o.classes[DexBase(o, f) + k].methods[m], FindMethod(d, base, f, k, m), kind)
  }

  lemma {:induction false} CompleteIsFound(d: seq<byte>, base: nat, o: Oat, l: Layout, f: nat, k: uint16, m: nat,
                                           kind: MapKind)
    requires Complete(d, base, o, l)
    ensures Found(d, base, o, f, k, m, kind)
  {
    if HasMethod(o, f, k, m) {
      MethodReached(d, base, o, l, f, k, DexBase(o, f) + k, m, kind);
    }
  }

  ghost predicate AllFound(d: seq<byte>, base: nat, o: Oat) {
    forall f: nat, k: uint16, m: nat, kind :: Found(d, base, o, f, k, m, kind)
  }

  /** In a complete file every method is found. */
  lemma {:induction false} CompleteFindsAll(d: seq<byte>, base: nat, o: Oat, l: Layout)
    requires Complete(d, base, o, l)
    ensures AllFound(d, base, o)
  {
    forall f: nat, k: uint16, m: nat, kind ensures Found(d, base, o, f, k, m, kind) {
      CompleteIsFound(d, base, o, l, f, k, m, kind);
    }
  }

  /**
   Plans and writes an oat file; its layout is the only one, by LayoutUnique. If the result is true and
   no write to the sink has failed, or if it is true and Sure, whatever the sink did, the file is
   complete and every method can be found in it. Outcome says what can come of it otherwise.
   */
  method WriteOat(o: Oat, ghost l: Layout, out: BufferedOutputStream) returns (ok: bool)
    requires Good(o, l) && out.Valid() && out.Seen().pos + Last(l.code) < TWO_32
    modifies out, out.buffer
    ensures out.Valid() && Kept(old(out.State()), out.State(), ok)
    ensures ok && (Sure(o, Last(l.code), old(out.State())) || Unharmed(old(out.State()), out.State())) ==>
      && Complete(out.sink.content.data, old(out.Seen()).pos, o, l)
      && AllFound(out.sink.content.data, old(out.Seen()).pos, o)
      && OnlyWithin(old(out.Seen()).data, out.sink.content.data, old(out.Seen()).pos,
                    old(out.Seen()).pos + Last(l.code))
    ensures old(out.used) == 0 ==>
      Outcome(o, l, old(out.Seen()).pos, HeadRun(o, l, old(out.State())), TableRun(o, l, old(out.State())), ok,
              out.sink.content.data)
  {
    ghost var base := out.Seen().pos;
    var writer := new OatWriter.OatWriter(o, l);
    ok := writer.Write(out);
    if Complete(out.sink.content.data, base, o, l) {
      CompleteFindsAll(out.sink.content.data, base, o, l);
    }
  }
}
