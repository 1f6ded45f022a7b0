/**
 What ImageWriter::ProcessStrings does to the heap: every string gets the one array of units and its offset there.
 Afterwards an interned string and its duplicates differ in their lock words only, so that they can share a place in
 the image.
 */
module ImageStrings {
  import opened Wrappers
  import opened Bytes
  import opened StringPacking
  import opened ImageBins
  import opened ImageGraph

  /** The fields that java.lang.Object declares: the class. */
  function RootFields(o: Object): seq<Ref> {
    if o.fields == [] then [] else o.fields[0]
  }

  /** A string has the class of the interned string, and reads the same. */
  ghost predicate StringAt(h: Heap, texts: seq<Text>, i: nat)
    requires |texts| == |h| && i < |h| && Rep(h, i) < |h|
  {
    RootFields(h[i]) == RootFields(h[Rep(h, i)]) && texts[i] == texts[Rep(h, i)]
  }

  /** Strings are interned with an equal one; `texts` says what they read. */
  ghost predicate ValidStrings(h: Heap, texts: seq<Text>)
    requires ValidHeap(h)
  {
    && |texts| == |h|
    && forall i: nat {:trigger StringAt(h, texts, i)} :: i < |h| ==> (RepInside(h, i); StringAt(h, texts, i))
  }

  /** The indices of the strings among the first n objects. */
  function Strings(h: Heap, n: nat): (r: seq<nat>)
    requires n <= |h|
    ensures forall k :: 0 <= k < |r| ==> r[k] < n && h[r[k]].kind.StringObject?
    ensures forall i :: 0 <= i < n && h[i].kind.StringObject? ==> i in r
    ensures forall j, k :: 0 <= j < k < |r| ==> r[j] < r[k]
  {
    if n == 0 then [] else Strings(h, n - 1) + if h[n - 1].kind.StringObject? then [n - 1] else []
  }

  function Picked(texts: seq<Text>, strings: seq<nat>): (r: seq<Text>)
    requires forall k :: 0 <= k < |strings| ==> strings[k] < |texts|
    ensures |r| == |strings| && forall k :: 0 <= k < |strings| ==> r[k] == texts[strings[k]]
  {
    seq(|strings|, k requires 0 <= k < |strings| => texts[strings[k]])
  }

  /** StringCollector */
  method CollectStrings(h: Heap) returns (strings: seq<nat>)
    ensures strings == Strings(h, |h|)
  {
    strings := [];
    for i := 0 to |h|
      invariant strings == Strings(h, i)
    {
      if h[i].kind.StringObject? {
        strings := strings + [i];
      }
    }
  }

  /** SetOffset and SetArray; java.lang.String declares the array. */
  function Repointed(o: Object, array_: nat, length: nat, offset: nat): Object {
    o.(fields := [RootFields(o), [Some(array_)]], data := [length, offset])
  }

  /** String i has been repointed; every other object is as it was. */
  ghost predicate Pointed(h: Heap, texts: seq<Text>, h': Heap, i: nat)
    requires |texts| == |h| && |h'| == |h| + 1 && i < |h|
  {
    if h[i].kind.StringObject? then
      |h'[i].data| == 2 && h'[i] == Repointed(h[i], |h|, |texts[i]|, h'[i].data[1])
    else h'[i] == h[i]
  }

  ghost predicate AllPointed(h: Heap, texts: seq<Text>, h': Heap) {
    |texts| == |h| && |h'| == |h| + 1 && forall i: nat :: i < |h| ==> Pointed(h, texts, h', i)
  }

  /** A CharArray with its class */
  predicate ArrayObject(o: Object, n: nat) {
    o.kind == OtherObject && o.size > 0 && |o.fields| == 1 && Inside(o.fields[0], n)
  }

  lemma {:induction false} Wider(refs: seq<Ref>, n: nat)
    requires Inside(refs, n)
    ensures Inside(refs, n + 1)
  {
    forall k | 0 <= k < |refs| ensures Within(refs[k], n + 1) {
      assert Within(refs[k], n);
    }
  }

  lemma {:induction false} StringValid(h: Heap, texts: seq<Text>, h': Heap, i: nat)
    requires ValidHeap(h) && AllPointed(h, texts, h') && i < |h| && h[i].kind.StringObject?
    ensures ValidObject(h', i)
  {
    assert ValidObject(h, i) && Pointed(h, texts, h', i) && Pointed(h, texts, h', h[i].kind.interned);
    RefsInside(h, i);
    assert References(h'[i]) == [RootFields(h[i]), [Some(|h|)], []];
    Wider(RootFields(h[i]), |h|);
  }

  lemma {:induction false} OtherValid(h: Heap, texts: seq<Text>, h': Heap, i: nat)
    requires ValidHeap(h) && AllPointed(h, texts, h') && i < |h| && !h[i].kind.StringObject?
    ensures ValidObject(h', i)
  {
    assert ValidObject(h, i) && Pointed(h, texts, h', i);
    forall c | 0 <= c < |References(h[i])| ensures Inside(References(h[i])[c], |h'|) {
      Wider(References(h[i])[c], |h|);
    }
    Wider(WalkedRefs(h[i].kind), |h|);
  }

  lemma {:induction false} PointedValid(h: Heap, texts: seq<Text>, h': Heap)
    requires ValidHeap(h) && AllPointed(h, texts, h') && ArrayObject(h'[|h|], |h|)
    ensures ValidHeap(h')
  {
    forall i: nat | i < |h'| ensures ValidObject(h', i) {
      if i == |h| {
        assert References(h'[i]) == [h'[i].fields[0], []];
        Wider(h'[i].fields[0], |h|);
      } else if h[i].kind.StringObject? {
        StringValid(h, texts, h', i);
      } else {
        OtherValid(h, texts, h', i);
      }
    }
  }

  /** Strings that read the same have the same data. */
  ghost predicate AlikeIfEqual(h: Heap, texts: seq<Text>, h': Heap)
    requires |texts| == |h| <= |h'|
  {
    forall i, j :: 0 <= i < |h| && 0 <= j < |h| && h[i].kind.StringObject? && h[j].kind.StringObject? ==>
      texts[i] == texts[j] ==> h'[i].data == h'[j].data
  }

  /** Then duplicates are twins of the interned string. */
  lemma {:induction false} PointedTwins(h: Heap, texts: seq<Text>, h': Heap)
    requires ValidHeap(h) && ValidStrings(h, texts) && AllPointed(h, texts, h') && AlikeIfEqual(h, texts, h')
    requires ValidHeap(h') && h'[|h|].kind == OtherObject
    ensures Interchangeable(h')
  {
    forall i: nat | i < |h'| ensures Rep(h', i) < |h'| && Twin(h', i) {
      RepInside(h', i);
      if i < |h| {
        RepInside(h, i);
        assert StringAt(h, texts, i) && Pointed(h, texts, h', i) && Pointed(h, texts, h', Rep(h, i));
        assert ValidObject(h, i);
      }
    }
  }

  /** The first k strings have been repointed. */
  ghost predicate SoFar(h: Heap, texts: seq<Text>, strings: seq<nat>, offsets: seq<nat>, k: nat, h': Heap)
    requires k <= |strings| == |offsets| && |texts| == |h| && forall j :: 0 <= j < |strings| ==> strings[j] < |h|
  {
    && |h'| == |h| + 1
    && (forall j :: 0 <= j < k ==>
          h'[strings[j]] == Repointed(h[strings[j]], |h|, |texts[strings[j]]|, offsets[j]))
    && (forall i :: 0 <= i < |h| && i !in strings[..k] ==> h'[i] == h[i])
  }

  lemma {:induction false} SoFarStep(h: Heap, texts: seq<Text>, strings: seq<nat>, offsets: seq<nat>, k: nat, h': Heap)
    requires k < |strings| == |offsets| && |texts| == |h| && forall j :: 0 <= j < |strings| ==> strings[j] < |h|
    requires forall i, j :: 0 <= i < j < |strings| ==> strings[i] < strings[j]
    requires SoFar(h, texts, strings, offsets, k, h')
    ensures h'[strings[k]] == h[strings[k]]
    ensures SoFar(h, texts, strings, offsets, k + 1,
      h'[strings[k] := Repointed(h[strings[k]], |h|, |texts[strings[k]]|, offsets[k])])
  {
    assert strings[..k + 1] == strings[..k] + [strings[k]];
    assert strings[k] !in strings[..k];
  }

  lemma {:induction false} SoFarAll(h: Heap, texts: seq<Text>, strings: seq<nat>, offsets: seq<nat>, h': Heap,
                                    chars: Text)
    requires |texts| == |h| && strings == Strings(h, |h|) && |offsets| == |strings|
    requires SoFar(h, texts, strings, offsets, |strings|, h') && SameOffsets(Picked(texts, strings), offsets)
    requires forall k :: 0 <= k < |strings| ==> Placed(chars, offsets[k], Picked(texts, strings)[k])
    ensures AllPointed(h, texts, h') && AlikeIfEqual(h, texts, h')
    ensures forall i :: 0 <= i < |h| && h[i].kind.StringObject? ==>
      |h'[i].data| == 2 && Placed(chars, h'[i].data[1], texts[i])
  {
    assert strings[..|strings|] == strings;
    forall i, j |
      0 <= i < |h| && 0 <= j < |h| && h[i].kind.StringObject? && h[j].kind.StringObject? && texts[i] == texts[j]
      ensures h'[i].data == h'[j].data
    {
      var a :| 0 <= a < |strings| && strings[a] == i;
      var b :| 0 <= b < |strings| && strings[b] == j;
      assert Picked(texts, strings)[a] == Picked(texts, strings)[b];
    }
    forall i | 0 <= i < |h| && h[i].kind.StringObject?
      ensures |h'[i].data| == 2 && Placed(chars, h'[i].data[1], texts[i])
    {
      var a :| 0 <= a < |strings| && strings[a] == i;
    }
  }

  /** What a string with that offset reads from an array. */
  predicate Reads(data: seq<nat>, offset: nat, text: Text) {
    offset + |text| <= |data| && data[offset..offset + |text|] == text
  }

  /**
   Every string reads the same as before from the one array, and duplicates cannot be told from the interned string but
   by their lock words.
   */
  method PrepareStrings(h: Heap, texts: seq<Text>, order: seq<nat>, arrayClass: Ref) returns (h': Heap)
    requires ValidHeap(h) && ValidStrings(h, texts) && Within(arrayClass, |h|)
    requires Ordered(Picked(texts, Strings(h, |h|)), order)
    ensures ValidHeap(h') && AllPointed(h, texts, h') && Interchangeable(h')
    ensures forall i :: 0 <= i < |h| && h[i].kind.StringObject? ==>
      |h'[i].data| == 2 && Reads(h'[|h|].data, h'[i].data[1], texts[i])
  {
    var strings := CollectStrings(h);
    var chars, offsets := ProcessStrings(Picked(texts, strings), order);
    var array_ := Object(OtherObject, 12 + 2 * |chars|, [[arrayClass]], chars);
    h' := h + [array_];
    for k := 0 to |strings|
      invariant SoFar(h, texts, strings, offsets, k, h') && h'[|h|] == array_
    {
      SoFarStep(h, texts, strings, offsets, k, h');
      var s := h'[strings[k]];
      h' := h'[strings[k] := Repointed(s, |h|, |texts[strings[k]]|, offsets[k])];
    }
    SoFarAll(h, texts, strings, offsets, h', chars);
    PointedValid(h, texts, h');
    PointedTwins(h, texts, h');
  }
}
