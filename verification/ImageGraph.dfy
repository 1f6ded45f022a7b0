/**
 The copies of the objects in the image (image_writer.cc: CopyAndFixupObjects): every reference of a
 copy is the place of the object it referred to. Strings that share a place are copied over one
 another, so that the last copy stays.
 */
module ImageGraph {
  import opened Wrappers
  import opened ImageBins

  /** A copy: its lock word, its references as offsets in the image, and everything else. */
  datatype Copy = Copy(lock: nat, refs: seq<seq<Ref>>, data: seq<nat>)

  /** GetImageAddress, relative to the beginning of the image; null stays null. */
  function ImageRef(lock: seq<nat>, ref: Ref): Ref
    requires Within(ref, |lock|)
  {
    if ref.None? then None else Some(Address(lock[ref.value]))
  }

  predicate AllInside(refs: seq<seq<Ref>>, n: nat) {
    forall c :: 0 <= c < |refs| ==> Inside(refs[c], n)
  }

  /** The c, k-th reference, or null. */
  function RefAt(refs: seq<seq<Ref>>, c: nat, k: nat): Ref {
    if c < |refs| && k < |refs[c]| then refs[c][k] else None
  }

  /** `copied` are the places of what `refs` refer to. */
  ghost predicate Translated(lock: seq<nat>, refs: seq<seq<Ref>>, copied: seq<seq<Ref>>) {
    && AllInside(refs, |lock|)
    && forall c: nat, k: nat :: RefAt(copied, c, k) == ImageRef(lock, RefAt(refs, c, k))
  }

  /** The last of the first n objects at the place of r. */
  function Last(h: Heap, r: nat, n: nat): Option<nat>
    requires n <= |h|
  {
    if n == 0 then None else if Rep(h, n - 1) == r then Some(n - 1) else Last(h, r, n - 1)
  }

  lemma {:induction false} LastIs(h: Heap, r: nat, n: nat)
    requires n <= |h|
    ensures Last(h, r, n).Some? ==> Last(h, r, n).value < n && Rep(h, Last(h, r, n).value) == r
    ensures forall i :: 0 <= i < n && Rep(h, i) == r ==> Last(h, r, n).Some? && i <= Last(h, r, n).value
    decreases n
  {
    if n > 0 {
      LastIs(h, r, n - 1);
    }
  }

  /** The object whose copy is at the place of object i. */
  function Kept(h: Heap, i: nat): (j: nat)
    requires i < |h|
    ensures j < |h| && Rep(h, j) == Rep(h, i) && i <= j
  {
    LastIs(h, Rep(h, i), |h|);
    Last(h, Rep(h, i), |h|).value
  }

  /** Every place holds the copy of the last object there. */
  ghost predicate CopiedAt(h: Heap, lock: seq<nat>, image: map<nat, Copy>, i: nat)
    requires |lock| == |h| && i < |h|
  {
    && Address(lock[i]) in image
    && Translated(lock, References(h[Kept(h, i)]), image[Address(lock[i])].refs)
    && image[Address(lock[i])].data == h[Kept(h, i)].data
  }

  ghost predicate Copied(h: Heap, lock: seq<nat>, image: map<nat, Copy>) {
    |lock| == |h| && forall i: nat :: i < |h| ==> CopiedAt(h, lock, image, i)
  }

  function Translate(lock: seq<nat>, refs: seq<seq<Ref>>): (copied: seq<seq<Ref>>)
    requires AllInside(refs, |lock|)
    ensures Translated(lock, refs, copied)
  {
    seq(|refs|, c requires 0 <= c < |refs| =>
      assert Inside(refs[c], |lock|);
      seq(|refs[c]|, k requires 0 <= k < |refs[c]| => ImageRef(lock, refs[c][k])))
  }

  /** Places are the same exactly for the same representative. */
  ghost predicate Injective(h: Heap, lock: seq<nat>) {
    && |lock| == |h|
    && forall i: nat, j: nat :: i < |h| && j < |h| ==>
      (Address(lock[i]) == Address(lock[j]) <==> Rep(h, i) == Rep(h, j))
  }

  // ----- copying one object after the other -----

  /** After n objects have been copied: the place of object i holds the last copy that was made to it. */
  ghost predicate CopiedSoFar(h: Heap, lock: seq<nat>, image: map<nat, Copy>, n: nat, i: nat)
    requires |lock| == |h| && i < n <= |h|
  {
    var last := Last(h, Rep(h, i), n);
    && last.Some? && last.value < |h|
    && Address(lock[i]) in image && Translated(lock, References(h[last.value]), image[Address(lock[i])].refs)
    && image[Address(lock[i])].data == h[last.value].data
  }

  ghost predicate SoFar(h: Heap, lock: seq<nat>, image: map<nat, Copy>, n: nat) {
    |lock| == |h| && n <= |h| && forall i: nat :: i < n ==> CopiedSoFar(h, lock, image, n, i)
  }

  lemma {:induction false} CopyStep(h: Heap, lock: seq<nat>, image: map<nat, Copy>, n: nat, copy: Copy)
    requires Injective(h, lock) && n < |h| && Translated(lock, References(h[n]), copy.refs)
    requires copy.data == h[n].data
    requires SoFar(h, lock, image, n)
    ensures SoFar(h, lock, image[Address(lock[n]) := copy], n + 1)
  {
    var image', m := image[Address(lock[n]) := copy], n + 1;
    forall i: nat | i < m ensures CopiedSoFar(h, lock, image', m, i) {
      assert i < n ==> CopiedSoFar(h, lock, image, n, i);
      assert Address(lock[i]) == Address(lock[n]) <==> Rep(h, i) == Rep(h, n);
    }
  }

  lemma {:induction false} AllCopied(h: Heap, lock: seq<nat>, image: map<nat, Copy>)
    requires SoFar(h, lock, image, |h|)
    ensures Copied(h, lock, image)
  {
    forall i: nat | i < |h| ensures CopiedAt(h, lock, image, i) {
      assert CopiedSoFar(h, lock, image, |h|, i);
    }
  }

  /** Setting lock words does not touch anything else. */
  lemma {:induction false} CopiedKept(h: Heap, lock: seq<nat>, image: map<nat, Copy>, image': map<nat, Copy>)
    requires Copied(h, lock, image) && image'.Keys == image.Keys
    requires forall o :: o in image ==> image'[o].refs == image[o].refs && image'[o].data == image[o].data
    ensures Copied(h, lock, image')
  {
    forall i: nat | i < |h| ensures CopiedAt(h, lock, image', i) {
      assert CopiedAt(h, lock, image, i);
    }
  }

  // ----- following references -----

  type Path = seq<(nat, nat)>

  /** Where a path of references leads from object i. */
  function Follow(h: Heap, i: nat, path: Path): Ref
    decreases |path|
  {
    if i >= |h| then None
    else if path == [] then Some(i)
    else
      var ref := RefAt(References(h[i]), path[0].0, path[0].1);
      if ref.None? then None else Follow(h, ref.value, path[1..])
  }

  function FollowImage(image: map<nat, Copy>, offset: nat, path: Path): Ref
    decreases |path|
  {
    if offset !in image then None
    else if path == [] then Some(offset)
    else
      var ref := RefAt(image[offset].refs, path[0].0, path[0].1);
      if ref.None? then None else FollowImage(image, ref.value, path[1..])
  }

  lemma {:induction false} RefInside(h: Heap, i: nat, c: nat, k: nat)
    requires ValidHeap(h) && i < |h|
    ensures AllInside(References(h[i]), |h|)
    ensures Within(RefAt(References(h[i]), c, k), |h|)
  {
    assert ValidObject(h, i);
  }

  lemma {:induction false} FollowInside(h: Heap, i: nat, path: Path)
    requires ValidHeap(h) && i < |h|
    ensures Within(Follow(h, i, path), |h|)
    decreases |path|
  {
    if path != [] {
      RefInside(h, i, path[0].0, path[0].1);
      var ref := RefAt(References(h[i]), path[0].0, path[0].1);
      if ref.Some? {
        FollowInside(h, ref.value, path[1..]);
      }
    }
  }

  /** Two references lead to one place. */
  predicate SamePlace(h: Heap, a: Ref, b: Ref)
    requires Within(a, |h|) && Within(b, |h|)
  {
    if a.None? || b.None? then a == b else Rep(h, a.value) == Rep(h, b.value)
  }

  /** The strings at a place refer to the same places, field by field. */
  ghost predicate Alike(h: Heap, i: nat)
    requires ValidHeap(h) && i < |h|
  {
    forall c: nat, k: nat :: RefsAlike(h, i, c, k)
  }

  ghost predicate RefsAlike(h: Heap, i: nat, c: nat, k: nat)
    requires ValidHeap(h) && i < |h|
  {
    RefInside(h, i, c, k);
    RefInside(h, Kept(h, i), c, k);
    SamePlace(h, RefAt(References(h[i]), c, k), RefAt(References(h[Kept(h, i)]), c, k))
  }

  /** The path from the copy of object i leads to the copy of the object to which it leads from i. */
  ghost predicate PathKept(h: Heap, lock: seq<nat>, image: map<nat, Copy>, i: nat, path: Path)
    requires ValidHeap(h) && |lock| == |h| && i < |h|
  {
    FollowInside(h, i, path);
    FollowImage(image, Address(lock[i]), path) == ImageRef(lock, Follow(h, i, path))
  }

  lemma {:induction false} ImageRefSame(h: Heap, lock: seq<nat>, a: Ref, b: Ref)
    requires Injective(h, lock) && Within(a, |h|) && Within(b, |h|)
    ensures SamePlace(h, a, b) <==> ImageRef(lock, a) == ImageRef(lock, b)
  {
  }

  lemma {:induction false} PathsIfAlike(h: Heap, lock: seq<nat>, image: map<nat, Copy>, i: nat, path: Path)
    requires ValidHeap(h) && Copied(h, lock, image) && Injective(h, lock) && i < |h|
    requires forall j: nat :: j < |h| ==> Alike(h, j)
    ensures PathKept(h, lock, image, i, path)
    decreases |path|
  {
    assert CopiedAt(h, lock, image, i);
    if path != [] {
      var c, k := path[0].0, path[0].1;
      var own, kept := RefAt(References(h[i]), c, k), RefAt(References(h[Kept(h, i)]), c, k);
      RefInside(h, i, c, k);
      RefInside(h, Kept(h, i), c, k);
      assert Alike(h, i) && RefsAlike(h, i, c, k);
      ImageRefSame(h, lock, own, kept);
      assert RefAt(image[Address(lock[i])].refs, c, k) == ImageRef(lock, own);
      if own.Some? {
        PathsIfAlike(h, lock, image, own.value, path[1..]);
      }
    }
  }

  lemma {:induction false} AlikeIfPaths(h: Heap, lock: seq<nat>, image: map<nat, Copy>, i: nat, c: nat, k: nat)
    requires ValidHeap(h) && Copied(h, lock, image) && Injective(h, lock) && i < |h|
    requires PathKept(h, lock, image, i, [(c, k)])
    ensures RefsAlike(h, i, c, k)
  {
    var path: Path := [(c, k)];
    var own, kept := RefAt(References(h[i]), c, k), RefAt(References(h[Kept(h, i)]), c, k);
    RefInside(h, i, c, k);
    RefInside(h, Kept(h, i), c, k);
    assert CopiedAt(h, lock, image, i);
    var copied := RefAt(image[Address(lock[i])].refs, c, k);
    assert copied == ImageRef(lock, kept);
    assert path[1..] == [];
    assert Follow(h, i, path) == own;
    if kept.Some? {
      assert CopiedAt(h, lock, image, kept.value);
    }
    assert FollowImage(image, Address(lock[i]), path) == copied;
    ImageRefSame(h, lock, own, kept);
  }

  /** The image has the reference graph of the heap exactly if the strings at one place refer to the same places. */
  lemma {:induction false} GraphKept(h: Heap, lock: seq<nat>, image: map<nat, Copy>)
    requires ValidHeap(h) && Copied(h, lock, image) && Injective(h, lock)
    ensures (forall i: nat, path: Path :: i < |h| ==> PathKept(h, lock, image, i, path))
       <==> forall i: nat :: i < |h| ==> Alike(h, i)
  {
    if forall i: nat, path: Path :: i < |h| ==> PathKept(h, lock, image, i, path) {
      forall i: nat | i < |h| ensures Alike(h, i) {
        forall c: nat, k: nat ensures RefsAlike(h, i, c, k) {
          assert PathKept(h, lock, image, i, [(c, k)]);
          AlikeIfPaths(h, lock, image, i, c, k);
        }
      }
    } else {
      var i: nat, path: Path :| i < |h| && !PathKept(h, lock, image, i, path);
      if forall j: nat :: j < |h| ==> Alike(h, j) {
        PathsIfAlike(h, lock, image, i, path);
      }
    }
  }

  // ----- objects that can stand for one another -----

  /** An object and the one whose place it takes have the same references and the same data. */
  predicate Twin(h: Heap, i: nat)
    requires i < |h| && Rep(h, i) < |h|
  {
    References(h[i]) == References(h[Rep(h, i)]) && h[i].data == h[Rep(h, i)].data
  }

  ghost predicate Interchangeable(h: Heap)
    requires ValidHeap(h)
  {
    forall i: nat {:trigger Twin(h, i)} :: i < |h| ==> (RepInside(h, i); Twin(h, i))
  }

  lemma {:induction false} RepInside(h: Heap, i: nat)
    requires ValidHeap(h) && i < |h|
    ensures Rep(h, i) < |h|
  {
    assert ValidObject(h, i);
  }

  /** The copy at the place of an object is a copy of the object itself, lock word aside. */
  ghost predicate CopyOf(h: Heap, lock: seq<nat>, image: map<nat, Copy>, i: nat)
    requires ValidHeap(h) && |lock| == |h| && i < |h|
  {
    && Address(lock[i]) in image
    && Translated(lock, References(h[i]), image[Address(lock[i])].refs)
    && image[Address(lock[i])].data == h[i].data
  }

  lemma {:induction false} KeptIsTwin(h: Heap, i: nat)
    requires ValidHeap(h) && Interchangeable(h) && i < |h|
    ensures References(h[i]) == References(h[Kept(h, i)]) && h[i].data == h[Kept(h, i)].data
  {
    RepInside(h, i);
    RepInside(h, Kept(h, i));
    assert Twin(h, i) && Twin(h, Kept(h, i));
  }

  /** Then nothing is lost but lock words: every path arrives, and every place holds a copy of each object there. */
  lemma {:induction false} TwinsKept(h: Heap, lock: seq<nat>, image: map<nat, Copy>)
    requires ValidHeap(h) && Copied(h, lock, image) && Injective(h, lock) && Interchangeable(h)
    ensures forall i: nat, path: Path :: i < |h| ==> PathKept(h, lock, image, i, path)
    ensures forall i: nat :: i < |h| ==> CopyOf(h, lock, image, i)
  {
    forall i: nat | i < |h| ensures Alike(h, i) && CopyOf(h, lock, image, i) {
      KeptIsTwin(h, i);
      assert CopiedAt(h, lock, image, i);
      forall c: nat, k: nat ensures RefsAlike(h, i, c, k) {
        RefInside(h, i, c, k);
      }
    }
    GraphKept(h, lock, image);
  }
}
