/**
 The walk that assigns a bin slot to every object of a heap with arbitrary cycles, the pass that
 turns bin slots into offsets, and the hash codes that are saved and restored on the way
 (image_writer.cc: CalculateNewObjectOffsets and CopyAndFixupObjects).
 */
module ImageWalk {
  import opened ImageBins

  /** Before the walk no object is locked: its lock word is empty or holds a hash code. */
  ghost predicate Unlocked(h: Heap, lock0: seq<nat>) {
    |lock0| == |h| && forall i :: 0 <= i < |h| ==> lock0[i] == 0 || IsHash(lock0[i])
  }

  /** An object still has its own lock word or the slot of its representative. */
  ghost predicate LockAt(h: Heap, lock0: seq<nat>, lock: seq<nat>, index: map<nat, nat>, i: nat)
    requires |lock0| == |lock| == |h| && i < |h|
  {
    if IsForward(lock[i]) then Rep(h, i) in index && Rep(h, i) < |h| && lock[i] == Forward(SlotOf(h, index, Rep(h, i)))
    else lock[i] == lock0[i]
  }

  ghost predicate Locks(h: Heap, lock0: seq<nat>, lock: seq<nat>, index: map<nat, nat>) {
    && Unlocked(h, lock0) && |lock| == |h|
    && (forall i: nat :: i < |h| ==> LockAt(h, lock0, lock, index, i))
    && (forall r :: r in index ==> r < |h| && IsForward(lock[r]))
  }

  ghost predicate Owns(h: Heap, index: map<nat, nat>, w: nat, r: nat) {
    r in index && r < |h| && w == SlotOf(h, index, r)
  }

  /** The hash code of an object is saved under its slot, unless others at its place have different ones. */
  ghost predicate HashKept(h: Heap, lock0: seq<nat>, index: map<nat, nat>, saved: map<nat, nat>, r: nat)
    requires |lock0| == |h| && r in index && r < |h|
  {
    var w := SlotOf(h, index, r);
    (w in saved <==> IsHash(lock0[r])) && (w in saved ==> saved[w] == HashCode(lock0[r]))
  }

  ghost predicate Hashes(h: Heap, lock0: seq<nat>, index: map<nat, nat>, saved: map<nat, nat>)
    requires |lock0| == |h| && forall r :: r in index ==> r < |h|
  {
    && (forall w :: w in saved ==> exists r :: Owns(h, index, w, r))
    && (forall r :: r in index && Uniform(h, lock0, r) ==> HashKept(h, lock0, index, saved, r))
  }

  /** What holds throughout the walk. */
  ghost predicate Binned(h: Heap, begin: nat, lock0: seq<nat>, lock: seq<nat>, index: map<nat, nat>, sizes: seq<nat>,
                         saved: map<nat, nat>) {
    && ValidHeap(h) && Fits(h, begin)
    && Packed(h, index, sizes) && Locks(h, lock0, lock, index) && Hashes(h, lock0, index, saved)
  }

  function SavedWith(saved: map<nat, nat>, slot: nat, word: nat): map<nat, nat> {
    if IsHash(word) then saved[slot := HashCode(word)] else saved
  }

  // ----- one step of the walk -----

  lemma {:induction false} LocksNew(h: Heap, lock0: seq<nat>, lock: seq<nat>, index: map<nat, nat>, r: nat, at: nat,
                                    lock': seq<nat>)
    requires Locks(h, lock0, lock, index) && IsRep(h, r) && r !in index && !IsForward(lock[r])
    requires lock' == lock[r := Forward(Pack(BinOf(h[r].kind), at))] && IsForward(lock'[r])
    ensures Locks(h, lock0, lock', index[r := at])
  {
    var index' := index[r := at];
    forall i: nat | i < |h| ensures LockAt(h, lock0, lock', index', i) {
      assert LockAt(h, lock0, lock, index, i);
    }
  }

  lemma {:induction false} LocksAlias(h: Heap, lock0: seq<nat>, lock: seq<nat>, index: map<nat, nat>, i: nat)
    requires Locks(h, lock0, lock, index) && i < |h| && Rep(h, i) in index && Rep(h, i) < |h|
    requires IsForward(Forward(SlotOf(h, index, Rep(h, i))))
    ensures Locks(h, lock0, lock[i := Forward(SlotOf(h, index, Rep(h, i)))], index)
  {
    var lock' := lock[i := Forward(SlotOf(h, index, Rep(h, i)))];
    forall j: nat | j < |h| ensures LockAt(h, lock0, lock', index, j) {
      assert LockAt(h, lock0, lock, index, j);
    }
  }

  /** The slot of a new representative was not in use. */
  lemma {:induction false} HashesNew(h: Heap, lock0: seq<nat>, index: map<nat, nat>, saved: map<nat, nat>, r: nat,
                                     at: nat)
    requires |lock0| == |h| && (forall s :: s in index ==> s < |h|) && r < |h| && r !in index
    requires Hashes(h, lock0, index, saved)
    requires forall s :: s in index ==> SlotOf(h, index[r := at], s) != SlotOf(h, index[r := at], r)
    ensures Hashes(h, lock0, index[r := at], SavedWith(saved, SlotOf(h, index[r := at], r), lock0[r]))
  {
    var index' := index[r := at];
    var w := SlotOf(h, index', r);
    var saved' := SavedWith(saved, w, lock0[r]);
    assert w !in saved by {
      forall s ensures !Owns(h, index, w, s) {
        assert s in index ==> SlotOf(h, index, s) == SlotOf(h, index', s);
      }
    }
    forall v | v in saved' ensures exists s :: Owns(h, index', v, s) {
      if v == w {
        assert Owns(h, index', v, r);
      } else {
        var s :| Owns(h, index, v, s);
        assert Owns(h, index', v, s);
      }
    }
    forall s | s in index' && Uniform(h, lock0, s) ensures HashKept(h, lock0, index', saved', s) {
      assert s != r ==> HashKept(h, lock0, index, saved, s);
    }
  }

  /** A duplicate overwrites what is saved for its representative with its own hash code. */
  lemma {:induction false} HashesAlias(h: Heap, lock0: seq<nat>, index: map<nat, nat>, saved: map<nat, nat>, i: nat,
                                       r: nat)
    requires |lock0| == |h| && (forall s :: s in index ==> s < |h|) && i < |h| && Rep(h, i) == r != i && r in index
    requires Hashes(h, lock0, index, saved)
    requires forall s :: s in index && s != r ==> SlotOf(h, index, s) != SlotOf(h, index, r)
    ensures Hashes(h, lock0, index, SavedWith(saved, SlotOf(h, index, r), lock0[i]))
  {
    var w := SlotOf(h, index, r);
    var saved' := SavedWith(saved, w, lock0[i]);
    forall v | v in saved' ensures exists s :: Owns(h, index, v, s) {
      if v == w {
        assert Owns(h, index, v, r);
      }
    }
    forall s | s in index && Uniform(h, lock0, s) ensures HashKept(h, lock0, index, saved', s) {
      assert HashKept(h, lock0, index, saved, s);
    }
  }

  /** AssignImageBinSlot keeps everything. */
  lemma {:induction false} AssignStep(h: Heap, begin: nat, lock0: seq<nat>, lock: seq<nat>, index: map<nat, nat>,
                                      sizes: seq<nat>, saved: map<nat, nat>, r: nat, b: nat, slot: nat)
    requires Binned(h, begin, lock0, lock, index, sizes, saved) && IsRep(h, r) && !IsForward(lock[r])
    requires b == BinOf(h[r].kind) && slot == Pack(b, sizes[b])
    ensures IsForward(Forward(slot))
    ensures Binned(h, begin, lock0, lock[r := Forward(slot)], index[r := sizes[b]], sizes[b := sizes[b] + Room(h[r])],
                   SavedWith(saved, slot, lock[r]))
  {
    var index', sizes' := index[r := sizes[b]], sizes[b := sizes[b] + Room(h[r])];
    assert LockAt(h, lock0, lock, index, r);
    PackedStep(h, index, sizes, r, b);
    SlotFits(h, index', sizes', begin, r);
    LocksNew(h, lock0, lock, index, r, sizes[b], lock[r := Forward(slot)]);
    forall s | s in index ensures SlotOf(h, index', s) != SlotOf(h, index', r) {
      SlotsDiffer(h, index', sizes', begin, s, r);
    }
    HashesNew(h, lock0, index, saved, r, sizes[b]);
  }

  /** Pointing a duplicate at the slot of the interned string keeps everything. */
  lemma {:induction false} AliasStep(h: Heap, begin: nat, lock0: seq<nat>, lock: seq<nat>, index: map<nat, nat>,
                                     sizes: seq<nat>, saved: map<nat, nat>, i: nat, r: nat, slot: nat)
    requires Binned(h, begin, lock0, lock, index, sizes, saved) && i < |h| && Rep(h, i) == r != i && !IsForward(lock[i])
    requires r in index && r < |h| && slot == SlotOf(h, index, r)
    ensures IsForward(Forward(slot))
    ensures Binned(h, begin, lock0, lock[i := Forward(slot)], index, sizes, SavedWith(saved, slot, lock[i]))
  {
    SlotFits(h, index, sizes, begin, r);
    assert LockAt(h, lock0, lock, index, i);
    LocksAlias(h, lock0, lock, index, i);
    forall s | s in index && s != r ensures SlotOf(h, index, s) != SlotOf(h, index, r) {
      SlotsDiffer(h, index, sizes, begin, s, r);
    }
    HashesAlias(h, lock0, index, saved, i, r);
  }

  // ----- turning slots into offsets -----

  /** No object below k shares the place of r. */
  ghost predicate Ahead(h: Heap, r: nat, k: nat) {
    forall i :: 0 <= i < k && i < |h| ==> Rep(h, i) != r
  }

  /** The first k objects have their offsets, the others their slots. */
  ghost predicate OffsetAt(h: Heap, begin: nat, lock: seq<nat>, index: map<nat, nat>, sizes: seq<nat>, k: nat, i: nat)
    requires |lock| == |h| && i < |h| && |sizes| == BINS
  {
    var r := Rep(h, i);
    && r in index && r < |h|
    && lock[i] == Forward(if i < k then OffsetOf(h, index, sizes, begin, r) else SlotOf(h, index, r))
  }

  /** A restored hash code belongs to r, and is the right one if r is alone at its place. */
  ghost predicate Restores(h: Heap, begin: nat, lock0: seq<nat>, index: map<nat, nat>, sizes: seq<nat>, e: (nat, nat),
                           r: nat)
    requires |lock0| == |h| && |sizes| == BINS
  {
    && r in index && r < |h| && e.0 == OffsetOf(h, index, sizes, begin, r)
    && (Uniform(h, lock0, r) ==> IsHash(lock0[r]) && e.1 == HashCode(lock0[r]))
  }

  ghost predicate HashMoved(h: Heap, begin: nat, lock0: seq<nat>, index: map<nat, nat>, sizes: seq<nat>,
                            hashes: seq<(nat, nat)>, r: nat)
    requires |lock0| == |h| && r < |h| && |sizes| == BINS
  {
    r in index && (OffsetOf(h, index, sizes, begin, r), HashCode(lock0[r])) in hashes
  }

  ghost predicate Offsets(h: Heap, begin: nat, lock: seq<nat>, index: map<nat, nat>, sizes: seq<nat>, k: nat) {
    |lock| == |h| && |sizes| == BINS && forall i: nat :: i < |h| ==> OffsetAt(h, begin, lock, index, sizes, k, i)
  }

  /** What is still saved belongs to objects ahead. */
  ghost predicate SavedAhead(h: Heap, lock0: seq<nat>, index: map<nat, nat>, saved: map<nat, nat>, k: nat) {
    && |lock0| == |h|
    && (forall w :: w in saved ==> exists r :: Owns(h, index, w, r) && Ahead(h, r, k))
    && (forall r :: r in index && Uniform(h, lock0, r) && Ahead(h, r, k) ==> HashKept(h, lock0, index, saved, r))
  }

  /** What has been handed on belongs to objects moved. */
  ghost predicate HandedOn(h: Heap, begin: nat, lock0: seq<nat>, index: map<nat, nat>, sizes: seq<nat>,
                           hashes: seq<(nat, nat)>, k: nat) {
    && |lock0| == |h| && |sizes| == BINS
    && (forall e :: e in hashes ==> exists r :: Restores(h, begin, lock0, index, sizes, e, r))
    && (forall r: nat :: Uniform(h, lock0, r) && !Ahead(h, r, k) && IsHash(lock0[r]) ==>
      HashMoved(h, begin, lock0, index, sizes, hashes, r))
  }

  /** What holds after the first k objects have been moved. */
  ghost predicate Moved(h: Heap, begin: nat, lock0: seq<nat>, lock: seq<nat>, index: map<nat, nat>, sizes: seq<nat>,
                        saved: map<nat, nat>, hashes: seq<(nat, nat)>, k: nat) {
    && ValidHeap(h) && Fits(h, begin) && Packed(h, index, sizes) && Unlocked(h, lock0)
    && Offsets(h, begin, lock, index, sizes, k)
    && SavedAhead(h, lock0, index, saved, k)
    && HandedOn(h, begin, lock0, index, sizes, hashes, k)
  }

  lemma {:induction false} MovedStart(h: Heap, begin: nat, lock0: seq<nat>, lock: seq<nat>, index: map<nat, nat>,
                                      sizes: seq<nat>, saved: map<nat, nat>)
    requires Binned(h, begin, lock0, lock, index, sizes, saved) && forall i :: 0 <= i < |h| ==> IsForward(lock[i])
    ensures Moved(h, begin, lock0, lock, index, sizes, saved, [], 0)
  {
    forall i: nat | i < |h| ensures OffsetAt(h, begin, lock, index, sizes, 0, i) {
      assert LockAt(h, lock0, lock, index, i);
    }
    forall w | w in saved ensures exists r :: Owns(h, index, w, r) && Ahead(h, r, 0) {
      var r :| Owns(h, index, w, r);
      assert Ahead(h, r, 0);
    }
  }

  lemma {:induction false} OffsetsStep(h: Heap, begin: nat, lock: seq<nat>, index: map<nat, nat>, sizes: seq<nat>,
                                       k: nat, r: nat, lock': seq<nat>)
    requires Offsets(h, begin, lock, index, sizes, k) && k < |h| && r == Rep(h, k) && r in index && r < |h|
    requires lock' == lock[k := Forward(OffsetOf(h, index, sizes, begin, r))]
    ensures Offsets(h, begin, lock', index, sizes, k + 1)
  {
    var n := k + 1;
    forall i: nat | i < |h| ensures OffsetAt(h, begin, lock', index, sizes, n, i) {
      assert OffsetAt(h, begin, lock, index, sizes, k, i);
    }
  }

  lemma {:induction false} SavedAheadStep(h: Heap, lock0: seq<nat>, index: map<nat, nat>, saved: map<nat, nat>, k: nat,
                                          r: nat, w: nat)
    requires SavedAhead(h, lock0, index, saved, k) && k < |h| && r == Rep(h, k) && Owns(h, index, w, r)
    requires forall s :: s in index && s != r ==> s < |h| && SlotOf(h, index, s) != w
    ensures SavedAhead(h, lock0, index, saved - {w}, k + 1)
  {
    forall v | v in saved - {w} ensures exists s :: Owns(h, index, v, s) && Ahead(h, s, k + 1) {
      var s :| Owns(h, index, v, s) && Ahead(h, s, k);
      assert s != r && Ahead(h, s, k + 1);
    }
    forall s | s in index && Uniform(h, lock0, s) && Ahead(h, s, k + 1)
      ensures HashKept(h, lock0, index, saved - {w}, s)
    {
      assert Ahead(h, s, k) && s != r;
      assert HashKept(h, lock0, index, saved, s);
    }
  }

  /** A hash code handed on is found under its owner's offset. */
  lemma {:induction false} HandedOnMore(h: Heap, begin: nat, lock0: seq<nat>, index: map<nat, nat>, sizes: seq<nat>,
                                        hashes: seq<(nat, nat)>, k: nat, r: nat, e: (nat, nat))
    requires HandedOn(h, begin, lock0, index, sizes, hashes, k) && k < |h| && r == Rep(h, k)
    requires Restores(h, begin, lock0, index, sizes, e, r)
    ensures HandedOn(h, begin, lock0, index, sizes, hashes + [e], k + 1)
  {
    var all := hashes + [e];
    forall d | d in all ensures exists s :: Restores(h, begin, lock0, index, sizes, d, s) {
      assert d !in hashes ==> Restores(h, begin, lock0, index, sizes, d, r);
    }
    forall s: nat | Uniform(h, lock0, s) && !Ahead(h, s, k + 1) && IsHash(lock0[s])
      ensures HashMoved(h, begin, lock0, index, sizes, all, s)
    {
      if Ahead(h, s, k) {
        assert s == r && all[|hashes|] == e;
      } else {
        assert HashMoved(h, begin, lock0, index, sizes, hashes, s);
      }
    }
  }

  lemma {:induction false} HandedOnSame(h: Heap, begin: nat, lock0: seq<nat>, index: map<nat, nat>, sizes: seq<nat>,
                                        hashes: seq<(nat, nat)>, k: nat, r: nat)
    requires HandedOn(h, begin, lock0, index, sizes, hashes, k) && k < |h| && r == Rep(h, k)
    requires !(Uniform(h, lock0, r) && IsHash(lock0[r]) && Ahead(h, r, k))
    ensures HandedOn(h, begin, lock0, index, sizes, hashes, k + 1)
  {
    forall s: nat | Uniform(h, lock0, s) && !Ahead(h, s, k + 1) && IsHash(lock0[s])
      ensures HashMoved(h, begin, lock0, index, sizes, hashes, s)
    {
      assert Ahead(h, s, k) ==> s == r;
    }
  }

  /** The first object to be moved to a place finds its hash code, the others find nothing. */
  lemma {:induction false} FoundHash(h: Heap, lock0: seq<nat>, index: map<nat, nat>, saved: map<nat, nat>, k: nat,
                                     r: nat, w: nat)
    requires SavedAhead(h, lock0, index, saved, k) && k < |h| && r == Rep(h, k) && Owns(h, index, w, r)
    requires forall s :: s in index && s != r ==> s < |h| && SlotOf(h, index, s) != w
    ensures w in saved ==> Ahead(h, r, k)
    ensures Uniform(h, lock0, r) && Ahead(h, r, k) ==>
      (w in saved <==> IsHash(lock0[r])) && (w in saved ==> saved[w] == HashCode(lock0[r]))
  {
    if w in saved {
      var s :| Owns(h, index, w, s) && Ahead(h, s, k);
      assert s == r;
    }
    if Uniform(h, lock0, r) && Ahead(h, r, k) {
      assert HashKept(h, lock0, index, saved, r);
    }
  }

  /** SetImageOffset keeps everything. */
  lemma {:induction false} MovedStep(h: Heap, begin: nat, lock0: seq<nat>, lock: seq<nat>, index: map<nat, nat>,
                                     sizes: seq<nat>, saved: map<nat, nat>, hashes: seq<(nat, nat)>, k: nat, w: nat,
                                     offset: nat)
    requires Moved(h, begin, lock0, lock, index, sizes, saved, hashes, k) && k < |h|
    requires Owns(h, index, w, Rep(h, k)) && offset == OffsetOf(h, index, sizes, begin, Rep(h, k))
    ensures Moved(h, begin, lock0, lock[k := Forward(offset)], index, sizes, saved - {w},
                  if w in saved then hashes + [(offset, saved[w])] else hashes, k + 1)
  {
    var r := Rep(h, k);
    OffsetsStep(h, begin, lock, index, sizes, k, r, lock[k := Forward(offset)]);
    forall s | s in index && s != r ensures s < |h| && SlotOf(h, index, s) != w {
      SlotsDiffer(h, index, sizes, begin, s, r);
    }
    SavedAheadStep(h, lock0, index, saved, k, r, w);
    FoundHash(h, lock0, index, saved, k, r, w);
    if w in saved {
      HandedOnMore(h, begin, lock0, index, sizes, hashes, k, r, (offset, saved[w]));
    } else {
      HandedOnSame(h, begin, lock0, index, sizes, hashes, k, r);
    }
  }

  /** Once all objects are moved nothing is left saved. */
  lemma {:induction false} NothingLeft(h: Heap, lock0: seq<nat>, index: map<nat, nat>, sizes: seq<nat>,
                                       saved: map<nat, nat>)
    requires Packed(h, index, sizes) && SavedAhead(h, lock0, index, saved, |h|)
    ensures saved == map[]
  {
    forall w ensures w !in saved {
      forall r ensures !(Owns(h, index, w, r) && Ahead(h, r, |h|)) {
        if r in index {
          assert InBin(h, index, sizes, r);
        }
      }
    }
  }
}
