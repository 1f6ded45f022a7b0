/** ImageWriter as an object: the lock words of the heap and the bins are updated in place. */
module ImageWriter {
  import opened Wrappers
  import opened Bytes
  import opened ImageBins
  import opened ImageWalk
  import opened ImageGraph

  /** Lock words that are in the forwarding state do not change. */
  ghost predicate Grown(before: seq<nat>, lock: seq<nat>) {
    |before| == |lock| && forall i :: 0 <= i < |lock| && IsForward(before[i]) ==> lock[i] == before[i]
  }

  ghost function Unassigned(lock: seq<nat>): set<nat> {
    set i | 0 <= i < |lock| && !IsForward(lock[i])
  }

  lemma {:induction false} FewerUnassigned(before: seq<nat>, lock: seq<nat>, o: nat)
    requires Grown(before, lock) && o < |lock| && !IsForward(before[o]) && IsForward(lock[o])
    ensures Unassigned(lock) < Unassigned(before)
  {
    assert o in Unassigned(before) && o !in Unassigned(lock);
  }

  lemma {:induction false} UnassignedShrinks(before: seq<nat>, lock: seq<nat>)
    requires Grown(before, lock)
    ensures Unassigned(lock) <= Unassigned(before)
  {
  }

  /** What is referred to has a slot. */
  predicate VisitedRef(lock: seq<nat>, ref: Ref) {
    ref.Some? ==> ref.value < |lock| && IsForward(lock[ref.value])
  }

  predicate Visited(lock: seq<nat>, refs: seq<Ref>) {
    forall k :: 0 <= k < |refs| ==> VisitedRef(lock, refs[k])
  }

  ghost predicate Leads(refs: seq<Ref>, reach: set<nat>) {
    forall k :: 0 <= k < |refs| && refs[k].Some? ==> refs[k].value in reach
  }

  /** The walk does not leave the set: not by a field, nor by what it reads behind the fields, nor by interning. */
  ghost predicate ClosedAt(h: Heap, reach: set<nat>, o: nat) {
    && o < |h| && Rep(h, o) in reach && Leads(WalkedRefs(h[o].kind), reach)
    && forall c :: 0 <= c < |h[o].fields| ==> Leads(h[o].fields[c], reach)
  }

  ghost predicate Closed(h: Heap, reach: set<nat>) {
    forall o {:trigger ClosedAt(h, reach, o)} :: o in reach ==> ClosedAt(h, reach, o)
  }

  /** Nothing outside the set has changed. */
  ghost predicate OnlyIn(before: seq<nat>, lock: seq<nat>, reach: set<nat>) {
    |before| == |lock| && forall i :: 0 <= i < |lock| && i !in reach ==> lock[i] == before[i]
  }

  /** Everything. */
  ghost function Whole(h: Heap): set<nat> {
    set i {:trigger h[i]} | 0 <= i < |h|
  }

  lemma {:induction false} WholeIsClosed(h: Heap)
    requires ValidHeap(h)
    ensures Closed(h, Whole(h))
  {
    forall o | o in Whole(h) ensures ClosedAt(h, Whole(h), o) {
      assert ValidObject(h, o);
      RefsInside(h, o);
      InsideLeads(WalkedRefs(h[o].kind), h);
      forall c | 0 <= c < |h[o].fields| ensures Leads(h[o].fields[c], Whole(h)) {
        InsideLeads(h[o].fields[c], h);
      }
    }
  }

  lemma {:induction false} InsideLeads(refs: seq<Ref>, h: Heap)
    requires Inside(refs, |h|)
    ensures Leads(refs, Whole(h))
  {
    forall k | 0 <= k < |refs| && refs[k].Some? ensures refs[k].value in Whole(h) {
      assert Within(refs[k], |h|);
    }
  }

  /** The offset of every object is aligned and inside the object area. */
  ghost predicate PlacedAt(h: Heap, begin: nat, end: nat, lock: seq<nat>, i: nat)
    requires |lock| == |h| && i < |h|
  {
    var r, offset := Rep(h, i), Address(lock[i]);
    && IsForward(lock[i]) && r < |h|
    && offset % ALIGN == 0 && begin <= offset && offset + Room(h[r]) <= end
  }

  /** Objects share an offset if they have the same representative, and are apart otherwise. */
  ghost predicate PairPlaced(h: Heap, lock: seq<nat>, i: nat, j: nat)
    requires |lock| == |h| && i < |h| && j < |h|
  {
    var r, s := Rep(h, i), Rep(h, j);
    r < |h| && s < |h|
    && if r == s then Address(lock[i]) == Address(lock[j])
       else Apart(Address(lock[i]), Room(h[r]), Address(lock[j]), Room(h[s]))
  }

  ghost predicate LaidOut(h: Heap, begin: nat, end: nat, lock: seq<nat>) {
    && |lock| == |h|
    && (forall i: nat :: i < |h| ==> PlacedAt(h, begin, end, lock, i))
    && (forall i: nat, j: nat :: i < |h| && j < |h| ==> PairPlaced(h, lock, i, j))
  }

  lemma {:induction false} AllAssigned(h: Heap, begin: nat, lock0: seq<nat>, lock: seq<nat>, index: map<nat, nat>,
                                       sizes: seq<nat>, saved: map<nat, nat>)
    requires Binned(h, begin, lock0, lock, index, sizes, saved) && forall i :: 0 <= i < |h| ==> IsForward(lock[i])
    ensures index.Keys == Reps(h) && sizes == BinSizes(h)
  {
    forall r ensures r in index <==> r in Reps(h) {
      if r in index {
        assert InBin(h, index, sizes, r);
      }
      if r in Reps(h) {
        assert LockAt(h, lock0, lock, index, r);
      }
    }
  }

  /** No sum of bin sizes overflows the signed int it is accumulated in. */
  lemma {:induction false} TotalFits(h: Heap, begin: nat, index: map<nat, nat>, sizes: seq<nat>, upTo: nat)
    requires Packed(h, index, sizes) && Fits(h, begin) && upTo <= |sizes|
    ensures begin + Total(sizes, upTo) <= begin + Total(sizes, |sizes|) < 0x8000_0000
  {
    SizesBelow(h, index, sizes, begin);
    TotalBelow(sizes, BinSizes(h), |sizes|);
    TotalGrows(sizes, upTo, |sizes|);
  }

  lemma {:induction false} OffsetRead(h: Heap, begin: nat, lock: seq<nat>, index: map<nat, nat>, sizes: seq<nat>,
                                      i: nat)
    requires Packed(h, index, sizes) && Offsets(h, begin, lock, index, sizes, |h|) && i < |h|
    requires begin % ALIGN == 0 && begin + Total(sizes, |sizes|) < TWO_32
    ensures Rep(h, i) in index && Rep(h, i) < |h| && IsForward(lock[i])
    ensures Address(lock[i]) == OffsetOf(h, index, sizes, begin, Rep(h, i))
  {
    assert OffsetAt(h, begin, lock, index, sizes, |h|, i);
    OffsetFits(h, index, sizes, begin, Rep(h, i));
    AlignedForward(OffsetOf(h, index, sizes, begin, Rep(h, i)));
  }

  lemma {:induction false} AllLaidOut(h: Heap, begin: nat, lock: seq<nat>, index: map<nat, nat>, sizes: seq<nat>,
                                      end: nat)
    requires Packed(h, index, sizes) && Offsets(h, begin, lock, index, sizes, |h|)
    requires begin % ALIGN == 0 && end == begin + Total(sizes, |sizes|) < TWO_32
    ensures LaidOut(h, begin, end, lock)
  {
    forall i: nat | i < |h| ensures PlacedAt(h, begin, end, lock, i) {
      OffsetRead(h, begin, lock, index, sizes, i);
      OffsetFits(h, index, sizes, begin, Rep(h, i));
    }
    forall i: nat, j: nat | i < |h| && j < |h| ensures PairPlaced(h, lock, i, j) {
      OffsetRead(h, begin, lock, index, sizes, i);
      OffsetRead(h, begin, lock, index, sizes, j);
      if Rep(h, i) != Rep(h, j) {
        OffsetsApart(h, index, sizes, begin, Rep(h, i), Rep(h, j));
      }
    }
  }

  // ----- restoring hash codes -----

  /** The image after the hash codes have been written in order. */
  ghost function Restored(image: map<nat, Copy>, hashes: seq<(nat, nat)>): (r: map<nat, Copy>)
    requires forall e :: e in hashes ==> e.0 in image
    ensures r.Keys == image.Keys
    ensures forall o :: o in image ==> r[o].refs == image[o].refs && r[o].data == image[o].data
  {
    if hashes == [] then image
    else
      var last, r := hashes[|hashes| - 1], Restored(image, hashes[..|hashes| - 1]);
      r[last.0 := r[last.0].(lock := FromHash(last.1))]
  }

  lemma {:induction false} RestoredAt(image: map<nat, Copy>, hashes: seq<(nat, nat)>, offset: nat, hash: nat)
    requires forall e :: e in hashes ==> e.0 in image
    requires offset in image && forall e :: e in hashes && e.0 == offset ==> e.1 == hash
    ensures Restored(image, hashes)[offset].lock
         == if (offset, hash) in hashes then FromHash(hash) else image[offset].lock
    decreases |hashes|
  {
    if hashes != [] {
      var n := |hashes| - 1;
      RestoredAt(image, hashes[..n], offset, hash);
      assert hashes == hashes[..n] + [hashes[n]];
    }
  }

  /** Hash codes are written to places that have been copied to. */
  lemma {:induction false} RestoredInImage(h: Heap, begin: nat, lock0: seq<nat>, lock: seq<nat>, index: map<nat, nat>,
                                           sizes: seq<nat>, saved: map<nat, nat>, hashes: seq<(nat, nat)>,
                                           image: map<nat, Copy>)
    requires Moved(h, begin, lock0, lock, index, sizes, saved, hashes, |h|) && begin % ALIGN == 0
    requires Copied(h, lock, image)
    ensures forall e :: e in hashes ==> e.0 in image
  {
    TotalFits(h, begin, index, sizes, |sizes|);
    forall e | e in hashes ensures e.0 in image {
      var r :| Restores(h, begin, lock0, index, sizes, e, r);
      assert InBin(h, index, sizes, r);
      OffsetRead(h, begin, lock, index, sizes, r);
      assert CopiedAt(h, lock, image, r);
    }
  }

  /** Objects with different representatives have different places. */
  lemma {:induction false} PlacesDiffer(h: Heap, begin: nat, end: nat, lock: seq<nat>)
    requires ValidHeap(h) && LaidOut(h, begin, end, lock)
    ensures Injective(h, lock)
  {
    forall i: nat, j: nat | i < |h| && j < |h|
      ensures Address(lock[i]) == Address(lock[j]) <==> Rep(h, i) == Rep(h, j)
    {
      assert PlacedAt(h, begin, end, lock, i) && PlacedAt(h, begin, end, lock, j) && PairPlaced(h, lock, i, j);
      assert ValidObject(h, Rep(h, i)) && ValidObject(h, Rep(h, j));
    }
  }

  /** Every entry at an offset is the hash code of the object there. */
  lemma {:induction false} EntryIsOwn(h: Heap, begin: nat, lock0: seq<nat>, index: map<nat, nat>, sizes: seq<nat>,
                                      e: (nat, nat), r: nat, s: nat)
    requires ValidHeap(h) && Packed(h, index, sizes) && |lock0| == |h|
    requires r in index && Uniform(h, lock0, r) && Restores(h, begin, lock0, index, sizes, e, s)
    requires e.0 == OffsetOf(h, index, sizes, begin, r)
    ensures IsHash(lock0[r]) && e.1 == HashCode(lock0[r])
  {
    if s != r {
      assert ValidObject(h, r) && ValidObject(h, s);
      OffsetsApart(h, index, sizes, begin, r, s);
    }
  }

  /** The lock word of the image copy is the one the object had. */
  lemma {:induction false} LockRestored(h: Heap, begin: nat, lock0: seq<nat>, lock: seq<nat>, index: map<nat, nat>,
                                        sizes: seq<nat>, saved: map<nat, nat>, hashes: seq<(nat, nat)>,
                                        image: map<nat, Copy>, r: nat, offset: nat)
    requires Moved(h, begin, lock0, lock, index, sizes, saved, hashes, |h|) && Uniform(h, lock0, r)
    requires r in index && offset == OffsetOf(h, index, sizes, begin, r)
    requires offset in image && image[offset].lock == 0 && forall e :: e in hashes ==> e.0 in image
    ensures Restored(image, hashes)[offset].lock == lock0[r]
  {
    var hash := HashCode(lock0[r]);
    forall e | e in hashes && e.0 == offset ensures IsHash(lock0[r]) && e.1 == hash {
      var s :| Restores(h, begin, lock0, index, sizes, e, s);
      EntryIsOwn(h, begin, lock0, index, sizes, e, r, s);
    }
    RestoredAt(image, hashes, offset, hash);
    if IsHash(lock0[r]) {
      assert !Ahead(h, r, |h|);
      assert HashMoved(h, begin, lock0, index, sizes, hashes, r);
      HashRoundTrip(lock0[r]);
    }
  }

  /** The image copies of the objects at the place of r have the lock words of these objects. */
  ghost predicate Preserved(h: Heap, lock0: seq<nat>, lock: seq<nat>, image: map<nat, Copy>, r: nat) {
    && |lock0| == |lock| == |h|
    && forall i :: 0 <= i < |h| && Rep(h, i) == r ==>
         Address(lock[i]) in image && image[Address(lock[i])].lock == lock0[i]
  }

  /** Hash codes survive exactly where the objects that share a place agree on them. */
  lemma {:induction false} PreservedIfUniform(h: Heap, begin: nat, lock0: seq<nat>, lock: seq<nat>,
                                              index: map<nat, nat>, sizes: seq<nat>, saved: map<nat, nat>,
                                              hashes: seq<(nat, nat)>, unlocked: map<nat, Copy>, r: nat)
    requires Moved(h, begin, lock0, lock, index, sizes, saved, hashes, |h|) && IsRep(h, r) && begin % ALIGN == 0
    requires forall i :: 0 <= i < |h| ==> Address(lock[i]) in unlocked && unlocked[Address(lock[i])].lock == 0
    requires forall e :: e in hashes ==> e.0 in unlocked
    ensures Uniform(h, lock0, r) <==> Preserved(h, lock0, lock, Restored(unlocked, hashes), r)
  {
    TotalFits(h, begin, index, sizes, |sizes|);
    OffsetRead(h, begin, lock, index, sizes, r);
    forall i | 0 <= i < |h| && Rep(h, i) == r ensures Address(lock[i]) == Address(lock[r]) {
      OffsetRead(h, begin, lock, index, sizes, i);
    }
    if Uniform(h, lock0, r) {
      LockRestored(h, begin, lock0, lock, index, sizes, saved, hashes, unlocked, r, Address(lock[r]));
    }
  }

  /** The two parts of the invariant of ImageWriter, so that proofs can name the one they need. */
  datatype Part = Bins | End

  class ImageWriter {
    const heap: Heap
    const begin: nat
    ghost const lock0: seq<nat>
    var lock: seq<nat>
    var binSlotSizes: seq<nat>
    var imageEnd: nat
    var savedHashesMap: map<nat, nat>
    var savedHashes: seq<(nat, nat)>
    ghost var index: map<nat, nat>

    ghost predicate Sound(part: Part)
      reads this
    {
      match part
      case Bins => Binned(heap, begin, lock0, lock, index, binSlotSizes, savedHashesMap)
      case End => imageEnd == begin + Total(binSlotSizes, |binSlotSizes|) && begin % ALIGN == 0
    }

    ghost predicate Valid()
      reads this
    {
      |lock| == |heap| && forall part :: Sound(part)
    }

    /** Leaves room for the image header. */
    constructor (heap: Heap, lock: seq<nat>, headerSize: nat)
      requires ValidHeap(heap) && Unlocked(heap, lock) && Fits(heap, RoundUp(headerSize, ALIGN))
      ensures Valid() && this.heap == heap && this.lock == lock0 == lock && begin == RoundUp(headerSize, ALIGN)
      ensures savedHashes == []
    {
      this.heap, this.lock, this.lock0 := heap, lock, lock;
      binSlotSizes := EmptySizes();
      savedHashesMap, savedHashes, index := map[], [], map[];
      begin, imageEnd := RoundUp(headerSize, ALIGN), RoundUp(headerSize, ALIGN);
      new;
      EmptyBins(heap, lock);
      AlignedMod(RoundUp(headerSize, ALIGN), ALIGN);
    }

    method SetImageBinSlot(object_: nat, binSlot: nat)
      requires object_ < |lock| && !IsForward(lock[object_])
      modifies `lock, `savedHashesMap
      ensures lock == old(lock)[object_ := Forward(binSlot)]
      ensures savedHashesMap == SavedWith(old(savedHashesMap), binSlot, old(lock[object_]))
    {
      if IsHash(lock[object_]) {
        savedHashesMap := savedHashesMap[binSlot := HashCode(lock[object_])];
      }
      lock := lock[object_ := Forward(binSlot)];
    }

    method AssignImageBinSlot(object_: nat)
      requires Valid() && IsRep(heap, object_) && !IsForward(lock[object_])
      modifies this
      ensures Valid() && IsForward(lock[object_]) && lock == old(lock)[object_ := lock[object_]]
      ensures savedHashes == old(savedHashes)
    {
      assert Sound(Bins) && Sound(End);
      var bin := ChooseBin(heap[object_].kind);
      var offsetDelta := Room(heap[object_]);
      var slot := Pack(bin, binSlotSizes[bin]);
      AssignStep(heap, begin, lock0, lock, index, binSlotSizes, savedHashesMap, object_, bin, slot);
      TotalBump(binSlotSizes, bin, offsetDelta, |binSlotSizes|);
      index := index[object_ := binSlotSizes[bin]];
      binSlotSizes := binSlotSizes[bin := binSlotSizes[bin] + offsetDelta];
      SetImageBinSlot(object_, slot);
      imageEnd := imageEnd + offsetDelta;
    }

    function GetImageBinSlot(object_: nat): nat
      requires object_ < |lock|
      reads this
    {
      Address(lock[object_])
    }

    /** An interned duplicate takes the slot of the interned string, which may get one early. */
    method CalculateObjectBinSlots(object_: nat)
      requires Valid() && object_ < |heap| && !IsForward(lock[object_])
      modifies this
      ensures Valid() && Grown(old(lock), lock) && IsForward(lock[object_])
      ensures OnlyIn(old(lock), lock, {object_, Rep(heap, object_)})
      ensures savedHashes == old(savedHashes)
    {
      assert ValidObject(heap, object_) by { assert Sound(Bins); }
      if heap[object_].kind.StringObject? {
        var interned := heap[object_].kind.interned;
        if object_ != interned {
          if !IsForward(lock[interned]) {
            AssignImageBinSlot(interned);
          }
          SetAlias(object_, interned);
          return;
        }
      }
      AssignImageBinSlot(object_);
    }

    method SetAlias(object_: nat, interned: nat)
      requires Valid() && object_ < |heap| && Rep(heap, object_) == interned != object_ && interned < |heap|
      requires !IsForward(lock[object_]) && IsForward(lock[interned]) && IsRep(heap, interned)
      modifies `lock, `savedHashesMap
      ensures Valid() && Grown(old(lock), lock) && IsForward(lock[object_])
      ensures lock == old(lock)[object_ := lock[object_]]
    {
      assert Sound(Bins) && Sound(End) && LockAt(heap, lock0, lock, index, interned);
      SlotFits(heap, index, binSlotSizes, begin, interned);
      var slot := GetImageBinSlot(interned);
      AliasStep(heap, begin, lock0, lock, index, binSlotSizes, savedHashesMap, object_, interned, slot);
      SetImageBinSlot(object_, slot);
    }

    method WalkReferences(refs: seq<Ref>, ghost reach: set<nat>)
      requires Valid() && Inside(refs, |heap|) && Closed(heap, reach) && Leads(refs, reach)
      modifies this
      ensures Valid() && Grown(old(lock), lock) && Visited(lock, refs) && savedHashes == old(savedHashes)
      ensures OnlyIn(old(lock), lock, reach)
      decreases Unassigned(lock), 1
    {
      for i := 0 to |refs|
        invariant Valid() && Grown(old(lock), lock) && savedHashes == old(savedHashes)
        invariant OnlyIn(old(lock), lock, reach)
        invariant forall k :: 0 <= k < i ==> VisitedRef(lock, refs[k])
      {
        if refs[i].Some? {
          assert Within(refs[i], |heap|);
          UnassignedShrinks(old(lock), lock);
          WalkFieldsInOrder(refs[i].value, reach);
        }
      }
    }

    /** The fields of the parent classes come first; `classes` is how many classes of the object are walked. */
    method WalkInstanceFields(object_: nat, classes: nat, ghost reach: set<nat>)
      requires Valid() && object_ < |heap| && classes <= |heap[object_].fields|
      requires Closed(heap, reach) && object_ in reach
      modifies this
      ensures Valid() && Grown(old(lock), lock) && savedHashes == old(savedHashes)
      ensures forall c :: 0 <= c < classes ==> Visited(lock, heap[object_].fields[c])
      ensures OnlyIn(old(lock), lock, reach)
      decreases Unassigned(lock), 1 + classes
    {
      if classes > 0 {
        WalkInstanceFields(object_, classes - 1, reach);
        UnassignedShrinks(old(lock), lock);
        assert Inside(heap[object_].fields[classes - 1], |heap|) by {
          assert Sound(Bins);
          RefsInside(heap, object_);
        }
        assert ClosedAt(heap, reach, object_);
        WalkReferences(heap[object_].fields[classes - 1], reach);
      }
    }

    /**
     Terminates on every heap: each object that is entered had no slot before. Only objects that the walk can reach get
     one.
     */
    method WalkFieldsInOrder(object_: nat, ghost reach: set<nat>)
      requires Valid() && object_ < |heap| && Closed(heap, reach) && object_ in reach
      modifies this
      ensures Valid() && Grown(old(lock), lock) && IsForward(lock[object_])
      ensures !IsForward(old(lock)[object_]) ==>
        && (forall c :: 0 <= c < |heap[object_].fields| ==> Visited(lock, heap[object_].fields[c]))
        && Visited(lock, WalkedRefs(heap[object_].kind))
      ensures OnlyIn(old(lock), lock, reach) && savedHashes == old(savedHashes)
      decreases Unassigned(lock), 0
    {
      if IsForward(lock[object_]) {
        return;
      }
      assert ClosedAt(heap, reach, object_);
      CalculateObjectBinSlots(object_);
      FewerUnassigned(old(lock), lock, object_);
      WalkInstanceFields(object_, |heap[object_].fields|, reach);
      FewerUnassigned(old(lock), lock, object_);
      assert Inside(WalkedRefs(heap[object_].kind), |heap|) by {
        assert Sound(Bins);
        RefsInside(heap, object_);
      }
      match heap[object_].kind {
        case ClassObject(_, _, _, walked) => WalkReferences(walked, reach);
        case ObjectArray(elements) => WalkReferences(elements, reach);
        case _ =>
      }
    }

    /** heap->VisitObjects(WalkFieldsCallback, this) */
    method WalkAll()
      requires Valid()
      modifies this
      ensures Valid() && (forall i :: 0 <= i < |heap| ==> IsForward(lock[i]))
      ensures savedHashes == old(savedHashes)
    {
      assert Closed(heap, Whole(heap)) by {
        assert Sound(Bins);
        WholeIsClosed(heap);
      }
      for i := 0 to |heap|
        invariant Valid() && (forall k :: 0 <= k < i ==> IsForward(lock[k])) && savedHashes == old(savedHashes)
      {
        WalkFieldsInOrder(i, Whole(heap));
      }
    }

    /** What holds while slots are turned into offsets. */
    ghost predicate Moving(k: nat)
      reads this
    {
      && Moved(heap, begin, lock0, lock, index, binSlotSizes, savedHashesMap, savedHashes, k)
      && imageEnd == begin + Total(binSlotSizes, |binSlotSizes|) && begin % ALIGN == 0
    }

    /** GetBinSizeSum, the sum of the sizes of the bins below upTo */
    method GetBinSizeSum(upTo: nat) returns (sum: nat)
      requires upTo <= |binSlotSizes|
      ensures sum == Total(binSlotSizes, upTo)
    {
      sum := 0;
      for b := 0 to upTo
        invariant sum == Total(binSlotSizes, b)
      {
        sum := sum + binSlotSizes[b];
      }
    }

    method SetImageOffset(object_: nat, binSlot: nat, offset: nat)
      requires object_ < |lock|
      modifies `lock, `savedHashesMap, `savedHashes
      ensures lock == old(lock)[object_ := Forward(offset)] && savedHashesMap == old(savedHashesMap) - {binSlot}
      ensures savedHashes
           == if binSlot in old(savedHashesMap) then old(savedHashes) + [(offset, old(savedHashesMap)[binSlot])]
             else old(savedHashes)
    {
      if binSlot in savedHashesMap {
        savedHashes := savedHashes + [(offset, savedHashesMap[binSlot])];
        savedHashesMap := savedHashesMap - {binSlot};
      }
      lock := lock[object_ := Forward(offset)];
    }

    method UnbinObjectsIntoOffset(object_: nat)
      requires Moving(object_) && object_ < |heap|
      modifies `lock, `savedHashesMap, `savedHashes
      ensures Moving(object_ + 1)
    {
      ghost var r := Rep(heap, object_);
      assert OffsetAt(heap, begin, lock, index, binSlotSizes, object_, object_);
      SlotFits(heap, index, binSlotSizes, begin, r);
      var binSlot := GetImageBinSlot(object_);
      var previousBinSizes := GetBinSizeSum(GetBin(binSlot));
      TotalFits(heap, begin, index, binSlotSizes, GetBin(binSlot));
      assert previousBinSizes < 0x8000_0000;
      var newOffset := begin + previousBinSizes + GetIndex(binSlot);
      MovedStep(heap, begin, lock0, lock, index, binSlotSizes, savedHashesMap, savedHashes, object_, binSlot,
        newOffset);
      SetImageOffset(object_, binSlot, newOffset);
    }

    /**
     Assigns every object its place: see LaidOut. The objects fill the image exactly, and no saved
     hash code is left behind.
     */
    method CalculateNewObjectOffsets()
      requires Valid() && savedHashes == []
      modifies this
      ensures LaidOut(heap, begin, imageEnd, lock) && savedHashesMap == map[]
      ensures imageEnd == begin + Total(BinSizes(heap), |BinSizes(heap)|)
      ensures Moving(|heap|)
    {
      WalkAll();
      assert Sound(Bins) && Sound(End);
      AllAssigned(heap, begin, lock0, lock, index, binSlotSizes, savedHashesMap);
      MovedStart(heap, begin, lock0, lock, index, binSlotSizes, savedHashesMap);
      ghost var end := imageEnd;
      for i := 0 to |heap|
        invariant Moving(i) && imageEnd == end && binSlotSizes == BinSizes(heap)
      {
        UnbinObjectsIntoOffset(i);
      }
      NothingLeft(heap, lock0, index, binSlotSizes, savedHashesMap);
      AllLaidOut(heap, begin, lock, index, binSlotSizes, imageEnd);
    }

    /** Every object is copied to its place, unlocked, with its references translated. */
    method CopyObjects() returns (image: map<nat, Copy>)
      requires ValidHeap(heap) && Injective(heap, lock)
      ensures Copied(heap, lock, image) && forall o :: o in image ==> image[o].lock == 0
    {
      image := map[];
      for n := 0 to |heap|
        invariant SoFar(heap, lock, image, n)
        invariant forall o :: o in image ==> image[o].lock == 0
      {
        assert ValidObject(heap, n);
        var copy := Copy(0, Translate(lock, References(heap[n])), heap[n].data);
        CopyStep(heap, lock, image, n, copy);
        image := image[Address(lock[n]) := copy];
      }
      AllCopied(heap, lock, image);
    }

    /**
     Each copy starts unlocked, then the saved hash codes are written. The objects at a place find
     their lock words preserved exactly if they had the same one, in particular if an object is alone
     at its place; and the references make up the same graph exactly if those that share a place refer
     to the same places.
     */
    method CopyAndFixupObjects() returns (image: map<nat, Copy>)
      requires Moving(|heap|) && LaidOut(heap, begin, imageEnd, lock)
      modifies `savedHashes
      ensures forall r: nat :: IsRep(heap, r) ==> (Uniform(heap, lock0, r) <==> Preserved(heap, lock0, lock, image, r))
      ensures Copied(heap, lock, image) && Injective(heap, lock) && savedHashes == []
    {
      PlacesDiffer(heap, begin, imageEnd, lock);
      image := CopyObjects();
      ghost var unlocked := image;
      RestoredInImage(heap, begin, lock0, lock, index, binSlotSizes, savedHashesMap, savedHashes, unlocked);
      for i := 0 to |savedHashes|
        invariant image == Restored(unlocked, savedHashes[..i])
      {
        assert savedHashes[i] in savedHashes;
        image := image[savedHashes[i].0 := image[savedHashes[i].0].(lock := FromHash(savedHashes[i].1))];
        assert savedHashes[..i + 1][..i] == savedHashes[..i];
      }
      assert savedHashes[..|savedHashes|] == savedHashes;
      CopiedKept(heap, lock, unlocked, image);
      forall i: nat | i < |heap| ensures Address(lock[i]) in unlocked { assert CopiedAt(heap, lock, unlocked, i); }
      forall r: nat | IsRep(heap, r) ensures Uniform(heap, lock0, r) <==> Preserved(heap, lock0, lock, image, r) {
        PreservedIfUniform(heap, begin, lock0, lock, index, binSlotSizes, savedHashesMap, savedHashes, unlocked, r);
      }
      savedHashes := [];
    }
  }

  function EmptySizes(): (s: seq<nat>)
    ensures |s| == BINS && forall b :: 0 <= b < BINS ==> s[b] == 0
  {
    seq(BINS, _ => 0)
  }

  lemma {:induction false} EmptyBins(h: Heap, lock: seq<nat>)
    requires Unlocked(h, lock)
    ensures Packed(h, map[], EmptySizes()) && Locks(h, lock, lock, map[]) && Hashes(h, lock, map[], map[])
    ensures Total(EmptySizes(), |EmptySizes()|) == 0
  {
    var none: map<nat, nat> := map[];
    assert none.Keys == {};
    forall b | 0 <= b < BINS ensures EmptySizes()[b] == Weight(h, none.Keys, b, |h|) { NoWeight(h, b, |h|); }
    forall i: nat | i < |h| ensures LockAt(h, lock, lock, none, i) { }
    NoTotal(EmptySizes(), |EmptySizes()|);
  }

  lemma {:induction false} NoWeight(h: Heap, b: nat, n: nat)
    requires n <= |h|
    ensures Weight(h, {}, b, n) == 0
    decreases n
  {
    if n > 0 {
      NoWeight(h, b, n - 1);
    }
  }

  lemma {:induction false} NoTotal(sizes: seq<nat>, n: nat)
    requires n <= |sizes| && forall b :: 0 <= b < |sizes| ==> sizes[b] == 0
    ensures Total(sizes, n) == 0
    decreases n
  {
    if n > 0 {
      NoTotal(sizes, n - 1);
    }
  }

  method ChooseBin(kind: Kind) returns (bin: nat)
    ensures bin == BinOf(kind)
  {
    bin := BIN_REGULAR;
    match kind {
      case ClassObject(initialized, staticsFinal, _, _) =>
        bin := BIN_CLASS_VERIFIED;
        if initialized {
          bin := BIN_CLASS_INITIALIZED;
          if |staticsFinal| == 0 {
            bin := BIN_CLASS_INITIALIZED_FINAL_STATICS;
          } else {
            var allFinal := true;
            for i := 0 to |staticsFinal|
              invariant allFinal && forall k :: 0 <= k < i ==> staticsFinal[k]
            {
              if !staticsFinal[i] {
                allFinal := false;
                break;
              }
            }
            if allFinal {
              bin := BIN_CLASS_INITIALIZED_FINAL_STATICS;
            }
          }
        }
      case ArtMethod(native, declaringClassInitialized) =>
        if native {
          bin := BIN_ART_METHOD_NATIVE;
        } else if !declaringClassInitialized {
          bin := BIN_ART_METHOD_NOT_INITIALIZED;
        } else {
          bin := BIN_ART_METHODS_MANAGED_INITIALIZED;
        }
      case StringObject(_) =>
        bin := BIN_STRING;
      case ObjectArray(_) =>
      case OtherObject =>
    }
  }

  // ----- the whole image -----

  /**
   Every object has its place, and the places fill the image. The lock words are those of the heap
   exactly where the objects at a place agree on them. Objects that share a place being interchangeable,
   which ImageStrings.PrepareStrings sees to, everything else is copied and every path of references
   arrives.
   */
  method WriteImage(heap: Heap, lock0: seq<nat>, headerSize: nat)
    returns (lock: seq<nat>, image: map<nat, Copy>, end: nat)
    requires ValidHeap(heap) && Unlocked(heap, lock0) && Fits(heap, RoundUp(headerSize, ALIGN))
    ensures LaidOut(heap, RoundUp(headerSize, ALIGN), end, lock)
    ensures end == RoundUp(headerSize, ALIGN) + Total(BinSizes(heap), |BinSizes(heap)|)
    ensures forall r: nat :: IsRep(heap, r) ==> (Uniform(heap, lock0, r) <==> Preserved(heap, lock0, lock, image, r))
    ensures (forall i: nat, path: Path :: i < |heap| ==> PathKept(heap, lock, image, i, path))
       <==> forall i: nat :: i < |heap| ==> Alike(heap, i)
    ensures Interchangeable(heap) ==>
      && (forall i: nat, path: Path :: i < |heap| ==> PathKept(heap, lock, image, i, path))
      && (forall i: nat :: i < |heap| ==> CopyOf(heap, lock, image, i))
  {
    var writer := new ImageWriter(heap, lock0, headerSize);
    writer.CalculateNewObjectOffsets();
    lock, end := writer.lock, writer.imageEnd;
    image := writer.CopyAndFixupObjects();
    GraphKept(heap, lock, image);
    if Interchangeable(heap) {
      TwinsKept(heap, lock, image);
    }
  }

  // ----- what the walk of a class leaves out -----

  /** A class whose static field refers to the other object, while java.lang.Class has no static fields. */
  const LONELY: Heap := [Object(ClassObject(true, [true], [Some(1)], []), 16, [], []), Object(OtherObject, 16, [], [])]

  /** If the words that are read are the static fields of the class, as for java.lang.Class itself, all is visited. */
  lemma {:induction false} StaticsVisited(lock: seq<nat>, o: Object)
    requires o.kind.ClassObject? ==> o.kind.walked == o.kind.statics
    requires (forall c :: 0 <= c < |o.fields| ==> Visited(lock, o.fields[c])) && Visited(lock, WalkedRefs(o.kind))
    ensures forall c :: 0 <= c < |References(o)| ==> Visited(lock, References(o)[c])
  {
  }

  /** Walking the class does not get to its static field. */
  method StaticIsMissed() returns (lock: seq<nat>)
    ensures ValidHeap(LONELY) && |lock| == |LONELY| && IsForward(lock[0]) && !IsForward(lock[1])
  {
    assert References(LONELY[0]) == [[Some(1)]] && References(LONELY[1]) == [[]];
    assert ValidObject(LONELY, 0) && ValidObject(LONELY, 1);
    SmallFits(LONELY, 8);
    var writer := new ImageWriter(LONELY, [0, 0], 8);
    assert ClosedAt(LONELY, {0}, 0);
    writer.WalkFieldsInOrder(0, {0});
    lock := writer.lock;
  }

  // ----- two strings at one place -----

  lemma {:induction false} SmallWeight(h: Heap, set_: set<nat>, b: nat, n: nat)
    requires n <= |h| && forall i :: 0 <= i < |h| ==> h[i].size <= 16
    ensures Weight(h, set_, b, n) <= 24 * n
    decreases n
  {
    if n > 0 {
      SmallWeight(h, set_, b, n - 1);
    }
  }

  lemma {:induction false} SmallTotal(sizes: seq<nat>, n: nat)
    requires n <= |sizes| && forall b :: 0 <= b < |sizes| ==> sizes[b] <= 96
    ensures Total(sizes, n) <= 96 * n
    decreases n
  {
    if n > 0 {
      SmallTotal(sizes, n - 1);
    }
  }

  lemma {:induction false} SmallFits(h: Heap, begin: nat)
    requires |h| <= 4 && begin <= 4096 && forall i :: 0 <= i < |h| ==> h[i].size <= 16
    ensures Fits(h, begin)
  {
    forall b | 0 <= b < BINS ensures BinSizes(h)[b] <= 96 {
      SmallWeight(h, Reps(h), b, |h|);
    }
    SmallTotal(BinSizes(h), |BinSizes(h)|);
  }

  /** Two equal strings with one array of characters, of which the second is the interned one. */
  const TWINS: Heap := [
    Object(StringObject(1), 16, [[None], [Some(2)]], [3, 0]), Object(StringObject(1), 16, [[None], [Some(2)]], [3, 0]),
    Object(OtherObject, 16, [], [97, 98, 99])]

  lemma {:induction false} TwinsAre()
    ensures ValidHeap(TWINS) && IsRep(TWINS, 1) && Interchangeable(TWINS)
  {
    var h := TWINS;
    assert References(h[0]) == [[None], [Some(2)], []] == References(h[1]) && References(h[2]) == [[]];
    forall i: nat | i < |h| ensures ValidObject(h, i) {
      assert i == 0 || i == 1 || i == 2;
    }
    forall i: nat | i < |h| ensures Rep(h, i) < |h| && Twin(h, i) {
      assert i == 0 || i == 1 || i == 2;
    }
  }

  /** One place does not keep two hash codes. */
  method TwinsLose() returns (lock0: seq<nat>, lock: seq<nat>, image: map<nat, Copy>)
    ensures |lock0| == |lock| == |TWINS| && ValidHeap(TWINS) && Unlocked(TWINS, lock0) && Fits(TWINS, 8)
    ensures Interchangeable(TWINS) && !Preserved(TWINS, lock0, lock, image, 1)
  {
    TwinsAre();
    SmallFits(TWINS, 8);
    lock0 := [FromHash(3), FromHash(4), 0];
    var end;
    lock, image, end := WriteImage(TWINS, lock0, 8);
    assert !Uniform(TWINS, lock0, 1) by {
      assert Rep(TWINS, 0) == 1 && lock0[0] != lock0[1];
    }
  }
}
