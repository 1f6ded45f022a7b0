/**
 How ImageWriter gives every object of the heap a place in the image. Each object is put into one of
 eight bins; its bin and its index in the bin are packed into its 32-bit lock word, later replaced by
 the offset in the image. Interned duplicates of a string share the place of the interned string.
 */
module ImageBins {
  import opened Wrappers
  import opened Bytes

  const ALIGN: nat := 8
  const BINS: nat := 8
  const BIN_LIMIT: nat := 0x2000_0000
  const STATE_UNIT: nat := 0x4000_0000

  // ----- lock words -----

  /** LockWord::FromForwardingAddress */
  function Forward(target: nat): nat {
    target / 4 + 3 * STATE_UNIT
  }

  /** LockWord::ForwardingAddress: the shift drops the state bits. */
  function Address(word: nat): nat {
    word % STATE_UNIT * 4
  }

  predicate IsForward(word: nat) {
    word / STATE_UNIT == 3
  }

  predicate IsHash(word: nat) {
    word / STATE_UNIT == 2
  }

  function HashCode(word: nat): nat {
    word % STATE_UNIT
  }

  /** LockWord::FromHashCode */
  function FromHash(hash: nat): nat {
    hash + 2 * STATE_UNIT
  }

  lemma {:induction false} ForwardRoundTrip(target: nat)
    requires target < TWO_32 && target % 4 == 0
    ensures IsForward(Forward(target)) && Address(Forward(target)) == target
  {
  }

  lemma {:induction false} AlignedForward(target: nat)
    requires target < TWO_32 && target % ALIGN == 0
    ensures IsForward(Forward(target)) && Address(Forward(target)) == target
  {
    assert target % 4 == 0;
    ForwardRoundTrip(target);
  }

  lemma {:induction false} HashRoundTrip(word: nat)
    requires IsHash(word)
    ensures FromHash(HashCode(word)) == word && !IsForward(word)
  {
  }

  /** BinSlot(bin, index): the index must leave the three bin bits alone. */
  function Pack(bin: nat, index: nat): nat {
    index + bin * BIN_LIMIT
  }

  function GetBin(slot: nat): nat {
    slot / BIN_LIMIT
  }

  function GetIndex(slot: nat): nat {
    slot % BIN_LIMIT
  }

  lemma {:induction false} PackRoundTrip(bin: nat, index: nat)
    requires bin < BINS && index < BIN_LIMIT && index % ALIGN == 0
    ensures GetBin(Pack(bin, index)) == bin && GetIndex(Pack(bin, index)) == index
    ensures Pack(bin, index) < TWO_32 && Pack(bin, index) % 4 == 0
  {
  }

  // ----- objects -----

  /** A reference field: the index of an object, or null. */
  type Ref = Option<nat>

  /**
   The static fields of a class are behind its instance fields, as the elements of an array are. `walked` are the words
   of the class object at the offsets of the static fields of java.lang.Class.
   */
  datatype Kind =
    | ClassObject(initialized: bool, staticsFinal: seq<bool>, statics: seq<Ref>, walked: seq<Ref>)
    | ArtMethod(native: bool, declaringClassInitialized: bool)
    | StringObject(interned: nat)
    | ObjectArray(elements: seq<Ref>)
    | OtherObject

  /**
   `fields[c]` are the reference fields that the c-th class of the object declares, counted from the root class; `data`
   is everything else in the object but its lock word.
   */
  datatype Object = Object(kind: Kind, size: nat, fields: seq<seq<Ref>>, data: seq<nat>)

  type Heap = seq<Object>

  function LastRefs(kind: Kind): seq<Ref> {
    match kind
    case ClassObject(_, _, statics, _) => statics
    case ObjectArray(elements) => elements
    case _ => []
  }

  /**
   What the walk reads behind the instance fields. For a class it takes number and offset of the static fields from
   the class of the object, which is java.lang.Class.
   */
  function WalkedRefs(kind: Kind): seq<Ref> {
    match kind
    case ClassObject(_, _, _, walked) => walked
    case ObjectArray(elements) => elements
    case _ => []
  }

  /** All references of an object, field by field. */
  function References(o: Object): seq<seq<Ref>> {
    o.fields + [LastRefs(o.kind)]
  }

  predicate Within(ref: Ref, n: nat) {
    ref.Some? ==> ref.value < n
  }

  predicate Inside(refs: seq<Ref>, n: nat) {
    forall k :: 0 <= k < |refs| ==> Within(refs[k], n)
  }

  /** Objects are not empty, references stay in the heap, and interning a string twice changes nothing. */
  predicate ValidObject(h: Heap, i: nat)
    requires i < |h|
  {
    && h[i].size > 0
    && (forall c :: 0 <= c < |References(h[i])| ==> Inside(References(h[i])[c], |h|))
    && Inside(WalkedRefs(h[i].kind), |h|)
    && (h[i].kind.StringObject? ==>
          var r := h[i].kind.interned;
          r < |h| && h[r].kind == StringObject(r))
  }

  predicate ValidHeap(h: Heap) {
    forall i: nat :: i < |h| ==> ValidObject(h, i)
  }

  lemma {:induction false} RefsInside(h: Heap, i: nat)
    requires ValidHeap(h) && i < |h|
    ensures Inside(LastRefs(h[i].kind), |h|) && Inside(WalkedRefs(h[i].kind), |h|)
    ensures forall c :: 0 <= c < |h[i].fields| ==> Inside(h[i].fields[c], |h|)
  {
    assert ValidObject(h, i);
    var refs := References(h[i]);
    assert refs[|h[i].fields|] == LastRefs(h[i].kind);
    forall c | 0 <= c < |h[i].fields| ensures Inside(h[i].fields[c], |h|) {
      assert refs[c] == h[i].fields[c];
    }
  }

  /** The object whose place an object takes: itself, or the interned string. */
  function Rep(h: Heap, i: nat): nat
    requires i < |h|
  {
    if h[i].kind.StringObject? then h[i].kind.interned else i
  }

  ghost predicate IsRep(h: Heap, r: nat) {
    r < |h| && Rep(h, r) == r
  }

  /** All objects that take the place of r have the same lock word; so has an object alone at its place. */
  ghost predicate Uniform(h: Heap, lock0: seq<nat>, r: nat) {
    |lock0| == |h| && IsRep(h, r) && forall i :: 0 <= i < |h| && Rep(h, i) == r ==> lock0[i] == lock0[r]
  }

  const BIN_STRING: nat := 0
  const BIN_ART_METHODS_MANAGED_INITIALIZED: nat := 1
  const BIN_REGULAR: nat := 2
  const BIN_CLASS_INITIALIZED_FINAL_STATICS: nat := 3
  const BIN_CLASS_INITIALIZED: nat := 4
  const BIN_CLASS_VERIFIED: nat := 5
  const BIN_ART_METHOD_NATIVE: nat := 6
  const BIN_ART_METHOD_NOT_INITIALIZED: nat := 7

  function BinOf(kind: Kind): (b: nat)
    ensures b < BINS
  {
    match kind
    case ClassObject(initialized, staticsFinal, _, _) =>
      if !initialized then BIN_CLASS_VERIFIED
      else if forall i :: 0 <= i < |staticsFinal| ==> staticsFinal[i] then BIN_CLASS_INITIALIZED_FINAL_STATICS
      else BIN_CLASS_INITIALIZED
    case ArtMethod(native, declaringClassInitialized) =>
      if native then BIN_ART_METHOD_NATIVE
      else if !declaringClassInitialized then BIN_ART_METHOD_NOT_INITIALIZED
      else BIN_ART_METHODS_MANAGED_INITIALIZED
    case StringObject(_) => BIN_STRING
    case ObjectArray(_) => BIN_REGULAR
    case OtherObject => BIN_REGULAR
  }

  /** The bytes an object takes up in the image. */
  function Room(o: Object): (r: nat)
    ensures r % ALIGN == 0 && o.size <= r < o.size + ALIGN
  {
    AlignedMod(RoundUp(o.size, ALIGN), ALIGN);
    RoundUp(o.size, ALIGN)
  }

  // ----- bins -----

  /** The room of those of the first n objects that are in the set and belong to bin b. */
  ghost function Weight(h: Heap, set_: set<nat>, b: nat, n: nat): nat
    requires n <= |h|
  {
    if n == 0 then 0
    else Weight(h, set_, b, n - 1) + if n - 1 in set_ && BinOf(h[n - 1].kind) == b then Room(h[n - 1]) else 0
  }

  lemma {:induction false} WeightAdds(h: Heap, set_: set<nat>, r: nat, b: nat, n: nat)
    requires n <= |h| && r < |h| && r !in set_
    ensures Weight(h, set_ + {r}, b, n) == Weight(h, set_, b, n) + if r < n && BinOf(h[r].kind) == b then Room(h[r])
      else 0
    decreases n
  {
    if n > 0 {
      WeightAdds(h, set_, r, b, n - 1);
    }
  }

  lemma {:induction false} WeightGrows(h: Heap, small: set<nat>, large: set<nat>, b: nat, n: nat)
    requires n <= |h| && small <= large
    ensures Weight(h, small, b, n) <= Weight(h, large, b, n)
    decreases n
  {
    if n > 0 {
      WeightGrows(h, small, large, b, n - 1);
    }
  }

  ghost function Reps(h: Heap): set<nat> {
    set r | 0 <= r < |h| && Rep(h, r) == r
  }

  function Total(sizes: seq<nat>, upTo: nat): nat
    requires upTo <= |sizes|
  {
    if upTo == 0 then 0 else Total(sizes, upTo - 1) + sizes[upTo - 1]
  }

  /** The final size of every bin. */
  ghost function BinSizes(h: Heap): (s: seq<nat>)
    ensures |s| == BINS
  {
    seq(BINS, b requires 0 <= b => Weight(h, Reps(h), b, |h|))
  }

  /** Each bin can be indexed with 29 bits, and a sum of bin sizes fits a signed int. */
  ghost predicate Fits(h: Heap, begin: nat) {
    && begin + Total(BinSizes(h), |BinSizes(h)|) < 0x8000_0000
    && forall b :: 0 <= b < BINS ==> BinSizes(h)[b] <= BIN_LIMIT
  }

  predicate Apart(a: nat, room: nat, b: nat, room': nat) {
    a + room <= b || b + room' <= a
  }

  /** r has an aligned place inside its bin. */
  ghost predicate InBin(h: Heap, index: map<nat, nat>, sizes: seq<nat>, r: nat)
    requires |sizes| == BINS && r in index
  {
    IsRep(h, r) && index[r] % ALIGN == 0 && index[r] + Room(h[r]) <= sizes[BinOf(h[r].kind)]
  }

  predicate SameBin(h: Heap, r: nat, s: nat) {
    r < |h| && s < |h| && BinOf(h[r].kind) == BinOf(h[s].kind)
  }

  /** The places of r and s in the same bin do not overlap. */
  ghost predicate Separate(h: Heap, index: map<nat, nat>, r: nat, s: nat)
    requires r in index && s in index
  {
    r < |h| && s < |h| && Apart(index[r], Room(h[r]), index[s], Room(h[s]))
  }

  /** The bins are packed without gaps by the objects that have an index. */
  ghost predicate Packed(h: Heap, index: map<nat, nat>, sizes: seq<nat>) {
    && |sizes| == BINS
    && (forall r {:trigger InBin(h, index, sizes, r)} :: r in index ==> InBin(h, index, sizes, r))
    && (forall r, s {:trigger Separate(h, index, r, s)} ::
          r in index && s in index && r != s && SameBin(h, r, s) ==> Separate(h, index, r, s))
    && (forall b :: 0 <= b < BINS ==> sizes[b] % ALIGN == 0 && sizes[b] == Weight(h, index.Keys, b, |h|))
  }

  /** AssignImageBinSlot on the bins: the object goes to the end of its bin. */
  lemma {:induction false} PackedStep(h: Heap, index: map<nat, nat>, sizes: seq<nat>, r: nat, b: nat)
    requires Packed(h, index, sizes) && IsRep(h, r) && r !in index && b == BinOf(h[r].kind)
    ensures Packed(h, index[r := sizes[b]], sizes[b := sizes[b] + Room(h[r])])
  {
    var index', sizes' := index[r := sizes[b]], sizes[b := sizes[b] + Room(h[r])];
    assert index'.Keys == index.Keys + {r};
    forall c | 0 <= c < BINS ensures sizes'[c] % ALIGN == 0 && sizes'[c] == Weight(h, index'.Keys, c, |h|) {
      WeightAdds(h, index.Keys, r, c, |h|);
      SumAligned(sizes[b], Room(h[r]), 0);
    }
    forall s | s in index' ensures InBin(h, index', sizes', s) {
      assert s in index ==> InBin(h, index, sizes, s);
    }
    forall s, t | s in index' && t in index' && s != t && SameBin(h, s, t) ensures Separate(h, index', s, t) {
      assert s in index ==> InBin(h, index, sizes, s);
      assert t in index ==> InBin(h, index, sizes, t);
      assert s in index && t in index ==> Separate(h, index, s, t);
    }
  }

  lemma {:induction false} SizesBelow(h: Heap, index: map<nat, nat>, sizes: seq<nat>, begin: nat)
    requires Packed(h, index, sizes) && Fits(h, begin)
    ensures forall b :: 0 <= b < BINS ==> sizes[b] <= BinSizes(h)[b] <= BIN_LIMIT
  {
    assert index.Keys <= Reps(h) by {
      forall r | r in index ensures r in Reps(h) { assert InBin(h, index, sizes, r); }
    }
    forall b | 0 <= b < BINS ensures sizes[b] <= BinSizes(h)[b] {
      WeightGrows(h, index.Keys, Reps(h), b, |h|);
    }
  }

  lemma {:induction false} TotalGrows(sizes: seq<nat>, a: nat, b: nat)
    requires a <= b <= |sizes|
    ensures Total(sizes, a) <= Total(sizes, b)
    ensures a < b ==> Total(sizes, a) + sizes[a] <= Total(sizes, b)
    decreases b
  {
    if a < b {
      TotalGrows(sizes, a, b - 1);
    }
  }

  lemma {:induction false} TotalAligned(sizes: seq<nat>, n: nat)
    requires n <= |sizes| && forall b :: 0 <= b < |sizes| ==> sizes[b] % ALIGN == 0
    ensures Total(sizes, n) % ALIGN == 0
    decreases n
  {
    if n > 0 {
      TotalAligned(sizes, n - 1);
    }
  }

  lemma {:induction false} TotalBelow(sizes: seq<nat>, large: seq<nat>, n: nat)
    requires n <= |sizes| == |large| && forall b :: 0 <= b < |sizes| ==> sizes[b] <= large[b]
    ensures Total(sizes, n) <= Total(large, n)
    decreases n
  {
    if n > 0 {
      TotalBelow(sizes, large, n - 1);
    }
  }

  lemma {:induction false} TotalBump(sizes: seq<nat>, b: nat, room: nat, n: nat)
    requires b < |sizes| && n <= |sizes|
    ensures Total(sizes[b := sizes[b] + room], n) == Total(sizes, n) + if b < n then room else 0
    decreases n
  {
    if n > 0 {
      TotalBump(sizes, b, room, n - 1);
    }
  }

  /** The slot word of an object with an index. */
  ghost function SlotOf(h: Heap, index: map<nat, nat>, r: nat): nat
    requires r in index && r < |h|
  {
    Pack(BinOf(h[r].kind), index[r])
  }

  /** AssignImageOffset: the bins follow one another behind the image header. */
  ghost function OffsetOf(h: Heap, index: map<nat, nat>, sizes: seq<nat>, begin: nat, r: nat): nat
    requires r in index && r < |h| && |sizes| == BINS
  {
    begin + Total(sizes, BinOf(h[r].kind)) + index[r]
  }

  lemma {:induction false} SlotFits(h: Heap, index: map<nat, nat>, sizes: seq<nat>, begin: nat, r: nat)
    requires ValidHeap(h) && Packed(h, index, sizes) && Fits(h, begin) && r in index
    ensures r < |h| && index[r] < BIN_LIMIT && index[r] % ALIGN == 0
    ensures GetBin(SlotOf(h, index, r)) == BinOf(h[r].kind) && GetIndex(SlotOf(h, index, r)) == index[r]
    ensures Address(Forward(SlotOf(h, index, r))) == SlotOf(h, index, r) && IsForward(Forward(SlotOf(h, index, r)))
  {
    assert InBin(h, index, sizes, r) && ValidObject(h, r);
    SizesBelow(h, index, sizes, begin);
    PackRoundTrip(BinOf(h[r].kind), index[r]);
    ForwardRoundTrip(SlotOf(h, index, r));
  }

  lemma {:induction false} SlotsDiffer(h: Heap, index: map<nat, nat>, sizes: seq<nat>, begin: nat, r: nat, s: nat)
    requires ValidHeap(h) && Packed(h, index, sizes) && Fits(h, begin) && r in index && s in index && r != s
    ensures r < |h| && s < |h| && SlotOf(h, index, r) != SlotOf(h, index, s)
  {
    SlotFits(h, index, sizes, begin, r);
    SlotFits(h, index, sizes, begin, s);
    assert ValidObject(h, r) && ValidObject(h, s);
    if SameBin(h, r, s) {
      assert Separate(h, index, r, s);
    }
  }

  /** Places in the image are aligned and inside the object area. */
  lemma {:induction false} OffsetFits(h: Heap, index: map<nat, nat>, sizes: seq<nat>, begin: nat, r: nat)
    requires Packed(h, index, sizes) && r in index && begin % ALIGN == 0
    ensures r < |h| && OffsetOf(h, index, sizes, begin, r) % ALIGN == 0
    ensures begin <= OffsetOf(h, index, sizes, begin, r)
    ensures OffsetOf(h, index, sizes, begin, r) + Room(h[r]) <= begin + Total(sizes, |sizes|)
  {
    assert InBin(h, index, sizes, r);
    var b := BinOf(h[r].kind);
    TotalAligned(sizes, b);
    TotalGrows(sizes, b, |sizes|);
    SumAligned(begin, Total(sizes, b), index[r]);
  }

  lemma {:induction false} SumAligned(x: nat, y: nat, z: nat)
    requires x % ALIGN == 0 && y % ALIGN == 0 && z % ALIGN == 0
    ensures (x + y + z) % ALIGN == 0
  {
  }

  /** Objects with different representatives get disjoint places in the image. */
  lemma {:induction false} OffsetsApart(h: Heap, index: map<nat, nat>, sizes: seq<nat>, begin: nat, r: nat, s: nat)
    requires Packed(h, index, sizes) && r in index && s in index && r != s
    ensures r < |h| && s < |h|
    ensures Apart(OffsetOf(h, index, sizes, begin, r), Room(h[r]), OffsetOf(h, index, sizes, begin, s), Room(h[s]))
  {
    assert InBin(h, index, sizes, r) && InBin(h, index, sizes, s);
    var b, c := BinOf(h[r].kind), BinOf(h[s].kind);
    if b == c {
      assert Separate(h, index, r, s);
    } else if b < c {
      TotalGrows(sizes, b, c);
    } else {
      TotalGrows(sizes, c, b);
    }
  }
}
