/**
 Finding a method in an oat file the way the runtime does (oat_file.cc): walk the dex file table,
 take the offset of a class, look the method up in the class entry. In a file written by OatWriter
 the search ends at the method's own code and maps, or at nothing if the method is not compiled.
 */
module OatLookup {
  import opened Wrappers
  import opened Bytes
  import opened Streams
  import opened DedupLayout
  import opened FileReads
  import opened BitVector
  import opened OatFormat
  import opened OatPasses
  import opened OatReader

  /** OatDexFile::GetOatClass and OatClass::GetOatMethodOffsets: the code offset of a method, if it has one. */
  function ReadCodeOffset(d: seq<byte>, oatClass: nat, method_: nat): Option<nat> {
    var type_ := Half(d, oatClass + 2);
    if type_ == NONE_COMPILED then None
    else if type_ == ALL_COMPILED then Some(Word(d, oatClass + 4 + 4 * method_))
    else
      ReadSparse(d, oatClass + 8, Word(d, oatClass + 4), method_)
  }

  /** A class with a bitmap stores offsets only for the methods whose bit is set. */
  function ReadSparse(d: seq<byte>, bitmap: nat, bitmapSize: nat, method_: nat): Option<nat> {
    if IsBitSet(d, bitmap, method_) then
      Some(Word(d, bitmap + bitmapSize + 4 * NumSetBits(d, bitmap, method_)))
    else None
  }

  /** OatHeader::GetDexFileCount */
  function DexFileCount(d: seq<byte>, base: nat): nat {
    Word(d, base + DEX_FILE_COUNT)
  }

  /** OatFile::Setup: the dex file table is behind the header and its key-value store. */
  function TableAt(d: seq<byte>, base: nat): nat {
    base + OAT_HEADER_SIZE + Word(d, base + KEY_VALUE_STORE_SIZE)
  }

  /** OatFile::Setup: what the walk over the dex file table reads of an entry, and the entry after it. */
  function LocationSize(d: seq<byte>, entry: nat): nat {
    Word(d, entry)
  }

  function ReadDexOffset(d: seq<byte>, entry: nat): nat {
    Word(d, entry + 4 + LocationSize(d, entry) + 4)
  }

  function ReadClassOffset(d: seq<byte>, entry: nat, classDef: nat): nat {
    Word(d, entry + 4 + LocationSize(d, entry) + 8 + 4 * classDef)
  }

  /** class_defs_size_ in the header of the dex file of an entry */
  function ReadClassDefs(d: seq<byte>, base: nat, entry: nat): nat {
    Word(d, base + ReadDexOffset(d, entry) + CLASS_DEFS_SIZE)
  }

  /** Where the walk stands after n entries. */
  function EntryAt(d: seq<byte>, base: nat, table: nat, n: nat): nat {
    if n == 0 then table
    else
      var entry := EntryAt(d, base, table, n - 1);
      entry + 4 + LocationSize(d, entry) + 8 + 4 * ReadClassDefs(d, base, entry)
  }

  // ----- classes -----

  lemma {:induction false} LowBit(bit: nat, rest: nat)
    requires bit <= 1
    ensures (bit + 2 * rest) % 2 == bit && (bit + 2 * rest) / 2 == rest
  {
  }

  lemma {:induction false} BitsRead(bits: seq<bool>, t: nat)
    requires t < |bits|
    ensures BitOf(BitsValue(bits), t) == if bits[t] then 1 else 0
    decreases t
  {
    LowBit(if bits[0] then 1 else 0, BitsValue(bits[1..]));
    if t > 0 {
      BitsRead(bits[1..], t - 1);
    }
  }

  lemma {:induction false} MulDouble(p: nat, x: nat)
    ensures 2 * p * x == 2 * (p * x)
  {
  }

  lemma {:induction false} BitsSplit(a: seq<bool>, b: seq<bool>)
    ensures BitsValue(a + b) == BitsValue(a) + Pow2(|a|) * BitsValue(b)
    decreases |a|
  {
    if a == [] {
      assert a + b == b;
    } else {
      BitsSplit(a[1..], b);
      assert (a + b)[1..] == a[1..] + b;
      MulDouble(Pow2(|a| - 1), BitsValue(b));
    }
  }

  /** A byte and the bits behind it. */
  lemma {:induction false} ByteSplit(a: seq<bool>, b: seq<bool>)
    requires |a| == 8
    ensures BitsValue(a + b) == BitsValue(a) + 256 * BitsValue(b)
  {
    Pow2Eight();
    BitsSplit(a, b);
  }

  /** Four bytes of a bitmap are a word of it. */
  lemma {:induction false} WordOfBits(methods: seq<Option<CompiledMethod>>, j: nat)
    ensures BitsValue(Flags(methods, 32 * j, 32))
         == BitmapByte(methods, 4 * j) + 256 * BitmapByte(methods, 4 * j + 1)
            + 65536 * BitmapByte(methods, 4 * j + 2) + 16777216 * BitmapByte(methods, 4 * j + 3)
  {
    var a, b := Flags(methods, 8 * (4 * j), 8), Flags(methods, 8 * (4 * j + 1), 8);
    var c, e := Flags(methods, 8 * (4 * j + 2), 8), Flags(methods, 8 * (4 * j + 3), 8);
    assert Flags(methods, 32 * j, 32) == a + (b + (c + e));
    ByteSplit(a, b + (c + e));
    ByteSplit(b, c + e);
    ByteSplit(c, e);
  }

  lemma {:induction false} BitmapWord(d: seq<byte>, bitmap: nat, c: OatClass, j: nat)
    requires Holds(d, bitmap, Bitmap(c)) && 32 * j < |c.methods| && BitmapSize(c) != 0
    ensures Word(d, bitmap + 4 * j) == BitsValue(Flags(c.methods, 32 * j, 32))
  {
    assert 4 * j + 3 < |Bitmap(c)|;
    assert At(d, bitmap + 4 * j) == BitmapByte(c.methods, 4 * j);
    assert At(d, bitmap + (4 * j + 1)) == BitmapByte(c.methods, 4 * j + 1);
    assert At(d, bitmap + (4 * j + 2)) == BitmapByte(c.methods, 4 * j + 2);
    assert At(d, bitmap + (4 * j + 3)) == BitmapByte(c.methods, 4 * j + 3);
    WordOfBits(c.methods, j);
  }

  lemma {:induction false} BitRead(d: seq<byte>, bitmap: nat, c: OatClass, m: nat)
    requires Holds(d, bitmap, Bitmap(c)) && m < |c.methods| && BitmapSize(c) != 0
    ensures StoredBit(d, bitmap, m) == if c.methods[m].Some? then 1 else 0
  {
    var j, t := m / 32, m % 32;
    BitmapWord(d, bitmap, c, j);
    BitsRead(Flags(c.methods, 32 * j, 32), t);
  }

  lemma {:induction false} BitsCountedTo(d: seq<byte>, bitmap: nat, c: OatClass, m: nat)
    requires Holds(d, bitmap, Bitmap(c)) && m <= |c.methods| && BitmapSize(c) != 0
    ensures CountTo(d, bitmap, m) == |Compiled(c.methods[..m])|
    decreases m
  {
    if m > 0 {
      BitsCountedTo(d, bitmap, c, m - 1);
      BitRead(d, bitmap, c, m - 1);
      assert c.methods[..m][..m - 1] == c.methods[..m - 1];
    }
  }

  /** The reader counts set bits, word by word, where the writer counted compiled methods. */
  lemma {:induction false} BitsCounted(d: seq<byte>, bitmap: nat, c: OatClass, m: nat)
    requires Holds(d, bitmap, Bitmap(c)) && m <= |c.methods| && BitmapSize(c) != 0
    ensures NumSetBits(d, bitmap, m) == |Compiled(c.methods[..m])|
    ensures m < |c.methods| ==> (IsBitSet(d, bitmap, m) <==> c.methods[m].Some?)
  {
    BitsCountedTo(d, bitmap, c, m);
    NumSetBitsIs(d, bitmap, m);
    if m < |c.methods| {
      BitRead(d, bitmap, c, m);
      IsBitSetIs(d, bitmap, m);
    }
  }

  lemma {:induction false} CompiledPrefix(methods: seq<Option<CompiledMethod>>, m: nat)
    requires m < |methods|
    ensures Compiled(methods[..m]) <= Compiled(methods)
    ensures methods[m].Some? ==>
              |Compiled(methods[..m])| < |Compiled(methods)| &&
                Compiled(methods)[|Compiled(methods[..m])|] == methods[m].value
    decreases |methods|
  {
    var n := |methods| - 1;
    if m < n {
      CompiledPrefix(methods[..n], m);
      assert methods[..n][..m] == methods[..m];
    }
  }

  /** If all methods are compiled, the k-th compiled method is the k-th method. */
  lemma {:induction false} AllCompiled(methods: seq<Option<CompiledMethod>>, m: nat)
    requires |Compiled(methods)| == |methods| && m < |methods|
    ensures methods[m].Some? && |Compiled(methods[..m])| == m
    decreases |methods|
  {
    var n := |methods| - 1;
    if m < n {
      AllCompiled(methods[..n], m);
      assert methods[..n][..m] == methods[..m];
    }
  }

  /** Where the code offsets start within a class entry. */
  function PrefixSize(c: OatClass): nat {
    if BitmapSize(c) == 0 then 4 else 8 + BitmapSize(c)
  }

  lemma {:induction false} EntryWithoutBitmap(d: seq<byte>, at: nat, status: uint16, type_: uint16, words: seq<byte>)
    requires Holds(d, at, Le16(status) + Le16(type_) + words)
    ensures Half(d, at + 2) == type_ && Holds(d, at + 4, words)
  {
    HeldSplit(d, at, Le16(status) + Le16(type_), words);
    HeldSplit(d, at, Le16(status), Le16(type_));
    HalfRead(d, at + 2, type_);
  }

  lemma {:induction false} EntryWithBitmap(d: seq<byte>, at: nat, status: uint16, type_: uint16, size: uint32,
                                           bitmap: seq<byte>, words: seq<byte>)
    requires Holds(d, at, Le16(status) + Le16(type_) + Le32(size) + bitmap + words)
    ensures Half(d, at + 2) == type_ && Word(d, at + 4) == size
    ensures Holds(d, at + 8, bitmap) && Holds(d, at + 8 + |bitmap|, words)
  {
    HeldSplit(d, at, Le16(status) + Le16(type_) + Le32(size) + bitmap, words);
    HeldSplit(d, at, Le16(status) + Le16(type_) + Le32(size), bitmap);
    EntryWithoutBitmap(d, at, status, type_, Le32(size));
    WordRead(d, at + 4, size);
  }

  /** The pieces of a class entry are where the reader looks for them. */
  lemma {:induction false} ClassWords(d: seq<byte>, at: nat, c: OatClass, offsets: seq<nat>)
    requires Holds(d, at, ClassBytes(c, offsets)) && BitmapSize(c) < TWO_32
    ensures Half(d, at + 2) == ClassType(c)
    ensures BitmapSize(c) != 0 ==> Word(d, at + 4) == BitmapSize(c) && Holds(d, at + 8, Bitmap(c))
    ensures Holds(d, at + PrefixSize(c), Words(offsets))
  {
    ClassBytesIs(c, offsets);
    if BitmapSize(c) == 0 {
      EntryWithoutBitmap(d, at, c.status, ClassType(c), Words(offsets));
    } else {
      EntryWithBitmap(d, at, c.status, ClassType(c), U32(BitmapSize(c)), Bitmap(c), Words(offsets));
    }
  }

  /** The code offset of method m of a class, given those of its compiled methods. */
  function OffsetOf(c: OatClass, offsets: seq<nat>, m: nat): Option<nat>
    requires m < |c.methods| && |offsets| == |Compiled(c.methods)|
  {
    CompiledPrefix(c.methods, m);
    if c.methods[m].Some? then Some(offsets[|Compiled(c.methods[..m])|]) else None
  }

  lemma {:induction false} AllEntryReads(d: seq<byte>, at: nat, c: OatClass, offsets: seq<nat>, m: nat)
    requires Half(d, at + 2) == ALL_COMPILED && Holds(d, at + 4, Words(offsets))
    requires |offsets| == |Compiled(c.methods)| == |c.methods| && m < |c.methods| && offsets[m] < TWO_32
    ensures ReadCodeOffset(d, at, m) == OffsetOf(c, offsets, m)
  {
    AllCompiled(c.methods, m);
    OffsetWord(d, at + 4, offsets, m);
  }

  lemma {:induction false} SomeEntryReads(d: seq<byte>, bitmap: nat, c: OatClass, offsets: seq<nat>, m: nat)
    requires BitmapSize(c) != 0 && Holds(d, bitmap, Bitmap(c)) && Holds(d, bitmap + BitmapSize(c), Words(offsets))
    requires |offsets| == |Compiled(c.methods)| && m < |c.methods| && forall k :: 0 <= k < |offsets| ==>
      offsets[k] < TWO_32
    ensures ReadSparse(d, bitmap, BitmapSize(c), m) == OffsetOf(c, offsets, m)
  {
    BitsCounted(d, bitmap, c, m);
    CompiledPrefix(c.methods, m);
    if c.methods[m].Some? {
      OffsetWord(d, bitmap + BitmapSize(c), offsets, |Compiled(c.methods[..m])|);
    }
  }

  lemma {:induction false} NoneCompiled(c: OatClass, m: nat)
    requires |Compiled(c.methods)| == 0 && m < |c.methods|
    ensures c.methods[m].None?
  {
    CompiledPrefix(c.methods, m);
  }

  /** Looking a method up in its class entry yields the offset written for it, or none if it is not compiled. */
  lemma {:induction false} ClassEntryReads(d: seq<byte>, at: nat, c: OatClass, offsets: seq<nat>, m: nat)
    requires Holds(d, at, ClassBytes(c, offsets)) && BitmapSize(c) < TWO_32 && m < |c.methods|
    requires |offsets| == |Compiled(c.methods)| && forall k :: 0 <= k < |offsets| ==> offsets[k] < TWO_32
    ensures ReadCodeOffset(d, at, m) == OffsetOf(c, offsets, m)
  {
    ClassWords(d, at, c, offsets);
    if |Compiled(c.methods)| == 0 {
      NoneCompiled(c, m);
    } else if |Compiled(c.methods)| == |c.methods| {
      AllEntryReads(d, at, c, offsets, m);
    } else {
      SomeEntryReads(d, at + 8, c, offsets, m);
    }
  }

  lemma {:induction false} CodeOffsetsFit(o: Oat, l: Layout, i: nat)
    requires Good(o, l) && i < |o.methods|
    ensures FinalOffsets(o, l.code)[i] < TWO_32
  {
    MapBeforeCode(o, l, GcMap, i);
  }

  lemma {:induction false} ClassFits(o: Oat, l: Layout, c: nat)
    requires Good(o, l) && c < |o.classes|
    ensures 0 < l.classes.places[c] && l.classes.places[c] + ClassSize(o.classes[c]) < TWO_32
  {
    PartOrder(o, l);
    PlaceBounds(l.classes, c, |o.classes|);
  }

  /** The index of method m of class c among all compiled methods, if it is compiled. */
  function MethodNumber(o: Oat, c: nat, m: nat): nat
    requires c < |o.classes| && m < |o.classes[c].methods|
  {
    ClassBase(o, c) + |Compiled(o.classes[c].methods[..m])|
  }

  lemma {:induction false} MethodNumberIs(o: Oat, c: nat, m: nat)
    requires o.methods == Visited(o.classes) && c < |o.classes| && m < |o.classes[c].methods|
    requires o.classes[c].methods[m].Some?
    ensures MethodNumber(o, c, m) < |o.methods| && o.methods[MethodNumber(o, c, m)] == o.classes[c].methods[m].value
    ensures |Compiled(o.classes[c].methods[..m])| < |Compiled(o.classes[c].methods)|
  {
    ClassMethods(o, c);
    CompiledPrefix(o.classes[c].methods, m);
    var k := |Compiled(o.classes[c].methods[..m])|;
    assert o.methods[ClassBase(o, c)..ClassBase(o, c + 1)][k] == o.methods[ClassBase(o, c) + k];
  }

  /** From a class entry to the code offset of one of its methods. */
  lemma {:induction false} ClassDecodes(d: seq<byte>, at: nat, base: nat, o: Oat, l: Layout, c: nat, m: nat)
    requires Complete(d, base, o, l) && c < |o.classes| && m < |o.classes[c].methods|
    requires at == base + l.classes.places[c]
    ensures o.classes[c].methods[m].None? ==> ReadCodeOffset(d, at, m) == None
    ensures o.classes[c].methods[m].Some? ==>
              MethodNumber(o, c, m) < |o.methods| &&
                ReadCodeOffset(d, at, m) == Some(FinalOffsets(o, l.code)[MethodNumber(o, c, m)])
  {
    var offsets := FinalOffsets(o, l.code);
    ClassHeld(d, base, o, l, c);
    ClassFits(o, l, c);
    forall i | 0 <= i < |offsets| ensures offsets[i] < TWO_32 { CodeOffsetsFit(o, l, i); }
    EntryDecodes(d, at, o, offsets, c, m);
  }

  lemma {:induction false} ClassHeld(d: seq<byte>, base: nat, o: Oat, l: Layout, c: nat)
    requires Complete(d, base, o, l) && c < |o.classes|
    ensures Holds(d, base + l.classes.places[c], ClassBytes(o.classes[c], OfClass(o, FinalOffsets(o, l.code), c)))
  {
    HeldItem(d, base, l.classes, ClassBlobs(o, l.code), c);
  }

  lemma {:induction false} OfClassAt(o: Oat, offsets: seq<nat>, c: nat, k: nat)
    requires o.methods == Visited(o.classes) && |offsets| == |o.methods| && c < |o.classes|
    requires k < |Compiled(o.classes[c].methods)|
    ensures ClassBase(o, c) + k < |offsets| && OfClass(o, offsets, c)[k] == offsets[ClassBase(o, c) + k]
  {
    ClassMethods(o, c);
  }

  lemma {:induction false} EntryDecodes(d: seq<byte>, at: nat, o: Oat, offsets: seq<nat>, c: nat, m: nat)
    requires o.methods == Visited(o.classes) && |offsets| == |o.methods|
    requires forall i :: 0 <= i < |offsets| ==> offsets[i] < TWO_32
    requires c < |o.classes| && m < |o.classes[c].methods| && BitmapSize(o.classes[c]) < TWO_32
    requires Holds(d, at, ClassBytes(o.classes[c], OfClass(o, offsets, c)))
    ensures o.classes[c].methods[m].None? ==> ReadCodeOffset(d, at, m) == None
    ensures o.classes[c].methods[m].Some? ==>
              MethodNumber(o, c, m) < |o.methods| && ReadCodeOffset(d, at, m) == Some(offsets[MethodNumber(o, c, m)])
  {
    var part := OfClass(o, offsets, c);
    forall k | 0 <= k < |part| ensures part[k] < TWO_32 { OfClassAt(o, offsets, c, k); }
    ClassEntryReads(d, at, o.classes[c], part, m);
    if o.classes[c].methods[m].Some? {
      MethodNumberIs(o, c, m);
      OfClassAt(o, offsets, c, |Compiled(o.classes[c].methods[..m])|);
    }
  }

  // ----- dex files -----

  lemma {:induction false} HeldFive(d: seq<byte>, at: nat, a: seq<byte>, b: seq<byte>, c: seq<byte>, e: seq<byte>,
                                    f: seq<byte>)
    requires Holds(d, at, a + b + c + e + f)
    ensures Holds(d, at, a) && Holds(d, at + |a|, b)
    ensures Holds(d, at + |a| + |b| + |c|, e) && Holds(d, at + |a| + |b| + |c| + |e|, f)
  {
    HeldSplit(d, at, a + b + c + e, f);
    HeldSplit(d, at, a + b + c, e);
    HeldSplit(d, at, a + b, c);
    HeldSplit(d, at, a, b);
  }

  ghost predicate EntryHolds(d: seq<byte>, at: nat, dex: DexFile, dexOffset: nat, classOffsets: seq<nat>) {
    && LocationSize(d, at) == |dex.location| && ReadDexOffset(d, at) == dexOffset
    && Holds(d, at + 4, dex.location) && Holds(d, at + 4 + |dex.location| + 8, Words(classOffsets))
  }

  lemma {:induction false} DexEntryReads(d: seq<byte>, at: nat, dex: DexFile, dexOffset: nat, classOffsets: seq<nat>)
    requires Holds(d, at, DexEntryBytes(dex, dexOffset, classOffsets)) && |dex.location| < TWO_32 && dexOffset < TWO_32
    ensures EntryHolds(d, at, dex, dexOffset, classOffsets)
  {
    HeldFive(d, at, Le32(U32(|dex.location|)), dex.location, Le32(dex.checksum), Le32(U32(dexOffset)),
      Words(classOffsets));
    WordRead(d, at, U32(|dex.location|));
    WordRead(d, at + 4 + |dex.location| + 4, U32(dexOffset));
  }

  lemma {:induction false} DexEntryHeld(d: seq<byte>, base: nat, o: Oat, l: Layout, f: nat)
    requires Complete(d, base, o, l) && f < |o.dexFiles|
    ensures Holds(d, base + l.dexEntries.places[f],
      DexEntryBytes(o.dexFiles[f], l.dex.places[f], OfDexFile(o, l.classes.places, f)))
    ensures Holds(d, base + l.dex.places[f], o.dexFiles[f].bytes)
  {
    HeldItem(d, base, l.dexEntries, DexEntryBlobs(o, l), f);
    HeldItem(d, base, l.dex, DexBlobs(o), f);
  }

  lemma {:induction false} DexFits(o: Oat, l: Layout, f: nat)
    requires Good(o, l) && f < |o.dexFiles|
    ensures |o.dexFiles[f].location| < TWO_32 && 0 < l.dex.places[f] < TWO_32
  {
    PartOrder(o, l);
    PlaceBounds(l.dexEntries, f, |o.dexFiles|);
    PlaceBounds(l.dex, f, |o.dexFiles|);
  }

  lemma {:induction false} DexEntryDecodes(d: seq<byte>, at: nat, base: nat, o: Oat, l: Layout, f: nat)
    requires Complete(d, base, o, l) && f < |o.dexFiles| && at == base + l.dexEntries.places[f]
    ensures EntryHolds(d, at, o.dexFiles[f], l.dex.places[f], OfDexFile(o, l.classes.places, f))
  {
    DexEntryHeld(d, base, o, l, f);
    DexFits(o, l, f);
    DexEntryReads(d, at, o.dexFiles[f], l.dex.places[f], OfDexFile(o, l.classes.places, f));
  }

  lemma {:induction false} NextEntry(o: Oat, p: Plan<nat>, n: nat)
    requires ListPart(p, DexEntrySizes(o), 1) && n < |o.dexFiles|
    ensures p.places[n] == p.ends[n] && p.ends[n + 1] == p.ends[n] + DexEntrySize(o.dexFiles[n])
  {
    assert Step(p, n);
  }

  /** What the walk reads to get past an entry. */
  predicate EntrySizes(d: seq<byte>, base: nat, entry: nat, dex: DexFile) {
    LocationSize(d, entry) == |dex.location| && ReadClassDefs(d, base, entry) == dex.numClassDefs
  }

  ghost predicate EntrySized(d: seq<byte>, base: nat, o: Oat, p: Plan<nat>, f: nat) {
    f < |o.dexFiles| && f < |p.places| && EntrySizes(d, base, base + p.places[f], o.dexFiles[f])
  }

  lemma {:induction false} PastEntry(d: seq<byte>, base: nat, entry: nat, dex: DexFile)
    requires EntrySizes(d, base, entry, dex)
    ensures entry + 4 + LocationSize(d, entry) + 8 + 4 * ReadClassDefs(d, base, entry) == entry + DexEntrySize(dex)
  {
  }

  lemma {:induction false} EntrySizesRead(d: seq<byte>, base: nat, o: Oat, l: Layout, f: nat)
    requires Complete(d, base, o, l) && f < |o.dexFiles|
    ensures EntrySizes(d, base, base + l.dexEntries.places[f], o.dexFiles[f])
  {
    DexEntryDecodes(d, base + l.dexEntries.places[f], base, o, l, f);
    DexEntryHeld(d, base, o, l, f);
    assert HasHeader(o.dexFiles[f]);
    HeldWord(d, base + l.dex.places[f], o.dexFiles[f].bytes, CLASS_DEFS_SIZE, o.dexFiles[f].numClassDefs);
  }

  /** The walk over the table arrives at every entry. */
  lemma {:induction false} WalkArrives(d: seq<byte>, base: nat, table: nat, o: Oat, p: Plan<nat>, n: nat)
    requires ListPart(p, DexEntrySizes(o), 1) && n <= |o.dexFiles| && table == base + Start(p)
    requires forall f: nat :: f < n ==> EntrySized(d, base, o, p, f)
    ensures EntryAt(d, base, table, n) == base + p.ends[n]
    decreases n
  {
    if n > 0 {
      WalkArrives(d, base, table, o, p, n - 1);
      NextEntry(o, p, n - 1);
      assert EntrySized(d, base, o, p, n - 1);
      PastEntry(d, base, base + p.places[n - 1], o.dexFiles[n - 1]);
    }
  }

  lemma {:induction false} EntryFound(d: seq<byte>, base: nat, table: nat, o: Oat, l: Layout, f: nat)
    requires Complete(d, base, o, l) && f < |o.dexFiles| && table == base + |o.header|
    ensures EntryAt(d, base, table, f) == base + l.dexEntries.places[f]
  {
    forall i: nat | i < f ensures EntrySized(d, base, o, l.dexEntries, i) {
      EntrySizesRead(d, base, o, l, i);
    }
    assert EntryAt(d, base, table, f) == base + l.dexEntries.ends[f] by {
      WalkArrives(d, base, table, o, l.dexEntries, f);
    }
    NextEntry(o, l.dexEntries, f);
  }

  lemma {:induction false} ClassOffsetFound(d: seq<byte>, entry: nat, o: Oat, l: Layout, f: nat, k: nat)
    requires Good(o, l) && f < |o.dexFiles| && k < o.dexFiles[f].numClassDefs
    requires EntryHolds(d, entry, o.dexFiles[f], l.dex.places[f], OfDexFile(o, l.classes.places, f))
    ensures DexBase(o, f) + k < |o.classes| && ReadClassOffset(d, entry, k) == l.classes.places[DexBase(o, f) + k]
  {
    ClassDefsPrefix(o.dexFiles, f);
    ClassFits(o, l, DexBase(o, f) + k);
    OffsetWord(d, entry + 4 + |o.dexFiles[f].location| + 8, OfDexFile(o, l.classes.places, f), k);
  }

  /** What the walk finds out about a dex file: its location, its bytes and the offsets of its classes. */
  lemma {:induction false} DexFileFound(d: seq<byte>, base: nat, table: nat, o: Oat, l: Layout, f: nat, k: nat,
                                        entry: nat)
    requires Complete(d, base, o, l) && f < |o.dexFiles| && k < o.dexFiles[f].numClassDefs
    requires table == base + |o.header| && entry == EntryAt(d, base, table, f)
    ensures LocationSize(d, entry) == |o.dexFiles[f].location| && Holds(d, entry + 4, o.dexFiles[f].location)
    ensures ReadDexOffset(d, entry) > 0 && Holds(d, base + ReadDexOffset(d, entry), o.dexFiles[f].bytes)
    ensures DexBase(o, f) + k < |o.classes| && ReadClassOffset(d, entry, k) == l.classes.places[DexBase(o, f) + k]
  {
    EntryFound(d, base, table, o, l, f);
    DexEntryDecodes(d, entry, base, o, l, f);
    DexEntryHeld(d, base, o, l, f);
    DexFits(o, l, f);
    ClassOffsetFound(d, entry, o, l, f, k);
  }

  /** What the header says about the file. */
  lemma {:induction false} HeaderReads(d: seq<byte>, base: nat, o: Oat, l: Layout)
    requires Complete(d, base, o, l)
    ensures DexFileCount(d, base) == |o.dexFiles| && TableAt(d, base) == base + |o.header|
  {
    HeldWord(d, base, o.header, DEX_FILE_COUNT, |o.dexFiles|);
    HeldWord(d, base, o.header, KEY_VALUE_STORE_SIZE, |o.header| - OAT_HEADER_SIZE);
  }

  /**
   The whole search, from the first byte of the file: the code offset of method m of class def k of dex file
   f, if there is such a dex file and the method is compiled. A class def is known by a 16-bit index.
   */
  function FindMethod(d: seq<byte>, base: nat, f: nat, k: uint16, m: nat): Option<nat> {
    if f < DexFileCount(d, base) then
      ReadCodeOffset(d, base + ReadClassOffset(d, EntryAt(d, base, TableAt(d, base), f), k), m)
    else None
  }

  /** What the search for method m of class c may return. */
  ghost predicate Answers(d: seq<byte>, base: nat, o: Oat, method_: Option<CompiledMethod>, found: Option<nat>,
                          kind: MapKind) {
    match found
    case None => method_.None?
    case Some(codeOffset) =>
      && method_.Some?
      && Decoded(d, base, BytesAt(o, method_.value.code), BytesAt(o, MapOf(kind, method_.value)), codeOffset, kind)
  }

  lemma {:induction false} ClassAnswers(d: seq<byte>, base: nat, o: Oat, l: Layout, c: nat, m: nat, kind: MapKind)
    requires Complete(d, base, o, l) && c < |o.classes| && m < |o.classes[c].methods|
    ensures Answers(d, base, o, o.classes[c].methods[m], ReadCodeOffset(d, base + l.classes.places[c], m), kind)
  {
    ClassDecodes(d, base + l.classes.places[c], base, o, l, c, m);
    if o.classes[c].methods[m].Some? {
      MethodNumberIs(o, c, m);
      MethodDecodes(d, base, o, l, MethodNumber(o, c, m), kind);
    }
  }

  /**
   In a complete file the search for a method finds nothing if the method is not compiled, and
   otherwise ends at the method's own code, code size and map of the kind.
   */
  lemma {:induction false} MethodReached(d: seq<byte>, base: nat, o: Oat, l: Layout, f: nat, k: uint16, c: nat, m: nat,
                                         kind: MapKind)
    requires Complete(d, base, o, l)
    requires f < |o.dexFiles| && k < o.dexFiles[f].numClassDefs && c == DexBase(o, f) + k
    requires c < |o.classes| && m < |o.classes[c].methods|
    ensures Answers(d, base, o, o.classes[c].methods[m], FindMethod(d, base, f, k, m), kind)
  {
    HeaderReads(d, base, o, l);
    var table := TableAt(d, base);
    DexFileFound(d, base, table, o, l, f, k, EntryAt(d, base, table, f));
    ClassAnswers(d, base, o, l, c, m, kind);
  }
}
