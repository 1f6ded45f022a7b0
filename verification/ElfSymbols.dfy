/**
 The dynamic symbols of an oat file: the table that ElfSymtabBuilder::GenerateSymtab writes, and the
 lookup of the runtime (ElfFile::FindDynamicSymbol) on the bytes of the file. The lookup refuses to
 follow the chain of a symbol whose index is not below the number of buckets, so that it finds less
 than the hash table holds; what it finds is pinned down exactly.
 */
module ElfSymbols {
  import opened Bytes
  import opened Streams
  import opened DedupLayout
  import opened FileReads
  import opened ElfFormat
  import opened ElfStrings
  import opened ElfHash

  // ----- what a lookup finds -----

  /** The first symbol of the name from index `from` on, or 0. */
  function FirstNamed(names: seq<Name>, name: Name, from: nat): (k: nat)
    requires from > 0
    ensures k != 0 ==> from <= k <= |names| && CName(names[k - 1]) == name
    ensures forall i :: from - 1 <= i < |names| && (k == 0 || i < k - 1) ==> CName(names[i]) != name
    decreases |names| - from
  {
    if from > |names| then 0 else if CName(names[from - 1]) == name then from else FirstNamed(names, name, from + 1)
  }

  /** The chain is followed up to symbol k: all symbols on the way have indices below the number of buckets. */
  predicate Passable(hashes: seq<nat>, b: nat, nbuckets: nat, k: nat) {
    forall i :: 0 <= i < k - 1 && i < |hashes| && hashes[i] == b ==> i + 1 < nbuckets
  }

  /** What FindDynamicSymbol finds: the first symbol of the name, if the chain of its bucket can be followed to it. */
  function ReachedIn(names: seq<Name>, name: Name, hashes: seq<nat>, b: nat, nbuckets: nat): nat {
    var k := FirstNamed(names, name, 1);
    if k != 0 && Passable(hashes, b, nbuckets, k) then k else 0
  }

  function Reached(names: seq<Name>, name: Name, nbuckets: nat): nat
    requires nbuckets > 0
  {
    ReachedIn(names, name, BucketsOf(names, nbuckets), BucketOf(name, nbuckets), nbuckets)
  }

  // ----- the lookup -----

  /** Where the loader has found the three tables. */
  datatype Tables = Tables(hash: nat, symtab: nat, strtab: nat)

  /** The hash table and the names are in the file. */
  ghost predicate SymbolsHeld(d: seq<byte>, t: Tables, names: seq<Name>, table: seq<nat>) {
    && ElfHash.IsTable(table, names) && Holds(d, t.hash, Words(table)) &&
      (forall i :: 0 <= i < |table| ==> table[i] < TWO_32)
    && forall i :: 0 <= i < |names| ==> NameOf(d, t, i + 1) == CName(names[i])
  }

  /** GetString of the st_name of a symbol */
  function NameOf(d: seq<byte>, t: Tables, i: nat): Name {
    CString(d, t.strtab + Word(d, t.symtab + SymOffset(i)))
  }

  lemma {:induction false} TableWord(d: seq<byte>, hash: nat, table: seq<nat>, i: nat)
    requires Holds(d, hash, Words(table)) && i < |table| && table[i] < TWO_32
    ensures Word(d, hash + 4 * i) == table[i]
  {
    OffsetWord(d, hash, table, i);
  }

  lemma {:induction false} BucketWord(d: seq<byte>, t: Tables, names: seq<Name>, table: seq<nat>, b: nat)
    requires SymbolsHeld(d, t, names, table) && b < table[0]
    ensures Word(d, t.hash) == table[0]
    ensures Word(d, t.hash + 4 * (2 + b)) == Next(BucketsOf(names, table[0]), b, 1)
  {
    TableWord(d, t.hash, table, 0);
    TableWord(d, t.hash, table, 2 + b);
    assert table[2..2 + table[0]][b] == table[2 + b];
  }

  lemma {:induction false} ChainWord(d: seq<byte>, t: Tables, names: seq<Name>, table: seq<nat>, i: nat)
    requires SymbolsHeld(d, t, names, table) && 0 < i <= |names|
    ensures Word(d, t.hash + 4 * (2 + table[0] + i))
         == Next(BucketsOf(names, table[0]), BucketsOf(names, table[0])[i - 1], i + 1)
  {
    TableWord(d, t.hash, table, 2 + table[0] + i);
    assert table[2 + table[0]..][i] == table[2 + table[0] + i];
  }

  /** Symbols of the name hash to its bucket. */
  lemma {:induction false} SameBucket(names: seq<Name>, name: Name, nbuckets: nat, i: nat)
    requires nbuckets > 0 && 0 < i <= |names| && CName(names[i - 1]) == name
    ensures BucketsOf(names, nbuckets)[i - 1] == BucketOf(name, nbuckets)
  {
    CNameTwice(names[i - 1]);
  }

  method Bucket(name: Name, nbuckets: nat) returns (b: nat)
    requires nbuckets > 0
    ensures b == BucketOf(name, nbuckets)
  {
    var h := ElfHashOf(name);
    b := h as nat % nbuckets;
  }

  /** GetHashChain, which compares the index with the number of buckets and not with the length of the chain */
  function ChainAt(d: seq<byte>, t: Tables, nbuckets: nat, i: nat): nat {
    Word(d, t.hash + 4 * (2 + nbuckets + i))
  }

  ghost predicate LinkHeld(d: seq<byte>, t: Tables, nbuckets: nat, names: seq<Name>, hashes: seq<nat>, i: nat)
    requires |hashes| == |names|
  {
    0 < i <= |names| ==>
      NameOf(d, t, i) == CName(names[i - 1]) && ChainAt(d, t, nbuckets, i) == Next(hashes, hashes[i - 1], i + 1)
  }

  /** The loop of FindDynamicSymbol, from the first symbol of bucket b on. */
  method FollowChain(d: seq<byte>, t: Tables, name: Name, first: nat, nbuckets: nat,
                     ghost names: seq<Name>, ghost hashes: seq<nat>, ghost b: nat, ghost k: nat)
    returns (index: nat)
    requires |hashes| == |names| && forall i: nat :: LinkHeld(d, t, nbuckets, names, hashes, i)
    requires first == Next(hashes, b, 1) && k == FirstNamed(names, name, 1) && (k != 0 ==> hashes[k - 1] == b)
    ensures index == ReachedIn(names, name, hashes, b, nbuckets)
  {
    index := first;
    NextIs(hashes, b, 1);
    while index != 0
      invariant index <= |names| && (index != 0 ==> hashes[index - 1] == b && Passable(hashes, b, nbuckets, index))
      invariant k != 0 ==> 0 < index <= k
      decreases if index == 0 then 0 else |names| + 1 - index
    {
      assert LinkHeld(d, t, nbuckets, names, hashes, index);
      if name == NameOf(d, t, index) {
        return;
      }
      if index >= nbuckets {
        assert k != 0 ==> index - 1 < k - 1 && hashes[index - 1] == b;
        return 0;
      }
      NextIs(hashes, b, index + 1);
      index := ChainAt(d, t, nbuckets, index);
    }
  }

  /** ElfFile::FindDynamicSymbol; the result is the index of the symbol, or 0. */
  method FindDynamicSymbol(d: seq<byte>, t: Tables, name: Name, ghost names: seq<Name>, ghost table: seq<nat>)
    returns (index: nat)
    requires SymbolsHeld(d, t, names, table)
    ensures index == Reached(names, name, table[0])
  {
    TableWord(d, t.hash, table, 0);
    var nbuckets := Word(d, t.hash);
    var b := Bucket(name, nbuckets);
    BucketWord(d, t, names, table, b);
    ghost var k := FirstNamed(names, name, 1);
    if k != 0 {
      SameBucket(names, name, nbuckets, k);
    }
    ghost var hashes := BucketsOf(names, nbuckets);
    forall i: nat ensures LinkHeld(d, t, nbuckets, names, hashes, i) {
      if 0 < i <= |names| {
        ChainWord(d, t, names, table, i);
        assert NameOf(d, t, (i - 1) + 1) == CName(names[i - 1]);
      }
    }
    index := FollowChain(d, t, name, Word(d, t.hash + 4 * (2 + b)), nbuckets, names, hashes, b, k);
  }

  // ----- the symbols of an oat file -----

  const OATDATA: Name := [111, 97, 116, 100, 97, 116, 97]
  const OATEXEC: Name := [111, 97, 116, 101, 120, 101, 99]
  const OATLASTWORD: Name := [111, 97, 116, 108, 97, 115, 116, 119, 111, 114, 100]

  lemma {:induction false} LowBitOfInt(c: uint32)
    ensures (c as bv32) & 1 == if c % 2 == 1 then 1 else 0
  {
  }

  lemma {:induction false} BackToBits(h: bv32)
    ensures (h as nat) as bv32 == h
  {
  }

  lemma {:induction false} LowBitOfBits(h: bv32)
    ensures h & 1 == if h as nat % 2 == 1 then 1 else 0
  {
    BackToBits(h);
    LowBitOfInt(h as nat);
  }

  lemma {:induction false} FoldedLow(s: bv32)
    ensures Folded(s) & 1 == s & 1
  {
  }

  lemma {:induction false} ShiftedLow(h: bv32, c: bv32)
    ensures ((h << 4) + c) & 1 == c & 1
  {
  }

  /** The parity of a hash is that of the last character. */
  lemma {:induction false} HashParity(name: Name)
    requires name != []
    ensures Hash(name) as nat % 2 == name[|name| - 1] % 2
  {
    var h, c := Hash(name[..|name| - 1]), name[|name| - 1];
    ShiftedLow(h, c as bv32);
    FoldedLow(ElfHash.Shifted(h, c));
    LowBitOfBits(Hash(name));
    LowBitOfInt(c);
  }

  lemma {:induction false} TwoBuckets(name: Name)
    requires name != [] && 0 !in name
    ensures BucketOf(name, 2) == name[|name| - 1] % 2 && CName(name) == name
  {
    NameIsWhole(name, 0);
    HashParity(name);
  }

  lemma {:induction false} FirstNamedIs(names: seq<Name>, name: Name, k: nat)
    requires 0 < k <= |names| && CName(names[k - 1]) == name && forall i :: 0 <= i < k - 1 ==> CName(names[i]) != name
    ensures FirstNamed(names, name, 1) == k
  {
    assert FirstNamed(names, name, 1) != 0;
  }

  /** Two symbols in one of two buckets and one in the other: each is found. */
  lemma {:induction false} ThreeReached(names: seq<Name>, hashes: seq<nat>)
    requires |names| == 3 && names[0] != names[1] && names[0] != names[2] && names[1] != names[2]
    requires forall i :: 0 <= i < 3 ==> CName(names[i]) == names[i]
    requires |hashes| == 3 && hashes[1] != hashes[2]
    ensures forall i :: 0 <= i < 3 ==> ReachedIn(names, names[i], hashes, hashes[i], 2) == i + 1
  {
    FirstNamedIs(names, names[0], 1);
    FirstNamedIs(names, names[1], 2);
    FirstNamedIs(names, names[2], 3);
  }

  /**
   What matters of the three names: they are different C strings, and the last two end in characters of
   different parity.
   */
  ghost predicate Distinct(names: seq<Name>) {
    && |names| == 3 && names[0] != names[1] && names[0] != names[2] && names[1] != names[2]
    && (forall i :: 0 <= i < 3 ==> names[i] != [] && 0 !in names[i])
    && names[1][|names[1]| - 1] % 2 != names[2][|names[2]| - 1] % 2
  }

  /** The symbols of every oat file, in the order of the symbol table. */
  const REQUIRED := [OATDATA, OATEXEC, OATLASTWORD]

  lemma {:induction false} OatNames(names: seq<Name>)
    requires names == REQUIRED
    ensures Distinct(names)
  {
    assert names[0][3] == 100 && names[1][3] == 101 && names[2][3] == 108;
  }

  lemma {:induction false} BucketAt(names: seq<Name>, i: nat)
    requires i < |names| && names[i] != [] && 0 !in names[i]
    ensures BucketsOf(names, 2)[i] == names[i][|names[i]| - 1] % 2 && CName(names[i]) == names[i]
  {
    TwoBuckets(names[i]);
  }

  ghost predicate ByParity(names: seq<Name>, hashes: seq<nat>) {
    && |hashes| == |names|
    && forall i :: 0 <= i < |names| && names[i] != [] ==>
         hashes[i] == names[i][|names[i]| - 1] % 2 && CName(names[i]) == names[i]
  }

  lemma {:induction false} OatBuckets(names: seq<Name>)
    requires forall i :: 0 <= i < |names| ==> names[i] != [] && 0 !in names[i]
    ensures ByParity(names, BucketsOf(names, 2))
  {
    forall i | 0 <= i < |names|
      ensures BucketsOf(names, 2)[i] == names[i][|names[i]| - 1] % 2 && CName(names[i]) == names[i]
    {
      BucketAt(names, i);
    }
  }

  lemma {:induction false} DifferentBuckets(names: seq<Name>, hashes: seq<nat>)
    requires Distinct(names) && ByParity(names, hashes)
    ensures forall i :: 0 <= i < 3 ==> ReachedIn(names, names[i], hashes, hashes[i], 2) == i + 1
  {
    ThreeReached(names, hashes);
  }

  /** All three symbols of an oat file are found, although two share a bucket. */
  lemma {:induction false} OatSymbolReached(names: seq<Name>, i: nat)
    requires Distinct(names) && i < 3
    ensures Reached(names, names[i], 2) == i + 1
  {
    var hashes := BucketsOf(names, 2);
    OatBuckets(names);
    DifferentBuckets(names, hashes);
    assert hashes[i] == BucketOf(names[i], 2);
  }

  /** Three symbols in one of two buckets: the third is in the table, but the lookup does not get to it. */
  lemma {:induction false} ChainIsCut(names: seq<Name>)
    requires |names| == 3 && names[0] != names[2] && names[1] != names[2]
    requires forall i :: 0 <= i < 3 ==> names[i] != [] && 0 !in names[i] && names[i][|names[i]| - 1] % 2 == 1
    ensures FirstNamed(names, names[2], 1) == 3 && Reached(names, names[2], BucketCount(|names|)) == 0
  {
    TwoBuckets(names[0]);
    TwoBuckets(names[1]);
    TwoBuckets(names[2]);
    var hashes := BucketsOf(names, 2);
    assert hashes[1] == 1;
    FirstNamedIs(names, names[2], 3);
    assert !Passable(hashes, 1, 2, 3);
  }

  /** The symbols a, c and e are such: e is in the table and is not found. */
  lemma {:induction false} LostSymbol(names: seq<Name>)
    requires names == [[97], [99], [101]]
    ensures FirstNamed(names, names[2], 1) == 3 && Reached(names, names[2], BucketCount(|names|)) == 0
  {
    assert names[0][0] != names[2][0] && names[1][0] != names[2][0];
    ChainIsCut(names);
  }
}
