/**
 The hash section of an ELF file: ElfSymtabBuilder::GenerateHashContents and the lookup its comment
 documents, after chapter 5, "Hash Table", of the System V ABI (gABI). Symbol index 0 is STN_UNDEF.
 */
module ElfHash {
  import opened Bytes
  import opened ElfStrings

  function Shifted(h: bv32, c: byte): bv32 {
    (h << 4) + (c as bv32)
  }

  /** How the gABI folds the high nibble g back into h. */
  function FoldedWith(h: bv32, g: bv32): bv32 {
    (if g != 0 then h ^ (g >> 24) else h) & !g
  }

  function Folded(h: bv32): bv32 {
    FoldedWith(h, h & 0xf0000000)
  }

  /** One round: the next character is shifted in. */
  function Round(h: bv32, c: byte): bv32 {
    Folded(Shifted(h, c))
  }

  function Hash(name: Name): bv32 {
    if name == [] then 0 else Round(Hash(name[..|name| - 1]), name[|name| - 1])
  }

  lemma {:induction false} ShiftedOut(g: bv32)
    ensures (g >> 24) & 0xf0000000 == 0
  {
  }

  lemma {:induction false} MaskedOut(h: bv32, g: bv32, t: bv32)
    requires g == h & 0xf0000000 && t & 0xf0000000 == 0
    ensures (h ^ t) & !g == (h ^ g) ^ t && ((h ^ g) ^ t) & 0xf0000000 == 0
  {
  }

  lemma {:induction false} FoldedSome(h: bv32, g: bv32, t: bv32)
    requires t == g >> 24 && g != 0 && (h ^ t) & !g == (h ^ g) ^ t
    ensures (h ^ g) ^ t == FoldedWith(h, g)
  {
  }

  lemma {:induction false} FoldedNone(h: bv32, g: bv32, t: bv32)
    requires g == 0 && t == g >> 24
    ensures (h ^ g) ^ t == FoldedWith(h, g)
  {
  }

  /** The bionic form clears the high nibble by exclusive or; it computes the same. */
  lemma {:induction false} BionicFold(h: bv32, g: bv32, t: bv32)
    requires g == h & 0xf0000000 && t == g >> 24
    ensures (h ^ g) ^ t == Folded(h) && ((h ^ g) ^ t) & 0xf0000000 == 0
  {
    ShiftedOut(g);
    MaskedOut(h, g, t);
    if g == 0 {
      FoldedNone(h, g, t);
    } else {
      FoldedSome(h, g, t);
    }
  }

  predicate TopClear(h: bv32) {
    h & 0xf0000000 == 0
  }

  /** The body of the loop of elfhash, with its two exclusive ors. */
  method NextHash(h: bv32, c: byte) returns (r: bv32)
    ensures r == Round(h, c)
  {
    var s := Shifted(h, c);
    var g := s & 0xf0000000;
    var t := g >> 24;
    BionicFold(s, g, t);
    r := (s ^ g) ^ t;
  }

  lemma {:induction false} RoundTopClear(h: bv32, c: byte)
    ensures TopClear(Round(h, c))
  {
    var s := Shifted(h, c);
    var g := s & 0xf0000000;
    BionicFold(s, g, g >> 24);
  }

  lemma {:induction false} HashTopClear(name: Name)
    ensures TopClear(Hash(name))
  {
    if name != [] {
      RoundTopClear(Hash(name[..|name| - 1]), name[|name| - 1]);
    }
  }

  lemma {:induction false} HashStep(name: Name, i: nat)
    requires i < |name|
    ensures Hash(name[..i + 1]) == Round(Hash(name[..i]), name[i])
  {
    assert name[..i + 1][..i] == name[..i];
  }

  /** elfhash, on a string that c_str() terminates with a NUL */
  method ElfHashOf(name: Name) returns (h: bv32)
    ensures h == Hash(CName(name)) && TopClear(h)
  {
    h := 0;
    var i := 0;
    while i < |name| && name[i] != 0
      invariant i <= |name| && (forall k :: 0 <= k < i ==> name[k] != 0)
      invariant h == Hash(name[..i])
    {
      HashStep(name, i);
      h := NextHash(h, name[i]);
      i := i + 1;
    }
    CNameIs(name, i);
    HashTopClear(name[..i]);
  }

  // ----- the table -----

  /** `hashes[i]` is the bucket of symbol i + 1: the least index >= from in bucket b, or 0. */
  function Next(hashes: seq<nat>, b: nat, from: nat): nat
    requires from > 0
    decreases |hashes| - from
  {
    if from > |hashes| then 0 else if hashes[from - 1] == b then from else Next(hashes, b, from + 1)
  }

  lemma {:induction false} NextIs(hashes: seq<nat>, b: nat, from: nat)
    requires from > 0
    ensures Next(hashes, b, from) != 0 ==>
      from <= Next(hashes, b, from) <= |hashes| && hashes[Next(hashes, b, from) - 1] == b
    ensures forall i :: from - 1 <= i < |hashes| && (Next(hashes, b, from) == 0 || i < Next(hashes, b, from) - 1) ==>
      hashes[i] != b
    decreases |hashes| - from
  {
    if from <= |hashes| && hashes[from - 1] != b {
      NextIs(hashes, b, from + 1);
    }
  }

  /** One more symbol only changes what ended so far. */
  lemma {:induction false} NextGrows(hashes: seq<nat>, h: nat, b: nat, from: nat)
    requires 0 < from <= |hashes| + 1
    ensures Next(hashes + [h], b, from)
         == if Next(hashes, b, from) != 0 then Next(hashes, b, from) else if h == b then |hashes| + 1 else 0
    decreases |hashes| - from
  {
    if from <= |hashes| && hashes[from - 1] != b {
      NextGrows(hashes, h, b, from + 1);
    }
  }

  /** The table after |hashes| symbols. */
  ghost predicate Filled(buckets: seq<nat>, chain: seq<nat>, hashes: seq<nat>) {
    && |hashes| < |chain| && chain[0] == 0
    && (forall b :: 0 <= b < |buckets| ==> buckets[b] == Next(hashes, b, 1))
    && (forall k :: 0 < k <= |hashes| ==> chain[k] == Next(hashes, hashes[k - 1], k + 1))
    && (forall k :: |hashes| < k < |chain| ==> chain[k] == 0)
  }

  lemma {:induction false} FillBucket(buckets: seq<nat>, chain: seq<nat>, hashes: seq<nat>, b: nat)
    requires Filled(buckets, chain, hashes) && |hashes| + 1 < |chain| && b < |buckets| && buckets[b] == 0
    ensures Filled(buckets[b := |hashes| + 1], chain, hashes + [b])
  {
    NextIs(hashes, b, 1);
    forall c | 0 <= c < |buckets| ensures buckets[b := |hashes| + 1][c] == Next(hashes + [b], c, 1) {
      NextGrows(hashes, b, c, 1);
    }
    forall k | 0 < k <= |hashes| ensures chain[k] == Next(hashes + [b], hashes[k - 1], k + 1) {
      NextGrows(hashes, b, hashes[k - 1], k + 1);
    }
  }

  /** `last` is the last symbol of its bucket so far. */
  lemma {:induction false} FillChain(buckets: seq<nat>, chain: seq<nat>, hashes: seq<nat>, b: nat, last: nat)
    requires Filled(buckets, chain, hashes) && |hashes| + 1 < |chain| && b < |buckets|
    requires 0 < last <= |hashes| && hashes[last - 1] == b && chain[last] == 0
    ensures Filled(buckets, chain[last := |hashes| + 1], hashes + [b])
  {
    NextIs(hashes, b, last + 1);
    forall c | 0 <= c < |buckets| ensures buckets[c] == Next(hashes + [b], c, 1) {
      NextGrows(hashes, b, c, 1);
      NextIs(hashes, c, 1);
    }
    var now := chain[last := |hashes| + 1];
    forall k | 0 < k <= |hashes| ensures now[k] == Next(hashes + [b], hashes[k - 1], k + 1) {
      NextGrows(hashes, b, hashes[k - 1], k + 1);
      NextIs(hashes, hashes[k - 1], k + 1);
    }
  }

  /** Each of the first n indices occurs once in both arrays together, and all other cells are 0. */
  ghost predicate OnceEach(a: multiset<nat>, b: multiset<nat>, n: nat, size: nat) {
    a[0] + b[0] == size - n && forall k: nat :: k > 0 ==> a[k] + b[k] == if k <= n then 1 else 0
  }

  ghost predicate Tallied(buckets: seq<nat>, chain: seq<nat>, n: nat) {
    OnceEach(multiset(buckets), multiset(chain), n, |buckets| + |chain|)
  }

  lemma {:induction false} Replaced(cells: seq<nat>, k: nat, v: nat)
    requires k < |cells| && cells[k] == 0 && v > 0
    ensures multiset(cells)[0] > 0
    ensures multiset(cells[k := v]) == multiset(cells)[0 := multiset(cells)[0] - 1][v := multiset(cells)[v] + 1]
  {
    assert 0 in cells;
    assert multiset(cells[k := v]) == multiset(cells) - multiset{cells[k]} + multiset{v};
  }

  lemma {:induction false} TallyBucket(buckets: seq<nat>, chain: seq<nat>, n: nat, b: nat)
    requires Tallied(buckets, chain, n) && b < |buckets| && buckets[b] == 0
    ensures Tallied(buckets[b := n + 1], chain, n + 1)
  {
    Replaced(buckets, b, n + 1);
  }

  lemma {:induction false} TallyChain(buckets: seq<nat>, chain: seq<nat>, n: nat, k: nat)
    requires Tallied(buckets, chain, n) && k < |chain| && chain[k] == 0
    ensures Tallied(buckets, chain[k := n + 1], n + 1)
  {
    Replaced(chain, k, n + 1);
  }

  /** Follows the chain to its end; the assertions are the checks of the source. */
  method LastOf(chain: array<nat>, first: nat, ghost buckets: seq<nat>, ghost hashes: seq<nat>, ghost b: nat)
    returns (last: nat)
    requires Filled(buckets, chain[..], hashes) && first == Next(hashes, b, 1) != 0
    ensures 0 < last <= |hashes| < chain.Length && hashes[last - 1] == b && chain[last] == 0
  {
    ghost var cells := chain[..];
    last := first;
    NextIs(hashes, b, 1);
    assert last < chain.Length;
    while chain[last] != 0
      invariant 0 < last <= |hashes| && hashes[last - 1] == b
      decreases |hashes| - last
    {
      NextIs(hashes, b, last + 1);
      assert chain[last] == cells[last];
      last := chain[last];
      assert last < chain.Length;
    }
  }

  /** Adds symbol |hashes| + 1 to bucket b. */
  method AddSymbol(buckets: array<nat>, chain: array<nat>, b: nat, index: nat, ghost hashes: seq<nat>)
    requires buckets != chain && b < buckets.Length && index == |hashes| + 1 < chain.Length
    requires Filled(buckets[..], chain[..], hashes) && Tallied(buckets[..], chain[..], |hashes|)
    modifies buckets, chain
    ensures Filled(buckets[..], chain[..], hashes + [b]) && Tallied(buckets[..], chain[..], index)
  {
    ghost var bs, cs := buckets[..], chain[..];
    if buckets[b] == 0 {
      FillBucket(bs, cs, hashes, b);
      TallyBucket(bs, cs, |hashes|, b);
      buckets[b] := index;
      assert buckets[..] == bs[b := index];
    } else {
      var last := LastOf(chain, buckets[b], bs, hashes, b);
      FillChain(bs, cs, hashes, b, last);
      TallyChain(bs, cs, |hashes|, last);
      chain[last] := index;
      assert chain[..] == cs[last := index];
      assert chain[index] == 0;
    }
  }

  function BucketCount(n: nat): (r: nat)
    ensures r > 0
  {
    if n < 8 then 2 else if n < 32 then 4 else if n < 256 then 16 else RoundUp(n / 32, 2)
  }

  function BucketOf(name: Name, nbuckets: nat): (b: nat)
    requires nbuckets > 0
    ensures b < nbuckets
  {
    Hash(CName(name)) as nat % nbuckets
  }

  function BucketsOf(symbols: seq<Name>, nbuckets: nat): (r: seq<nat>)
    requires nbuckets > 0
    ensures |r| == |symbols| && forall i :: 0 <= i < |r| ==> r[i] == BucketOf(symbols[i], nbuckets)
  {
    seq(|symbols|, i requires 0 <= i < |symbols| => BucketOf(symbols[i], nbuckets))
  }

  /** The section as it is stored: both counts, the buckets, the chain. */
  ghost predicate IsTable(table: seq<nat>, symbols: seq<Name>) {
    && |table| >= 2 && table[0] > 0 && table[1] == |symbols| + 1 && |table| == 2 + table[0] + table[1]
    && Filled(table[2..2 + table[0]], table[2 + table[0]..], BucketsOf(symbols, table[0]))
  }

  method FillTable(symbols: seq<Name>, buckets: array<nat>, chain: array<nat>)
    requires buckets != chain && buckets.Length > 0 && chain.Length == |symbols| + 1
    requires Filled(buckets[..], chain[..], []) && Tallied(buckets[..], chain[..], 0)
    modifies buckets, chain
    ensures Filled(buckets[..], chain[..], BucketsOf(symbols, buckets.Length))
    ensures Tallied(buckets[..], chain[..], |symbols|)
  {
    for i := 0 to |symbols|
      invariant Filled(buckets[..], chain[..], BucketsOf(symbols[..i], buckets.Length))
      invariant Tallied(buckets[..], chain[..], i)
    {
      var h := ElfHashOf(symbols[i]);
      var b := h as nat % buckets.Length;
      AddSymbol(buckets, chain, b, i + 1, BucketsOf(symbols[..i], buckets.Length));
      BucketsGrow(symbols, i, buckets.Length);
    }
    assert symbols[..|symbols|] == symbols;
  }

  lemma {:induction false} BucketsGrow(symbols: seq<Name>, i: nat, nbuckets: nat)
    requires i < |symbols| && nbuckets > 0
    ensures BucketsOf(symbols[..i], nbuckets) + [BucketOf(symbols[i], nbuckets)] ==
      BucketsOf(symbols[..i + 1], nbuckets)
  {
  }

  method TableWith(symbols: seq<Name>, nbuckets: nat) returns (table: seq<nat>)
    requires nbuckets > 0
    ensures IsTable(table, symbols) && table[0] == nbuckets && multiset(table[2..])[0] == 1 + table[0]
    ensures forall k: nat :: 0 < k <= |symbols| ==> multiset(table[2..])[k] == 1
  {
    var size := |symbols| + 1;
    var buckets := new nat[nbuckets](_ => 0);
    var chain := new nat[size](_ => 0);
    AllZero(buckets[..], chain[..]);
    FillTable(symbols, buckets, chain);
    table := [nbuckets, size] + buckets[..] + chain[..];
    Assembled(table, buckets[..], chain[..], symbols);
  }

  /** The number of buckets depends on the number of symbols; any positive one would do. */
  method GenerateHashContents(symbols: seq<Name>) returns (table: seq<nat>)
    ensures IsTable(table, symbols) && table[0] == BucketCount(|symbols|)
    ensures multiset(table[2..])[0] == 1 + table[0]
    ensures forall k: nat :: 0 < k <= |symbols| ==> multiset(table[2..])[k] == 1
  {
    table := TableWith(symbols, BucketCount(|symbols|));
  }

  lemma {:induction false} TableParts(table: seq<nat>, buckets: seq<nat>, chain: seq<nat>)
    requires table == [|buckets|, |chain|] + buckets + chain
    ensures table[2..2 + |buckets|] == buckets && table[2 + |buckets|..] == chain
    ensures multiset(table[2..]) == multiset(buckets) + multiset(chain)
  {
    assert table[2..] == buckets + chain;
  }

  lemma {:induction false} Assembled(table: seq<nat>, buckets: seq<nat>, chain: seq<nat>, symbols: seq<Name>)
    requires table == [|buckets|, |chain|] + buckets + chain && |buckets| > 0 && |chain| == |symbols| + 1
    requires Filled(buckets, chain, BucketsOf(symbols, |buckets|)) && Tallied(buckets, chain, |symbols|)
    ensures IsTable(table, symbols) && table[0] == |buckets| && multiset(table[2..])[0] == 1 + table[0]
    ensures forall k: nat :: 0 < k <= |symbols| ==> multiset(table[2..])[k] == 1
  {
    TableParts(table, buckets, chain);
  }

  lemma {:induction false} AllZero(buckets: seq<nat>, chain: seq<nat>)
    requires |chain| > 0 && (forall b :: 0 <= b < |buckets| ==> buckets[b] == 0)
    requires (forall k :: 0 <= k < |chain| ==> chain[k] == 0)
    ensures Filled(buckets, chain, [])
    ensures Tallied(buckets, chain, 0)
  {
    Zeroes(buckets);
    Zeroes(chain);
  }

  lemma {:induction false} Zeroes(s: seq<nat>)
    requires forall i :: 0 <= i < |s| ==> s[i] == 0
    ensures multiset(s)[0] == |s| && forall k: nat :: k > 0 ==> multiset(s)[k] == 0
    decreases |s|
  {
    if s != [] {
      var n := |s| - 1;
      Zeroes(s[..n]);
      assert s == s[..n] + [s[n]];
    }
  }

  // ----- lookup -----

  /** The loop of the lookup; `hashes` are the buckets of the symbols and b that of the name. */
  method Search(chain: seq<nat>, first: nat, symbols: seq<Name>, name: Name,
                ghost buckets: seq<nat>, ghost hashes: seq<nat>, ghost b: nat)
    returns (index: nat)
    requires Filled(buckets, chain, hashes) && |hashes| == |symbols| && first == Next(hashes, b, 1)
    requires forall i :: 0 <= i < |symbols| && hashes[i] != b ==> CName(symbols[i]) != CName(name)
    ensures index <= |symbols| && (index != 0 ==> CName(symbols[index - 1]) == CName(name))
    ensures forall i :: 0 <= i < |symbols| && (index == 0 || i < index - 1) ==> CName(symbols[i]) != CName(name)
  {
    index := first;
    NextIs(hashes, b, 1);
    while index != 0
      invariant index <= |symbols| && (index != 0 ==> hashes[index - 1] == b)
      invariant forall i :: 0 <= i < |symbols| && (index == 0 || i < index - 1) ==> CName(symbols[i]) != CName(name)
      decreases if index == 0 then 0 else |symbols| + 1 - index
    {
      if CName(symbols[index - 1]) == CName(name) {
        return;
      }
      NextIs(hashes, b, index + 1);
      index := chain[index];
    }
  }

  /** The lookup that the comment in the source spells out; names are compared as C strings. */
  method GetSym(table: seq<nat>, symbols: seq<Name>, name: Name) returns (index: nat)
    requires IsTable(table, symbols)
    ensures index <= |symbols| && (index != 0 ==> CName(symbols[index - 1]) == CName(name))
    ensures forall i :: 0 <= i < |symbols| && (index == 0 || i < index - 1) ==> CName(symbols[i]) != CName(name)
  {
    var nbuckets := table[0];
    var buckets, chain := table[2..2 + nbuckets], table[2 + nbuckets..];
    var h := ElfHashOf(name);
    var b := h as nat % nbuckets;
    assert b == BucketOf(name, nbuckets);
    index := Search(chain, buckets[b], symbols, name, buckets, BucketsOf(symbols, nbuckets), b);
  }

  // ----- what a walk over a bucket meets -----

  /** The indices >= from in bucket b, in order. */
  function Members(hashes: seq<nat>, b: nat, from: nat): seq<nat>
    requires from > 0
    decreases |hashes| - from
  {
    if from > |hashes| then []
    else if hashes[from - 1] == b then [from] + Members(hashes, b, from + 1)
    else Members(hashes, b, from + 1)
  }

  lemma {:induction false} MembersAre(hashes: seq<nat>, b: nat, from: nat)
    requires from > 0
    ensures forall k: nat :: k in Members(hashes, b, from) <==> from <= k <= |hashes| && hashes[k - 1] == b
    ensures forall i, j :: 0 <= i < j < |Members(hashes, b, from)| ==>
      Members(hashes, b, from)[i] < Members(hashes, b, from)[j]
    decreases |hashes| - from
  {
    if from <= |hashes| {
      var rest := Members(hashes, b, from + 1);
      MembersAre(hashes, b, from + 1);
      forall j | 0 <= j < |rest| ensures from < rest[j] { assert rest[j] in rest; }
    }
  }

  /** Starting at `start` and following the chain until it ends visits w. */
  ghost predicate IsWalk(chain: seq<nat>, start: nat, w: seq<nat>)
    decreases |w|
  {
    if w == [] then start == 0
    else start == w[0] != 0 && start < |chain| && IsWalk(chain, chain[start], w[1..])
  }

  lemma {:induction false} WalkFrom(chain: seq<nat>, buckets: seq<nat>, hashes: seq<nat>, b: nat, from: nat)
    requires Filled(buckets, chain, hashes) && from > 0
    ensures IsWalk(chain, Next(hashes, b, from), Members(hashes, b, from))
    decreases |hashes| - from
  {
    if from <= |hashes| {
      WalkFrom(chain, buckets, hashes, b, from + 1);
    }
  }

  /** Walking a bucket meets exactly the symbols that hash to it, once each and in rising order. */
  lemma {:induction false} BucketWalk(table: seq<nat>, symbols: seq<Name>, b: nat)
    requires IsTable(table, symbols) && b < table[0]
    ensures IsWalk(table[2 + table[0]..], table[2 + b], Members(BucketsOf(symbols, table[0]), b, 1))
  {
    assert table[2..2 + table[0]][b] == table[2 + b];
    WalkFrom(table[2 + table[0]..], table[2..2 + table[0]], BucketsOf(symbols, table[0]), b, 1);
  }
}
