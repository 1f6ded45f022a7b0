/** BitVector (runtime/base/bit_vector.cc) over words in a file: testing a bit, and counting the set bits below one. */
module BitVector {
  import opened Bytes
  import opened FileReads

  function BitOf(w: nat, t: nat): nat {
    if t == 0 then w % 2 else BitOf(w / 2, t - 1)
  }

  function PopCount(w: nat): nat {
    if w == 0 then 0 else w % 2 + PopCount(w / 2)
  }

  /** The bit of index i in the words at `storage`. */
  function StoredBit(d: seq<byte>, storage: nat, i: nat): nat {
    BitOf(Word(d, storage + 4 * (i / 32)), i % 32)
  }

  /** The set bits in [0, end), one by one. */
  function CountTo(d: seq<byte>, storage: nat, end: nat): nat {
    if end == 0 then 0 else CountTo(d, storage, end - 1) + StoredBit(d, storage, end - 1)
  }

  /** IsBitSet: the word and the mask of the bit */
  predicate IsBitSet(d: seq<byte>, storage: nat, num: nat) {
    And(Word(d, storage + 4 * (num / 32)), Pow2(num % 32)) != 0
  }

  function WordCounts(d: seq<byte>, storage: nat, words: nat): nat {
    if words == 0 then 0 else WordCounts(d, storage, words - 1) + PopCount(Word(d, storage + 4 * (words - 1)))
  }

  /** NumSetBits: whole words, then the low bits of the last one */
  function NumSetBits(d: seq<byte>, storage: nat, end: nat): nat {
    var wordEnd, partialWordBits := end / 32, end % 32;
    WordCounts(d, storage, wordEnd)
    + if partialWordBits != 0 then PopCount(And(Word(d, storage + 4 * wordEnd), Pow2(partialWordBits) - 1)) else 0
  }

  /** The loop of NumSetBits. */
  method CountSetBits(d: seq<byte>, storage: nat, end: nat) returns (count: nat)
    ensures count == NumSetBits(d, storage, end) == CountTo(d, storage, end)
  {
    var wordEnd, partialWordBits := end / 32, end % 32;
    count := 0;
    for word := 0 to wordEnd
      invariant count == WordCounts(d, storage, word)
    {
      count := count + PopCount(Word(d, storage + 4 * word));
    }
    if partialWordBits != 0 {
      count := count + PopCount(And(Word(d, storage + 4 * wordEnd), Pow2(partialWordBits) - 1));
    }
    NumSetBitsIs(d, storage, end);
  }

  // ----- words and their bits -----

  lemma {:induction false} AndBit(w: nat, t: nat)
    ensures And(w, Pow2(t)) != 0 <==> BitOf(w, t) == 1
    ensures BitOf(w, t) <= 1
    decreases t
  {
    if t > 0 {
      AndBit(w / 2, t - 1);
      assert Pow2(t) / 2 == Pow2(t - 1) && Pow2(t) % 2 == 0;
    } else {
      AndHalves(w, 0);
    }
  }

  /** The set bits among the low n. */
  function LowBits(w: nat, n: nat): nat {
    if n == 0 then 0 else LowBits(w, n - 1) + BitOf(w, n - 1)
  }

  lemma {:induction false} LowBitsShift(w: nat, n: nat)
    requires n > 0
    ensures LowBits(w, n) == w % 2 + LowBits(w / 2, n - 1)
    decreases n
  {
    if n > 1 {
      LowBitsShift(w, n - 1);
    }
  }

  lemma {:induction false} MaskedCount(w: nat, n: nat)
    ensures PopCount(And(w, Pow2(n) - 1)) == LowBits(w, n)
    decreases n
  {
    if n > 0 {
      MaskedCount(w / 2, n - 1);
      AndHalves(w, Pow2(n - 1) - 1);
      LowBitsShift(w, n);
      var low, rest := w % 2, And(w / 2, Pow2(n - 1) - 1);
      assert And(w, Pow2(n) - 1) == low + 2 * rest;
      assert (low + 2 * rest) % 2 == low && (low + 2 * rest) / 2 == rest;
    }
  }

  lemma {:induction false} AllCount(w: nat, n: nat)
    requires w < Pow2(n)
    ensures PopCount(w) == LowBits(w, n)
    decreases n
  {
    if n > 0 {
      AllCount(w / 2, n - 1);
      LowBitsShift(w, n);
    }
  }

  // ----- counting -----

  lemma {:induction false} IsBitSetIs(d: seq<byte>, storage: nat, num: nat)
    ensures IsBitSet(d, storage, num) <==> StoredBit(d, storage, num) == 1
  {
    AndBit(Word(d, storage + 4 * (num / 32)), num % 32);
  }

  lemma {:induction false} BitIndex(word: nat, t: nat)
    requires t < 32
    ensures (32 * word + t) / 32 == word && (32 * word + t) % 32 == t
  {
  }

  /** Counting on from a word boundary. */
  lemma {:induction false} CountWithin(d: seq<byte>, storage: nat, word: nat, n: nat)
    requires n <= 32
    ensures CountTo(d, storage, 32 * word + n) ==
      CountTo(d, storage, 32 * word) + LowBits(Word(d, storage + 4 * word), n)
    decreases n
  {
    if n > 0 {
      CountWithin(d, storage, word, n - 1);
      BitIndex(word, n - 1);
    }
  }

  lemma {:induction false} WordFits(d: seq<byte>, at: nat)
    ensures Word(d, at) < Pow2(32)
  {
    assert Pow2(8) == 256 && Pow2(16) == 65536 && Pow2(24) == 16777216 by {
      assert Pow2(4) == 16 && Pow2(12) == 4096 && Pow2(20) == 1048576;
    }
    assert Pow2(28) == 268435456;
  }

  lemma {:induction false} WholeWord(d: seq<byte>, storage: nat, word: nat, bits: nat)
    requires bits == 32
    ensures CountTo(d, storage, 32 * word + bits) ==
      CountTo(d, storage, 32 * word) + PopCount(Word(d, storage + 4 * word))
  {
    CountWithin(d, storage, word, bits);
    WordFits(d, storage + 4 * word);
    AllCount(Word(d, storage + 4 * word), bits);
  }

  lemma {:induction false} WholeWords(d: seq<byte>, storage: nat, words: nat)
    ensures WordCounts(d, storage, words) == CountTo(d, storage, 32 * words)
    decreases words
  {
    if words > 0 {
      var word, bits := words - 1, 32;
      WholeWords(d, storage, word);
      WholeWord(d, storage, word, bits);
      assert 32 * word + bits == 32 * words;
    }
  }

  /** Counting by words is counting bit by bit. */
  lemma {:induction false} NumSetBitsIs(d: seq<byte>, storage: nat, end: nat)
    ensures NumSetBits(d, storage, end) == CountTo(d, storage, end)
  {
    var wordEnd, partialWordBits := end / 32, end % 32;
    WholeWords(d, storage, wordEnd);
    CountWithin(d, storage, wordEnd, partialWordBits);
    MaskedCount(Word(d, storage + 4 * wordEnd), partialWordBits);
  }
}
