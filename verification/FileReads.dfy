/** Reading words from a file that holds given bytes at given places. */
module FileReads {
  import opened Bytes
  import opened Streams
  import opened DedupLayout

  function Word(d: seq<byte>, at: nat): nat {
    At(d, at) as int + 256 * At(d, at + 1) as int + 65536 * At(d, at + 2) as int + 16777216 * At(d, at + 3) as int
  }

  function Half(d: seq<byte>, at: nat): nat {
    At(d, at) as int + 256 * At(d, at + 1) as int
  }

  lemma {:induction false} HeldWord(d: seq<byte>, at: nat, bytes: seq<byte>, k: nat, v: uint32)
    requires Holds(d, at, bytes) && k + 4 <= |bytes| && bytes[k..k + 4] == Le32(v)
    ensures Word(d, at + k) == v
  {
    Read32Slice(bytes, k, v);
    assert At(d, at + k) == bytes[k];
    assert At(d, at + (k + 1)) == bytes[k + 1];
    assert At(d, at + (k + 2)) == bytes[k + 2];
    assert At(d, at + (k + 3)) == bytes[k + 3];
  }

  lemma {:induction false} HeldPart(d: seq<byte>, at: nat, a: seq<byte>, b: seq<byte>, c: seq<byte>)
    requires Holds(d, at, a + b + c)
    ensures Holds(d, at + |a|, b)
  {
    forall k | 0 <= k < |b| ensures At(d, at + |a| + k) == b[k] {
      assert At(d, at + (|a| + k)) == (a + b + c)[|a| + k];
    }
  }

  lemma {:induction false} HeldSplit(d: seq<byte>, at: nat, a: seq<byte>, b: seq<byte>)
    requires Holds(d, at, a + b)
    ensures Holds(d, at, a) && Holds(d, at + |a|, b)
  {
    forall k | 0 <= k < |a| ensures At(d, at + k) == a[k] {
      assert At(d, at + k) == (a + b)[k];
    }
    assert a + b + [] == a + b;
    HeldPart(d, at, a, b, []);
  }

  lemma {:induction false} WordRead(d: seq<byte>, at: nat, v: uint32)
    requires Holds(d, at, Le32(v))
    ensures Word(d, at) == v
  {
    assert Le32(v)[0..4] == Le32(v);
    HeldWord(d, at, Le32(v), 0, v);
  }

  lemma {:induction false} HalfRead(d: seq<byte>, at: nat, v: nat)
    requires v < 65536 && Holds(d, at, Le16(v))
    ensures Half(d, at) == v
  {
    Le16RoundTrip(v);
    assert At(d, at + 0) == Le16(v)[0];
    assert At(d, at + 1) == Le16(v)[1];
  }

  lemma {:induction false} OffsetWord(d: seq<byte>, at: nat, ws: seq<nat>, k: nat)
    requires Holds(d, at, Words(ws)) && k < |ws| && ws[k] < TWO_32
    ensures Word(d, at + 4 * k) == ws[k]
  {
    WordsAt(ws, k);
    HeldWord(d, at, Words(ws), 4 * k, ws[k]);
  }
}
