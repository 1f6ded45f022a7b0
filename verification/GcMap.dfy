/**
 GcMapBuilder: a byte-encoded hash table from native code offsets to reference bitmaps, with linear
 probing, and the lookup of NativePcOffsetToReferenceMap that decodes it. The hash function is any
 function.
 */
module GcMap {
  import opened Wrappers
  import opened Bytes

  datatype Entry = Entry(offset: nat, references: seq<byte>)

  // ----- the width of an offset -----

  function Pow256(n: nat): nat {
    if n == 0 then 1 else 256 * Pow256(n - 1)
  }

  function BitLength(x: nat): nat {
    if x == 0 then 0 else 1 + BitLength(x / 2)
  }

  /** CLZ of a non-zero 32-bit number */
  function Clz(x: uint32): int {
    32 - BitLength(x)
  }

  /** sizeof(uint32_t) - CLZ(max) / 8, or no bytes if there is nothing to store */
  function OffsetWidth(entries: nat, max: uint32): int {
    if entries != 0 && max != 0 then 4 - Clz(max) / 8 else 0
  }

  lemma {:induction false} BitLengthBounds(x: nat, n: nat)
    requires x < Pow256(n)
    ensures BitLength(x) <= 8 * n
    decreases n
  {
    if n > 0 && x != 0 {
      var y := x / 2 / 2 / 2 / 2 / 2 / 2 / 2 / 2;
      assert y == x / 256;
      BitLengthBounds(y, n - 1);
      EightBits(x);
    }
  }

  lemma {:induction false} EightBits(x: nat)
    ensures BitLength(x) <= 8 + BitLength(x / 256)
    ensures x >= 256 ==> BitLength(x) == 8 + BitLength(x / 256)
  {
    var x1 := x / 2;
    var x2 := x1 / 2;
    var x3 := x2 / 2;
    var x4 := x3 / 2;
    var x5 := x4 / 2;
    var x6 := x5 / 2;
    var x7 := x6 / 2;
    assert x7 / 2 == x / 256;
    assert BitLength(x) <= 1 + BitLength(x1);
    assert BitLength(x1) <= 1 + BitLength(x2);
    assert BitLength(x2) <= 1 + BitLength(x3);
    assert BitLength(x3) <= 1 + BitLength(x4);
    assert BitLength(x4) <= 1 + BitLength(x5);
    assert BitLength(x5) <= 1 + BitLength(x6);
    assert BitLength(x6) <= 1 + BitLength(x7);
    assert BitLength(x7) <= 1 + BitLength(x / 256);
  }

  /** A number of at most 8 * n bits has at most n bytes. */
  lemma {:induction false} BytesSuffice(x: nat, n: nat)
    requires BitLength(x) <= 8 * n
    ensures x < Pow256(n)
    decreases n
  {
    if x >= 256 {
      EightBits(x);
      BytesSuffice(x / 256, n - 1);
    } else if n == 0 {
      assert x == 0;
    } else {
      assert Pow256(n - 1) >= 1 by { PowPositive(n - 1); }
    }
  }

  lemma {:induction false} PowPositive(n: nat)
    ensures Pow256(n) > 0
  {
    if n > 0 {
      PowPositive(n - 1);
    }
  }

  /** Every offset up to the maximum fits the width derived from the maximum. */
  lemma {:induction false} WidthSuffices(entries: nat, max: uint32, offset: nat)
    requires offset <= max && entries != 0
    ensures 0 <= OffsetWidth(entries, max) <= 4 && offset < Pow256(OffsetWidth(entries, max))
  {
    if max != 0 {
      assert Pow256(4) == TWO_32 by { assert Pow256(2) == 65536; assert Pow256(3) == 256 * 65536; }
      BitLengthBounds(max, 4);
      assert BitLength(max) >= 1;
      BytesSuffice(max, OffsetWidth(entries, max));
    }
  }

  // ----- decoding -----

  /** The number whose n low bytes, least significant first, are at `at`. */
  function Decode(data: seq<byte>, at: nat, n: nat): nat
    requires at + n <= |data|
    decreases n
  {
    if n == 0 then 0 else data[at] as int + 256 * Decode(data, at + 1, n - 1)
  }

  /**
   GetNativePcOffset: a top byte from 128 on is shifted into the sign of an int, so that a reader with 64-bit addresses
   extends it.
   */
  function Shown(v: nat, offsetWidth: nat, wide: bool): nat {
    if wide && offsetWidth == 4 && v >= 0x8000_0000 then v + 0xFFFF_FFFF_0000_0000 else v
  }

  /** An offset is recognised exactly if it does not reach into the sign. */
  predicate Legible(offset: nat, wide: bool) {
    !wide || offset < 0x8000_0000
  }

  lemma {:induction false} FourBytes(v: nat, offsetWidth: nat)
    requires offsetWidth <= 4 && v < Pow256(offsetWidth)
    ensures v < TWO_32 && (v >= 0x8000_0000 ==> offsetWidth == 4)
  {
    assert Pow256(1) == 256;
    assert Pow256(2) == 65536;
    assert Pow256(3) == 256 * 65536;
    assert Pow256(4) == TWO_32;
  }

  lemma {:induction false} ShownIs(v: nat, offset: uint32, offsetWidth: nat, wide: bool)
    requires offsetWidth <= 4 && v < Pow256(offsetWidth)
    ensures Shown(v, offsetWidth, wide) == offset <==> v == offset && Legible(offset, wide)
  {
    FourBytes(v, offsetWidth);
  }

  lemma {:induction false} DecodeIs(data: seq<byte>, at: nat, n: nat, v: nat)
    requires at + n <= |data| && v < Pow256(n) && forall i :: 0 <= i < n ==> data[at + i] == ByteOf(v, i)
    ensures Decode(data, at, n) == v
    decreases n
  {
    if n > 0 {
      assert ByteOf(v, 0) == v % 256 && data[at + 0] == ByteOf(v, 0);
      forall i | 0 <= i < n - 1 ensures data[at + 1 + i] == ByteOf(v / 256, i) {
        assert data[at + (i + 1)] == ByteOf(v, i + 1);
      }
      DecodeIs(data, at + 1, n - 1, v / 256);
    }
  }

  // ----- the header -----

  function HeaderBytes(offsetWidth: nat, referencesWidth: nat, entries: nat): (r: seq<byte>)
    requires offsetWidth < 8
    ensures |r| == 4
  {
    [offsetWidth + referencesWidth * 8 % 256, referencesWidth / 32 % 256, entries % 256, entries / 256 % 256]
  }

  function NativeOffsetWidth(data: seq<byte>): nat
    requires |data| >= 4
  {
    data[0] % 8
  }

  function RegWidth(data: seq<byte>): nat
    requires |data| >= 4
  {
    (data[0] as int + 256 * data[1] as int) / 8
  }

  function NumEntries(data: seq<byte>): nat
    requires |data| >= 4
  {
    data[2] as int + 256 * data[3] as int
  }

  /** The packed header gives back its three fields. */
  lemma {:induction false} HeaderDecodes(offsetWidth: nat, referencesWidth: nat, entries: nat)
    requires offsetWidth < 8 && referencesWidth < 0x2000 && entries < 0x10000
    ensures var data := HeaderBytes(offsetWidth, referencesWidth, entries);
      NativeOffsetWidth(data) == offsetWidth && RegWidth(data) == referencesWidth && NumEntries(data) == entries
  {
    var q, m := referencesWidth / 32, referencesWidth % 32;
    assert referencesWidth == 32 * q + m && q < 256;
    assert referencesWidth * 8 % 256 == m * 8;
  }

  // ----- probing -----

  /** The slot d steps after `home` in a table of n slots. */
  function SlotAt(n: nat, home: nat, d: nat): nat
    requires home < n && d < n
  {
    if home + d < n then home + d else home + d - n
  }

  /** How many steps lead from `home` to slot s. */
  function Distance(n: nat, home: nat, s: nat): nat
    requires home < n && s < n
  {
    if home <= s then s - home else n - home + s
  }

  lemma {:induction false} NextSlot(n: nat, home: nat, d: nat)
    requires home < n && d + 1 < n
    ensures NextIndex(n, SlotAt(n, home, d)) == SlotAt(n, home, d + 1)
  {
    var i := SlotAt(n, home, d) + 1;
    if i < n {
      DivModUnique(i, n, 0, i);
    } else {
      DivModUnique(i, n, 1, 0);
    }
  }

  function Home(hash: nat -> nat, n: nat, offset: nat): (r: nat)
    requires n > 0
    ensures r < n
  {
    hash(offset) % n
  }

  /** All slots between the home of an offset and its slot are taken. */
  ghost predicate Reachable(slots: seq<Option<Entry>>, hash: nat -> nat, s: nat)
    requires s < |slots| && slots[s].Some?
  {
    var n := |slots|;
    var home := Home(hash, n, slots[s].value.offset);
    forall d: nat :: d < Distance(n, home, s) ==> slots[SlotAt(n, home, d)].Some?
  }

  ghost predicate Probed(slots: seq<Option<Entry>>, hash: nat -> nat) {
    && (forall s: nat :: s < |slots| && slots[s].Some? ==> Reachable(slots, hash, s))
    && (forall s: nat, t: nat {:trigger slots[s].Some?, slots[t].Some?} ::
          s < |slots| && t < |slots| && slots[s].Some? && slots[t].Some? ==>
          slots[s].value.offset == slots[t].value.offset ==> s == t)
  }

  lemma {:induction false} ProbedStep(slots: seq<Option<Entry>>, hash: nat -> nat, e: Entry, s: nat)
    requires Probed(slots, hash) && s < |slots| && slots[s].None?
    requires forall t :: 0 <= t < |slots| && slots[t].Some? ==> slots[t].value.offset != e.offset
    requires Reachable(slots[s := Some(e)], hash, s)
    ensures Probed(slots[s := Some(e)], hash)
  {
    var slots' := slots[s := Some(e)];
    forall t: nat | t < |slots'| && slots'[t].Some? ensures Reachable(slots', hash, t) {
      if t != s {
        assert Reachable(slots, hash, t);
      }
    }
  }

  function Taken(slots: seq<Option<Entry>>): nat {
    if slots == [] then 0
    else Taken(slots[..|slots| - 1]) + if slots[|slots| - 1].Some? then 1 else 0
  }

  lemma {:induction false} FreeSlot(slots: seq<Option<Entry>>) returns (s: nat)
    requires Taken(slots) < |slots|
    ensures s < |slots| && slots[s].None?
    decreases |slots|
  {
    var n := |slots| - 1;
    if slots[n].None? {
      s := n;
    } else {
      s := FreeSlot(slots[..n]);
    }
  }

  lemma {:induction false} TakenStep(slots: seq<Option<Entry>>, s: nat, e: Entry)
    requires s < |slots| && slots[s].None?
    ensures Taken(slots[s := Some(e)]) == Taken(slots) + 1
    decreases |slots|
  {
    var n := |slots| - 1;
    assert slots[s := Some(e)][..n] == if s < n then slots[..n][s := Some(e)] else slots[..n];
    if s < n {
      TakenStep(slots[..n], s, e);
    }
  }

  // ----- the table -----

  /** Where slot s starts: behind the header and s entries. */
  function Pos(width: nat, s: nat): (at: nat)
    ensures at >= 4
  {
    if s == 0 then 4 else Pos(width, s - 1) + width
  }

  lemma {:induction false} PosIs(width: nat, s: nat)
    ensures Pos(width, s) == s * width + 4
    decreases s
  {
    if s > 0 {
      PosIs(width, s - 1);
      assert s * width == (s - 1) * width + width;
    }
  }

  lemma {:induction false} PosApart(width: nat, s: nat, t: nat)
    requires s < t
    ensures Pos(width, s) + width <= Pos(width, t)
    decreases t
  {
    if s < t - 1 {
      PosApart(width, s, t - 1);
    }
  }

  /** Slot s of the table encodes an entry. */
  ghost predicate Encoded(data: seq<byte>, offsetWidth: nat, referencesWidth: nat, at: nat, e: Entry) {
    && at + offsetWidth + referencesWidth <= |data|
    && e.offset < Pow256(offsetWidth) && |e.references| == referencesWidth
    && (forall i :: 0 <= i < offsetWidth ==> data[at + i] == ByteOf(e.offset, i))
    && data[at + offsetWidth..at + offsetWidth + referencesWidth] == e.references
  }

  /** The offset of a slot nobody has written to is all zeros. */
  ghost predicate Untouched(data: seq<byte>, offsetWidth: nat, referencesWidth: nat, at: nat) {
    at + offsetWidth + referencesWidth <= |data| && forall k :: at <= k < at + offsetWidth ==> data[k] == 0
  }

  ghost predicate SlotHolds(data: seq<byte>, offsetWidth: nat, referencesWidth: nat, s: nat, slot: Option<Entry>) {
    var at := Pos(offsetWidth + referencesWidth, s);
    if slot.Some? then Encoded(data, offsetWidth, referencesWidth, at, slot.value)
    else Untouched(data, offsetWidth, referencesWidth, at)
  }

  /** The bytes encode the slots. */
  ghost predicate Built(data: seq<byte>, slots: seq<Option<Entry>>, hash: nat -> nat, offsetWidth: nat,
                        referencesWidth: nat) {
    && offsetWidth <= 4 && referencesWidth < 0x2000 && |slots| < 0x10000
    && |data| == Pos(offsetWidth + referencesWidth, |slots|) &&
      data[..4] == HeaderBytes(offsetWidth, referencesWidth, |slots|)
    && Probed(slots, hash)
    && forall s: nat :: s < |slots| ==> SlotHolds(data, offsetWidth, referencesWidth, s, slots[s])
  }

  /** Writing one slot leaves the others alone. */
  lemma {:induction false} EncodedKept(data: seq<byte>, data': seq<byte>, offsetWidth: nat, referencesWidth: nat,
                                       at: nat, other: nat, e: Entry)
    requires Encoded(data, offsetWidth, referencesWidth, at, e) && |data'| == |data|
    requires at + offsetWidth + referencesWidth <= other || other + offsetWidth + referencesWidth <= at
    requires forall k :: 0 <= k < |data| && !(other <= k < other + offsetWidth + referencesWidth) ==>
      data'[k] == data[k]
    ensures Encoded(data', offsetWidth, referencesWidth, at, e)
  {
    forall i | 0 <= i < offsetWidth ensures data'[at + i] == ByteOf(e.offset, i) {
      assert data[at + i] == ByteOf(e.offset, i);
    }
    var from := at + offsetWidth;
    assert data'[from..from + referencesWidth] == data[from..from + referencesWidth];
  }

  lemma {:induction false} SlotKept(data: seq<byte>, data': seq<byte>, offsetWidth: nat, referencesWidth: nat,
                                    s: nat, at: nat, t: nat, slot: Option<Entry>)
    requires s != t && |data'| == |data|
    requires SlotHolds(data, offsetWidth, referencesWidth, t, slot) && at == Pos(offsetWidth + referencesWidth, s)
    requires forall k :: 0 <= k < |data| && !(at <= k < at + offsetWidth + referencesWidth) ==> data'[k] == data[k]
    ensures SlotHolds(data', offsetWidth, referencesWidth, t, slot)
  {
    var width := offsetWidth + referencesWidth;
    if s < t { PosApart(width, s, t); } else { PosApart(width, t, s); }
    if slot.Some? {
      EncodedKept(data, data', offsetWidth, referencesWidth, Pos(width, t), at, slot.value);
    }
  }

  lemma {:induction false} BuiltStep(data: seq<byte>, data': seq<byte>, slots: seq<Option<Entry>>, hash: nat -> nat,
                                     offsetWidth: nat, referencesWidth: nat, s: nat, at: nat, e: Entry)
    requires Built(data, slots, hash, offsetWidth, referencesWidth) && s < |slots| && |data'| == |data|
    requires at == Pos(offsetWidth + referencesWidth, s) && Encoded(data', offsetWidth, referencesWidth, at, e)
    requires forall k :: 0 <= k < |data| && !(at <= k < at + offsetWidth + referencesWidth) ==> data'[k] == data[k]
    requires Probed(slots[s := Some(e)], hash)
    ensures Built(data', slots[s := Some(e)], hash, offsetWidth, referencesWidth)
  {
    var slots' := slots[s := Some(e)];
    assert data'[..4] == data[..4];
    forall t: nat | t < |slots'| ensures SlotHolds(data', offsetWidth, referencesWidth, t, slots'[t]) {
      if t != s {
        assert slots'[t] == slots[t] && SlotHolds(data, offsetWidth, referencesWidth, t, slots[t]);
        SlotKept(data, data', offsetWidth, referencesWidth, s, at, t, slots[t]);
      }
    }
  }

  function NoSlots(n: nat): (r: seq<Option<Entry>>)
    ensures |r| == n && forall s :: 0 <= s < n ==> r[s].None?
  {
    seq(n, _ => None)
  }

  lemma {:induction false} EmptyBuilt(data: seq<byte>, hash: nat -> nat, offsetWidth: nat, referencesWidth: nat, n: nat)
    requires offsetWidth <= 4 && referencesWidth < 0x2000 && n < 0x10000
    requires |data| == Pos(offsetWidth + referencesWidth, n)
    requires data[..4] == HeaderBytes(offsetWidth, referencesWidth, n)
    requires forall k :: 4 <= k < |data| ==> data[k] == 0
    ensures Built(data, NoSlots(n), hash, offsetWidth, referencesWidth)
  {
    forall s: nat | s < n ensures SlotHolds(data, offsetWidth, referencesWidth, s, None) {
      PosApart(offsetWidth + referencesWidth, s, n);
    }
  }

  /** A table of zeros behind its header. */
  method NewTable(offsetWidth: nat, referencesWidth: nat, entries: nat) returns (table: array<byte>)
    requires offsetWidth < 8
    ensures fresh(table) && table.Length == Pos(offsetWidth + referencesWidth, entries)
    ensures table[..4] == HeaderBytes(offsetWidth, referencesWidth, entries)
    ensures forall k :: 4 <= k < table.Length ==> table[k] == 0
  {
    var header := HeaderBytes(offsetWidth, referencesWidth, entries);
    table := new byte[Pos(offsetWidth + referencesWidth, entries)](_ => 0);
    table[0], table[1], table[2], table[3] := header[0], header[1], header[2], header[3];
  }

  // ----- lookup -----

  lemma {:induction false} HeaderRead(data: seq<byte>, slots: seq<Option<Entry>>, hash: nat -> nat, offsetWidth: nat,
                                      referencesWidth: nat)
    requires Built(data, slots, hash, offsetWidth, referencesWidth)
    ensures |data| >= 4 && NumEntries(data) == |slots|
    ensures NativeOffsetWidth(data) == offsetWidth && RegWidth(data) == referencesWidth
  {
    HeaderDecodes(offsetWidth, referencesWidth, |slots|);
    var header := data[..4];
    assert data[0] == header[0] && data[1] == header[1] && data[2] == header[2] && data[3] == header[3];
  }

  lemma {:induction false} SlotDecodes(data: seq<byte>, slots: seq<Option<Entry>>, hash: nat -> nat, offsetWidth: nat,
                                       referencesWidth: nat, t: nat, at: nat)
    requires Built(data, slots, hash, offsetWidth, referencesWidth) && t < |slots| && slots[t].Some?
    requires at == Pos(offsetWidth + referencesWidth, t)
    ensures at + offsetWidth + referencesWidth <= |data| && Decode(data, at, offsetWidth) == slots[t].value.offset
    ensures data[at + offsetWidth..at + offsetWidth + referencesWidth] == slots[t].value.references
  {
    assert SlotHolds(data, offsetWidth, referencesWidth, t, slots[t]);
    DecodeIs(data, at, offsetWidth, slots[t].value.offset);
  }

  function NextIndex(n: nat, index: nat): nat
    requires n > 0
  {
    (index + 1) % n
  }

  /** What a slot decodes to: its offset, or 0 if it is free. */
  ghost function OffsetIn(slot: Option<Entry>): nat {
    if slot.Some? then slot.value.offset else 0
  }

  lemma {:induction false} OffsetDecodes(data: seq<byte>, slots: seq<Option<Entry>>, hash: nat -> nat,
                                         offsetWidth: nat, referencesWidth: nat, s: nat, at: nat)
    requires Built(data, slots, hash, offsetWidth, referencesWidth) && s < |slots|
    requires at == Pos(offsetWidth + referencesWidth, s)
    ensures at + offsetWidth <= |data| && OffsetIn(slots[s]) < Pow256(offsetWidth)
    ensures Decode(data, at, offsetWidth) == OffsetIn(slots[s])
  {
    assert SlotHolds(data, offsetWidth, referencesWidth, s, slots[s]);
    PowPositive(offsetWidth);
    if slots[s].None? {
      forall i | 0 <= i < offsetWidth ensures data[at + i] == ByteOf(0, i) {
        ZeroBytes(i);
      }
    }
    DecodeIs(data, at, offsetWidth, OffsetIn(slots[s]));
  }

  lemma {:induction false} ZeroBytes(i: nat)
    ensures ByteOf(0, i) == 0
  {
    if i > 0 {
      ZeroBytes(i - 1);
    }
  }

  /** GetNativePcOffset of one slot */
  method ReadOffset(data: seq<byte>, offsetWidth: nat, referencesWidth: nat, index: nat, wide: bool, offset: uint32,
                    ghost slots: seq<Option<Entry>>, ghost hash: nat -> nat)
    returns (match_: bool)
    requires Built(data, slots, hash, offsetWidth, referencesWidth) && index < |slots|
    ensures match_ <==> OffsetIn(slots[index]) == offset && Legible(offset, wide)
  {
    var at := Pos(offsetWidth + referencesWidth, index);
    OffsetDecodes(data, slots, hash, offsetWidth, referencesWidth, index, at);
    ShownIs(OffsetIn(slots[index]), offset, offsetWidth, wide);
    match_ := Shown(Decode(data, at, offsetWidth), offsetWidth, wide) == offset;
  }

  /** On the way from the home of an offset to its slot no other slot has the offset. */
  lemma {:induction false} OnTheWay(slots: seq<Option<Entry>>, hash: nat -> nat, s: nat, home: nat, d: nat)
    requires Probed(slots, hash) && s < |slots| && slots[s].Some?
    requires home == Home(hash, |slots|, slots[s].value.offset) && d <= Distance(|slots|, home, s)
    ensures OffsetIn(slots[SlotAt(|slots|, home, d)]) == slots[s].value.offset <==> d == Distance(|slots|, home, s)
    ensures d == Distance(|slots|, home, s) ==> SlotAt(|slots|, home, d) == s
  {
    assert Reachable(slots, hash, s);
    assert slots[SlotAt(|slots|, home, d)].Some?;
  }

  /** The loop of the lookup, up to its check of the number of misses; s is the slot the entry was put into. */
  method Probe(data: seq<byte>, n: nat, offsetWidth: nat, referencesWidth: nat, home: nat, nativeOffset: uint32,
               wide: bool, ghost slots: seq<Option<Entry>>, ghost hash: nat -> nat, ghost s: nat)
    returns (found: bool, index: nat)
    requires Built(data, slots, hash, offsetWidth, referencesWidth) && n == |slots|
    requires s < n && slots[s].Some? && slots[s].value.offset == nativeOffset && home == Home(hash, n, nativeOffset)
    ensures found <==> Legible(nativeOffset, wide)
    ensures found ==> index == s
  {
    var misses := 0;
    index := home;
    OnTheWay(slots, hash, s, home, 0);
    found := ReadOffset(data, offsetWidth, referencesWidth, index, wide, nativeOffset, slots, hash);
    while !found && misses + 1 < n
      invariant misses < n && index == SlotAt(n, home, misses)
      invariant found ==> Legible(nativeOffset, wide) && OffsetIn(slots[index]) == nativeOffset
      invariant Legible(nativeOffset, wide) ==>
        misses <= Distance(n, home, s) && (found <==> misses == Distance(n, home, s))
      invariant found && Legible(nativeOffset, wide) ==> index == s
    {
      NextSlot(n, home, misses);
      index := NextIndex(n, index);
      misses := misses + 1;
      if Legible(nativeOffset, wide) {
        OnTheWay(slots, hash, s, home, misses);
      }
      found := ReadOffset(data, offsetWidth, referencesWidth, index, wide, nativeOffset, slots, hash);
    }
  }

  /**
   NativePcOffsetToReferenceMap::FindBitMap, from the bytes alone: an offset of the table leads to its own bitmap,
   exactly if it does not reach into the sign of an int on a reader with 64-bit addresses. Otherwise the loop runs into
   its check, or on for ever without it.
   */
  method FindBitMap(data: seq<byte>, hash: nat -> nat, nativeOffset: uint32, wide: bool,
                    ghost slots: seq<Option<Entry>>, ghost offsetWidth: nat, ghost referencesWidth: nat, ghost s: nat)
    returns (bitmap: Option<nat>)
    requires Built(data, slots, hash, offsetWidth, referencesWidth)
    requires s < |slots| && slots[s].Some? && slots[s].value.offset == nativeOffset
    ensures bitmap.Some? <==> Legible(nativeOffset, wide)
    ensures bitmap.Some? ==>
      bitmap.value + referencesWidth <= |data|
      && data[bitmap.value..bitmap.value + referencesWidth] == slots[s].value.references
  {
    HeaderRead(data, slots, hash, offsetWidth, referencesWidth);
    var n, ow, rw := NumEntries(data), NativeOffsetWidth(data), RegWidth(data);
    var found, index := Probe(data, n, ow, rw, Home(hash, n, nativeOffset), nativeOffset, wide, slots, hash, s);
    if !found {
      return None;
    }
    SlotDecodes(data, slots, hash, ow, rw, index, Pos(ow + rw, index));
    bitmap := Some(Pos(ow + rw, index) + ow);
  }

  /** An entry at 2^31 is added and not found by a reader with 64-bit addresses. */
  method SignHidesEntry(hash: nat -> nat) returns (bitmap: Option<nat>)
    ensures bitmap.None?
  {
    var builder := new GcMapBuilder(1, 0x8000_0000, 0, hash);
    assert Taken(builder.slots) == 0 by { assert builder.slots[..0] == []; }
    builder.AddEntry(0x8000_0000, []);
    assert builder.slots[0] == Some(Entry(0x8000_0000, []));
    bitmap := FindBitMap(builder.table[..], hash, 0x8000_0000, true, builder.slots, builder.nativeOffsetWidth,
                         builder.referencesWidth, 0);
  }

  ghost predicate Contains(slots: seq<Option<Entry>>, offset: nat) {
    exists s :: 0 <= s < |slots| && slots[s].Some? && slots[s].value.offset == offset
  }

  /** What HasEntry says. */
  ghost predicate Claimed(slots: seq<Option<Entry>>, offset: nat, wide: bool) {
    Legible(offset, wide) && exists s :: 0 <= s < |slots| && OffsetIn(slots[s]) == offset
  }

  /** NativePcOffsetToReferenceMap::HasEntry, from the bytes alone. */
  method HasEntry(data: seq<byte>, nativeOffset: uint32, wide: bool, ghost slots: seq<Option<Entry>>,
                  ghost hash: nat -> nat, ghost offsetWidth: nat, ghost referencesWidth: nat)
    returns (has: bool)
    requires Built(data, slots, hash, offsetWidth, referencesWidth)
    ensures has <==> Claimed(slots, nativeOffset, wide)
  {
    HeaderRead(data, slots, hash, offsetWidth, referencesWidth);
    var n, ow, rw := NumEntries(data), NativeOffsetWidth(data), RegWidth(data);
    for i := 0 to n
      invariant Legible(nativeOffset, wide) ==> forall s :: 0 <= s < i ==> OffsetIn(slots[s]) != nativeOffset
    {
      has := ReadOffset(data, ow, rw, i, wide, nativeOffset, slots, hash);
      if has {
        return;
      }
    }
    return false;
  }

  lemma {:induction false} AllTaken(slots: seq<Option<Entry>>, s: nat)
    requires Taken(slots) == |slots| && s < |slots|
    ensures slots[s].Some?
    decreases |slots|
  {
    var n := |slots| - 1;
    TakenBound(slots[..n]);
    if s < n {
      AllTaken(slots[..n], s);
    }
  }

  lemma {:induction false} TakenBound(slots: seq<Option<Entry>>)
    ensures Taken(slots) <= |slots|
    decreases |slots|
  {
    if slots != [] {
      TakenBound(slots[..|slots| - 1]);
    }
  }

  /**
   HasEntry is right unless it is asked for 0, 0 is not in the table, and fewer entries were added than announced; or
   the offset is in the table and reaches into the sign.
   */
  lemma {:induction false} HasEntryExact(slots: seq<Option<Entry>>, offset: nat, wide: bool)
    ensures (Claimed(slots, offset, wide) <==> Contains(slots, offset)) <==>
      && (offset != 0 || Contains(slots, 0) || Taken(slots) == |slots|)
      && (Legible(offset, wide) || !Contains(slots, offset))
  {
    TakenBound(slots);
    if Taken(slots) < |slots| {
      var s := FreeSlot(slots);
      assert OffsetIn(slots[s]) == 0;
    } else if Claimed(slots, offset, wide) {
      var s: nat :| s < |slots| && OffsetIn(slots[s]) == offset;
      AllTaken(slots, s);
    }
    if Contains(slots, offset) {
      var s: nat :| s < |slots| && slots[s].Some? && slots[s].value.offset == offset;
      assert OffsetIn(slots[s]) == offset;
    }
  }

  /** A table that nothing has been added to claims an entry for 0. */
  method EmptyTableClaimsZero(hash: nat -> nat, wide: bool) returns (has: bool)
    ensures has && !Contains(NoSlots(1), 0)
  {
    var builder := new GcMapBuilder(1, 0, 0, hash);
    assert builder.slots == NoSlots(1);
    assert OffsetIn(builder.slots[0]) == 0;
    has := HasEntry(builder.table[..], 0, wide, builder.slots, hash, builder.nativeOffsetWidth,
                    builder.referencesWidth);
  }

  class GcMapBuilder {
    const entries: nat
    const referencesWidth: nat
    const nativeOffsetWidth: nat
    const hash: nat -> nat
    const inUse: array<bool>
    const table: array<byte>
    ghost const max: uint32
    ghost var slots: seq<Option<Entry>>

    ghost predicate Valid()
      reads this, inUse, table
    {
      && entries == inUse.Length == |slots|
      && (forall s :: 0 <= s < entries ==> (inUse[s] <==> slots[s].Some?))
      && (entries != 0 ==> nativeOffsetWidth == OffsetWidth(entries, max))
      && Built(table[..], slots, hash, nativeOffsetWidth, referencesWidth)
    }

    constructor (entries: nat, maxNativeOffset: uint32, referencesWidth: nat, hash: nat -> nat)
      requires (entries != 0 ==> referencesWidth < 0x2000) && entries < 0x10000
      ensures Valid() && this.entries == entries && max == maxNativeOffset && this.hash == hash && fresh(inUse)
      ensures fresh(table)
      ensures this.referencesWidth == if entries != 0 then referencesWidth else 0
      ensures forall s :: 0 <= s < |slots| ==> slots[s].None?
    {
      var rw := if entries != 0 then referencesWidth else 0;
      var ow := OffsetWidth(entries, maxNativeOffset);
      assert 0 <= ow <= 4 by { if entries != 0 { WidthSuffices(entries, maxNativeOffset, 0); } }
      var flags := new bool[entries](_ => false);
      this.entries, this.referencesWidth, nativeOffsetWidth, this.hash := entries, rw, ow, hash;
      var bytes := NewTable(ow, rw, entries);
      inUse, table, max, slots := flags, bytes, maxNativeOffset, NoSlots(entries);
      new;
      EmptyBuilt(table[..], hash, ow, rw, entries);
    }

    /** Linear probing from the home slot; it ends because some slot is free. */
    method FindFree(nativeOffset: nat) returns (tableIndex: nat)
      requires Valid() && Taken(slots) < entries
      ensures tableIndex < entries && slots[tableIndex].None?
      ensures forall d: nat :: d < Distance(entries, Home(hash, entries, nativeOffset), tableIndex) ==>
        slots[SlotAt(entries, Home(hash, entries, nativeOffset), d)].Some?
    {
      ghost var free := FreeSlot(slots);
      var home := Home(hash, entries, nativeOffset);
      tableIndex := home;
      ghost var d := 0;
      while inUse[tableIndex]
        invariant d <= Distance(entries, home, free) < entries && tableIndex == SlotAt(entries, home, d)
        invariant forall e: nat :: e < d ==> slots[SlotAt(entries, home, e)].Some?
        decreases entries - d
      {
        assert d == Distance(entries, home, free) ==> tableIndex == free;
        NextSlot(entries, home, d);
        tableIndex := NextIndex(entries, tableIndex);
        d := d + 1;
      }
    }

    method SetCodeOffset(at: nat, nativeOffset: nat)
      requires at + nativeOffsetWidth <= table.Length
      modifies table
      ensures forall i :: 0 <= i < nativeOffsetWidth ==> table[at + i] == ByteOf(nativeOffset, i)
      ensures forall k :: 0 <= k < table.Length && !(at <= k < at + nativeOffsetWidth) ==> table[k] == old(table[k])
    {
      for i := 0 to nativeOffsetWidth
        invariant forall j :: 0 <= j < i ==> table[at + j] == ByteOf(nativeOffset, j)
        invariant forall k :: 0 <= k < table.Length && !(at <= k < at + i) ==> table[k] == old(table[k])
      {
        table[at + i] := ByteOf(nativeOffset, i);
      }
    }

    method SetReferences(at: nat, references: seq<byte>)
      requires at + |references| <= table.Length
      modifies table
      ensures table[at..at + |references|] == references
      ensures forall k :: 0 <= k < table.Length && !(at <= k < at + |references|) ==> table[k] == old(table[k])
    {
      for i := 0 to |references|
        invariant table[at..at + i] == references[..i]
        invariant forall k :: 0 <= k < table.Length && !(at <= k < at + i) ==> table[k] == old(table[k])
      {
        table[at + i] := references[i];
      }
    }

    method WriteSlot(at: nat, nativeOffset: nat, references: seq<byte>)
      requires at + nativeOffsetWidth + referencesWidth <= table.Length && |references| == referencesWidth
      requires nativeOffset < Pow256(nativeOffsetWidth)
      modifies table
      ensures Encoded(table[..], nativeOffsetWidth, referencesWidth, at, Entry(nativeOffset, references))
      ensures forall k :: 0 <= k < table.Length && !(at <= k < at + nativeOffsetWidth + referencesWidth) ==>
        table[k] == old(table[k])
    {
      SetCodeOffset(at, nativeOffset);
      SetReferences(at + nativeOffsetWidth, references);
    }

    /** Adds an offset that is not in the table yet. */
    method AddEntry(nativeOffset: nat, references: seq<byte>)
      requires Valid() && Taken(slots) < entries && nativeOffset <= max && |references| == referencesWidth
      requires forall s :: 0 <= s < |slots| && slots[s].Some? ==> slots[s].value.offset != nativeOffset
      modifies this, inUse, table
      ensures Valid() && Taken(slots) == old(Taken(slots)) + 1
      ensures exists s ::
        0 <= s < entries && old(slots)[s].None? && slots == old(slots)[s := Some(Entry(nativeOffset, references))]
    {
      var s := FindFree(nativeOffset);
      ghost var e := Entry(nativeOffset, references);
      ghost var before := table[..];
      TakenStep(slots, s, e);
      ProbedStep(slots, hash, e, s);
      WidthSuffices(entries, max, nativeOffset);
      PosApart(nativeOffsetWidth + referencesWidth, s, entries);
      var at := Pos(nativeOffsetWidth + referencesWidth, s);
      inUse[s] := true;
      WriteSlot(at, nativeOffset, references);
      BuiltStep(before, table[..], slots, hash, nativeOffsetWidth, referencesWidth, s, at, e);
      slots := slots[s := Some(e)];
    }
  }
}
