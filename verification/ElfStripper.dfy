/**
 ElfStripper::Strip: the sections that are kept are moved towards the front of the mapped file, over
 those that are dropped, and a new section header table is written behind them. Everything happens
 in place.
 */
module ElfStripper {
  import opened Wrappers
  import opened Bytes
  import opened Streams
  import opened DedupLayout
  import opened FileReads
  import opened ElfFormat
  import opened ElfStrings

  function TableBytes(headers: seq<Shdr>): (b: seq<byte>)
    ensures |b| == SHDR_SIZE * |headers|
  {
    if headers == [] then [] else TableBytes(headers[..|headers| - 1]) + ShdrBytes(headers[|headers| - 1])
  }

  // ----- what the file says -----

  const E_SHOFF := 32
  const E_SHENTSIZE := 46
  const E_SHNUM := 48
  const E_SHSTRNDX := 50
  const SHT_STRTAB := 3

  function ShdrOffset(i: nat): nat {
    40 * i
  }

  function ShdrAt(d: seq<byte>, at: nat): Shdr {
    Shdr(Word(d, at), Word(d, at + 4), Word(d, at + 8), Word(d, at + 12), Word(d, at + 16),
         Word(d, at + 20), Word(d, at + 24), Word(d, at + 28), Word(d, at + 32), Word(d, at + 36))
  }

  /** These are the section headers at `shoff`. */
  ghost predicate HeadersAre(d: seq<byte>, shoff: nat, headers: seq<Shdr>) {
    forall i {:trigger ShdrOffset(i)} :: 0 <= i < |headers| ==> headers[i] == ShdrAt(d, shoff + ShdrOffset(i))
  }

  method GetSectionHeader(d: seq<byte>, shoff: nat, i: nat, ghost headers: seq<Shdr>) returns (h: Shdr)
    requires HeadersAre(d, shoff, headers) && i < |headers|
    ensures h == headers[i]
  {
    h := ShdrAt(d, shoff + ShdrOffset(i));
  }

  function HeadersIn(d: seq<byte>, shoff: nat, n: nat): (headers: seq<Shdr>)
    ensures |headers| == n && HeadersAre(d, shoff, headers)
  {
    seq(n, i requires 0 <= i < n => ShdrAt(d, shoff + ShdrOffset(i)))
  }

  /** The section headers that the ELF header leads to. */
  function HeadersOf(d: seq<byte>): seq<Shdr> {
    HeadersIn(d, Word(d, E_SHOFF), Half(d, E_SHNUM))
  }

  /** GetString of a string section */
  function StringIn(d: seq<byte>, strings: Shdr, i: nat): Option<Name> {
    if strings.type_ != SHT_STRTAB || i >= strings.size || i == 0 || strings.offset + i >= |d| then None
    else Some(CString(d, strings.offset + i))
  }

  function NamesIn(d: seq<byte>, headers: seq<Shdr>, strings: Shdr): (names: seq<Option<Name>>)
    ensures |names| == |headers| && forall i :: 0 <= i < |headers| ==> names[i] == StringIn(d, strings, headers[i].name)
  {
    seq(|headers|, i requires 0 <= i < |headers| => StringIn(d, strings, headers[i].name))
  }

  lemma {:induction false} HeaderStays(d: seq<byte>, d': seq<byte>, at: nat)
    requires |d'| == |d| && forall p :: at <= p < |d| ==> d'[p] == d[p]
    ensures ShdrAt(d', at) == ShdrAt(d, at)
  {
  }

  /** The section headers are still there after a change below them. */
  lemma {:induction false} HeadersStay(d: seq<byte>, d': seq<byte>, shoff: nat, headers: seq<Shdr>)
    requires HeadersAre(d, shoff, headers) && |d'| == |d| && forall p :: shoff <= p < |d| ==> d'[p] == d[p]
    ensures HeadersAre(d', shoff, headers)
  {
    forall i | 0 <= i < |headers| ensures headers[i] == ShdrAt(d', shoff + ShdrOffset(i)) {
      HeaderStays(d, d', shoff + ShdrOffset(i));
    }
  }

  lemma {:induction false} HeadersUnique(d: seq<byte>, shoff: nat, headers: seq<Shdr>)
    requires HeadersAre(d, shoff, headers) && shoff == Word(d, E_SHOFF) && |headers| == Half(d, E_SHNUM)
    ensures HeadersOf(d) == headers
  {
    forall i | 0 <= i < |headers| ensures HeadersOf(d)[i] == headers[i] {
      assert headers[i] == ShdrAt(d, shoff + ShdrOffset(i));
    }
  }

  /** A header that is written can be read. */
  lemma {:induction false} HeaderRead(d: seq<byte>, at: nat, h: Shdr)
    requires Holds(d, at, ShdrBytes(h)) && Small(h)
    ensures ShdrAt(d, at) == h
  {
    var ws := [h.name, h.type_, h.flags, h.addr, h.offset, h.size, h.link, h.info, h.addralign, h.entsize];
    OffsetWord(d, at, ws, 0);
    OffsetWord(d, at, ws, 1);
    OffsetWord(d, at, ws, 2);
    OffsetWord(d, at, ws, 3);
    OffsetWord(d, at, ws, 4);
    OffsetWord(d, at, ws, 5);
    OffsetWord(d, at, ws, 6);
    OffsetWord(d, at, ws, 7);
    OffsetWord(d, at, ws, 8);
    OffsetWord(d, at, ws, 9);
  }

  predicate Small(h: Shdr) {
    && h.name < TWO_32 && h.type_ < TWO_32 && h.flags < TWO_32 && h.addr < TWO_32 && h.offset < TWO_32
    && h.size < TWO_32 && h.link < TWO_32 && h.info < TWO_32 && h.addralign < TWO_32 && h.entsize < TWO_32
  }

  predicate AllSmall(headers: seq<Shdr>) {
    forall i :: 0 <= i < |headers| ==> Small(headers[i])
  }

  lemma {:induction false} ReadIsSmall(d: seq<byte>, at: nat)
    ensures Small(ShdrAt(d, at))
  {
  }

  lemma {:induction false} TableRead(d: seq<byte>, shoff: nat, headers: seq<Shdr>, i: nat)
    requires Holds(d, shoff, TableBytes(headers)) && i < |headers| && Small(headers[i])
    ensures ShdrAt(d, shoff + ShdrOffset(i)) == headers[i]
    decreases |headers|
  {
    var n := |headers| - 1;
    HeldSplit(d, shoff, TableBytes(headers[..n]), ShdrBytes(headers[n]));
    if i == n {
      HeaderRead(d, shoff + ShdrOffset(i), headers[i]);
    } else {
      TableRead(d, shoff, headers[..n], i);
    }
  }

  // ----- which sections are kept -----

  const DEBUG: Name := [46, 100, 101, 98, 117, 103]
  const STRTAB: Name := [46, 115, 116, 114, 116, 97, 98]
  const SYMTAB: Name := [46, 115, 121, 109, 116, 97, 98]

  predicate Dropped(name: Name) {
    DEBUG <= name || name == STRTAB || name == SYMTAB
  }

  /** Section i is kept: it has no name, or not that of a section for debugging. */
  predicate Keeps(names: seq<Option<Name>>, i: nat) {
    i < |names| && (names[i].None? || !Dropped(names[i].value))
  }

  /** Only the null section has no name. */
  predicate Named(names: seq<Option<Name>>) {
    forall i :: 1 <= i < |names| ==> names[i].Some?
  }

  /** The kept ones of the first n sections. */
  function Kept(names: seq<Option<Name>>, n: nat): seq<nat>
    requires n <= |names|
  {
    if n == 0 then [] else Kept(names, n - 1) + if Keeps(names, n - 1) then [n - 1] else []
  }

  lemma {:induction false} KeptIs(names: seq<Option<Name>>, n: nat)
    requires n <= |names| && (|names| > 0 ==> names[0].None?)
    ensures forall i: nat :: i in Kept(names, n) <==> i < n && Keeps(names, i)
    ensures forall a, b :: 0 <= a < b < |Kept(names, n)| ==> Kept(names, n)[a] < Kept(names, n)[b]
    ensures |Kept(names, n)| <= n && (n > 0 ==> Kept(names, n) != [] && Kept(names, n)[0] == 0)
    decreases n
  {
    if n > 0 {
      KeptIs(names, n - 1);
      var kept := Kept(names, n - 1);
      forall a | 0 <= a < |kept| ensures kept[a] < n - 1 { assert kept[a] in kept; }
      assert Kept(names, n) == kept + if Keeps(names, n - 1) then [n - 1] else [];
    }
  }

  /**
   An index of a section, such as e_shstrndx, which Strip leaves as it is, means the same section in the new table
   if and only if no section up to it is dropped.
   */
  lemma {:induction false} IndexStays(names: seq<Option<Name>>, n: nat, i: nat)
    requires i < n <= |names|
    ensures i < |Kept(names, n)| && Kept(names, n)[i] == i <==> forall j: nat :: j <= i ==> Keeps(names, j)
    decreases n
  {
    if n > i + 1 {
      IndexStays(names, n - 1, i);
      KeptBelow(names, n - 1);
    } else {
      AllKept(names, i);
    }
  }

  /** If the last section is the table of names and any section is dropped, the index of the table leads nowhere. */
  lemma {:induction false} NamesLost(names: seq<Option<Name>>, i: nat)
    requires i + 1 == |names|
    ensures i < |Kept(names, |names|)| <==> forall j: nat :: j < |names| ==> Keeps(names, j)
  {
    KeptBelow(names, |names|);
    FullPrefix(names, |names|);
  }

  const SHSTRTAB: Name := [46, 115, 104, 115, 116, 114, 116, 97, 98]

  /** With debug symbols .symtab and .strtab come before .shstrtab, which is found at index 9 no more. */
  lemma {:induction false} StaleIndex(names: seq<Option<Name>>)
    requires |names| == 10 && names[7] == Some(SYMTAB) && names[8] == Some(STRTAB) && names[9] == Some(SHSTRTAB)
    ensures Keeps(names, 9) && |Kept(names, |names|)| <= 9
  {
    assert SHSTRTAB[1] != DEBUG[1] && |SHSTRTAB| != |STRTAB|;
    assert !Keeps(names, 7);
    NamesLost(names, 9);
  }

  lemma {:induction false} KeptBelow(names: seq<Option<Name>>, n: nat)
    requires n <= |names|
    ensures |Kept(names, n)| <= n && forall a :: 0 <= a < |Kept(names, n)| ==> Kept(names, n)[a] < n
    decreases n
  {
    if n > 0 {
      KeptBelow(names, n - 1);
    }
  }

  lemma {:induction false} AllKept(names: seq<Option<Name>>, i: nat)
    requires i < |names|
    ensures i < |Kept(names, i + 1)| && Kept(names, i + 1)[i] == i <==> forall j: nat :: j <= i ==> Keeps(names, j)
    decreases i
  {
    KeptBelow(names, i);
    if i > 0 {
      AllKept(names, i - 1);
      KeptBelow(names, i - 1);
      FullPrefix(names, i);
    }
  }

  lemma {:induction false} FullPrefix(names: seq<Option<Name>>, n: nat)
    requires n <= |names|
    ensures |Kept(names, n)| == n <==> forall j: nat :: j < n ==> Keeps(names, j)
    decreases n
  {
    if n > 0 {
      KeptBelow(names, n - 1);
      FullPrefix(names, n - 1);
    }
  }

  /** The first loop: which sections are kept, with copies of their headers; it stops at a section without a name. */
  method SelectSections(d: seq<byte>, shoff: nat, n: nat, strings: Shdr, ghost headers: seq<Shdr>)
    returns (ok: bool, kept: seq<nat>, new_: seq<Shdr>)
    requires HeadersAre(d, shoff, headers) && |headers| == n
    ensures ok <==> Named(NamesIn(d, headers, strings))
    ensures ok ==> kept == Kept(NamesIn(d, headers, strings), n) && |new_| == |kept|
    ensures ok ==> forall a :: 0 <= a < |kept| ==> kept[a] < n && new_[a] == headers[kept[a]]
  {
    ghost var names := NamesIn(d, headers, strings);
    ok, kept, new_ := true, [], [];
    for i := 0 to n
      invariant kept == Kept(names, i) && |new_| == |kept| && forall j :: 1 <= j < i ==> names[j].Some?
      invariant forall a :: 0 <= a < |kept| ==> kept[a] < i && new_[a] == headers[kept[a]]
    {
      var sh := GetSectionHeader(d, shoff, i, headers);
      var name := StringIn(d, strings, sh.name);
      if name.None? && i != 0 {
        ok := false;
        return;
      }
      if name.Some? && Dropped(name.value) {
        continue;
      }
      kept, new_ := kept + [i], new_ + [sh];
    }
  }

  // ----- moving -----

  /** Bytes from..from + size of d0 are found at `at` in d. */
  ghost predicate Carried(d0: seq<byte>, from: nat, d: seq<byte>, at: nat, size: nat) {
    from + size <= |d0| && at + size <= |d| && d[at..at + size] == d0[from..from + size]
  }

  /** memmove towards the front */
  method MemMove(file: array<byte>, to: nat, from: nat, size: nat)
    requires to <= from && from + size <= file.Length
    modifies file
    ensures file[to..to + size] == old(file[from..from + size])
    ensures forall k :: 0 <= k < file.Length && !(to <= k < to + size) ==> file[k] == old(file[k])
  {
    for i := 0 to size
      invariant file[to..to + i] == old(file[from..from + i])
      invariant forall k :: to + i <= k < file.Length ==> file[k] == old(file[k])
      invariant forall k :: 0 <= k < to ==> file[k] == old(file[k])
    {
      file[to + i] := file[from + i];
    }
  }

  // ----- stripping -----

  function Up(x: nat, align: nat): (r: nat)
    ensures x <= r
  {
    if align > 1 then RoundUp(x, align) else x
  }

  function EndOf(h: Shdr): nat {
    h.offset + h.size
  }

  /** Sections follow one another behind the ELF header, aligned, with the section header table behind them. */
  ghost predicate LaidOut(headers: seq<Shdr>, shoff: nat, fileSize: nat) {
    && |headers| >= 2 && shoff + SHDR_SIZE * |headers| <= fileSize && headers[0].name == 0
    && (forall i, j :: 1 <= i < j < |headers| ==> EndOf(headers[i]) <= headers[j].offset)
    && (forall i :: 1 <= i < |headers| ==>
          52 <= headers[i].offset && EndOf(headers[i]) <= shoff
          && (headers[i].addralign > 1 ==> Aligned(headers[i].offset, headers[i].addralign)))
  }

  /** Section i of the new file has the contents of section kept[i] of the old one. */
  ghost predicate SectionKept(d0: seq<byte>, headers: seq<Shdr>, kept: seq<nat>, d: seq<byte>, new_: seq<Shdr>, i: nat)
    requires i < |kept| && i < |new_| && kept[i] < |headers|
  {
    var old_ := headers[kept[i]];
    && new_[i] == old_.(offset := new_[i].offset)
    && new_[i].offset <= old_.offset && (old_.addralign > 1 ==> Aligned(new_[i].offset, old_.addralign))
    && Carried(d0, old_.offset, d, new_[i].offset, old_.size)
  }

  /** Section i starts at the first aligned offset behind the section before it. */
  ghost predicate Compact(start: nat, new_: seq<Shdr>, i: nat)
    requires 0 < i < |new_|
  {
    new_[i].offset == Up(if i == 1 then start else EndOf(new_[i - 1]), new_[i].addralign)
  }

  /** The file below `start` and from `limit` on is as it was. */
  ghost predicate Untouched(d0: seq<byte>, d: seq<byte>, start: nat, limit: nat) {
    |d| == |d0| && forall p :: 0 <= p < |d| && (p < start || limit <= p) ==> d[p] == d0[p]
  }

  ghost predicate Pending(headers: seq<Shdr>, kept: seq<nat>, new_: seq<Shdr>, limit: nat, i: nat)
    requires i < |kept| && i < |new_|
  {
    kept[i] < |headers| && new_[i] == headers[kept[i]] && limit <= new_[i].offset
  }

  ghost predicate Done(d0: seq<byte>, headers: seq<Shdr>, kept: seq<nat>, d: seq<byte>, new_: seq<Shdr>, start: nat,
                       offset: nat, i: nat)
    requires 0 < i < |kept| && i < |new_|
  {
    kept[i] < |headers| && SectionKept(d0, headers, kept, d, new_, i) && Compact(start, new_, i) &&
      EndOf(new_[i]) <= offset
  }

  /** The first k kept sections are in place, up to `offset`; from `limit` on the file is as it was. */
  ghost predicate Stripped(d0: seq<byte>, headers: seq<Shdr>, kept: seq<nat>, d: seq<byte>, new_: seq<Shdr>, k: nat,
                           start: nat, offset: nat, limit: nat) {
    && 1 <= k <= |kept| == |new_| && start <= offset <= limit && kept[0] < |headers| && new_[0] == headers[kept[0]]
    && offset == (if k == 1 then start else EndOf(new_[k - 1]))
    && (forall i {:trigger Done(d0, headers, kept, d, new_, start, offset, i)} ::
          1 <= i < k ==> Done(d0, headers, kept, d, new_, start, offset, i))
    && (forall i {:trigger Pending(headers, kept, new_, limit, i)} :: k <= i < |kept| ==>
      Pending(headers, kept, new_, limit, i))
    && Untouched(d0, d, start, limit)
  }

  /** A section whose bytes are not touched stays in place. */
  lemma {:induction false} CarriedKept(d0: seq<byte>, from: nat, d: seq<byte>, d': seq<byte>, at: nat, size: nat)
    requires Carried(d0, from, d, at, size) && |d'| == |d| && forall p :: at <= p < at + size ==> d'[p] == d[p]
    ensures Carried(d0, from, d', at, size)
  {
    assert d'[at..at + size] == d[at..at + size];
  }

  /** The next kept section never has to move towards the end of the file. */
  lemma {:induction false} MovesForward(offset: nat, h: Shdr)
    requires offset <= h.offset && (h.addralign > 1 ==> Aligned(h.offset, h.addralign))
    ensures offset <= Up(offset, h.addralign) <= h.offset
    ensures h.addralign > 1 ==> Aligned(Up(offset, h.addralign), h.addralign)
  {
    if h.addralign > 1 {
      RoundUpLeast(offset, h.addralign, h.offset);
    }
  }

  lemma {:induction false} SectionStep(d0: seq<byte>, headers: seq<Shdr>, kept: seq<nat>, d: seq<byte>, new_: seq<Shdr>,
                                       k: nat, start: nat, offset: nat, limit: nat, h: Shdr, to: nat, d': seq<byte>,
                                       new': seq<Shdr>)
    requires 0 < k < |kept| == |new_| && kept[k] < |headers| && h == headers[kept[k]] && Untouched(d0, d, start, limit)
    requires limit <= h.offset && offset == if k == 1 then start else EndOf(new_[k - 1])
    requires to == Up(offset, h.addralign) && to <= h.offset && (h.addralign > 1 ==> Aligned(to, h.addralign))
    requires EndOf(h) <= |d| == |d'| && d'[to..to + h.size] == d[h.offset..h.offset + h.size]
    requires new' == new_[k := h.(offset := to)]
    ensures Done(d0, headers, kept, d', new', start, to + h.size, k)
  {
    assert d[h.offset..h.offset + h.size] == d0[h.offset..h.offset + h.size];
  }

  lemma {:induction false} DoneKept(d0: seq<byte>, headers: seq<Shdr>, kept: seq<nat>, d: seq<byte>, new_: seq<Shdr>,
                                    start: nat, offset: nat, d': seq<byte>, new': seq<Shdr>, offset': nat, i: nat)
    requires 0 < i < |kept| && i < |new_| == |new'| && Done(d0, headers, kept, d, new_, start, offset, i)
    requires offset <= offset'
    requires new'[i] == new_[i] && new'[i - 1] == new_[i - 1]
    requires |d'| == |d| && forall p :: 0 <= p < offset && p < |d| ==> d'[p] == d[p]
    ensures Done(d0, headers, kept, d', new', start, offset', i)
  {
    CarriedKept(d0, headers[kept[i]].offset, d, d', new_[i].offset, new_[i].size);
  }

  /** Moving one section to the end of those in place keeps all that was said about the others. */
  lemma {:induction false} StripStep(d0: seq<byte>, headers: seq<Shdr>, kept: seq<nat>, d: seq<byte>, new_: seq<Shdr>,
                                     k: nat, start: nat, offset: nat, limit: nat, h: Shdr, to: nat, d': seq<byte>,
                                     new': seq<Shdr>)
    requires Stripped(d0, headers, kept, d, new_, k, start, offset, limit) && k < |kept| && kept[k] < |headers|
    requires h == headers[kept[k]]
    requires to == Up(offset, h.addralign) && to <= h.offset && (h.addralign > 1 ==> Aligned(to, h.addralign))
    requires EndOf(h) <= |d| == |d'| && d'[to..to + h.size] == d[h.offset..h.offset + h.size]
    requires forall p :: 0 <= p < |d| && !(to <= p < to + h.size) ==> d'[p] == d[p]
    requires forall i :: k < i < |kept| ==> kept[i] < |headers| && EndOf(h) <= headers[kept[i]].offset
    requires new' == new_[k := h.(offset := to)]
    ensures Stripped(d0, headers, kept, d', new', k + 1, start, to + h.size, EndOf(h))
  {
    var end := to + h.size;
    assert Pending(headers, kept, new_, limit, k);
    SectionStep(d0, headers, kept, d, new_, k, start, offset, limit, h, to, d', new');
    forall i | 1 <= i < k + 1 ensures Done(d0, headers, kept, d', new', start, end, i) {
      if i < k {
        assert Done(d0, headers, kept, d, new_, start, offset, i);
        DoneKept(d0, headers, kept, d, new_, start, offset, d', new', end, i);
      }
    }
    forall i | k + 1 <= i < |kept| ensures Pending(headers, kept, new', EndOf(h), i) {
      assert Pending(headers, kept, new_, limit, i);
    }
  }

  /** memcpy into the mapped file */
  method Poke(file: array<byte>, at: nat, bytes: seq<byte>)
    requires at + |bytes| <= file.Length
    modifies file
    ensures file[at..at + |bytes|] == bytes
    ensures forall k :: 0 <= k < file.Length && !(at <= k < at + |bytes|) ==> file[k] == old(file[k])
  {
    for i := 0 to |bytes|
      invariant file[at..at + i] == bytes[..i]
      invariant forall k :: 0 <= k < file.Length && !(at <= k < at + i) ==> file[k] == old(file[k])
    {
      file[at + i] := bytes[i];
    }
  }

  ghost predicate Chosen(headers: seq<Shdr>, kept: seq<nat>) {
    && 1 <= |kept| <= |headers| && kept[0] == 0
    && (forall a :: 0 <= a < |kept| ==> kept[a] < |headers|)
    && (forall a, b :: 0 <= a < b < |kept| ==> kept[a] < kept[b])
  }

  function Picked(headers: seq<Shdr>, kept: seq<nat>): (r: seq<Shdr>)
    requires forall a :: 0 <= a < |kept| ==> kept[a] < |headers|
    ensures |r| == |kept| && forall a :: 0 <= a < |kept| ==> r[a] == headers[kept[a]]
  {
    seq(|kept|, a requires 0 <= a < |kept| => headers[kept[a]])
  }

  /** What the loop needs to know about the next section it keeps. */
  lemma {:induction false} NextKept(headers: seq<Shdr>, kept: seq<nat>, shoff: nat, fileSize: nat, k: nat)
    requires LaidOut(headers, shoff, fileSize) && Chosen(headers, kept) && 1 <= k < |kept|
    ensures kept[k] >= 1 && EndOf(headers[kept[k]]) <= shoff
    ensures headers[kept[k]].addralign > 1 ==> Aligned(headers[kept[k]].offset, headers[kept[k]].addralign)
    ensures headers[1].offset <= headers[kept[k]].offset
    ensures forall i :: k < i < |kept| ==> EndOf(headers[kept[k]]) <= headers[kept[i]].offset
  {
    assert kept[0] < kept[k];
    if kept[k] > 1 {
      assert EndOf(headers[1]) <= headers[kept[k]].offset;
    }
  }

  lemma {:induction false} StripStart(d0: seq<byte>, headers: seq<Shdr>, kept: seq<nat>, shoff: nat)
    requires LaidOut(headers, shoff, |d0|) && Chosen(headers, kept)
    ensures Stripped(d0, headers, kept, d0, Picked(headers, kept), 1, headers[1].offset, headers[1].offset,
      headers[1].offset)
  {
    var start := headers[1].offset;
    forall i | 1 <= i < |kept| ensures Pending(headers, kept, Picked(headers, kept), start, i) {
      NextKept(headers, kept, shoff, |d0|, i);
    }
  }

  /** Nothing is moved if the section is already in place. */
  method ShiftEarlier(file: array<byte>, to: nat, from: nat, size: nat)
    requires to <= from && from + size <= file.Length
    modifies file
    ensures file[to..to + size] == old(file[from..from + size])
    ensures forall k :: 0 <= k < file.Length && !(to <= k < to + size) ==> file[k] == old(file[k])
  {
    if from != to {
      MemMove(file, to, from, size);
    }
  }

  /** One kept section: align, then move it unless it is already in place. Its old header is read from the file. */
  method MoveOne(file: array<byte>, shoff: nat, kept: seq<nat>, k: nat, new_: seq<Shdr>, offset: nat,
                 ghost d0: seq<byte>, ghost headers: seq<Shdr>, ghost start: nat, ghost limit: nat)
    returns (newNow: seq<Shdr>, offsetNow: nat)
    requires Stripped(d0, headers, kept, file[..], new_, k, start, offset, limit) && k < |kept| && limit <= shoff
    requires kept[k] < |headers| && EndOf(headers[kept[k]]) <= file.Length
    requires HeadersAre(d0, shoff, headers)
    requires headers[kept[k]].addralign > 1 ==> Aligned(headers[kept[k]].offset, headers[kept[k]].addralign)
    requires forall i :: k < i < |kept| ==> kept[i] < |headers| && EndOf(headers[kept[k]]) <= headers[kept[i]].offset
    modifies file
    ensures Stripped(d0, headers, kept, file[..], newNow, k + 1, start, offsetNow, EndOf(headers[kept[k]]))
  {
    HeadersStay(d0, file[..], shoff, headers);
    var h := GetSectionHeader(file[..], shoff, kept[k], headers);
    assert Pending(headers, kept, new_, limit, k);
    MovesForward(offset, h);
    var to := Up(offset, h.addralign);
    ghost var d := file[..];
    newNow, offsetNow := new_[k := new_[k].(offset := to)], to + h.size;
    ShiftEarlier(file, to, h.offset, h.size);
    StripStep(d0, headers, kept, d, new_, k, start, offset, limit, h, to, file[..], newNow);
  }

  /** The loop over the kept sections. */
  method MoveSections(file: array<byte>, shoff: nat, kept: seq<nat>, copies: seq<Shdr>, ghost headers: seq<Shdr>)
    returns (new_: seq<Shdr>, offset: nat, ghost limit: nat)
    requires HeadersAre(file[..], shoff, headers)
    requires LaidOut(headers, shoff, file.Length) && Chosen(headers, kept) && copies == Picked(headers, kept)
    modifies file
    ensures limit <= shoff
    ensures Stripped(old(file[..]), headers, kept, file[..], new_, |kept|, headers[1].offset, offset, limit)
  {
    ghost var d0, start := file[..], headers[1].offset;
    var first := GetSectionHeader(file[..], shoff, 1, headers);
    new_, offset, limit := copies, first.offset, first.offset;
    StripStart(d0, headers, kept, shoff);
    for k := 1 to |kept|
      invariant limit <= shoff && Stripped(d0, headers, kept, file[..], new_, k, start, offset, limit)
    {
      NextKept(headers, kept, shoff, file.Length, k);
      new_, offset := MoveOne(file, shoff, kept, k, new_, offset, d0, headers, start, limit);
      limit := EndOf(headers[kept[k]]);
    }
  }

  /** The kept sections are in the stripped file, below the new section header table. */
  ghost predicate SectionsThere(d0: seq<byte>, headers: seq<Shdr>, kept: seq<nat>, d: seq<byte>, new_: seq<Shdr>,
                                start: nat, shoff: nat) {
    && |kept| == |new_| >= 1 && kept[0] < |headers| && new_[0] == headers[kept[0]]
    && (forall i {:trigger Done(d0, headers, kept, d, new_, start, shoff, i)} ::
          1 <= i < |kept| ==> Done(d0, headers, kept, d, new_, start, shoff, i))
    && shoff == if |new_| == 1 then start else EndOf(new_[|new_| - 1])
  }

  lemma {:induction false} SectionsStay(d0: seq<byte>, headers: seq<Shdr>, kept: seq<nat>, d: seq<byte>, d': seq<byte>,
                                        new_: seq<Shdr>, start: nat, shoff: nat)
    requires SectionsThere(d0, headers, kept, d, new_, start, shoff) && |d'| == |d|
    requires forall p :: start <= p < shoff && p < |d| ==> d'[p] == d[p]
    requires Rising(new_, start)
    ensures SectionsThere(d0, headers, kept, d', new_, start, shoff)
  {
    forall i | 1 <= i < |kept| ensures Done(d0, headers, kept, d', new_, start, shoff, i) {
      assert Done(d0, headers, kept, d, new_, start, shoff, i);
      CarriedKept(d0, headers[kept[i]].offset, d, d', new_[i].offset, new_[i].size);
    }
  }

  /** The sections start at or after `start`. */
  ghost predicate Rising(new_: seq<Shdr>, start: nat) {
    forall i :: 1 <= i < |new_| ==> start <= new_[i].offset
  }

  lemma {:induction false} CompactRises(d0: seq<byte>, headers: seq<Shdr>, kept: seq<nat>, d: seq<byte>,
                                        new_: seq<Shdr>, start: nat, shoff: nat, n: nat)
    requires SectionsThere(d0, headers, kept, d, new_, start, shoff) && n <= |new_|
    ensures forall i :: 1 <= i < n ==> start <= new_[i].offset
    decreases n
  {
    if n > 1 {
      CompactRises(d0, headers, kept, d, new_, start, shoff, n - 1);
      assert Done(d0, headers, kept, d, new_, start, shoff, n - 1);
    }
  }

  /** The new table and the two fields of the ELF header that lead to it. */
  method WriteTable(file: array<byte>, new_: seq<Shdr>, shoff: nat) returns (end: nat)
    requires 52 <= shoff < TWO_32 && |new_| < 65536 && shoff + SHDR_SIZE * |new_| <= file.Length
    modifies file
    ensures end == shoff + SHDR_SIZE * |new_| && file[shoff..end] == TableBytes(new_)
    ensures file[32..36] == Le32(shoff) && file[48..50] == Le16(|new_|)
    ensures forall k :: 0 <= k < shoff && !(32 <= k < 36) && !(48 <= k < 50) ==> file[k] == old(file[k])
  {
    Poke(file, shoff, TableBytes(new_));
    end := shoff + SHDR_SIZE * |new_|;
    ghost var table := file[shoff..end];
    Poke(file, 48, Le16(|new_|));
    ghost var count := file[48..50];
    Poke(file, 32, Le32(shoff));
    assert file[shoff..end] == table && file[48..50] == count;
  }

  lemma {:induction false} KeptChosen(names: seq<Option<Name>>, headers: seq<Shdr>)
    requires |names| == |headers| >= 2 && names[0].None?
    ensures Chosen(headers, Kept(names, |names|))
  {
    KeptIs(names, |names|);
    forall a | 0 <= a < |Kept(names, |names|)| ensures Kept(names, |names|)[a] < |headers| {
      assert Kept(names, |names|)[a] in Kept(names, |names|);
    }
  }

  /** The fields of the new headers are those of the old ones but for smaller offsets. */
  lemma {:induction false} NewIsSmall(d0: seq<byte>, headers: seq<Shdr>, kept: seq<nat>, d: seq<byte>, new_: seq<Shdr>,
                                      start: nat, shoff: nat)
    requires SectionsThere(d0, headers, kept, d, new_, start, shoff) && AllSmall(headers)
    ensures AllSmall(new_)
  {
    forall i | 0 <= i < |new_| ensures Small(new_[i]) {
      if i > 0 {
        assert Done(d0, headers, kept, d, new_, start, shoff, i);
      }
    }
  }

  lemma {:induction false} OldIsSmall(d: seq<byte>, shoff: nat, headers: seq<Shdr>)
    requires HeadersAre(d, shoff, headers)
    ensures AllSmall(headers)
  {
    forall i | 0 <= i < |headers| ensures Small(headers[i]) {
      ReadIsSmall(d, shoff + ShdrOffset(i));
    }
  }

  lemma {:induction false} NewHeadersAre(d: seq<byte>, shoff: nat, headers: seq<Shdr>)
    requires Holds(d, shoff, TableBytes(headers)) && AllSmall(headers)
    ensures HeadersAre(d, shoff, headers)
  {
    forall i | 0 <= i < |headers| ensures headers[i] == ShdrAt(d, shoff + ShdrOffset(i)) {
      assert Small(headers[i]);
      TableRead(d, shoff, headers, i);
    }
  }

  lemma {:induction false} SliceHeld(d: seq<byte>, at: nat, bytes: seq<byte>)
    requires at + |bytes| <= |d| && d[at..at + |bytes|] == bytes
    ensures Holds(d, at, bytes)
  {
    forall k | 0 <= k < |bytes| ensures At(d, at + k) == bytes[k] {
      assert d[at..at + |bytes|][k] == d[at + k];
    }
  }

  /** The new ELF header leads to the new table. */
  lemma {:induction false} NewTableRead(d: seq<byte>, new_: seq<Shdr>, shoff: nat, end: nat)
    requires 52 <= shoff < TWO_32 && |new_| < 65536 && shoff + SHDR_SIZE * |new_| == end <= |d| && AllSmall(new_)
    requires d[32..36] == Le32(shoff) && d[48..50] == Le16(|new_|) && d[shoff..end] == TableBytes(new_)
    ensures HeadersAre(d, shoff, new_) && Word(d, E_SHOFF) == shoff && Half(d, E_SHNUM) == |new_|
  {
    SliceHeld(d, 32, Le32(shoff));
    WordRead(d, 32, shoff);
    SliceHeld(d, 48, Le16(|new_|));
    HalfRead(d, 48, |new_|);
    SliceHeld(d, shoff, TableBytes(new_));
    NewHeadersAre(d, shoff, new_);
  }

  /** What remains after the selection. */
  method MoveAndWrite(file: array<byte>, shoff: nat, kept: seq<nat>, copies: seq<Shdr>, ghost headers: seq<Shdr>)
    returns (new_: seq<Shdr>, shoffNow: nat, end: nat)
    requires HeadersAre(file[..], shoff, headers) && |headers| < 65536 && file.Length < TWO_32
    requires LaidOut(headers, shoff, file.Length) && Chosen(headers, kept) && copies == Picked(headers, kept)
    modifies file
    ensures SectionsThere(old(file[..]), headers, kept, file[..], new_, headers[1].offset, shoffNow) && AllSmall(new_)
    ensures 52 <= shoffNow <= shoff && end == shoffNow + SHDR_SIZE * |new_| <= file.Length && |new_| < 65536
    ensures file[32..36] == Le32(shoffNow) && file[48..50] == Le16(|new_|) && file[shoffNow..end] == TableBytes(new_)
    ensures Half(file[..], E_SHSTRNDX) == old(Half(file[..], E_SHSTRNDX))
    ensures forall k :: 0 <= k < headers[1].offset && !(32 <= k < 36) && !(48 <= k < 50) ==> file[k] == old(file[k])
  {
    ghost var limit;
    OldIsSmall(file[..], shoff, headers);
    new_, shoffNow, limit := MoveSections(file, shoff, kept, copies, headers);
    ghost var d0, d, start := old(file[..]), file[..], headers[1].offset;
    assert SectionsThere(d0, headers, kept, d, new_, start, shoffNow);
    CompactRises(d0, headers, kept, d, new_, start, shoffNow, |new_|);
    NewIsSmall(d0, headers, kept, d, new_, start, shoffNow);
    end := WriteTable(file, new_, shoffNow);
    SectionsStay(d0, headers, kept, d, file[..], new_, start, shoffNow);
  }

  /** The names that decide which sections are kept. */
  ghost function SectionNames(d: seq<byte>): (names: seq<Option<Name>>)
    requires Half(d, E_SHSTRNDX) < Half(d, E_SHNUM)
  {
    NamesIn(d, HeadersOf(d), HeadersOf(d)[Half(d, E_SHSTRNDX)])
  }

  /** No check of the first loop fails. */
  ghost predicate Strippable(d: seq<byte>) {
    Half(d, E_SHSTRNDX) < Half(d, E_SHNUM) && Named(SectionNames(d))
  }

  /**
   What Strip leaves of a file whose last section is the table of names, as the writer makes it: the table can be found
   again if and only if nothing was dropped, and otherwise the file cannot be stripped again.
   */
  lemma {:induction false} NamesOfStripped(d0: seq<byte>, d: seq<byte>)
    requires Strippable(d0) && Half(d0, E_SHSTRNDX) + 1 == Half(d0, E_SHNUM)
    requires Half(d, E_SHSTRNDX) == Half(d0, E_SHSTRNDX)
    requires Half(d, E_SHNUM) == |Kept(SectionNames(d0), |SectionNames(d0)|)|
    ensures Half(d, E_SHSTRNDX) < Half(d, E_SHNUM) <==>
      forall j: nat :: j < |SectionNames(d0)| ==> Keeps(SectionNames(d0), j)
    ensures (exists j: nat :: j < |SectionNames(d0)| && !Keeps(SectionNames(d0), j)) ==> !Strippable(d)
  {
    NamesLost(SectionNames(d0), Half(d0, E_SHSTRNDX));
  }

  /**
   Every kept section is in the stripped file with its bytes and alignment, as far to the front as its
   alignment allows, and the new section header table follows the last one and fits in the old file.
   */
  method Strip(file: array<byte>) returns (ok: bool, end: nat)
    requires LaidOut(HeadersOf(file[..]), Word(file[..], E_SHOFF), file.Length) && file.Length < TWO_32
    requires Half(file[..], E_SHENTSIZE) == SHDR_SIZE
    modifies file
    ensures ok <==> Strippable(old(file[..]))
    ensures !ok ==> file[..] == old(file[..])
    ensures ok ==> var d0 := old(file[..]); var headers := HeadersOf(d0); var names := SectionNames(d0);
      SectionsThere(d0, headers, Kept(names, |names|), file[..], HeadersOf(file[..]), headers[1].offset,
        Word(file[..], E_SHOFF))
    ensures ok ==> Word(file[..], E_SHOFF) <= old(Word(file[..], E_SHOFF))
    ensures ok ==> end == Word(file[..], E_SHOFF) + SHDR_SIZE * |HeadersOf(file[..])| <= file.Length
    ensures forall k :: 0 <= k < old(HeadersOf(file[..])[1].offset) && !(32 <= k < 36) && !(48 <= k < 50) ==>
      file[k] == old(file[k])
    ensures Half(file[..], E_SHSTRNDX) == old(Half(file[..], E_SHSTRNDX))
  {
    ghost var headers := HeadersOf(file[..]);
    var shoff, n, s := Word(file[..], E_SHOFF), Half(file[..], E_SHNUM), Half(file[..], E_SHSTRNDX);
    ok, end := false, 0;
    if s >= n {
      return;
    }
    var strings := GetSectionHeader(file[..], shoff, s, headers);
    var kept, copies;
    ok, kept, copies := SelectSections(file[..], shoff, n, strings, headers);
    if !ok {
      return;
    }
    KeptChosen(NamesIn(file[..], headers, strings), headers);
    var new_, shoffNow;
    new_, shoffNow, end := MoveAndWrite(file, shoff, kept, copies, headers);
    NewTableRead(file[..], new_, shoffNow, end);
    HeadersUnique(file[..], shoffNow, new_);
  }
}
