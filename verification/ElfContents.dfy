/**
 The contents of the pieces of an oat file's ELF file (ElfBuilder::Write in elf_writer_quick.cc): the
 dynamic symbols, their names and hash table, the dynamic section and the program headers, all of
 which depend on where the sections go, and why the loader finds its way through them.
 */
module ElfContents {
  import opened Wrappers
  import opened Bytes
  import opened Streams
  import opened DedupLayout
  import opened FileReads
  import opened ElfFormat
  import opened ElfStrings
  import opened ElfSymbols
  import opened ElfLoader
  import opened ElfLayout
  import ElfHash

  // ----- symbols -----

  /** A symbol relative to a section, which is given by its number in the order of offsets. */
  datatype Symbol = Symbol(section: nat, addr: uint32, size: nat)

  /** MakeStInfo(STB_GLOBAL, STT_OBJECT) */
  const GLOBAL_OBJECT: byte := 0x11

  /** SetupRequiredSymbols: oatdata, oatexec, oatlastword */
  function RequiredSymbols(rodataSize: nat, textSize: nat): seq<Symbol> {
    [Symbol(RODATA, 0, rodataSize), Symbol(TEXT, 0, textSize), Symbol(TEXT, U32(textSize - 4), 4)]
  }

  /** GenerateSymtab; the first symbol is the null symbol. */
  function Symtab(symbols: seq<Symbol>, index: seq<nat>, offsets: seq<nat>): (rows: seq<Sym>)
    requires |index| == |symbols| && forall i :: 0 <= i < |symbols| ==> symbols[i].section < |offsets| < 65535
    ensures |rows| == |symbols| + 1 && forall i :: 0 <= i < |rows| ==> rows[i].shndx < 65536
    ensures forall i :: 0 <= i < |symbols| ==>
      rows[i + 1].name == U32(index[i]) && rows[i + 1].value == U32(symbols[i].addr + offsets[symbols[i].section])
  {
    [Sym(0, 0, 0, 0, 0, 0)] + seq(|symbols|, i requires 0 <= i < |symbols| =>
      var s := symbols[i];
      Sym(U32(index[i]), U32(s.addr + offsets[s.section]), U32(s.size), GLOBAL_OBJECT, 0, s.section + 1))
  }

  function SymtabBytes(rows: seq<Sym>): (b: seq<byte>)
    requires forall i :: 0 <= i < |rows| ==> rows[i].shndx < 65536
    ensures |b| == SymOffset(|rows|)
  {
    seq(SymOffset(|rows|), k requires 0 <= k < SymOffset(|rows|) => SymBytes(rows[k / 16])[k % 16])
  }

  lemma {:induction false} SymHeld(d: seq<byte>, at: nat, rows: seq<Sym>, i: nat)
    requires (forall k :: 0 <= k < |rows| ==> rows[k].shndx < 65536) && Holds(d, at, SymtabBytes(rows)) && i < |rows|
    ensures Holds(d, at + SymOffset(i), SymBytes(rows[i]))
  {
    forall k | 0 <= k < SYM_SIZE ensures At(d, at + SymOffset(i) + k) == SymBytes(rows[i])[k] {
      var j := SymOffset(i) + k;
      assert j / 16 == i && j % 16 == k;
      assert At(d, at + j) == SymtabBytes(rows)[j];
    }
  }

  lemma {:induction false} SymWords(d: seq<byte>, at: nat, rows: seq<Sym>, i: nat)
    requires (forall k :: 0 <= k < |rows| ==> rows[k].shndx < 65536) && Holds(d, at, SymtabBytes(rows)) && i < |rows|
    ensures Word(d, at + SymOffset(i)) == rows[i].name && Word(d, at + SymOffset(i) + 4) == rows[i].value
  {
    SymHeld(d, at, rows, i);
    var ws := [rows[i].name, rows[i].value, rows[i].size];
    HeldSplit(d, at + SymOffset(i), Words(ws), [rows[i].info, rows[i].other] + Le16(rows[i].shndx));
    OffsetWord(d, at + SymOffset(i), ws, 0);
    OffsetWord(d, at + SymOffset(i), ws, 1);
  }

  // ----- names -----

  /** The string at an offset of a table in a file is that of the table. */
  lemma {:induction false} CStringHeld(d: seq<byte>, at: nat, table: seq<byte>, k: nat)
    requires Holds(d, at, table) && k < |table| && table[|table| - 1] == 0
    ensures CString(d, at + k) == CString(table, k)
    decreases |table| - k
  {
    assert At(d, at + k) == table[k];
    if table[k] != 0 {
      CStringHeld(d, at, table, k + 1);
    }
  }

  // ----- the dynamic section and the program headers -----

  const DT_STRSZ: nat := 10
  const DT_SYMENT: nat := 11
  const DT_SONAME: nat := 14
  const DYN_COUNT: nat := 7

  /** SetupDynamic and GetDynamics */
  function DynamicWords(hash: nat, strtab: nat, symtab: nat, strsz: nat, soname: nat): (ws: seq<nat>)
    ensures |ws| == 2 * DYN_COUNT
  {
    [DT_HASH, hash, DT_STRTAB, strtab, DT_SYMTAB, symtab, DT_SYMENT, SYM_SIZE, DT_STRSZ, strsz, DT_SONAME, soname,
     DT_NULL, 0]
  }

  const PT_PHDR: nat := 6
  const PF_R: nat := 4
  const PF_RX: nat := 5
  const PF_RW: nat := 6

  /** The five program headers: PHDR, the three segments, and DYNAMIC. */
  function ProgramWords(rodataEnd: nat, text: nat, textSize: nat, dynamic: nat, dynamicSize: nat): (ws: seq<nat>)
    ensures |ws| == 8 * PH_NUM
  {
    [PT_PHDR, EHDR_SIZE, EHDR_SIZE, EHDR_SIZE, PHDR_SIZE * PH_NUM, PHDR_SIZE * PH_NUM, PF_R, WORD_SIZE,
     PT_LOAD, 0, 0, 0, rodataEnd, rodataEnd, PF_R, PAGE_SIZE,
     PT_LOAD, text, text, text, textSize, textSize, PF_RX, PAGE_SIZE,
     PT_LOAD, dynamic, dynamic, dynamic, dynamicSize, dynamicSize, PF_RW, PAGE_SIZE,
     PT_DYNAMIC, dynamic, dynamic, dynamic, dynamicSize, dynamicSize, PF_RW, PAGE_SIZE]
  }

  lemma {:induction false} PhRead(d: seq<byte>, ws: seq<nat>, i: nat, field: nat)
    requires Holds(d, EHDR_SIZE, Words(ws)) && 8 * i + field < |ws| && field < 8 && ws[8 * i + field] < TWO_32
    ensures PhWord(d, EHDR_SIZE, i, field) == ws[8 * i + field]
  {
    OffsetWord(d, EHDR_SIZE, ws, 8 * i + field);
  }

  lemma {:induction false} DynRead(d: seq<byte>, dynamic: nat, ws: seq<nat>, i: nat)
    requires Holds(d, dynamic, Words(ws)) && 2 * i + 1 < |ws| && ws[2 * i] < TWO_32 && ws[2 * i + 1] < TWO_32
    ensures Tag(d, dynamic, i) == ws[2 * i] && Value(d, dynamic, i) == ws[2 * i + 1]
  {
    OffsetWord(d, dynamic, ws, 2 * i);
    OffsetWord(d, dynamic, ws, 2 * i + 1);
  }

  lemma {:induction false} LastValueStays(d: seq<byte>, dynamic: nat, m: nat, n: nat, tag: nat)
    requires m <= n && forall i :: m <= i < n ==> Tag(d, dynamic, i) != tag
    ensures LastValue(d, dynamic, n, tag) == LastValue(d, dynamic, m, tag)
    decreases n
  {
    if m < n {
      LastValueStays(d, dynamic, m, n - 1, tag);
    }
  }

  /** The only entry with a tag is the last one. */
  lemma {:induction false} OnlyValue(d: seq<byte>, dynamic: nat, k: nat, n: nat, tag: nat)
    requires k < n && Tag(d, dynamic, k) == tag && forall i :: k < i < n ==> Tag(d, dynamic, i) != tag
    ensures LastValue(d, dynamic, n, tag) == Value(d, dynamic, k)
  {
    LastValueStays(d, dynamic, k + 1, n, tag);
  }

  /** What an entry of the section is. */
  lemma {:induction false} DynamicEntry(ws: seq<nat>, hash: nat, strtab: nat, symtab: nat, strsz: nat, soname: nat,
                                        i: nat)
    requires ws == DynamicWords(hash, strtab, symtab, strsz, soname) && i < DYN_COUNT
    ensures ws[2 * i] == DT_HASH <==> i == 0
    ensures ws[2 * i] == DT_STRTAB <==> i == 1
    ensures ws[2 * i] == DT_SYMTAB <==> i == 2
    ensures ws[2 * i] == DT_NULL <==> i == 6
    ensures ws[2 * i] < TWO_32 && (ws[2 * i + 1] in [hash, strtab, symtab, strsz, soname] || ws[2 * i + 1] <= SYM_SIZE)
    ensures i == 0 ==> ws[2 * i + 1] == hash
    ensures i == 1 ==> ws[2 * i + 1] == strtab
    ensures i == 2 ==> ws[2 * i + 1] == symtab
  {
    assert i == 0 || i == 1 || i == 2 || i == 3 || i == 4 || i == 5 || i == 6;
  }

  /** The entry as the loader reads it. */
  lemma {:induction false} EntryRead(d: seq<byte>, dynamic: nat, t: Tables, strsz: nat, soname: nat, i: nat)
    requires Holds(d, dynamic, Words(DynamicWords(t.hash, t.strtab, t.symtab, strsz, soname))) && i < DYN_COUNT
    requires t.hash < TWO_32 && t.strtab < TWO_32 && t.symtab < TWO_32 && strsz < TWO_32 && soname < TWO_32
    ensures Tag(d, dynamic, i) == DT_HASH <==> i == 0
    ensures Tag(d, dynamic, i) == DT_STRTAB <==> i == 1
    ensures Tag(d, dynamic, i) == DT_SYMTAB <==> i == 2
    ensures Tag(d, dynamic, i) == DT_NULL <==> i == 6
    ensures i == 0 ==> Value(d, dynamic, i) == t.hash
    ensures i == 1 ==> Value(d, dynamic, i) == t.strtab
    ensures i == 2 ==> Value(d, dynamic, i) == t.symtab
  {
    var ws := DynamicWords(t.hash, t.strtab, t.symtab, strsz, soname);
    DynamicEntry(ws, t.hash, t.strtab, t.symtab, strsz, soname, i);
    DynRead(d, dynamic, ws, i);
  }

  lemma {:induction false} PointersRead(d: seq<byte>, dynamic: nat, num: nat, t: Tables, strsz: nat, soname: nat)
    requires Holds(d, dynamic, Words(DynamicWords(t.hash, t.strtab, t.symtab, strsz, soname))) && num == DYN_COUNT
    requires t.hash < TWO_32 && t.strtab < TWO_32 && t.symtab < TWO_32 && strsz < TWO_32 && soname < TWO_32
    ensures LastValue(d, dynamic, num, DT_HASH) == t.hash
    ensures LastValue(d, dynamic, num, DT_STRTAB) == t.strtab
    ensures LastValue(d, dynamic, num, DT_SYMTAB) == t.symtab
  {
    forall i: nat | i < num
      ensures (Tag(d, dynamic, i) == DT_HASH <==> i == 0) && (Tag(d, dynamic, i) == DT_STRTAB <==> i == 1)
           && (Tag(d, dynamic, i) == DT_SYMTAB <==> i == 2)
    {
      EntryRead(d, dynamic, t, strsz, soname, i);
    }
    OnlyValue(d, dynamic, 0, num, DT_HASH);
    OnlyValue(d, dynamic, 1, num, DT_STRTAB);
    OnlyValue(d, dynamic, 2, num, DT_SYMTAB);
    EntryRead(d, dynamic, t, strsz, soname, 0);
    EntryRead(d, dynamic, t, strsz, soname, 1);
    EntryRead(d, dynamic, t, strsz, soname, 2);
  }

  lemma {:induction false} DynamicLeads(d: seq<byte>, phoff: nat, phnum: nat, dynamic: nat, num: nat, t: Tables,
                                        strsz: nat, soname: nat)
    requires Holds(d, dynamic, Words(DynamicWords(t.hash, t.strtab, t.symtab, strsz, soname))) && num == DYN_COUNT
    requires 0 < t.hash < TWO_32 && 0 < t.strtab < TWO_32 && 0 < t.symtab < TWO_32 && strsz < TWO_32 && soname < TWO_32
    requires ValidPointer(d, phoff, phnum, t.hash) && ValidPointer(d, phoff, phnum, t.strtab)
    requires ValidPointer(d, phoff, phnum, t.symtab)
    ensures DynamicTables(d, phoff, phnum, dynamic, num) == Some(t)
  {
    PointersRead(d, dynamic, num, t, strsz, soname);
    forall i: nat | i < num ensures Accepted(d, phoff, phnum, dynamic, num, i) {
      EntryRead(d, dynamic, t, strsz, soname, i);
    }
  }

  lemma {:induction false} LoadCovers(d: seq<byte>, phoff: nat, phnum: nat, i: nat, start: nat, size: nat)
    requires i < phnum && PhWord(d, phoff, i, 0) == PT_LOAD && PhWord(d, phoff, i, 2) == start
    requires PhWord(d, phoff, i, 5) == size
    ensures forall v: nat :: start <= v < start + size ==> ValidPointer(d, phoff, phnum, v)
  {
    forall v: nat | start <= v < start + size ensures ValidPointer(d, phoff, phnum, v) {
      assert Covers(d, phoff, i, v);
    }
  }

  lemma {:induction false} ProgramsRead(d: seq<byte>, rodataEnd: nat, text: nat, textSize: nat, dynamic: nat,
                                        dynamicSize: nat)
    requires Holds(d, EHDR_SIZE, Words(ProgramWords(rodataEnd, text, textSize, dynamic, dynamicSize)))
    requires rodataEnd < TWO_32 && dynamic < TWO_32 && dynamicSize < TWO_32
    ensures DynamicHeader(d, EHDR_SIZE, PH_NUM) == Some(4)
    ensures PhWord(d, EHDR_SIZE, 4, 2) == dynamic && PhWord(d, EHDR_SIZE, 4, 4) == dynamicSize
    ensures forall v: nat :: v < rodataEnd ==> ValidPointer(d, EHDR_SIZE, PH_NUM, v)
    ensures dynamicSize > 0 ==> ValidPointer(d, EHDR_SIZE, PH_NUM, dynamic)
  {
    var ws := ProgramWords(rodataEnd, text, textSize, dynamic, dynamicSize);
    PhRead(d, ws, 4, 0);
    PhRead(d, ws, 4, 2);
    PhRead(d, ws, 4, 4);
    PhRead(d, ws, 1, 0);
    PhRead(d, ws, 1, 2);
    PhRead(d, ws, 1, 5);
    PhRead(d, ws, 3, 0);
    PhRead(d, ws, 3, 2);
    PhRead(d, ws, 3, 5);
    LoadCovers(d, EHDR_SIZE, PH_NUM, 1, 0, rodataEnd);
    LoadCovers(d, EHDR_SIZE, PH_NUM, 3, dynamic, dynamicSize);
  }

  /** The ELF header says where the program headers are, and how many. */
  predicate PointsToPrograms(header: seq<byte>) {
    && |header| == EHDR_SIZE
    && header[E_PHOFF..E_PHOFF + 4] == Le32(EHDR_SIZE) && header[E_PHNUM..E_PHNUM + 2] == Le16(PH_NUM)
  }

  lemma {:induction false} HeaderRead(d: seq<byte>, header: seq<byte>)
    requires Holds(d, 0, header) && PointsToPrograms(header)
    ensures Word(d, E_PHOFF) == EHDR_SIZE && Half(d, E_PHNUM) == PH_NUM
  {
    HeldWord(d, 0, header, E_PHOFF, EHDR_SIZE);
    forall k | 0 <= k < 2 ensures At(d, E_PHNUM + k) == Le16(PH_NUM)[k] {
      assert At(d, 0 + (E_PHNUM + k)) == header[E_PHNUM + k];
      assert header[E_PHNUM..E_PHNUM + 2][k] == header[E_PHNUM + k];
    }
    HalfRead(d, E_PHNUM, PH_NUM);
  }

  // ----- everything together -----

  const DYNSYM: nat := 0
  const DYNSTR: nat := 1
  const HASH: nat := 2
  const DYNAMIC: nat := 5

  /** Each name can be read off .dynstr. */
  ghost predicate NamesIn(dynstr: seq<byte>, names: seq<Name>, index: seq<nat>) {
    && dynstr != [] && dynstr[|dynstr| - 1] == 0 && |index| == |names|
    && forall i :: 0 <= i < |names| ==> index[i] < |dynstr| && CString(dynstr, index[i]) == CName(names[i])
  }

  /** `o` are the offsets of the sections: the tables are in order behind the headers, and all addresses are 32-bit. */
  ghost predicate InOrder(e: Elf, o: seq<nat>) {
    && 7 <= |o| < 65535
    && 0 < o[DYNSYM] && o[DYNSYM] + |e.dynsym| <= o[DYNSTR] && o[DYNSTR] + |e.dynstr| <= o[HASH]
    && o[HASH] + |e.hash| <= o[RODATA] && 4 <= o[TEXT]
    && o[RODATA] + |e.rodata| < TWO_32 && o[TEXT] + |e.text| < TWO_32 && o[DYNAMIC] + |e.dynamic| < TWO_32
  }

  /** .dynamic and the program headers say where things are. */
  ghost predicate Pointing(e: Elf, o: seq<nat>, soname: nat) {
    && InOrder(e, o) && PointsToPrograms(e.header) && soname < TWO_32
    && e.dynamic == Words(DynamicWords(o[HASH], o[DYNSTR], o[DYNSYM], |e.dynstr|, soname))
    && e.programHeaders == Words(ProgramWords(o[RODATA] + |e.rodata|, o[TEXT], |e.text|, o[DYNAMIC], |e.dynamic|))
  }

  /** The symbols have their values, names and places in the hash table. */
  ghost predicate Naming(e: Elf, o: seq<nat>, names: seq<Name>, index: seq<nat>, table: seq<nat>) {
    && InOrder(e, o) && |names| == 3 && NamesIn(e.dynstr, names, index)
    && ElfHash.IsTable(table, names) && e.hash == Words(table) && (forall i :: 0 <= i < |table| ==> table[i] < TWO_32)
    && e.dynsym == SymtabBytes(Symtab(RequiredSymbols(|e.rodata|, |e.text|), index, o))
  }

  /** A file with these pieces. */
  ghost predicate TablesHeld(d: seq<byte>, e: Elf, o: seq<nat>)
    requires InOrder(e, o)
  {
    && Holds(d, 0, e.header) && Holds(d, EHDR_SIZE, e.programHeaders)
    && Holds(d, o[DYNSYM], e.dynsym) && Holds(d, o[DYNSTR], e.dynstr) && Holds(d, o[HASH], e.hash)
    && Holds(d, o[DYNAMIC], e.dynamic)
  }

  lemma {:induction false} NamesHeld(d: seq<byte>, t: Tables, dynstr: seq<byte>, rows: seq<Sym>, names: seq<Name>,
                                     index: seq<nat>)
    requires NamesIn(dynstr, names, index) && Holds(d, t.strtab, dynstr) && |dynstr| < TWO_32
    requires |rows| == |names| + 1 && forall i :: 0 <= i < |rows| ==> rows[i].shndx < 65536
    requires Holds(d, t.symtab, SymtabBytes(rows)) && forall i :: 0 <= i < |names| ==> rows[i + 1].name == U32(index[i])
    ensures forall i :: 0 <= i < |names| ==> NameOf(d, t, i + 1) == CName(names[i])
  {
    forall i | 0 <= i < |names| ensures NameOf(d, t, i + 1) == CName(names[i]) {
      SymWords(d, t.symtab, rows, i + 1);
      CStringHeld(d, t.strtab, dynstr, index[i]);
    }
  }

  lemma {:induction false} LoadedAt(d: seq<byte>, phoff: nat, phnum: nat, header: nat, dynamic: nat, size: nat,
                                    t: Tables, strsz: nat, soname: nat, end: nat)
    requires Word(d, E_PHOFF) == phoff && Half(d, E_PHNUM) == phnum && DynamicHeader(d, phoff, phnum) == Some(header)
    requires PhWord(d, phoff, header, 2) == dynamic && PhWord(d, phoff, header, 4) == size == DynOffset(DYN_COUNT)
    requires Holds(d, dynamic, Words(DynamicWords(t.hash, t.strtab, t.symtab, strsz, soname)))
    requires 0 < t.symtab <= t.strtab <= t.hash < end && strsz < TWO_32 && soname < TWO_32 && t.hash < TWO_32
    requires ValidPointer(d, phoff, phnum, dynamic) && forall v: nat :: v < end ==> ValidPointer(d, phoff, phnum, v)
    ensures Loaded(d) == Some(t)
  {
    DynamicLeads(d, phoff, phnum, dynamic, size / 8, t, strsz, soname);
  }

  /** The three tables, .rodata, .text and .dynamic, as the loader needs them, wherever they are. */
  ghost predicate Legible(d: seq<byte>, t: Tables, names: seq<Name>, index: seq<nat>, table: seq<nat>,
                          dynstr: seq<byte>, rows: seq<Sym>) {
    && NamesIn(dynstr, names, index) && Holds(d, t.strtab, dynstr) && |dynstr| < TWO_32
    && |rows| == |names| + 1 && (forall i :: 0 <= i < |rows| ==> rows[i].shndx < 65536)
    && Holds(d, t.symtab, SymtabBytes(rows)) && (forall i :: 0 <= i < |names| ==> rows[i + 1].name == U32(index[i]))
    && ElfHash.IsTable(table, names) && Holds(d, t.hash, Words(table)) && forall i :: 0 <= i < |table| ==>
      table[i] < TWO_32
  }

  lemma {:induction false} LegibleHolds(d: seq<byte>, t: Tables, names: seq<Name>, index: seq<nat>, table: seq<nat>,
                                        dynstr: seq<byte>, rows: seq<Sym>)
    requires Legible(d, t, names, index, table, dynstr, rows)
    ensures SymbolsHeld(d, t, names, table)
    ensures forall i :: 0 <= i < |rows| ==> ValueOf(d, t, i) == rows[i].value
  {
    NamesHeld(d, t, dynstr, rows, names, index);
    forall i | 0 <= i < |rows| ensures ValueOf(d, t, i) == rows[i].value {
      SymWords(d, t.symtab, rows, i);
    }
  }

  /** The loader is led to the three tables. */
  lemma {:induction false} TablesLoaded(d: seq<byte>, e: Elf, o: seq<nat>, soname: nat)
    requires Pointing(e, o, soname) && TablesHeld(d, e, o) && e.dynstr != [] && e.hash != []
    ensures Loaded(d) == Some(Tables(o[HASH], o[DYNSYM], o[DYNSTR]))
  {
    HeaderRead(d, e.header);
    ProgramsRead(d, o[RODATA] + |e.rodata|, o[TEXT], |e.text|, o[DYNAMIC], |e.dynamic|);
    LoadedAt(d, EHDR_SIZE, PH_NUM, 4, o[DYNAMIC], |e.dynamic|, Tables(o[HASH], o[DYNSYM], o[DYNSTR]), |e.dynstr|,
             soname, o[RODATA] + |e.rodata|);
  }

  lemma {:induction false} RequiredValues(rodataSize: nat, textSize: nat, index: seq<nat>, o: seq<nat>, rows: seq<Sym>)
    requires |index| == 3 && 5 <= |o| < 65535 && rows == Symtab(RequiredSymbols(rodataSize, textSize), index, o)
    requires o[RODATA] < TWO_32 && 4 <= o[TEXT] && o[TEXT] + textSize < TWO_32
    ensures rows[1].value == o[RODATA] && rows[3].value + 4 == o[TEXT] + textSize
  {
    var symbols := RequiredSymbols(rodataSize, textSize);
    assert rows[0 + 1].value == U32(symbols[0].addr + o[RODATA]);
    assert rows[2 + 1].value == U32(symbols[2].addr + o[TEXT]);
    LastWord(o[TEXT], textSize);
  }

  lemma {:induction false} LastWord(text: nat, size: nat)
    requires 4 <= text && text + size < TWO_32
    ensures U32(U32(size - 4) + text) == text + size - 4
  {
    U32Mod(size - 4);
    U32Mod(U32(size - 4) + text);
  }

  /** The symbols are found there, and oatdata and oatlastword enclose .rodata and .text. */
  lemma {:induction false} TablesLegible(d: seq<byte>, e: Elf, o: seq<nat>, names: seq<Name>, index: seq<nat>,
                                         table: seq<nat>, rows: seq<Sym>)
    requires Naming(e, o, names, index, table) && TablesHeld(d, e, o)
    requires rows == Symtab(RequiredSymbols(|e.rodata|, |e.text|), index, o)
    ensures Legible(d, Tables(o[HASH], o[DYNSYM], o[DYNSTR]), names, index, table, e.dynstr, rows)
  {
  }

  lemma {:induction false} SymbolsLinked(d: seq<byte>, e: Elf, o: seq<nat>, names: seq<Name>, index: seq<nat>,
                                         table: seq<nat>)
    requires Naming(e, o, names, index, table) && TablesHeld(d, e, o)
    ensures var t := Tables(o[HASH], o[DYNSYM], o[DYNSTR]);
      SymbolsHeld(d, t, names, table) && ValueOf(d, t, 1) == o[RODATA] && ValueOf(d, t, 3) + 4 == o[TEXT] + |e.text|
  {
    var rows := Symtab(RequiredSymbols(|e.rodata|, |e.text|), index, o);
    TablesLegible(d, e, o, names, index, table, rows);
    LegibleHolds(d, Tables(o[HASH], o[DYNSYM], o[DYNSTR]), names, index, table, e.dynstr, rows);
    RequiredValues(|e.rodata|, |e.text|, index, o, rows);
  }
}
