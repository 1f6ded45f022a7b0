/**
 What the runtime does to find the oat data in an ELF file (ElfFile::Load and OatFile::ElfFileOpen):
 from the program headers to the dynamic section, from there to the hash table, the symbols and their
 names, and through the hash table to "oatdata" and "oatlastword". Segments are mapped where their
 addresses say, relative to the base address, so that addresses are offsets in the file.
 */
module ElfLoader {
  import opened Wrappers
  import opened Bytes
  import opened Streams
  import opened DedupLayout
  import opened FileReads
  import opened ElfFormat
  import opened ElfStrings
  import opened ElfSymbols

  const PT_LOAD: nat := 1
  const PT_DYNAMIC: nat := 2
  const DT_NULL: nat := 0
  const DT_HASH: nat := 4
  const DT_STRTAB: nat := 5
  const DT_SYMTAB: nat := 6

  /** Offsets of e_phoff and e_phnum in the ELF header */
  const E_PHOFF: nat := 28
  const E_PHNUM: nat := 44

  /** A word of a program header: p_type, p_offset, p_vaddr, p_paddr, p_filesz, p_memsz, p_flags, p_align. */
  function PhWord(d: seq<byte>, phoff: nat, i: nat, field: nat): nat {
    Word(d, phoff + PhdrOffset(i) + 4 * field)
  }

  predicate Covers(d: seq<byte>, phoff: nat, i: nat, address: nat) {
    && PhWord(d, phoff, i, 0) == PT_LOAD
    && PhWord(d, phoff, i, 2) <= address < PhWord(d, phoff, i, 2) + PhWord(d, phoff, i, 5)
  }

  /** The first header from i on of a segment to be loaded. */
  function FirstLoad(d: seq<byte>, phoff: nat, phnum: nat, i: nat): Option<nat>
    decreases phnum - i
  {
    if i >= phnum then None
    else if PhWord(d, phoff, i, 0) == PT_LOAD then Some(i)
    else FirstLoad(d, phoff, phnum, i + 1)
  }

  /** The least address of the first n segments, and the greatest one behind them. */
  function MinAddress(d: seq<byte>, phoff: nat, n: nat): nat {
    if n == 0 then 0xFFFF_FFFF
    else
      var least := MinAddress(d, phoff, n - 1);
      if PhWord(d, phoff, n - 1, 0) == PT_LOAD && PhWord(d, phoff, n - 1, 2) < least then PhWord(d, phoff, n - 1, 2)
      else least
  }

  function MaxAddress(d: seq<byte>, phoff: nat, n: nat): nat {
    if n == 0 then 0
    else
      var most, end := MaxAddress(d, phoff, n - 1), U32(PhWord(d, phoff, n - 1, 2) + PhWord(d, phoff, n - 1, 5));
      if PhWord(d, phoff, n - 1, 0) == PT_LOAD && end > most then end else most
  }

  /** GetLoadedSize */
  function LoadedSize(d: seq<byte>, phoff: nat, phnum: nat): int {
    RoundUp(MaxAddress(d, phoff, phnum), PAGE_SIZE) - RoundDown(MinAddress(d, phoff, phnum), PAGE_SIZE)
  }

  /** The address is in the range that is reserved for all segments, from the first one on. */
  predicate Reserved(d: seq<byte>, phoff: nat, phnum: nat, address: nat) {
    var first := FirstLoad(d, phoff, phnum, 0);
    && first.Some?
    && PhWord(d, phoff, first.value, 2) <= address < PhWord(d, phoff, first.value, 2) + LoadedSize(d, phoff, phnum)
  }

  predicate Mapped(d: seq<byte>, phoff: nat, phnum: nat, address: nat) {
    exists i :: 0 <= i < phnum && Covers(d, phoff, i, address)
  }

  /** ValidPointer: the reservation and every segment that has been mapped are in segments_. */
  predicate ValidPointer(d: seq<byte>, phoff: nat, phnum: nat, address: nat) {
    Mapped(d, phoff, phnum, address) || Reserved(d, phoff, phnum, address)
  }

  /** The last PT_DYNAMIC header among the first n. */
  function DynamicHeader(d: seq<byte>, phoff: nat, n: nat): Option<nat> {
    if n == 0 then None
    else if PhWord(d, phoff, n - 1, 0) == PT_DYNAMIC then Some(n - 1)
    else DynamicHeader(d, phoff, n - 1)
  }

  method FindDynamicHeader(d: seq<byte>, phoff: nat, phnum: nat) returns (r: Option<nat>)
    ensures r == DynamicHeader(d, phoff, phnum)
  {
    r := None;
    for i := 0 to phnum
      invariant r == DynamicHeader(d, phoff, i)
    {
      if PhWord(d, phoff, i, 0) == PT_DYNAMIC {
        r := Some(i);
      }
    }
  }

  function Tag(d: seq<byte>, dynamic: nat, i: nat): nat {
    Word(d, dynamic + DynOffset(i))
  }

  function Value(d: seq<byte>, dynamic: nat, i: nat): nat {
    Word(d, dynamic + DynOffset(i) + 4)
  }

  /** The value of the last of the first n entries with a tag, or 0. */
  function LastValue(d: seq<byte>, dynamic: nat, n: nat, tag: nat): nat {
    if n == 0 then 0
    else if Tag(d, dynamic, n - 1) == tag then Value(d, dynamic, n - 1)
    else LastValue(d, dynamic, n - 1, tag)
  }

  predicate IsPointer(tag: nat) {
    tag == DT_HASH || tag == DT_STRTAB || tag == DT_SYMTAB
  }

  /** The loader accepts entry i: pointers are valid, and DT_NULL is the last of `num` entries. */
  predicate Accepted(d: seq<byte>, phoff: nat, phnum: nat, dynamic: nat, num: nat, i: nat) {
    && (IsPointer(Tag(d, dynamic, i)) ==> ValidPointer(d, phoff, phnum, Value(d, dynamic, i)))
    && (Tag(d, dynamic, i) == DT_NULL ==> i + 1 == num)
  }

  predicate AllAccepted(d: seq<byte>, phoff: nat, phnum: nat, dynamic: nat, num: nat) {
    forall i :: 0 <= i < num ==> Accepted(d, phoff, phnum, dynamic, num, i)
  }

  /** What the entries come down to: the last pointer of each kind, if all are there and everything is accepted. */
  function DynamicTables(d: seq<byte>, phoff: nat, phnum: nat, dynamic: nat, num: nat): Option<Tables> {
    var t := Tables(LastValue(d, dynamic, num, DT_HASH), LastValue(d, dynamic, num, DT_SYMTAB),
                    LastValue(d, dynamic, num, DT_STRTAB));
    if AllAccepted(d, phoff, phnum, dynamic, num) && t.hash != 0 && t.symtab != 0 && t.strtab != 0 then Some(t)
      else None
  }

  /** The loop over .dynamic at the end of Load, and the checks behind it. */
  method ReadDynamic(d: seq<byte>, phoff: nat, phnum: nat, dynamic: nat, num: nat) returns (t: Option<Tables>)
    ensures t == DynamicTables(d, phoff, phnum, dynamic, num)
  {
    var hash, symtab, strtab := 0, 0, 0;
    for i := 0 to num
      invariant hash == LastValue(d, dynamic, i, DT_HASH) && symtab == LastValue(d, dynamic, i, DT_SYMTAB)
      invariant strtab == LastValue(d, dynamic, i, DT_STRTAB)
      invariant forall k :: 0 <= k < i ==> Accepted(d, phoff, phnum, dynamic, num, k)
    {
      var tag, value := Tag(d, dynamic, i), Value(d, dynamic, i);
      if IsPointer(tag) && !ValidPointer(d, phoff, phnum, value) {
        assert !Accepted(d, phoff, phnum, dynamic, num, i);
        return None;
      }
      if tag == DT_NULL && num != i + 1 {
        assert !Accepted(d, phoff, phnum, dynamic, num, i);
        return None;
      }
      if tag == DT_HASH {
        hash := value;
      } else if tag == DT_STRTAB {
        strtab := value;
      } else if tag == DT_SYMTAB {
        symtab := value;
      }
    }
    if hash == 0 || symtab == 0 || strtab == 0 {
      return None;
    }
    return Some(Tables(hash, symtab, strtab));
  }

  /** The tables to which the ELF header, the program headers and the dynamic section of a file lead. */
  function Loaded(d: seq<byte>): Option<Tables> {
    var phoff, phnum := Word(d, E_PHOFF), Half(d, E_PHNUM);
    var header := DynamicHeader(d, phoff, phnum);
    if header.None? || !ValidPointer(d, phoff, phnum, PhWord(d, phoff, header.value, 2)) then None
    else DynamicTables(d, phoff, phnum, PhWord(d, phoff, header.value, 2), PhWord(d, phoff, header.value, 4) / 8)
  }

  /** ElfFile::Load */
  method Load(d: seq<byte>) returns (t: Option<Tables>)
    ensures t == Loaded(d)
  {
    var phoff, phnum := Word(d, E_PHOFF), Half(d, E_PHNUM);
    var header := FindDynamicHeader(d, phoff, phnum);
    if header.None? || !ValidPointer(d, phoff, phnum, PhWord(d, phoff, header.value, 2)) {
      return None;
    }
    t := ReadDynamic(d, phoff, phnum, PhWord(d, phoff, header.value, 2), PhWord(d, phoff, header.value, 4) / 8);
  }

  /** st_value of a symbol */
  function ValueOf(d: seq<byte>, t: Tables, i: nat): nat {
    Word(d, t.symtab + SymOffset(i) + 4)
  }

  /** Where the oat data begins and ends. */
  datatype Range = Range(begin: nat, end: nat)

  /** FindDynamicSymbolAddress for oatdata and oatlastword, with the end of the last word. */
  method OatRange(d: seq<byte>, t: Tables, names: seq<Name>, ghost table: seq<nat>) returns (r: Option<Range>)
    requires SymbolsHeld(d, t, names, table) && table[0] == 2 && Distinct(names)
    ensures r == Some(Range(ValueOf(d, t, 1), ValueOf(d, t, 3) + 4))
  {
    var first := FindDynamicSymbol(d, t, names[0], names, table);
    var last := FindDynamicSymbol(d, t, names[2], names, table);
    OatSymbolReached(names, 0);
    OatSymbolReached(names, 2);
    if first == 0 || last == 0 {
      return None;
    }
    return Some(Range(ValueOf(d, t, first), ValueOf(d, t, last) + 4));
  }

  /** OatFile::ElfFileOpen: where the oat data begins and ends, if the file can be loaded and has the symbols. */
  method OpenOat(d: seq<byte>, names: seq<Name>, ghost tables: Tables, ghost table: seq<nat>) returns (r: Option<Range>)
    requires Loaded(d) == Some(tables) && SymbolsHeld(d, tables, names, table) && table[0] == 2 && Distinct(names)
    ensures r == Some(Range(ValueOf(d, tables, 1), ValueOf(d, tables, 3) + 4))
  {
    var t := Load(d);
    if t.None? {
      return None;
    }
    r := OatRange(d, t.value, names, table);
  }
}
