/**
 ElfFixup: every address in an ELF file is moved so that the oat data ends up where it is to be
 loaded. Addresses are 32-bit words and wrap around.
 */
module ElfFixup {
  import opened Wrappers
  import opened Bytes

  type Word = uint32

  function Add(x: Word, y: Word): Word {
    if x + y < TWO_32 then x + y else x + y - TWO_32
  }

  function Sub(x: Word, y: Word): Word {
    if x >= y then x - y else x - y + TWO_32
  }

  datatype Dynamic = Dynamic(isPointer: bool, value: Word)
  datatype Program = Program(vaddr: Word, paddr: Word, offset: Word, align: Word)
  datatype Symbol = Symbol(name: string, value: Word)

  /** The addresses of an ELF file: .dynamic, section headers, program headers, both symbol tables, relocations. */
  datatype Addresses = Addresses(
    dynamics: seq<Dynamic>, sections: seq<Word>, programs: seq<Program>,
    dynsym: seq<Symbol>, symtab: seq<Symbol>, relocations: seq<Word>)

  // ----- what one pass does to one entry -----

  function MovedDynamic(d: Dynamic, base: Word): Dynamic {
    if d.isPointer then d.(value := Add(d.value, base)) else d
  }

  /** Section addresses and symbol values of 0 do not exist in memory. */
  function MovedIfSet(x: Word, base: Word): Word {
    if x == 0 then 0 else Add(x, base)
  }

  function MovedProgram(p: Program, base: Word): Program {
    p.(vaddr := Add(p.vaddr, base), paddr := Add(p.paddr, base))
  }

  function MovedSymbol(s: Symbol, base: Word): Symbol {
    s.(value := MovedIfSet(s.value, base))
  }

  function MovedDynamics(s: seq<Dynamic>, base: Word): (r: seq<Dynamic>)
    ensures |r| == |s| && forall i :: 0 <= i < |s| ==> r[i] == MovedDynamic(s[i], base)
  {
    seq(|s|, i requires 0 <= i < |s| => MovedDynamic(s[i], base))
  }

  function MovedSections(s: seq<Word>, base: Word): (r: seq<Word>)
    ensures |r| == |s| && forall i :: 0 <= i < |s| ==> r[i] == MovedIfSet(s[i], base)
  {
    seq(|s|, i requires 0 <= i < |s| => MovedIfSet(s[i], base))
  }

  function MovedPrograms(s: seq<Program>, base: Word): (r: seq<Program>)
    ensures |r| == |s| && forall i :: 0 <= i < |s| ==> r[i] == MovedProgram(s[i], base)
  {
    seq(|s|, i requires 0 <= i < |s| => MovedProgram(s[i], base))
  }

  function MovedSymbols(s: seq<Symbol>, base: Word): (r: seq<Symbol>)
    ensures |r| == |s| && forall i :: 0 <= i < |s| ==> r[i] == MovedSymbol(s[i], base)
  {
    seq(|s|, i requires 0 <= i < |s| => MovedSymbol(s[i], base))
  }

  function MovedRelocations(s: seq<Word>, base: Word): (r: seq<Word>)
    ensures |r| == |s| && forall i :: 0 <= i < |s| ==> r[i] == Add(s[i], base)
  {
    seq(|s|, i requires 0 <= i < |s| => Add(s[i], base))
  }

  function Rebased(a: Addresses, base: Word): Addresses {
    Addresses(MovedDynamics(a.dynamics, base), MovedSections(a.sections, base), MovedPrograms(a.programs, base),
              MovedSymbols(a.dynsym, base), MovedSymbols(a.symtab, base), MovedRelocations(a.relocations, base))
  }

  // ----- moving twice -----

  lemma {:induction false} AddTwice(x: Word, b: Word, c: Word)
    ensures Add(Add(x, b), c) == Add(x, Add(b, c))
  {
  }

  /** A set address that is moved to 0 is lost. */
  predicate Vanishes(x: Word, base: Word) {
    x != 0 && Add(x, base) == 0
  }

  /** Moving a section or symbol twice is moving it once, unless it vanished on the way. */
  lemma {:induction false} MovedTwice(x: Word, b: Word, c: Word)
    ensures MovedIfSet(MovedIfSet(x, b), c) == MovedIfSet(x, Add(b, c)) <==> c == 0 || !Vanishes(x, b)
  {
    AddTwice(x, b, c);
  }

  predicate SectionsStay(s: seq<Word>, base: Word) {
    forall i :: 0 <= i < |s| ==> !Vanishes(s[i], base)
  }

  predicate SymbolsStay(s: seq<Symbol>, base: Word) {
    forall i :: 0 <= i < |s| ==> !Vanishes(s[i].value, base)
  }

  lemma {:induction false} SectionsTwice(s: seq<Word>, b: Word, c: Word)
    ensures MovedSections(MovedSections(s, b), c) == MovedSections(s, Add(b, c)) <==> c == 0 || SectionsStay(s, b)
  {
    var twice, once := MovedSections(MovedSections(s, b), c), MovedSections(s, Add(b, c));
    forall i | 0 <= i < |s| ensures twice[i] == once[i] <==> c == 0 || !Vanishes(s[i], b) {
      MovedTwice(s[i], b, c);
    }
    if twice == once && c != 0 {
      forall i | 0 <= i < |s| ensures !Vanishes(s[i], b) { assert twice[i] == once[i]; }
    }
  }

  lemma {:induction false} SymbolsTwice(s: seq<Symbol>, b: Word, c: Word)
    ensures MovedSymbols(MovedSymbols(s, b), c) == MovedSymbols(s, Add(b, c)) <==> c == 0 || SymbolsStay(s, b)
  {
    var twice, once := MovedSymbols(MovedSymbols(s, b), c), MovedSymbols(s, Add(b, c));
    forall i | 0 <= i < |s| ensures twice[i] == once[i] <==> c == 0 || !Vanishes(s[i].value, b) {
      MovedTwice(s[i].value, b, c);
    }
    if twice == once && c != 0 {
      forall i | 0 <= i < |s| ensures !Vanishes(s[i].value, b) { assert twice[i] == once[i]; }
    }
  }

  lemma {:induction false} DynamicsTwice(s: seq<Dynamic>, b: Word, c: Word)
    ensures MovedDynamics(MovedDynamics(s, b), c) == MovedDynamics(s, Add(b, c))
  {
    var twice, once := MovedDynamics(MovedDynamics(s, b), c), MovedDynamics(s, Add(b, c));
    forall i | 0 <= i < |s| ensures twice[i] == once[i] {
      AddTwice(s[i].value, b, c);
    }
  }

  lemma {:induction false} ProgramsTwice(s: seq<Program>, b: Word, c: Word)
    ensures MovedPrograms(MovedPrograms(s, b), c) == MovedPrograms(s, Add(b, c))
  {
    var twice, once := MovedPrograms(MovedPrograms(s, b), c), MovedPrograms(s, Add(b, c));
    forall i | 0 <= i < |s| ensures twice[i] == once[i] {
      AddTwice(s[i].vaddr, b, c);
      AddTwice(s[i].paddr, b, c);
    }
  }

  lemma {:induction false} RelocationsTwice(s: seq<Word>, b: Word, c: Word)
    ensures MovedRelocations(MovedRelocations(s, b), c) == MovedRelocations(s, Add(b, c))
  {
    var twice, once := MovedRelocations(MovedRelocations(s, b), c), MovedRelocations(s, Add(b, c));
    forall i | 0 <= i < |s| ensures twice[i] == once[i] {
      AddTwice(s[i], b, c);
    }
  }

  predicate NoneVanishes(a: Addresses, base: Word) {
    SectionsStay(a.sections, base) && SymbolsStay(a.dynsym, base) && SymbolsStay(a.symtab, base)
  }

  lemma {:induction false} RebasedTwice(a: Addresses, b: Word, c: Word)
    ensures Rebased(Rebased(a, b), c) == Rebased(a, Add(b, c)) <==> c == 0 || NoneVanishes(a, b)
  {
    SectionsTwice(a.sections, b, c);
    SymbolsTwice(a.dynsym, b, c);
    SymbolsTwice(a.symtab, b, c);
    DynamicsTwice(a.dynamics, b, c);
    ProgramsTwice(a.programs, b, c);
    RelocationsTwice(a.relocations, b, c);
  }

  // ----- the whole fixup -----

  /** The address of the first symbol called oatdata in .dynsym, or 0. */
  function OatData(dynsym: seq<Symbol>): Word {
    if dynsym == [] then 0
    else if dynsym[0].name == "oatdata" then dynsym[0].value
    else OatData(dynsym[1..])
  }

  lemma {:induction false} OatDataMoves(s: seq<Symbol>, base: Word)
    ensures OatData(MovedSymbols(s, base)) == MovedIfSet(OatData(s), base)
  {
    if s != [] {
      OatDataMoves(s[1..], base);
      assert MovedSymbols(s, base)[1..] == MovedSymbols(s[1..], base);
    }
  }

  /** Move everything so that the oat data is at `begin`. */
  function Fixup(a: Addresses, begin: Word): Addresses {
    Rebased(a, Sub(begin, OatData(a.dynsym)))
  }

  /** After the fixup the oat data is where it was to go. */
  lemma {:induction false} OatDataLands(a: Addresses, begin: Word)
    requires OatData(a.dynsym) != 0
    ensures OatData(Fixup(a, begin).dynsym) == begin
  {
    OatDataMoves(a.dynsym, Sub(begin, OatData(a.dynsym)));
  }

  // ----- the checks -----

  /** The offset in the file and the address agree in the bits below the alignment. */
  predicate Congruent(p: Program) {
    p.align == 0 || And(Sub(p.vaddr, p.offset), p.align - 1) == 0
  }

  predicate Passes(p: Program, base: Word) {
    p.vaddr == p.paddr && Congruent(p) && Congruent(MovedProgram(p, base))
  }

  predicate ProgramsPass(s: seq<Program>, base: Word) {
    forall i :: 0 <= i < |s| ==> Passes(s[i], base)
  }

  /** The whole fixup, or None where one of its checks aborts: oatdata has no address or a program header fails. */
  function Checked(a: Addresses, begin: Word): (r: Option<Addresses>)
    ensures r.Some? ==> OatData(r.value.dynsym) == begin
  {
    var base := Sub(begin, OatData(a.dynsym));
    if OatData(a.dynsym) == 0 || !ProgramsPass(a.programs, base) then None
    else
      OatDataLands(a, begin);
      Some(Fixup(a, begin))
  }

  /** A fixup of what a fixup left; a file on which the first aborts cannot be moved again. */
  function CheckedTwice(a: Addresses, first: Word, second: Word): Option<Addresses> {
    var once := Checked(a, first);
    if once.None? then None else Checked(once.value, second)
  }

  lemma {:induction false} SubAdds(x: Word, first: Word, second: Word)
    ensures Add(Sub(first, x), Sub(second, first)) == Sub(second, x)
  {
  }

  /** On headers that have passed one move, the checks of the next are those of moving there at once. */
  lemma {:induction false} ProgramsPassTwice(s: seq<Program>, b: Word, c: Word)
    requires ProgramsPass(s, b)
    ensures ProgramsPass(MovedPrograms(s, b), c) <==> ProgramsPass(s, Add(b, c))
  {
    var moved := MovedPrograms(s, b);
    forall i | 0 <= i < |s| ensures Passes(moved[i], c) <==> Passes(s[i], Add(b, c)) {
      assert Passes(s[i], b);
      AddTwice(s[i].vaddr, b, c);
      AddTwice(s[i].paddr, b, c);
    }
    if ProgramsPass(moved, c) {
      forall i | 0 <= i < |s| ensures Passes(s[i], Add(b, c)) {
        assert Passes(moved[i], c);
      }
    }
  }

  /**
   A file that has been moved can be moved again exactly if it could have gone there at once and oatdata is not
   at 0.
   */
  lemma {:induction false} SecondSucceeds(a: Addresses, first: Word, second: Word)
    requires Checked(a, first).Some?
    ensures CheckedTwice(a, first, second).Some? <==> first != 0 && Checked(a, second).Some?
  {
    var x := OatData(a.dynsym);
    SubAdds(x, first, second);
    ProgramsPassTwice(a.programs, Sub(first, x), Sub(second, first));
  }

  /** If oatdata is moved to 0, it vanishes itself. */
  lemma {:induction false} OatDataVanishes(s: seq<Symbol>, base: Word)
    requires Vanishes(OatData(s), base)
    ensures !SymbolsStay(s, base)
  {
    if s != [] {
      if s[0].name == "oatdata" {
        assert Vanishes(s[0].value, base);
      } else {
        OatDataVanishes(s[1..], base);
        var i :| 0 <= i < |s[1..]| && Vanishes(s[1..][i].value, base);
        assert s[1 + i] == s[1..][i];
      }
    }
  }

  /**
   Moving a file to one address and then to another is moving it to the second address at once,
   exactly if no section or symbol address vanishes at the first, or if both addresses are the same
   and not 0.
   */
  lemma {:induction false} FixupComposes(a: Addresses, first: Word, second: Word)
    requires Checked(a, first).Some? && Checked(a, second).Some?
    ensures CheckedTwice(a, first, second) == Checked(a, second)
       <==> NoneVanishes(a, Sub(first, OatData(a.dynsym))) || (first == second && first != 0)
  {
    var x := OatData(a.dynsym);
    SecondSucceeds(a, first, second);
    if first == 0 {
      OatDataVanishes(a.dynsym, Sub(first, x));
    } else {
      SubAdds(x, first, second);
      RebasedTwice(a, Sub(first, x), Sub(second, first));
    }
  }

  // ----- alignments that are powers of two -----

  lemma {:induction false} AlignedDouble(x: nat, n: nat)
    requires n > 0
    ensures Aligned(x, 2 * n) <==> x % 2 == 0 && Aligned(x / 2, n)
    decreases x
  {
    if x >= 2 * n {
      AlignedDouble(x - 2 * n, n);
    }
  }

  /** The bits below a power of two are the remainder. */
  lemma {:induction false} AndIsRemainder(x: nat, k: nat)
    ensures And(x, Pow2(k) - 1) == 0 <==> Aligned(x, Pow2(k))
    decreases k
  {
    if k == 0 {
      AlignedMod(x, 1);
    } else {
      AndIsRemainder(x / 2, k - 1);
      AlignedDouble(x, Pow2(k - 1));
      AndHalves(x, Pow2(k - 1) - 1);
    }
  }

  lemma {:induction false} AlignedTwo32(k: nat)
    requires k <= 32
    ensures Aligned(TWO_32, Pow2(k))
    decreases 32 - k
  {
    if k == 32 {
      assert Pow2(4) == 16 && Pow2(8) == 256 && Pow2(12) == 4096 && Pow2(16) == 65536;
      assert Pow2(20) == 1048576 && Pow2(24) == 16777216 && Pow2(28) == 268435456;
    } else {
      AlignedTwo32(k + 1);
      AlignedHalf(TWO_32, Pow2(k));
    }
  }

  lemma {:induction false} AlignedHalf(x: nat, n: nat)
    requires n > 0 && Aligned(x, 2 * n)
    ensures Aligned(x, n)
    decreases x
  {
    if x >= 2 * n {
      AlignedHalf(x - 2 * n, n);
    }
  }

  lemma {:induction false} AlignedAdd(x: Word, base: Word, n: nat)
    requires n > 0 && Aligned(x, n) && Aligned(TWO_32, n)
    ensures Aligned(Add(x, base), n) <==> Aligned(base, n)
  {
    AlignedSum(x, base, n);
    if x + base >= TWO_32 {
      AlignedSum(TWO_32, x + base - TWO_32, n);
    }
  }

  /** A header that was congruent stays so exactly if the distance is a multiple of its alignment. */
  lemma {:induction false} SecondCheck(p: Program, base: Word, k: nat)
    requires Congruent(p) && p.align == Pow2(k) && k < 32
    ensures Congruent(MovedProgram(p, base)) <==> Aligned(base, p.align)
  {
    var x := Sub(p.vaddr, p.offset);
    AndIsRemainder(x, k);
    AndIsRemainder(Add(x, base), k);
    AlignedTwo32(k);
    AlignedAdd(x, base, p.align);
    assert Sub(Add(p.vaddr, base), p.offset) == Add(x, base);
  }

  ghost predicate ZeroOrPower(x: Word) {
    x == 0 || exists k: nat :: k < 32 && Pow2(k) == x
  }

  lemma {:induction false} PageCongruent(p: Program)
    requires p.align == 4096 && Sub(p.vaddr, p.offset) % 4096 == 0
    ensures Congruent(p)
  {
    AlignedMod(Sub(p.vaddr, p.offset), 4096);
    assert Pow2(12) == 4096;
    AndIsRemainder(Sub(p.vaddr, p.offset), 12);
  }

  /**
   A file with a null section, two loaded ones and the program header of .dynamic. At the first address the last
   section comes to lie at 0, where it cannot be told from one that is not loaded.
   */
  lemma {:induction false} VanishedSection(a: Addresses, first: Word, second: Word)
    requires a.sections == [0, 0x1000, 0x2000] && a.programs == [Program(0x3000, 0x3000, 0x3000, 4096)]
    requires a.dynsym == [Symbol("oatdata", 0x1000)] && first == 0xFFFF_F000 && second == 0x5000
    ensures CheckedTwice(a, first, second).Some? && Checked(a, second).Some?
    ensures CheckedTwice(a, first, second) != Checked(a, second)
  {
    assert OatData(a.dynsym) == 0x1000 && Vanishes(a.sections[2], Sub(first, 0x1000));
    PageCongruent(a.programs[0]);
    PageCongruent(MovedProgram(a.programs[0], Sub(first, 0x1000)));
    PageCongruent(MovedProgram(a.programs[0], Sub(second, 0x1000)));
    SecondSucceeds(a, first, second);
    FixupComposes(a, first, second);
  }

  /** A file that can go to one address can go to another exactly if all alignments divide the distance it moves. */
  lemma {:induction false} OtherAddress(a: Addresses, first: Word, second: Word)
    requires Checked(a, first).Some? && forall p :: p in a.programs ==> ZeroOrPower(p.align)
    ensures Checked(a, second).Some?
       <==> forall p :: p in a.programs ==> p.align == 0 || Aligned(Sub(second, OatData(a.dynsym)), p.align)
  {
    var base := Sub(second, OatData(a.dynsym));
    forall i | 0 <= i < |a.programs|
      ensures Passes(a.programs[i], base) <==> a.programs[i].align == 0 || Aligned(base, a.programs[i].align)
    {
      var p := a.programs[i];
      assert p in a.programs && Passes(p, Sub(first, OatData(a.dynsym)));
      if p.align != 0 {
        var k: nat :| k < 32 && Pow2(k) == p.align;
        SecondCheck(p, base, k);
      }
    }
    if Checked(a, second).Some? {
      forall p | p in a.programs ensures p.align == 0 || Aligned(base, p.align) {
        var i :| 0 <= i < |a.programs| && a.programs[i] == p;
        assert Passes(a.programs[i], base);
      }
    }
  }

  // ----- the passes, in place -----

  class ElfFile {
    const dynamics: array<Dynamic>
    const sections: array<Word>
    const programs: array<Program>
    const dynsym: array<Symbol>
    const symtab: array<Symbol>
    const relocations: array<Word>

    constructor (dynamics: array<Dynamic>, sections: array<Word>, programs: array<Program>,
                 dynsym: array<Symbol>, symtab: array<Symbol>, relocations: array<Word>)
      requires sections != relocations && dynsym != symtab
      ensures Separate() && this.dynamics == dynamics && this.sections == sections && this.programs == programs
      ensures this.dynsym == dynsym && this.symtab == symtab && this.relocations == relocations
    {
      this.dynamics, this.sections, this.programs := dynamics, sections, programs;
      this.dynsym, this.symtab, this.relocations := dynsym, symtab, relocations;
    }

    ghost predicate Separate() {
      && sections != relocations && dynsym != symtab
    }

    ghost function State(): Addresses
      reads dynamics, sections, programs, dynsym, symtab, relocations
    {
      Addresses(dynamics[..], sections[..], programs[..], dynsym[..], symtab[..], relocations[..])
    }

    method FixupDynamic(base: Word)
      modifies dynamics
      ensures dynamics[..] == MovedDynamics(old(dynamics[..]), base)
    {
      for i := 0 to dynamics.Length
        invariant forall k :: 0 <= k < i ==> dynamics[k] == MovedDynamic(old(dynamics[k]), base)
        invariant forall k :: i <= k < dynamics.Length ==> dynamics[k] == old(dynamics[k])
      {
        if dynamics[i].isPointer {
          dynamics[i] := dynamics[i].(value := Add(dynamics[i].value, base));
        }
      }
    }

    method FixupSectionHeaders(base: Word)
      modifies sections
      ensures sections[..] == MovedSections(old(sections[..]), base)
    {
      for i := 0 to sections.Length
        invariant forall k :: 0 <= k < i ==> sections[k] == MovedIfSet(old(sections[k]), base)
        invariant forall k :: i <= k < sections.Length ==> sections[k] == old(sections[k])
      {
        if sections[i] == 0 {
          continue;
        }
        sections[i] := Add(sections[i], base);
      }
    }

    /** The result says whether all checks pass; the source aborts at the first that does not. */
    method FixupProgramHeaders(base: Word) returns (ok: bool)
      modifies programs
      ensures ok <==> ProgramsPass(old(programs[..]), base)
      ensures ok ==> programs[..] == MovedPrograms(old(programs[..]), base)
    {
      ghost var before := programs[..];
      for i := 0 to programs.Length
        invariant ProgramsPass(before[..i], base)
        invariant forall k :: 0 <= k < i ==> programs[k] == MovedProgram(before[k], base)
        invariant forall k :: i <= k < programs.Length ==> programs[k] == before[k]
      {
        var p := programs[i];
        programs[i] := MovedProgram(p, base);
        if !(p.vaddr == p.paddr && Congruent(p) && Congruent(programs[i])) {
          assert before[i] == p;
          return false;
        }
      }
      assert before[..programs.Length] == before;
      return true;
    }

    method FixupSymbols(symbols: array<Symbol>, base: Word)
      modifies symbols
      ensures symbols[..] == MovedSymbols(old(symbols[..]), base)
    {
      for i := 0 to symbols.Length
        invariant forall k :: 0 <= k < i ==> symbols[k] == MovedSymbol(old(symbols[k]), base)
        invariant forall k :: i <= k < symbols.Length ==> symbols[k] == old(symbols[k])
      {
        if symbols[i].value != 0 {
          symbols[i] := symbols[i].(value := Add(symbols[i].value, base));
        }
      }
    }

    method FixupRelocations(base: Word)
      modifies relocations
      ensures relocations[..] == MovedRelocations(old(relocations[..]), base)
    {
      for i := 0 to relocations.Length
        invariant forall k :: 0 <= k < i ==> relocations[k] == Add(old(relocations[k]), base)
        invariant forall k :: i <= k < relocations.Length ==> relocations[k] == old(relocations[k])
      {
        relocations[i] := Add(relocations[i], base);
      }
    }

    method GetOatDataAddress() returns (address: Word)
      ensures address == OatData(dynsym[..])
    {
      for i := 0 to dynsym.Length
        invariant OatData(dynsym[..]) == OatData(dynsym[i..])
      {
        if dynsym[i].name == "oatdata" {
          return dynsym[i].value;
        }
        assert dynsym[i..][1..] == dynsym[i + 1..];
      }
      return 0;
    }

    /** All passes together; without a usable oatdata symbol the source aborts. */
    method FixupAll(oatDataBegin: Word) returns (ok: bool)
      requires Separate()
      modifies dynamics, sections, programs, dynsym, symtab, relocations
      ensures ok == Checked(old(State()), oatDataBegin).Some?
      ensures ok ==> Checked(old(State()), oatDataBegin) == Some(State())
    {
      var oatData := GetOatDataAddress();
      if oatData == 0 {
        return false;
      }
      var base := Sub(oatDataBegin, oatData);
      FixupDynamic(base);
      FixupSectionHeaders(base);
      ok := FixupProgramHeaders(base);
      if !ok {
        return;
      }
      FixupSymbols(dynsym, base);
      FixupSymbols(symtab, base);
      FixupRelocations(base);
    }
  }
}
