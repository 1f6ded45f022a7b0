/** The records of a 32-bit little-endian ELF file, after chapters 4 and 5 of the System V ABI (gABI). */
module ElfFormat {
  import opened Bytes

  const EHDR_SIZE: nat := 52
  const PHDR_SIZE: nat := 32
  const SHDR_SIZE: nat := 40
  const SYM_SIZE: nat := 16
  const WORD_SIZE: nat := 4

  /** Offsets within tables of program headers, symbols and dynamic entries */
  function PhdrOffset(i: nat): nat {
    32 * i
  }

  function SymOffset(i: nat): nat {
    16 * i
  }

  function DynOffset(i: nat): nat {
    8 * i
  }

  /** Elf32_Shdr */
  datatype Shdr = Shdr(
    name: nat, type_: nat, flags: nat, addr: nat, offset: nat, size: nat, link: nat, info: nat, addralign: nat,
      entsize: nat)

  function ShdrBytes(h: Shdr): (b: seq<byte>)
    ensures |b| == SHDR_SIZE
  {
    Words([h.name, h.type_, h.flags, h.addr, h.offset, h.size, h.link, h.info, h.addralign, h.entsize])
  }

  /** Elf32_Sym */
  datatype Sym = Sym(name: uint32, value: uint32, size: uint32, info: byte, other: byte, shndx: nat)

  function SymBytes(s: Sym): (b: seq<byte>)
    requires s.shndx < 65536
    ensures |b| == SYM_SIZE
  {
    Words([s.name, s.value, s.size]) + ([s.info, s.other] + Le16(s.shndx))
  }
}
