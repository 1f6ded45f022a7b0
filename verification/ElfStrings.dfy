/**
 ELF string tables (chapter 4, "String Table", of the System V ABI): GenerateStrtab, the names in
 .shstrtab and the SONAME in .dynstr are all built by appending a name and a NUL.
 */
module ElfStrings {
  import opened Bytes

  type Name = seq<byte>

  /** The C string at an offset of a table. */
  function CString(table: seq<byte>, at: nat): seq<byte>
    decreases |table| - at
  {
    if at >= |table| || table[at] == 0 then [] else [table[at]] + CString(table, at + 1)
  }

  /** What a C string reader sees of a name: everything before the first NUL. */
  function CName(name: Name): Name {
    CString(name, 0)
  }

  /** A C string goes up to the first NUL. */
  lemma {:induction false} CStringIs(table: seq<byte>, at: nat, end: nat)
    requires at <= end <= |table| && (forall k :: at <= k < end ==> table[k] != 0)
    requires (end < |table| ==> table[end] == 0)
    ensures CString(table, at) == table[at..end]
    decreases end - at
  {
    if at < end {
      CStringIs(table, at + 1, end);
    }
  }

  lemma {:induction false} CNameIs(name: Name, i: nat)
    requires i <= |name| && (forall k :: 0 <= k < i ==> name[k] != 0) && (i < |name| ==> name[i] == 0)
    ensures CName(name) == name[..i]
  {
    CStringIs(name, 0, i);
  }

  lemma {:induction false} CStringNoNul(table: seq<byte>, at: nat)
    ensures 0 !in CString(table, at)
    decreases |table| - at
  {
    if at < |table| && table[at] != 0 {
      CStringNoNul(table, at + 1);
    }
  }

  lemma {:induction false} CNameTwice(name: Name)
    ensures CName(CName(name)) == CName(name)
  {
    CStringNoNul(name, 0);
    NameIsWhole(CName(name), 0);
  }

  lemma {:induction false} NameIsWhole(name: Name, k: nat)
    requires 0 !in name && k <= |name|
    ensures CString(name, k) == name[k..]
    decreases |name| - k
  {
    if k < |name| {
      NameIsWhole(name, k + 1);
    }
  }

  lemma {:induction false} Shifted(table: seq<byte>, more: seq<byte>, k: nat)
    ensures CString(table + more, |table| + k) == CString(more, k)
    decreases |more| - k
  {
    if k < |more| && more[k] != 0 {
      Shifted(table, more, k + 1);
    }
  }

  /** A table that ends with a NUL can be extended without changing its strings. */
  lemma {:induction false} Kept(table: seq<byte>, more: seq<byte>, at: nat)
    requires at < |table| && table[|table| - 1] == 0
    ensures CString(table + more, at) == CString(table, at)
    decreases |table| - at
  {
    if table[at] != 0 {
      Kept(table, more, at + 1);
    }
  }

  lemma {:induction false} Terminated(name: Name, k: nat)
    requires k <= |name|
    ensures CString(name + [0], k) == CString(name, k)
    decreases |name| - k
  {
    if k < |name| && name[k] != 0 {
      Terminated(name, k + 1);
    }
  }

  /** The table starts with the empty string, ends with a NUL, and each index leads to its name. */
  ghost predicate IsTable(table: seq<byte>, names: seq<Name>, index: seq<nat>) {
    && table != [] && table[0] == 0 && table[|table| - 1] == 0 && |index| == |names|
    && forall i :: 0 <= i < |names| ==> index[i] < |table| && CString(table, index[i]) == CName(names[i])
  }

  /** AssignSectionStr, and one round of GenerateStrtab */
  lemma {:induction false} Appended(table: seq<byte>, names: seq<Name>, index: seq<nat>, name: Name)
    requires IsTable(table, names, index)
    ensures IsTable(table + (name + [0]), names + [name], index + [|table|])
  {
    var more := name + [0];
    var table', names', index' := table + more, names + [name], index + [|table|];
    forall i | 0 <= i < |names'| ensures CString(table', index'[i]) == CName(names'[i]) {
      if i < |names| {
        Kept(table, more, index[i]);
      } else {
        Shifted(table, more, 0);
        Terminated(name, 0);
      }
    }
  }

  function TableSize(names: seq<Name>): nat {
    if names == [] then 1 else TableSize(names[..|names| - 1]) + |names[|names| - 1]| + 1
  }

  /** GenerateStrtab: the index of a symbol's name is where the table stood when it was appended. */
  method GenerateStrtab(names: seq<Name>) returns (table: seq<byte>, index: seq<nat>)
    ensures IsTable(table, names, index) && |table| == TableSize(names)
    ensures forall i :: 0 <= i < |names| && 0 !in names[i] ==> CString(table, index[i]) == names[i]
  {
    table, index := [0], [];
    for i := 0 to |names|
      invariant IsTable(table, names[..i], index) && |table| == TableSize(names[..i])
    {
      Appended(table, names[..i], index, names[i]);
      assert names[..i + 1] == names[..i] + [names[i]];
      index := index + [|table|];
      table := table + (names[i] + [0]);
    }
    assert names[..|names|] == names;
    forall i | 0 <= i < |names| && 0 !in names[i] ensures CName(names[i]) == names[i] {
      NameIsWhole(names[i], 0);
    }
  }
}
