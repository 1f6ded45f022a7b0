# Verified model of the ART output writers and the Xposed Zygote service

This project models the parts of the ART compiler that plan a file in one pass and write it in
another, the ELF and image code around them, and the shared-memory protocol of the Xposed service,
and proves what these parts rely on. `dafny verify dfyconfig.toml` checks all of it.

The modules follow the components:

- `Wrappers`, `Bytes`: optional values; 32-bit words, alignment, masks, little-endian images.
  `FileReads`: reading words from a file that holds given bytes.
- `Streams`, `StreamRuns`: `BufferedOutputStream` over a sink that may fail, and `VectorOutputStream`;
  calls in a row, and what they demand of the sink.
- `DedupLayout`: the shape that all oat passes share, a walk that aligns items and gives room to
  the first occurrence of each key.
- `OatFormat`, `OatPasses`, `OatWriter`: the oat file, its plan, and the two walks of `OatWriter`.
  `OatCalls`, `OatTables`: the tables as calls on the stream, and what these come to on any sink.
  `OatReader`, `BitVector`, `OatLookup`: the runtime's way back from the bytes to a method.
  `OatRoundTrip` puts both together; `OatTorn` and `OatHidden` are runs that write a wrong file.
- `StringPacking`, `ImageStrings`: `ImageWriter::ProcessStrings`, on texts and on the heap.
- `ImageBins`, `ImageWalk`, `ImageGraph`, `ImageWriter`: bin slots, the heap walk, offsets, hash
  codes and the reference graph of the copies.
- `ElfFormat`, `ElfHash`, `ElfStrings`, `ElfLayout`, `ElfContents`: the records, the contents and the
  layout of the ELF file. `ElfSymbols`, `ElfLoader`: the runtime's way from the bytes of such a file
  to its symbols. `ElfOat`: an oat file in its ELF file, written and opened.
  `ElfStripper`, `ElfFixup`: in-place compaction and relocation.
- `Membased`, `MembasedReadFile`: the request/response protocol and the chunked read on top of it.
- `GcMap`: the byte-encoded hash table of GC maps.
- `Barrier`: the latch used by the garbage collector.

Conventions:

- Code that updates objects or arrays in place is a class or a method over arrays, proved against
  functions on values. The two protocols are state machines whose steps are what a thread does
  between two points at which another thread can interfere.
- Buffers of a compiled method are identities (`Ptr`) with contents, since the source compares
  pointers. Map offsets are 32-bit and wrap around as in the source.
- A sink has a list of faults that says which of its coming writes fail, and counts the failures;
  every statement about writing is for all such lists. A write that fails leaves nothing behind.
- A layout of an oat file is passed along as a ghost; it exists and is the only one (`LayoutUnique`).
- Where the source checks with `CHECK` and would abort, the condition is either a precondition or a
  result that says whether all checks pass. The build is one without debug-only checks.
- `std::sort`, `std::set` and `std::map` appear through what they guarantee: any order that sorts,
  the first element not below a key, a map. `KeyOrder` shows that the comparator of the code map is
  fit for that.
- Alignments are positive numbers, with the source's constants. The mask `align - 1` of the program
  header check is modelled for every `p_align`; where it means a remainder, `p_align` is a power of
  two, as the System V ABI demands.

Properties that turn out false of the code, each with the condition under which it holds:

- A successful `WriteFully` may have lost bytes (`WriteTruthfulness`, `DroppedFlush`). Through it,
  `OatWriter::Write` can return true for an incomplete file. With nothing pending, small pieces of
  classes and an end below 2^32 - 1, a true result means a complete file on every sink if and only if
  no location and no class offsets of a dex file exceed the buffer: then `Write` proves it whatever the
  sink does, and otherwise there is a sink on which it fails (`TearsExactly`, `WriteTorn`), for any
  number of dex files. A loss in front of an oversized piece of a class moves all that follows; if
  there are no maps and trampolines and the alignment of the code makes up for it, the result is true
  as well (`WriteHidden`, `InputHides`).
- Hash codes of interned duplicates are not all preserved (`PreservedIfUniform`, `TwinsLose`).
  References and other data are, exactly if the duplicates agree (`GraphKept`), which `ProcessStrings`
  sees to (`PrepareStrings`, `TwinsKept`).
- The heap walk does not visit the static fields of a class, unless its class has the same layout
  (`StaticIsMissed`, `StaticsVisited`).
- Relocating twice is not always relocating once (`FixupComposes`, `VanishedSection`).
- `FindDynamicSymbol` bounds chain indices by the number of buckets, not of chain cells, so that it
  misses symbols (`ChainIsCut`, `LostSymbol`); `FindDynamicSymbol` states the exact result.
- A failing `fseek` is reported as success with the previous chunk in place (`TruthfulExactly`,
  `StaleChunk`). The first chunk of a file is copied without a check against its `st_size`
  (`FirstCopy`, `ProcFile`); later ones end in EBUSY (`BusyExactly`).
- `HasEntry` takes free slots for entries of offset 0 (`HasEntryExact`, `EmptyTableClaimsZero`), and
  64-bit readers do not find offsets from 2^31 on (`FindBitMap`, `SignHidesEntry`).
- Stripping leaves section indices as they were (`IndexStays`), so that the section names of a file
  that lost a section cannot be found (`NamesOfStripped`, `StaleIndex`).

## Model

| member | source | states |
|---|---|---|
| Bytes.RoundUp | android_art-xposed-lollipop-mr1/runtime/utils.h:184-199 | the result is a multiple of n, not below x and less than n above it |
| Bytes.RoundUpLeast | android_art-xposed-lollipop-mr1/runtime/utils.h:194-199 | no smaller multiple of n is at or above x |
| Bytes.AlignedMod | android_art-xposed-lollipop-mr1/runtime/utils.h:90-104 | the counting definitions of alignment and rounding are those by remainder |
| Streams.BufferedRefinesDirect | android_art-xposed-lollipop-mr1/compiler/buffered_output_stream.cc:26-57 | for every sequence of writes and seeks in which no write to the sink fails, answers and contents (sink overlaid with the pending bytes) are those of unbuffered writing, and the buffer never overflows |
| Streams.WriteTruthfulness | android_art-xposed-lollipop-mr1/compiler/buffered_output_stream.cc:26-41 | a successful WriteFully added its bytes if and only if it did not drop a failing flush in front of an oversized write |
| Streams.DroppedFlush | android_art-xposed-lollipop-mr1/compiler/buffered_output_stream.cc:27-30 | one pending byte and one failing write make a WriteFully that reports success and loses the byte |
| Streams.BufferedOutputStream.WriteFully | android_art-xposed-lollipop-mr1/compiler/buffered_output_stream.cc:26-41 | the buffer over an array has the state and result of the specification BufWrite |
| Streams.WriteEffect | android_art-xposed-lollipop-mr1/compiler/buffered_output_stream.cc:26-41 | whatever the sink does: a successful write of a piece that fits the buffer, or with nothing pending, adds exactly its bytes; any successful write leaves the position at most as far as it should be, and then only if nothing was lost |
| Streams.BufferedOutputStream.Flush | android_art-xposed-lollipop-mr1/compiler/buffered_output_stream.cc:43-50 | the buffer over an array has the state and result of the specification BufFlush |
| Streams.BufferedOutputStream.Seek | android_art-xposed-lollipop-mr1/compiler/buffered_output_stream.cc:52-57 | the buffer over an array has the state and answer of the specification BufSeek |
| Streams.SeekEffect | android_art-xposed-lollipop-mr1/compiler/buffered_output_stream.cc:52-57 | a seek is the unbuffered one unless the flush in front of it fails; then the answer is -1, the pending bytes are gone and the position is behind; nothing stays in the buffer |
| StreamRuns.AttemptGranted | android_art-xposed-lollipop-mr1/compiler/buffered_output_stream.cc:26-57 | calls in a row take from the sink exactly the writes that their sizes and the pending bytes demand, and succeed if these do; the faults behind them are left for later |
| StreamRuns.AttemptReach | android_art-xposed-lollipop-mr1/compiler/buffered_output_stream.cc:26-57 | whatever the sink does, writes in a row change no byte behind all of them and do not get beyond their total |
| StreamRuns.TornRun | android_art-xposed-lollipop-mr1/compiler/buffered_output_stream.cc:26-30 | if of all writes to the sink just the flush in front of an oversized piece fails, all calls succeed, the position is behind by the bytes that were pending, and the last byte that was to be written is as it was |
| Streams.VectorOutputStream.WriteFully | android_art-xposed-lollipop-mr1/compiler/vector_output_stream.h:34-46 | both branches are the same overwrite at the position |
| Streams.VectorOutputStream.Seek | android_art-xposed-lollipop-mr1/compiler/vector_output_stream.cc:26-46 | any offset and origin, also targets before the start: the vector grows to a target beyond its end and otherwise stays, and the answer is the target, as the direct stream demands |
| DedupLayout.PlacesDisjoint | android_art-xposed-lollipop-mr1/compiler/oat_writer.cc:504-542 | items of a plan with different keys have disjoint places |
| DedupLayout.Sharing | android_art-xposed-lollipop-mr1/compiler/oat_writer.cc:521-530 | items with the same key have the same place |
| DedupLayout.PlanUnique | android_art-xposed-lollipop-mr1/compiler/oat_writer.cc:504-542 | keys, sizes, alignment and start determine all places of a plan |
| DedupLayout.WrittenStep | android_art-xposed-lollipop-mr1/compiler/oat_writer.cc:661-709 | one step of a writing pass keeps everything written before and adds the item at its planned place, writing it only at its first occurrence |
| OatFormat.KeyOrder | android_art-xposed-lollipop-mr1/compiler/oat_writer.h:308-325 | the comparator is a strict order whose ties are exactly methods with the same code and maps |
| OatFormat.LayoutUnique | android_art-xposed-lollipop-mr1/compiler/oat_writer.cc:51-133 | an oat file has no two layouts |
| OatFormat.Distance | android_art-xposed-lollipop-mr1/compiler/oat_writer.cc:392-406 | a map offset stored as 0 - offset modulo 2^32 becomes the distance from the code when the code offset is added, and going back by it from the entry point with its low bit cleared finds the map |
| OatFormat.OffsetBack | android_art-xposed-lollipop-mr1/compiler/oat_writer.cc:141-205 | GetOffset gives back the offset of a map, and 0 exactly for no map |
| OatPasses.MapDecision | android_art-xposed-lollipop-mr1/compiler/oat_writer.cc:677-694 | the test map_offset == offset_, on the final header, holds exactly at the first occurrence of a map |
| OatFormat.CodeWriteTest | android_art-xposed-lollipop-mr1/compiler/oat_writer.cc:600-642 | the test code_offset_ >= offset_ holds exactly at the first occurrence of code and maps, also for the odd entry points of Thumb2 |
| OatFormat.ClassMethods | android_art-xposed-lollipop-mr1/compiler/oat_writer.cc:712-751 | the compiled methods of a class are consecutive in visiting order |
| OatPasses.ThreePasses | android_art-xposed-lollipop-mr1/compiler/oat_writer.cc:815-831 | after the three map passes each header holds 0 - offset for every map it has and 0 for the others |
| OatPasses.CorrectedHeader | android_art-xposed-lollipop-mr1/compiler/oat_writer.cc:386-413 | correcting these fields by the code offset gives the distances of the final header |
| OatPasses.VisitCodePlanned | android_art-xposed-lollipop-mr1/compiler/oat_writer.cc:366-384 | visiting a method gives it the planned code offset, whether it is new or found in the dedupe map |
| OatPasses.CodeWriteStep | android_art-xposed-lollipop-mr1/compiler/oat_writer.cc:589-645 | a visit that lost nothing has written padding always and header and code only at a first occurrence, and is where the plan says |
| OatPasses.MapWriteStep | android_art-xposed-lollipop-mr1/compiler/oat_writer.cc:670-700 | a visit that lost nothing has written a map only at its first occurrence, at its planned offset |
| OatPasses.CompleteKept | android_art-xposed-lollipop-mr1/compiler/oat_writer.cc:899-982 | a complete file stays complete under any changes behind its end |
| OatWriter.OatWriter.constructor | android_art-xposed-lollipop-mr1/compiler/oat_writer.cc:51-133 | after all Init passes every header, code offset, class offset and dex file offset is the planned one, and the counters hold exactly the padding between dex files |
| OatWriter.OatWriter.InitDexFiles | android_art-xposed-lollipop-mr1/compiler/oat_writer.cc:776-791 | dex files get the planned 4-aligned offsets and the padding is counted |
| OatWriter.OatWriter.UpdateOatDexFiles | android_art-xposed-lollipop-mr1/compiler/oat_writer.cc:801-812 | each dex file receives the offsets of its own classes, and all are handed out |
| OatWriter.OatWriter.InitMap | android_art-xposed-lollipop-mr1/compiler/oat_writer.cc:510-536 | offset, header field and dedupe map are those of the plan, for new and repeated maps alike |
| OatWriter.OatWriter.InitMaps | android_art-xposed-lollipop-mr1/compiler/oat_writer.cc:503-542 | the pass ends where the plan ends and has recorded every map |
| OatWriter.OatWriter.InitOatCode | android_art-xposed-lollipop-mr1/compiler/oat_writer.cc:833-878 | code starts on a page boundary and the gap is recorded |
| OatWriter.OatWriter.InitCode | android_art-xposed-lollipop-mr1/compiler/oat_writer.cc:347-495 | offset, dedupe map, header and code offset after one method are those of the specification |
| OatWriter.OatWriter.InitOatCodeDexFiles | android_art-xposed-lollipop-mr1/compiler/oat_writer.cc:880-897 | the pass ends where the plan ends with every header and code offset final |
| OatWriter.OatWriter.WriteMap | android_art-xposed-lollipop-mr1/compiler/oat_writer.cc:670-700 | one visit writes what the specification says and moves as far, for a new, a repeated and an empty map |
| OatWriter.OatWriter.WriteMaps | android_art-xposed-lollipop-mr1/compiler/oat_writer.cc:660-709 | after a successful pass that started on its plan the stream is not beyond the planned end, and if it is there, whatever the sink did, every distinct map is in the file once at its planned offset |
| OatWriter.OatWriter.WriteCode | android_art-xposed-lollipop-mr1/compiler/oat_writer.cc:589-645 | one visit writes padding, header and code as the specification says, and counts every byte |
| OatWriter.OatWriter.WriteCodeDexFiles | android_art-xposed-lollipop-mr1/compiler/oat_writer.cc:1088-1105 | after a successful pass that is at its planned end every distinct code with its header is in the file once at its planned offset; a pass that starts too early ends where planned if alignment takes the first code to its place; the counters grew by the bytes passed |
| OatWriter.OatWriter.WriteDexEntry | android_art-xposed-lollipop-mr1/compiler/oat_writer.cc:1134-1166 | the entry of a dex file does to the stream, for every pattern of faults, what its five writes in a row do up to the first that fails, and counts every byte |
| OatWriter.OatWriter.WriteDexFiles | android_art-xposed-lollipop-mr1/compiler/oat_writer.cc:991-1007 | one checked seek and one write per dex file in a row, up to the first that fails, for every pattern of faults; the padding was counted before |
| OatWriter.OatWriter.WriteClass | android_art-xposed-lollipop-mr1/compiler/oat_writer.cc:1260-1292 | status, type, bitmap if needed, and code offsets in a row, up to the first write that fails, all counted |
| OatWriter.OatWriter.WriteTrampolines | android_art-xposed-lollipop-mr1/compiler/oat_writer.cc:1057-1086 | if the stream is at the planned end every trampoline is at its planned offset, although no seek is checked |
| OatWriter.OatWriter.WriteAllMaps | android_art-xposed-lollipop-mr1/compiler/oat_writer.cc:1017-1042 | if the stream is at the planned end all three kinds of maps are in the file |
| OatWriter.OatWriter.WriteAllCode | android_art-xposed-lollipop-mr1/compiler/oat_writer.cc:1044-1105 | if the stream is at size_, it was on its plan before, and all trampolines and code are in the file |
| OatWriter.OatWriter.WriteHeaderAndTables | android_art-xposed-lollipop-mr1/compiler/oat_writer.cc:899-913 | for every pattern of faults, stream and result are those of the header, five writes per dex file, a seek and a write per dex file, and three or five writes per class, up to the first call that fails; the counters add up |
| OatTables.ListTried | android_art-xposed-lollipop-mr1/compiler/oat_writer.cc:984-1015 | whatever the sink does: of a list of pieces that succeeds, all are in their places if the position is where it should be, and it is if all pieces are small or no write failed |
| OatTables.DexTried | android_art-xposed-lollipop-mr1/compiler/oat_writer.cc:991-1007 | whatever the sink does and wherever the stream stood: after a success every dex file is at its planned offset, whatever lies in the gaps |
| OatTables.TablesAreTried | android_art-xposed-lollipop-mr1/compiler/oat_writer.cc:899-913 | what the header and all tables come to whatever the sink does: complete if neither the dex file entries nor the classes have lost a byte, which small pieces cannot; and if all faults are used up when the entries are done, the rest succeeds and leaves what is in front of the dex files |
| OatWriter.OatWriter.WriteRest | android_art-xposed-lollipop-mr1/compiler/oat_writer.cc:915-982 | a true result with an end below 2^32 - 1 means that all maps and code are there, whatever the sink did, if the tables ended where planned; if they ended earlier and the first code is put in its place nevertheless, the result is true, and only the code part is written |
| OatWriter.OatWriter.Write | android_art-xposed-lollipop-mr1/compiler/oat_writer.cc:899-982 | if the result is true and either no write to the sink failed, or nothing was pending, no piece of a table exceeds the buffer and the end is below 2^32 - 1, then everything planned is in the file, nothing outside it changed, the position is at size_, the counters add up to size_, and nothing is left in the buffer; and if all faults are used up within the header and the dex file entries, or within the tables with a loss that alignment hides, the result is true and the file holds of that part what the calls left |
| OatReader.SharedHeaderFits | android_art-xposed-lollipop-mr1/compiler/oat_writer.h:308-325 | the header of the first method with the same code and maps has the right code size and map distances for every later one, though not its frame size |
| OatReader.MethodDecodes | android_art-xposed-lollipop-mr1/runtime/oat_file-inl.h:24-154 | in a complete file, following a method's code offset (low bit cleared) to the header before the code, and back from the code by a recorded distance, reads the method's own code, code size and map |
| BitVector.CountSetBits | android_art-xposed-lollipop-mr1/runtime/base/bit_vector.cc:383-395 | counting whole words and a masked last word counts the set bits below the end |
| BitVector.IsBitSetIs | android_art-xposed-lollipop-mr1/runtime/base/bit_vector.cc:378-381 | the masked word is not 0 exactly if the bit is stored |
| OatLookup.BitsCounted | android_art-xposed-lollipop-mr1/runtime/oat_file.cc:562-579 | counting set bits of a class bitmap, word by word from the bytes of the file, counts the compiled methods before an index, and a bit is set exactly for a compiled method |
| OatLookup.ClassEntryReads | android_art-xposed-lollipop-mr1/runtime/oat_file.cc:477-579 | looking a method up in a class entry of any of the three types yields the offset written for it, or none if it is not compiled |
| OatLookup.HeaderReads | android_art-xposed-lollipop-mr1/runtime/oat_file.cc:239-262 | the number of dex files and the start of the dex file table, read from the oat header, are those that were written |
| OatLookup.WalkArrives | android_art-xposed-lollipop-mr1/runtime/oat_file.cc:262-361 | the walk over the dex file table arrives at every entry |
| OatLookup.DexFileFound | android_art-xposed-lollipop-mr1/runtime/oat_file.cc:262-361 | the walk, which takes the number of class defs from the dex header in the file, finds each dex file's location, bytes and class offsets |
| OatLookup.MethodReached | android_art-xposed-lollipop-mr1/runtime/oat_file.cc:239-579 | in a complete file the search, which starts from the first byte of the oat file and takes the number of dex files and the end of the header from its bytes, ends at the own code, code size and maps of the method with the given 16-bit class def index, or at nothing if it is not compiled |
| OatRoundTrip.WriteOat | android_art-xposed-lollipop-mr1/compiler/oat_writer.cc:899-982 | for every input and every pattern of sink faults, if planning and writing returns true under the condition of Write, the file is complete and every method of every class of every dex file is found in it, from its first byte on, with its own code and maps |
| OatTorn.WriteTorn | android_art-xposed-lollipop-mr1/compiler/buffered_output_stream.cc:26-30 | on every sink that refuses the flush in front of an oversized piece of a dex file entry and holds another byte where the entries end, Write returns true and the file is not complete, for any number of dex files |
| OatTorn.TearsExactly | android_art-xposed-lollipop-mr1/compiler/oat_writer.cc:1134-1166 | such a sink exists if and only if a location or the class offsets of a dex file exceed the buffer; with Write this makes it exact when a true result can be trusted on every sink, if nothing is pending and the pieces of classes are small |
| OatTorn.TearingSink | android_art-xposed-lollipop-mr1/compiler/buffered_output_stream.cc:26-30 | it can be a file or a vector, at any position: its faults are as many successes as the calls before the piece demand, and one failure |
| OatHidden.WriteHidden | android_art-xposed-lollipop-mr1/compiler/oat_writer.cc:915-979 | on every sink that refuses the flush in front of an oversized piece of a class, if there are neither maps nor trampolines and the bytes lost are fewer than the alignment of the code makes up for, Write returns true although the class table is incomplete |
| OatHidden.InputHides | android_art-xposed-lollipop-mr1/compiler/oat_writer.cc:1260-1292 | a class of 2049 native methods behind a dex file of 8300 bytes is such an input: four bytes are lost |
| StringPacking.LexTotal | android_art-xposed-lollipop-mr1/compiler/image_writer.cc:496-509 | the comparison of substrings is a total order |
| StringPacking.OneProbe | android_art-xposed-lollipop-mr1/compiler/image_writer.cc:557-573 | in a sorted set, the lower bound of a string extends it if and only if any member does |
| StringPacking.StoreStep | android_art-xposed-lollipop-mr1/compiler/image_writer.cc:581-584 | storing a string that has no host keeps the set sorted and free of prefixes, and the array exactly as long as its members |
| StringPacking.HostStep | android_art-xposed-lollipop-mr1/compiler/image_writer.cc:573-580 | rolling the array back loses nothing a member or the string needs |
| StringPacking.LowerBound | android_art-xposed-lollipop-mr1/compiler/image_writer.cc:496-509 | the probe through a comparator that reads the array under construction finds the first member not below the string |
| StringPacking.IsPrefixAt | android_art-xposed-lollipop-mr1/compiler/image_writer.cc:566-571 | the comparison loop decides whether the string is at the offset |
| StringPacking.FindHost | android_art-xposed-lollipop-mr1/compiler/image_writer.cc:557-573 | a host is reported if and only if the string is a prefix of a stored string, and the length check never fails |
| StringPacking.PackOne | android_art-xposed-lollipop-mr1/compiler/image_writer.cc:550-586 | one round keeps the array and the set consistent, appends only strings without a host, and stays within the array |
| StringPacking.CoveringIsMaximal | android_art-xposed-lollipop-mr1/compiler/image_writer.cc:539-586 | the stored strings are exactly the distinct strings that are not a proper prefix of another |
| StringPacking.ProcessStrings | android_art-xposed-lollipop-mr1/compiler/image_writer.cc:511-594 | every string is found unchanged at its offset, equal strings have equal offsets, and the array is exactly as long as the distinct strings that are not a proper prefix of another, whatever order equally long strings are taken in |
| ImageStrings.PrepareStrings | android_art-xposed-lollipop-mr1/compiler/image_writer.cc:511-594 | afterwards every String object of the heap has the one new array, reads its own characters from it at its offset, and equal strings have equal references and equal data; nothing else changed |
| ImageBins.ForwardRoundTrip | android_art-xposed-lollipop-mr1/runtime/lock_word.h:91-94 | a 4-aligned 32-bit value put into a lock word in the forwarding state reads back |
| ImageBins.PackRoundTrip | android_art-xposed-lollipop-mr1/compiler/image_writer.cc:1264-1285 | bin and index below 2^29 read back from a slot word |
| ImageBins.PackedStep | android_art-xposed-lollipop-mr1/compiler/image_writer.cc:369-387 | putting an object at the end of its bin keeps the bins aligned, without overlap and without gaps |
| ImageBins.OffsetsApart | android_art-xposed-lollipop-mr1/compiler/image_writer.cc:221-231 | objects with different representatives get disjoint places in the image |
| ImageBins.OffsetFits | android_art-xposed-lollipop-mr1/compiler/image_writer.cc:221-231 | places are 8-aligned and inside the object area |
| ImageWalk.AssignStep | android_art-xposed-lollipop-mr1/compiler/image_writer.cc:248-278 | giving an object a slot keeps every other slot and every saved hash code |
| ImageWalk.AliasStep | android_art-xposed-lollipop-mr1/compiler/image_writer.cc:739-748 | pointing a duplicate at the interned string's slot keeps everything else |
| ImageWalk.MovedStep | android_art-xposed-lollipop-mr1/compiler/image_writer.cc:198-219 | turning one slot into an offset hands on at most one saved hash code, to the right object |
| ImageWalk.NothingLeft | android_art-xposed-lollipop-mr1/compiler/image_writer.cc:911-917 | once all objects are moved no saved hash code is left |
| ImageWriter.ChooseBin | android_art-xposed-lollipop-mr1/compiler/image_writer.cc:301-368 | the nested tests and the loop over static fields choose the bin of the classification |
| ImageWriter.ImageWriter.SetImageBinSlot | android_art-xposed-lollipop-mr1/compiler/image_writer.cc:248-278 | the slot replaces the lock word and a hash code is saved under the slot |
| ImageWriter.ImageWriter.AssignImageBinSlot | android_art-xposed-lollipop-mr1/compiler/image_writer.cc:280-387 | only the object's own lock word changes and all invariants of the bins hold |
| ImageWriter.ImageWriter.CalculateObjectBinSlots | android_art-xposed-lollipop-mr1/compiler/image_writer.cc:730-753 | afterwards the object has a slot, and no lock word that held one has changed |
| ImageWriter.ImageWriter.WalkFieldsInOrder | android_art-xposed-lollipop-mr1/compiler/image_writer.cc:810-867 | terminates on every object graph; an object entered for the first time has its instance fields, from the topmost class down, the words its class describes as static fields, and its array elements assigned as well; assigned lock words never change, and only objects that can be reached this way are assigned |
| ImageWriter.StaticIsMissed | android_art-xposed-lollipop-mr1/compiler/image_writer.cc:844-853 | a class with a static field: walking it does not get to the object the field refers to, since the layout is taken from the class of the class |
| ImageWriter.StaticsVisited | android_art-xposed-lollipop-mr1/compiler/image_writer.cc:844-853 | where both layouts coincide, as for java.lang.Class itself, all references of an object have been visited |
| ImageWriter.ImageWriter.WalkAll | android_art-xposed-lollipop-mr1/compiler/image_writer.cc:869-873 | after visiting the heap every object has a slot |
| ImageWriter.ImageWriter.GetBinSizeSum | android_art-xposed-lollipop-mr1/compiler/image_writer.cc:1259-1262 | the sum of the sizes of the bins before one |
| ImageWriter.TotalFits | android_art-xposed-lollipop-mr1/compiler/image_writer.cc:1259-1262 | under the stated bounds no such sum overflows the int it is accumulated in |
| ImageWriter.ImageWriter.SetImageOffset | android_art-xposed-lollipop-mr1/compiler/image_writer.cc:198-219 | the offset replaces the slot, and a hash code saved under the slot moves on to the list |
| ImageWriter.ImageWriter.UnbinObjectsIntoOffset | android_art-xposed-lollipop-mr1/compiler/image_writer.cc:881-891 | one more object has its offset, computed from the slot alone |
| ImageWriter.ImageWriter.CalculateNewObjectOffsets | android_art-xposed-lollipop-mr1/compiler/image_writer.cc:893-918 | all objects are placed: aligned, inside the image, disjoint unless they are duplicates of one interned string, which share its offset; the used span is the sum of the rounded sizes; no saved hash code is left |
| ImageWriter.ImageWriter.CopyAndFixupObjects | android_art-xposed-lollipop-mr1/compiler/image_writer.cc:956-1074 | every place holds the copy of the last object there, with references translated and the rest of its data as it was; the objects at one place find their lock words preserved if and only if they had the same one |
| ImageWriter.PreservedIfUniform | android_art-xposed-lollipop-mr1/compiler/image_writer.cc:198-219 | hash codes survive exactly where the objects that share a place agree on them, in particular for an object alone at its place |
| ImageGraph.CopyStep | android_art-xposed-lollipop-mr1/compiler/image_writer.cc:973-996 | copying one more object replaces at most an earlier copy at the same place |
| ImageGraph.GraphKept | android_art-xposed-lollipop-mr1/compiler/image_writer.cc:998-1074 | following any path of references in the image arrives where it does in the heap, if and only if the objects that share a place refer to the same places |
| ImageGraph.TwinsKept | android_art-xposed-lollipop-mr1/compiler/image_writer.cc:739-748 | if duplicates of an interned string have equal references and data, every path arrives and every place holds a copy of each object there, up to lock words |
| ImageWriter.WriteImage | android_art-xposed-lollipop-mr1/compiler/image_writer.cc:893-996 | for every heap: layout, lock words and reference graph of the image as a whole, with the exact conditions for the last two; on a heap prepared by ProcessStrings the graph and all data but lock words are preserved |
| ImageWriter.TwinsLose | android_art-xposed-lollipop-mr1/compiler/image_writer.cc:739-748 | two equal strings that share one character array and have different hash codes: in the image one hash code is not preserved |
| ElfHash.BionicFold | android_art-xposed-lollipop-mr1/compiler/elf_writer_quick.cc:715-727 | bionic's way of folding the high nibble is that of the ABI |
| ElfHash.ElfHashOf | android_art-xposed-lollipop-mr1/compiler/elf_writer_quick.cc:715-727 | the result is the ABI's hash of the name up to its first NUL, with the high nibble clear |
| ElfHash.LastOf | android_art-xposed-lollipop-mr1/compiler/elf_writer_quick.cc:794-799 | following a chain terminates at its last symbol and every index met is in range |
| ElfHash.AddSymbol | android_art-xposed-lollipop-mr1/compiler/elf_writer_quick.cc:786-806 | the new symbol becomes the last of its bucket, one zero cell is replaced by its index, and its own cell is still empty |
| ElfHash.GenerateHashContents | android_art-xposed-lollipop-mr1/compiler/elf_writer_quick.cc:729-809 | the table is the hash table of the symbols; each index occurs exactly once and zero once more than there are buckets |
| ElfHash.BucketWalk | android_art-xposed-lollipop-mr1/compiler/elf_writer_quick.cc:730-760 | walking a bucket meets exactly the symbols that hash to it |
| ElfHash.MembersAre | android_art-xposed-lollipop-mr1/compiler/elf_writer_quick.cc:730-760 | these are listed once each and in rising order |
| ElfHash.GetSym | android_art-xposed-lollipop-mr1/compiler/elf_writer_quick.cc:747-757 | the documented lookup terminates and returns the first symbol of the name, or none exactly if there is none |
| ElfSymbols.FindDynamicSymbol | android_art-xposed-lollipop-mr1/runtime/elf_file.cc:670-812 | the runtime's lookup, from the bytes of the tables, returns the first symbol of the name if no symbol before it in its bucket has an index from the number of buckets on, and 0 otherwise |
| ElfSymbols.ChainIsCut | android_art-xposed-lollipop-mr1/runtime/elf_file.cc:688-696 | three symbols in one of two buckets: the third is in the table and is not found |
| ElfSymbols.LostSymbol | android_art-xposed-lollipop-mr1/runtime/elf_file.cc:688-696 | the symbols a, c and e are such: e is not found |
| ElfSymbols.HashParity | android_art-xposed-lollipop-mr1/runtime/elf_file.cc:752-764 | the lowest bit of a hash is that of the last character of the name |
| ElfSymbols.OatSymbolReached | android_art-xposed-lollipop-mr1/runtime/elf_file.cc:786-812 | oatdata, oatexec and oatlastword are all found, although two share a bucket |
| ElfLoader.Load | android_art-xposed-lollipop-mr1/runtime/elf_file.cc:1042-1245 | the tables found are those that the last entries with their tags in the section of the dynamic program header point to, provided that section and all pointers are in a loaded segment or in the range reserved for all of them |
| ElfLoader.OpenOat | android_art-xposed-lollipop-mr1/runtime/oat_file.cc:204-237 | oat data begins at the value of oatdata and ends behind oatlastword |
| ElfContents.TablesLoaded | android_art-xposed-lollipop-mr1/compiler/elf_writer_quick.cc:524-567 | the program headers and .dynamic that the builder writes lead the loader to .hash, .dynsym and .dynstr |
| ElfContents.SymbolsLinked | android_art-xposed-lollipop-mr1/compiler/elf_writer_quick.cc:623-701 | the symbol, string and hash tables in the file have the three symbols under their names; oatdata has the offset of .rodata and oatlastword that of the last word of .text |
| ElfStrings.GenerateStrtab | android_art-xposed-lollipop-mr1/compiler/elf_writer_quick.cc:691-701 | every st_name reads back its name up to its first NUL, and the whole name if it has none |
| ElfStrings.Appended | android_art-xposed-lollipop-mr1/compiler/elf_writer_quick.cc:703-712 | appending a name and a NUL, as for section names and the SONAME, keeps all names readable and adds the new one |
| ElfLayout.AssignOffsets | android_art-xposed-lollipop-mr1/compiler/elf_writer_quick.cc:401-515 | each section starts at the first aligned offset behind the one before it |
| ElfLayout.SectionWithin | android_art-xposed-lollipop-mr1/compiler/elf_writer_quick.cc:34-36 | section offsets are aligned and inside the section area |
| ElfLayout.NoOverlap | android_art-xposed-lollipop-mr1/compiler/elf_writer_quick.cc:139-147 | no two pieces of the file overlap, headers and section header table included |
| ElfLayout.OrderIrrelevant | android_art-xposed-lollipop-mr1/compiler/elf_writer_quick.cc:139-147 | pieces that do not overlap make the same file in whatever order they are written |
| ElfLayout.WriteOutFile | android_art-xposed-lollipop-mr1/compiler/elf_writer_quick.cc:139-147 | for every pattern of faults: a true result means the file is that of the pieces written in order |
| ElfLayout.TextFollows | android_art-xposed-lollipop-mr1/compiler/elf_writer_quick.cc:426-438 | .text starts exactly where .rodata ends, on a page boundary |
| ElfLayout.OneWrite | android_art-xposed-lollipop-mr1/compiler/elf_writer_quick.cc:95-137 | one write of .rodata and .text together is a write of each in its place |
| ElfLayout.FileIs | android_art-xposed-lollipop-mr1/compiler/elf_writer_quick.cc:569-605 | the file written in the source's order, with .rodata and .text as the one piece that OatWriter writes, holds every section at its sh_offset, provided .rodata ends on a page boundary |
| ElfLayout.OrderOfSource | android_art-xposed-lollipop-mr1/compiler/elf_writer_quick.cc:95-137 | writing .rodata and .text as that one piece makes the same file as writing each in its section |
| ElfOat.RodataAligned | android_art-xposed-lollipop-mr1/compiler/elf_writer_quick.cc:438 | the page check behind .rodata never fires, since the executable part of an oat file starts on a page boundary |
| ElfOat.Build | android_art-xposed-lollipop-mr1/compiler/elf_writer_quick.cc:240-567 | if and only if all offsets fit 32 bits, program headers, .dynamic, .dynsym, .dynstr and .hash are filled in so that they point at one another and at .rodata and .text |
| ElfOat.WriteFile | android_art-xposed-lollipop-mr1/compiler/elf_writer_quick.cc:569-613 | with the oat file written in place as one of the pieces, a true result under the condition of Write means that all tables and a complete oat file are there |
| ElfOat.RoundTrip | android_art-xposed-lollipop-mr1/runtime/oat_file.cc:204-361 | for every oat file that fits and every pattern of faults: if writing the ELF file succeeds under the condition of Write, opening it finds the range of the oat file from the bytes alone, and in it every method with its own code and maps; it fails only if a write failed or the file does not fit |
| ElfStripper.SelectSections | android_art-xposed-lollipop-mr1/compiler/elf_stripper.cc:77-96 | reading headers and names from the file: the kept sections are those without a name and those not named .debug*, .strtab or .symtab, in order; it fails exactly if a section other than the null section has no name |
| ElfStripper.IndexStays | android_art-xposed-lollipop-mr1/compiler/elf_stripper.cc:122-129 | a section index, such as e_shstrndx, which is not updated, means the same section afterwards if and only if no section up to it is dropped |
| ElfStripper.NamesLost | android_art-xposed-lollipop-mr1/compiler/elf_stripper.cc:122-129 | if the table of names is the last section, its old index is within the new table if and only if nothing was dropped |
| ElfStripper.StaleIndex | android_art-xposed-lollipop-mr1/compiler/elf_writer_quick.cc:473-512 | ten sections with .symtab and .strtab in front of .shstrtab: .shstrtab is kept, and index 9 is no section of the stripped file |
| ElfStripper.NamesOfStripped | android_art-xposed-lollipop-mr1/compiler/elf_stripper.cc:77-129 | from the bytes: the names of a stripped file can be found if and only if nothing was dropped, and a file that lost a section cannot be stripped again |
| ElfStripper.MovesForward | android_art-xposed-lollipop-mr1/compiler/elf_stripper.cc:106-113 | a kept section never has to move towards the end of the file |
| ElfStripper.HeadersStay | android_art-xposed-lollipop-mr1/compiler/elf_stripper.cc:101-105 | the old section headers, which are read from the mapped file while sections move, are still there after a change below them |
| ElfStripper.MemMove | android_art-xposed-lollipop-mr1/compiler/elf_stripper.cc:114-119 | a move towards the front is right even if source and target overlap |
| ElfStripper.StripStep | android_art-xposed-lollipop-mr1/compiler/elf_stripper.cc:101-120 | moving one section disturbs neither those already in place nor those still to be moved |
| ElfStripper.Strip | android_art-xposed-lollipop-mr1/compiler/elf_stripper.cc:32-130 | the section headers that the new ELF header leads to are those of the kept sections with only their offsets changed; every kept section has its bytes and alignment, as far to the front as alignment allows; the new table follows the last section and fits in the old file; e_shstrndx is as it was; if a check fails nothing has changed |
| ElfFixup.FixupComposes | android_art-xposed-lollipop-mr1/compiler/elf_fixup.cc:31-65 | with all checks: where the file can be moved to either address, moving to the first and then to the second has the outcome of moving to the second at once, if and only if no section or symbol address becomes 0 at the first, or both addresses are the same and not 0 |
| ElfFixup.VanishedSection | android_art-xposed-lollipop-mr1/compiler/elf_fixup.cc:86-102 | a file with a section moved to address 0 and a program header: both ways succeed and differ |
| ElfFixup.SecondSucceeds | android_art-xposed-lollipop-mr1/compiler/elf_fixup.cc:31-65 | a file that has been moved can be moved again if and only if it could have gone there at once and oatdata is not at 0 |
| ElfFixup.OtherAddress | android_art-xposed-lollipop-mr1/compiler/elf_fixup.cc:104-123 | a file that can go to one address can go to another if and only if the alignments of all program headers divide the distance it moves |
| ElfFixup.OatDataLands | android_art-xposed-lollipop-mr1/compiler/elf_fixup.cc:36-38 | after a fixup oatdata is at the requested address |
| ElfFixup.SecondCheck | android_art-xposed-lollipop-mr1/compiler/elf_fixup.cc:104-123 | a program header that passed the first mask passes the second if and only if the distance is a multiple of its alignment, for every power of two |
| ElfFixup.ElfFile.FixupDynamic | android_art-xposed-lollipop-mr1/compiler/elf_fixup.cc:68-84 | exactly the dynamic entries that are pointers are moved |
| ElfFixup.ElfFile.FixupSectionHeaders | android_art-xposed-lollipop-mr1/compiler/elf_fixup.cc:86-102 | exactly the non-zero section addresses are moved |
| ElfFixup.ElfFile.FixupProgramHeaders | android_art-xposed-lollipop-mr1/compiler/elf_fixup.cc:104-123 | succeeds if and only if all checks pass, with the mask of the source for any p_align, and then both addresses of every header are moved |
| ElfFixup.ElfFile.FixupSymbols | android_art-xposed-lollipop-mr1/compiler/elf_fixup.cc:125-147 | exactly the non-zero symbol values are moved |
| ElfFixup.ElfFile.FixupRelocations | android_art-xposed-lollipop-mr1/compiler/elf_fixup.cc:149-176 | every relocation offset is moved |
| ElfFixup.ElfFile.GetOatDataAddress | android_art-xposed-lollipop-mr1/compiler/elf_writer.cc:33-39 | the address of the first symbol called oatdata, or 0 |
| ElfFixup.ElfFile.FixupAll | android_art-xposed-lollipop-mr1/compiler/elf_fixup.cc:31-65 | succeeds if and only if there is a usable oatdata symbol and all program headers pass, and then the file is moved as a whole |
| Membased.RunKeeps | Xposed-master/xposed_service.cpp:152-289 | in every run of one server and one client, with stray wakeups and timeouts, at most one thread has the mutex, no thread sleeps through the state it waits for unless the other is about to signal, and every request is served once, in order, as it was sent |
| Membased.NeverStuck | Xposed-master/xposed_service.cpp:152-267 | while a call is in progress some thread can take a step other than a stray wakeup, so no reachable state is deadlocked |
| Membased.AnswersOwn | Xposed-master/xposed_service.cpp:251-289 | what a call returns is the response to its own last request, or the EBUSY that the client itself put there |
| Membased.StableWhileReading | Xposed-master/xposed_service.cpp:286-288 | nothing changes error or result while the client reads them after unlocking |
| Membased.LooperWrites | Xposed-master/xposed_service.cpp:160-217 | the server writes error and result only while a request is pending and it holds the mutex |
| Membased.ClientWrites | Xposed-master/xposed_service.cpp:251-256 | the client never writes the result, and writes the error only while it has the mutex and no request is pending: 0 with a request, EBUSY after an answer |
| Membased.StaysRunning | Xposed-master/xposed_service.cpp:152-221 | the state never returns to not running |
| Membased.CallReturns | Xposed-master/xposed_service.cpp:228-289 | from every reachable state, a run without stray wakeups and new calls has at most 34 steps, and when it can go no further the client is back outside |
| MembasedReadFile.ChunkIs | Xposed-master/xposed_service.cpp:178-206 | a request meets the end of the file if and only if it is the last one needed, also if the size is a multiple of the chunk size |
| MembasedReadFile.ReadFile | Xposed-master/xposed_service.cpp:314-371 | for every file, every st_size and every fate of the requests: the first copy overruns the buffer exactly if FirstCopy says so; otherwise the error is the first one reported, or EBUSY if a later copy would go beyond st_size, and nothing is returned with it; without an error the result begins with what the requests delivered, bytesRead is its length, and a zero is at st_size unless the first copy was one byte too long |
| MembasedReadFile.FirstCopy | Xposed-master/xposed_service.cpp:337-340 | the unchecked first copy stays within st_size if and only if one chunk or the whole file does |
| MembasedReadFile.ProcFile | Xposed-master/xposed_service.cpp:337-340 | a file of two bytes whose st_size is 0: the first copy is longer than the buffer |
| MembasedReadFile.BusyExactly | Xposed-master/xposed_service.cpp:342-356 | if nothing fails, the call ends in EBUSY exactly if the file has a full chunk and is longer than its st_size |
| MembasedReadFile.RegularFile | Xposed-master/xposed_service.cpp:332-362 | for a file as long as its st_size the copies stay in bounds and an error-free result has the length of the file |
| MembasedReadFile.NextAnswer | Xposed-master/xposed_service.cpp:178-206 | the next answer is an error, or data that goes beyond st_size, or the next part of what is delivered |
| MembasedReadFile.WholeFile | Xposed-master/xposed_service.cpp:314-371 | what was delivered is the file if and only if it came to its end and every chunk whose seek failed repeats the chunk before it |
| MembasedReadFile.TruthfulExactly | Xposed-master/xposed_service.cpp:195-199 | for all files of a size, a call without an error delivers the file if and only if no seek of the call fails |
| MembasedReadFile.StaleChunk | Xposed-master/xposed_service.cpp:195-199 | two chunks and one failing seek: the first chunk comes back twice, without an error |
| GcMap.WidthSuffices | android_art-xposed-lollipop-mr1/compiler/gc_map_builder.h:29-35 | the width derived from the leading zeros of the maximum holds every offset up to the maximum |
| GcMap.HeaderDecodes | android_art-xposed-lollipop-mr1/runtime/gc_map.h:35-104 | the packed header gives back both widths and the number of entries |
| GcMap.GcMapBuilder.constructor | android_art-xposed-lollipop-mr1/compiler/gc_map_builder.h:29-46 | an empty table with its header |
| GcMap.GcMapBuilder.FindFree | android_art-xposed-lollipop-mr1/compiler/gc_map_builder.h:48-53 | probing terminates at a free slot, and all slots from the home slot to it are taken |
| GcMap.GcMapBuilder.AddEntry | android_art-xposed-lollipop-mr1/compiler/gc_map_builder.h:48-58 | the entry is encoded in a slot that was free, the other slots keep their bytes, and the table stays a hash table for any hash function |
| GcMap.FindBitMap | android_art-xposed-lollipop-mr1/runtime/gc_map.h:66-76 | an offset of the table leads, from the bytes alone, to its own bitmap, if and only if addresses have 32 bits or the offset is below 2^31 |
| GcMap.SignHidesEntry | android_art-xposed-lollipop-mr1/runtime/gc_map.h:40-54 | an entry at 2^31 is in the table and is not found with 64-bit addresses, since its top byte is shifted into the sign of an int |
| GcMap.HasEntry | android_art-xposed-lollipop-mr1/runtime/gc_map.h:56-64 | the search over all slots, from the bytes alone, answers whether some slot decodes to the offset, a free one decoding to 0 |
| GcMap.HasEntryExact | android_art-xposed-lollipop-mr1/runtime/gc_map.h:56-64 | this is the right answer if and only if the offset is not 0, or 0 has been added, or as many entries were added as announced; and the offset can be read back, or was never added |
| GcMap.EmptyTableClaimsZero | android_art-xposed-lollipop-mr1/runtime/gc_map.h:56-64 | a table for one entry to which nothing was added claims an entry for 0 |
| Barrier.RunKeeps | android_art-xposed-lollipop-mr1/runtime/barrier.cc:30-58 | in every run the count is increments minus passes, a blocked thread returns only after all threads have passed, and nobody sleeps on a count of 0 |
| Barrier.ZeroMeans | android_art-xposed-lollipop-mr1/runtime/barrier.cc:79-84 | the count is 0 exactly before the first thread enters and after the last one has |
| Barrier.NobodyLeftAsleep | android_art-xposed-lollipop-mr1/runtime/barrier.cc:44-58 | once all threads have passed nobody is asleep |
| Barrier.NeverStuck | android_art-xposed-lollipop-mr1/runtime/barrier.cc:44-58 | until all threads have returned some thread can go on without a stray wakeup |
| Barrier.AllReturn | android_art-xposed-lollipop-mr1/runtime/barrier.cc:30-58 | runs without stray wakeups are bounded, and one that cannot go on has brought all threads back |

## Left out

- Portable compiler branches, CFI and debug information, checksums and debug logging in `OatWriter`.
- The fields of the oat header besides the number of dex files and the size of the key-value store; the
  two counters for the header and the store are one.
- The frame size and spill masks of a method whose header is shared: the dedupe key does not cover
  them, so only code, code size and maps are claimed.
- What the runtime checks when it opens an oat file besides walking its tables: truncation, empty
  locations, oat and dex magic and version; in `ElfFile::Load`, the file length that a segment needs.
- ElfOat.RoundTrip: ELF files in which an offset exceeds 32 bits are not written by the model, where
  the source goes on with truncated offsets.
- OatWriter.OatWriter.Write: with an oversized piece of a class the condition is not exact; code that is
  repeated is written again when the offset is behind, which can make up for more than alignment does.
- MembasedReadFile.ReadFile: files whose size makes the `int` sums of the source overflow.
- Oat files, images and tables of 4 GiB and more; heaps with a bin above 2^29 bytes or 2^31 bytes in
  all.
- The hash code that a `String` object caches in a field of its own, as opposed to the identity hash
  code in its lock word.
- `prefix_saved_chars` in `ProcessStrings`, which is only logged, and what `FixupMethod` does to
  copied methods; heap objects are visited in index order.
- Contents of section headers, of the debug sections and of most fields of the ELF header in
  `ElfBuilder::Write`, which are blocks of bytes here.
- ELF patching, the MCLinker writer, option parsing and process start-up.
- Several concurrent clients of the Zygote service, files that change during a read, the length
  check on paths, and the Binder half of the service.
- The timed `Increment` and `Init` of `Barrier`, which its header restricts to situations that it
  does not guard.
