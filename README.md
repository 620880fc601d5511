# Target-reported shared libraries (`solib-target`), modelled in Dafny

This project models GDB's `gdb/solib-target.c`, the shared-library back end
used when the target itself reports the list of loaded libraries. The model
covers three parts of that file.

1. **Parsing the library list.** The XML element callbacks fill a vector of
   `lm_info_target` records, and `solib_target_parse_libraries` ties them
   together. A document is modelled as the sequence of callback events it
   produces: `StartList(version?)`, `StartLibrary(name)`, `Segment(addr)`,
   `Section(addr)` and `EndLibrary`.
   - `LibraryList.Step`, `LibraryList.Steps` and `LibraryList.ParseEvents`
     give the meaning of a document as a value.
   - The callback methods mutate `LmInfo.LmInfoTarget` objects in place, as
     the C++ does.
   - `LibraryList.ParseLibraries` runs them in a loop and is proved to agree
     with `ParseEvents`. The parse is all or nothing: any error discards
     every record.
2. **Building the `so_list`.** `solib_target_current_sos` makes one linked
   node per record. Each node gets a bounded `strncpy` copy of the name in
   `so_name` and `so_original_name`. The node takes ownership of the record,
   and the record's name is cleared. `solib_target_free_so` relies on that
   cleared name.
3. **Relocation.** `solib_target_relocate_section_addresses` builds the
   per-library offset table lazily, once. It uses the record's section bases
   (checked against the number of ALLOC sections) or its segment bases
   (through the symbol-file layer's mapper). It computes the node's
   `addr_low`/`addr_high` and moves each section by its offset.

`CORE_ADDR`/`ULONGEST` is `Common.CoreAddr`, a 64-bit unsigned integer. Its
`+` and `-` wrap modulo 2^64 (`Common.Add`, `Common.Sub`).

The `gdb_assert`s at gdb/solib-target.c:381 and 389 hold whenever no
address computation wraps. The one at line 435 needs more: besides no
wrap-around, the last segment of the leading run must not end below the
first segment's file base (with file bases `0x1000, 0x0` moved together to
`0x5000, 0x4000`, the high end `0x4010` is below the low end `0x5000`). The
model states these conditions as preconditions
(`Relocation.SectionRangeDefined`, `Relocation.SegmentRangeFits`) and proves
the asserts from them.

Library names are C byte strings. In the model a name is a `string` in which
each character stands for one byte (`char` in the source), so the bound of
`SO_NAME_MAX_PATH_SIZE` counts bytes.

Some behaviour is reproduced exactly as the code has it:

- **Absolute index at line 374.** In the section-bases branch, the range of
  a section is read at `section_bases[i]`, where `i` is the section's
  ABSOLUTE index. Its offset is read at its position among the ALLOC
  sections (line 384). `Relocation.AbsoluteIndexExample` shows the two
  disagreeing on a file that passes the count check at line 353: a
  non-ALLOC section first, then two ALLOC sections (the second of size 0)
  with two section bases. The first ALLOC section is moved by base 0 but
  reported from base 1.
- **Segment high end has no `- 1`.** In the segment-bases branch, the high
  end is the run's last segment base plus its size plus the delta, with no
  `- 1` (lines 432-434). Unlike the section branch (line 375), it is one past
  the run's last byte (`Relocation.SegmentRangeExample`).
- **Range computed on failure.** The segment range is computed after the
  call to `symfile_map_offsets_to_segments` whether or not that call reports
  failure (lines 405-434); a failure only adds the bad-offsets warning.
- **Count mismatch leaves the range alone.** When the number of section
  bases differs from the number of ALLOC sections, `addr_low`/`addr_high`
  keep their previous values (lines 353-356), which are `(0, 0)` on a fresh
  node.

## Model

| member | source | states |
|---|---|---|
| Common.Add | gdb/solib-target.c:445-446 | unsigned 64-bit addition: exact without carry, reduced by 2^64 with carry |
| Common.Sub | gdb/solib-target.c:415 | unsigned 64-bit subtraction: exact without borrow, raised by 2^64 with borrow |
| LmInfo.LmInfoTarget.constructor | gdb/solib-target.c:31-51 | a new record has the given name, no bases and no offset table |
| LibraryList.Step | gdb/solib-target.c:79-166 | each callback keeps the builder well formed: no records before the root, an open library has a record |
| LibraryList.Steps | gdb/solib-target.c:230-247 | the callbacks applied in document order; the first error stops the parse; the result stays well formed |
| LibraryList.StepsAppend | gdb/solib-target.c:230-247 | parsing `xs + ys` parses `xs` and then `ys` from the resulting state, and an error in `xs` is final |
| LibraryList.ErrorIsFinal | gdb/solib-target.c:230-247 | once a prefix of the document fails, the whole parse fails with that error and no records are kept |
| LibraryList.PhaseAfterStart | gdb/solib-target.c:149-166 | after any accepted event the root element has been opened |
| LibraryList.VersionRejected | gdb/solib-target.c:149-166 | the parse fails with an unsupported-version error for `v` if and only if the root declares version `v` other than "1.0" |
| LibraryList.VersionErrorOnlyAtRoot | gdb/solib-target.c:149-166 | only the root element can produce the version error |
| LibraryList.AcceptedRoot | gdb/solib-target.c:149-166 | a root with no version or version "1.0" starts an empty list, and the rest of the document is parsed from there |
| LibraryList.MixedBasesRejected | gdb/solib-target.c:79-115 | a segment in a library that already has section bases, or a section in one with segment bases, fails the whole parse |
| LibraryList.EndLibraryChecked | gdb/solib-target.c:133-143 | closing a library fails if and only if it has no bases of either kind; otherwise its record is kept unchanged |
| LibraryList.StepsWellFormed | gdb/solib-target.c:79-143 | after any accepted prefix, every closed record has exactly one base kind and the open one never has both |
| LibraryList.ParsedRecordsHaveOneBaseKind | gdb/solib-target.c:79-143 | every record of a successful parse has exactly one non-empty base list |
| LibraryList.ParsedNamesInOrder | gdb/solib-target.c:119-131 | a successful parse has one record per library element, named after it, in document order |
| LibraryList.StepsNames | gdb/solib-target.c:119-131 | after any accepted prefix the records' names are the library names seen so far, in order |
| LibraryList.NamesStep | gdb/solib-target.c:119-131 | an event adds the name of the library it opens and changes no other record's name |
| LibraryList.StartListCallback | gdb/solib-target.c:149-166 | the root is accepted if and only if its version is absent or "1.0" |
| LibraryList.StartLibraryCallback | gdb/solib-target.c:119-131 | appends exactly one fresh record with the name, no bases and no offset table; earlier records are unchanged |
| LibraryList.StartSegmentCallback | gdb/solib-target.c:79-96 | fails if the last record has section bases; otherwise appends the address to its segment bases and changes nothing else |
| LibraryList.StartSectionCallback | gdb/solib-target.c:98-115 | fails if the last record has segment bases; otherwise appends the address to its section bases and changes nothing else |
| LibraryList.EndLibraryCallback | gdb/solib-target.c:133-143 | fails if and only if the last record has no bases |
| LibraryList.HandleEvent | gdb/solib-target.c:79-166 | dispatching one event to its callback fails exactly when `Step` fails, and otherwise leaves the vector's values and the phase as `Step` gives them |
| LibraryList.ParseEvents | gdb/solib-target.c:230-247 | the records of a parse that succeeds and closes the root, else its first error; a document is accepted only if it opens with a root of a supported version |
| LibraryList.RootOpensDocument | gdb/solib-target.c:149-166 | any non-empty event sequence accepted so far starts with a root element whose version is absent or "1.0" |
| LibraryList.ParseLibraries | gdb/solib-target.c:230-247 | returns nothing if and only if the document does not parse; otherwise distinct fresh records whose values are the parse's records, with no offset tables |
| SoName.Nuls | gdb/solib-target.c:274 | definition of the zeroed name buffer `XCNEW` gives: `n` NULs (used by the node constructor's contract) |
| SoName.CString | gdb/solib-target.c:275-280 | the C string read from a buffer: the longest NUL-free prefix, ended by a NUL or by the buffer's end |
| SoName.StrNCpy | gdb/solib-target.c:275-280 | `strncpy` to `n` characters: the C string of the source, cut at `n`, padded with NULs |
| SoName.SoNameBuffer | gdb/solib-target.c:275-280 | the name buffer is `SO_NAME_MAX_PATH_SIZE` characters long and its last one is NUL |
| SoName.CStringOfTerminated | gdb/solib-target.c:275-280 | a NUL-free prefix followed by a NUL reads back as that prefix |
| SoName.SoNameIsBoundedCopy | gdb/solib-target.c:275-280 | a node's name reads back as the library name cut to `SO_NAME_MAX_PATH_SIZE - 1` characters |
| SoName.CStringOfNulFree | gdb/solib-target.c:275-280 | a NUL-free string reads back whole |
| Solib.SoList.constructor | gdb/solib-target.c:274 | a new node has NUL names, no record, an empty range, no object file and no successor |
| Solib.CurrentSos | gdb/solib-target.c:250-300 | with no document or a failed parse, no node; otherwise one fresh node per parsed record, in order, linked from `start`, each with bounded copies of the name and owning its record, whose name is cleared |
| Solib.BuildSoList | gdb/solib-target.c:272-296 | the loop makes one distinct fresh node per record, in order, links each to the next, and leaves every record's name empty |
| Solib.NewNode | gdb/solib-target.c:274-284 | a fresh unlinked node holding the bounded copies of the record's name and owning the record, whose name is then cleared |
| Solib.FreeSo | gdb/solib-target.c:314-322 | a node's record is released only when its name is already empty |
| Solib.FreeSoList | gdb/solib-target.c:314-322 | every node of a linked list whose records' names were handed over, as `CurrentSos` leaves them and relocation keeps them, meets `FreeSo`'s precondition (line 319); walking the list and freeing each node releases every record and keeps the links |
| Relocation.TargetSection.constructor | gdb/solib-target.c:324-326 | a section with its start, end and BFD section index |
| Relocation.Zeros | gdb/solib-target.c:337-339 | definition of the table `xzalloc` gives: `n` zero offsets (used by the contracts of the unrelocated cases) |
| Relocation.AllocsBefore | gdb/solib-target.c:347-351 | the number of ALLOC sections among the first `n` is at most `n` |
| Relocation.AllocCount | gdb/solib-target.c:347-351 | the number of ALLOC sections is at most the number of sections |
| Relocation.NthAlloc | gdb/solib-target.c:365-385 | the k-th ALLOC section exists when there are more than k, and exactly k ALLOC sections precede it |
| Relocation.AllocRankIsPosition | gdb/solib-target.c:365-385 | the number of ALLOC sections before an ALLOC section grows strictly along the file and stays below the ALLOC count |
| Relocation.AllocsBeforeGrows | gdb/solib-target.c:365-385 | an ALLOC section at `i` makes the count before any later `j` larger than the count before `i` |
| Relocation.AllocsBeforeMonotone | gdb/solib-target.c:365-385 | the count of ALLOC sections before `n` does not decrease as `n` grows |
| Relocation.AllocsBeforeBounded | gdb/solib-target.c:365-385 | the count before any `n` is at most the ALLOC count, so the base index stays in bounds |
| Relocation.SectionBaseOffsets | gdb/solib-target.c:365-385 | the section-bases offsets have one entry per section |
| Relocation.SectionBaseOffsetsAt | gdb/solib-target.c:365-385 | an ALLOC section's offset is the base at its position among the ALLOC sections; any other section's offset is 0 |
| Relocation.SectionScan | gdb/solib-target.c:362-382 | the running range starts at `(~0, 0)` and, once any section has counted, has low <= high (the assert at line 381) |
| Relocation.SectionScanIsHull | gdb/solib-target.c:362-382 | a range is found if and only if some ALLOC section has a nonzero size; it is the smallest range holding each such section's extent read at its absolute index |
| Relocation.SectionRangeIsHull | gdb/solib-target.c:362-389 | the reported range is ordered (the assert at line 389), is `(0, 0)` when no ALLOC section has a size, and otherwise runs from the lowest start to the highest last byte |
| Relocation.SectionRange | gdb/solib-target.c:387-389 | the reported range (`(0, 0)` when no section counted) is ordered, the assert at line 389 |
| Relocation.AbsoluteIndexExample | gdb/solib-target.c:353-389 | on a file that passes the count check, with a non-ALLOC section first, the first ALLOC section is moved by base 0 (`0x1000`) but its range is read from base 1 (`0x2000..0x20ff`), with no warning |
| Relocation.CountAllocSections | gdb/solib-target.c:347-351 | the counting loop returns the number of ALLOC sections |
| Relocation.AssignSectionBases | gdb/solib-target.c:358-389 | on a zeroed table, the loop leaves the offsets and the node's range as the section-bases specification gives them |
| Relocation.RunEnd | gdb/solib-target.c:417-428 | the end of the leading run: every segment before it either has no target base or has the first delta, and a segment at the end has a base with another delta |
| Relocation.FirstDelta | gdb/solib-target.c:415 | `orig_delta` moves the first segment's file base onto the target's first segment base, modulo 2^64 |
| Relocation.RunMovesAsUnit | gdb/solib-target.c:411-428 | every segment of the leading run that has a target base is moved by `orig_delta`, and the segment ending the run is not |
| Relocation.SegmentRange | gdb/solib-target.c:431-434 | the reported low is the target's first segment base |
| Relocation.SegmentRangeOrdered | gdb/solib-target.c:415-435 | where the moved end of the run fits, the high end is that end without wrap-around, and low <= high (the assert at line 435) |
| Relocation.SegmentRangeExample | gdb/solib-target.c:415-434 | two segments moved together are reported as one unit up to base + size + delta; moved apart, only the first is reported; segments past the target's bases join the run |
| Relocation.LeadingRunEnd | gdb/solib-target.c:417-428 | the range loop stops where the leading run of equally moved segments ends |
| Relocation.BuiltOffsets | gdb/solib-target.c:333-438 | the built table has one offset per section |
| Relocation.BuiltRange | gdb/solib-target.c:341-439 | building the table keeps the node's range ordered: each branch that computes a range gives an ordered one, and the others keep the previous range |
| Relocation.BuildWarning | gdb/solib-target.c:341-409 | a library warned about for a wrong ALLOC count or for having no segments is left unrelocated: every offset of its table is 0 |
| Relocation.WrongCountLeavesUnrelocated | gdb/solib-target.c:353-356 | with a wrong number of section bases every offset is 0, the range is unchanged and the wrong-count warning is given |
| Relocation.SectionBasesRelocateAllocSections | gdb/solib-target.c:358-389 | with a matching count, the k-th ALLOC section gets the k-th base, in file order, and the other sections get 0 |
| Relocation.SegmentBasesRangeIndependentOfMapping | gdb/solib-target.c:392-438 | with segment bases and a layout, the table is the mapper's and the range is reported whether or not the mapping succeeded; the bad-offsets warning is given exactly when it failed |
| Relocation.BuildOffsetTable | gdb/solib-target.c:333-439 | the first call builds a fresh table, range and warning as the specification functions give them |
| Relocation.RelocateSectionAddresses | gdb/solib-target.c:324-447 | the table is built only on the first call, and later calls keep the table, its contents and the range; the section's start and end move by its offset modulo 2^64 |

## Left out

- XML tokenising, attribute parsing and the DTD (gdb/solib-target.c:185-228): the document is the sequence of callback events it produces. The XML layer checks each element's place before calling its callback, so it never produces an event out of place; `Malformed` stands for such event sequences.
- The build without XML support (gdb/solib-target.c:56-71) always returns no list. It is not modelled.
- Reading the document from the target (`target_read_stralloc`) is I/O. It is the optional `document` input of `Solib.CurrentSos`.
- BFD and the symbol-file layer are foreign code. An object file is its sections in BFD order (ALLOC flag and size) and its optional segment layout. `symfile_map_offsets_to_segments` is the function parameter `mapOffsets`. Its table must have one entry per section, and the model copies it into the offset table whether or not the mapping succeeded.
- SoName.StrNCpy: names are byte strings, one `string` character per byte; how a name's text is encoded into those bytes (UTF-8, where a cut at 511 bytes can split a character) is not modelled.
- The offset table has one entry per BFD section. The four special sections that `gdb_bfd_count_sections` adds are not modelled.
- Warnings are not printed. Each is returned as a ghost value naming the warning.
- Memory management (cleanups, `xzalloc`, `delete`, `VEC_free`) is not modelled. `Solib.FreeSo` states the assertion and drops the node's record.
- `in_plt_section`, `solib_bfd_open` and the empty hooks (gdb/solib-target.c:302-312, 449-464), and the registration at gdb/solib-target.c:468-488, are wiring. They are not modelled.
- `SO_NAME_MAX_PATH_SIZE` is taken as 512. Its definition in solist.h is not part of this model.
- Relocation.RelocateSectionAddresses: requires that wrap-around does not occur where the `gdb_assert`s need it. It does not model what happens when an assert fails. No wrap-around is enough for the asserts but not needed: the preconditions (`Relocation.SectionRangeDefined`, `Relocation.SegmentRangeFits`) also exclude some inputs where an address wraps and yet no assert fails, such as a second sized ALLOC section at `MAX_ADDR` whose wrapped high end is below the first's. `Relocation.SegmentRangeFits` also requires the segment layout condition the assert at line 435 needs: the run's last segment does not end below the first segment's file base.
- LibraryList.ParseEvents, LibraryList.ParseLibraries: a valid list with no `<library>` is `Ok([])` (and `Some([])`), while `solib_target_parse_libraries` returns NULL for it too, since its vector is only allocated by the first push (gdb/solib-target.c:233, 130). The model's distinction between an empty list and a failed parse is finer than the source's; `Solib.CurrentSos` returns no node in both cases, as line 268 does.
- Relocation.SectionRangeDefined: also requires that every ALLOC section of nonzero size has a base at its own index. The code reads `section_bases[i]` without a bounds check, and reading past the end of a `std::vector` is undefined behaviour.
- Solib.CurrentSos: the node list is also returned as a ghost sequence, so that its shape can be stated. `VEC_free` of the vector (not of its records) is not modelled.
