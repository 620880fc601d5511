/**
  `solib_target_relocate_section_addresses`: the per-library offset table,
  built once from the target's section bases or segment bases, the address
  range reported for the library, and the relocation of one section by its
  entry in the table.
 */
module Relocation {
  import opened Common
  import opened Bfd
  import opened LmInfo
  import opened Solib

  /** An `addr_low`/`addr_high` pair of a shared-object node. */
  datatype Range = Range(low: CoreAddr, high: CoreAddr)

  /** Why a library was left unrelocated (the text of the warning printed). */
  datatype RelocationWarning = WrongAllocCount | NoSegments | BadOffsets

  /** A section of the running program as the generic layer holds it. */
  class TargetSection {
    var addr: CoreAddr
    var endaddr: CoreAddr
    /** `gdb_bfd_section_index` of the BFD section it comes from. */
    const index: nat

    constructor (addr: CoreAddr, endaddr: CoreAddr, index: nat)
      ensures this.addr == addr && this.endaddr == endaddr && this.index == index
    {
      this.addr := addr;
      this.endaddr := endaddr;
      this.index := index;
    }
  }

  /** `xzalloc` of an offset table: `n` zero offsets. */
  function Zeros(n: nat): (z: seq<CoreAddr>)
    ensures |z| == n && forall i :: 0 <= i < n ==> z[i] == 0
  {
    seq(n, _ => 0)
  }

  // ---------------------------------------------------------------------
  // Section bases

  /** Number of ALLOC sections among the first `n` sections. */
  function AllocsBefore(secs: seq<BfdSection>, n: nat): (c: nat)
    requires n <= |secs|
    ensures c <= n
  {
    if n == 0 then 0 else AllocsBefore(secs, n - 1) + (if secs[n - 1].alloc then 1 else 0)
  }

  /** Number of ALLOC sections of the file. */
  function AllocCount(secs: seq<BfdSection>): (c: nat)
    ensures c <= |secs|
  {
    AllocsBefore(secs, |secs|)
  }

  /**
    The index of the k-th ALLOC section (counting from 0) among the first
    `n` sections: an ALLOC section with exactly `k` ALLOC sections before it.
   */
  function NthAlloc(secs: seq<BfdSection>, k: nat, n: nat): (i: nat)
    requires n <= |secs| && k < AllocsBefore(secs, n)
    ensures i < n && secs[i].alloc && AllocsBefore(secs, i) == k
  {
    if k < AllocsBefore(secs, n - 1) then NthAlloc(secs, k, n - 1) else n - 1
  }

  /**
    Numbering each ALLOC section by how many ALLOC sections precede it
    gives its position among them: the numbers grow strictly along the
    file and stay below the number of ALLOC sections.
   */
  lemma AllocRankIsPosition(secs: seq<BfdSection>)
    ensures forall i, j :: 0 <= i < j < |secs| && secs[i].alloc ==>
              AllocsBefore(secs, i) < AllocsBefore(secs, j)
    ensures forall i :: 0 <= i < |secs| && secs[i].alloc ==> AllocsBefore(secs, i) < AllocCount(secs)
  {
    forall i, j | 0 <= i < j <= |secs| && secs[i].alloc
      ensures AllocsBefore(secs, i) < AllocsBefore(secs, j)
    {
      AllocsBeforeGrows(secs, i, j);
    }
  }

  lemma {:induction false} AllocsBeforeGrows(secs: seq<BfdSection>, i: nat, j: nat)
    requires i < j <= |secs| && secs[i].alloc
    ensures AllocsBefore(secs, i) < AllocsBefore(secs, j)
  {
    if j > i + 1 {
      AllocsBeforeGrows(secs, i, j - 1);
    }
  }

  /**
    The offsets the section-bases branch assigns to the first `n` sections:
    an ALLOC section gets the next unused base, any other section 0.
   */
  function SectionBaseOffsets(secs: seq<BfdSection>, bases: seq<CoreAddr>, n: nat): (offs: seq<CoreAddr>)
    requires n <= |secs| && AllocsBefore(secs, n) <= |bases|
    ensures |offs| == n
  {
    if n == 0 then []
    else SectionBaseOffsets(secs, bases, n - 1)
           + [if secs[n - 1].alloc then bases[AllocsBefore(secs, n - 1)] else 0]
  }

  /**
    Section `i` gets the base whose index is its position among the ALLOC
    sections, and 0 when it is not ALLOC.
   */
  lemma {:induction false} SectionBaseOffsetsAt(secs: seq<BfdSection>, bases: seq<CoreAddr>, n: nat)
    requires n <= |secs| && AllocsBefore(secs, n) <= |bases|
    ensures forall i :: 0 <= i < n ==>
              if secs[i].alloc
              then AllocsBefore(secs, i) < |bases| && SectionBaseOffsets(secs, bases, n)[i] == bases[AllocsBefore(secs, i)]
              else SectionBaseOffsets(secs, bases, n)[i] == 0
  {
    if n > 0 {
      SectionBaseOffsetsAt(secs, bases, n - 1);
    }
  }

  /**
    The range low and high of a section are read at its ABSOLUTE index in the
    base list (not at its position among the ALLOC sections, which gives its
    offset). This holds of the code only while every ALLOC section of
    nonzero size has a base at its own index and its last byte does not pass
    the top of the address space.
   */
  predicate SectionRangeDefined(secs: seq<BfdSection>, bases: seq<CoreAddr>)
  {
    forall i :: 0 <= i < |secs| && secs[i].alloc && secs[i].size > 0 ==>
      i < |bases| && bases[i] as int + secs[i].size <= ADDR_SPACE
  }

  /** The loop's running state: whether a range was found, and its low and high. */
  datatype Scan = Scan(found: bool, low: CoreAddr, high: CoreAddr)

  /** The range state after the first `n` sections, from `(~0, 0)`. */
  function SectionScan(secs: seq<BfdSection>, bases: seq<CoreAddr>, n: nat): (s: Scan)
    requires n <= |secs| && SectionRangeDefined(secs, bases)
    ensures s.found ==> s.low <= s.high
    ensures !s.found ==> s == Scan(false, MAX_ADDR, 0)
  {
    if n == 0 then Scan(false, MAX_ADDR, 0)
    else
      var s := SectionScan(secs, bases, n - 1);
      var sec := secs[n - 1];
      if sec.alloc && sec.size > 0 then
        var low := bases[n - 1];
        var high := Sub(Add(low, sec.size), 1);
        Scan(true, if low < s.low then low else s.low, if high > s.high then high else s.high)
      else s
  }

  /** The reported range: the scan's, or `(0, 0)` when no section counted. */
  function SectionRange(secs: seq<BfdSection>, bases: seq<CoreAddr>): (r: Range)
    requires SectionRangeDefined(secs, bases)
    ensures r.low <= r.high
  {
    var s := SectionScan(secs, bases, |secs|);
    if s.found then Range(s.low, s.high) else Range(0, 0)
  }

  /** An ALLOC section of nonzero size: one that contributes to the range. */
  predicate Sized(secs: seq<BfdSection>, i: int)
  {
    0 <= i < |secs| && secs[i].alloc && secs[i].size > 0
  }

  /**
    The scan over the first `n` sections finds a range exactly when one of
    them is sized, and then its range is the smallest one holding the
    extent `[bases[i], bases[i] + size - 1]` of each such section.
   */
  lemma {:induction false} SectionScanIsHull(secs: seq<BfdSection>, bases: seq<CoreAddr>, n: nat)
    requires n <= |secs| && SectionRangeDefined(secs, bases)
    ensures var s := SectionScan(secs, bases, n);
            && (s.found <==> exists i :: 0 <= i < n && Sized(secs, i))
            && (forall i :: 0 <= i < n && Sized(secs, i) ==>
                  s.low <= bases[i] && bases[i] as int + secs[i].size - 1 <= s.high)
            && (s.found ==> exists i :: 0 <= i < n && Sized(secs, i) && s.low == bases[i])
            && (s.found ==> exists j :: 0 <= j < n && Sized(secs, j) && s.high == bases[j] as int + secs[j].size - 1)
  {
    if n > 0 {
      SectionScanIsHull(secs, bases, n - 1);
      var s0 := SectionScan(secs, bases, n - 1);
      if Sized(secs, n - 1) {
        var s := SectionScan(secs, bases, n);
        assert s.low == bases[n - 1] || s.low == s0.low;
        assert s.high == bases[n - 1] as int + secs[n - 1].size - 1 || s.high == s0.high;
      }
    }
  }

  /**
    The reported range is ordered, is `(0, 0)` when no ALLOC section has a
    nonzero size, and otherwise runs from the lowest start to the highest
    last byte of those sections.
   */
  lemma SectionRangeIsHull(secs: seq<BfdSection>, bases: seq<CoreAddr>)
    requires SectionRangeDefined(secs, bases)
    ensures var r := SectionRange(secs, bases);
            && r.low <= r.high
            && ((forall i :: !Sized(secs, i)) ==> r == Range(0, 0))
            && (forall i :: Sized(secs, i) ==> r.low <= bases[i] && bases[i] as int + secs[i].size - 1 <= r.high)
            && ((exists i :: Sized(secs, i)) ==>
                  && (exists i :: Sized(secs, i) && r.low == bases[i])
                  && (exists j :: Sized(secs, j) && r.high == bases[j] as int + secs[j].size - 1))
  {
    SectionScanIsHull(secs, bases, |secs|);
  }

  /**
    The offset of a section and the range it contributes are read from
    different bases. A library whose file has a non-ALLOC section first and
    two ALLOC sections, the second of size 0, passes the count check with
    two section bases; its first ALLOC section is relocated by base 0 but
    reported from base 1.
   */
  lemma AbsoluteIndexExample(mapOffsets: SegmentMapper)
    ensures var rec := Record("lib", [], [0x1000, 0x2000]);
            var file := ObjectFile([BfdSection(false, 0x10), BfdSection(true, 0x100), BfdSection(true, 0)], None);
            && AllocCount(file.sections) == |rec.sectionBases|
            && RangeDefined(rec, file) && MapperFits(rec, file, mapOffsets)
            && BuiltOffsets(rec, file, mapOffsets) == [0, 0x1000, 0x2000]
            && BuiltRange(rec, file, Range(0, 0)) == Range(0x2000, 0x20ff)
            && BuildWarning(rec, file, mapOffsets).None?
  {
    var secs := [BfdSection(false, 0x10), BfdSection(true, 0x100), BfdSection(true, 0)];
    var bases: seq<CoreAddr> := [0x1000, 0x2000];
    assert AllocsBefore(secs, 1) == 0 && AllocsBefore(secs, 2) == 1 && AllocCount(secs) == 2;
    assert SectionBaseOffsets(secs, bases, 3) == [0, 0x1000, 0x2000];
    assert SectionScan(secs, bases, 1) == Scan(false, MAX_ADDR, 0);
    assert SectionScan(secs, bases, 3) == Scan(true, 0x2000, 0x20ff);
  }

  /** `num_alloc_sections`: the counting loop. */
  method CountAllocSections(secs: seq<BfdSection>) returns (n: nat)
    ensures n == AllocCount(secs)
  {
    n := 0;
    for i := 0 to |secs|
      invariant n == AllocsBefore(secs, i)
    {
      if secs[i].alloc {
        n := n + 1;
      }
    }
  }

  /**
    The assignment loop of the section-bases branch, on a zeroed table: the
    offsets and the node's range afterwards are those the specification
    functions give.
   */
  method AssignSectionBases(so: SoList, offsets: array<CoreAddr>, secs: seq<BfdSection>, bases: seq<CoreAddr>)
    requires offsets.Length == |secs| && forall k :: 0 <= k < |secs| ==> offsets[k] == 0
    requires AllocCount(secs) == |bases| && SectionRangeDefined(secs, bases)
    modifies so`addrLow, so`addrHigh, offsets
    ensures offsets[..] == SectionBaseOffsets(secs, bases, |secs|)
    ensures Range(so.addrLow, so.addrHigh) == SectionRange(secs, bases)
  {
    var basesIndex := 0;
    var foundRange := false;
    so.addrLow := MAX_ADDR;
    so.addrHigh := 0;
    for i := 0 to |secs|
      invariant basesIndex == AllocsBefore(secs, i) <= |bases|
      invariant offsets[..i] == SectionBaseOffsets(secs, bases, i)
      invariant forall k :: i <= k < |secs| ==> offsets[k] == 0
      invariant SectionScan(secs, bases, i) == Scan(foundRange, so.addrLow, so.addrHigh)
    {
      AllocsBeforeBounded(secs, i + 1);
      if !secs[i].alloc {
        assert offsets[..i + 1] == offsets[..i] + [0];
        continue;
      }
      if secs[i].size > 0 {
        var low := bases[i];
        var high := Sub(Add(low, secs[i].size), 1);
        if low < so.addrLow {
          so.addrLow := low;
        }
        if high > so.addrHigh {
          so.addrHigh := high;
        }
        assert so.addrLow <= so.addrHigh;
        foundRange := true;
      }
      offsets[i] := bases[basesIndex];
      basesIndex := basesIndex + 1;
    }
    assert offsets[..] == offsets[..|secs|];
    if !foundRange {
      so.addrLow, so.addrHigh := 0, 0;
    }
    assert so.addrLow <= so.addrHigh;
  }

  lemma AllocsBeforeBounded(secs: seq<BfdSection>, n: nat)
    requires n <= |secs|
    ensures AllocsBefore(secs, n) <= AllocCount(secs)
  {
    if n < |secs| && secs[n].alloc {
      AllocsBeforeGrows(secs, n, |secs|);
    } else if n < |secs| {
      AllocsBeforeMonotone(secs, n, |secs|);
    }
  }

  lemma {:induction false} AllocsBeforeMonotone(secs: seq<BfdSection>, i: nat, j: nat)
    requires i <= j <= |secs|
    ensures AllocsBefore(secs, i) <= AllocsBefore(secs, j)
  {
    if i < j {
      AllocsBeforeMonotone(secs, i, j - 1);
    }
  }

  // ---------------------------------------------------------------------
  // Segment bases

  /**
    Where the leading run of segments relocated as one unit ends, searching
    from segment `i`: the first segment that has a target base whose delta
    differs from `delta`, or the number of segments. Segments past the
    target's bases continue the run.
   */
  function RunEnd(sb: seq<CoreAddr>, db: seq<CoreAddr>, delta: CoreAddr, i: nat): (e: nat)
    requires i <= |db|
    ensures i <= e <= |db|
    ensures forall k :: i <= k < e ==> k >= |sb| || Sub(sb[k], db[k]) == delta
    ensures e < |db| ==> e < |sb| && Sub(sb[e], db[e]) != delta
    decreases |db| - i
  {
    if i == |db| then i
    else if i < |sb| && Sub(sb[i], db[i]) != delta then i
    else RunEnd(sb, db, delta, i + 1)
  }

  /** `orig_delta`: how far the target moved the first segment. */
  function FirstDelta(sb: seq<CoreAddr>, data: SegmentData): (d: CoreAddr)
    requires |sb| > 0 && data.Valid()
    ensures Add(data.bases[0], d) == sb[0]
  {
    AddSubInverse(sb[0], data.bases[0]);
    Sub(sb[0], data.bases[0])
  }

  /**
    The leading run is the segments relocated as a single unit: every one of
    them the target gave a base for is moved by the first segment's delta,
    and the segment that ends the run is moved by another amount.
   */
  lemma RunMovesAsUnit(sb: seq<CoreAddr>, data: SegmentData)
    requires |sb| > 0 && data.Valid()
    ensures var delta := FirstDelta(sb, data);
            var e := RunEnd(sb, data.bases, delta, 1);
            && (forall k :: 0 <= k < e && k < |sb| ==> Add(data.bases[k], delta) == sb[k])
            && (e < |data.bases| ==> Add(data.bases[e], delta) != sb[e])
  {
    var delta := FirstDelta(sb, data);
    var e := RunEnd(sb, data.bases, delta, 1);
    forall k | 1 <= k < e && k < |sb|
      ensures Add(data.bases[k], delta) == sb[k]
    {
      AddSubInverse(sb[k], data.bases[k]);
    }
    if e < |data.bases| && Add(data.bases[e], delta) == sb[e] {
      SubAddInverse(data.bases[e], delta);
      assert false;
    }
  }

  /**
    The range reported for a library with segment bases: from the target's
    first base to the end of the last segment of the leading run, moved by
    the first segment's delta.
   */
  function SegmentRange(sb: seq<CoreAddr>, data: SegmentData): (r: Range)
    requires |sb| > 0 && data.Valid()
    ensures r.low == sb[0]
  {
    var delta := FirstDelta(sb, data);
    var e := RunEnd(sb, data.bases, delta, 1);
    Range(sb[0], Add(Add(data.bases[e - 1], data.sizes[e - 1]), delta))
  }

  /**
    The end of the leading run, moved by the first delta, is not below the
    first segment's start and does not pass the top of the address space.
   */
  predicate SegmentRangeFits(sb: seq<CoreAddr>, data: SegmentData)
    requires |sb| > 0 && data.Valid()
  {
    var e := RunEnd(sb, data.bases, FirstDelta(sb, data), 1);
    && data.bases[0] <= data.bases[e - 1] as int + data.sizes[e - 1]
    && sb[0] as int + data.bases[e - 1] + data.sizes[e - 1] - data.bases[0] < ADDR_SPACE
  }

  /**
    Where the moved end of the run fits, the reported high end is that end
    without wrap-around, and the range is ordered.
   */
  lemma SegmentRangeOrdered(sb: seq<CoreAddr>, data: SegmentData)
    requires |sb| > 0 && data.Valid() && SegmentRangeFits(sb, data)
    ensures var e := RunEnd(sb, data.bases, FirstDelta(sb, data), 1);
            var r := SegmentRange(sb, data);
            && r.high == sb[0] as int + data.bases[e - 1] + data.sizes[e - 1] - data.bases[0]
            && r.low <= r.high
  {
    var e := RunEnd(sb, data.bases, FirstDelta(sb, data), 1);
    MovedEnd(data.bases[0], sb[0], data.bases[e - 1], data.sizes[e - 1]);
  }

  /**
    The end `last + size` of a segment, moved by the delta from `first` to
    `target`, is exact when it lies between `first` and the top of the
    address space, whatever the intermediate sums wrap.
   */
  lemma MovedEnd(first: CoreAddr, target: CoreAddr, last: CoreAddr, size: CoreAddr)
    requires first <= last + size && target + last + size - first < ADDR_SPACE
    ensures Add(Add(last, size), Sub(target, first)) == target + last + size - first
  {
    var x := Add(last, size);
    var delta := Sub(target, first);
    assert x == last + size || x == last + size - ADDR_SPACE;
    assert delta == target - first || delta == target - first + ADDR_SPACE;
  }

  /**
    Two segments at file bases 0x0 and 0x600 of sizes 0x500 and 0x300: moved
    together by 0x1000 they are reported as one unit ending at
    0x600 + 0x300 + 0x1000; moved apart, only the first is reported.
   */
  lemma SegmentRangeExample()
    ensures var data := SegmentData([0x0, 0x600], [0x500, 0x300]);
            && SegmentRange([0x1000, 0x1600], data) == Range(0x1000, 0x1900)
            && SegmentRange([0x1000, 0x2000], data) == Range(0x1000, 0x1500)
            && SegmentRange([0x1000], data) == Range(0x1000, 0x1900)
  {
    var data := SegmentData([0x0, 0x600], [0x500, 0x300]);
    assert RunEnd([0x1000, 0x1600], data.bases, 0x1000, 1) == 2;
    assert RunEnd([0x1000, 0x2000], data.bases, 0x1000, 1) == 1;
    assert RunEnd([0x1000], data.bases, 0x1000, 1) == 2;
  }

  /** The range loop of the segment-bases branch. */
  method LeadingRunEnd(sb: seq<CoreAddr>, data: SegmentData, delta: CoreAddr) returns (i: nat)
    requires data.Valid()
    ensures i == RunEnd(sb, data.bases, delta, 1)
  {
    i := 1;
    while i < |data.bases|
      invariant 1 <= i <= |data.bases|
      invariant RunEnd(sb, data.bases, delta, i) == RunEnd(sb, data.bases, delta, 1)
      decreases |data.bases| - i
    {
      if i >= |sb| {
        i := i + 1;
        continue;
      }
      if Sub(sb[i], data.bases[i]) != delta {
        break;
      }
      i := i + 1;
    }
  }

  // ---------------------------------------------------------------------
  // The whole table

  /**
    What the code needs of a record and its file to build the table with
    its assertions holding: the file's segment layout is well formed, the
    absolute-index range reads stay inside the section bases without
    wrap-around, and the segment range fits.
   */
  predicate RangeDefined(rec: Record, file: ObjectFile)
  {
    && file.Valid()
    && (rec.sectionBases != [] && AllocCount(file.sections) == |rec.sectionBases| ==>
          SectionRangeDefined(file.sections, rec.sectionBases))
    && (rec.sectionBases == [] && rec.segmentBases != [] && file.segments.Some? ==>
          SegmentRangeFits(rec.segmentBases, file.segments.value))
  }

  /** The segment mapper fills exactly one offset per section. */
  predicate MapperFits(rec: Record, file: ObjectFile, mapOffsets: SegmentMapper)
  {
    rec.sectionBases == [] && rec.segmentBases != [] && file.segments.Some? ==>
      |mapOffsets(file, file.segments.value, rec.segmentBases).offsets| == |file.sections|
  }

  /** The offset table built for a record: one offset per section. */
  function BuiltOffsets(rec: Record, file: ObjectFile, mapOffsets: SegmentMapper): (offs: seq<CoreAddr>)
    requires RangeDefined(rec, file) && MapperFits(rec, file, mapOffsets)
    ensures |offs| == |file.sections|
  {
    if rec.sectionBases != [] then
      if AllocCount(file.sections) == |rec.sectionBases|
      then SectionBaseOffsets(file.sections, rec.sectionBases, |file.sections|)
      else Zeros(|file.sections|)
    else if rec.segmentBases != [] && file.segments.Some? then
      mapOffsets(file, file.segments.value, rec.segmentBases).offsets
    else Zeros(|file.sections|)
  }

  /**
    The node's range after the table is built, from the range `prev` before.
    Building the table keeps the range ordered: the branches that compute a
    range produce an ordered one, and the others leave it alone.
   */
  function BuiltRange(rec: Record, file: ObjectFile, prev: Range): (r: Range)
    requires RangeDefined(rec, file)
    ensures prev.low <= prev.high ==> r.low <= r.high
  {
    if rec.sectionBases != [] then
      if AllocCount(file.sections) == |rec.sectionBases|
      then SectionRange(file.sections, rec.sectionBases)
      else prev
    else if rec.segmentBases != [] && file.segments.Some? then
      SegmentRangeOrdered(rec.segmentBases, file.segments.value);
      SegmentRange(rec.segmentBases, file.segments.value)
    else prev
  }

  /**
    The warning printed while the table is built, if any. A library warned
    about for a wrong number of ALLOC sections or for having no segments is
    left unrelocated: every offset of its table is 0.
   */
  function BuildWarning(rec: Record, file: ObjectFile, mapOffsets: SegmentMapper): (w: Option<RelocationWarning>)
    ensures RangeDefined(rec, file) && MapperFits(rec, file, mapOffsets) && w.Some? && w.value != BadOffsets ==>
              forall i :: 0 <= i < |file.sections| ==> BuiltOffsets(rec, file, mapOffsets)[i] == 0
  {
    if rec.sectionBases != [] then
      if AllocCount(file.sections) == |rec.sectionBases| then None else Some(WrongAllocCount)
    else if rec.segmentBases != [] then
      if file.segments.None? then Some(NoSegments)
      else if mapOffsets(file, file.segments.value, rec.segmentBases).ok then None
      else Some(BadOffsets)
    else None
  }

  /**
    A record with section bases whose number differs from the number of
    ALLOC sections is not relocated: every offset is 0, the range is left
    as it was, and the wrong-count warning is printed.
   */
  lemma WrongCountLeavesUnrelocated(rec: Record, file: ObjectFile, mapOffsets: SegmentMapper, prev: Range)
    requires RangeDefined(rec, file) && MapperFits(rec, file, mapOffsets)
    requires rec.sectionBases != [] && AllocCount(file.sections) != |rec.sectionBases|
    ensures forall i :: 0 <= i < |file.sections| ==> BuiltOffsets(rec, file, mapOffsets)[i] == 0
    ensures BuiltRange(rec, file, prev) == prev
    ensures BuildWarning(rec, file, mapOffsets) == Some(WrongAllocCount)
  {
  }

  /**
    With as many section bases as ALLOC sections, the k-th ALLOC section is
    relocated by the k-th base (so every base is used, by the ALLOC sections
    in file order), and the other sections are not moved.
   */
  lemma SectionBasesRelocateAllocSections(rec: Record, file: ObjectFile, mapOffsets: SegmentMapper)
    requires RangeDefined(rec, file) && MapperFits(rec, file, mapOffsets)
    requires rec.sectionBases != [] && AllocCount(file.sections) == |rec.sectionBases|
    ensures var offs := BuiltOffsets(rec, file, mapOffsets);
            var secs := file.sections;
            && (forall i :: 0 <= i < |secs| && !secs[i].alloc ==> offs[i] == 0)
            && (forall k :: 0 <= k < |rec.sectionBases| ==> offs[NthAlloc(secs, k, |secs|)] == rec.sectionBases[k])
            && (forall i :: 0 <= i < |secs| && secs[i].alloc ==>
                  AllocsBefore(secs, i) < |rec.sectionBases| && offs[i] == rec.sectionBases[AllocsBefore(secs, i)])
            && (forall i, j :: 0 <= i < j < |secs| && secs[i].alloc && secs[j].alloc ==>
                  AllocsBefore(secs, i) < AllocsBefore(secs, j))
  {
    SectionBaseOffsetsAt(file.sections, rec.sectionBases, |file.sections|);
    AllocRankIsPosition(file.sections);
  }

  /**
    With segment bases and a segment layout, the table is what the mapper
    left, and the range is reported whether or not the mapping succeeded.
   */
  lemma SegmentBasesRangeIndependentOfMapping(rec: Record, file: ObjectFile, mapOffsets: SegmentMapper, prev: Range)
    requires RangeDefined(rec, file) && MapperFits(rec, file, mapOffsets)
    requires rec.sectionBases == [] && rec.segmentBases != [] && file.segments.Some?
    ensures BuiltOffsets(rec, file, mapOffsets) == mapOffsets(file, file.segments.value, rec.segmentBases).offsets
    ensures BuiltRange(rec, file, prev) == SegmentRange(rec.segmentBases, file.segments.value)
    ensures BuildWarning(rec, file, mapOffsets).None? <==> mapOffsets(file, file.segments.value, rec.segmentBases).ok
  {
  }

  /**
    The first-call part of `solib_target_relocate_section_addresses`: a
    zeroed table of one offset per section, filled by the branch for the
    kind of bases the record has, and the node's range.
   */
  method BuildOffsetTable(so: SoList, mapOffsets: SegmentMapper) returns (ghost warning: Option<RelocationWarning>)
    requires so.lmInfo != null && so.lmInfo.offsets == null && so.abfd.Some?
    requires RangeDefined(so.lmInfo.Value(), so.abfd.value)
    requires MapperFits(so.lmInfo.Value(), so.abfd.value, mapOffsets)
    modifies so`addrLow, so`addrHigh, so.lmInfo`offsets
    ensures so.lmInfo.offsets != null && fresh(so.lmInfo.offsets)
    ensures so.lmInfo.offsets[..] == BuiltOffsets(so.lmInfo.Value(), so.abfd.value, mapOffsets)
    ensures Range(so.addrLow, so.addrHigh)
              == BuiltRange(so.lmInfo.Value(), so.abfd.value, Range(old(so.addrLow), old(so.addrHigh)))
    ensures warning == BuildWarning(so.lmInfo.Value(), so.abfd.value, mapOffsets)
  {
    var li := so.lmInfo;
    var file := so.abfd.value;
    var table := new CoreAddr[|file.sections|](_ => 0);
    li.offsets := table;
    if li.sectionBases != [] {
      var numAllocSections := CountAllocSections(file.sections);
      if numAllocSections != |li.sectionBases| {
        warning := Some(WrongAllocCount);
        assert table[..] == Zeros(|file.sections|);
      } else {
        AssignSectionBases(so, table, file.sections, li.sectionBases);
        warning := None;
      }
    } else if li.segmentBases != [] {
      if file.segments.None? {
        warning := Some(NoSegments);
        assert table[..] == Zeros(|file.sections|);
      } else {
        var data := file.segments.value;
        var mapped := mapOffsets(file, data, li.segmentBases);
        forall i | 0 <= i < table.Length {
          table[i] := mapped.offsets[i];
        }
        assert table[..] == mapped.offsets;
        warning := if mapped.ok then None else Some(BadOffsets);
        var origDelta := Sub(li.segmentBases[0], data.bases[0]);
        var i := LeadingRunEnd(li.segmentBases, data, origDelta);
        so.addrLow := li.segmentBases[0];
        so.addrHigh := Add(Add(data.bases[i - 1], data.sizes[i - 1]), origDelta);
        SegmentRangeOrdered(li.segmentBases, data);
        assert so.addrLow <= so.addrHigh;
      }
    } else {
      warning := None;
      assert table[..] == Zeros(|file.sections|);
    }
  }

  /**
    `solib_target_relocate_section_addresses`: the table is built on the
    first call only (later calls keep the table and the range); then the
    section's start and end move by its offset, modulo 2^64.
   */
  method RelocateSectionAddresses(so: SoList, sec: TargetSection, mapOffsets: SegmentMapper)
    returns (ghost warning: Option<RelocationWarning>)
    requires so.lmInfo != null && so.abfd.Some? && sec.index < |so.abfd.value.sections|
    requires so.lmInfo.offsets != null ==> so.lmInfo.offsets.Length == |so.abfd.value.sections|
    requires so.lmInfo.offsets == null ==>
               RangeDefined(so.lmInfo.Value(), so.abfd.value) && MapperFits(so.lmInfo.Value(), so.abfd.value, mapOffsets)
    modifies so`addrLow, so`addrHigh, so.lmInfo`offsets, sec`addr, sec`endaddr
    ensures so.lmInfo.offsets != null && so.lmInfo.offsets.Length == |so.abfd.value.sections|
    ensures old(so.lmInfo.offsets) != null ==>
              && so.lmInfo.offsets == old(so.lmInfo.offsets)
              && so.lmInfo.offsets[..] == old(so.lmInfo.offsets[..])
              && so.addrLow == old(so.addrLow) && so.addrHigh == old(so.addrHigh)
              && warning.None?
    ensures old(so.lmInfo.offsets) == null ==>
              && fresh(so.lmInfo.offsets)
              && so.lmInfo.offsets[..] == BuiltOffsets(so.lmInfo.Value(), so.abfd.value, mapOffsets)
              && Range(so.addrLow, so.addrHigh)
                   == BuiltRange(so.lmInfo.Value(), so.abfd.value, Range(old(so.addrLow), old(so.addrHigh)))
              && warning == BuildWarning(so.lmInfo.Value(), so.abfd.value, mapOffsets)
    ensures sec.addr == Add(old(sec.addr), so.lmInfo.offsets[sec.index])
    ensures sec.endaddr == Add(old(sec.endaddr), so.lmInfo.offsets[sec.index])
  {
    var li := so.lmInfo;
    warning := None;
    if li.offsets == null {
      warning := BuildOffsetTable(so, mapOffsets);
    }
    var offset := li.offsets[sec.index];
    sec.addr := Add(sec.addr, offset);
    sec.endaddr := Add(sec.endaddr, offset);
  }
}
