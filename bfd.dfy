/**
  What the relocation code reads from an opened object file, through BFD and
  the symbol-file layer: the sections in BFD's order (a section's index is its
  position), with their ALLOC flag and size, and the file's segment layout if
  it has one (`get_symfile_segment_data`).
 */
module Bfd {
  import opened Common

  /** One BFD section: its `SEC_ALLOC` flag and its `bfd_section_size`. */
  datatype BfdSection = BfdSection(alloc: bool, size: CoreAddr)

  /** `struct symfile_segment_data`: file-relative base and size of each segment. */
  datatype SegmentData = SegmentData(bases: seq<CoreAddr>, sizes: seq<CoreAddr>) {
    /** One size per base, and at least one segment. */
    predicate Valid()
    {
      |bases| == |sizes| && |bases| > 0
    }
  }

  datatype ObjectFile = ObjectFile(sections: seq<BfdSection>, segments: Option<SegmentData>) {
    predicate Valid()
    {
      segments.Some? ==> segments.value.Valid()
    }
  }

  /**
    What `symfile_map_offsets_to_segments` reports: whether it succeeded, and
    the contents of the offset table (one entry per section) it leaves behind.
   */
  datatype MappedOffsets = MappedOffsets(ok: bool, offsets: seq<CoreAddr>)

  /** `symfile_map_offsets_to_segments` applied to a file, its segments and the target's segment bases. */
  type SegmentMapper = (ObjectFile, SegmentData, seq<CoreAddr>) -> MappedOffsets
}
