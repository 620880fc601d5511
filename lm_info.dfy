/**
  The private per-library record, `lm_info_target`: the library's name (held
  only until it is handed to the generic shared-object node), its segment
  bases or its section bases, and the lazily built offset table.
 */
module LmInfo {
  import opened Common

  /** The value of a record as the parser builds it: name and base lists. */
  datatype Record = Record(name: string, segmentBases: seq<CoreAddr>, sectionBases: seq<CoreAddr>)

  /** A complete record reports exactly one kind of base: segments or sections. */
  predicate HasOneBaseKind(r: Record)
  {
    (r.segmentBases != []) != (r.sectionBases != [])
  }

  class LmInfoTarget {
    var name: string
    var segmentBases: seq<CoreAddr>
    var sectionBases: seq<CoreAddr>
    /** The cached per-section offsets; null until the first relocation. */
    var offsets: array?<CoreAddr>

    /** `new lm_info_target` with its name set from the `name` attribute. */
    constructor (name: string)
      ensures this.name == name && segmentBases == [] && sectionBases == [] && offsets == null
    {
      this.name := name;
      segmentBases := [];
      sectionBases := [];
      offsets := null;
    }

    function Value(): Record
      reads this
    {
      Record(name, segmentBases, sectionBases)
    }
  }

  /** The records of a vector of library records, in order. */
  function Values(list: seq<LmInfoTarget>): (records: seq<Record>)
    reads list
  {
    seq(|list|, k reads list requires 0 <= k < |list| => list[k].Value())
  }

  /** No record appears twice in the vector. */
  ghost predicate Distinct(list: seq<LmInfoTarget>)
  {
    forall i, j :: 0 <= i < j < |list| ==> list[i] != list[j]
  }
}
