/**
  The generic shared-object node (`struct so_list`) as far as this back end
  fills it in, `solib_target_current_sos`, which turns the parsed library
  records into a linked list of nodes, and `solib_target_free_so`.
 */
module Solib {
  import opened Common
  import opened LmInfo
  import opened LibraryList
  import opened SoName
  import opened Bfd

  class SoList {
    var soName: string
    var soOriginalName: string
    /** The back end's private record, owned by this node. */
    var lmInfo: LmInfoTarget?
    var addrLow: CoreAddr
    var addrHigh: CoreAddr
    /** The opened object file; set by the generic layer after the node is made. */
    var abfd: Option<ObjectFile>
    var next: SoList?

    /** `XCNEW (struct so_list)`: every field zeroed. */
    constructor ()
      ensures soName == Nuls(SO_NAME_MAX_PATH_SIZE) && soOriginalName == Nuls(SO_NAME_MAX_PATH_SIZE)
      ensures lmInfo == null && addrLow == 0 && addrHigh == 0 && abfd.None? && next == null
    {
      soName := Nuls(SO_NAME_MAX_PATH_SIZE);
      soOriginalName := Nuls(SO_NAME_MAX_PATH_SIZE);
      lmInfo := null;
      addrLow, addrHigh := 0, 0;
      abfd := None;
      next := null;
    }
  }

  /**
    `solib_target_current_sos`: with no document or a document that does not
    parse, no node; otherwise one fresh node per parsed library, linked in
    document order, each holding a bounded copy of the name and owning its
    record, whose name has been cleared.
   */
  method CurrentSos(document: Option<seq<Event>>) returns (start: SoList?, ghost nodes: seq<SoList>)
    ensures (document.None? || ParseEvents(document.value).Err?) ==> start == null && nodes == []
    ensures document.Some? && ParseEvents(document.value).Ok? ==>
              var recs := ParseEvents(document.value).value;
              && |nodes| == |recs|
              && forall k {:trigger State(nodes[k])} :: 0 <= k < |nodes| ==>
                   && nodes[k].lmInfo != null
                   && State(nodes[k]) == NewState(nodes[k].lmInfo, recs[k].name)
                   && nodes[k].lmInfo.Value() == recs[k].(name := "")
    ensures IsSoList(start, nodes)
    ensures forall k :: 0 <= k < |nodes| ==> fresh(nodes[k]) && fresh(nodes[k].lmInfo)
  {
    start, nodes := null, [];
    if document.None? {
      return;
    }
    var libraryList := ParseLibraries(document.value);
    if libraryList.None? {
      return;
    }
    ghost var recs := ParseEvents(document.value).value;
    assert forall k :: 0 <= k < |recs| ==> libraryList.value[k].Value() == recs[k] by {
      forall k | 0 <= k < |recs| ensures libraryList.value[k].Value() == recs[k] {
        assert Values(libraryList.value)[k] == recs[k];
      }
    }
    ghost var names := Names(recs);
    start, nodes := BuildSoList(libraryList.value, names);
    forall k | 0 <= k < |nodes|
      ensures State(nodes[k]) == NewState(nodes[k].lmInfo, recs[k].name)
      ensures nodes[k].lmInfo.Value() == recs[k].(name := "")
    {
      assert State(nodes[k]) == NewState(libraryList.value[k], names[k]);
    }
  }

  /**
    The nodes form a null-terminated list from `start`, are distinct, and own
    distinct records whose names have been handed over: what freeing every
    node with `FreeSo` needs, whatever has happened to the nodes since.
   */
  ghost predicate IsFreeableList(start: SoList?, nodes: seq<SoList>)
    reads nodes, set k | 0 <= k < |nodes| :: nodes[k].lmInfo
  {
    && start == (if nodes == [] then null else nodes[0])
    && (forall k {:trigger nodes[k].next} :: 0 <= k < |nodes| ==>
          nodes[k].next == (if k + 1 < |nodes| then nodes[k + 1] else null))
    && (forall j, k :: 0 <= j < k < |nodes| ==> nodes[j] != nodes[k] && nodes[j].lmInfo != nodes[k].lmInfo)
    && (forall k :: 0 <= k < |nodes| ==> nodes[k].lmInfo != null && nodes[k].lmInfo.name == "")
  }

  /**
    A list as `CurrentSos` returns it: freeable, and its records have no
    offsets yet and its nodes no address range and no object file yet.
   */
  ghost predicate IsSoList(start: SoList?, nodes: seq<SoList>)
    reads nodes, set k | 0 <= k < |nodes| :: nodes[k].lmInfo
  {
    && IsFreeableList(start, nodes)
    && (forall k :: 0 <= k < |nodes| ==>
          && nodes[k].lmInfo != null && nodes[k].lmInfo.offsets == null
          && nodes[k].addrLow == 0 && nodes[k].addrHigh == 0 && nodes[k].abfd.None?)
  }

  /** The fields of a node other than its link, as one value. */
  datatype NodeState = NodeState(soName: string, soOriginalName: string, lmInfo: LmInfoTarget?,
                                 addrLow: CoreAddr, addrHigh: CoreAddr, abfd: Option<ObjectFile>)

  function State(so: SoList): NodeState
    reads so`soName, so`soOriginalName, so`lmInfo, so`addrLow, so`addrHigh, so`abfd
  {
    NodeState(so.soName, so.soOriginalName, so.lmInfo, so.addrLow, so.addrHigh, so.abfd)
  }

  /** What a node made from record `info`, whose name was `name`, holds. */
  function NewState(info: LmInfoTarget, name: string): NodeState
  {
    NodeState(SoNameBuffer(name), SoNameBuffer(name), info, 0, 0, None)
  }

  /**
    The loop of `solib_target_current_sos` over the parsed records: one node
    per record, in order, each linked to the next; `names` are the records'
    names before the loop hands them over.
   */
  method BuildSoList(list: seq<LmInfoTarget>, ghost names: seq<string>) returns (start: SoList?, ghost nodes: seq<SoList>)
    requires Distinct(list) && forall k :: 0 <= k < |list| ==> list[k].offsets == null
    requires |names| == |list| && forall k :: 0 <= k < |list| ==> list[k].name == names[k]
    modifies list`name
    ensures |nodes| == |list|
    ensures forall k {:trigger State(nodes[k])} :: 0 <= k < |nodes| ==> fresh(nodes[k]) && State(nodes[k]) == NewState(list[k], names[k])
    ensures forall k :: 0 <= k < |list| ==> list[k].name == ""
    ensures IsSoList(start, nodes)
  {
    start, nodes := null, [];
    var last: SoList? := null;
    for ix := 0 to |list|
      invariant |nodes| == ix
      invariant start == (if ix == 0 then null else nodes[0])
      invariant last == (if ix == 0 then null else nodes[ix - 1])
      invariant forall k :: 0 <= k < ix ==> fresh(nodes[k])
      invariant forall k {:trigger nodes[k].next} :: 0 <= k < ix ==>
                  nodes[k].next == (if k + 1 < ix then nodes[k + 1] else null)
      invariant forall k {:trigger State(nodes[k])} :: 0 <= k < ix ==> State(nodes[k]) == NewState(list[k], names[k])
      invariant forall k {:trigger list[k].name} :: ix <= k < |list| ==> list[k].name == names[k]
      invariant forall k {:trigger list[k].name} :: 0 <= k < ix ==> list[k].name == ""
      invariant forall j, k :: 0 <= j < k < ix ==> nodes[j] != nodes[k]
    {
      var newSolib := NewNode(list[ix]);
      if start == null {
        start := newSolib;
      } else {
        last.next := newSolib;
      }
      last := newSolib;
      nodes := nodes + [newSolib];
    }
    forall k | 0 <= k < |nodes|
      ensures nodes[k].lmInfo == list[k] && nodes[k].addrLow == 0 && nodes[k].addrHigh == 0 && nodes[k].abfd.None?
    {
      assert State(nodes[k]) == NewState(list[k], names[k]);
    }
  }

  /**
    One iteration of the loop of `solib_target_current_sos`: a zeroed node
    with the bounded copies of the record's name, owning the record, whose
    name is then cleared.
   */
  method NewNode(info: LmInfoTarget) returns (so: SoList)
    modifies info`name
    ensures fresh(so) && so.lmInfo == info && so.next == null
    ensures State(so) == NewState(info, old(info.name))
    ensures info.name == ""
  {
    so := new SoList();
    so.soName := SoNameBuffer(info.name);
    so.soOriginalName := SoNameBuffer(info.name);
    so.lmInfo := info;

    // The node now holds the name.
    info.name := "";
  }

  /**
    `solib_target_free_so`: a node's record may be released only once its
    name has been handed over (cleared); the node then no longer owns it.
   */
  method FreeSo(so: SoList)
    requires so.lmInfo != null && so.lmInfo.name == ""
    modifies so`lmInfo
    ensures so.lmInfo == null
  {
    so.lmInfo := null;
  }

  /**
    Releasing a list as the generic layer does, straight after `CurrentSos`
    or after its sections were relocated: walking from `start` along `next`
    and calling `FreeSo` on each node, whose record's name was cleared when
    the node was made, releases every record and keeps the links.
   */
  method FreeSoList(start: SoList?, ghost nodes: seq<SoList>)
    requires IsFreeableList(start, nodes)
    modifies set k | 0 <= k < |nodes| :: nodes[k]
    ensures forall k :: 0 <= k < |nodes| ==> nodes[k].lmInfo == null && nodes[k].next == old(nodes[k].next)
  {
    var so := start;
    ghost var i := 0;
    while so != null
      invariant 0 <= i <= |nodes|
      invariant so == (if i < |nodes| then nodes[i] else null)
      invariant forall k :: 0 <= k < i ==> nodes[k].lmInfo == null
      invariant forall k :: i <= k < |nodes| ==> nodes[k].lmInfo == old(nodes[k].lmInfo)
      invariant forall k :: 0 <= k < |nodes| ==> nodes[k].next == old(nodes[k].next)
      decreases |nodes| - i
    {
      FreeSo(so);
      so := so.next;
      i := i + 1;
    }
  }
}
