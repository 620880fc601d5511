/**
  The XML library-list parser as a fold over already tokenised parse events.

  The element callbacks of the source (`library_list_start_list`,
  `library_list_start_library`, `library_list_start_segment`,
  `library_list_start_section`, `library_list_end_library`) are methods that
  mutate a growing vector of `LmInfoTarget` objects; `ParseLibraries` drives
  them over an event sequence and is all-or-nothing. `Step`, `Steps` and
  `ParseEvents` are the value-level specification the methods are proved
  against. The XML layer validates the nesting of elements before any callback
  runs, so it never produces an event out of place; `Step` gives such event
  sequences the `Malformed` error.
 */
module LibraryList {
  import opened Common
  import opened LmInfo

  /** One start or end callback, with its already parsed attributes. */
  datatype Event =
    | StartList(version: Option<string>)
    | StartLibrary(name: string)
    | Segment(address: CoreAddr)
    | Section(address: CoreAddr)
    | EndLibrary

  datatype ParseError =
    | Malformed                       // event out of place: never produced by the XML layer
    | UnsupportedVersion(version: string)
    | MixedBases                      // "Library list with both segments and sections"
    | NoBases                         // "No segment or section bases defined"

  datatype Result<T> = Ok(value: T) | Err(error: ParseError)

  /** Where the parser is: before the root, inside the root, inside a `<library>`. */
  datatype Phase = BeforeList | InList | InLibrary

  datatype Builder = Builder(phase: Phase, records: seq<Record>) {
    /** Inside a `<library>` there is a last record; before the root there are none. */
    predicate Valid()
    {
      && (phase == BeforeList ==> records == [])
      && (phase == InLibrary ==> records != [])
    }
  }

  const Initial: Builder := Builder(BeforeList, [])

  /** The only version the root element may declare. */
  predicate VersionSupported(version: Option<string>)
  {
    version.None? || version.value == "1.0"
  }

  /** The effect of one callback on the value being built. */
  function Step(b: Builder, ev: Event): (r: Result<Builder>)
    requires b.Valid()
    ensures r.Ok? ==> r.value.Valid()
  {
    match (b.phase, ev)
    case (BeforeList, StartList(version)) =>
      if VersionSupported(version) then Ok(Builder(InList, [])) else Err(UnsupportedVersion(version.value))
    case (InList, StartLibrary(name)) =>
      Ok(Builder(InLibrary, b.records + [Record(name, [], [])]))
    case (InLibrary, Segment(address)) =>
      var last := b.records[|b.records| - 1];
      if last.sectionBases != [] then Err(MixedBases)
      else Ok(b.(records := b.records[|b.records| - 1 := last.(segmentBases := last.segmentBases + [address])]))
    case (InLibrary, Section(address)) =>
      var last := b.records[|b.records| - 1];
      if last.segmentBases != [] then Err(MixedBases)
      else Ok(b.(records := b.records[|b.records| - 1 := last.(sectionBases := last.sectionBases + [address])]))
    case (InLibrary, EndLibrary) =>
      var last := b.records[|b.records| - 1];
      if last.segmentBases == [] && last.sectionBases == [] then Err(NoBases)
      else Ok(b.(phase := InList))
    case _ => Err(Malformed)
  }

  /** The events applied in order; the first error stops the parse. */
  function Steps(b: Builder, evs: seq<Event>): (r: Result<Builder>)
    requires b.Valid()
    ensures r.Ok? ==> r.value.Valid()
  {
    if evs == [] then Ok(b)
    else
      match Steps(b, evs[..|evs| - 1])
      case Err(e) => Err(e)
      case Ok(b') => Step(b', evs[|evs| - 1])
  }

  /**
    `solib_target_parse_libraries` on a tokenised document. A document is
    accepted only if it opens with a root element of a supported version.
   */
  function ParseEvents(evs: seq<Event>): (r: Result<seq<Record>>)
    ensures r.Ok? ==> evs != [] && evs[0].StartList? && VersionSupported(evs[0].version)
  {
    match Steps(Initial, evs)
    case Err(e) => Err(e)
    case Ok(b) =>
      if b.phase == InList then
        RootOpensDocument(evs);
        Ok(b.records)
      else Err(Malformed)
  }

  /** Names of the `<library>` elements, in document order. */
  function LibraryNames(evs: seq<Event>): (names: seq<string>)
  {
    if evs == [] then []
    else
      LibraryNames(evs[..|evs| - 1]) +
        (if evs[|evs| - 1].StartLibrary? then [evs[|evs| - 1].name] else [])
  }

  function Names(rs: seq<Record>): (names: seq<string>)
  {
    seq(|rs|, k requires 0 <= k < |rs| => rs[k].name)
  }

  // ---------------------------------------------------------------------------
  // Properties of the parse

  /** Parsing a concatenation parses the first part, then the second from there. */
  lemma {:induction false} StepsAppend(b: Builder, xs: seq<Event>, ys: seq<Event>)
    requires b.Valid()
    ensures Steps(b, xs + ys) == match Steps(b, xs) case Err(e) => Err(e) case Ok(b') => Steps(b', ys)
    decreases |ys|
  {
    if ys == [] {
      assert xs + ys == xs;
    } else {
      var ys' := ys[..|ys| - 1];
      assert (xs + ys)[..|xs + ys| - 1] == xs + ys';
      assert (xs + ys)[|xs + ys| - 1] == ys[|ys| - 1];
      StepsAppend(b, xs, ys');
    }
  }

  /** Once a prefix fails, the whole parse fails with the same error. */
  lemma ErrorIsFinal(evs: seq<Event>, k: nat)
    requires k <= |evs| && Steps(Initial, evs[..k]).Err?
    ensures ParseEvents(evs) == Err(Steps(Initial, evs[..k]).error)
  {
    assert evs == evs[..k] + evs[k..];
    StepsAppend(Initial, evs[..k], evs[k..]);
  }

  /** A document the parser accepts so far opens with a supported root. */
  lemma RootOpensDocument(evs: seq<Event>)
    requires evs != [] && Steps(Initial, evs).Ok?
    ensures evs[0].StartList? && VersionSupported(evs[0].version)
  {
    assert evs == evs[..1] + evs[1..];
    StepsAppend(Initial, evs[..1], evs[1..]);
    assert evs[..1][..0] == [];
  }

  /** After any successful event the root has been opened. */
  lemma {:induction false} PhaseAfterStart(evs: seq<Event>)
    requires evs != [] && Steps(Initial, evs).Ok?
    ensures Steps(Initial, evs).value.phase != BeforeList
  {
    if |evs| > 1 {
      PhaseAfterStart(evs[..|evs| - 1]);
    }
  }

  /**
    The version check: a parse fails with `UnsupportedVersion(v)` exactly when
    the root declares a version `v` other than "1.0"; the other contents do
    not matter.
   */
  lemma {:induction false} VersionRejected(evs: seq<Event>, v: string)
    ensures ParseEvents(evs) == Err(UnsupportedVersion(v))
            <==> evs != [] && evs[0] == StartList(Some(v)) && v != "1.0"
  {
    if evs != [] && evs[0] == StartList(Some(v)) && v != "1.0" {
      assert evs[..1][..0] == [];
      ErrorIsFinal(evs, 1);
    }
    if ParseEvents(evs) == Err(UnsupportedVersion(v)) {
      VersionErrorOnlyAtRoot(evs, v);
    }
  }

  lemma {:induction false} VersionErrorOnlyAtRoot(evs: seq<Event>, v: string)
    requires Steps(Initial, evs) == Err(UnsupportedVersion(v))
    ensures evs != [] && evs[0] == StartList(Some(v)) && v != "1.0"
  {
    var init := evs[..|evs| - 1];
    match Steps(Initial, init)
    case Err(_) =>
      VersionErrorOnlyAtRoot(init, v);
      assert init[0] == evs[0];
    case Ok(b') =>
      if init != [] {
        PhaseAfterStart(init);
      }
  }

  /** An accepted root starts an empty list; the rest is parsed from there. */
  lemma AcceptedRoot(version: Option<string>, rest: seq<Event>)
    requires VersionSupported(version)
    ensures Steps(Initial, [StartList(version)] + rest) == Steps(Builder(InList, []), rest)
  {
    StepsAppend(Initial, [StartList(version)], rest);
    assert Steps(Initial, [StartList(version)]) == Ok(Builder(InList, [])) by {
      assert [StartList(version)][..0] == [];
    }
  }

  /**
    A `<segment>` inside a library that already has section bases, or a
    `<section>` inside one that has segment bases, fails the whole parse.
   */
  lemma MixedBasesRejected(evs: seq<Event>, k: nat, b: Builder)
    requires k < |evs| && Steps(Initial, evs[..k]) == Ok(b) && b.phase == InLibrary
    requires var last := b.records[|b.records| - 1];
             || (evs[k].Segment? && last.sectionBases != [])
             || (evs[k].Section? && last.segmentBases != [])
    ensures ParseEvents(evs) == Err(MixedBases)
  {
    assert evs[..k + 1][..k] == evs[..k];
    ErrorIsFinal(evs, k + 1);
  }

  /**
    Closing a library fails exactly when it has neither kind of base; when it
    has some, the library is closed and its record kept as it is.
   */
  lemma EndLibraryChecked(evs: seq<Event>, k: nat, b: Builder)
    requires k < |evs| && evs[k] == EndLibrary
    requires Steps(Initial, evs[..k]) == Ok(b) && b.phase == InLibrary
    ensures var last := b.records[|b.records| - 1];
            if last.segmentBases == [] && last.sectionBases == [] then ParseEvents(evs) == Err(NoBases)
            else Steps(Initial, evs[..k + 1]) == Ok(Builder(InList, b.records))
  {
    assert evs[..k + 1][..k] == evs[..k];
    var last := b.records[|b.records| - 1];
    if last.segmentBases == [] && last.sectionBases == [] {
      ErrorIsFinal(evs, k + 1);
    }
  }

  /** Every record but an open last one has one base kind; the open one never has both. */
  ghost predicate WellFormed(b: Builder)
  {
    && (forall k :: 0 <= k < |b.records| && !(b.phase == InLibrary && k == |b.records| - 1)
         ==> HasOneBaseKind(b.records[k]))
    && (b.phase == InLibrary && b.records != [] ==>
         var last := b.records[|b.records| - 1];
         last.segmentBases == [] || last.sectionBases == [])
  }

  lemma {:induction false} StepsWellFormed(evs: seq<Event>)
    requires Steps(Initial, evs).Ok?
    ensures WellFormed(Steps(Initial, evs).value)
  {
    if evs != [] {
      var init := evs[..|evs| - 1];
      StepsWellFormed(init);
    }
  }

  /** In a successful parse every library has exactly one non-empty base list. */
  lemma ParsedRecordsHaveOneBaseKind(evs: seq<Event>)
    requires ParseEvents(evs).Ok?
    ensures forall r :: r in ParseEvents(evs).value ==> HasOneBaseKind(r)
  {
    StepsWellFormed(evs);
  }

  /** A successful parse has one record per `<library>`, in document order. */
  lemma {:induction false} ParsedNamesInOrder(evs: seq<Event>)
    requires ParseEvents(evs).Ok?
    ensures Names(ParseEvents(evs).value) == LibraryNames(evs)
  {
    StepsNames(evs);
  }

  lemma {:induction false} StepsNames(evs: seq<Event>)
    requires Steps(Initial, evs).Ok?
    ensures Names(Steps(Initial, evs).value.records) == LibraryNames(evs)
  {
    if evs != [] {
      var init := evs[..|evs| - 1];
      StepsNames(init);
      NamesStep(Steps(Initial, init).value, evs[|evs| - 1]);
    }
  }

  /** One event adds the name of a `<library>` it opens, and changes no other name. */
  lemma NamesStep(b: Builder, ev: Event)
    requires b.Valid() && Step(b, ev).Ok?
    ensures Names(Step(b, ev).value.records) == Names(b.records) + (if ev.StartLibrary? then [ev.name] else [])
  {
    var rs := Step(b, ev).value.records;
    if ev.StartLibrary? {
      assert Names(rs) == Names(b.records) + [ev.name] by {
        assert forall k :: 0 <= k < |b.records| ==> rs[k] == b.records[k];
      }
    } else {
      assert |rs| == |b.records|;
      assert forall k :: 0 <= k < |rs| ==> rs[k].name == b.records[k].name;
      assert Names(rs) == Names(b.records);
    }
  }

  // ---------------------------------------------------------------------------
  // The callbacks, over the vector of records

  /** `library_list_start_list`: accepts the root iff its version is absent or "1.0". */
  method StartListCallback(version: Option<string>) returns (ok: bool)
    ensures ok <==> Step(Initial, StartList(version)).Ok?
  {
    ok := true;
    if version.Some? {
      if version.value != "1.0" {
        ok := false;
      }
    }
  }

  /** `library_list_start_library`: appends one fresh record with the given name. */
  method StartLibraryCallback(list: seq<LmInfoTarget>, name: string) returns (list': seq<LmInfoTarget>)
    ensures |list'| == |list| + 1 && list'[..|list|] == list && fresh(list'[|list|])
    ensures list'[|list|].offsets == null
    ensures Values(list') == Values(list) + [Record(name, [], [])]
  {
    var item := new LmInfoTarget(name);
    list' := list + [item];
  }

  /** `library_list_start_segment`: refuses a segment once the last library has sections. */
  method StartSegmentCallback(list: seq<LmInfoTarget>, address: CoreAddr) returns (ok: bool)
    requires list != [] && Distinct(list)
    modifies list[|list| - 1]
    ensures var last := old(list[|list| - 1].Value());
            ok == (last.sectionBases == []) &&
            Values(list) == if ok then old(Values(list))[|list| - 1 := last.(segmentBases := last.segmentBases + [address])]
                            else old(Values(list))
    ensures list[|list| - 1].offsets == old(list[|list| - 1].offsets)
  {
    var last := list[|list| - 1];
    if last.sectionBases != [] {
      return false;
    }
    last.segmentBases := last.segmentBases + [address];
    ok := true;
  }

  /** `library_list_start_section`: refuses a section once the last library has segments. */
  method StartSectionCallback(list: seq<LmInfoTarget>, address: CoreAddr) returns (ok: bool)
    requires list != [] && Distinct(list)
    modifies list[|list| - 1]
    ensures var last := old(list[|list| - 1].Value());
            ok == (last.segmentBases == []) &&
            Values(list) == if ok then old(Values(list))[|list| - 1 := last.(sectionBases := last.sectionBases + [address])]
                            else old(Values(list))
    ensures list[|list| - 1].offsets == old(list[|list| - 1].offsets)
  {
    var last := list[|list| - 1];
    if last.segmentBases != [] {
      return false;
    }
    last.sectionBases := last.sectionBases + [address];
    ok := true;
  }

  /** `library_list_end_library`: a library must have some base. */
  method EndLibraryCallback(list: seq<LmInfoTarget>) returns (ok: bool)
    requires list != []
    ensures ok <==> list[|list| - 1].segmentBases != [] || list[|list| - 1].sectionBases != []
  {
    var last := list[|list| - 1];
    ok := !(last.segmentBases == [] && last.sectionBases == []);
  }

  /**
    The parser's dispatch of one event to its callback: an event out of
    place fails, as does a failing callback; otherwise the vector and the
    phase are those `Step` gives.
   */
  method HandleEvent(list: seq<LmInfoTarget>, phase: Phase, ev: Event) returns (list': seq<LmInfoTarget>, phase': Phase, ok: bool)
    requires Builder(phase, Values(list)).Valid() && Distinct(list)
    requires forall k :: 0 <= k < |list| ==> list[k].offsets == null
    modifies list
    ensures ok <==> Step(Builder(phase, old(Values(list))), ev).Ok?
    ensures ok ==> Step(Builder(phase, old(Values(list))), ev).value == Builder(phase', Values(list'))
    ensures Distinct(list') && forall k :: 0 <= k < |list'| ==> list'[k].offsets == null
    ensures forall k :: 0 <= k < |list'| ==> list'[k] in list || fresh(list'[k])
  {
    list', phase', ok := list, phase, false;
    match ev {
      case StartList(version) =>
        if phase == BeforeList {
          ok := StartListCallback(version);
          phase' := InList;
        }
      case StartLibrary(name) =>
        if phase == InList {
          list' := StartLibraryCallback(list, name);
          phase' := InLibrary;
          ok := true;
        }
      case Segment(address) =>
        if phase == InLibrary {
          ok := StartSegmentCallback(list, address);
        }
      case Section(address) =>
        if phase == InLibrary {
          ok := StartSectionCallback(list, address);
        }
      case EndLibrary =>
        if phase == InLibrary {
          ok := EndLibraryCallback(list);
          phase' := InList;
        }
    }
  }

  /**
    `solib_target_parse_libraries`: runs the callbacks over the events; on any
    error the partial vector is discarded and nothing is returned.
   */
  method ParseLibraries(events: seq<Event>) returns (result: Option<seq<LmInfoTarget>>)
    ensures result.None? <==> ParseEvents(events).Err?
    ensures result.Some? ==>
              && Values(result.value) == ParseEvents(events).value
              && Distinct(result.value)
              && forall k :: 0 <= k < |result.value| ==> fresh(result.value[k]) && result.value[k].offsets == null
  {
    var list: seq<LmInfoTarget> := [];
    var phase := BeforeList;
    assert Values(list) == [] && events[..0] == [];
    for i := 0 to |events|
      invariant Steps(Initial, events[..i]) == Ok(Builder(phase, Values(list)))
      invariant Distinct(list)
      invariant forall k :: 0 <= k < |list| ==> fresh(list[k]) && list[k].offsets == null
    {
      assert events[..i + 1][..i] == events[..i];
      var ok;
      list, phase, ok := HandleEvent(list, phase, events[i]);
      if !ok {
        ErrorIsFinal(events, i + 1);
        return None;
      }
    }
    assert events[..|events|] == events;
    if phase != InList {
      return None;
    }
    return Some(list);
  }
}
