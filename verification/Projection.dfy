/** The two builders of one document: the envelope an ingest or a refresh stores with a row, and
    the projection the indexer reads back out of the row and its envelope. */
module Projection {
  import opened Basics
  import opened PartsManifest

  /** A field that may hold a string, a list, or some other JSON value. */
  datatype Content = NoContent | NullContent | One(s: string) | Many(items: seq<Text>) | Else

  datatype Note = Note(kind: Text, content: Content)

  datatype Name = Name(role: Text, title: Text)

  /** The raw ArchivesSpace record. */
  datatype Record = Record(
    title: Text, resourceType: Text, abstract_: Content, notes: Option<seq<Note>>,
    names: Option<seq<Name>>, subjects: Option<seq<Text>>, entryId: Text, kalturaId: Text,
    isCompound: bool, parts: Option<seq<Part>>)

  /** A stored display_record. Thin and legacy envelopes carry a top-level parts or compound list. */
  datatype Envelope = Envelope(
    handle: Text, member: Text, thumbnail: Text, mime: Text, isPublished: bool, isCompound: bool,
    title: Text, creator: Text, subjects: Option<seq<Text>>, abstract_: Content, kind: Text,
    objectPath: Text, entryId: Text, kalturaId: Text,
    parts: Option<seq<Dip>>, compound: Option<seq<Part>>, record: Record)

  datatype Row = Row(
    pid: string, handle: Text, member: Text, thumbnail: Text, mime: Text, fileName: Text,
    isPublished: bool, isCompound: bool)

  /** The indexed document of an object; title, creator and abstract are strings or Null. */
  datatype Doc = Doc(
    pid: string, member: Text, handle: Text, thumbnail: Text, mime: Text, isPublished: bool, isCompound: bool,
    title: Text, creator: Text, subjects: seq<string>, abstract_: Text, kind: Text, objectPath: Text,
    entryId: Text, parts: Option<seq<Part>>)

  // --- the derived fields --------------------------------------------------------------------------

  function FirstString(c: Content): Text {
    match c
    case One(s) => Str(s)
    case Many(items) => if items != [] && items[0].Str? then items[0] else Null
    case _ => Null
  }

  predicate ContentTruthy(c: Content) {
    c.Many? || c.Else? || (c.One? && c.s != "")
  }

  function FindNote(notes: seq<Note>): Option<Note> {
    if notes == [] then None
    else if notes[0].kind == Str("abstract") then Some(notes[0])
    else FindNote(notes[1..])
  }

  /** extract_abstract; outer is NoContent when there is no envelope. */
  function ExtractAbstract(r: Record, outer: Content): Text {
    var note := if r.notes.Some? then FindNote(r.notes.value) else None;
    if note.Some? && !note.value.content.NullContent? && !note.value.content.NoContent?
    then FirstString(note.value.content)
    else FirstString(if ContentTruthy(r.abstract_) then r.abstract_ else outer)
  }

  function FindCreator(names: seq<Name>): Option<Name> {
    if names == [] then None
    else if names[0].role == Str("creator") then Some(names[0])
    else FindCreator(names[1..])
  }

  function DeriveCreator(r: Record, outer: Text): Text {
    var c := if r.names.Some? then FindCreator(r.names.value) else None;
    if c.Some? && Truthy(c.value.title) then c.value.title else OrNull(outer)
  }

  function Strings(ts: seq<Text>): seq<string> {
    if ts == [] then []
    else (if ts[0].Str? then [ts[0].s] else []) + Strings(ts[1..])
  }

  function DeriveSubjects(r: Record, outer: Option<seq<Text>>): seq<string> {
    var own := if r.subjects.Some? then Strings(r.subjects.value) else [];
    if own != [] then own else if outer.Some? then Strings(outer.value) else []
  }

  /** The id of the first part that has one. */
  function PartEntryId(parts: seq<Part>): Text {
    if parts == [] then Null
    else if Truthy(parts[0].entryId) || Truthy(parts[0].kalturaId) then Or(parts[0].entryId, parts[0].kalturaId)
    else PartEntryId(parts[1..])
  }

  function DeriveEntryId(parts: Option<seq<Part>>, outerEntry: Text, outerKaltura: Text, r: Record): Text {
    OrNull(Or(if parts.Some? then PartEntryId(parts.value) else Null,
              Or(Or(outerEntry, outerKaltura), Or(r.entryId, r.kalturaId))))
  }

  function TypeFromMime(mime: Text): Text {
    if !Truthy(mime) then Null
    else if StartsWith(mime.s, "image/") then Str("still image")
    else if mime.s == "application/pdf" then Str("text")
    else if StartsWith(mime.s, "video/") then Str("moving image")
    else if StartsWith(mime.s, "audio/") then Str("sound recording")
    else Null
  }

  // --- the master part --------------------------------------------------------------------------------

  /** A locale's collation, strictly before. */
  type Collation = (string, string) -> bool

  function SortName(p: Part): string {
    if Truthy(p.title) then p.title.s else ""
  }

  /** pick_master_part: the head of the stable sort of the parts that have a path. */
  function PickMaster(parts: seq<Part>, before: Collation): Option<Part> {
    if parts == [] then None
    else
      var m, p := PickMaster(parts[..|parts| - 1], before), parts[|parts| - 1];
      if !Truthy(p.objectPath) then m
      else if m.None? || before(SortName(p), SortName(m.value)) then Some(p)
      else m
  }

  ghost predicate Collates(before: Collation) {
    && (forall a, b, c :: before(a, b) && before(b, c) ==> before(a, c))
    && (forall a, b :: !(before(a, b) && before(b, a)))
    && (forall a, b, c :: !before(a, b) && !before(b, c) ==> !before(a, c))
  }

  predicate Candidate(parts: seq<Part>, i: nat) {
    i < |parts| && Truthy(parts[i].objectPath)
  }

  /** Part i heads the stable sort. */
  ghost predicate Heads(parts: seq<Part>, before: Collation, i: nat) {
    && Candidate(parts, i)
    && (forall j: nat | Candidate(parts, j) :: !before(SortName(parts[j]), SortName(parts[i])))
    && (forall j: nat | Candidate(parts, j) && j < i :: before(SortName(parts[i]), SortName(parts[j])))
  }

  /** The master has a path, no part with a path sorts before it, and every part that ties with
      it stands after it; there is none only when no part has a path. */
  lemma {:induction false} MasterIsFirst(parts: seq<Part>, before: Collation)
    requires Collates(before)
    ensures PickMaster(parts, before).None? <==> forall i: nat :: !Candidate(parts, i)
    ensures PickMaster(parts, before).Some? ==>
      exists i: nat :: Heads(parts, before, i) && parts[i] == PickMaster(parts, before).value
  {
    if parts != [] {
      var n: nat := |parts| - 1;
      var init, p := parts[..n], parts[n];
      MasterIsFirst(init, before);
      assert forall i: nat | i < n :: init[i] == parts[i] && (Candidate(init, i) <==> Candidate(parts, i));
      var m := PickMaster(init, before);
      if m.Some? {
        var i: nat :| Heads(init, before, i) && init[i] == m.value;
        if Truthy(p.objectPath) && before(SortName(p), SortName(m.value)) {
          forall j: nat | Candidate(parts, j) && j < n ensures before(SortName(p), SortName(parts[j])) {
            assert Candidate(init, j) && !before(SortName(init[j]), SortName(init[i]));
          }
          assert Heads(parts, before, n);
        } else {
          assert Heads(parts, before, i);
        }
      } else if Truthy(p.objectPath) {
        assert forall j: nat | j < n :: !Candidate(init, j);
        assert Heads(parts, before, n);
      }
    }
  }

  // --- the envelope -------------------------------------------------------------------------------------

  datatype Source = Source(handle: Text, member: Text, isPublished: bool, isCompound: bool, record: Record, dip: seq<Dip>)

  datatype Built = Built(envelope: Envelope, mime: Text, thumbnail: Text, fileName: Text)

  function PartsOf(r: Record): seq<Part> {
    if r.parts.Some? then r.parts.value else []
  }

  function OrEmpty(t: Text): Text {
    Or(t, Str(""))
  }

  function BuildEnvelope(s: Source, before: Collation): Built {
    var merged := Merged(PartsOf(s.record), s.dip);
    var master := PickMaster(merged, before);
    var mime := if master.Some? then OrNull(master.value.mime) else Null;
    var thumbnail := if master.Some? then OrNull(master.value.thumbnail) else Null;
    var path := if master.Some? then OrNull(master.value.objectPath) else Null;
    var entryId := DeriveEntryId(Some(merged), Absent, Absent, s.record);
    Built(
      Envelope(
        OrEmpty(s.handle), OrEmpty(s.member), thumbnail, mime, s.isPublished, s.isCompound,
        OrEmpty(s.record.title), DeriveCreator(s.record, Absent),
        Some(Texts(DeriveSubjects(s.record, None))),
        One(OrEmpty(ExtractAbstract(s.record, NoContent)).s),
        Or(s.record.resourceType, TypeFromMime(mime)),
        path, if Truthy(entryId) then entryId else Absent, Absent,
        None, None, s.record.(parts := Some(merged))),
      mime, thumbnail, path)
  }

  function Texts(ss: seq<string>): seq<Text> {
    if ss == [] then [] else [Str(ss[0])] + Texts(ss[1..])
  }

  // --- the projection -------------------------------------------------------------------------------------

  predicate IsDipParts(parts: Option<seq<Dip>>) {
    parts.Some? && exists i :: 0 <= i < |parts.value| && parts.value[i].part.file != Absent && parts.value[i].part.title == Absent
  }

  predicate Enriched(parts: Option<seq<Part>>) {
    parts.Some? && exists i :: 0 <= i < |parts.value| && (Truthy(parts.value[i].objectPath) || Truthy(parts.value[i].thumbnail))
  }

  predicate NonEmpty(parts: Option<seq<Part>>) {
    parts.Some? && parts.value != []
  }

  function AsParts(parts: Option<seq<Dip>>): Option<seq<Part>> {
    if parts.None? then None
    else Some(seq(|parts.value|, i requires 0 <= i < |parts.value| => parts.value[i].part))
  }

  function PickParts(r: Record, e: Envelope): Option<seq<Part>> {
    var outer := AsParts(e.parts);
    if IsDipParts(e.parts) then Some(Merged(PartsOf(r), e.parts.value))
    else if Enriched(outer) then outer
    else if Enriched(e.compound) then e.compound
    else if Enriched(r.parts) then r.parts
    else if NonEmpty(outer) then outer
    else if NonEmpty(e.compound) then e.compound
    else if NonEmpty(r.parts) then r.parts
    else None
  }

  /** The first part of type 'object' with a path, else the first with a path. */
  function FirstPath(parts: seq<Part>, objectsOnly: bool): Text {
    if parts == [] then Null
    else if Truthy(parts[0].objectPath) && (objectsOnly ==> parts[0].mime == Str("object")) then parts[0].objectPath
    else FirstPath(parts[1..], objectsOnly)
  }

  function MasterObject(e: Envelope, parts: Option<seq<Part>>, row: Row): Text {
    if Truthy(e.objectPath) then e.objectPath
    else
      var fromParts := if parts.Some? then Or(FirstPath(parts.value, true), FirstPath(parts.value, false)) else Null;
      if Truthy(fromParts) then fromParts else OrNull(row.fileName)
  }

  function Project(row: Row, e: Envelope): Doc {
    var r := e.record;
    var parts := PickParts(r, e);
    var entryId := DeriveEntryId(parts, e.entryId, e.kalturaId, r);
    Doc(
      row.pid, OrNull(row.member), OrNull(row.handle), OrNull(row.thumbnail), OrNull(row.mime),
      row.isPublished, r.isCompound || row.isCompound,
      OrNull(Or(r.title, e.title)), DeriveCreator(r, e.creator), DeriveSubjects(r, e.subjects),
      ExtractAbstract(r, e.abstract_),
      Or(r.resourceType, Or(e.kind, TypeFromMime(row.mime))),
      MasterObject(e, parts, row),
      if Truthy(entryId) then entryId else Absent,
      if parts.Some? then parts else r.parts)
  }

  // --- where each field comes from ------------------------------------------------------------------------

  /** The creator is the title of the first name in that role, and the envelope's otherwise. */
  lemma {:induction false} FirstCreator(names: seq<Name>, i: nat)
    requires i < |names| && names[i].role == Str("creator") && forall j | 0 <= j < i :: names[j].role != Str("creator")
    ensures FindCreator(names) == Some(names[i])
  {
    if i > 0 { FirstCreator(names[1..], i - 1); }
  }

  lemma {:induction false} NoCreator(names: seq<Name>)
    requires forall j | 0 <= j < |names| :: names[j].role != Str("creator")
    ensures FindCreator(names) == None
  {
    if names != [] { NoCreator(names[1..]); }
  }

  lemma CreatorIs(r: Record, outer: Text, i: nat)
    ensures r.names.Some? && i < |r.names.value| && r.names.value[i].role == Str("creator")
              && (forall j | 0 <= j < i :: r.names.value[j].role != Str("creator")) ==>
      DeriveCreator(r, outer) == if Truthy(r.names.value[i].title) then r.names.value[i].title else OrNull(outer)
    ensures (r.names.Some? ==> forall j | 0 <= j < |r.names.value| :: r.names.value[j].role != Str("creator")) ==>
      DeriveCreator(r, outer) == OrNull(outer)
  {
    if r.names.Some? {
      var names := r.names.value;
      if i < |names| && names[i].role == Str("creator") && forall j | 0 <= j < i :: names[j].role != Str("creator") {
        FirstCreator(names, i);
      }
      if forall j | 0 <= j < |names| :: names[j].role != Str("creator") { NoCreator(names); }
    }
  }

  /** The abstract is the content of the first abstract note that has any, then the record's, then the
      envelope's; of a list, its first item. */
  lemma {:induction false} FirstNote(notes: seq<Note>, i: nat)
    requires i < |notes| && notes[i].kind == Str("abstract") && forall j | 0 <= j < i :: notes[j].kind != Str("abstract")
    ensures FindNote(notes) == Some(notes[i])
  {
    if i > 0 { FirstNote(notes[1..], i - 1); }
  }

  lemma AbstractOfNote(r: Record, outer: Content, i: nat)
    requires r.notes.Some? && i < |r.notes.value| && r.notes.value[i].kind == Str("abstract")
    requires forall j | 0 <= j < i :: r.notes.value[j].kind != Str("abstract")
    ensures match r.notes.value[i].content
      case One(s) => ExtractAbstract(r, outer) == Str(s)
      case Many(items) => ExtractAbstract(r, outer) == if |items| > 0 && items[0].Str? then Str(items[0].s) else Null
      case Else => ExtractAbstract(r, outer) == Null
      case _ => ExtractAbstract(r, outer) == ExtractAbstract(r.(notes := None), outer)
  {
    FirstNote(r.notes.value, i);
  }

  lemma AbstractWithoutNote(r: Record, outer: Content)
    requires r.notes.None?
    ensures match r.abstract_
      case One(s) => s != "" ==> ExtractAbstract(r, outer) == Str(s)
      case Many(items) => ExtractAbstract(r, outer) == if |items| > 0 && items[0].Str? then Str(items[0].s) else Null
      case Else => ExtractAbstract(r, outer) == Null
      case _ => outer.One? ==> ExtractAbstract(r, outer) == Str(outer.s)
    ensures r.abstract_ == One("") && outer.One? ==> ExtractAbstract(r, outer) == Str(outer.s)
  {
  }

  /** The record's own subjects, if any of them is a string, and otherwise the envelope's. */
  lemma {:induction false} StringsAre(ts: seq<Text>, s: string)
    ensures s in Strings(ts) <==> Str(s) in ts
    ensures |Strings(ts)| <= |ts|
  {
    if ts != [] {
      StringsAre(ts[1..], s);
      assert Str(s) in ts <==> ts[0] == Str(s) || Str(s) in ts[1..];
    }
  }

  lemma SubjectsAre(r: Record, outer: Option<seq<Text>>, s: string)
    ensures r.subjects.Some? && Str(s) in r.subjects.value ==> DeriveSubjects(r, outer) == Strings(r.subjects.value)
    ensures (r.subjects.Some? ==> Strings(r.subjects.value) == []) && outer.Some? ==> DeriveSubjects(r, outer) == Strings(outer.value)
  {
    if r.subjects.Some? { StringsAre(r.subjects.value, s); }
  }

  /** The id of the first part with one, the entry id before the Kaltura id; then the envelope's and
      the record's, in the same order. */
  lemma {:induction false} PartEntryIdIs(parts: seq<Part>, i: nat)
    requires i < |parts| && (Truthy(parts[i].entryId) || Truthy(parts[i].kalturaId))
    requires forall j | 0 <= j < i :: !Truthy(parts[j].entryId) && !Truthy(parts[j].kalturaId)
    ensures PartEntryId(parts) == if Truthy(parts[i].entryId) then parts[i].entryId else parts[i].kalturaId
  {
    if i > 0 { PartEntryIdIs(parts[1..], i - 1); }
  }

  lemma {:induction false} NoPartEntryId(parts: seq<Part>)
    requires forall j | 0 <= j < |parts| :: !Truthy(parts[j].entryId) && !Truthy(parts[j].kalturaId)
    ensures PartEntryId(parts) == Null
  {
    if parts != [] { NoPartEntryId(parts[1..]); }
  }

  lemma EntryIdIs(parts: Option<seq<Part>>, outerEntry: Text, outerKaltura: Text, r: Record)
    ensures var p := if parts.Some? then PartEntryId(parts.value) else Null; var id := DeriveEntryId(parts, outerEntry, outerKaltura, r);
      && (Truthy(p) ==> id == p)
      && (!Truthy(p) && Truthy(outerEntry) ==> id == outerEntry)
      && (!Truthy(p) && !Truthy(outerEntry) && Truthy(outerKaltura) ==> id == outerKaltura)
      && (!Truthy(p) && !Truthy(outerEntry) && !Truthy(outerKaltura) && Truthy(r.entryId) ==> id == r.entryId)
      && (!Truthy(p) && !Truthy(outerEntry) && !Truthy(outerKaltura) && !Truthy(r.entryId) && Truthy(r.kalturaId) ==>
            id == r.kalturaId)
      && (!Truthy(p) && !Truthy(outerEntry) && !Truthy(outerKaltura) && !Truthy(r.entryId) && !Truthy(r.kalturaId) ==>
            !Truthy(id))
  {
  }

  lemma Starts(prefix: string, rest: string, other: string)
    ensures StartsWith(prefix + rest, prefix)
    ensures other != "" && prefix != "" && prefix[0] != other[0] ==> !StartsWith(prefix + rest, other) && prefix + rest != other
  {
    assert (prefix + rest)[..|prefix|] == prefix;
    if other != "" && prefix != "" { assert (prefix + rest)[0] == prefix[0]; }
  }

  lemma TypeIs(sub: string)
    ensures TypeFromMime(Str("image/" + sub)) == Str("still image")
    ensures TypeFromMime(Str("video/" + sub)) == Str("moving image")
    ensures TypeFromMime(Str("audio/" + sub)) == Str("sound recording")
    ensures TypeFromMime(Str("application/pdf")) == Str("text")
    ensures TypeFromMime(Str("text/" + sub)) == TypeFromMime(Null) == TypeFromMime(Absent) == TypeFromMime(Str("")) == Null
  {
    Starts("image/", sub, "");
    Starts("video/", sub, "image/");
    Starts("video/", sub, "application/pdf");
    Starts("audio/", sub, "image/");
    Starts("audio/", sub, "video/");
    assert "audio/" + sub != "application/pdf" by { assert ("audio/" + sub)[1] == 'u'; }
    assert !StartsWith("application/pdf", "image/") by { assert "application/pdf"[0] == 'a'; }
    Starts("text/", sub, "image/");
    Starts("text/", sub, "application/pdf");
    Starts("text/", sub, "video/");
    Starts("text/", sub, "audio/");
  }

  /** The envelope's path, then the path of the first part of type object, then of any, then the row's. */
  lemma {:induction false} FirstPathIs(parts: seq<Part>, objectsOnly: bool, i: nat)
    requires i < |parts| && Truthy(parts[i].objectPath) && (objectsOnly ==> parts[i].mime == Str("object"))
    requires forall j | 0 <= j < i :: !Truthy(parts[j].objectPath) || (objectsOnly && parts[j].mime != Str("object"))
    ensures FirstPath(parts, objectsOnly) == parts[i].objectPath
  {
    if i > 0 { FirstPathIs(parts[1..], objectsOnly, i - 1); }
  }

  lemma {:induction false} NoObjectPath(parts: seq<Part>)
    requires forall j | 0 <= j < |parts| :: !Truthy(parts[j].objectPath) || parts[j].mime != Str("object")
    ensures FirstPath(parts, true) == Null
  {
    if parts != [] { NoObjectPath(parts[1..]); }
  }

  lemma MasterObjectIs(e: Envelope, parts: Option<seq<Part>>, row: Row, i: nat)
    ensures Truthy(e.objectPath) ==> MasterObject(e, parts, row) == e.objectPath
    ensures !Truthy(e.objectPath) && parts.None? ==> MasterObject(e, parts, row) == OrNull(row.fileName)
    ensures !Truthy(e.objectPath) && parts.Some? && (forall j | 0 <= j < |parts.value| :: !Truthy(parts.value[j].objectPath)) ==>
      MasterObject(e, parts, row) == OrNull(row.fileName)
    ensures !Truthy(e.objectPath) && parts.Some? && i < |parts.value| && Truthy(parts.value[i].objectPath)
              && parts.value[i].mime == Str("object")
              && (forall j | 0 <= j < i :: !Truthy(parts.value[j].objectPath) || parts.value[j].mime != Str("object")) ==>
      MasterObject(e, parts, row) == parts.value[i].objectPath
    ensures !Truthy(e.objectPath) && parts.Some? && i < |parts.value| && Truthy(parts.value[i].objectPath)
              && (forall j | 0 <= j < |parts.value| :: !Truthy(parts.value[j].objectPath) || parts.value[j].mime != Str("object"))
              && (forall j | 0 <= j < i :: !Truthy(parts.value[j].objectPath)) ==>
      MasterObject(e, parts, row) == parts.value[i].objectPath
  {
    if parts.Some? {
      var ps := parts.value;
      if forall j | 0 <= j < |ps| :: !Truthy(ps[j].objectPath) { NoFirstPath(ps, true); NoFirstPath(ps, false); }
      if i < |ps| && Truthy(ps[i].objectPath) {
        if ps[i].mime == Str("object") && forall j | 0 <= j < i :: !Truthy(ps[j].objectPath) || ps[j].mime != Str("object") {
          FirstPathIs(ps, true, i);
        }
        if (forall j | 0 <= j < |ps| :: !Truthy(ps[j].objectPath) || ps[j].mime != Str("object"))
           && forall j | 0 <= j < i :: !Truthy(ps[j].objectPath) {
          NoObjectPath(ps);
          FirstPathIs(ps, false, i);
        }
      }
    }
  }

  /** Some part of the list carries a path or a thumbnail. */
  predicate HasMedia(parts: seq<Part>) {
    exists i | 0 <= i < |parts| :: Truthy(parts[i].objectPath) || Truthy(parts[i].thumbnail)
  }

  /** A list with media is taken before one without, and the envelope's parts before its compound list
      before the record's; an untitled file in the envelope's parts says that they are a DIP's list. */
  lemma PartsChosen(r: Record, e: Envelope, outer: seq<Part>, compound: seq<Part>, own: seq<Part>)
    requires outer == (if e.parts.Some? then AsParts(e.parts).value else [])
    requires compound == (if e.compound.Some? then e.compound.value else []) && own == (if r.parts.Some? then r.parts.value else [])
    ensures (exists i | 0 <= i < |outer| :: outer[i].file != Absent && outer[i].title == Absent) ==>
      PickParts(r, e) == Some(Merged(own, e.parts.value))
    ensures !(exists i | 0 <= i < |outer| :: outer[i].file != Absent && outer[i].title == Absent) ==>
      PickParts(r, e) ==
        if HasMedia(outer) then Some(outer) else if HasMedia(compound) then Some(compound) else if HasMedia(own) then Some(own)
        else if |outer| > 0 then Some(outer) else if |compound| > 0 then Some(compound) else if |own| > 0 then Some(own) else None
  {
    assert e.parts.Some? ==> |outer| == |e.parts.value| && forall i | 0 <= i < |outer| :: outer[i] == e.parts.value[i].part;
    assert IsDipParts(e.parts) <==> exists i | 0 <= i < |outer| :: outer[i].file != Absent && outer[i].title == Absent;
    assert Enriched(e.compound) <==> HasMedia(compound);
    assert Enriched(r.parts) <==> HasMedia(own);
    assert Enriched(AsParts(e.parts)) <==> HasMedia(outer);
  }

  /** The record's own title and type come first; the row says what is published. */
  lemma ProjectIs(row: Row, e: Envelope)
    ensures var d := Project(row, e);
      && d.pid == row.pid && d.isPublished == row.isPublished && (d.isCompound <==> e.record.isCompound || row.isCompound)
      && d.title == (if Truthy(e.record.title) then e.record.title else OrNull(e.title))
      && (Truthy(e.record.resourceType) ==> d.kind == e.record.resourceType)
      && (!Truthy(e.record.resourceType) && Truthy(e.kind) ==> d.kind == e.kind)
      && (!Truthy(e.record.resourceType) && !Truthy(e.kind) ==> d.kind == TypeFromMime(row.mime))
      && SameText(d.handle, row.handle) && SameText(d.member, row.member) && SameText(d.mime, row.mime)
      && SameText(d.thumbnail, row.thumbnail)
  {
  }

  // --- they agree --------------------------------------------------------------------------------------------

  lemma {:induction false} StringsOfTexts(ss: seq<string>)
    ensures Strings(Texts(ss)) == ss
  {
    if ss != [] {
      StringsOfTexts(ss[1..]);
      assert Texts(ss)[1..] == Texts(ss[1..]);
    }
  }

  lemma {:induction false} NoPathNoMaster(parts: seq<Part>, before: Collation)
    ensures PickMaster(parts, before).None? ==> forall i | 0 <= i < |parts| :: !Truthy(parts[i].objectPath)
    ensures PickMaster(parts, before).Some? ==> Truthy(PickMaster(parts, before).value.objectPath)
  {
    if parts != [] { NoPathNoMaster(parts[..|parts| - 1], before); }
  }

  lemma {:induction false} NoFirstPath(parts: seq<Part>, objectsOnly: bool)
    requires forall i | 0 <= i < |parts| :: !Truthy(parts[i].objectPath)
    ensures FirstPath(parts, objectsOnly) == Null
  {
    if parts != [] { NoFirstPath(parts[1..], objectsOnly); }
  }

  /** The row's columns come from the envelope's builder. */
  predicate ColumnsFrom(row: Row, s: Source, b: Built) {
    && row.mime == b.mime && row.thumbnail == b.thumbnail && row.fileName == b.fileName
    && row.handle == s.handle && row.member == s.member
    && row.isPublished == s.isPublished && row.isCompound == s.isCompound
  }

  /** An empty string and null are one value. */
  predicate SameText(a: Text, b: Text) {
    OrNull(a) == OrNull(b)
  }

  lemma PartsAgree(s: Source, before: Collation)
    ensures var e := BuildEnvelope(s, before).envelope; var merged := Merged(PartsOf(s.record), s.dip);
      && e.record.parts == Some(merged)
      && (if PickParts(e.record, e).Some? then PickParts(e.record, e) else e.record.parts) == Some(merged)
      && (PickParts(e.record, e).None? ==> merged == [])
  {
  }

  lemma ObjectAgrees(row: Row, s: Source, before: Collation)
    requires ColumnsFrom(row, s, BuildEnvelope(s, before))
    ensures var e := BuildEnvelope(s, before).envelope; MasterObject(e, PickParts(e.record, e), row) == e.objectPath
  {
    var merged := Merged(PartsOf(s.record), s.dip);
    PartsAgree(s, before);
    NoPathNoMaster(merged, before);
    if PickMaster(merged, before).None? {
      NoFirstPath(merged, true);
      NoFirstPath(merged, false);
    }
  }

  /** PROJECTION AGREES WITH ENVELOPE. For a row whose columns come from build_envelope, the
      indexed document repeats the envelope: the same creator, subjects, type, object, entry id
      and parts, and the same title, abstract, handle and collection up to empty and null. Only
      is_compound may differ, when the record says so and the row does not. */
  lemma ProjectionAgrees(row: Row, s: Source, before: Collation)
    requires ColumnsFrom(row, s, BuildEnvelope(s, before))
    ensures var e := BuildEnvelope(s, before).envelope; var d := Project(row, e);
      && d.creator == e.creator && Some(Texts(d.subjects)) == e.subjects
      && d.kind == e.kind && d.objectPath == e.objectPath && d.entryId == e.entryId && d.parts == e.record.parts
      && d.mime == e.mime && d.thumbnail == e.thumbnail && d.isPublished == e.isPublished
      && SameText(d.title, e.title) && SameText(d.abstract_, FirstString(e.abstract_))
      && SameText(d.handle, e.handle) && SameText(d.member, e.member)
      && (d.isCompound == e.isCompound <==> (s.record.isCompound ==> s.isCompound))
  {
    var e := BuildEnvelope(s, before).envelope;
    PartsAgree(s, before);
    ObjectAgrees(row, s, before);
    StringsOfTexts(DeriveSubjects(s.record, None));
    assert PartEntryId([]) == Null;
  }

  /** A thin envelope, which stores the record and the DIP's file list side by side, projects the
      parts, and the entry id, that the built envelope stores merged. */
  lemma ThinProjectsTheSame(row: Row, s: Source, before: Collation, thin: Envelope)
    requires thin.record == s.record && thin.parts == Some(s.dip) && IsDipParts(thin.parts)
    requires !Truthy(thin.entryId) && !Truthy(thin.kalturaId)
    ensures var e := BuildEnvelope(s, before).envelope;
      Project(row, thin).parts == e.record.parts && Project(row, thin).entryId == e.entryId
  {
  }
}
