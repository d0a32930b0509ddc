/**
 * The incremental XML decoders of `pyosm/parsing.py`: `iter_osm_change_file`,
 * `iter_osm_file`, the changeset loop inside `iter_changeset_stream`, and
 * `parse_osm_file`.
 *
 * lxml's `iterparse` is replaced by the finite list of `start`/`end` events it would
 * report. The three loops differ only in which element names they react to, so one
 * loop, `Decode`, serves all three, parameterised by the payload `Grammar`.
 */
module Decoder {
  import opened Wrappers
  import opened Records
  import opened Fields
  import opened Decimal

  /** One `(event, elem)` pair reported by `etree.iterparse(f, events=('start', 'end'))`. */
  datatype Event = Start(tag: string, attrs: Attrs) | End(tag: string)

  /**
   * `OsmChange` is the diff grammar read by `iter_osm_change_file`, `OsmSnapshot`
   * the flat grammar read by `iter_osm_file`, `ChangesetFeed` the changeset
   * replication payload read inside `iter_changeset_stream`.
   */
  datatype Grammar = OsmChange | OsmSnapshot | ChangesetFeed

  /** The elements whose start opens a record and whose end yields it. */
  predicate IsPrimitive(g: Grammar, tag: string) {
    match g
    case OsmChange => tag == "node" || tag == "way" || tag == "relation"
    case OsmSnapshot => tag == "node" || tag == "way" || tag == "relation" || tag == "changeset"
    case ChangesetFeed => tag == "changeset"
  }

  /** The elements whose start appends to the open record's `tags`, `nds` or `members`. */
  predicate IsChild(g: Grammar, tag: string) {
    tag == "tag" || (g != ChangesetFeed && (tag == "nd" || tag == "member"))
  }

  /** The `create`/`modify`/`delete` wrappers; only the diff grammar looks at them. */
  predicate IsAction(g: Grammar, tag: string) {
    g == OsmChange && (tag == "create" || tag == "modify" || tag == "delete")
  }

  predicate IntAttr(attrs: Attrs, name: string) {
    name in attrs && ParseInt(attrs[name]).Some?
  }

  predicate OptionalIntAttr(attrs: Attrs, name: string) {
    name !in attrs || ParseInt(attrs[name]).Some?
  }

  /**
   * When the start element of a record decodes: `id` is an integer; a changeset has
   * `open`; in a diff `version` and `changeset` are integers, in a snapshot they are
   * integers when present; `uid` is an integer when present.
   */
  predicate Decodable(g: Grammar, tag: string, attrs: Attrs) {
    IntAttr(attrs, "id") &&
    (if tag == "changeset" then "open" in attrs
     else if g == OsmChange then IntAttr(attrs, "version") && IntAttr(attrs, "changeset")
     else OptionalIntAttr(attrs, "version") && OptionalIntAttr(attrs, "changeset")) &&
    OptionalIntAttr(attrs, "uid")
  }

  /** `version` and `changeset`: `int(elem.attrib[name])` in a diff, `maybeInt(elem.get(name))` in a snapshot. */
  function EnvelopeInt(g: Grammar, attrs: Attrs, name: string): Result<Option<int>, Error> {
    if g == OsmChange then
      var n :- RequiredInt(attrs, name);
      Ok(Some(n))
    else MaybeInt(Get(attrs, name))
  }

  /** The value an optional integer attribute decodes to: absent stays absent. */
  function OptionalIntValue(attrs: Attrs, name: string): Option<int> {
    if name in attrs then ParseInt(attrs[name]) else None
  }

  /** The record a start element opens, with empty child lists. */
  function Open(g: Grammar, tag: string, attrs: Attrs, parseTimestamps: bool): (r: Result<Primitive, Error>)
    requires IsPrimitive(g, tag)
    ensures r.Ok? <==> Decodable(g, tag, attrs)
    ensures r.Ok? ==>
              (r.value.Node? <==> tag == "node") && (r.value.Way? <==> tag == "way")
              && (r.value.Relation? <==> tag == "relation")
              && (r.value.Changeset? <==> tag == "changeset")
    ensures r.Ok? ==>
              Some(r.value.id) == ParseInt(attrs["id"]) && r.value.tags == []
              && r.value.uid == OptionalIntValue(attrs, "uid")
              && r.value.user == Get(attrs, "user")
    ensures r.Ok? && r.value.Way? ==> r.value.nds == []
    ensures r.Ok? && r.value.Relation? ==> r.value.members == []
    ensures r.Ok? && !r.value.Changeset? ==>
              r.value.visible == MaybeBool(Get(attrs, "visible"))
              && r.value.version == OptionalIntValue(attrs, "version")
              && r.value.changeset == OptionalIntValue(attrs, "changeset")
              && r.value.timestamp == StampField(attrs, "timestamp", parseTimestamps)
    ensures r.Ok? && !r.value.Changeset? && g == OsmChange ==>
              r.value.version.Some? && r.value.changeset.Some?
    ensures r.Ok? && r.value.Node? ==>
              r.value.lat == CoordField(attrs, "lat") && r.value.lon == CoordField(attrs, "lon")
    ensures r.Ok? && r.value.Changeset? ==>
              r.value.open == (attrs["open"] == "true")
              && r.value.createdAt == StampField(attrs, "created_at", parseTimestamps)
              && r.value.closedAt == StampField(attrs, "closed_at", parseTimestamps)
  {
    var id :- RequiredInt(attrs, "id");
    if tag == "changeset" then
      var open :- Required(attrs, "open");
      var uid :- MaybeInt(Get(attrs, "uid"));
      Ok(Changeset(id,
                   StampField(attrs, "created_at", parseTimestamps),
                   StampField(attrs, "closed_at", parseTimestamps),
                   MaybeBool(Some(open)).value,
                   CoordField(attrs, "min_lat"), CoordField(attrs, "max_lat"),
                   CoordField(attrs, "min_lon"), CoordField(attrs, "max_lon"),
                   Get(attrs, "user"), uid, []))
    else
      var version :- EnvelopeInt(g, attrs, "version");
      var changeset :- EnvelopeInt(g, attrs, "changeset");
      var uid :- MaybeInt(Get(attrs, "uid"));
      var user := Get(attrs, "user");
      var visible := MaybeBool(Get(attrs, "visible"));
      var timestamp := StampField(attrs, "timestamp", parseTimestamps);
      if tag == "node" then
        Ok(Node(id, version, changeset, user, uid, visible, timestamp,
                CoordField(attrs, "lat"), CoordField(attrs, "lon"), []))
      else if tag == "way" then
        Ok(Way(id, version, changeset, user, uid, visible, timestamp, [], []))
      else
        Ok(Relation(id, version, changeset, user, uid, visible, timestamp, [], []))
  }

  /** Whether a record of this kind has the list a child element appends to. */
  predicate HasList(p: Primitive, child: string) {
    child == "tag" || (child == "nd" && p.Way?) || (child == "member" && p.Relation?)
  }

  /** The attributes a child element must carry: `k`/`v`; an integer `ref`; `type`, an integer `ref`, `role`. */
  predicate ChildDecodable(child: string, attrs: Attrs) {
    if child == "tag" then "k" in attrs && "v" in attrs
    else if child == "nd" then IntAttr(attrs, "ref")
    else "type" in attrs && IntAttr(attrs, "ref") && "role" in attrs
  }

  /** What a `tag` start event adds to the open record's tags. */
  function TagOf(e: Event): seq<Tag> {
    if e.Start? && e.tag == "tag" && "k" in e.attrs && "v" in e.attrs
    then [Tag(e.attrs["k"], e.attrs["v"])] else []
  }

  /** What an `nd` start event adds to the open way's node references. */
  function NdOf(e: Event): seq<int> {
    if e.Start? && e.tag == "nd" && IntAttr(e.attrs, "ref")
    then [ParseInt(e.attrs["ref"]).value] else []
  }

  /** What a `member` start event adds to the open relation's members. */
  function MemberOf(e: Event): seq<Member> {
    if e.Start? && e.tag == "member" && "type" in e.attrs && IntAttr(e.attrs, "ref") && "role" in e.attrs
    then [Member(e.attrs["type"], ParseInt(e.attrs["ref"]).value, e.attrs["role"])] else []
  }

  /** A record with its child lists emptied: everything a child element cannot change. */
  function Envelope(p: Primitive): Primitive {
    match p
    case Node(id, version, changeset, user, uid, visible, timestamp, lat, lon, _) =>
      Node(id, version, changeset, user, uid, visible, timestamp, lat, lon, [])
    case Way(id, version, changeset, user, uid, visible, timestamp, _, _) =>
      Way(id, version, changeset, user, uid, visible, timestamp, [], [])
    case Relation(id, version, changeset, user, uid, visible, timestamp, _, _) =>
      Relation(id, version, changeset, user, uid, visible, timestamp, [], [])
    case Changeset(id, createdAt, closedAt, open, minLat, maxLat, minLon, maxLon, user, uid, _) =>
      Changeset(id, createdAt, closedAt, open, minLat, maxLat, minLon, maxLon, user, uid, [])
  }

  /**
   * A child element's start: `obj.tags.append(...)`, `obj.nds.append(...)` or
   * `obj.members.append(...)`. With no open record it is an `AttributeError`, as it is
   * when the open record has no such list; a missing or malformed attribute raises too.
   */
  function AddChild(g: Grammar, obj: Option<Primitive>, tag: string, attrs: Attrs): (r: Result<Primitive, Error>)
    requires IsChild(g, tag)
    ensures r.Ok? <==> obj.Some? && HasList(obj.value, tag) && ChildDecodable(tag, attrs)
    ensures obj.None? ==> r == Err(NoOpenObject(tag))
    ensures r.Ok? ==> Envelope(r.value) == Envelope(obj.value)
    ensures r.Ok? ==> r.value.tags == obj.value.tags + TagOf(Start(tag, attrs))
    ensures r.Ok? && r.value.Way? ==> r.value.nds == obj.value.nds + NdOf(Start(tag, attrs))
    ensures r.Ok? && r.value.Relation? ==> r.value.members == obj.value.members + MemberOf(Start(tag, attrs))
  {
    if obj.None? then Err(NoOpenObject(tag))
    else
      var o := obj.value;
      if tag == "tag" then
        var k :- Required(attrs, "k");
        var v :- Required(attrs, "v");
        Ok(o.(tags := o.tags + [Tag(k, v)]))
      else if tag == "nd" then
        if !o.Way? then Err(NoChildList(tag))
        else
          var ref :- RequiredInt(attrs, "ref");
          Ok(o.(nds := o.nds + [ref]))
      else
        if !o.Relation? then Err(NoChildList(tag))
        else
          var memberType :- Required(attrs, "type");
          var ref :- RequiredInt(attrs, "ref");
          var role :- Required(attrs, "role");
          Ok(o.(members := o.members + [Member(memberType, ref, role)]))
  }

  /** What the generator yields at a record's end: `(action, obj)` in a diff, the bare `obj` otherwise. */
  datatype Yield = Yield(action: Option<string>, obj: Option<Primitive>)

  /** The decoder's local variables after a prefix of the events, what it has yielded, and the exception that stopped it. */
  datatype Trace = Trace(action: Option<string>, obj: Option<Primitive>, out: seq<Yield>, error: Option<Error>)

  /** One iteration of the `for event, elem in etree.iterparse(...)` loop. */
  function Step(g: Grammar, parseTimestamps: bool, t: Trace, e: Event): Trace {
    match e
    case Start(tag, attrs) =>
      if IsPrimitive(g, tag) then
        match Open(g, tag, attrs, parseTimestamps)
        case Ok(o) => t.(obj := Some(o))
        case Err(err) => t.(error := Some(err))
      else if IsChild(g, tag) then
        match AddChild(g, t.obj, tag, attrs)
        case Ok(o) => t.(obj := Some(o))
        case Err(err) => t.(error := Some(err))
      else if IsAction(g, tag) then t.(action := Some(tag))
      else t
    case End(tag) =>
      if IsPrimitive(g, tag) then t.(out := t.out + [Yield(t.action, t.obj)], obj := None)
      else if IsAction(g, tag) then t.(action := None)
      else t
  }

  /** The loop run over `events`; it stops at the first exception. */
  function Run(g: Grammar, parseTimestamps: bool, events: seq<Event>): Trace
  {
    if events == [] then Trace(None, None, [], None)
    else
      var t := Run(g, parseTimestamps, events[..|events| - 1]);
      if t.error.Some? then t else Step(g, parseTimestamps, t, events[|events| - 1])
  }

  /** One iteration never takes back what was yielded. */
  lemma StepKeepsOut(g: Grammar, pts: bool, t: Trace, e: Event)
    ensures t.out <= Step(g, pts, t, e).out
  {
  }

  /** One more event: what was yielded stays yielded, and a stopped loop stays as it was. */
  lemma RunLast(g: Grammar, pts: bool, events: seq<Event>)
    requires events != []
    ensures Run(g, pts, events[..|events| - 1]).out <= Run(g, pts, events).out
    ensures Run(g, pts, events[..|events| - 1]).error.Some? ==>
      Run(g, pts, events) == Run(g, pts, events[..|events| - 1])
  {
    var t := Run(g, pts, events[..|events| - 1]);
    if t.error.None? {
      StepKeepsOut(g, pts, t, events[|events| - 1]);
    }
  }

  /** Once the loop has stopped, later events change nothing; before that, what was yielded stays yielded. */
  lemma {:induction false} RunExtends(g: Grammar, pts: bool, events: seq<Event>, k: nat)
    requires k <= |events|
    ensures Run(g, pts, events[..k]).out <= Run(g, pts, events).out
    ensures Run(g, pts, events[..k]).error.Some? ==> Run(g, pts, events) == Run(g, pts, events[..k])
    ensures Run(g, pts, events).error.None? ==> Run(g, pts, events[..k]).error.None?
    decreases |events|
  {
    if k < |events| {
      var init := events[..|events| - 1];
      assert init[..k] == events[..k];
      RunExtends(g, pts, init, k);
      RunLast(g, pts, events);
    } else {
      assert events[..k] == events;
    }
  }

  /**
   * The decoding loop shared by `iter_osm_change_file`, `iter_osm_file` and
   * `iter_changeset_stream`: `action` and `obj` are its local variables, `out` is what
   * it has yielded, and `error` is the exception that ended it, if any.
   */
  method Decode(g: Grammar, parseTimestamps: bool, events: seq<Event>)
    returns (out: seq<Yield>, error: Option<Error>)
    ensures out == Run(g, parseTimestamps, events).out
    ensures error == Run(g, parseTimestamps, events).error
  {
    var action: Option<string> := None;
    var obj: Option<Primitive> := None;
    out, error := [], None;
    var i := 0;
    while i < |events|
      invariant 0 <= i <= |events|
      invariant Run(g, parseTimestamps, events[..i]) == Trace(action, obj, out, None)
    {
      assert events[..i + 1][..i] == events[..i];
      match events[i] {
        case Start(tag, attrs) =>
          if IsPrimitive(g, tag) {
            var created := Open(g, tag, attrs, parseTimestamps);
            if created.Err? {
              error := Some(created.error);
              RunExtends(g, parseTimestamps, events, i + 1);
              return;
            }
            obj := Some(created.value);
          } else if IsChild(g, tag) {
            var appended := AddChild(g, obj, tag, attrs);
            if appended.Err? {
              error := Some(appended.error);
              RunExtends(g, parseTimestamps, events, i + 1);
              return;
            }
            obj := Some(appended.value);
          } else if IsAction(g, tag) {
            action := Some(tag);
          }
        case End(tag) =>
          if IsPrimitive(g, tag) {
            out := out + [Yield(action, obj)];
            obj := None;
          } else if IsAction(g, tag) {
            action := None;
          }
      }
      i := i + 1;
    }
    assert events[..i] == events;
  }

  /** `iter_osm_change_file(f, parse_timestamps)`: the `(action, obj)` pairs yielded before any exception. */
  method IterOsmChangeFile(events: seq<Event>, parseTimestamps: bool)
    returns (changes: seq<Yield>, error: Option<Error>)
    ensures changes == Run(OsmChange, parseTimestamps, events).out
    ensures error == Run(OsmChange, parseTimestamps, events).error
  {
    changes, error := Decode(OsmChange, parseTimestamps, events);
  }

  /** The bare records of a list of yields. */
  function ObjectsOf(out: seq<Yield>): (records: seq<Option<Primitive>>)
    ensures |records| == |out|
    ensures forall i :: 0 <= i < |out| ==> records[i] == out[i].obj
  {
    if out == [] then [] else [out[0].obj] + ObjectsOf(out[1..])
  }

  /** `iter_osm_file(f, parse_timestamps)`: the records yielded before any exception. */
  method IterOsmFile(events: seq<Event>, parseTimestamps: bool)
    returns (records: seq<Option<Primitive>>, error: Option<Error>)
    ensures records == ObjectsOf(Run(OsmSnapshot, parseTimestamps, events).out)
    ensures error == Run(OsmSnapshot, parseTimestamps, events).error
  {
    var out;
    out, error := Decode(OsmSnapshot, parseTimestamps, events);
    records := ObjectsOf(out);
  }

  /** The changeset loop inside `iter_changeset_stream`, over one sequence's payload. */
  method DecodeChangesets(events: seq<Event>, parseTimestamps: bool)
    returns (changesets: seq<Option<Primitive>>, error: Option<Error>)
    ensures changesets == ObjectsOf(Run(ChangesetFeed, parseTimestamps, events).out)
    ensures error == Run(ChangesetFeed, parseTimestamps, events).error
  {
    var out;
    out, error := Decode(ChangesetFeed, parseTimestamps, events);
    changesets := ObjectsOf(out);
  }

  /** The three record kinds `parse_osm_file` sorts its input into. */
  datatype Kind = NodeKind | WayKind | RelationKind

  predicate IsKind(p: Primitive, kind: Kind) {
    match kind
    case NodeKind => p.Node?
    case WayKind => p.Way?
    case RelationKind => p.Relation?
  }

  /**
   * The records of one kind, in the order they were yielded: exactly those present
   * records of that kind; `None` and changesets are dropped.
   */
  function OfKind(records: seq<Option<Primitive>>, kind: Kind): (r: seq<Primitive>)
    ensures forall i :: 0 <= i < |r| ==> IsKind(r[i], kind)
    ensures forall x :: x in r <==> Some(x) in records && IsKind(x, kind)
    ensures |r| <= |records|
  {
    if records == [] then []
    else
      var rest := OfKind(records[..|records| - 1], kind);
      var last := records[|records| - 1];
      assert records == records[..|records| - 1] + [last];
      if last.Some? && IsKind(last.value, kind) then rest + [last.value] else rest
  }

  /** The loop of `parse_osm_file`: each record appended to the list of its kind. */
  method SortByKind(records: seq<Option<Primitive>>)
    returns (nodes: seq<Primitive>, ways: seq<Primitive>, relations: seq<Primitive>)
    ensures nodes == OfKind(records, NodeKind)
    ensures ways == OfKind(records, WayKind)
    ensures relations == OfKind(records, RelationKind)
  {
    nodes, ways, relations := [], [], [];
    var i := 0;
    while i < |records|
      invariant 0 <= i <= |records|
      invariant nodes == OfKind(records[..i], NodeKind)
      invariant ways == OfKind(records[..i], WayKind)
      invariant relations == OfKind(records[..i], RelationKind)
    {
      assert records[..i + 1][..i] == records[..i];
      assert records[..i + 1][i] == records[i];
      var p := records[i];
      if p.Some? && p.value.Node? {
        nodes := nodes + [p.value];
      } else if p.Some? && p.value.Way? {
        ways := ways + [p.value];
      } else if p.Some? && p.value.Relation? {
        relations := relations + [p.value];
      }
      i := i + 1;
    }
    assert records[..i] == records;
  }

  /**
   * `parse_osm_file(f, parse_timestamps)`: the nodes, ways and relations of a
   * snapshot, each list in document order; an exception while decoding propagates.
   */
  method ParseOsmFile(events: seq<Event>, parseTimestamps: bool)
    returns (r: Result<(seq<Primitive>, seq<Primitive>, seq<Primitive>), Error>)
    ensures r.Ok? <==> Run(OsmSnapshot, parseTimestamps, events).error.None?
    ensures r.Err? ==> r.error == Run(OsmSnapshot, parseTimestamps, events).error.value
    ensures r.Ok? ==>
      var records := ObjectsOf(Run(OsmSnapshot, parseTimestamps, events).out);
      r.value == (OfKind(records, NodeKind), OfKind(records, WayKind), OfKind(records, RelationKind))
  {
    var records, error := IterOsmFile(events, parseTimestamps);
    if error.Some? {
      return Err(error.value);
    }
    var nodes, ways, relations := SortByKind(records);
    return Ok((nodes, ways, relations));
  }
}
