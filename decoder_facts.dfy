/**
 * What the decoding loop yields, described without running it: the record yielded at
 * a closing element is the one its last opening element started, filled with the
 * child elements in between, in document order, and paired with the action of the
 * last wrapper element before it, if that element was a start (any wrapper end
 * resets the action to `None`).
 */
module DecoderFacts {
  import opened Wrappers
  import opened Records
  import opened Fields
  import opened Decoder

  /** The position of the last element in `p` that opens or closes a record. */
  function LastPrimitive(g: Grammar, p: seq<Event>): (r: Option<nat>)
    ensures r.Some? ==> r.value < |p| && IsPrimitive(g, p[r.value].tag)
  {
    if p == [] then None
    else if IsPrimitive(g, p[|p| - 1].tag) then Some(|p| - 1)
    else LastPrimitive(g, p[..|p| - 1])
  }

  /** The child elements of `seg` appended, in order, to the record `o`. */
  function Fill(g: Grammar, o: Primitive, seg: seq<Event>): Result<Primitive, Error>
    decreases |seg|
  {
    if seg == [] then Ok(o)
    else
      var x :- Fill(g, o, seg[..|seg| - 1]);
      var e := seg[|seg| - 1];
      if e.Start? && IsChild(g, e.tag) then AddChild(g, Some(x), e.tag, e.attrs) else Ok(x)
  }

  /** The tags the `tag` elements of `seg` denote, in document order. */
  function TagsIn(seg: seq<Event>): seq<Tag> {
    if seg == [] then [] else TagsIn(seg[..|seg| - 1]) + TagOf(seg[|seg| - 1])
  }

  /** The node references the `nd` elements of `seg` denote, in document order. */
  function NdsIn(seg: seq<Event>): seq<int> {
    if seg == [] then [] else NdsIn(seg[..|seg| - 1]) + NdOf(seg[|seg| - 1])
  }

  /** The members the `member` elements of `seg` denote, in document order. */
  function MembersIn(seg: seq<Event>): seq<Member> {
    if seg == [] then [] else MembersIn(seg[..|seg| - 1]) + MemberOf(seg[|seg| - 1])
  }

  /** How many start events of element `name` occur in `seg`. */
  function CountStarts(seg: seq<Event>, name: string): nat {
    if seg == [] then 0
    else CountStarts(seg[..|seg| - 1], name) + (if seg[|seg| - 1].Start? && seg[|seg| - 1].tag == name then 1 else 0)
  }

  /** `LastPrimitive` finds the last record element: none comes after it, and none at all when it finds nothing. */
  lemma {:induction false} LastPrimitiveIsLast(g: Grammar, p: seq<Event>)
    ensures var r := LastPrimitive(g, p);
      r.Some? ==> forall k :: r.value < k < |p| ==> !IsPrimitive(g, p[k].tag)
    ensures LastPrimitive(g, p).None? ==> forall k :: 0 <= k < |p| ==> !IsPrimitive(g, p[k].tag)
    decreases |p|
  {
    if p != [] && !IsPrimitive(g, p[|p| - 1].tag) {
      var q := p[..|p| - 1];
      LastPrimitiveIsLast(g, q);
      assert forall k :: 0 <= k < |q| ==> q[k] == p[k];
    }
  }

  /** Filling one more event: the fill of the shorter segment, then that event. */
  lemma FillSnoc(g: Grammar, o: Primitive, seg: seq<Event>, e: Event)
    ensures Fill(g, o, seg + [e]) ==
      (var x :- Fill(g, o, seg);
       if e.Start? && IsChild(g, e.tag) then AddChild(g, Some(x), e.tag, e.attrs) else Ok(x))
  {
    assert (seg + [e])[..|seg|] == seg;
  }

  /** The last event of a successful fill: the fill before it succeeded, and the event appended to its result if it is a child. */
  lemma FillLast(g: Grammar, o: Primitive, seg: seq<Event>)
    requires seg != [] && Fill(g, o, seg).Ok?
    ensures Fill(g, o, seg[..|seg| - 1]).Ok?
    ensures AfterChild(g, Fill(g, o, seg[..|seg| - 1]).value, seg[|seg| - 1]) == Fill(g, o, seg)
  {
  }

  /** A record after one more event: appended to when the event is a child element, unchanged otherwise. */
  function AfterChild(g: Grammar, x: Primitive, e: Event): Result<Primitive, Error> {
    if e.Start? && IsChild(g, e.tag) then AddChild(g, Some(x), e.tag, e.attrs) else Ok(x)
  }

  lemma ChildTag(g: Grammar, x: Primitive, e: Event)
    requires AfterChild(g, x, e).Ok?
    ensures Envelope(AfterChild(g, x, e).value) == Envelope(x)
    ensures AfterChild(g, x, e).value.tags == x.tags + TagOf(e)
    ensures |TagOf(e)| == if e.Start? && e.tag == "tag" then 1 else 0
  {
    if e.Start? && IsChild(g, e.tag) {
      assert e == Start(e.tag, e.attrs);
    }
  }

  lemma ChildNd(g: Grammar, x: Primitive, e: Event)
    requires g != ChangesetFeed
    requires AfterChild(g, x, e).Ok?
    ensures x.Way? ==> AfterChild(g, x, e).value.Way? && AfterChild(g, x, e).value.nds == x.nds + NdOf(e)
    ensures |NdOf(e)| == if e.Start? && e.tag == "nd" then 1 else 0
    ensures !x.Way? ==> !(e.Start? && e.tag == "nd")
  {
    if e.Start? && IsChild(g, e.tag) {
      assert e == Start(e.tag, e.attrs);
    }
  }

  lemma ChildMember(g: Grammar, x: Primitive, e: Event)
    requires g != ChangesetFeed
    requires AfterChild(g, x, e).Ok?
    ensures x.Relation? ==> AfterChild(g, x, e).value.Relation? && AfterChild(g, x, e).value.members == x.members + MemberOf(e)
    ensures |MemberOf(e)| == if e.Start? && e.tag == "member" then 1 else 0
    ensures !x.Relation? ==> !(e.Start? && e.tag == "member")
  {
    if e.Start? && IsChild(g, e.tag) {
      assert e == Start(e.tag, e.attrs);
    }
  }

  /** Filling a record keeps its kind and attributes and appends one tag per `tag` element, in order. */
  lemma {:induction false} FillAppendsTags(g: Grammar, o: Primitive, seg: seq<Event>)
    requires Fill(g, o, seg).Ok?
    ensures Envelope(Fill(g, o, seg).value) == Envelope(o)
    ensures Fill(g, o, seg).value.tags == o.tags + TagsIn(seg)
    ensures |TagsIn(seg)| == CountStarts(seg, "tag")
    decreases |seg|
  {
    if seg != [] {
      var init := seg[..|seg| - 1];
      FillLast(g, o, seg);
      FillAppendsTags(g, o, init);
      ChildTag(g, Fill(g, o, init).value, seg[|seg| - 1]);
    }
  }

  /** In the diff and snapshot grammars a filled way gains one reference per `nd` element, in order; any other record has none. */
  lemma {:induction false} FillAppendsNds(g: Grammar, o: Primitive, seg: seq<Event>)
    requires g != ChangesetFeed
    requires Fill(g, o, seg).Ok?
    ensures o.Way? ==> Fill(g, o, seg).value.Way? && Fill(g, o, seg).value.nds == o.nds + NdsIn(seg)
    ensures |NdsIn(seg)| == CountStarts(seg, "nd")
    ensures !o.Way? ==> CountStarts(seg, "nd") == 0
    decreases |seg|
  {
    if seg != [] {
      var init := seg[..|seg| - 1];
      FillLast(g, o, seg);
      FillAppendsNds(g, o, init);
      FillAppendsTags(g, o, init);
      ChildNd(g, Fill(g, o, init).value, seg[|seg| - 1]);
    }
  }

  /** In the diff and snapshot grammars a filled relation gains one member per `member` element, in order; any other record has none. */
  lemma {:induction false} FillAppendsMembers(g: Grammar, o: Primitive, seg: seq<Event>)
    requires g != ChangesetFeed
    requires Fill(g, o, seg).Ok?
    ensures o.Relation? ==> Fill(g, o, seg).value.Relation? && Fill(g, o, seg).value.members == o.members + MembersIn(seg)
    ensures |MembersIn(seg)| == CountStarts(seg, "member")
    ensures !o.Relation? ==> CountStarts(seg, "member") == 0
    decreases |seg|
  {
    if seg != [] {
      var init := seg[..|seg| - 1];
      FillLast(g, o, seg);
      FillAppendsMembers(g, o, init);
      FillAppendsTags(g, o, init);
      ChildMember(g, Fill(g, o, init).value, seg[|seg| - 1]);
    }
  }

  /**
   * The record open after the events `p`, found by looking back: `None` unless the
   * last record element is a start, else that start's record filled with the child
   * elements after it.
   */
  function ObjAt(g: Grammar, parseTimestamps: bool, p: seq<Event>): Result<Option<Primitive>, Error> {
    match LastPrimitive(g, p)
    case None => Ok(None)
    case Some(s) => Reopen(g, parseTimestamps, p[s], p[s + 1..])
  }

  /** The record the record element `e` leaves open once the events `seg` after it are read. */
  function Reopen(g: Grammar, parseTimestamps: bool, e: Event, seg: seq<Event>): Result<Option<Primitive>, Error>
    requires IsPrimitive(g, e.tag)
  {
    if e.End? then Ok(None)
    else
      var o :- Open(g, e.tag, e.attrs, parseTimestamps);
      var r :- Fill(g, o, seg);
      Ok(Some(r))
  }

  /** The action after the events `p`: the last wrapper element's name if it was a start, else `None`. */
  function ActionAt(g: Grammar, p: seq<Event>): Option<string> {
    if g != OsmChange || p == [] then None
    else
      var e := p[|p| - 1];
      if IsAction(g, e.tag) then (if e.Start? then Some(e.tag) else None)
      else ActionAt(g, p[..|p| - 1])
  }

  /** How many record elements close in `p`. */
  function CountCloses(g: Grammar, p: seq<Event>): nat {
    if p == [] then 0
    else CountCloses(g, p[..|p| - 1]) + (if p[|p| - 1].End? && IsPrimitive(g, p[|p| - 1].tag) then 1 else 0)
  }

  /** Looking back past an event that neither opens nor closes a record finds the same record element. */
  lemma LastPrimitiveSnoc(g: Grammar, q: seq<Event>, e: Event)
    requires !IsPrimitive(g, e.tag)
    ensures LastPrimitive(g, q + [e]) == LastPrimitive(g, q)
  {
    assert (q + [e])[..|q|] == q;
  }

  /** Dropping the last event keeps every earlier event and the segment after any of them. */
  lemma DropLast(p: seq<Event>, s: nat)
    requires s < |p| - 1
    ensures p[..|p| - 1][s] == p[s]
    ensures p[s + 1..] == p[..|p| - 1][s + 1..] + [p[|p| - 1]]
  {
  }

  lemma ObjAtAt(g: Grammar, pts: bool, p: seq<Event>, s: nat)
    requires LastPrimitive(g, p) == Some(s)
    ensures ObjAt(g, pts, p) == Reopen(g, pts, p[s], p[s + 1..])
  {
  }

  lemma ObjAtAfterOther(g: Grammar, pts: bool, p: seq<Event>)
    requires p != [] && !IsPrimitive(g, p[|p| - 1].tag)
    requires !(p[|p| - 1].Start? && IsChild(g, p[|p| - 1].tag))
    ensures ObjAt(g, pts, p) == ObjAt(g, pts, p[..|p| - 1])
  {
    var q := p[..|p| - 1];
    assert LastPrimitive(g, p) == LastPrimitive(g, q);
    if LastPrimitive(g, q).Some? {
      var s := LastPrimitive(g, q).value;
      DropLast(p, s);
      ObjAtAt(g, pts, p, s);
      ObjAtAt(g, pts, q, s);
      ReopenSnoc(g, pts, q[s], q[s + 1..], p[|p| - 1]);
    }
  }

  lemma ReopenSnoc(g: Grammar, pts: bool, e0: Event, seg: seq<Event>, e: Event)
    requires IsPrimitive(g, e0.tag)
    requires !(e.Start? && IsChild(g, e.tag))
    ensures Reopen(g, pts, e0, seg + [e]) == Reopen(g, pts, e0, seg)
  {
    if e0.Start? {
      var o := Open(g, e0.tag, e0.attrs, pts);
      if o.Ok? {
        FillSnoc(g, o.value, seg, e);
      }
    }
  }

  lemma ReopenChild(g: Grammar, pts: bool, e0: Event, seg: seq<Event>, e: Event, x: Primitive)
    requires IsPrimitive(g, e0.tag)
    requires e.Start? && IsChild(g, e.tag)
    requires Reopen(g, pts, e0, seg) == Ok(Some(x))
    requires AddChild(g, Some(x), e.tag, e.attrs).Ok?
    ensures Reopen(g, pts, e0, seg + [e]) == Ok(Some(AddChild(g, Some(x), e.tag, e.attrs).value))
  {
    var o := Open(g, e0.tag, e0.attrs, pts);
    FillSnoc(g, o.value, seg, e);
  }

  lemma ObjAtAfterChild(g: Grammar, pts: bool, p: seq<Event>, x: Primitive)
    requires p != [] && p[|p| - 1].Start? && IsChild(g, p[|p| - 1].tag)
    requires ObjAt(g, pts, p[..|p| - 1]) == Ok(Some(x))
    requires AddChild(g, Some(x), p[|p| - 1].tag, p[|p| - 1].attrs).Ok?
    ensures ObjAt(g, pts, p) == Ok(Some(AddChild(g, Some(x), p[|p| - 1].tag, p[|p| - 1].attrs).value))
  {
    var q := p[..|p| - 1];
    assert !IsPrimitive(g, p[|p| - 1].tag);
    assert LastPrimitive(g, p) == LastPrimitive(g, q);
    assert LastPrimitive(g, q).Some?;
    var s := LastPrimitive(g, q).value;
    DropLast(p, s);
    ObjAtAt(g, pts, p, s);
    ObjAtAt(g, pts, q, s);
    ReopenChild(g, pts, q[s], q[s + 1..], p[|p| - 1], x);
  }

  lemma ObjAtAfterRecord(g: Grammar, pts: bool, p: seq<Event>)
    requires p != [] && IsPrimitive(g, p[|p| - 1].tag)
    ensures ObjAt(g, pts, p) == Reopen(g, pts, p[|p| - 1], [])
  {
    assert p[|p|..] == [];
    ObjAtAt(g, pts, p, |p| - 1);
  }

  lemma ReopenNothing(g: Grammar, pts: bool, e: Event)
    requires IsPrimitive(g, e.tag)
    ensures e.End? ==> Reopen(g, pts, e, []) == Ok(None)
    ensures e.Start? ==>
      Reopen(g, pts, e, []) == (match Open(g, e.tag, e.attrs, pts) case Ok(o) => Ok(Some(o)) case Err(err) => Err(err))
  {
  }

  /** The facts `StateAt` states about a prefix, as one predicate. */
  predicate InStep(g: Grammar, pts: bool, p: seq<Event>) {
    Run(g, pts, p).error.None? &&
    Run(g, pts, p).action == ActionAt(g, p) &&
    ObjAt(g, pts, p) == Ok(Run(g, pts, p).obj) &&
    |Run(g, pts, p).out| == CountCloses(g, p)
  }

  /** `StateAt` for one more event that opens or closes a record. */
  lemma StepRecord(g: Grammar, pts: bool, p: seq<Event>)
    requires p != [] && IsPrimitive(g, p[|p| - 1].tag)
    requires Run(g, pts, p).error.None? && InStep(g, pts, p[..|p| - 1])
    ensures InStep(g, pts, p)
  {
    var e := p[|p| - 1];
    assert Run(g, pts, p) == Step(g, pts, Run(g, pts, p[..|p| - 1]), e);
    ObjAtAfterRecord(g, pts, p);
    ReopenNothing(g, pts, e);
  }

  /** `StateAt` for one more child element. */
  lemma StepChild(g: Grammar, pts: bool, p: seq<Event>)
    requires p != [] && p[|p| - 1].Start? && IsChild(g, p[|p| - 1].tag)
    requires Run(g, pts, p).error.None? && InStep(g, pts, p[..|p| - 1])
    ensures InStep(g, pts, p)
  {
    var t := Run(g, pts, p[..|p| - 1]);
    var e := p[|p| - 1];
    assert Run(g, pts, p) == Step(g, pts, t, e);
    ChildStepped(g, pts, t, e);
    ObjAtAfterChild(g, pts, p, t.obj.value);
  }

  /** A child element that raised nothing was appended to an open record. */
  lemma ChildStepped(g: Grammar, pts: bool, t: Trace, e: Event)
    requires e.Start? && IsChild(g, e.tag)
    requires Step(g, pts, t, e).error.None?
    ensures t.obj.Some? && AddChild(g, t.obj, e.tag, e.attrs).Ok?
    ensures Step(g, pts, t, e) == t.(obj := Some(AddChild(g, t.obj, e.tag, e.attrs).value))
  {
    assert !IsPrimitive(g, e.tag);
  }

  /** `StateAt` for one more event of any other kind. */
  lemma StepOther(g: Grammar, pts: bool, p: seq<Event>)
    requires p != [] && !IsPrimitive(g, p[|p| - 1].tag) && !(p[|p| - 1].Start? && IsChild(g, p[|p| - 1].tag))
    requires Run(g, pts, p).error.None? && InStep(g, pts, p[..|p| - 1])
    ensures InStep(g, pts, p)
  {
    assert Run(g, pts, p) == Step(g, pts, Run(g, pts, p[..|p| - 1]), p[|p| - 1]);
    ObjAtAfterOther(g, pts, p);
  }

  /**
   * After any prefix that raised nothing, the loop's `action` is `ActionAt`, its
   * `obj` is `ObjAt`, and it has yielded once per record element closed so far.
   */
  lemma {:induction false} StateAt(g: Grammar, pts: bool, p: seq<Event>)
    requires Run(g, pts, p).error.None?
    ensures Run(g, pts, p).action == ActionAt(g, p)
    ensures ObjAt(g, pts, p) == Ok(Run(g, pts, p).obj)
    ensures |Run(g, pts, p).out| == CountCloses(g, p)
    decreases |p|
  {
    if p != [] {
      StateAt(g, pts, p[..|p| - 1]);
      var e := p[|p| - 1];
      if IsPrimitive(g, e.tag) {
        StepRecord(g, pts, p);
      } else if e.Start? && IsChild(g, e.tag) {
        StepChild(g, pts, p);
      } else {
        StepOther(g, pts, p);
      }
    }
  }

  /**
   * Order and pairing: the record element closing at position `j` produces yield
   * number `CountCloses(E[..j])`, paired with the action in force there and carrying
   * the record `ObjAt` describes; later events cannot take it back.
   */
  lemma YieldAtClose(g: Grammar, pts: bool, events: seq<Event>, j: nat)
    requires j < |events| && events[j].End? && IsPrimitive(g, events[j].tag)
    requires Run(g, pts, events[..j]).error.None?
    ensures CountCloses(g, events[..j]) < |Run(g, pts, events).out|
    ensures var y := Run(g, pts, events).out[CountCloses(g, events[..j])];
      y.action == ActionAt(g, events[..j]) && ObjAt(g, pts, events[..j]) == Ok(y.obj)
  {
    StateAt(g, pts, events[..j]);
    var p := events[..j + 1];
    assert p[..j] == events[..j];
    RunExtends(g, pts, events, j + 1);
  }

  /** A run that raised nothing yielded exactly once per closing record element. */
  lemma YieldCount(g: Grammar, pts: bool, events: seq<Event>)
    requires Run(g, pts, events).error.None?
    ensures |Run(g, pts, events).out| == CountCloses(g, events)
  {
    StateAt(g, pts, events);
  }

  /** Only the diff grammar pairs records with an action; the other two yield bare records. */
  lemma {:induction false} NoActionOutsideDiffs(g: Grammar, pts: bool, events: seq<Event>)
    requires g != OsmChange
    ensures forall i :: 0 <= i < |Run(g, pts, events).out| ==> Run(g, pts, events).out[i].action.None?
    ensures Run(g, pts, events).action.None?
    decreases |events|
  {
    if events != [] {
      NoActionOutsideDiffs(g, pts, events[..|events| - 1]);
    }
  }

  /** With no record element before, or a closing one last, no record is open. */
  lemma NoOpenRecord(g: Grammar, pts: bool, q: seq<Event>)
    requires var s := LastPrimitive(g, q); s.None? || q[s.value].End?
    ensures ObjAt(g, pts, q) == Ok(None)
  {
    if LastPrimitive(g, q).Some? {
      ObjAtAt(g, pts, q, LastPrimitive(g, q).value);
    }
  }

  lemma OrphanStep(g: Grammar, pts: bool, q: seq<Event>, e: Event)
    requires e.Start? && IsChild(g, e.tag)
    requires Run(g, pts, q).error.None? && Run(g, pts, q).obj.None?
    ensures Run(g, pts, q + [e]).error == Some(NoOpenObject(e.tag))
  {
    assert (q + [e])[..|q|] == q;
  }

  /**
   * A child element while no record is open (none started yet, or the last one already
   * yielded, after which `obj` is `None`) stops the decoder with an exception.
   */
  lemma OrphanChildFails(g: Grammar, pts: bool, events: seq<Event>, k: nat)
    requires k < |events| && events[k].Start? && IsChild(g, events[k].tag)
    requires var s := LastPrimitive(g, events[..k]); s.None? || events[s.value].End?
    ensures Run(g, pts, events).error.Some?
    ensures Run(g, pts, events[..k]).error.None? ==>
      Run(g, pts, events).error == Some(NoOpenObject(events[k].tag))
  {
    if Run(g, pts, events[..k]).error.Some? {
      RunExtends(g, pts, events, k);
    } else {
      OrphanChildAfterClean(g, pts, events, k);
    }
  }

  /** The case of `OrphanChildFails` where the events before the child raised nothing. */
  lemma OrphanChildAfterClean(g: Grammar, pts: bool, events: seq<Event>, k: nat)
    requires k < |events| && events[k].Start? && IsChild(g, events[k].tag)
    requires var s := LastPrimitive(g, events[..k]); s.None? || events[s.value].End?
    requires Run(g, pts, events[..k]).error.None?
    ensures Run(g, pts, events).error == Some(NoOpenObject(events[k].tag))
  {
    var q := events[..k];
    var s := LastPrimitive(g, q);
    assert s.Some? ==> q[s.value] == events[s.value];
    NoOpenRecord(g, pts, q);
    StateAt(g, pts, q);
    OrphanStep(g, pts, q, events[k]);
    OrphanPrefix(g, pts, events, k);
    RunExtends(g, pts, events, k + 1);
  }

  /** `events[..k + 1]` is `events[..k]` with the child appended. */
  lemma OrphanPrefix(g: Grammar, pts: bool, events: seq<Event>, k: nat)
    requires k < |events| && events[k].Start?
    requires Run(g, pts, events[..k] + [events[k]]).error == Some(NoOpenObject(events[k].tag))
    ensures Run(g, pts, events[..k + 1]).error == Some(NoOpenObject(events[k].tag))
  {
    assert events[..k + 1] == events[..k] + [events[k]];
  }

  /** A record element missing `id` (or, in a diff, `version`/`changeset`), or with a malformed integer, stops the decoder. */
  lemma UndecodableRecordFails(g: Grammar, pts: bool, events: seq<Event>, k: nat)
    requires k < |events| && events[k].Start? && IsPrimitive(g, events[k].tag)
    requires !Decodable(g, events[k].tag, events[k].attrs)
    ensures Run(g, pts, events).error.Some?
  {
    var q := events[..k];
    if Run(g, pts, q).error.Some? {
      RunExtends(g, pts, events, k);
    } else {
      var p := events[..k + 1];
      assert p[..k] == q;
      RunExtends(g, pts, events, k + 1);
    }
  }
}
