/**
 * What the three stream generators share: the `start_sqn` a caller passes, the
 * `state_dir` whose saved cursor overrides it, and the items the generators yield.
 */
module Streams {
  import opened Wrappers
  import opened Records
  import opened Text
  import opened Decimal
  import opened StateFile
  import opened Decoder

  /** A caller's `start_sqn`: `None`, an integer, or the text of a state file value. */
  datatype Start = NoStart | Number(n: int) | Label(text: string)

  /** Python truthiness of `start_sqn`: `None`, `0` and `''` count as no start. */
  predicate Given(s: Start) {
    match s
    case NoStart => false
    case Number(n) => n != 0
    case Label(t) => t != []
  }

  /** `int(start_sqn)`. */
  function StartNumber(s: Start): (r: Result<int, Error>)
    requires Given(s)
    ensures s.Number? ==> r == Ok(s.n)
    ensures s.Label? ==> (r.Ok? <==> ParseInt(s.text).Some?)
    ensures s.Label? && r.Ok? ==> ParseInt(s.text) == Some(r.value)
  {
    match s
    case Number(n) => Ok(n)
    case Label(t) =>
      match ParseInt(t)
      case None => Err(NotAnInteger(t))
      case Some(n) => Ok(n)
  }

  /** `'%s' % start_sqn` and `str(start_sqn)`: `None` prints as `None`. */
  function StartText(s: Start): (r: string)
    ensures s.Number? ==> r == IntToString(s.n)
    ensures s.Label? ==> r == s.text
  {
    match s
    case NoStart => "None"
    case Number(n) => IntToString(n)
    case Label(t) => t
  }

  /** A caller's `state_dir`: whether it exists, and the text of its cursor file when there is one. */
  datatype StateDir = StateDir(present: bool, cursor: Option<string>)

  /**
   * The start a stream uses: a `state_dir` that does not exist is an error, a cursor
   * file in it replaces the caller's `start_sqn` with its `key` entry, and otherwise
   * the caller's start stands.
   */
  function ResumeFrom(dir: Option<StateDir>, start: Start, sep: string, key: string): (r: Result<Start, Error>)
    ensures dir.Some? && !dir.value.present ==> r == Err(StateDirMissing)
    ensures dir.None? || (dir.value.present && dir.value.cursor.None?) ==> r == Ok(start)
    ensures dir.Some? && dir.value.present && dir.value.cursor.Some? ==>
      var saved := ReadStateOf(FileLines(dir.value.cursor.value), sep);
      r == if saved.Err? then Err(saved.error)
           else if key in saved.value then Ok(Label(saved.value[key]))
           else Err(MissingKey(key))
  {
    if dir.None? then Ok(start)
    else if !dir.value.present then Err(StateDirMissing)
    else match dir.value.cursor
      case None => Ok(start)
      case Some(text) =>
        var state :- ReadStateOf(FileLines(text), sep);
        if key in state then Ok(Label(state[key])) else Err(MissingKey(key))
  }

  /**
   * Why a stream stopped producing: an exception, or the outcomes given to the model
   * ran out while the generator was still retrying a fetch.
   */
  datatype Halt = Failed(error: Error) | Stalled

  /** The sequence a `Finished` marker names: a counter, or the text of a state file value. */
  datatype SequenceId = Counter(n: int) | Named(text: string)

  /**
   * One item a stream yields: a bare record (the changeset stream), an
   * `(action, record)` pair (the diff streams), or the `Finished` checkpoint after a
   * sequence (yielded bare by the changeset stream and as `(None, Finished(...))` by
   * the diff streams).
   */
  datatype Item =
    | Record(obj: Option<Primitive>)
    | Change(action: Option<string>, obj: Option<Primitive>)
    | Finished(sequence: SequenceId, timestamp: Option<Stamp>)

  function Bare(objs: seq<Option<Primitive>>): (r: seq<Item>)
    ensures |r| == |objs|
    ensures forall i :: 0 <= i < |r| ==> r[i] == Record(objs[i])
  {
    if objs == [] then [] else Bare(objs[..|objs| - 1]) + [Record(objs[|objs| - 1])]
  }

  function Changes(out: seq<Yield>): (r: seq<Item>)
    ensures |r| == |out|
    ensures forall i :: 0 <= i < |r| ==> r[i] == Change(out[i].action, out[i].obj)
  {
    if out == [] then [] else Changes(out[..|out| - 1]) + [Change(out[|out| - 1].action, out[|out| - 1].obj)]
  }

  /** The sequences named by the `Finished` markers among `items`, in order. */
  function Markers(items: seq<Item>): seq<SequenceId> {
    if items == [] then []
    else Markers(items[..|items| - 1]) + (if items[|items| - 1].Finished? then [items[|items| - 1].sequence] else [])
  }

  lemma {:induction false} MarkersAppend(a: seq<Item>, b: seq<Item>)
    ensures Markers(a + b) == Markers(a) + Markers(b)
    decreases |b|
  {
    if b == [] {
      assert a + b == a;
    } else {
      var c := b[..|b| - 1];
      assert (a + b)[..|a + b| - 1] == a + c;
      MarkersAppend(a, c);
    }
  }

  /** Records and changes carry no marker. */
  lemma {:induction false} MarkersOfBare(objs: seq<Option<Primitive>>)
    ensures Markers(Bare(objs)) == []
    decreases |objs|
  {
    if objs != [] {
      MarkersOfBare(objs[..|objs| - 1]);
    }
  }

  lemma {:induction false} MarkersOfChanges(out: seq<Yield>)
    ensures Markers(Changes(out)) == []
    decreases |out|
  {
    if out != [] {
      MarkersOfChanges(out[..|out| - 1]);
    }
  }

  /** The records among `items`, in order, with the markers left out. */
  function Payload(items: seq<Item>): seq<Option<Primitive>> {
    if items == [] then []
    else Payload(items[..|items| - 1]) + (if items[|items| - 1].Finished? then [] else [items[|items| - 1].obj])
  }

  lemma {:induction false} PayloadAppend(a: seq<Item>, b: seq<Item>)
    ensures Payload(a + b) == Payload(a) + Payload(b)
    decreases |b|
  {
    if b == [] {
      assert a + b == a;
    } else {
      var c := b[..|b| - 1];
      assert (a + b)[..|a + b| - 1] == a + c;
      PayloadAppend(a, c);
    }
  }

  lemma {:induction false} PayloadOfBare(objs: seq<Option<Primitive>>)
    ensures Payload(Bare(objs)) == objs
    decreases |objs|
  {
    if objs != [] {
      var b := Bare(objs[..|objs| - 1]);
      assert (b + [Record(objs[|objs| - 1])])[..|b|] == b;
      PayloadOfBare(objs[..|objs| - 1]);
      assert objs[..|objs| - 1] + [objs[|objs| - 1]] == objs;
    }
  }

  lemma ObjectsOfSnoc(init: seq<Yield>, y: Yield)
    ensures ObjectsOf(init + [y]) == ObjectsOf(init) + [y.obj]
  {
    var a := ObjectsOf(init + [y]);
    var b := ObjectsOf(init) + [y.obj];
    assert |a| == |b|;
    forall i | 0 <= i < |a|
      ensures a[i] == b[i]
    {
      if i < |init| {
        assert (init + [y])[i] == init[i];
      }
    }
  }

  lemma {:induction false} PayloadOfChanges(out: seq<Yield>)
    ensures Payload(Changes(out)) == ObjectsOf(out)
    decreases |out|
  {
    if out != [] {
      var init := out[..|out| - 1];
      var c := Changes(init);
      var last := Change(out[|out| - 1].action, out[|out| - 1].obj);
      assert Changes(out) == c + [last];
      assert (c + [last])[..|c|] == c;
      PayloadOfChanges(init);
      ObjectsOfSnoc(init, out[|out| - 1]);
      assert init + [out[|out| - 1]] == out;
    }
  }
}
