/**
 * `iter_changeset_stream`: from a first sequence number, fetch each sequence's
 * changeset file (retrying 404s with back-off), yield its changesets, then a
 * `Finished` checkpoint, and save `sequence: <next>` as the cursor.
 *
 * The network is a script: for each sequence, the outcomes its fetch attempts would
 * meet, with a fetched body given as the parse events of its decompressed XML.
 */
module ChangesetStream {
  import opened Wrappers
  import opened Records
  import opened Text
  import opened Decimal
  import opened StateFile
  import opened Fields
  import opened Decoder
  import opened Backoff
  import opened Streams

  /** The outcomes of the fetch attempts for one sequence's `.osm.gz` file. */
  type Attempts = seq<Outcome<seq<Event>>>

  /**
   * The first sequence: the caller's start or the saved cursor that overrides it;
   * with neither, the `sequence` entry of the feed's own `state.yaml`, fetched once
   * without retrying.
   */
  function FirstSequence(dir: Option<StateDir>, start: Start, latest: Outcome<string>): Result<int, Error> {
    var s :- ResumeFrom(dir, start, ": ", "sequence");
    if Given(s) then StartNumber(s)
    else
      var text :- FetchOnce(latest);
      var state :- ReadStateOf(FileLines(text), ": ");
      if "sequence" in state then ToInt(state["sequence"]) else Err(MissingKey("sequence"))
  }

  /** The saved cursor `sequence: n` makes the stream resume at `n`, whatever the caller passed. */
  lemma ResumeFromCursor(n: int, start: Start, latest: Outcome<string>)
    ensures FirstSequence(Some(StateDir(true, Some(CursorText(n)))), start, latest) == Ok(n)
  {
    CursorRoundTrip(n);
    assert Given(Label(IntToString(n)));
  }

  /** Without a state directory a non-zero integer start is used as it is. */
  lemma StartsAtGivenNumber(n: int, latest: Outcome<string>)
    requires n != 0
    ensures FirstSequence(None, Number(n), latest) == Ok(n)
  {
  }

  /** What one sequence gives the loop: the changesets decoded, and the halt that stops the stream there, if any. */
  datatype SequenceResult = SequenceResult(records: seq<Option<Primitive>>, halt: Option<Halt>)

  /**
   * One sequence: the retried fetch of its file, then the changeset loop over the
   * body, which yields up to the first exception.
   */
  function Attempt(attempts: Attempts, pts: bool): (r: SequenceResult)
    ensures FetchedOf(attempts).Retrying? ==> r == SequenceResult([], Some(Stalled))
    ensures FetchedOf(attempts).Raised? ==> r == SequenceResult([], Some(Failed(FetchedOf(attempts).error)))
    ensures FetchedOf(attempts).Got? ==>
      var t := Run(ChangesetFeed, pts, FetchedOf(attempts).content);
      r.records == ObjectsOf(t.out) && (r.halt.None? <==> t.error.None?)
      && (t.error.Some? ==> r.halt == Some(Failed(t.error.value)))
  {
    match FetchedOf(attempts)
    case Retrying => SequenceResult([], Some(Stalled))
    case Raised(e) => SequenceResult([], Some(Failed(e)))
    case Got(events) =>
      var t := Run(ChangesetFeed, pts, events);
      SequenceResult(ObjectsOf(t.out), if t.error.Some? then Some(Failed(t.error.value)) else None)
  }

  function Attempted(script: seq<Attempts>, pts: bool): (r: seq<SequenceResult>)
    ensures |r| == |script|
  {
    if script == [] then [] else Attempted(script[..|script| - 1], pts) + [Attempt(script[|script| - 1], pts)]
  }

  lemma {:induction false} AttemptedAt(script: seq<Attempts>, pts: bool, k: nat)
    requires k < |script|
    ensures Attempted(script, pts)[k] == Attempt(script[k], pts)
    decreases |script|
  {
    if k < |script| - 1 {
      AttemptedAt(script[..|script| - 1], pts, k);
    }
  }

  /**
   * Where the stream stands: what it has yielded, the sequences it has requested, the
   * numbers it has saved as cursors, how many sequences it finished, and whether it halted.
   */
  datatype Progress = Progress(items: seq<Item>, requested: seq<int>, saved: seq<int>, done: nat, halt: Option<Halt>)

  /** One pass of the `while True` loop, for sequence `first + p.done`. */
  function Step(first: int, p: Progress, r: SequenceResult, saving: bool): Progress
    requires p.halt.None?
  {
    var sqn := first + p.done;
    var p1 := p.(items := p.items + Bare(r.records), requested := p.requested + [sqn]);
    if r.halt.Some? then p1.(halt := r.halt)
    else p1.(items := p1.items + [Finished(Counter(sqn), None)],
             saved := p.saved + (if saving then [sqn + 1] else []),
             done := p.done + 1)
  }

  /** The stream from sequence `first`, one result per sequence, stopping at the first halt. */
  function Follow(first: int, results: seq<SequenceResult>, saving: bool): Progress {
    if results == [] then Progress([], [], [], 0, None)
    else
      var p := Follow(first, results[..|results| - 1], saving);
      if p.halt.Some? then p else Step(first, p, results[|results| - 1], saving)
  }

  /** Once halted, the stream takes nothing more. */
  lemma {:induction false} FollowStops(first: int, results: seq<SequenceResult>, saving: bool, k: nat)
    requires k <= |results| && Follow(first, results[..k], saving).halt.Some?
    ensures Follow(first, results, saving) == Follow(first, results[..k], saving)
    decreases |results|
  {
    if k < |results| {
      var init := results[..|results| - 1];
      assert init[..k] == results[..k];
      FollowStops(first, init, saving, k);
    } else {
      assert results[..k] == results;
    }
  }

  /** A step past a stream that has not halted. */
  lemma FollowSnoc(first: int, results: seq<SequenceResult>, r: SequenceResult, saving: bool)
    requires Follow(first, results, saving).halt.None?
    ensures Follow(first, results + [r], saving) == Step(first, Follow(first, results, saving), r, saving)
  {
    assert (results + [r])[..|results|] == results;
  }

  /** A sequence that completes adds its changesets, its checkpoint and, with a state directory, its cursor. */
  lemma CompletedStep(first: int, p: Progress, r: SequenceResult, saving: bool)
    requires p.halt.None? && r.halt.None?
    ensures Step(first, p, r, saving) ==
      Progress(p.items + Bare(r.records) + [Finished(Counter(first + p.done), None)],
               p.requested + [first + p.done],
               p.saved + (if saving then [first + p.done + 1] else []), p.done + 1, None)
  {
  }

  /** A sequence that halts the stream adds the changesets decoded before the halt and nothing else. */
  lemma HaltedStep(first: int, p: Progress, r: SequenceResult, saving: bool)
    requires p.halt.None? && r.halt.Some?
    ensures Step(first, p, r, saving) ==
      Progress(p.items + Bare(r.records), p.requested + [first + p.done], p.saved, p.done, r.halt)
  {
  }

  lemma PathsSnoc(requested: seq<int>, n: int)
    ensures PathsOf(requested + [n]) == PathsOf(requested) + [PathOf(IntToString(n))]
  {
    assert (requested + [n])[..|requested|] == requested;
  }

  lemma CursorTextsSnoc(saved: seq<int>, n: int)
    ensures CursorTexts(saved + [n]) == CursorTexts(saved) + [CursorText(n)]
  {
    assert (saved + [n])[..|saved|] == saved;
  }

  function CursorTexts(saved: seq<int>): (r: seq<string>)
    ensures |r| == |saved|
  {
    if saved == [] then []
    else CursorTexts(saved[..|saved| - 1]) + [CursorText(saved[|saved| - 1])]
  }

  lemma {:induction false} CursorTextsAt(saved: seq<int>, k: nat)
    requires k < |saved|
    ensures CursorTexts(saved)[k] == CursorText(saved[k])
    decreases |saved|
  {
    if k < |saved| - 1 {
      CursorTextsAt(saved[..|saved| - 1], k);
    }
  }

  /** The URL paths of the requested sequence files. */
  function PathsOf(requested: seq<int>): (r: seq<SequencePath>)
    ensures |r| == |requested|
  {
    if requested == [] then []
    else PathsOf(requested[..|requested| - 1]) + [PathOf(IntToString(requested[|requested| - 1]))]
  }

  /** What a caller of the generator sees of `p`: the items, the requested paths, the saved cursors. */
  function Seen(p: Progress): (seq<Item>, seq<SequencePath>, seq<string>) {
    (p.items, PathsOf(p.requested), CursorTexts(p.saved))
  }

  /** `results` lists what each entry of the script comes to. */
  ghost predicate Explains(script: seq<Attempts>, pts: bool, results: seq<SequenceResult>) {
    |results| == |script| && forall i :: 0 <= i < |script| ==> results[i] == Attempt(script[i], pts)
  }

  /**
   * One pass of the loop's fetch: `changesets/NNN/NNN/NNN.osm.gz` retried while it is
   * missing, then decoded, with the first exception kept.
   */
  method FetchSequence(fetcher: Fetcher, script: seq<Attempts>, k: nat, pts: bool, ghost results: seq<SequenceResult>)
    returns (r: SequenceResult)
    requires fetcher.Valid() && k < |script|
    requires Explains(script, pts, results)
    modifies fetcher
    ensures fetcher.Valid()
    ensures r == results[k]
  {
    var fetched, _ := fetcher.Retrieve(script[k]);
    if fetched.Retrying? {
      return SequenceResult([], Some(Stalled));
    }
    if fetched.Raised? {
      return SequenceResult([], Some(Failed(fetched.error)));
    }
    var changesets, error := DecodeChangesets(fetched.content, pts);
    r := SequenceResult(changesets, if error.Some? then Some(Failed(error.value)) else None);
  }

  /**
   * One turn of the `while True` loop for sequence `first + k`: request its file,
   * yield its changesets, then the `Finished` marker, and save the next cursor.
   */
  method NextSequence(fetcher: Fetcher, first: int, script: seq<Attempts>, k: nat, pts: bool, saving: bool,
                      ghost results: seq<SequenceResult>,
                      items: seq<Item>, paths: seq<SequencePath>, cursors: seq<string>)
    returns (items': seq<Item>, paths': seq<SequencePath>, cursors': seq<string>, halt: Option<Halt>)
    requires fetcher.Valid() && k < |script| && Explains(script, pts, results)
    requires var p := Follow(first, results[..k], saving);
      p.halt.None? && p.done == k && (items, paths, cursors) == Seen(p)
    modifies fetcher
    ensures fetcher.Valid()
    ensures var q := Follow(first, results[..k + 1], saving);
      (items', paths', cursors') == Seen(q) && halt == q.halt && (halt.None? ==> q.done == k + 1)
  {
    ghost var p := Follow(first, results[..k], saving);
    var sequenceNumber := first + k;
    PathsSnoc(p.requested, sequenceNumber);
    paths' := paths + [PathOf(IntToString(sequenceNumber))];
    var r := FetchSequence(fetcher, script, k, pts, results);
    Advance(first, results, saving, k, p);
    items' := items + Bare(r.records);
    cursors' := cursors;
    halt := r.halt;
    if halt.None? {
      items' := items' + [Finished(Counter(sequenceNumber), None)];
      if saving {
        CursorTextsSnoc(p.saved, sequenceNumber + 1);
        cursors' := cursors + [CursorText(sequenceNumber + 1)];
      }
    }
  }

  /**
   * The `while True` loop from sequence `first` on, one script entry per sequence;
   * `results` names what each entry comes to.
   */
  method FollowScript(first: int, script: seq<Attempts>, pts: bool, saving: bool, ghost results: seq<SequenceResult>)
    returns (items: seq<Item>, paths: seq<SequencePath>, cursors: seq<string>, halt: Option<Halt>)
    requires Explains(script, pts, results)
    ensures var p := Follow(first, results, saving);
      (items, paths, cursors) == Seen(p) && halt == p.halt
  {
    var fetcher := new Fetcher();
    items, paths, cursors, halt := [], [], [], None;
    assert results[..0] == [];
    var k := 0;
    while k < |script|
      invariant 0 <= k <= |script| && fetcher.Valid() && halt.None?
      invariant var p := Follow(first, results[..k], saving);
        p.halt.None? && p.done == k && (items, paths, cursors) == Seen(p)
    {
      items, paths, cursors, halt := NextSequence(fetcher, first, script, k, pts, saving, results, items, paths, cursors);
      if halt.Some? {
        FollowStops(first, results, saving, k + 1);
        return;
      }
      k := k + 1;
    }
    assert results[..k] == results;
  }

  /**
   * `iter_changeset_stream(start_sqn, ..., state_dir)`: the items it yields, the
   * paths of the sequence files it requests, the cursors it saves, and why it stopped
   * (`None` when the script ran out between sequences).
   */
  method IterChangesetStream(start: Start, dir: Option<StateDir>, latest: Outcome<string>,
                             script: seq<Attempts>, pts: bool)
    returns (items: seq<Item>, paths: seq<SequencePath>, cursors: seq<string>, halt: Option<Halt>)
    ensures FirstSequence(dir, start, latest).Err? ==>
      items == [] && paths == [] && cursors == [] && halt == Some(Failed(FirstSequence(dir, start, latest).error))
    ensures FirstSequence(dir, start, latest).Ok? ==>
      var p := Follow(FirstSequence(dir, start, latest).value, Attempted(script, pts), dir.Some?);
      items == p.items && paths == PathsOf(p.requested) && cursors == CursorTexts(p.saved) && halt == p.halt
  {
    var first := FirstSequence(dir, start, latest);
    if first.Err? {
      return [], [], [], Some(Failed(first.error));
    }
    ghost var results := Attempted(script, pts);
    forall i | 0 <= i < |script|
      ensures results[i] == Attempt(script[i], pts)
    {
      AttemptedAt(script, pts, i);
    }
    items, paths, cursors, halt := FollowScript(first.value, script, pts, dir.Some?, results);
  }

  /**
   * What sequence `first + k` does to the stream: a halt ends it with the changesets
   * decoded before it, a completed sequence adds its checkpoint and cursor.
   */
  lemma Advance(first: int, results: seq<SequenceResult>, saving: bool, k: nat, p: Progress)
    requires k < |results| && Follow(first, results[..k], saving) == p && p.halt.None?
    ensures results[k].halt.Some? ==> (Follow(first, results[..k + 1], saving) ==
      Progress(p.items + Bare(results[k].records), p.requested + [first + p.done], p.saved, p.done, results[k].halt))
    ensures results[k].halt.None? ==> (Follow(first, results[..k + 1], saving) ==
      Progress(p.items + Bare(results[k].records) + [Finished(Counter(first + p.done), None)],
               p.requested + [first + p.done],
               if saving then p.saved + [first + p.done + 1] else p.saved, p.done + 1, None))
  {
    var r := results[k];
    assert results[..k + 1] == results[..k] + [r];
    FollowSnoc(first, results[..k], r, saving);
    if r.halt.Some? {
      HaltedStep(first, p, r, saving);
    } else {
      CompletedStep(first, p, r, saving);
      assert p.saved + [] == p.saved;
    }
  }

  /** The items of finished sequences: each one's changesets, then its checkpoint. */
  function Blocks(first: int, results: seq<SequenceResult>): seq<Item> {
    if results == [] then []
    else Blocks(first, results[..|results| - 1])
         + Bare(results[|results| - 1].records) + [Finished(Counter(first + |results| - 1), None)]
  }

  /**
   * The stream's shape: it finishes a prefix of the sequences, halts at the first one
   * that does not complete, and requests consecutive sequence numbers from `first` on.
   */
  lemma {:induction false} FollowShape(first: int, results: seq<SequenceResult>, saving: bool)
    ensures var p := Follow(first, results, saving);
      && p.done <= |results|
      && (p.halt.None? <==> p.done == |results|)
      && (forall k :: 0 <= k < p.done ==> results[k].halt.None?)
      && (p.halt.Some? ==> p.halt == results[p.done].halt)
      && |p.requested| == (if p.halt.Some? then p.done + 1 else p.done)
      && (forall k :: 0 <= k < |p.requested| ==> p.requested[k] == first + k)
    decreases |results|
  {
    if results != [] {
      var init := results[..|results| - 1];
      FollowShape(first, init, saving);
      assert forall k :: 0 <= k < |init| ==> init[k] == results[k];
    }
  }

  /**
   * Checkpoint placement: for each finished sequence the stream yields its changesets
   * and then its `Finished` marker, and after a halt only the changesets decoded
   * before it.
   */
  lemma {:induction false} FollowItems(first: int, results: seq<SequenceResult>, saving: bool)
    ensures var p := Follow(first, results, saving);
      p.done <= |results| &&
      p.items == Blocks(first, results[..p.done])
                 + (if p.done < |results| then Bare(results[p.done].records) else [])
    decreases |results|
  {
    FollowShape(first, results, saving);
    if results != [] {
      var init := results[..|results| - 1];
      var q := Follow(first, init, saving);
      FollowItems(first, init, saving);
      FollowShape(first, init, saving);
      if q.halt.Some? {
        assert init[..q.done] == results[..q.done];
        assert init[q.done] == results[q.done];
      } else {
        assert init[..q.done] == init;
        StepItems(first, q, results, saving);
      }
    }
  }

  lemma StepItems(first: int, q: Progress, results: seq<SequenceResult>, saving: bool)
    requires results != [] && q.halt.None? && q.done == |results| - 1
    requires q.items == Blocks(first, results[..|results| - 1])
    ensures var p := Step(first, q, results[|results| - 1], saving);
      p.items == Blocks(first, results[..p.done])
                 + (if p.done < |results| then Bare(results[p.done].records) else [])
  {
    var p := Step(first, q, results[|results| - 1], saving);
    if p.done == |results| {
      assert results[..p.done] == results;
    }
  }

  /** The consecutive counters `first`, `first + 1`, ... of `n` checkpoints. */
  function Counters(first: int, n: nat): (r: seq<SequenceId>)
    ensures |r| == n
  {
    if n == 0 then [] else Counters(first, n - 1) + [Counter(first + n - 1)]
  }

  lemma {:induction false} MarkersOfBlocks(first: int, results: seq<SequenceResult>)
    ensures Markers(Blocks(first, results)) == Counters(first, |results|)
    decreases |results|
  {
    if results != [] {
      var init := results[..|results| - 1];
      var b := Bare(results[|results| - 1].records);
      var f := [Finished(Counter(first + |results| - 1), None)];
      MarkersOfBlocks(first, init);
      MarkersAppend(Blocks(first, init) + b, f);
      MarkersAppend(Blocks(first, init), b);
      MarkersOfBare(results[|results| - 1].records);
      assert Markers(f) == [Counter(first + |results| - 1)];
    }
  }

  /**
   * The checkpoints of the changeset stream carry the consecutive numbers `first`,
   * `first + 1`, ..., one per finished sequence, in order.
   */
  lemma MarkersConsecutive(first: int, results: seq<SequenceResult>, saving: bool)
    ensures var p := Follow(first, results, saving);
      Markers(p.items) == Counters(first, p.done)
  {
    var p := Follow(first, results, saving);
    FollowItems(first, results, saving);
    MarkersOfBlocks(first, results[..p.done]);
    if p.done < |results| {
      MarkersAppend(Blocks(first, results[..p.done]), Bare(results[p.done].records));
      MarkersOfBare(results[p.done].records);
    } else {
      assert Blocks(first, results[..p.done]) + [] == Blocks(first, results[..p.done]);
    }
  }

  /** After finishing sequence `n` the stream saves the cursor for `n + 1`, and only with a state directory. */
  lemma {:induction false} FollowSaves(first: int, results: seq<SequenceResult>, saving: bool)
    ensures var p := Follow(first, results, saving);
      && |p.saved| == (if saving then p.done else 0)
      && (forall k :: 0 <= k < |p.saved| ==> p.saved[k] == first + k + 1)
    decreases |results|
  {
    if results != [] {
      FollowSaves(first, results[..|results| - 1], saving);
    }
  }

  /**
   * Resuming from the last cursor written starts at the sequence after the last one
   * finished, which is the one the stream would request next.
   */
  lemma ResumeAfterLastCursor(first: int, results: seq<SequenceResult>, start: Start, latest: Outcome<string>)
    requires Follow(first, results, true).done > 0
    ensures var p := Follow(first, results, true);
      |p.saved| == p.done &&
      FirstSequence(Some(StateDir(true, Some(CursorTexts(p.saved)[p.done - 1]))), start, latest) == Ok(first + p.done)
  {
    var p := Follow(first, results, true);
    FollowSaves(first, results, true);
    CursorTextsAt(p.saved, p.done - 1);
    ResumeFromCursor(first + p.done, start, latest);
  }
}
