/**
 * `iter_realtime_osm_stream`: the streaming replication feed. One request opens the
 * `tail` of the feed at the start sequence; the response is read frame after frame,
 * each frame a state chunk and a compressed diff chunk (module `Frames`). A frame
 * yields the diff's changes and a `Finished` checkpoint and, with a state directory,
 * saves its state chunk as the cursor. The response is finite here, so the loop ends
 * when a read fails; at the end of the response that is `int('')`.
 *
 * The stream is specified over any diff decoder `decode`, which gives what the change
 * loop makes of a diff chunk; the methods use `Decoding(inflate, pts)`, the decoder
 * of module `Decoder` over the parse events `inflate` gives for a chunk
 * (decompressing and tokenising it). `strptime` is the parameter `instant`.
 */
module RealtimeStream {
  import opened Wrappers
  import opened Records
  import opened Text
  import opened StateFile
  import opened Decoder
  import opened Backoff
  import opened Streams
  import opened Frames

  /** What one frame yields and the exception that ended it, if any. */
  datatype Frame = Frame(items: seq<Item>, error: Option<Error>)

  /** How the `state_data` chunk is read: stripped, split into lines, then `readState` with `=`. */
  function FrameState(stateData: string): Result<State, Error> {
    ReadStateOf(Split(Strip(stateData), "\n"), "=")
  }

  /**
   * A frame once its state has been read and its diff chunk received: the changes of
   * the diff, then `strptime(state['timestamp'])` and `state['sequenceNumber']` for the
   * `Finished` marker.
   */
  function Interpret(state: State, diff: string, decode: string -> Trace,
                     instant: string -> Option<real>): (f: Frame)
    ensures f.error.None? <==>
      decode(diff).error.None? && "timestamp" in state &&
      instant(state["timestamp"]).Some? && "sequenceNumber" in state
    ensures f.error.None? ==>
      f.items == Changes(decode(diff).out) +
                 [Finished(Named(state["sequenceNumber"]), Some(Parsed(state["timestamp"])))]
    ensures f.error.Some? ==> f.items == Changes(decode(diff).out)
  {
    var t := decode(diff);
    var changes := Changes(t.out);
    if t.error.Some? then Frame(changes, t.error)
    else if "timestamp" !in state then Frame(changes, Some(MissingKey("timestamp")))
    else if instant(state["timestamp"]).None? then Frame(changes, Some(BadTimestamp(state["timestamp"])))
    else if "sequenceNumber" !in state then Frame(changes, Some(MissingKey("sequenceNumber")))
    else Frame(changes + [Finished(Named(state["sequenceNumber"]), Some(Parsed(state["timestamp"])))], None)
  }

  /** A frame read off the wire: its state, its raw state chunk, its diff chunk, and where the next frame starts. */
  datatype Step = Step(state: State, stateData: string, diff: string, next: nat)

  /**
   * The reads of one pass of the loop from `pos`: the state chunk, `readState` over
   * it, then the diff chunk; an exception here comes before anything is yielded.
   */
  function StepAt(text: string, pos: nat): (r: Result<Step, Error>)
    requires pos <= |text|
    ensures r.Ok? ==> pos < r.value.next <= |text|
    ensures r.Ok? ==> FrameState(r.value.stateData) == Ok(r.value.state)
  {
    match ReadChunk(text, pos)
    case Err(e) => Err(e)
    case Ok((stateData, afterState)) =>
      match FrameState(stateData)
      case Err(e) => Err(e)
      case Ok(state) =>
        match ReadChunk(text, afterState)
        case Err(e) => Err(e)
        case Ok((diff, afterDiff)) => Ok(Step(state, stateData, diff, afterDiff))
  }

  /** What the stream yields, the cursors it saves, and the exception that ends it. */
  datatype Live = Live(items: seq<Item>, cursors: seq<string>, error: Error)

  /** The stream read from `pos` to the end of the response. */
  function Tail(text: string, pos: nat, decode: string -> Trace,
                instant: string -> Option<real>, saving: bool): Live
    requires pos <= |text|
    decreases |text| - pos
  {
    match StepAt(text, pos)
    case Err(e) => Live([], [], e)
    case Ok(step) =>
      var frame := Interpret(step.state, step.diff, decode, instant);
      if frame.error.Some? then Live(frame.items, [], frame.error.value)
      else
        var rest := Tail(text, step.next, decode, instant, saving);
        Live(frame.items + rest.items, (if saving then [step.stateData] else []) + rest.cursors, rest.error)
  }

  /** `Live` after `items` and `cursors` have already been produced. */
  function After(items: seq<Item>, cursors: seq<string>, rest: Live): Live {
    Live(items + rest.items, cursors + rest.cursors, rest.error)
  }

  /**
   * The stream before its request: the start, overridden by the `sequenceNumber` of a
   * saved `realtime_state.txt`, and the text it puts in the `tail` URL, or the exception raised
   * before the request.
   */
  function TailRequest(dir: Option<StateDir>, start: Start): (r: Result<string, Error>)
    ensures ResumeFrom(dir, start, "=", "sequenceNumber").Err? ==>
      r == Err(ResumeFrom(dir, start, "=", "sequenceNumber").error)
    ensures ResumeFrom(dir, start, "=", "sequenceNumber").Ok? ==>
      r == Ok(StartText(ResumeFrom(dir, start, "=", "sequenceNumber").value))
  {
    var s :- ResumeFrom(dir, start, "=", "sequenceNumber");
    Ok(StartText(s))
  }

  /**
   * The whole generator: the `tail` request (if it is made), and then the stream read
   * off the response `wire`.
   */
  function Realtime(dir: Option<StateDir>, start: Start, wire: Outcome<string>, decode: string -> Trace, instant: string -> Option<real>): (r: (Option<string>, Live))
    ensures TailRequest(dir, start).Err? ==> r == (None, Live([], [], TailRequest(dir, start).error))
    ensures TailRequest(dir, start).Ok? ==> r.0 == Some(TailRequest(dir, start).value)
    ensures TailRequest(dir, start).Ok? && wire.Body? ==>
      r.1 == Tail(wire.content, 0, decode, instant, dir.Some?)
    ensures TailRequest(dir, start).Ok? && !wire.Body? ==>
      r.1 == Live([], [], FetchOnce(wire).error)
  {
    match TailRequest(dir, start)
    case Err(e) => (None, Live([], [], e))
    case Ok(segment) =>
      match FetchOnce(wire)
      case Err(e) => (Some(segment), Live([], [], e))
      case Ok(text) => (Some(segment), Tail(text, 0, decode, instant, dir.Some?))
  }

  /** A completed frame yields its items, saves its state chunk when `saving`, and hands over to the next frame. */
  lemma TailAdvance(text: string, pos: nat, decode: string -> Trace,
                    instant: string -> Option<real>, saving: bool, step: Step, frame: Frame)
    requires pos <= |text| && StepAt(text, pos) == Ok(step)
    requires frame == Interpret(step.state, step.diff, decode, instant) && frame.error.None?
    ensures Tail(text, pos, decode, instant, saving) ==
      After(frame.items, if saving then [step.stateData] else [], Tail(text, step.next, decode, instant, saving))
  {
  }

  lemma AfterAfter(items: seq<Item>, cursors: seq<string>, more: seq<Item>, saved: seq<string>, rest: Live)
    ensures After(items, cursors, After(more, saved, rest)) == After(items + more, cursors + saved, rest)
  {
    assert items + (more + rest.items) == items + more + rest.items;
    assert cursors + (saved + rest.cursors) == cursors + saved + rest.cursors;
  }

  /**
   * What the source does with a diff chunk: `gzip` and `iterparse` (the parameter
   * `inflate`) and then `iter_osm_change_file`.
   */
  function Decoding(inflate: string -> seq<Event>, pts: bool): (decode: string -> Trace)
    ensures forall diff :: decode(diff) == Run(OsmChange, pts, inflate(diff))
  {
    diff => Run(OsmChange, pts, inflate(diff))
  }

  /** The reads of one frame, as the source makes them. */
  method ReadStep(text: string, pos: nat) returns (r: Result<Step, Error>)
    requires pos <= |text|
    ensures r == StepAt(text, pos)
  {
    var stateChunk := ReadChunk(text, pos);
    if stateChunk.Err? {
      return Err(stateChunk.error);
    }
    var (stateData, afterState) := stateChunk.value;
    var state := ReadState(Split(Strip(stateData), "\n"), "=");
    if state.Err? {
      return Err(state.error);
    }
    var diffChunk := ReadChunk(text, afterState);
    if diffChunk.Err? {
      return Err(diffChunk.error);
    }
    var (diff, afterDiff) := diffChunk.value;
    r := Ok(Step(state.value, stateData, diff, afterDiff));
  }

  /** The rest of a frame: the changes of its diff, then its `Finished` marker. */
  method InterpretFrame(state: State, diff: string, inflate: string -> seq<Event>, pts: bool,
                        instant: string -> Option<real>)
    returns (f: Frame)
    ensures f == Interpret(state, diff, Decoding(inflate, pts), instant)
  {
    var changes, error := IterOsmChangeFile(inflate(diff), pts);
    var items := Changes(changes);
    if error.None? {
      if "timestamp" !in state {
        error := Some(MissingKey("timestamp"));
      } else if instant(state["timestamp"]).None? {
        error := Some(BadTimestamp(state["timestamp"]));
      } else if "sequenceNumber" !in state {
        error := Some(MissingKey("sequenceNumber"));
      } else {
        items := items + [Finished(Named(state["sequenceNumber"]), Some(Parsed(state["timestamp"])))];
      }
    }
    f := Frame(items, error);
  }

  /** The `while True` loop over the response, saving each frame's state chunk when `saving`. */
  method FollowWire(text: string, inflate: string -> seq<Event>, pts: bool, instant: string -> Option<real>,
                    saving: bool)
    returns (items: seq<Item>, cursors: seq<string>, error: Error)
    ensures Live(items, cursors, error) == Tail(text, 0, Decoding(inflate, pts), instant, saving)
  {
    items, cursors := [], [];
    var pos := 0;
    ghost var whole := Tail(text, 0, Decoding(inflate, pts), instant, saving);
    assert [] + whole.items == whole.items && [] + whole.cursors == whole.cursors;
    while true
      invariant pos <= |text|
      invariant Tail(text, 0, Decoding(inflate, pts), instant, saving) ==
        After(items, cursors, Tail(text, pos, Decoding(inflate, pts), instant, saving))
      decreases |text| - pos
    {
      var step := ReadStep(text, pos);
      if step.Err? {
        assert items + [] == items && cursors + [] == cursors;
        return items, cursors, step.error;
      }
      var frame := InterpretFrame(step.value.state, step.value.diff, inflate, pts, instant);
      if frame.error.Some? {
        assert cursors + [] == cursors;
        return items + frame.items, cursors, frame.error.value;
      }
      TailAdvance(text, pos, Decoding(inflate, pts), instant, saving, step.value, frame);
      AfterAfter(items, cursors, frame.items, if saving then [step.value.stateData] else [],
                 Tail(text, step.value.next, Decoding(inflate, pts), instant, saving));
      items := items + frame.items;
      cursors := cursors + if saving then [step.value.stateData] else [];
      pos := step.value.next;
    }
  }

  /**
   * `iter_realtime_osm_stream(start_sqn, ..., parse_timestamps, state_dir)`: the text
   * put in the `tail` URL (`None` when no request is made), the items yielded, the
   * `realtime_state.txt` contents written, and the exception that ends the generator.
   */
  method IterRealtimeOsmStream(start: Start, dir: Option<StateDir>, wire: Outcome<string>,
                               inflate: string -> seq<Event>, pts: bool, instant: string -> Option<real>)
    returns (segment: Option<string>, items: seq<Item>, cursors: seq<string>, error: Error)
    ensures (segment, Live(items, cursors, error)) == Realtime(dir, start, wire, Decoding(inflate, pts), instant)
  {
    var s := ResumeFrom(dir, start, "=", "sequenceNumber");
    if s.Err? {
      return None, [], [], s.error;
    }
    segment := Some(StartText(s.value));
    var text := FetchOnce(wire);
    if text.Err? {
      return segment, [], [], text.error;
    }
    items, cursors, error := FollowWire(text.value, inflate, pts, instant, dir.Some?);
  }

  /** At the end of the response `readline()` gives `''` and `int('')` raises. */
  lemma TailAtEnd(text: string, decode: string -> Trace, instant: string -> Option<real>, saving: bool)
    ensures Tail(text, |text|, decode, instant, saving) == Live([], [], NotAnInteger(""))
  {
    LineEndAtEnd(text);
    assert text[|text|..|text|] == [];
  }

  /** What a frame the server sends comes to: its state read, then its diff interpreted. */
  function Served(stateData: string, diff: string, decode: string -> Trace,
                  instant: string -> Option<real>): Result<Frame, Error> {
    match FrameState(stateData)
    case Err(e) => Err(e)
    case Ok(state) => Ok(Interpret(state, diff, decode, instant))
  }

  /** A frame as the server encodes it is read back whole, and the next frame starts right after it. */
  lemma StepAtEncoded(text: string, pos: nat, step: Step)
    requires FrameState(step.stateData) == Ok(step.state)
    requires step.next == pos + |EncodeFrame(step.stateData, step.diff)| <= |text|
    requires text[pos..step.next] == EncodeFrame(step.stateData, step.diff)
    ensures StepAt(text, pos) == Ok(step)
  {
    ReadEncodedFrame(text, pos, step.stateData, step.diff);
    var next := pos + |EncodeFrame(step.stateData, step.diff)|;
    StepAtOfChunks(text, pos, step.stateData, pos + |EncodeChunk(step.stateData)|, step.diff, next);
    assert Step(FrameState(step.stateData).value, step.stateData, step.diff, next) == step;
  }

  /** The loop's reads, given what the two chunk reads return. */
  lemma StepAtOfChunks(text: string, pos: nat, stateData: string, afterState: nat, diff: string, afterDiff: nat)
    requires pos <= afterState <= |text|
    requires ReadChunk(text, pos) == Ok((stateData, afterState))
    requires ReadChunk(text, afterState) == Ok((diff, afterDiff))
    ensures FrameState(stateData).Err? ==> StepAt(text, pos) == Err(FrameState(stateData).error)
    ensures FrameState(stateData).Ok? ==> StepAt(text, pos) == Ok(Step(FrameState(stateData).value, stateData, diff, afterDiff))
  {
  }

  /** The response the server sends for `frames`, each a state chunk and a diff chunk. */
  function Wire(frames: seq<(string, string)>): (text: string)
    ensures frames == [] ==> text == []
  {
    if frames == [] then [] else EncodeFrame(frames[0].0, frames[0].1) + Wire(frames[1..])
  }

  /** Every frame reads, decodes and names its sequence and timestamp. */
  ghost predicate Complete(frames: seq<(string, string)>, decode: string -> Trace,
                           instant: string -> Option<real>) {
    forall i :: 0 <= i < |frames| ==>
      Served(frames[i].0, frames[i].1, decode, instant).Ok? &&
      Served(frames[i].0, frames[i].1, decode, instant).value.error.None?
  }

  /** What the frames yield, one after the other. */
  function ServedItems(frames: seq<(string, string)>, decode: string -> Trace,
                       instant: string -> Option<real>): seq<Item>
    requires Complete(frames, decode, instant)
  {
    if frames == [] then []
    else Served(frames[0].0, frames[0].1, decode, instant).value.items + ServedItems(frames[1..], decode, instant)
  }

  /** The state chunks of the frames, in order. */
  function StateChunks(frames: seq<(string, string)>): (r: seq<string>)
    ensures |r| == |frames| && forall i :: 0 <= i < |frames| ==> r[i] == frames[i].0
  {
    if frames == [] then [] else [frames[0].0] + StateChunks(frames[1..])
  }

  /** From `pos` on, `text` is exactly the server's encoding of `frames`. */
  ghost predicate Framed(text: string, pos: nat, frames: seq<(string, string)>)
    requires pos <= |text|
    decreases |frames|
  {
    if frames == [] then pos == |text|
    else
      var enc := EncodeFrame(frames[0].0, frames[0].1);
      pos + |enc| <= |text| && text[pos..pos + |enc|] == enc && Framed(text, pos + |enc|, frames[1..])
  }

  /** The server's response for `frames`, read from after any prefix, is framed as `frames`. */
  lemma {:induction false} WireFramed(prefix: string, frames: seq<(string, string)>)
    ensures Framed(prefix + Wire(frames), |prefix|, frames)
    decreases |frames|
  {
    if frames == [] {
      assert prefix + Wire(frames) == prefix;
    } else {
      var enc := EncodeFrame(frames[0].0, frames[0].1);
      var text := prefix + Wire(frames);
      assert text == (prefix + enc) + Wire(frames[1..]);
      assert text[|prefix|..|prefix| + |enc|] == enc;
      WireFramed(prefix + enc, frames[1..]);
    }
  }

  /** Every frame's state chunk reads as a state. */
  ghost predicate StatesRead(frames: seq<(string, string)>) {
    forall i :: 0 <= i < |frames| ==> FrameState(frames[i].0).Ok?
  }

  /** From `pos` on, the loop's reads of `text` give the chunks of `frames`, then the end of the response. */
  ghost predicate Reads(text: string, pos: nat, frames: seq<(string, string)>)
    requires pos <= |text|
    decreases |frames|
  {
    if frames == [] then pos == |text|
    else
      match StepAt(text, pos)
      case Err(_) => false
      case Ok(step) => step.stateData == frames[0].0 && step.diff == frames[0].1 && Reads(text, step.next, frames[1..])
  }

  lemma ReadsCons(text: string, pos: nat, frames: seq<(string, string)>, step: Step)
    requires pos <= |text| && frames != [] && StepAt(text, pos) == Ok(step)
    requires step.stateData == frames[0].0 && step.diff == frames[0].1 && Reads(text, step.next, frames[1..])
    ensures Reads(text, pos, frames)
  {
  }

  lemma StatesReadRest(frames: seq<(string, string)>)
    requires frames != [] && StatesRead(frames)
    ensures FrameState(frames[0].0).Ok? && StatesRead(frames[1..])
  {
    forall i | 0 <= i < |frames| - 1
      ensures FrameState(frames[1..][i].0).Ok?
    {
      assert frames[1..][i] == frames[i + 1];
    }
  }

  /** The first frame of a framed response is its encoding, and the rest stays framed. */
  lemma FramedHead(text: string, pos: nat, frames: seq<(string, string)>) returns (next: nat)
    requires pos <= |text| && Framed(text, pos, frames) && frames != []
    ensures next == pos + |EncodeFrame(frames[0].0, frames[0].1)| <= |text|
    ensures text[pos..next] == EncodeFrame(frames[0].0, frames[0].1)
    ensures Framed(text, next, frames[1..])
  {
    next := pos + |EncodeFrame(frames[0].0, frames[0].1)|;
  }

  /** A frame encoded at `pos` whose state chunk reads, followed by frames that read back, reads back. */
  lemma ReadsEncoded(text: string, pos: nat, frames: seq<(string, string)>, step: Step)
    requires frames != [] && step.stateData == frames[0].0 && step.diff == frames[0].1
    requires FrameState(step.stateData) == Ok(step.state)
    requires step.next == pos + |EncodeFrame(step.stateData, step.diff)| <= |text|
    requires text[pos..step.next] == EncodeFrame(step.stateData, step.diff)
    requires Reads(text, step.next, frames[1..])
    ensures Reads(text, pos, frames)
  {
    StepAtEncoded(text, pos, step);
    ReadsCons(text, pos, frames, step);
  }

  /** A response framed as `frames` reads back as `frames` when every state chunk reads. */
  lemma {:induction false} FramedReads(text: string, pos: nat, frames: seq<(string, string)>)
    requires pos <= |text| && Framed(text, pos, frames) && StatesRead(frames)
    ensures Reads(text, pos, frames)
    decreases |frames|
  {
    if frames != [] {
      var next := FramedHead(text, pos, frames);
      StatesReadRest(frames);
      FramedReads(text, next, frames[1..]);
      ReadsEncoded(text, pos, frames, Step(FrameState(frames[0].0).value, frames[0].0, frames[0].1, next));
    }
  }

  /** A complete frame's state chunk reads. */
  lemma CompleteStatesRead(frames: seq<(string, string)>, decode: string -> Trace, instant: string -> Option<real>)
    requires Complete(frames, decode, instant)
    ensures StatesRead(frames)
  {
    forall i | 0 <= i < |frames|
      ensures FrameState(frames[i].0).Ok?
    {
      assert Served(frames[i].0, frames[i].1, decode, instant).Ok?;
    }
  }

  /**
   * Read from `pos`, a response of complete frames yields each frame's items in
   * order, saves each frame's own state chunk when `saving`, and ends at the end of
   * the response with `int('')`.
   */
  lemma {:induction false} TailOfFrames(text: string, pos: nat, frames: seq<(string, string)>, decode: string -> Trace,
                                        instant: string -> Option<real>, saving: bool)
    requires pos <= |text| && Reads(text, pos, frames) && Complete(frames, decode, instant)
    ensures Tail(text, pos, decode, instant, saving) ==
      Live(ServedItems(frames, decode, instant), if saving then StateChunks(frames) else [], NotAnInteger(""))
    decreases |frames|
  {
    if frames == [] {
      TailAtEnd(text, decode, instant, saving);
    } else {
      var rest := frames[1..];
      CompleteRest(frames, decode, instant);
      var step := StepAt(text, pos).value;
      var served := Served(frames[0].0, frames[0].1, decode, instant);
      assert served.Ok? && served.value.error.None?;
      assert served.value == Interpret(step.state, step.diff, decode, instant);
      TailAdvance(text, pos, decode, instant, saving, step, served.value);
      TailOfFrames(text, step.next, rest, decode, instant, saving);
    }
  }

  /**
   * The generator fed the server's frames: it opens the `tail` at its start, yields
   * every frame's changes and `Finished` marker in order, writes each frame's own state
   * chunk to `realtime_state.txt` when it has a state directory, and stops with
   * `int('')` once the response is exhausted.
   */
  lemma RealtimeOfWire(dir: Option<StateDir>, start: Start, frames: seq<(string, string)>,
                       decode: string -> Trace, instant: string -> Option<real>)
    requires TailRequest(dir, start).Ok? && Complete(frames, decode, instant)
    ensures Realtime(dir, start, Body(Wire(frames)), decode, instant) ==
      (Some(TailRequest(dir, start).value),
       Live(ServedItems(frames, decode, instant), if dir.Some? then StateChunks(frames) else [], NotAnInteger("")))
  {
    assert [] + Wire(frames) == Wire(frames);
    WireFramed([], frames);
    CompleteStatesRead(frames, decode, instant);
    FramedReads(Wire(frames), 0, frames);
    TailOfFrames(Wire(frames), 0, frames, decode, instant, dir.Some?);
  }

  /**
   * A restart over a saved state chunk reopens the `tail` at that chunk's
   * `sequenceNumber`, provided the file read line by line gives the state the running
   * stream read from the stripped chunk.
   */
  lemma ResumeFromChunk(d: string, start: Start)
    requires FrameState(d).Ok? && "sequenceNumber" in FrameState(d).value
    requires ReadStateOf(FileLines(d), "=") == FrameState(d)
    ensures TailRequest(Some(StateDir(true, Some(d))), start) == Ok(FrameState(d).value["sequenceNumber"])
  {
  }

  /**
   * Restarting from the `realtime_state.txt` the generator leaves after the server's
   * frames reopens the `tail` at the sequence of the last frame it processed, when that
   * frame's chunk reads the same line by line as stripped.
   */
  lemma ResumeAfterLastFrame(dir: StateDir, start: Start, frames: seq<(string, string)>,
                             decode: string -> Trace, instant: string -> Option<real>, restart: Start)
    requires TailRequest(Some(dir), start).Ok? && Complete(frames, decode, instant) && frames != []
    requires ReadStateOf(FileLines(frames[|frames| - 1].0), "=") == FrameState(frames[|frames| - 1].0)
    ensures var live := Realtime(Some(dir), start, Body(Wire(frames)), decode, instant).1;
      |live.cursors| == |frames| &&
      live.cursors[|frames| - 1] == frames[|frames| - 1].0 &&
      FrameState(frames[|frames| - 1].0).Ok? && "sequenceNumber" in FrameState(frames[|frames| - 1].0).value &&
      TailRequest(Some(StateDir(true, Some(live.cursors[|frames| - 1]))), restart) ==
        Ok(FrameState(frames[|frames| - 1].0).value["sequenceNumber"])
  {
    RealtimeOfWire(Some(dir), start, frames, decode, instant);
    var d := frames[|frames| - 1].0;
    FrameMarkers(d, frames[|frames| - 1].1, decode, instant);
    ResumeFromChunk(d, restart);
  }

  /**
   * The two readings of a state chunk can disagree. A chunk that starts with a blank
   * line reads, once stripped, exactly like the chunk without it; but read line by line
   * its first line `"\n"` has no `=`, so `(k, v) = line.split(sep)` raises and a restart
   * from it fails, whatever follows.
   */
  lemma LeadingBlankLineBreaksResume(x: string, start: Start)
    ensures FrameState("\n" + x) == FrameState(x)
    ensures ResumeFrom(Some(StateDir(true, Some("\n" + x))), start, "=", "sequenceNumber") ==
      Err(MalformedLine("\n"))
  {
    var d := "\n" + x;
    assert d[0] == '\n' && d[1..] == x;
    assert LStrip(d) == LStrip(x);
    var lines := FileLines(d);
    assert lines == ["\n"] + FileLines(x);
    SplitWithoutSeparator("\n", "=");
    assert lines[..1] == ["\n"];
    assert ReadStateOf(["\n"], "=") == Err(MalformedLine("\n")) by {
      assert ["\n"][..0] == [];
    }
    ReadStateStops(lines, "=", 1);
  }

  /** The sequence a complete frame's `Finished` marker names. */
  function FrameSequence(stateData: string): SequenceId
    requires FrameState(stateData).Ok? && "sequenceNumber" in FrameState(stateData).value
  {
    Named(FrameState(stateData).value["sequenceNumber"])
  }

  /** Each complete frame carries exactly one `Finished` marker, after its changes, naming its own sequence. */
  lemma FrameMarkers(stateData: string, diff: string, decode: string -> Trace,
                     instant: string -> Option<real>)
    requires Served(stateData, diff, decode, instant).Ok?
    requires Served(stateData, diff, decode, instant).value.error.None?
    ensures FrameState(stateData).Ok? && "sequenceNumber" in FrameState(stateData).value
    ensures Markers(Served(stateData, diff, decode, instant).value.items) == [FrameSequence(stateData)]
  {
    var state := FrameState(stateData).value;
    var t := decode(diff);
    var fin := Finished(Named(state["sequenceNumber"]), Some(Parsed(state["timestamp"])));
    MarkersAppend(Changes(t.out), [fin]);
    MarkersOfChanges(t.out);
    assert Markers([fin]) == [fin.sequence] by {
      assert [fin][..0] == [];
    }
  }

  /** Every frame's state chunk reads and names a sequence. */
  ghost predicate SequencesNamed(frames: seq<(string, string)>) {
    forall i :: 0 <= i < |frames| ==> FrameState(frames[i].0).Ok? && "sequenceNumber" in FrameState(frames[i].0).value
  }

  /** The sequences the frames name, in order. */
  function FrameSequences(frames: seq<(string, string)>): (r: seq<SequenceId>)
    requires SequencesNamed(frames)
    ensures |r| == |frames| && forall i :: 0 <= i < |frames| ==> r[i] == FrameSequence(frames[i].0)
  {
    if frames == [] then []
    else
      assert SequencesNamed(frames[1..]) by {
        forall i | 0 <= i < |frames| - 1
          ensures FrameState(frames[1..][i].0).Ok? && "sequenceNumber" in FrameState(frames[1..][i].0).value
        {
          assert frames[1..][i] == frames[i + 1];
        }
      }
      [FrameSequence(frames[0].0)] + FrameSequences(frames[1..])
  }

  /** Dropping the first frame keeps the rest complete. */
  lemma CompleteRest(frames: seq<(string, string)>, decode: string -> Trace, instant: string -> Option<real>)
    requires frames != [] && Complete(frames, decode, instant)
    ensures Complete(frames[1..], decode, instant)
  {
    var rest := frames[1..];
    forall i | 0 <= i < |rest|
      ensures Served(rest[i].0, rest[i].1, decode, instant).Ok?
      ensures Served(rest[i].0, rest[i].1, decode, instant).value.error.None?
    {
      assert rest[i] == frames[i + 1];
    }
  }

  /** Over a response of complete frames, the `Finished` markers name the frames' sequences, one each, in order. */
  lemma {:induction false} MarkersOfWire(frames: seq<(string, string)>, decode: string -> Trace,
                                         instant: string -> Option<real>)
    requires Complete(frames, decode, instant)
    ensures SequencesNamed(frames)
    ensures Markers(ServedItems(frames, decode, instant)) == FrameSequences(frames)
    decreases |frames|
  {
    if frames != [] {
      var rest := frames[1..];
      CompleteRest(frames, decode, instant);
      MarkersOfWire(rest, decode, instant);
      FrameMarkers(frames[0].0, frames[0].1, decode, instant);
      assert SequencesNamed(frames) by {
        forall i | 0 <= i < |frames|
          ensures FrameState(frames[i].0).Ok? && "sequenceNumber" in FrameState(frames[i].0).value
        {
          if i > 0 {
            assert frames[i] == rest[i - 1];
          }
        }
      }
      var first := Served(frames[0].0, frames[0].1, decode, instant).value.items;
      MarkersAppend(first, ServedItems(rest, decode, instant));
    }
  }
}
