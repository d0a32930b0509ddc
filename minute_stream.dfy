/**
 * `iter_osm_stream`: the minutely diff stream. Each round fetches the diff named by
 * the current state file's `sequenceNumber`, yields its changes and a `Finished`
 * checkpoint, sleeps until the next diff is expected, then fetches the next state
 * file (retrying 404s with back-off) and, with a state directory, saves it as the
 * cursor.
 *
 * The network and the clock are a script: per round, the outcome of the diff fetch
 * (a body given as its parse events), the clock reading at the pacing step, and the
 * outcomes of the attempts at the next state file. `strptime` is the parameter
 * `instant`, which gives the instant a timestamp text denotes, in seconds, or `None`
 * when the text does not match the format.
 */
module MinuteStream {
  import opened Wrappers
  import opened Records
  import opened Text
  import opened Decimal
  import opened StateFile
  import opened Fields
  import opened Decoder
  import opened Backoff
  import opened Streams

  /** A URL the stream opens: the feed's latest `state.txt`, a numbered `.state.txt` or a numbered `.osc.gz`. */
  datatype Request = Latest | StateFile(path: SequencePath) | DiffFile(path: SequencePath)

  /** The first request: the state file of the start sequence, or the latest state when there is no start. */
  function FirstRequest(s: Start): (r: Request)
    ensures Given(s) ==> r == StateFile(PathOf(StartText(s)))
    ensures !Given(s) ==> r == Latest
  {
    if Given(s) then StateFile(PathOf(StartText(s))) else Latest
  }

  /** What the script says about one round. */
  datatype Tick = Tick(data: Outcome<seq<Event>>, now: real, next: seq<Outcome<string>>)

  /** A round's diff: the changes yielded, and the exception that stopped the diff, if any. */
  datatype Diff = Diff(changes: seq<Item>, error: Option<Error>)

  /** The diff of one round: `urlopen` once (no retry), then the change loop up to its first exception. */
  function DiffOf(data: Outcome<seq<Event>>, pts: bool): (d: Diff)
    ensures data.HttpStatus? ==> d == Diff([], Some(HttpError(data.code)))
    ensures data.Unreachable? ==> d == Diff([], Some(NetworkError))
    ensures data.Body? ==>
      var t := Run(OsmChange, pts, data.content);
      d.changes == Changes(t.out) && d.error == t.error
  {
    match FetchOnce(data)
    case Err(e) => Diff([], Some(e))
    case Ok(events) =>
      var t := Run(OsmChange, pts, events);
      Diff(Changes(t.out), t.error)
  }

  /** A round with its diff decoded. */
  datatype Round = Round(diff: Diff, now: real, next: seq<Outcome<string>>)

  /** `rounds` lists what each tick of the script comes to. */
  ghost predicate Explains(ticks: seq<Tick>, pts: bool, rounds: seq<Round>) {
    |rounds| == |ticks| &&
    forall i :: 0 <= i < |ticks| ==> rounds[i] == Round(DiffOf(ticks[i].data, pts), ticks[i].now, ticks[i].next)
  }

  /**
   * Where the stream stands: what it has yielded, the URLs it has opened, the sleeps
   * it has taken, the cursors it has saved, the current state file, `interval_fudge`,
   * the rounds it has completed, and why it stopped.
   */
  datatype Minute = Minute(items: seq<Item>, requests: seq<Request>, sleeps: seq<real>, cursors: seq<string>,
                           state: State, fudge: real, done: nat, halt: Option<Halt>)

  /** Before the loop: the start, then the first state file, fetched once. */
  function Opening(dir: Option<StateDir>, start: Start, first: Outcome<string>): (m: Minute)
    ensures m.items == [] && m.sleeps == [] && m.cursors == [] && m.fudge == 0.0 && m.done == 0
    ensures ResumeFrom(dir, start, "=", "sequenceNumber").Err? ==>
      m.requests == [] && m.halt == Some(Failed(ResumeFrom(dir, start, "=", "sequenceNumber").error))
    ensures ResumeFrom(dir, start, "=", "sequenceNumber").Ok? ==>
      m.requests == [FirstRequest(ResumeFrom(dir, start, "=", "sequenceNumber").value)]
    ensures m.halt.None? <==>
      ResumeFrom(dir, start, "=", "sequenceNumber").Ok? && first.Body? && ReadStateOf(FileLines(first.content), "=").Ok?
    ensures m.halt.None? ==> m.state == ReadStateOf(FileLines(first.content), "=").value
  {
    match ResumeFrom(dir, start, "=", "sequenceNumber")
    case Err(e) => Minute([], [], [], [], map[], 0.0, 0, Some(Failed(e)))
    case Ok(s) =>
      var m := Minute([], [FirstRequest(s)], [], [], map[], 0.0, 0, None);
      match FetchOnce(first)
      case Err(e) => m.(halt := Some(Failed(e)))
      case Ok(text) =>
        match ReadStateOf(FileLines(text), "=")
        case Err(e) => m.(halt := Some(Failed(e)))
        case Ok(state) => m.(state := state)
  }

  /** The 404s a retried fetch met before it settled. */
  function Misses(next: seq<Outcome<string>>): nat {
    NotFounds(next[..Settling(next)])
  }

  /**
   * The first half of a round, in the source's order: the diff named by
   * `sequenceNumber` and its changes, the `Finished` checkpoint, the pacing sleep,
   * and `int(state['sequenceNumber'])` for the next state file's name.
   */
  function Emit(m: Minute, r: Round, interval: real, instant: string -> Option<real>): (e: Minute)
    requires m.halt.None?
    ensures e.cursors == m.cursors && e.state == m.state && e.fudge == m.fudge && e.done == m.done
    ensures e.halt.None? ==> "sequenceNumber" in m.state && ToInt(m.state["sequenceNumber"]).Ok?
  {
    if "sequenceNumber" !in m.state then m.(halt := Some(Failed(MissingKey("sequenceNumber"))))
    else
      var sqn := m.state["sequenceNumber"];
      var m1 := m.(items := m.items + r.diff.changes, requests := m.requests + [DiffFile(PathOf(sqn))]);
      if r.diff.error.Some? then m1.(halt := Some(Failed(r.diff.error.value)))
      else if "timestamp" !in m.state then m1.(halt := Some(Failed(MissingKey("timestamp"))))
      else
        var text := m.state["timestamp"];
        match instant(text)
        case None => m1.(halt := Some(Failed(BadTimestamp(text))))
        case Some(ts) =>
          var pause := SleepTime(NextTarget(ts, interval, m.fudge), r.now);
          var m2 := m1.(items := m1.items + [Finished(Named(sqn), Some(Parsed(text)))], sleeps := m.sleeps + [pause]);
          match ToInt(sqn)
          case Err(e) => m2.(halt := Some(Failed(e)))
          case Ok(_) => m2
  }

  /**
   * The second half: open the next state file, retrying 404s, save it as the cursor
   * with a state directory, and read it as the new state.
   */
  function Refetch(e: Minute, next: seq<Outcome<string>>, saving: bool): Minute
    requires e.halt.None? && "sequenceNumber" in e.state && ToInt(e.state["sequenceNumber"]).Ok?
  {
    var n := ToInt(e.state["sequenceNumber"]).value;
    var m3 := e.(requests := e.requests + [StateFile(PathOf(IntToString(n + 1)))],
                 sleeps := e.sleeps + Sleeps(Misses(next)),
                 fudge := e.fudge + FudgeAdded(Misses(next)));
    match FetchedOf(next)
    case Retrying => m3.(halt := Some(Stalled))
    case Raised(err) => m3.(halt := Some(Failed(err)))
    case Got(body) =>
      var m4 := m3.(fudge := m3.fudge / 2.0, cursors := e.cursors + if saving then [body] else []);
      match ReadStateOf(FileLines(body), "=")
      case Err(err) => m4.(halt := Some(Failed(err)))
      case Ok(state) => m4.(state := state, done := e.done + 1)
  }

  /** One round of the `while True` loop. */
  function Turn(m: Minute, r: Round, interval: real, instant: string -> Option<real>, saving: bool): Minute
    requires m.halt.None?
  {
    var e := Emit(m, r, interval, instant);
    if e.halt.Some? then e else Refetch(e, r.next, saving)
  }

  /** The stream after the rounds `rounds`, stopping at the first halt. */
  function Play(m0: Minute, rounds: seq<Round>, interval: real, instant: string -> Option<real>, saving: bool): Minute {
    if rounds == [] || m0.halt.Some? then m0
    else
      var m := Play(m0, rounds[..|rounds| - 1], interval, instant, saving);
      if m.halt.Some? then m else Turn(m, rounds[|rounds| - 1], interval, instant, saving)
  }

  /** A running stream takes round `k` by one more `Turn`. */
  lemma PlayAdvance(m0: Minute, rounds: seq<Round>, k: nat, m: Minute, interval: real,
                    instant: string -> Option<real>, saving: bool)
    requires k < |rounds| && Play(m0, rounds[..k], interval, instant, saving) == m && m.halt.None?
    ensures Play(m0, rounds[..k + 1], interval, instant, saving) == Turn(m, rounds[k], interval, instant, saving)
  {
    assert rounds[..k + 1][..k] == rounds[..k];
  }

  /** Once halted, the stream takes nothing more. */
  lemma {:induction false} PlayStops(m0: Minute, rounds: seq<Round>, interval: real, instant: string -> Option<real>,
                                     saving: bool, k: nat)
    requires k <= |rounds| && Play(m0, rounds[..k], interval, instant, saving).halt.Some?
    ensures Play(m0, rounds, interval, instant, saving) == Play(m0, rounds[..k], interval, instant, saving)
    decreases |rounds|
  {
    if k < |rounds| {
      var init := rounds[..|rounds| - 1];
      assert init[..k] == rounds[..k];
      PlayStops(m0, init, interval, instant, saving, k);
    } else {
      assert rounds[..k] == rounds;
    }
  }

  /** The diff of tick `k`: `urlopen` once, then `iter_osm_change_file` over the body. */
  method FetchDiff(ticks: seq<Tick>, k: nat, pts: bool, ghost rounds: seq<Round>) returns (d: Diff)
    requires k < |ticks| && Explains(ticks, pts, rounds)
    ensures d == rounds[k].diff
  {
    match ticks[k].data
    case HttpStatus(code) =>
      d := Diff([], Some(HttpError(code)));
    case Unreachable =>
      d := Diff([], Some(NetworkError));
    case Body(events) =>
      var changes, error := IterOsmChangeFile(events, pts);
      d := Diff(Changes(changes), error);
  }

  /** The first half of round `k`. */
  method EmitRound(ticks: seq<Tick>, k: nat, pts: bool, interval: real, instant: string -> Option<real>,
                   ghost rounds: seq<Round>, ghost m: Minute,
                   items: seq<Item>, requests: seq<Request>, sleeps: seq<real>, state: State, fudge: real)
    returns (items': seq<Item>, requests': seq<Request>, sleeps': seq<real>, halt: Option<Halt>)
    requires k < |ticks| && Explains(ticks, pts, rounds)
    requires m.halt.None? && m.items == items && m.requests == requests && m.sleeps == sleeps
    requires m.state == state && m.fudge == fudge
    ensures var e := Emit(m, rounds[k], interval, instant);
      e.items == items' && e.requests == requests' && e.sleeps == sleeps' && e.halt == halt
  {
    items', requests', sleeps' := items, requests, sleeps;
    if "sequenceNumber" !in state {
      return items', requests', sleeps', Some(Failed(MissingKey("sequenceNumber")));
    }
    var sqn := state["sequenceNumber"];
    requests' := requests' + [DiffFile(PathOf(sqn))];
    var d := FetchDiff(ticks, k, pts, rounds);
    items' := items' + d.changes;
    if d.error.Some? {
      return items', requests', sleeps', Some(Failed(d.error.value));
    }
    if "timestamp" !in state {
      return items', requests', sleeps', Some(Failed(MissingKey("timestamp")));
    }
    var text := state["timestamp"];
    var stamp := instant(text);
    if stamp.None? {
      return items', requests', sleeps', Some(Failed(BadTimestamp(text)));
    }
    items' := items' + [Finished(Named(sqn), Some(Parsed(text)))];
    sleeps' := sleeps' + [SleepTime(NextTarget(stamp.value, interval, fudge), ticks[k].now)];
    var n := ToInt(sqn);
    halt := if n.Err? then Some(Failed(n.error)) else None;
  }

  /** The second half of a round, with the retried fetch of the next state file done by `fetcher`. */
  method RefetchState(fetcher: Fetcher, next: seq<Outcome<string>>, saving: bool, ghost e: Minute,
                      requests: seq<Request>, sleeps: seq<real>, cursors: seq<string>, state: State)
    returns (requests': seq<Request>, sleeps': seq<real>, cursors': seq<string>, state': State, halt: Option<Halt>)
    requires fetcher.Valid() && e.halt.None? && e.fudge == fetcher.fudge
    requires e.requests == requests && e.sleeps == sleeps && e.cursors == cursors && e.state == state
    requires "sequenceNumber" in state && ToInt(state["sequenceNumber"]).Ok?
    modifies fetcher
    ensures fetcher.Valid()
    ensures var f := Refetch(e, next, saving);
      f.requests == requests' && f.sleeps == sleeps' && f.cursors == cursors' && f.state == state'
      && f.fudge == fetcher.fudge && f.halt == halt && f.items == e.items
      && f.done == if halt.None? then e.done + 1 else e.done
  {
    var n := ToInt(state["sequenceNumber"]).value;
    requests' := requests + [StateFile(PathOf(IntToString(n + 1)))];
    var fetched, backoff := fetcher.Retrieve(next);
    sleeps' := sleeps + backoff;
    cursors', state' := cursors, state;
    if fetched.Retrying? {
      return requests', sleeps', cursors', state', Some(Stalled);
    }
    if fetched.Raised? {
      return requests', sleeps', cursors', state', Some(Failed(fetched.error));
    }
    if saving {
      cursors' := cursors + [fetched.content];
    } else {
      assert cursors + [] == cursors;
    }
    var read := ReadStateFile(fetched.content, "=");
    if read.Err? {
      return requests', sleeps', cursors', state', Some(Failed(read.error));
    }
    state' := read.value;
    halt := None;
  }

  /** One round of the loop, with the retried fetch of the next state file done by `fetcher`. */
  method NextRound(fetcher: Fetcher, ticks: seq<Tick>, k: nat, pts: bool, interval: real,
                   instant: string -> Option<real>, saving: bool, ghost rounds: seq<Round>, ghost m0: Minute,
                   items: seq<Item>, requests: seq<Request>, sleeps: seq<real>, cursors: seq<string>, state: State)
    returns (items': seq<Item>, requests': seq<Request>, sleeps': seq<real>, cursors': seq<string>,
             state': State, halt: Option<Halt>)
    requires fetcher.Valid() && k < |ticks| && Explains(ticks, pts, rounds)
    requires Play(m0, rounds[..k], interval, instant, saving) ==
      Minute(items, requests, sleeps, cursors, state, fetcher.fudge, k, None)
    modifies fetcher
    ensures fetcher.Valid()
    ensures Play(m0, rounds[..k + 1], interval, instant, saving) ==
      Minute(items', requests', sleeps', cursors', state', fetcher.fudge, if halt.None? then k + 1 else k, halt)
  {
    ghost var m := Minute(items, requests, sleeps, cursors, state, fetcher.fudge, k, None);
    PlayAdvance(m0, rounds, k, m, interval, instant, saving);
    items', requests', sleeps', halt := EmitRound(ticks, k, pts, interval, instant, rounds, m,
                                                  items, requests, sleeps, state, fetcher.fudge);
    ghost var e := Emit(m, rounds[k], interval, instant);
    cursors', state' := cursors, state;
    if halt.Some? {
      return;
    }
    requests', sleeps', cursors', state', halt := RefetchState(fetcher, ticks[k].next, saving, e,
                                                                requests', sleeps', cursors, state);
  }

  /** The `while True` loop over the rounds of the script, from the first state file on. */
  method FollowTicks(ticks: seq<Tick>, pts: bool, interval: real, instant: string -> Option<real>, saving: bool,
                     ghost rounds: seq<Round>, ghost m0: Minute, requests0: seq<Request>, state0: State)
    returns (items: seq<Item>, requests: seq<Request>, sleeps: seq<real>, cursors: seq<string>, halt: Option<Halt>)
    requires Explains(ticks, pts, rounds)
    requires m0 == Minute([], requests0, [], [], state0, 0.0, 0, None)
    ensures var p := Play(m0, rounds, interval, instant, saving);
      items == p.items && requests == p.requests && sleeps == p.sleeps && cursors == p.cursors && halt == p.halt
  {
    var fetcher := new Fetcher();
    items, requests, sleeps, cursors, halt := [], requests0, [], [], None;
    var state := state0;
    var k := 0;
    assert rounds[..0] == [];
    while k < |ticks|
      invariant 0 <= k <= |ticks| && fetcher.Valid() && halt.None?
      invariant Play(m0, rounds[..k], interval, instant, saving) ==
        Minute(items, requests, sleeps, cursors, state, fetcher.fudge, k, None)
    {
      items, requests, sleeps, cursors, state, halt :=
        NextRound(fetcher, ticks, k, pts, interval, instant, saving, rounds, m0, items, requests, sleeps, cursors, state);
      if halt.Some? {
        PlayStops(m0, rounds, interval, instant, saving, k + 1);
        return;
      }
      k := k + 1;
    }
    assert rounds[..k] == rounds;
  }

  /** What each tick of the script comes to. */
  function Rounds(ticks: seq<Tick>, pts: bool): (rounds: seq<Round>)
    ensures Explains(ticks, pts, rounds)
  {
    seq(|ticks|, i requires 0 <= i < |ticks| => Round(DiffOf(ticks[i].data, pts), ticks[i].now, ticks[i].next))
  }

  /**
   * `iter_osm_stream(start_sqn, ..., expected_interval, parse_timestamps, state_dir)`:
   * the items it yields, the URLs it opens, the sleeps it takes, the state files it
   * saves, and why it stopped (`None` when the script ran out between rounds).
   */
  method IterOsmStream(start: Start, dir: Option<StateDir>, first: Outcome<string>, ticks: seq<Tick>,
                       pts: bool, interval: real, instant: string -> Option<real>)
    returns (items: seq<Item>, requests: seq<Request>, sleeps: seq<real>, cursors: seq<string>, halt: Option<Halt>)
    ensures var p := Play(Opening(dir, start, first), Rounds(ticks, pts), interval, instant, dir.Some?);
      items == p.items && requests == p.requests && sleeps == p.sleeps && cursors == p.cursors && halt == p.halt
  {
    var s := ResumeFrom(dir, start, "=", "sequenceNumber");
    if s.Err? {
      return [], [], [], [], Some(Failed(s.error));
    }
    var request := FirstRequest(s.value);
    var got := FetchOnce(first);
    if got.Err? {
      return [], [request], [], [], Some(Failed(got.error));
    }
    var state := ReadStateFile(got.value, "=");
    if state.Err? {
      return [], [request], [], [], Some(Failed(state.error));
    }
    items, requests, sleeps, cursors, halt :=
      FollowTicks(ticks, pts, interval, instant, dir.Some?, Rounds(ticks, pts), Opening(dir, start, first), [request], state.value);
  }

  /**
   * A round completes exactly when the state names its sequence and timestamp, the
   * diff decodes, the timestamp parses, the sequence is an integer `n`, and the state
   * file of `n + 1` arrives and reads; it then yields the diff's changes and the
   * sequence's `Finished` marker, opens the diff and then the state file of `n + 1`,
   * paces towards the next diff, and takes the new state file as its state.
   */
  lemma TurnCompletes(m: Minute, r: Round, interval: real, instant: string -> Option<real>, saving: bool)
    requires m.halt.None?
    ensures Turn(m, r, interval, instant, saving).halt.None? <==>
      "sequenceNumber" in m.state && r.diff.error.None? && "timestamp" in m.state &&
      instant(m.state["timestamp"]).Some? && ToInt(m.state["sequenceNumber"]).Ok? &&
      FetchedOf(r.next).Got? && ReadStateOf(FileLines(FetchedOf(r.next).content), "=").Ok?
    ensures Turn(m, r, interval, instant, saving).halt.None? ==>
      var t := Turn(m, r, interval, instant, saving);
      var sqn := m.state["sequenceNumber"];
      var target := NextTarget(instant(m.state["timestamp"]).value, interval, m.fudge);
      var body := FetchedOf(r.next).content;
      && t.items == m.items + r.diff.changes + [Finished(Named(sqn), Some(Parsed(m.state["timestamp"])))]
      && t.requests == m.requests + [DiffFile(PathOf(sqn)), StateFile(PathOf(IntToString(ToInt(sqn).value + 1)))]
      && |t.sleeps| == |m.sleeps| + 1 + Misses(r.next) && t.sleeps[..|m.sleeps|] == m.sleeps
      && (r.now < target ==> r.now + t.sleeps[|m.sleeps|] == target)
      && (r.now >= target ==> t.sleeps[|m.sleeps|] == 0.0)
      && t.fudge == (m.fudge + FudgeAdded(Misses(r.next))) / 2.0
      && t.cursors == m.cursors + (if saving then [body] else [])
      && Ok(t.state) == ReadStateOf(FileLines(body), "=")
      && t.done == m.done + 1
  {
    var e := Emit(m, r, interval, instant);
    if e.halt.None? {
      var sqn := m.state["sequenceNumber"];
      var target := NextTarget(instant(m.state["timestamp"]).value, interval, m.fudge);
      assert e.sleeps == m.sleeps + [SleepTime(target, r.now)];
      var t := Refetch(e, r.next, saving);
      assert t.sleeps == e.sleeps + Sleeps(Misses(r.next));
    }
  }

  /** Every sleep has a non-negative duration. */
  ghost predicate NonNegative(sleeps: seq<real>) {
    forall i :: 0 <= i < |sleeps| ==> sleeps[i] >= 0.0
  }

  lemma {:induction false} FudgeAddedNonNegative(k: nat)
    ensures FudgeAdded(k) >= 0.0
  {
    FudgeAddedClosed(k);
    Pow2AtLeastOne(k);
  }

  /** A round never sleeps a negative time and never drives `interval_fudge` below zero. */
  lemma TurnBounds(m: Minute, r: Round, interval: real, instant: string -> Option<real>, saving: bool)
    requires m.halt.None? && m.fudge >= 0.0 && NonNegative(m.sleeps)
    ensures Turn(m, r, interval, instant, saving).fudge >= 0.0
    ensures NonNegative(Turn(m, r, interval, instant, saving).sleeps)
  {
    var e := Emit(m, r, interval, instant);
    if e.halt.None? {
      var k := Misses(r.next);
      SleepsAre(k);
      FudgeAddedNonNegative(k);
      var t := Refetch(e, r.next, saving);
      assert t.sleeps == e.sleeps + Sleeps(k);
    }
  }

  /** Over any number of rounds, the sleeps stay non-negative and so does `interval_fudge`. */
  lemma {:induction false} PlayBounds(m0: Minute, rounds: seq<Round>, interval: real,
                                      instant: string -> Option<real>, saving: bool)
    requires m0.fudge >= 0.0 && NonNegative(m0.sleeps)
    ensures Play(m0, rounds, interval, instant, saving).fudge >= 0.0
    ensures NonNegative(Play(m0, rounds, interval, instant, saving).sleeps)
    decreases |rounds|
  {
    if rounds != [] && m0.halt.None? {
      var init := rounds[..|rounds| - 1];
      PlayBounds(m0, init, interval, instant, saving);
      var m := Play(m0, init, interval, instant, saving);
      if m.halt.None? {
        TurnBounds(m, rounds[|rounds| - 1], interval, instant, saving);
      }
    }
  }

  /**
   * Rounds whose next state file arrives at the first attempt only halve
   * `interval_fudge`: after n of them it is `Halved(fudge, n)`, so what earlier 404s
   * added decays away.
   */
  lemma {:induction false} PromptRoundsHalve(m0: Minute, rounds: seq<Round>, interval: real,
                                             instant: string -> Option<real>, saving: bool)
    requires m0.halt.None? && Play(m0, rounds, interval, instant, saving).halt.None?
    requires forall k :: 0 <= k < |rounds| ==> Misses(rounds[k].next) == 0
    ensures Play(m0, rounds, interval, instant, saving).fudge == Halved(m0.fudge, |rounds|)
    decreases |rounds|
  {
    if rounds != [] {
      var k := |rounds| - 1;
      var m := PlayLast(m0, rounds, interval, instant, saving);
      assert forall j :: 0 <= j < k ==> rounds[..k][j] == rounds[j];
      PromptRoundsHalve(m0, rounds[..k], interval, instant, saving);
      TurnFudge(m, rounds[k], interval, instant, saving);
      assert Misses(rounds[k].next) == 0;
    }
  }

  /** A stream still running after its rounds was running before the last one, and took it by one `Turn`. */
  lemma PlayLast(m0: Minute, rounds: seq<Round>, interval: real, instant: string -> Option<real>, saving: bool)
    returns (m: Minute)
    requires rounds != [] && m0.halt.None? && Play(m0, rounds, interval, instant, saving).halt.None?
    ensures m == Play(m0, rounds[..|rounds| - 1], interval, instant, saving) && m.halt.None?
    ensures Play(m0, rounds, interval, instant, saving) == Turn(m, rounds[|rounds| - 1], interval, instant, saving)
  {
    m := Play(m0, rounds[..|rounds| - 1], interval, instant, saving);
  }

  /** A completed round leaves half of the old fudge plus what its 404s added. */
  lemma TurnFudge(m: Minute, r: Round, interval: real, instant: string -> Option<real>, saving: bool)
    requires m.halt.None? && Turn(m, r, interval, instant, saving).halt.None?
    ensures Turn(m, r, interval, instant, saving).fudge == (m.fudge + FudgeAdded(Misses(r.next))) / 2.0
  {
    TurnCompletes(m, r, interval, instant, saving);
  }

  /**
   * With a state directory, a running stream has saved one cursor per completed
   * round, and the last one reads back as its current state; without one it saves
   * nothing.
   */
  lemma {:induction false} PlayCursors(m0: Minute, rounds: seq<Round>, interval: real,
                                       instant: string -> Option<real>, saving: bool)
    requires m0.halt.None? && m0.cursors == [] && m0.done == 0
    ensures var p := Play(m0, rounds, interval, instant, saving);
      (!saving ==> p.cursors == []) &&
      (saving && p.halt.None? ==>
        |p.cursors| == p.done && (p.done > 0 ==> ReadStateOf(FileLines(p.cursors[p.done - 1]), "=") == Ok(p.state)))
    decreases |rounds|
  {
    if rounds != [] {
      var init := rounds[..|rounds| - 1];
      PlayCursors(m0, init, interval, instant, saving);
      var m := Play(m0, init, interval, instant, saving);
      if m.halt.None? {
        TurnCompletes(m, rounds[|rounds| - 1], interval, instant, saving);
      }
    }
  }

  /**
   * Restarting from the cursor a running stream saved resumes where it stands: the
   * restarted stream first opens the state file of the sequence whose diff the
   * running stream opens next.
   */
  lemma ResumeFromCursor(m0: Minute, rounds: seq<Round>, interval: real, instant: string -> Option<real>, start: Start)
    requires m0.halt.None? && m0.cursors == [] && m0.done == 0
    requires var p := Play(m0, rounds, interval, instant, true); p.halt.None? && p.done > 0
    ensures var p := Play(m0, rounds, interval, instant, true);
      var resumed := ResumeFrom(Some(StateDir(true, Some(p.cursors[|p.cursors| - 1]))), start, "=", "sequenceNumber");
      && ("sequenceNumber" in p.state ==> resumed == Ok(Label(p.state["sequenceNumber"])))
      && ("sequenceNumber" !in p.state ==> resumed == Err(MissingKey("sequenceNumber")))
      && ("sequenceNumber" in p.state && p.state["sequenceNumber"] != [] ==>
            FirstRequest(resumed.value) == StateFile(PathOf(p.state["sequenceNumber"])))
  {
    PlayCursors(m0, rounds, interval, instant, true);
  }
}
