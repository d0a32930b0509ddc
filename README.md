# pyosm replication client, modelled in Dafny

This project models the OpenStreetMap parsing and replication client of `pyosm`
(`pyosm/parsing.py`).

- **Decoders.** The three incremental XML decoders read a stream of parse events and
  yield nodes, ways, relations and changesets with their tags, node references and
  members:
  - `iter_osm_change_file` pairs each record with the `create`/`modify`/`delete`
    action around it;
  - `iter_osm_file` yields bare records;
  - the changeset loop inside `iter_changeset_stream` yields bare changesets.
- **`parse_osm_file`** sorts the records of a snapshot into nodes, ways and relations.
- **`readState`** reads the `key=value` (or `key: value`) state files of a
  replication directory into a dictionary.
- **The three replication generators:**
  - `iter_changeset_stream` walks the changeset feed by sequence number. It retries
    each missing file with a doubling delay capped at 13 seconds and saves
    `sequence: <next>` as its cursor.
  - `iter_osm_stream` walks the minutely diff feed by state file. It paces itself
    towards the moment the next diff is expected, retries the next state file, and
    saves that state file as its cursor.
  - `iter_realtime_osm_stream` reads the streaming feed's response frame by frame. A
    frame is a length line and a state chunk, then a length line and a compressed diff
    chunk. It saves each frame's state chunk as its cursor.

Each generator is modelled twice:

- as imperative Dafny (the retry state is a `class Fetcher` whose methods update
  `delay` and `interval_fudge`, and each loop is a `while` loop with invariants);
- as a specification function: `Follow`, `Play` and `Tail`.

Each method is proved equal to its specification function. The properties the
streams promise are then proved about those functions:

- consecutive checkpoints;
- cursors that resume where the stream stands;
- non-negative sleeps and fudge;
- frames read back as the server encoded them.

The network, the clock, `gzip`/`lxml` and `strptime` are parameters:

- **Network.** A fetch is an `Outcome`: a body, an HTTP status, or an unreachable
  host. A retried fetch is given the list of outcomes its attempts meet.
- **Compressed files.** A compressed file's body is given as the parse events of its
  decompressed XML. A realtime diff chunk goes through a function `inflate` that
  yields them.
- **Clock.** The clock is the reading each round of the minute stream takes at its
  pacing step.
- **`strptime`.** It is a function `instant` from a timestamp text to seconds, or to
  `None` when the text does not match.

A generator is a finite list of what it yields. A Python exception is the `Error` that
ends the list. When the scripted outcomes run out during a retry, the model ends with
`Stalled`.

Modules:

- `Wrappers`: `Option` and `Result`.
- `Text`: `strip`, `split`, `replace` and file lines.
- `Decimal`: `int()` (with Python 2's blanks after the sign), `str()`, `zfill` and sequence paths.
- `Records`: the records and the exceptions.
- `Fields`: attribute access, `maybeInt` and `maybeBool`.
- `StateFile`: `readState` and the changeset cursor.
- `Decoder` and `DecoderFacts`: the decoders.
- `Backoff`: the retry loop and pacing.
- `Frames`: the realtime wire format.
- `Streams`: what the generators share.
- `ChangesetStream`, `MinuteStream` and `RealtimeStream`.

## Model

| member | source | states |
|---|---|---|
| Text.LStripSpec | pyosm/parsing.py:41 | the left half of `strip()` drops exactly the leading blanks: it keeps a suffix, everything dropped is blank, and what is kept starts with no blank |
| Text.RStripSpec | pyosm/parsing.py:41 | the right half of `strip()` drops exactly the trailing blanks: it keeps a prefix, everything dropped is blank, and what is kept ends with no blank |
| Text.StripNoSpace | pyosm/parsing.py:41 | `strip()` leaves text without blanks unchanged |
| Text.StripNewline | pyosm/parsing.py:221 | a line read with its newline and then stripped gives back the blank-free text written before the newline |
| Text.Split | pyosm/parsing.py:40 | `split(sep)` always returns at least one part |
| Text.SplitJoin | pyosm/parsing.py:40 | joining the parts of `split(sep)` with `sep` gives the original string back, so splitting loses nothing |
| Text.SplitWithoutSeparator | pyosm/parsing.py:40 | a line without the separator's first character splits into the one part, so the `(k, v)` unpacking fails |
| Text.SplitAtFirstSeparator | pyosm/parsing.py:40 | when the text before a separator holds no character of its start, the split ends its first part at that separator and splits the rest alike |
| Text.UnescapeEscape | pyosm/parsing.py:41 | `replace("\\:", ":")` undoes the escaping of colons: unescaping an escaped text gives it back |
| Text.EscapeNoSpace | pyosm/parsing.py:41 | escaping puts no blank into a blank-free value, so `strip()` does not touch it |
| Text.EscapeNoColon | pyosm/parsing.py:41 | a value without colons is written unescaped |
| Text.Escape | pyosm/parsing.py:41 | the escaped form of a value never starts with a colon |
| Text.UnescapeNoBackslash | pyosm/parsing.py:41 | `replace` leaves text without backslashes unchanged |
| Text.FileLines | pyosm/parsing.py:35 | a file object yields no line exactly when its text is empty |
| Text.FileLinesConcat | pyosm/parsing.py:35 | the lines a file object yields, with their newlines, concatenate to the file's text |
| Text.FileLinesSingle | pyosm/parsing.py:35 | a non-empty text without newline is read as that single line |
| Decimal.NatToString | pyosm/parsing.py:73 | `str(n)` of a non-negative number is one or more digits with no leading zero |
| Decimal.ParseIntGrammar | pyosm/parsing.py:67-69 | `int(s)` succeeds exactly when `s.strip()` is an optional sign, blanks (skipped after a sign as Python 2 does) and one or more digits, and gives their signed value |
| Decimal.IntTextReads | pyosm/parsing.py:221 | any text built from blanks, an optional sign, blanks only after a sign, one or more digits and blanks reads as the digits' value, negated after a minus; so `int('- 5') == -5` |
| Decimal.ParseIntOfStrip | pyosm/parsing.py:221 | `int(s)` ignores the blanks around the number: it reads what `s.strip()` leaves |
| Decimal.ParseIntToString | pyosm/parsing.py:67-69 | `int(str(n)) == n` for every integer, negative ones included |
| Decimal.ZFill | pyosm/parsing.py:73 | `zfill(width)` returns text of length `width`, or the original length when that is longer |
| Decimal.Slice | pyosm/parsing.py:74 | a Python slice `s[i:j]` has at most `j - i` characters, clamped at the end of the text |
| Decimal.ZFillNine | pyosm/parsing.py:73 | a sequence number below 10^9 zero-fills to nine digits that denote the same number |
| Decimal.SequencePathDenotes | pyosm/parsing.py:73-74 | below 10^9 the `AAA/BBB/CCC` path is three segments of three digits that together denote the sequence number |
| Decimal.SequencePathInjective | pyosm/parsing.py:73-74 | below 10^9 different sequence numbers are fetched from different paths |
| Decimal.SequencePathTruncates | pyosm/parsing.py:73-74 | from 10^9 on, the path keeps only the first nine digits, so sequence n is fetched from the path of n / 10 |
| Fields.Get | pyosm/parsing.py:137 | `elem.attrib.get(name)` is the attribute when present and `None` exactly when absent |
| Fields.Required | pyosm/parsing.py:134 | `elem.attrib[name]` is the attribute when present and a `KeyError` for that name exactly when absent |
| Fields.ToInt | pyosm/parsing.py:67-69 | for attribute text read as ASCII, `int(text)` succeeds exactly when the stripped text is an optional sign, blanks and one or more ASCII digits. Its value is the digits' value, negated after a minus. Otherwise it raises `ValueError` |
| Fields.RequiredInt | pyosm/parsing.py:134-136 | `int(elem.attrib[name])` succeeds exactly when the attribute is present and an integer in ASCII text; an absent attribute raises `KeyError` |
| Fields.MaybeInt | pyosm/parsing.py:17-18 | `maybeInt` maps `None` to `None`, and a present text to its integer value, or to `ValueError` |
| Fields.MaybeBool | pyosm/parsing.py:23-30 | `maybeBool` maps `None` to `None`, and gives `True` for exactly the text `true` |
| Fields.MaybeIntPresent | pyosm/parsing.py:17-18 | a present integer attribute, zero included, decodes to its value |
| Fields.StampField | pyosm/parsing.py:140 | a timestamp attribute is present exactly when the attribute is, parsed when `parse_timestamps` is set and the raw text otherwise |
| Fields.CoordField | pyosm/parsing.py:141-142 | a coordinate is present exactly when its attribute is, and stands for `float` of its text |
| StateFile.Entry | pyosm/parsing.py:35-41 | a line is skipped exactly when it starts with `---` or `#`, and is otherwise read exactly when it is non-empty and splits into two parts. Failures follow the source's order: `IndexError` on an empty line, then `ValueError` for an empty separator, then `ValueError` on a bad split |
| StateFile.ReadState | pyosm/parsing.py:32-43 | the loop of `readState` returns what `ReadStateOf` specifies: the dictionary after every line, or the exception of the first bad line |
| StateFile.ReadStateStops | pyosm/parsing.py:35-41 | once a line has raised, the lines after it change nothing |
| StateFile.ReadStateFile | pyosm/parsing.py:248-249 | `readState` over a file reads the lines the file object yields |
| StateFile.ReadStateSucceeds | pyosm/parsing.py:35-43 | `readState` succeeds exactly when every line is skipped or readable |
| StateFile.FirstBadLine | pyosm/parsing.py:35-41 | the first bad line decides the exception `readState` raises |
| StateFile.ReadStateValues | pyosm/parsing.py:41 | a key is in the dictionary exactly when some line stores it, and its value is that of the last such line |
| StateFile.LastValueAt | pyosm/parsing.py:41 | the value is the one from the line storing the key after which no line stores it again |
| StateFile.LaterLineWins | pyosm/parsing.py:41 | a later line with the same key overwrites an earlier one |
| StateFile.ValueRoundTrip | pyosm/parsing.py:41 | an escaped value, with or without its newline, strips and unescapes back to the value |
| StateFile.LineSplits | pyosm/parsing.py:40 | `key sep tail` splits into exactly the key and the tail when neither holds the separator's first character |
| StateFile.EntryOfLine | pyosm/parsing.py:35-41 | a line written as key, separator and escaped value is read back as that key and value |
| StateFile.CursorRoundTrip | pyosm/parsing.py:123-125 | the cursor `sequence: %d` is read back by `readState(f, ': ')` as the single key `sequence`, and `int()` gives back the number written |
| Decoder.Open | pyosm/parsing.py:132-177 | a record start decodes exactly when `id` is an integer, a changeset has `open`, `version`/`changeset` are integers (required in a diff, optional in a snapshot) and `uid` is an integer when present. The record opened has the attributes read and empty child lists |
| Decoder.AddChild | pyosm/parsing.py:157-185 | a child element succeeds exactly when a record with that list is open and the child's attributes decode; with no open record it is an `AttributeError`. Only that list grows, by exactly that child, and the rest of the record is unchanged |
| Decoder.StepKeepsOut | pyosm/parsing.py:188-199 | one iteration of the decoding loop never takes back what was yielded |
| Decoder.RunLast | pyosm/parsing.py:130-203 | one more event keeps what was yielded, and leaves a stopped loop as it was |
| Decoder.RunExtends | pyosm/parsing.py:130-203 | the yields of any prefix are a prefix of the yields, an exception in a prefix is the final result, and a run without exception has none in any prefix |
| Decoder.Decode | pyosm/parsing.py:130-203 | the shared decoding loop returns exactly the yields and the exception of the specification `Run` |
| Decoder.IterOsmChangeFile | pyosm/parsing.py:127-203 | `iter_osm_change_file` yields the `(action, obj)` pairs of `Run` over the diff grammar, up to its exception |
| Decoder.ObjectsOf | pyosm/parsing.py:384-394 | the bare records of the yields, one each, in order |
| Decoder.IterOsmFile | pyosm/parsing.py:307-398 | `iter_osm_file` yields the bare records of `Run` over the snapshot grammar, up to its exception |
| Decoder.DecodeChangesets | pyosm/parsing.py:90-117 | the changeset loop of `iter_changeset_stream` yields the changesets of `Run` over the changeset grammar, up to its exception |
| Decoder.OfKind | pyosm/parsing.py:408-415 | the records of one kind are exactly the present records of that kind, and nothing else |
| Decoder.SortByKind | pyosm/parsing.py:408-415 | the loop of `parse_osm_file` appends each record to the list of its kind, in order |
| Decoder.ParseOsmFile | pyosm/parsing.py:400-417 | `parse_osm_file` returns the nodes, ways and relations of the snapshot, in document order, exactly when decoding raises nothing, and it propagates the exception otherwise |
| DecoderFacts.LastPrimitiveIsLast | pyosm/parsing.py:188-199 | the look-back finds the last element that opens or closes a record |
| DecoderFacts.FillAppendsTags | pyosm/parsing.py:157-163 | a record keeps its kind and attributes, and gains one tag per `tag` element after its start, in document order |
| DecoderFacts.FillAppendsNds | pyosm/parsing.py:164-165 | a way gains one node reference per `nd` element, in order; any other record never meets one |
| DecoderFacts.FillAppendsMembers | pyosm/parsing.py:178-185 | a relation gains one member per `member` element, in order; any other record never meets one |
| DecoderFacts.ChildStepped | pyosm/parsing.py:157-185 | a child element that raised nothing was appended to an open record, and changed nothing else |
| DecoderFacts.StateAt | pyosm/parsing.py:130-199 | after any prefix that raised nothing: `action` is the last wrapper if it is open, `obj` is the record its last start opened (filled with the children after it), and one yield was made per closing record element |
| DecoderFacts.YieldAtClose | pyosm/parsing.py:188-197 | the record element closing at position j gives yield number "records closed before j", paired with the action in force and carrying the record it opened; later events cannot take it back |
| DecoderFacts.YieldCount | pyosm/parsing.py:188-197 | a run without exception yields exactly once per closing record element |
| DecoderFacts.NoActionOutsideDiffs | pyosm/parsing.py:384-394 | the snapshot and changeset decoders never pair a record with an action |
| DecoderFacts.NoOpenRecord | pyosm/parsing.py:190-191 | before any record, or after one has closed, `obj` is `None` |
| DecoderFacts.OrphanChildFails | pyosm/parsing.py:157-165 | a `tag`, `nd` or `member` element while no record is open stops the decoder, with `AttributeError` when nothing raised before it |
| DecoderFacts.UndecodableRecordFails | pyosm/parsing.py:132-136 | a record element without a decodable `id` (in a diff also `version`/`changeset`) stops the decoder |
| Backoff.DelayBounds | pyosm/parsing.py:76-87 | the retry delay stays between 1 and 13 seconds: it doubles over the first 404s and is 13 from the fourth on |
| Backoff.DelayStep | pyosm/parsing.py:87 | the closed form agrees with the step `delay = min(delay * 2, 13)` |
| Backoff.FudgeAddedClosed | pyosm/parsing.py:88 | k consecutive 404s add 2, 6, 14 to `interval_fudge` for the first three, then 13 more for each further one |
| Backoff.SleepsAre | pyosm/parsing.py:86 | the i-th sleep of a retried fetch is the delay after i 404s, between 1 and 13 seconds |
| Backoff.Settling | pyosm/parsing.py:77-88 | the retry loop ends at the first outcome that is a body or an exception it does not catch, and no earlier |
| Backoff.FetchOnce | pyosm/parsing.py:266 | a fetch without retry gives the body exactly when there is one, and raises the HTTP error otherwise |
| Backoff.Fetcher.constructor | pyosm/parsing.py:71 | `interval_fudge` starts at 0, with no 404s seen |
| Backoff.Fetcher.Reset | pyosm/parsing.py:76 | `delay = 1.0` before each retried fetch, with the fudge kept |
| Backoff.Fetcher.OnNotFound | pyosm/parsing.py:84-88 | a 404 sleeps for the current delay, doubles the delay up to 13, and adds the new delay to the fudge |
| Backoff.Fetcher.OnSuccess | pyosm/parsing.py:82 | a successful fetch halves the fudge |
| Backoff.Fetcher.Retrieve | pyosm/parsing.py:76-88 | the retried fetch ends as the first settling outcome decides. Its sleeps are the delays of the 404s before it. The fudge grows by what those 404s add and is then halved on success |
| Backoff.Halved | pyosm/parsing.py:82 | repeated successes shrink a non-negative fudge without making it negative |
| Backoff.HalvedClosed | pyosm/parsing.py:82 | after n successes the fudge is the original divided by 2^n |
| Backoff.SleepTime | pyosm/parsing.py:277-282 | the pacing sleep, with one clock reading, is never negative, is zero exactly when the target has passed, and otherwise wakes exactly at the target |
| Backoff.SleepTimeAsWrittenNegative | pyosm/parsing.py:278-279 | with the clock read twice, the computed sleep is negative exactly when the two readings straddle the target |
| Backoff.SleepTimeAsWrittenCounterexample | pyosm/parsing.py:278-282 | readings 59.5 and 60.25 around target 60 give a sleep of -0.25, where one reading gives 0.5 or 0 |
| Backoff.SleepTimeOneReading | pyosm/parsing.py:278-281 | with both readings equal, the as-written formula is the corrected one |
| Backoff.PaceAsWritten | pyosm/parsing.py:277-282 | as written, the pacing step raises exactly when the readings straddle the target |
| Backoff.Pace | pyosm/parsing.py:277-282 | the corrected pacing step never raises and never oversleeps the target |
| Streams.StartNumber | pyosm/parsing.py:69 | `int(start_sqn)` of an integer is that integer, and of a text is its value or `ValueError` |
| Streams.StartText | pyosm/parsing.py:216 | `'%s' % start_sqn` is the decimal text of an integer or the text itself |
| Streams.ResumeFrom | pyosm/parsing.py:206-214 | a missing `state_dir` raises; a cursor file in it replaces `start_sqn` with its entry (or raises its `readState` or `KeyError` exception); otherwise the caller's start stands |
| Streams.Bare | pyosm/parsing.py:116 | the changeset stream yields each record bare, one item per record, in order |
| Streams.Changes | pyosm/parsing.py:228-229 | the diff streams yield each `(action, obj)` pair as one item, in order |
| Streams.PayloadAppend | pyosm/parsing.py:116-119 | the records and changes of two stretches of output are those of the first, then those of the second |
| Streams.PayloadOfBare | pyosm/parsing.py:116 | the bare items of the changeset stream carry exactly the decoded records, in order |
| Streams.PayloadOfChanges | pyosm/parsing.py:228-229 | the change items of the diff streams carry exactly the decoded records, in order |
| Streams.MarkersOfBare | pyosm/parsing.py:116 | record items carry no checkpoint |
| Streams.MarkersOfChanges | pyosm/parsing.py:228-229 | change items carry no checkpoint |
| Streams.MarkersAppend | pyosm/parsing.py:119 | the checkpoints of two stretches of output are those of the first, then those of the second |
| ChangesetStream.ResumeFromCursor | pyosm/parsing.py:58-69 | a saved cursor `sequence: n` makes the stream start at n, whatever the caller passed |
| ChangesetStream.StartsAtGivenNumber | pyosm/parsing.py:64-69 | without a state directory, a non-zero integer start is used as given |
| ChangesetStream.Attempt | pyosm/parsing.py:76-117 | one sequence stalls when its retries run out and raises what the fetch raised. Otherwise it yields the decoded changesets and halts exactly when decoding raised |
| ChangesetStream.AttemptedAt | pyosm/parsing.py:72-117 | the k-th sequence comes to the attempt of the k-th script entry |
| ChangesetStream.FollowStops | pyosm/parsing.py:72-125 | once halted, the stream takes nothing more |
| ChangesetStream.FollowSnoc | pyosm/parsing.py:72-125 | a stream that has not halted takes the next sequence by one more loop pass |
| ChangesetStream.CompletedStep | pyosm/parsing.py:116-125 | a completed sequence adds its request, its changesets, its `Finished(n, None)`, and (with a state directory) its cursor n + 1 |
| ChangesetStream.HaltedStep | pyosm/parsing.py:90-117 | a sequence that halts adds its request and the changesets decoded before the halt, and nothing else |
| ChangesetStream.FetchSequence | pyosm/parsing.py:76-117 | one fetch-and-decode pass with the retry state returns what the script entry comes to |
| ChangesetStream.NextSequence | pyosm/parsing.py:72-125 | one pass of the `while True` loop moves the outputs from the stream after k sequences to the stream after k + 1 |
| ChangesetStream.FollowScript | pyosm/parsing.py:72-125 | the loop's items, requested paths, saved cursors and halt are those of the specification `Follow` |
| ChangesetStream.IterChangesetStream | pyosm/parsing.py:45-125 | the generator raises the start's exception before any request; otherwise it produces `Follow` from the first sequence |
| ChangesetStream.Advance | pyosm/parsing.py:72-125 | sequence `first + k` either halts the stream with its partial changesets, or completes with its checkpoint and cursor |
| ChangesetStream.FollowShape | pyosm/parsing.py:72-121 | the stream finishes a prefix of the sequences and halts at the first that does not complete. It requests the consecutive numbers from `first` on, one more than it finished when it halted |
| ChangesetStream.FollowItems | pyosm/parsing.py:116-119 | each finished sequence yields its changesets and then its checkpoint; after a halt, only the changesets decoded before it |
| ChangesetStream.StepItems | pyosm/parsing.py:116-119 | one loop pass keeps the item layout `FollowItems` states |
| ChangesetStream.MarkersConsecutive | pyosm/parsing.py:119-121 | the checkpoints carry `first`, `first + 1`, and so on: one per finished sequence, in order |
| ChangesetStream.FollowSaves | pyosm/parsing.py:121-125 | with a state directory, finishing sequence n saves the cursor for n + 1; without one nothing is saved |
| ChangesetStream.ResumeAfterLastCursor | pyosm/parsing.py:58-61 | restarting from the last cursor written starts at the sequence after the last one finished, which is the next one the stream would request |
| MinuteStream.FirstRequest | pyosm/parsing.py:252-258 | the first URL is the state file of the start sequence, or the latest `state.txt` when there is no start |
| MinuteStream.DiffOf | pyosm/parsing.py:266-271 | a diff is fetched once. An HTTP or network error raises before any change; a body yields the changes of `iter_osm_change_file` up to its exception |
| MinuteStream.Opening | pyosm/parsing.py:242-259 | before the loop, the stream resumes from the cursor or the caller's start and opens the first state file. It runs exactly when that file arrives and reads, and the result is its state |
| MinuteStream.Emit | pyosm/parsing.py:264-285 | the first half of a round changes no cursor, state or fudge, and continues only when the state names an integer sequence |
| MinuteStream.PlayAdvance | pyosm/parsing.py:263-305 | a running stream takes round k by one more `Turn` |
| MinuteStream.PlayStops | pyosm/parsing.py:263-305 | once halted, the stream takes nothing more |
| MinuteStream.FetchDiff | pyosm/parsing.py:264-271 | the diff fetch and decode of round k returns what the script says of that round |
| MinuteStream.EmitRound | pyosm/parsing.py:264-285 | the first half of a round, imperatively, produces the items, requests, sleeps and halt of `Emit` |
| MinuteStream.RefetchState | pyosm/parsing.py:284-305 | the retried fetch of the next state file, the cursor write and the re-read produce exactly what `Refetch` specifies, including the fudge the `Fetcher` holds |
| MinuteStream.NextRound | pyosm/parsing.py:263-305 | one pass of the `while True` loop moves the outputs from the stream after k rounds to the stream after k + 1 |
| MinuteStream.FollowTicks | pyosm/parsing.py:261-305 | the loop's items, requests, sleeps, cursors and halt are those of the specification `Play` |
| MinuteStream.Rounds | pyosm/parsing.py:263-271 | each tick of the script comes to its decoded diff, its clock reading and its next-state outcomes |
| MinuteStream.IterOsmStream | pyosm/parsing.py:238-305 | the generator produces `Play` from `Opening` over the rounds of the script |
| MinuteStream.TurnCompletes | pyosm/parsing.py:263-305 | a round completes exactly when all of these hold: the state names its sequence and timestamp, the diff decodes, the timestamp parses, the sequence is an integer n, and the state file of n + 1 arrives and reads. It then yields the changes and the `Finished` marker, and opens the diff and the state file of n + 1. It sleeps until the target (or not at all once it has passed), then sleeps the back-off delays. The fudge becomes half of the old fudge plus what the 404s added. With a state directory the new state file is saved, and it becomes the state |
| MinuteStream.TurnBounds | pyosm/parsing.py:277-297 | a round never sleeps a negative time and never drives `interval_fudge` below zero |
| MinuteStream.FudgeAddedNonNegative | pyosm/parsing.py:293-297 | what the 404s of a round add to `interval_fudge` is never negative |
| MinuteStream.TurnFudge | pyosm/parsing.py:287-297 | a completed round leaves `interval_fudge` at half of the old fudge plus what its 404s added |
| MinuteStream.PlayLast | pyosm/parsing.py:263-305 | a stream still running after its rounds was running before the last one, and took it by one more round |
| MinuteStream.PromptRoundsHalve | pyosm/parsing.py:287-297 | rounds whose next state file arrives at the first attempt only halve `interval_fudge`: after n of them it is `Halved(fudge, n)`, the old fudge divided by 2^n |
| MinuteStream.PlayBounds | pyosm/parsing.py:261-305 | over any number of rounds, every sleep and the fudge stay non-negative |
| MinuteStream.PlayCursors | pyosm/parsing.py:299-305 | with a state directory, a running stream has saved one cursor per completed round, and the last one reads as its current state; without one it saves nothing |
| MinuteStream.ResumeFromCursor | pyosm/parsing.py:247-258 | restarting from the cursor a running stream saved first opens the state file of the sequence whose diff the running stream opens next |
| RealtimeStream.Interpret | pyosm/parsing.py:228-232 | a frame completes exactly when all of these hold: the diff decodes, the state has a `timestamp` that parses, and it has a `sequenceNumber`. It then yields the changes and the `Finished` marker; otherwise it yields just the changes before raising |
| RealtimeStream.StepAt | pyosm/parsing.py:221-225 | the reads of one frame end inside the response, past where they began, with the state read from the state chunk |
| RealtimeStream.TailRequest | pyosm/parsing.py:206-216 | the `tail` URL carries the saved cursor's `sequenceNumber` or the caller's start, and the `state_dir` exceptions come first |
| RealtimeStream.Realtime | pyosm/parsing.py:205-236 | the generator raises the start's exception before any request. Otherwise it opens the `tail`: a failed request raises its HTTP or network error with nothing yielded, and a response is read from its first character |
| RealtimeStream.TailAdvance | pyosm/parsing.py:219-236 | a completed frame yields its items, saves its state chunk with a state directory, and hands over to the next frame |
| RealtimeStream.Decoding | pyosm/parsing.py:226-228 | a diff chunk is decompressed, parsed and passed through `iter_osm_change_file` |
| RealtimeStream.ReadStep | pyosm/parsing.py:221-225 | the imperative reads of one frame return what `StepAt` specifies |
| RealtimeStream.InterpretFrame | pyosm/parsing.py:226-232 | the imperative decoding and checkpoint of one frame return what `Interpret` specifies |
| RealtimeStream.FollowWire | pyosm/parsing.py:219-236 | the loop over the response yields, saves and raises exactly what `Tail` specifies from its first character |
| RealtimeStream.IterRealtimeOsmStream | pyosm/parsing.py:205-236 | the generator's URL, items, cursors and final exception are those of `Realtime` |
| RealtimeStream.TailAtEnd | pyosm/parsing.py:221 | at the end of the response `readline()` gives `''` and `int('')` raises, with nothing yielded |
| RealtimeStream.StepAtEncoded | pyosm/parsing.py:221-225 | a frame the server encoded is read back whole (its state, state chunk and diff chunk), and the next frame starts right after it |
| RealtimeStream.WireFramed | pyosm/parsing.py:219-225 | the server's encoding of a list of frames, after any prefix, lays the frames out one after the other from the end of the prefix |
| RealtimeStream.FramedReads | pyosm/parsing.py:219-225 | a response made of encoded frames reads back as exactly those frames when every state chunk reads |
| RealtimeStream.TailOfFrames | pyosm/parsing.py:219-236 | a response of complete frames yields each frame's items in order, saves each frame's own state chunk, and ends with `int('')` |
| RealtimeStream.RealtimeOfWire | pyosm/parsing.py:205-236 | fed the server's frames, the generator opens the `tail` at its start and yields every frame's changes and marker in order. It writes each frame's own state chunk to `realtime_state.txt` with a state directory, and stops at the end of the response |
| RealtimeStream.ResumeFromChunk | pyosm/parsing.py:211-216 | a restart over a saved state chunk reopens the `tail` at that chunk's `sequenceNumber`, when the file read line by line gives the state the running stream read from the stripped chunk |
| RealtimeStream.ResumeAfterLastFrame | pyosm/parsing.py:211-236 | after the server's frames, `realtime_state.txt` holds the last frame's state chunk, and a restart from it reopens the `tail` at the sequence of the last frame processed, when that chunk reads the same both ways |
| RealtimeStream.LeadingBlankLineBreaksResume | pyosm/parsing.py:211-223 | a state chunk that starts with a blank line reads, stripped, exactly like the chunk without it, yet a restart from it raises `ValueError` on the line `"\n"`, whatever follows |
| RealtimeStream.FrameMarkers | pyosm/parsing.py:231-232 | each complete frame carries exactly one `Finished` marker, naming its own sequence |
| RealtimeStream.MarkersOfWire | pyosm/parsing.py:219-236 | over a response of complete frames, the markers name the frames' sequences, one each, in order |
| Frames.LineEnd | pyosm/parsing.py:221 | `readline()` stops inside the text |
| Frames.LineEndAt | pyosm/parsing.py:221 | `readline()` stops just past the first newline |
| Frames.LineEndAtEnd | pyosm/parsing.py:221 | `readline()` at the end of the text returns `''` |
| Frames.ReadEnd | pyosm/parsing.py:222 | `read(n)` takes n characters when that many remain, and the rest of the text when n is negative or larger |
| Frames.ReadChunk | pyosm/parsing.py:221-222 | a chunk read fails exactly when its length line is not an integer. Otherwise it returns the characters after the line and moves past them |
| Frames.ReadChunkOfSize | pyosm/parsing.py:221-222 | a length line that reads as a size that fits gives exactly the next size characters |
| Frames.ParseLengthLine | pyosm/parsing.py:221 | a length line the server writes reads back as that length |
| Frames.ReadEncodedChunk | pyosm/parsing.py:221-222 | reading where the server framed a chunk gives back exactly that chunk and moves past it |
| Frames.ReadEncodedFrame | pyosm/parsing.py:221-226 | reading two chunks after an encoded frame gives its state chunk, then its diff chunk |

## Left out

- Fields.ToInt: reads every attribute value as ASCII text. Under Python 2, lxml returns a non-ASCII attribute value as `unicode`, and `int()` of a `unicode` (through `PyUnicode_EncodeDecimal`) also maps every Unicode decimal digit to its ASCII digit and every Unicode space (U+00A0, U+2003, U+3000, ...) to a blank, so `int(u'\u0661\u0662\u0663') == 123` and `int(u'\xa012') == 12`. The model raises `NotAnInteger` on such values, in `Fields.RequiredInt` and `Fields.MaybeInt` and so in every `id`, `version`, `changeset`, `uid` and `ref` the decoders read; the Unicode digit and space tables are not part of this model.
- Floating point. Seconds and `interval_fudge` are exact rationals (`real`), and `float(...)` coordinates are kept as their text (`Coord`). A malformed `lat`, `lon` or changeset bounding-box attribute (`min_lat` and the others), on which `float()` raises `ValueError` (pyosm/parsing.py:97-100, 142-143, 324-325), is therefore not modelled as an exception.
- `strptime` and `isoToDatetime`. They are the parameter `instant`, or the `Parsed(text)` stamp, not a calendar computation. A malformed timestamp attribute inside a record is not modelled as an exception.
- `gzip` and `lxml`. A fetched body is given as its parse events, and a realtime diff chunk goes through the parameter `inflate`. Decompression errors, XML syntax errors, and the `elem.clear()` memory housekeeping at pyosm/parsing.py:201-203 are not modelled.
- Network and files. `urlopen` results are scripted `Outcome`s. The state directory is a value (`StateDir`) giving whether it exists and the text of its cursor file. Writing the cursor is appending its text to the list of cursors.
- The clock. The minute stream reads the clock once per round, as a scripted value (see Findings). `time.sleep` is the list of durations slept.
- Endless loops. The `while True` loops stop when the script runs out. A retry that runs out of scripted outcomes ends the model with `Stalled`, where the source would keep retrying.
- The realtime response is a finite text. The model's generator therefore always ends with an exception, `int('')` at the end of the text, where the source's connection may stay open.
- `pyosm/model.py` is not part of this model. The records' fields follow the constructor calls in pyosm/parsing.py.
- RealtimeStream.ResumeAfterLastFrame: promises the resumption only for a last state chunk whose line-by-line reading (pyosm/parsing.py:211-213) gives the same state as the stripped reading of the running stream (pyosm/parsing.py:223). The source reads the saved chunk without stripping it, so a chunk with a blank line, for instance a leading one (`RealtimeStream.LeadingBlankLineBreaksResume`), makes the restart raise where the running stream did not. The model keeps both readings as written.
- MinuteStream.Emit: uses the corrected single-reading pacing sleep (`Backoff.SleepTime`), not the two-reading computation at pyosm/parsing.py:278-279. The as-written behaviour is modelled separately in `Backoff`.

## Findings

| source | as written | input that shows it | evidently intended | confidence | as-written member | corrected member |
|---|---|---|---|---|---|---|
| pyosm/parsing.py:278-282 | `utcnow()` is read once for the comparison and again for the subtraction, and the difference goes to `time.sleep` | target 60, clock 59.5 at the comparison and 60.25 at the subtraction: the sleep is -0.25 and `time.sleep` raises | one clock reading, so the sleep is never negative and is zero once the target has passed | not executed | Backoff.SleepTimeAsWrittenCounterexample | Backoff.SleepTime |
