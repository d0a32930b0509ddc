/**
 * `readState`: the `key=value` (or `key: value`) state files of a replication
 * directory, read line by line into a dictionary, and the one-line cursor the
 * changeset stream writes back.
 */
module StateFile {
  import opened Wrappers
  import opened Records
  import opened Text
  import opened Decimal

  /** The dictionary `readState` returns. */
  type State = map<string, string>

  /** A line `readState` passes over: a `---` separator or a `#` comment. */
  predicate Skipped(line: string) {
    StartsWith(line, "---") || (line != [] && line[0] == '#')
  }

  /**
   * What one line contributes: nothing when it is skipped, else the key before the
   * separator and the stripped, unescaped value after it. The checks run in the
   * source's order: `startswith('---')`, then `line[0]` (an `IndexError` on an empty
   * line), then the two-way unpacking of `line.split(sep)`.
   */
  function Entry(line: string, sep: string): (r: Result<Option<(string, string)>, Error>)
    ensures r == Ok(None) <==> Skipped(line)
    ensures r.Ok? <==> Skipped(line) || (line != [] && sep != [] && |Split(line, sep)| == 2)
    ensures r.Err? ==>
      r.error == (if line == [] then EmptyLine else if sep == [] then EmptySeparator else MalformedLine(line))
  {
    if StartsWith(line, "---") then Ok(None)
    else if line == [] then Err(EmptyLine)
    else if line[0] == '#' then Ok(None)
    else if sep == [] then Err(EmptySeparator)
    else
      var parts := Split(line, sep);
      if |parts| != 2 then Err(MalformedLine(line))
      else Ok(Some((parts[0], Unescape(Strip(parts[1])))))
  }

  /** The dictionary after the lines `lines`, or the exception of the first bad line. */
  function ReadStateOf(lines: seq<string>, sep: string): Result<State, Error> {
    if lines == [] then Ok(map[])
    else
      var state :- ReadStateOf(lines[..|lines| - 1], sep);
      match Entry(lines[|lines| - 1], sep)
      case Err(e) => Err(e)
      case Ok(None) => Ok(state)
      case Ok(Some(kv)) => Ok(state[kv.0 := kv.1])
  }

  /** `readState(state_file, sep)`, over the lines the file object yields. */
  method ReadState(lines: seq<string>, sep: string) returns (r: Result<State, Error>)
    ensures r == ReadStateOf(lines, sep)
  {
    var state: State := map[];
    var i := 0;
    while i < |lines|
      invariant 0 <= i <= |lines|
      invariant ReadStateOf(lines[..i], sep) == Ok(state)
    {
      assert lines[..i + 1][..i] == lines[..i];
      var line := lines[i];
      if StartsWith(line, "---") {
        i := i + 1;
        continue;
      }
      if line == [] {
        r := Err(EmptyLine);
        ReadStateStops(lines, sep, i + 1);
        return;
      }
      if line[0] == '#' {
        i := i + 1;
        continue;
      }
      if sep == [] {
        r := Err(EmptySeparator);
        ReadStateStops(lines, sep, i + 1);
        return;
      }
      var parts := Split(line, sep);
      if |parts| != 2 {
        r := Err(MalformedLine(line));
        ReadStateStops(lines, sep, i + 1);
        return;
      }
      state := state[parts[0] := Unescape(Strip(parts[1]))];
      i := i + 1;
    }
    assert lines[..i] == lines;
    r := Ok(state);
  }

  /** Once a line has raised, the lines after it are never read. */
  lemma {:induction false} ReadStateStops(lines: seq<string>, sep: string, k: nat)
    requires k <= |lines| && ReadStateOf(lines[..k], sep).Err?
    ensures ReadStateOf(lines, sep) == ReadStateOf(lines[..k], sep)
    decreases |lines|
  {
    if k < |lines| {
      var init := lines[..|lines| - 1];
      assert init[..k] == lines[..k];
      ReadStateStops(init, sep, k);
    } else {
      assert lines[..k] == lines;
    }
  }

  /** `readState` over a file's text: the file object yields its lines, newlines kept. */
  method ReadStateFile(text: string, sep: string) returns (r: Result<State, Error>)
    ensures r == ReadStateOf(FileLines(text), sep)
  {
    r := ReadState(FileLines(text), sep);
  }

  /** `readState` succeeds exactly when every line is skipped or splits into two parts. */
  lemma {:induction false} ReadStateSucceeds(lines: seq<string>, sep: string)
    ensures ReadStateOf(lines, sep).Ok? <==> forall i :: 0 <= i < |lines| ==> Entry(lines[i], sep).Ok?
    decreases |lines|
  {
    if lines != [] {
      var init := lines[..|lines| - 1];
      ReadStateSucceeds(init, sep);
      assert forall i :: 0 <= i < |init| ==> init[i] == lines[i];
    }
  }

  /** The first bad line decides the exception. */
  lemma FirstBadLine(lines: seq<string>, sep: string, j: nat)
    requires j < |lines| && Entry(lines[j], sep).Err?
    requires forall i :: 0 <= i < j ==> Entry(lines[i], sep).Ok?
    ensures ReadStateOf(lines, sep) == Err(Entry(lines[j], sep).error)
  {
    var pre := lines[..j];
    assert forall i :: 0 <= i < |pre| ==> pre[i] == lines[i];
    ReadStateSucceeds(pre, sep);
    assert lines[..j + 1][..j] == pre;
    ReadStateStops(lines, sep, j + 1);
  }

  /** Whether a line stores `key`. */
  predicate Stores(line: string, sep: string, key: string) {
    var e := Entry(line, sep);
    e.Ok? && e.value.Some? && e.value.value.0 == key
  }

  /** The value the last line storing `key` gives it, looking back from the end. */
  function LastValue(lines: seq<string>, sep: string, key: string): Option<string> {
    if lines == [] then None
    else if Stores(lines[|lines| - 1], sep, key) then Some(Entry(lines[|lines| - 1], sep).value.value.1)
    else LastValue(lines[..|lines| - 1], sep, key)
  }

  /** A key is in the dictionary exactly when some line stores it, with the value of the last such line. */
  lemma {:induction false} ReadStateValues(lines: seq<string>, sep: string, key: string)
    requires ReadStateOf(lines, sep).Ok?
    ensures key in ReadStateOf(lines, sep).value <==> LastValue(lines, sep, key).Some?
    ensures key in ReadStateOf(lines, sep).value ==>
      ReadStateOf(lines, sep).value[key] == LastValue(lines, sep, key).value
    decreases |lines|
  {
    if lines != [] {
      ReadStateValues(lines[..|lines| - 1], sep, key);
    }
  }

  /** `LastValue` finds the line storing `key` after which no line stores it again. */
  lemma {:induction false} LastValueAt(lines: seq<string>, sep: string, key: string, j: nat)
    requires j < |lines| && Stores(lines[j], sep, key)
    requires forall i :: j < i < |lines| ==> !Stores(lines[i], sep, key)
    ensures LastValue(lines, sep, key) == Some(Entry(lines[j], sep).value.value.1)
    decreases |lines|
  {
    if j < |lines| - 1 {
      var init := lines[..|lines| - 1];
      assert forall i :: j < i < |init| ==> init[i] == lines[i];
      LastValueAt(init, sep, key, j);
    }
  }

  /** A later line with the same key overwrites an earlier one: the last one wins. */
  lemma LaterLineWins(lines: seq<string>, sep: string, j: nat, key: string, value: string)
    requires ReadStateOf(lines, sep).Ok?
    requires j < |lines| && Entry(lines[j], sep) == Ok(Some((key, value)))
    requires forall i :: j < i < |lines| ==> !Stores(lines[i], sep, key)
    ensures key in ReadStateOf(lines, sep).value && ReadStateOf(lines, sep).value[key] == value
  {
    LastValueAt(lines, sep, key, j);
    ReadStateValues(lines, sep, key);
  }

  /** The escaped value, with or without the newline a file line keeps, strips and unescapes back to the value. */
  lemma ValueRoundTrip(value: string, newline: bool)
    requires NoSpace(value)
    ensures Unescape(Strip(Escape(value) + (if newline then "\n" else ""))) == value
  {
    var e := Escape(value);
    EscapeNoSpace(value);
    if newline {
      StripNewline(e);
    } else {
      assert e + "" == e;
      StripNoSpace(e);
    }
    UnescapeEscape(value);
  }

  /** A line `key sep tail` splits into the key and the tail when neither holds the separator's first character. */
  lemma LineSplits(key: string, sep: string, tail: string)
    requires sep != []
    requires forall i :: 0 <= i < |key| ==> key[i] != sep[0]
    requires forall i :: 0 <= i < |tail| ==> tail[i] != sep[0]
    ensures Split(key + sep + tail, sep) == [key, tail]
  {
    SplitAtFirstSeparator(key, sep, tail);
    SplitWithoutSeparator(tail, sep);
  }

  lemma TailAvoids(e: string, tail: string, newline: bool, c: char)
    requires c != '\n' && tail == e + (if newline then "\n" else "")
    requires forall i :: 0 <= i < |e| ==> e[i] != c
    ensures forall i :: 0 <= i < |tail| ==> tail[i] != c
  {
  }

  /**
   * A line written as `key`, the separator, the escaped value and an optional newline
   * is read back as that key and value, when neither the key nor the escaped value
   * contains the separator's first character and the value holds no blank.
   */
  lemma EntryOfLine(key: string, sep: string, value: string, newline: bool)
    requires sep != [] && sep[0] != '\n'
    requires key != [] && key[0] != '#' && key[0] != '-'
    requires forall i :: 0 <= i < |key| ==> key[i] != sep[0]
    requires forall i :: 0 <= i < |Escape(value)| ==> Escape(value)[i] != sep[0]
    requires NoSpace(value)
    ensures Entry(key + sep + Escape(value) + (if newline then "\n" else ""), sep) == Ok(Some((key, value)))
  {
    var tail := Escape(value) + (if newline then "\n" else "");
    var line := key + sep + Escape(value) + (if newline then "\n" else "");
    assert line == key + sep + tail;
    TailAvoids(Escape(value), tail, newline, sep[0]);
    LineSplits(key, sep, tail);
    ValueRoundTrip(value, newline);
    assert line[0] == key[0];
    assert !StartsWith(line, "---") by {
      if |line| >= 3 { assert line[..3][0] == key[0]; }
    }
  }

  /** What the changeset stream writes after finishing a sequence: `'sequence: %d' % n`. */
  function CursorText(n: int): string {
    "sequence: " + IntToString(n)
  }

  lemma IntToStringPlain(n: int)
    ensures NoSpace(IntToString(n))
    ensures forall i :: 0 <= i < |IntToString(n)| ==> IntToString(n)[i] != ':' && IntToString(n)[i] != '\n'
  {
    var s := IntToString(n);
    if n < 0 {
      var d := NatToString(-n);
      assert s == "-" + d;
      assert forall i :: 1 <= i < |s| ==> s[i] == d[i - 1];
    }
  }

  /**
   * The cursor round trip: `readState(f, ': ')` over the written cursor yields the one
   * key `sequence`, whose text `int()` reads back as the number written.
   */
  lemma CursorRoundTrip(n: int)
    ensures ReadStateOf(FileLines(CursorText(n)), ": ") == Ok(map["sequence" := IntToString(n)])
    ensures ParseInt(IntToString(n)) == Some(n)
  {
    var v := IntToString(n);
    IntToStringPlain(n);
    EscapeNoColon(v);
    var line := "sequence" + ": " + Escape(v) + "";
    EntryOfLine("sequence", ": ", v, false);
    assert line == CursorText(n);
    assert forall i :: 0 <= i < |line| ==> line[i] != '\n' by {
      forall i | 0 <= i < |line| ensures line[i] != '\n' {
        if i >= 10 { assert line[i] == v[i - 10]; }
      }
    }
    FileLinesSingle(line);
    assert [line][..0] == [];
    ParseIntToString(n);
  }
}
