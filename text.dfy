/**
 * The handful of Python 2 `str` operations the replication client relies on:
 * `strip`, `startswith`, `split(sep)`, `replace("\\:", ":")` and the way a file
 * object is iterated line by line.
 */
module Text {

  /** The characters Python 2's `str.isspace` (and therefore `strip()`) treats as blank. */
  predicate IsSpace(c: char) {
    c == ' ' || c == '\t' || c == '\n' || c == '\r' || c == '\U{0B}' || c == '\U{0C}'
  }

  predicate NoSpace(s: string) {
    forall k :: 0 <= k < |s| ==> !IsSpace(s[k])
  }

  predicate StartsWith(s: string, prefix: string) {
    |prefix| <= |s| && s[..|prefix|] == prefix
  }

  /** `s.lstrip()`: the suffix left after dropping the leading blanks. */
  function LStrip(s: string): string {
    if s != [] && IsSpace(s[0]) then LStrip(s[1..]) else s
  }

  /** `lstrip()` drops exactly the leading blanks: what it keeps is a suffix that starts with no blank. */
  lemma {:induction false} LStripSpec(s: string)
    ensures |LStrip(s)| <= |s| && LStrip(s) == s[|s| - |LStrip(s)|..]
    ensures forall k :: 0 <= k < |s| - |LStrip(s)| ==> IsSpace(s[k])
    ensures LStrip(s) == [] || !IsSpace(LStrip(s)[0])
    decreases |s|
  {
    if s != [] && IsSpace(s[0]) {
      LStripSpec(s[1..]);
    }
  }

  /** `s.rstrip()`: the prefix left after dropping the trailing blanks. */
  function RStrip(s: string): string {
    if s != [] && IsSpace(s[|s| - 1]) then RStrip(s[..|s| - 1]) else s
  }

  /** `rstrip()` drops exactly the trailing blanks: what it keeps is a prefix that ends with no blank. */
  lemma {:induction false} RStripSpec(s: string)
    ensures |RStrip(s)| <= |s| && RStrip(s) == s[..|RStrip(s)|]
    ensures forall k :: |RStrip(s)| <= k < |s| ==> IsSpace(s[k])
    ensures RStrip(s) == [] || !IsSpace(RStrip(s)[|RStrip(s)| - 1])
    decreases |s|
  {
    if s != [] && IsSpace(s[|s| - 1]) {
      RStripSpec(s[..|s| - 1]);
    }
  }

  /** `s.strip()`. */
  function Strip(s: string): string {
    RStrip(LStrip(s))
  }

  /** A string without blanks is left alone by `strip()`. */
  lemma StripNoSpace(s: string)
    requires NoSpace(s)
    ensures Strip(s) == s
  {
  }

  /** A line read from a file keeps its newline; `strip()` removes it again. */
  lemma StripNewline(s: string)
    requires NoSpace(s)
    ensures Strip(s + "\n") == s
  {
    var t := s + "\n";
    if s == [] {
      assert LStrip(t[1..]) == [];
    } else {
      assert t[0] == s[0] && !IsSpace(s[0]);
      assert LStrip(t) == t;
      assert t[..|t| - 1] == s;
      assert RStrip(s) == s;
    }
  }

  /**
   * `s.split(sep)` for a non-empty separator: the separator is looked for from the
   * left, occurrences do not overlap, and there is always at least one part.
   */
  function Split(s: string, sep: string): (parts: seq<string>)
    requires sep != []
    ensures |parts| >= 1
    decreases |s|
  {
    if |s| < |sep| then [s]
    else if s[..|sep|] == sep then [""] + Split(s[|sep|..], sep)
    else
      var rest := Split(s[1..], sep);
      [[s[0]] + rest[0]] + rest[1..]
  }

  /** `sep.join(parts)`, the inverse of `Split`. */
  function Join(parts: seq<string>, sep: string): string
    requires |parts| >= 1
  {
    if |parts| == 1 then parts[0] else parts[0] + sep + Join(parts[1..], sep)
  }

  lemma JoinConsChar(c: char, parts: seq<string>, sep: string)
    requires |parts| >= 1
    ensures Join([[c] + parts[0]] + parts[1..], sep) == [c] + Join(parts, sep)
  {
    var q := [[c] + parts[0]] + parts[1..];
    assert q[1..] == parts[1..];
  }

  lemma JoinConsEmpty(parts: seq<string>, sep: string)
    requires |parts| >= 1
    ensures Join([""] + parts, sep) == sep + Join(parts, sep)
  {
    assert ([""] + parts)[1..] == parts;
  }

  /** Joining the parts of a split with the same separator gives the string back. */
  lemma {:induction false} SplitJoin(s: string, sep: string)
    requires sep != []
    ensures Join(Split(s, sep), sep) == s
    decreases |s|
  {
    if |s| < |sep| {
    } else if s[..|sep|] == sep {
      SplitJoin(s[|sep|..], sep);
      JoinConsEmpty(Split(s[|sep|..], sep), sep);
      assert s == sep + s[|sep|..];
    } else {
      var rest := Split(s[1..], sep);
      SplitJoin(s[1..], sep);
      JoinConsChar(s[0], rest, sep);
      assert s == [s[0]] + s[1..];
    }
  }

  /** A string in which the separator's first character never occurs is not split at all. */
  lemma {:induction false} SplitWithoutSeparator(s: string, sep: string)
    requires sep != []
    requires forall k :: 0 <= k < |s| ==> s[k] != sep[0]
    ensures Split(s, sep) == [s]
    decreases |s|
  {
    if |s| < |sep| {
    } else {
      assert s[..|sep|][0] == s[0];
      SplitWithoutSeparator(s[1..], sep);
      assert [s[0]] + s[1..] == s;
    }
  }

  /** The first part ends at the first separator when nothing before it could start one. */
  lemma {:induction false} SplitAtFirstSeparator(a: string, sep: string, b: string)
    requires sep != []
    requires forall k :: 0 <= k < |a| ==> a[k] != sep[0]
    ensures Split(a + sep + b, sep) == [a] + Split(b, sep)
    decreases |a|
  {
    var s := a + sep + b;
    if a == [] {
      assert s[..|sep|] == sep;
      assert s[|sep|..] == b;
    } else {
      assert s[..|sep|][0] == a[0];
      assert s[1..] == a[1..] + sep + b;
      SplitAtFirstSeparator(a[1..], sep, b);
      assert [a[0]] + a[1..] == a;
    }
  }

  /** `s.replace("\\:", ":")`: every non-overlapping backslash-colon pair, from the left, becomes a colon. */
  function Unescape(s: string): string
  {
    if |s| >= 2 && s[0] == '\\' && s[1] == ':' then ":" + Unescape(s[2..])
    else if s == [] then []
    else [s[0]] + Unescape(s[1..])
  }

  /** The escaping that `Unescape` undoes: a backslash in front of every colon. */
  function Escape(s: string): (r: string)
    ensures r == [] || r[0] != ':'
  {
    if s == [] then []
    else if s[0] == ':' then "\\:" + Escape(s[1..])
    else [s[0]] + Escape(s[1..])
  }

  lemma {:induction false} UnescapeEscape(s: string)
    ensures Unescape(Escape(s)) == s
  {
    if s == [] {
    } else if s[0] == ':' {
      UnescapeEscape(s[1..]);
      var e := "\\:" + Escape(s[1..]);
      assert e[2..] == Escape(s[1..]);
      assert [s[0]] + s[1..] == s;
    } else {
      UnescapeEscape(s[1..]);
      var e := [s[0]] + Escape(s[1..]);
      assert e[1..] == Escape(s[1..]);
      assert [s[0]] + s[1..] == s;
    }
  }

  /** Escaping adds only backslashes, so it puts no blank into a string. */
  lemma {:induction false} EscapeNoSpace(s: string)
    requires NoSpace(s)
    ensures NoSpace(Escape(s))
  {
    if s != [] {
      EscapeNoSpace(s[1..]);
      var e := Escape(s);
      var rest := Escape(s[1..]);
      if s[0] == ':' {
        assert e == "\\:" + rest;
        assert forall k :: 2 <= k < |e| ==> e[k] == rest[k - 2];
      } else {
        assert e == [s[0]] + rest;
        assert forall k :: 1 <= k < |e| ==> e[k] == rest[k - 1];
      }
    }
  }

  /** Text without a colon needs no escaping. */
  lemma {:induction false} EscapeNoColon(s: string)
    requires forall k :: 0 <= k < |s| ==> s[k] != ':'
    ensures Escape(s) == s
  {
    if s != [] {
      EscapeNoColon(s[1..]);
      assert [s[0]] + s[1..] == s;
    }
  }

  /** Text without a backslash is left alone by `Unescape`. */
  lemma {:induction false} UnescapeNoBackslash(s: string)
    requires forall k :: 0 <= k < |s| ==> s[k] != '\\'
    ensures Unescape(s) == s
  {
    if s != [] {
      UnescapeNoBackslash(s[1..]);
      assert [s[0]] + s[1..] == s;
    }
  }

  /**
   * The lines a Python file object yields for the text `text`: each line keeps its
   * terminating newline, the last one may lack it, and empty text has no lines.
   */
  function FileLines(text: string): (lines: seq<string>)
    ensures text == [] <==> lines == []
    decreases |text|
  {
    if text == [] then []
    else if text[0] == '\n' then ["\n"] + FileLines(text[1..])
    else
      var rest := FileLines(text[1..]);
      if rest == [] then [[text[0]]] else [[text[0]] + rest[0]] + rest[1..]
  }

  function Concat(lines: seq<string>): string {
    if lines == [] then [] else lines[0] + Concat(lines[1..])
  }

  /** The lines of a file, put back together, are its text. */
  lemma {:induction false} FileLinesConcat(text: string)
    ensures Concat(FileLines(text)) == text
    decreases |text|
  {
    if text == [] {
    } else if text[0] == '\n' {
      FileLinesConcat(text[1..]);
      assert (["\n"] + FileLines(text[1..]))[1..] == FileLines(text[1..]);
      assert text == "\n" + text[1..];
    } else {
      var rest := FileLines(text[1..]);
      FileLinesConcat(text[1..]);
      if rest != [] {
        var ls := [[text[0]] + rest[0]] + rest[1..];
        assert ls[1..] == rest[1..];
        assert Concat(rest) == rest[0] + Concat(rest[1..]);
      }
      assert text == [text[0]] + text[1..];
    }
  }

  /** Text with no newline is read back as that one line. */
  lemma {:induction false} FileLinesSingle(text: string)
    requires text != []
    requires forall k :: 0 <= k < |text| ==> text[k] != '\n'
    ensures FileLines(text) == [text]
    decreases |text|
  {
    assert text[0] != '\n';
    var rest := FileLines(text[1..]);
    if |text| == 1 {
      assert text[1..] == [];
      assert [text[0]] == text;
    } else {
      FileLinesSingle(text[1..]);
      assert rest[1..] == [];
      assert [text[0]] + rest[0] == text;
    }
  }
}
