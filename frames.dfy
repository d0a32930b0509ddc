/**
 * The streaming replication wire format: each frame is a decimal length on a line of
 * its own followed by that many characters of state, then a second length line and
 * that many characters of compressed diff. The response is read with `readline()` and
 * `read(n)`; here it is the finite text `text` and a reading position `pos`.
 */
module Frames {
  import opened Wrappers
  import opened Records
  import opened Text
  import opened Decimal

  /** Where `readline()` from `pos` stops: just past the next newline, or at the end of the text. */
  function LineEnd(text: string, pos: nat): (e: nat)
    requires pos <= |text|
    ensures pos <= e <= |text|
    decreases |text| - pos
  {
    if pos == |text| then pos
    else if text[pos] == '\n' then pos + 1
    else LineEnd(text, pos + 1)
  }

  /** `readline()` returns the characters up to and including the first newline after `pos`. */
  lemma {:induction false} LineEndAt(text: string, pos: nat, q: nat)
    requires pos <= q < |text| && text[q] == '\n'
    requires forall k :: pos <= k < q ==> text[k] != '\n'
    ensures LineEnd(text, pos) == q + 1
    decreases q - pos
  {
    if pos < q {
      LineEndAt(text, pos + 1, q);
    }
  }

  /** At the end of the text `readline()` returns the empty string. */
  lemma LineEndAtEnd(text: string)
    ensures LineEnd(text, |text|) == |text|
  {
  }

  /** Where `read(n)` from `pos` stops: `n` characters on, or the end; a negative `n` reads everything. */
  function ReadEnd(text: string, pos: nat, n: int): (e: nat)
    requires pos <= |text|
    ensures pos <= e <= |text|
    ensures 0 <= n <= |text| - pos ==> e == pos + n
    ensures n < 0 || n > |text| - pos ==> e == |text|
  {
    if n < 0 || n > |text| - pos then |text| else pos + n
  }

  /**
   * `int(content.readline().strip())` and then `content.read(size)`: the chunk read and
   * the position after it, or the `ValueError` of a size line that is not a number
   * (at the end of the text, the empty line).
   */
  function ReadChunk(text: string, pos: nat): (r: Result<(string, nat), Error>)
    requires pos <= |text|
    ensures r.Ok? ==> pos < LineEnd(text, pos) <= r.value.1 <= |text|
    ensures r.Ok? ==> r.value.0 == text[LineEnd(text, pos)..r.value.1]
    ensures r.Err? <==> ParseInt(text[pos..LineEnd(text, pos)]).None?
  {
    var e := LineEnd(text, pos);
    var line := text[pos..e];
    match ParseInt(line)
    case None => Err(NotAnInteger(Strip(line)))
    case Some(n) =>
      assert line != [];
      var end := ReadEnd(text, e, n);
      Ok((text[e..end], end))
  }

  /** A length line that reads as a size that fits gives the next `size` characters. */
  lemma ReadChunkOfSize(text: string, pos: nat, n: nat)
    requires pos <= |text| && LineEnd(text, pos) + n <= |text|
    requires ParseInt(text[pos..LineEnd(text, pos)]) == Some(n as int)
    ensures ReadChunk(text, pos) == Ok((text[LineEnd(text, pos)..LineEnd(text, pos) + n], LineEnd(text, pos) + n))
  {
  }

  /** How the server frames one chunk: its length in decimal, a newline, the chunk. */
  function EncodeChunk(data: string): string {
    IntToString(|data|) + "\n" + data
  }

  /** A length line the server writes is read back as that length. */
  lemma ParseLengthLine(n: nat)
    ensures ParseInt(IntToString(n) + "\n") == Some(n as int)
  {
    var d := NatToString(n);
    assert IntToString(n) == d;
    AllDigitsNoSpace(d);
    StripNewline(d);
    ParseIntOfStrip(d + "\n");
    StripNoSpace(d);
    ParseIntOfStrip(d);
    ParseIntToString(n);
  }

  /** A piece of the text that equals `s` equals it on every slice too. */
  lemma SliceOfPiece(text: string, pos: nat, s: string, i: nat, j: nat)
    requires pos + |s| <= |text| && text[pos..pos + |s|] == s
    requires i <= j <= |s|
    ensures text[pos + i..pos + j] == s[i..j]
  {
    forall k | 0 <= k < j - i
      ensures text[pos + i..pos + j][k] == s[i..j][k]
    {
      assert text[pos + i + k] == text[pos..pos + |s|][i + k];
    }
  }

  /** The length line of a framed chunk ends at the first newline after its start. */
  lemma LengthLineEnd(text: string, pos: nat, data: string)
    requires pos + |EncodeChunk(data)| <= |text|
    requires text[pos..pos + |EncodeChunk(data)|] == EncodeChunk(data)
    ensures LineEnd(text, pos) == pos + |IntToString(|data|)| + 1
  {
    var d := IntToString(|data|);
    var enc := EncodeChunk(data);
    var q := pos + |d|;
    assert d == NatToString(|data|);
    forall k | pos <= k <= q
      ensures text[k] == enc[k - pos]
    {
      assert text[k] == text[pos..pos + |enc|][k - pos];
    }
    forall k | pos <= k < q
      ensures text[k] != '\n'
    {
      assert enc[k - pos] == d[k - pos];
    }
    assert enc[|d|] == '\n';
    LineEndAt(text, pos, q);
  }

  /** A framed chunk is its length line followed by its data. */
  lemma ChunkPieces(text: string, pos: nat, data: string)
    requires pos + |EncodeChunk(data)| <= |text|
    requires text[pos..pos + |EncodeChunk(data)|] == EncodeChunk(data)
    ensures LineEnd(text, pos) == pos + |IntToString(|data|)| + 1
    ensures text[pos..LineEnd(text, pos)] == IntToString(|data|) + "\n"
    ensures LineEnd(text, pos) + |data| == pos + |EncodeChunk(data)|
    ensures text[LineEnd(text, pos)..pos + |EncodeChunk(data)|] == data
  {
    var d := IntToString(|data|);
    var enc := EncodeChunk(data);
    LengthLineEnd(text, pos, data);
    SliceOfPiece(text, pos, enc, 0, |d| + 1);
    assert enc[..|d| + 1] == d + "\n";
    SliceOfPiece(text, pos, enc, |d| + 1, |enc|);
    assert enc[|d| + 1..] == data;
  }

  /** Reading a chunk where the server framed one gives back exactly that chunk and moves past it. */
  lemma ReadEncodedChunk(text: string, pos: nat, data: string)
    requires pos + |EncodeChunk(data)| <= |text|
    requires text[pos..pos + |EncodeChunk(data)|] == EncodeChunk(data)
    ensures ReadChunk(text, pos) == Ok((data, pos + |EncodeChunk(data)|))
  {
    ChunkPieces(text, pos, data);
    ParseLengthLine(|data|);
    ReadChunkOfSize(text, pos, |data|);
  }

  /** One frame of the stream as the server sends it: the state chunk, then the diff chunk. */
  function EncodeFrame(stateData: string, diff: string): string {
    EncodeChunk(stateData) + EncodeChunk(diff)
  }

  /** Reading two chunks after a framed pair returns the state and the diff, in that order. */
  lemma ReadEncodedFrame(text: string, pos: nat, stateData: string, diff: string)
    requires pos + |EncodeFrame(stateData, diff)| <= |text|
    requires text[pos..pos + |EncodeFrame(stateData, diff)|] == EncodeFrame(stateData, diff)
    ensures ReadChunk(text, pos) == Ok((stateData, pos + |EncodeChunk(stateData)|))
    ensures ReadChunk(text, pos + |EncodeChunk(stateData)|) ==
      Ok((diff, pos + |EncodeFrame(stateData, diff)|))
  {
    FramePieces(text, pos, stateData, diff);
    ReadEncodedChunk(text, pos, stateData);
    ReadEncodedChunk(text, pos + |EncodeChunk(stateData)|, diff);
  }

  /** A framed pair is the framed state chunk followed by the framed diff chunk. */
  lemma FramePieces(text: string, pos: nat, stateData: string, diff: string)
    requires pos + |EncodeFrame(stateData, diff)| <= |text|
    requires text[pos..pos + |EncodeFrame(stateData, diff)|] == EncodeFrame(stateData, diff)
    ensures pos + |EncodeChunk(stateData)| + |EncodeChunk(diff)| == pos + |EncodeFrame(stateData, diff)|
    ensures text[pos..pos + |EncodeChunk(stateData)|] == EncodeChunk(stateData)
    ensures text[pos + |EncodeChunk(stateData)|..pos + |EncodeChunk(stateData)| + |EncodeChunk(diff)|] == EncodeChunk(diff)
  {
    var a := EncodeChunk(stateData);
    var f := EncodeFrame(stateData, diff);
    SliceOfPiece(text, pos, f, 0, |a|);
    assert f[..|a|] == a;
    SliceOfPiece(text, pos, f, |a|, |f|);
    assert f[|a|..] == EncodeChunk(diff);
  }
}
