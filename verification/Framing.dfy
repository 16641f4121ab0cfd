/**
  Newline-framed reading of a byte stream that arrives in arbitrary chunks
  (`daemon_event_client.py`).
 */
module Framing {
  import opened Prelude
  import opened JsonText

  /** The most bytes one receive asks for. */
  const RECEIVE_SIZE := 65536

  /** `bytearray.find(b"\n")` */
  function FindNewline(s: Bytes): (at: Option<nat>)
    ensures at.Some? ==> at.value < |s| && s[at.value] == NEWLINE && NEWLINE !in s[..at.value]
    ensures at.None? ==> NEWLINE !in s
  {
    if s == [] then None
    else if s[0] == NEWLINE then Some(0)
    else
      match FindNewline(s[1..])
      case None => None
      case Some(i) =>
        assert s[..i + 1] == [s[0]] + s[1..][..i];
        Some(i + 1)
  }

  /** The first newline of a stream is where any prefix that contains one has it. */
  lemma NewlineFound(s: Bytes, at: nat)
    requires at < |s| && s[at] == NEWLINE && NEWLINE !in s[..at]
    ensures FindNewline(s) == Some(at)
  {
    assert forall i :: 0 <= i < at ==> s[..at][i] == s[i];
    assert s[at] in s;
    var found := FindNewline(s).value;
    assert forall i :: 0 <= i < found ==> s[..found][i] == s[i];
  }

  lemma SplitAt(buffer: Bytes, rest: Bytes, at: nat)
    requires at < |buffer|
    ensures (buffer + rest)[..at] == buffer[..at] && (buffer + rest)[at] == buffer[at]
    ensures (buffer + rest)[at + 1..] == buffer[at + 1..] + rest
  {
  }

  /** A newline in a buffer is the first of the whole stream. */
  lemma NewlineInBuffer(buffer: Bytes, rest: Bytes)
    requires FindNewline(buffer).Some?
    ensures var at := FindNewline(buffer).value;
            && FindNewline(buffer + rest) == Some(at)
            && (buffer + rest)[..at] == buffer[..at] && (buffer + rest)[at + 1..] == buffer[at + 1..] + rest
  {
    SplitAt(buffer, rest, FindNewline(buffer).value);
    NewlineFound(buffer + rest, FindNewline(buffer).value);
  }

  /** What reading one line from the rest of a stream comes to. */
  datatype Read = Frame(line: Bytes, rest: Bytes) | TooLong | Incomplete | AtEnd

  /** Stated on the whole rest of the stream, however it is chunked. The newline counts towards the limit. */
  function NextFrame(stream: Bytes, max: nat): Read {
    match FindNewline(stream)
    case Some(at) => if at + 1 <= max then Frame(stream[..at], stream[at + 1..]) else TooLong
    case None => if |stream| >= max then TooLong else if stream == [] then AtEnd else Incomplete
  }

  /** Every line read from a stream until reading fails, and how it fails. */
  function ReadAll(stream: Bytes, max: nat): (r: (seq<Bytes>, Read))
    ensures !r.1.Frame?
    decreases |stream|
  {
    match NextFrame(stream, max)
    case Frame(line, rest) =>
      var (more, end) := ReadAll(rest, max);
      ([line] + more, end)
    case failure => ([], failure)
  }

  /** Lines, each with its newline. */
  function Wire(lines: seq<Bytes>): Bytes {
    if lines == [] then [] else lines[0] + [NEWLINE] + Wire(lines[1..])
  }

  ghost predicate AreLines(lines: seq<Bytes>) {
    forall i :: 0 <= i < |lines| ==> NEWLINE !in lines[i]
  }

  lemma {:induction false} WireAppend(lines: seq<Bytes>, line: Bytes)
    ensures Wire(lines + [line]) == Wire(lines) + line + [NEWLINE]
  {
    if lines == [] {
      assert lines + [line] == [line];
    } else {
      WireAppend(lines[1..], line);
      assert (lines + [line])[1..] == lines[1..] + [line];
    }
  }

  /** One line at the front of a stream is read back, or is too long. */
  lemma FrontLine(line: Bytes, rest: Bytes, max: nat)
    requires NEWLINE !in line
    ensures NextFrame(line + [NEWLINE] + rest, max) == if |line| + 1 <= max then Frame(line, rest) else TooLong
  {
    var stream := line + [NEWLINE] + rest;
    assert stream[..|line|] == line && stream[|line| + 1..] == rest;
    NewlineFound(stream, |line|);
  }

  /** How reading ends after the last newline of a stream. */
  function TailRead(tail: Bytes, max: nat): Read {
    if |tail| >= max then TooLong else if tail == [] then AtEnd else Incomplete
  }

  /** Reading a stream reads its first line, and then the rest of it. */
  lemma {:induction false} ReadsFirst(lines: seq<Bytes>, tail: Bytes, max: nat)
    requires lines != [] && AreLines(lines)
    ensures var (more, end) := ReadAll(Wire(lines[1..]) + tail, max);
            ReadAll(Wire(lines) + tail, max)
              == if |lines[0]| + 1 <= max then ([lines[0]] + more, end) else ([], TooLong)
  {
    var rest := Wire(lines[1..]) + tail;
    assert Wire(lines) + tail == lines[0] + [NEWLINE] + rest;
    FrontLine(lines[0], rest, max);
  }

  /** Whatever is read are the stream's own lines in order, up to the first that is over the limit. */
  lemma {:induction false} ReadsLines(lines: seq<Bytes>, tail: Bytes, max: nat)
    requires AreLines(lines) && NEWLINE !in tail
    ensures var (got, end) := ReadAll(Wire(lines) + tail, max);
            && got <= lines
            && (forall i :: 0 <= i < |got| ==> |lines[i]| + 1 <= max)
            && (|got| < |lines| ==> |lines[|got|]| + 1 > max && end == TooLong)
            && (|got| == |lines| ==> end == TailRead(tail, max))
  {
    if lines == [] {
      assert Wire(lines) + tail == tail;
      assert FindNewline(tail).None?;
    } else {
      ReadsFirst(lines, tail, max);
      ReadsLines(lines[1..], tail, max);
      var (more, _) := ReadAll(Wire(lines[1..]) + tail, max);
      assert forall i :: 0 < i <= |more| && i < |lines| ==> lines[i] == lines[1..][i - 1];
    }
  }

  /** Every stream is lines and a tail, so `ReadsLines` speaks of all of them. */
  lemma {:induction false} EveryStreamIsLines(stream: Bytes) returns (lines: seq<Bytes>, tail: Bytes)
    ensures AreLines(lines) && NEWLINE !in tail && stream == Wire(lines) + tail
    decreases |stream|
  {
    match FindNewline(stream)
    case None =>
      lines, tail := [], stream;
    case Some(at) =>
      var more, t := EveryStreamIsLines(stream[at + 1..]);
      lines, tail := [stream[..at]] + more, t;
      assert lines[1..] == more;
      assert stream == stream[..at] + [NEWLINE] + stream[at + 1..];
  }
}
