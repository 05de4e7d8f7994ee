/** Splitting the score stream's text into frames (live/sse-client.ts), on decoded text and before any JSON. */
module SseClient {
  import opened Cs2Types

  const LF := '\n'
  const CR := '\r'

  /** One frame's fields; `data` is None without any data line. */
  datatype RawFrame = RawFrame(id: Option<string>, event: string, data: Option<string>)

  datatype Boundary = Boundary(start: nat, end: nat)

  predicate At(s: string, pattern: string, i: int) { 0 <= i && i + |pattern| <= |s| && s[i..i + |pattern|] == pattern }

  /** The first place at or after `from` where `pattern` stands. */
  function IndexOf(s: string, pattern: string, from: nat): (i: Option<nat>)
    requires from <= |s|
    ensures i.Some? ==> from <= i.value && At(s, pattern, i.value) && forall j | from <= j < i.value :: !At(s, pattern, j)
    ensures i.None? ==> forall j | from <= j :: !At(s, pattern, j)
    decreases |s| - from
  {
    if At(s, pattern, from) then Some(from)
    else if from == |s| then None
    else IndexOf(s, pattern, from + 1)
  }

  predicate BlankLf(s: string, i: int) { 0 <= i && i + 2 <= |s| && s[i] == LF && s[i + 1] == LF }

  predicate BlankCrLf(s: string, i: int) {
    0 <= i && i + 4 <= |s| && s[i] == CR && s[i + 1] == LF && s[i + 2] == CR && s[i + 3] == LF
  }

  function FindFrameBoundary(buffer: string): (b: Option<Boundary>)
    ensures b.Some? ==> b.value.start < b.value.end <= |buffer|
  {
    var lf, crlf := IndexOf(buffer, "\n\n", 0), IndexOf(buffer, "\r\n\r\n", 0);
    if lf.None? && crlf.None? then None
    else if crlf.Some? && (lf.None? || crlf.value < lf.value) then Some(Boundary(crlf.value, crlf.value + 4))
    else Some(Boundary(lf.value, lf.value + 2))
  }

  /** The first blank line of either kind. */
  ghost predicate IsFirstBlank(s: string, b: Boundary) {
    && ((BlankLf(s, b.start) && b.end == b.start + 2) || (BlankCrLf(s, b.start) && b.end == b.start + 4))
    && forall i | i < b.start :: !BlankLf(s, i) && !BlankCrLf(s, i)
  }

  ghost predicate HasNoBlank(s: string) { forall i :: !BlankLf(s, i) && !BlankCrLf(s, i) }

  lemma AtBlank(s: string, i: int)
    ensures At(s, "\n\n", i) == BlankLf(s, i)
    ensures At(s, "\r\n\r\n", i) == BlankCrLf(s, i)
  {
    if 0 <= i && i + 2 <= |s| { assert s[i..i + 2] == [s[i], s[i + 1]]; }
    if 0 <= i && i + 4 <= |s| { assert s[i..i + 4] == [s[i], s[i + 1], s[i + 2], s[i + 3]]; }
  }

  /** What is found is the first blank line; nothing is found exactly if there is none. */
  lemma FindsTheFirstBlank(s: string)
    ensures match FindFrameBoundary(s) case Some(b) => IsFirstBlank(s, b) case None => HasNoBlank(s)
  {
    forall i ensures At(s, "\n\n", i) == BlankLf(s, i) && At(s, "\r\n\r\n", i) == BlankCrLf(s, i) { AtBlank(s, i); }
  }

  lemma FirstBlankIsFound(s: string, b: Boundary)
    requires IsFirstBlank(s, b)
    ensures FindFrameBoundary(s) == Some(b)
  {
    FindsTheFirstBlank(s);
    assert BlankLf(s, b.start) || BlankCrLf(s, b.start);
  }

  /** A found boundary never moves when more text arrives, across mixed line ends too. */
  lemma BoundaryNeverMoves(s: string, more: string)
    requires FindFrameBoundary(s).Some?
    ensures FindFrameBoundary(s + more) == FindFrameBoundary(s)
  {
    FindsTheFirstBlank(s);
    var b := FindFrameBoundary(s).value;
    forall i | i < b.start ensures !BlankLf(s + more, i) && !BlankCrLf(s + more, i) {
      assert !BlankLf(s, i) && !BlankCrLf(s, i);
    }
    FirstBlankIsFound(s + more, b);
  }

  // ----- the buffering loop

  /** The complete frames in a buffer. */
  function Frames(buffer: string): seq<string>
    decreases |buffer|
  {
    var b := FindFrameBoundary(buffer);
    if b.None? then [] else [buffer[..b.value.start]] + Frames(buffer[b.value.end..])
  }

  /** What is left in the buffer after them. */
  function Leftover(buffer: string): string
    decreases |buffer|
  {
    var b := FindFrameBoundary(buffer);
    if b.None? then buffer else Leftover(buffer[b.value.end..])
  }

  function Concat(chunks: seq<string>): string {
    if chunks == [] then "" else Concat(chunks[..|chunks| - 1]) + chunks[|chunks| - 1]
  }

  /** Splitting can stop at any point of the text and go on later. */
  lemma {:induction false} SplittingInTwo(s: string, more: string)
    ensures Frames(s + more) == Frames(s) + Frames(Leftover(s) + more)
    ensures Leftover(s + more) == Leftover(Leftover(s) + more)
    decreases |s|
  {
    var b := FindFrameBoundary(s);
    if b.Some? {
      BoundaryNeverMoves(s, more);
      CutAfter(s, more, b.value.start, b.value.end);
      SplittingInTwo(s[b.value.end..], more);
      FirstThenRest([s[..b.value.start]], Frames(s[b.value.end..]), Frames(Leftover(s) + more));
    }
  }

  lemma CutAfter(s: string, more: string, i: nat, j: nat)
    requires i <= |s| && j <= |s|
    ensures (s + more)[..i] == s[..i] && (s + more)[j..] == s[j..] + more
  {
  }

  lemma FirstThenRest(a: seq<string>, b: seq<string>, c: seq<string>)
    ensures a + (b + c) == a + b + c
  {
  }

  // ----- parsing one frame

  /** The text split at line ends of either kind. */
  function SplitLines(s: string): (lines: seq<string>)
    ensures lines != []
    decreases |s|
  {
    var i := IndexOf(s, "\n", 0);
    if i.None? then [s] else [ChopCr(s[..i.value])] + SplitLines(s[i.value + 1..])
  }

  function ChopCr(line: string): string {
    if line != "" && line[|line| - 1] == CR then line[..|line| - 1] else line
  }

  function FieldOf(line: string): string {
    var colon := IndexOf(line, ":", 0);
    if colon.None? then line else line[..colon.value]
  }

  function ValueOf(line: string): string {
    var colon := IndexOf(line, ":", 0);
    if colon.None? then ""
    else
      var value := line[colon.value + 1..];
      if value != "" && value[0] == ' ' then value[1..] else value
  }

  /** The fields read so far. */
  datatype Fields = Fields(id: Option<string>, event: string, dataLines: seq<string>)

  const NO_FIELDS := Fields(None, "message", [])

  predicate IsSkipped(line: string) { line == "" || line[0] == ':' }

  function ReadLine(f: Fields, line: string): Fields {
    if IsSkipped(line) then f
    else if FieldOf(line) == "id" then f.(id := Some(ValueOf(line)))
    else if FieldOf(line) == "event" then f.(event := ValueOf(line))
    else if FieldOf(line) == "data" then f.(dataLines := f.dataLines + [ValueOf(line)])
    else f
  }

  function ReadLines(lines: seq<string>): Fields {
    if lines == [] then NO_FIELDS else ReadLine(ReadLines(lines[..|lines| - 1]), lines[|lines| - 1])
  }

  function Join(lines: seq<string>, eol: string): string
    requires lines != []
  {
    if |lines| == 1 then lines[0] else lines[0] + eol + Join(lines[1..], eol)
  }

  function ToFrame(f: Fields): Option<RawFrame> {
    if f.id.None? && f.dataLines == [] && f.event == "message" then None
    else Some(RawFrame(f.id, f.event, if f.dataLines != [] then Some(Join(f.dataLines, "\n")) else None))
  }

  function ParsedFrame(rawFrame: string): Option<RawFrame> { ToFrame(ReadLines(SplitLines(rawFrame))) }

  method ParseFrame(rawFrame: string) returns (frame: Option<RawFrame>)
    ensures frame == ParsedFrame(rawFrame)
  {
    var lines := SplitLines(rawFrame);
    var id: Option<string>, event, dataLines := None, "message", [];
    for i := 0 to |lines|
      invariant Fields(id, event, dataLines) == ReadLines(lines[..i])
    {
      var line := lines[i];
      assert lines[..i + 1][..i] == lines[..i];
      if line == "" || line[0] == ':' { continue; }
      var field, value := FieldOf(line), ValueOf(line);
      if field == "id" { id := Some(value); }
      else if field == "event" { event := value; }
      else if field == "data" { dataLines := dataLines + [value]; }
    }
    assert lines[..|lines|] == lines;
    if id.None? && dataLines == [] && event == "message" { return None; }
    frame := Some(RawFrame(id, event, if dataLines != [] then Some(Join(dataLines, "\n")) else None));
  }

  /** The frames that are not empty, parsed. */
  function Messages(frames: seq<string>): seq<RawFrame> {
    if frames == [] then []
    else
      var parsed := ParsedFrame(frames[|frames| - 1]);
      Messages(frames[..|frames| - 1]) + if parsed.Some? then [parsed.value] else []
  }

  lemma MessagesSnoc(frames: seq<string>, frame: string)
    ensures Messages(frames + [frame])
         == Messages(frames) + if ParsedFrame(frame).Some? then [ParsedFrame(frame).value] else []
  {
    assert (frames + [frame])[..|frames|] == frames;
  }

  /** Reads chunk after chunk: the outcome depends on the text alone, not on how it was divided. */
  method StreamEvents(chunks: seq<string>) returns (messages: seq<RawFrame>, buffer: string)
    ensures messages == Messages(Frames(Concat(chunks)))
    ensures buffer == Leftover(Concat(chunks))
  {
    messages, buffer := [], "";
    ghost var frames := [];
    for i := 0 to |chunks|
      invariant frames == Frames(Concat(chunks[..i])) && buffer == Leftover(Concat(chunks[..i]))
      invariant messages == Messages(frames) && FindFrameBoundary(buffer).None?
    {
      ghost var text, all := Concat(chunks[..i]), Concat(chunks[..i + 1]);
      assert chunks[..i + 1][..i] == chunks[..i];
      SplittingInTwo(text, chunks[i]);
      buffer := buffer + chunks[i];
      while true
        invariant frames + Frames(buffer) == Frames(all) && Leftover(buffer) == Leftover(all)
        invariant messages == Messages(frames)
        decreases |buffer|
      {
        var boundary := FindFrameBoundary(buffer);
        if boundary.None? { break; }
        var rawFrame := buffer[..boundary.value.start];
        FirstThenRest(frames, [rawFrame], Frames(buffer[boundary.value.end..]));
        MessagesSnoc(frames, rawFrame);
        buffer := buffer[boundary.value.end..];
        frames := frames + [rawFrame];
        var frame := ParseFrame(rawFrame);
        if frame.None? { continue; }
        messages := messages + [frame.value];
      }
    }
    assert chunks[..|chunks|] == chunks;
  }
}
