/** What a server writes as frames is what the client reads, however the text is cut and whichever line ends it uses. */
module SseRoundTrip {
  import opened Cs2Types
  import opened SseClient

  predicate Clean(s: string) { LF !in s && CR !in s }

  predicate CleanFields(f: Fields) {
    && (f.id.Some? ==> Clean(f.id.value)) && Clean(f.event)
    && (forall i | 0 <= i < |f.dataLines| :: Clean(f.dataLines[i]))
  }

  function Eol(crlf: bool): string { if crlf then "\r\n" else "\n" }

  function Line(field: string, value: string): string { field + ": " + value }

  function DataLines(values: seq<string>): seq<string> {
    if values == [] then [] else DataLines(values[..|values| - 1]) + [Line("data", values[|values| - 1])]
  }

  function LinesOf(f: Fields): (lines: seq<string>)
    ensures lines != []
  {
    (if f.id.Some? then [Line("id", f.id.value)] else []) + [Line("event", f.event)] + DataLines(f.dataLines)
  }

  function Body(f: Fields, crlf: bool): string { Join(LinesOf(f), Eol(crlf)) }

  function Render(f: Fields, crlf: bool): string { Body(f, crlf) + Eol(crlf) + Eol(crlf) }

  function RenderAll(frames: seq<(Fields, bool)>): string {
    if frames == [] then "" else Render(frames[0].0, frames[0].1) + RenderAll(frames[1..])
  }

  function Expected(frames: seq<(Fields, bool)>): seq<string> {
    if frames == [] then [] else [Body(frames[0].0, frames[0].1)] + Expected(frames[1..])
  }

  // ----- lines

  ghost predicate CleanLines(lines: seq<string>) {
    forall i | 0 <= i < |lines| :: lines[i] != "" && Clean(lines[i])
  }

  lemma {:induction false} DataLinesAreClean(values: seq<string>)
    requires forall i | 0 <= i < |values| :: Clean(values[i])
    ensures CleanLines(DataLines(values))
  {
    if values != [] { DataLinesAreClean(values[..|values| - 1]); }
  }

  lemma LinesAreClean(f: Fields)
    requires CleanFields(f)
    ensures CleanLines(LinesOf(f))
  {
    DataLinesAreClean(f.dataLines);
    var first := if f.id.Some? then [Line("id", f.id.value)] else [];
    assert CleanLines(first) && CleanLines([Line("event", f.event)]);
  }

  /** Every line end stands inside a single one: the next line follows at once. */
  ghost predicate Tight(s: string) {
    && s != "" && s[|s| - 1] != LF && s[|s| - 1] != CR
    && (forall i | 0 <= i < |s| - 1 && s[i] == LF :: s[i + 1] != LF && s[i + 1] != CR)
    && (forall i | 0 <= i < |s| - 1 && s[i] == CR :: s[i + 1] == LF)
    && s[0] != LF && s[0] != CR
  }

  lemma TightTogether(line: string, crlf: bool, rest: string)
    requires line != "" && Clean(line) && Tight(rest)
    ensures Tight(line + Eol(crlf) + rest)
  {
    var s := line + Eol(crlf) + rest;
    var n := |line + Eol(crlf)|;
    assert forall i | 0 <= i < |line| :: s[i] == line[i];
    assert forall i | n <= i < |s| :: s[i] == rest[i - n];
    assert s[n - 1] == LF;
    if crlf { assert s[|line|] == CR; }
  }

  lemma {:induction false} JoinIsTight(lines: seq<string>, crlf: bool)
    requires lines != [] && CleanLines(lines)
    ensures Tight(Join(lines, Eol(crlf)))
  {
    if |lines| > 1 {
      JoinIsTight(lines[1..], crlf);
      TightTogether(lines[0], crlf, Join(lines[1..], Eol(crlf)));
    }
  }

  /** The first blank line after a tight text is the one put there. */
  lemma BlankAfterTight(body: string, crlf: bool, more: string)
    requires Tight(body)
    ensures var s := body + Eol(crlf) + Eol(crlf) + more;
            FindFrameBoundary(s) == Some(Boundary(|body|, |body| + 2 * |Eol(crlf)|))
  {
    var s := body + Eol(crlf) + Eol(crlf) + more;
    var n := |body|;
    assert forall i | 0 <= i < n :: s[i] == body[i];
    if crlf {
      assert s[n] == CR && s[n + 1] == LF && s[n + 2] == CR && s[n + 3] == LF;
    } else {
      assert s[n] == LF && s[n + 1] == LF;
    }
    FirstBlankIsFound(s, Boundary(n, n + 2 * |Eol(crlf)|));
  }

  lemma {:induction false} SplitsIntoFrames(frames: seq<(Fields, bool)>)
    requires forall i | 0 <= i < |frames| :: CleanFields(frames[i].0)
    ensures Frames(RenderAll(frames)) == Expected(frames) && Leftover(RenderAll(frames)) == ""
  {
    if frames == [] {
      FindsTheFirstBlank("");
    } else {
      var (f, crlf) := frames[0];
      LinesAreClean(f);
      JoinIsTight(LinesOf(f), crlf);
      var more := RenderAll(frames[1..]);
      BlankAfterTight(Body(f, crlf), crlf, more);
      CutBody(Body(f, crlf), Eol(crlf), more);
      SplitsIntoFrames(frames[1..]);
    }
  }

  lemma CutBody(body: string, eol: string, more: string)
    ensures (body + eol + eol + more)[..|body|] == body
    ensures (body + eol + eol + more)[|body| + 2 * |eol|..] == more
  {
  }

  // ----- one frame

  lemma FirstLf(line: string, crlf: bool, rest: string)
    requires Clean(line)
    ensures IndexOf(line + Eol(crlf) + rest, "\n", 0) == Some(|line + Eol(crlf)| - 1)
  {
    var s := line + Eol(crlf) + rest;
    var n := |line + Eol(crlf)| - 1;
    forall i ensures At(s, "\n", i) == (0 <= i < |s| && s[i] == LF) {
      if 0 <= i < |s| { assert s[i..i + 1] == [s[i]]; }
    }
    assert s[n] == LF;
    assert forall i | 0 <= i < |line| :: s[i] == line[i];
  }

  lemma NoLf(line: string)
    requires Clean(line)
    ensures IndexOf(line, "\n", 0) == None
  {
    forall i ensures !At(line, "\n", i) {
      if 0 <= i < |line| { assert line[i..i + 1] == [line[i]]; }
    }
  }

  lemma {:induction false} SplitUndoesJoin(lines: seq<string>, crlf: bool)
    requires lines != [] && forall i | 0 <= i < |lines| :: Clean(lines[i])
    ensures SplitLines(Join(lines, Eol(crlf))) == lines
  {
    if |lines| == 1 {
      NoLf(lines[0]);
    } else {
      var rest := Join(lines[1..], Eol(crlf));
      FirstLf(lines[0], crlf, rest);
      CutLine(lines[0], crlf, rest);
      SplitUndoesJoin(lines[1..], crlf);
    }
  }

  lemma CutLine(line: string, crlf: bool, rest: string)
    requires Clean(line)
    ensures var s, n := line + Eol(crlf) + rest, |line + Eol(crlf)| - 1;
            ChopCr(s[..n]) == line && s[n + 1..] == rest
  {
    var s, n := line + Eol(crlf) + rest, |line + Eol(crlf)| - 1;
    assert s[n + 1..] == rest;
    if crlf { assert s[..n] == line + [CR]; } else { assert s[..n] == line; }
  }

  /** A line of a named field is read back as that field. */
  lemma FieldLine(field: string, value: string)
    requires field != "" && ':' !in field
    ensures var line := Line(field, value);
            !IsSkipped(line) && FieldOf(line) == field && ValueOf(line) == value
  {
    var line := Line(field, value);
    forall i ensures At(line, ":", i) == (0 <= i < |line| && line[i] == ':') {
      if 0 <= i < |line| { assert line[i..i + 1] == [line[i]]; }
    }
    assert forall i | 0 <= i < |field| :: line[i] == field[i];
    assert line[|field|] == ':' && line[|field| + 1] == ' ';
    assert line[..|field|] == field;
    assert line[|field| + 1..][1..] == value;
  }

  lemma ReadOneMore(lines: seq<string>, line: string)
    ensures ReadLines(lines + [line]) == ReadLine(ReadLines(lines), line)
  {
    assert (lines + [line])[..|lines|] == lines;
  }

  lemma {:induction false} ReadData(lines: seq<string>, values: seq<string>)
    ensures ReadLines(lines + DataLines(values))
         == ReadLines(lines).(dataLines := ReadLines(lines).dataLines + values)
  {
    if values == [] {
      assert lines + [] == lines;
    } else {
      var shorter, last := values[..|values| - 1], values[|values| - 1];
      ReadData(lines, shorter);
      FirstThenRest(lines, DataLines(shorter), [Line("data", last)]);
      ReadOneMore(lines + DataLines(shorter), Line("data", last));
      FirstThenRest(ReadLines(lines).dataLines, shorter, [last]);
      LastValue(values);
      ReadDataLine(ReadLines(lines + DataLines(shorter)), last);
    }
  }

  lemma LastValue(values: seq<string>)
    requires values != []
    ensures values == values[..|values| - 1] + [values[|values| - 1]]
  {
  }

  lemma ReadDataLine(f: Fields, value: string)
    ensures ReadLine(f, Line("data", value)) == f.(dataLines := f.dataLines + [value])
  {
    FieldLine("data", value);
  }

  lemma ReadsWhatWasWritten(f: Fields)
    ensures ReadLines(LinesOf(f)) == f
  {
    var first := if f.id.Some? then [Line("id", f.id.value)] else [];
    if f.id.Some? {
      FieldLine("id", f.id.value);
      assert [] + [Line("id", f.id.value)] == first;
      ReadOneMore([], Line("id", f.id.value));
    }
    FieldLine("event", f.event);
    ReadOneMore(first, Line("event", f.event));
    ReadData(first + [Line("event", f.event)], f.dataLines);
    assert [] + f.dataLines == f.dataLines;
  }

  lemma FrameRoundTrip(f: Fields, crlf: bool)
    requires CleanFields(f)
    ensures ParsedFrame(Body(f, crlf)) == ToFrame(f)
  {
    LinesAreClean(f);
    SplitUndoesJoin(LinesOf(f), crlf);
    ReadsWhatWasWritten(f);
  }

  // ----- the whole stream

  function Sent(frames: seq<(Fields, bool)>): seq<RawFrame> {
    if frames == [] then []
    else
      var frame := ToFrame(frames[|frames| - 1].0);
      Sent(frames[..|frames| - 1]) + if frame.Some? then [frame.value] else []
  }

  lemma {:induction false} ExpectedSnoc(frames: seq<(Fields, bool)>)
    requires frames != []
    ensures var n := |frames| - 1;
            Expected(frames) == Expected(frames[..n]) + [Body(frames[n].0, frames[n].1)]
  {
    var n := |frames| - 1;
    if n > 0 {
      ExpectedSnoc(frames[1..]);
      assert frames[1..][..n - 1] == frames[..n][1..];
      FirstThenRest([Body(frames[0].0, frames[0].1)], Expected(frames[..n][1..]), [Body(frames[n].0, frames[n].1)]);
    }
  }

  lemma {:induction false} MessagesAreSent(frames: seq<(Fields, bool)>)
    requires forall i | 0 <= i < |frames| :: CleanFields(frames[i].0)
    ensures Messages(Expected(frames)) == Sent(frames)
  {
    if frames != [] {
      var n := |frames| - 1;
      MessagesAreSent(frames[..n]);
      ExpectedSnoc(frames);
      MessagesSnoc(Expected(frames[..n]), Body(frames[n].0, frames[n].1));
      FrameRoundTrip(frames[n].0, frames[n].1);
    }
  }

  /** Any chunking of any rendered frames, line ends mixed at will, delivers those frames and leaves nothing over. */
  lemma {:induction false} StreamRoundTrip(frames: seq<(Fields, bool)>, chunks: seq<string>)
    requires forall i | 0 <= i < |frames| :: CleanFields(frames[i].0)
    requires Concat(chunks) == RenderAll(frames)
    ensures Messages(Frames(Concat(chunks))) == Sent(frames) && Leftover(Concat(chunks)) == ""
  {
    SplitsIntoFrames(frames);
    MessagesAreSent(frames);
  }
}
