/**
 * The event-stream client (packages/loop-status-client/src/sse.ts): the frame parser and the
 * incremental reader. The text of the chunks is taken as already decoded.
 */
module Sse {
  import opened Prelude
  import opened SseText

  datatype Frame = Frame(event: string, data: string)

  // ---------------------------------------------------------------- one frame

  /** The text split at every LF. */
  function Lines(s: string): (ls: seq<string>)
    ensures ls != []
  {
    if s == "" then [""]
    else
      var ls := Lines(s[1..]);
      if s[0] == '\n' then [""] + ls else [[s[0]] + ls[0]] + ls[1..]
  }

  function JoinLines(ls: seq<string>): string {
    if ls == [] then ""
    else if |ls| == 1 then ls[0]
    else ls[0] + "\n" + JoinLines(ls[1..])
  }

  /** Position of the first colon, or the length when there is none. */
  function Colon(line: string): (i: nat)
    ensures i <= |line|
    ensures i < |line| ==> line[i] == ':'
    ensures forall k | 0 <= k < i :: line[k] != ':'
  {
    if line == "" || line[0] == ':' then 0 else 1 + Colon(line[1..])
  }

  function FieldName(line: string): string {
    line[..Colon(line)]
  }

  /** What stands after the colon, without one leading space. */
  function FieldValue(line: string): string {
    var i := Colon(line);
    var value := if i == |line| then "" else line[i + 1..];
    if value != "" && value[0] == ' ' then value[1..] else value
  }

  predicate Skipped(line: string) {
    line == "" || line[0] == ':'
  }

  /** The values of the data lines, in order. */
  function DataValues(lines: seq<string>): seq<string> {
    if lines == [] then []
    else
      var line := Last(lines);
      DataValues(Front(lines)) + if !Skipped(line) && FieldName(line) == "data" then [FieldValue(line)] else []
  }

  /** The value of the last event line, "message" when there is none. */
  function EventName(lines: seq<string>): string {
    if lines == [] then "message"
    else
      var line := Last(lines);
      if !Skipped(line) && FieldName(line) == "event" then FieldValue(line) else EventName(Front(lines))
  }

  /** A frame without a data line is none. */
  function ParseFrame(raw: string): Option<Frame> {
    var values := DataValues(Lines(raw));
    if values == [] then None else Some(Frame(EventName(Lines(raw)), JoinLines(values)))
  }

  /** The text without one leading space. */
  function Unspaced(v: string): string {
    if " " <= v then v[1..] else v
  }

  lemma FieldMeans(line: string, name: string)
    requires name != "" && forall c | c in name :: c != ':'
    ensures !Skipped(line) && FieldName(line) == name <==> line == name || name + ":" <= line
    ensures line == name ==> FieldValue(line) == ""
    ensures name + ":" <= line ==> FieldValue(line) == Unspaced(line[|name| + 1..])
  {
    var i := Colon(line);
    assert i < |line| ==> line == line[..i] + ":" + line[i + 1..];
    assert i == |line| ==> line[..i] == line;
    if line == name {
      assert forall k | 0 <= k < |line| :: line[k] in name;
      assert i == |line| && line[..i] == line;
    } else if name + ":" <= line {
      assert line[|name|] == (name + ":")[|name|] == ':';
      forall k | 0 <= k < |name|
        ensures line[k] == name[k] && line[k] != ':'
      {
        assert (name + ":")[k] == name[k] && name[k] in name;
      }
      assert i == |name| && line[..i] == name;
    }
  }

  /**
   * What one more line brings: `data` and `data:` add a value and `event` and `event:` set the
   * name, with one space behind the colon left out; any other line brings nothing. The name is
   * "message" to begin with.
   */
  lemma LineMeans(lines: seq<string>, line: string)
    ensures DataValues([]) == [] && EventName([]) == "message"
    ensures DataValues(lines + [line]) ==
      DataValues(lines) + if line == "data" then [""] else if "data:" <= line then [Unspaced(line[5..])] else []
    ensures EventName(lines + [line]) ==
      if line == "event" then "" else if "event:" <= line then Unspaced(line[6..]) else EventName(lines)
  {
    FrontLastSnoc(lines, line);
    assert "data" + ":" == "data:" && "event" + ":" == "event:";
    FieldMeans(line, "data");
    FieldMeans(line, "event");
  }

  predicate BringsData(line: string) {
    line == "data" || "data:" <= line
  }

  /** A text is no frame exactly when none of its lines brings data. */
  lemma {:induction false} NoDataLines(lines: seq<string>)
    ensures DataValues(lines) == [] <==> forall i | 0 <= i < |lines| :: !BringsData(lines[i])
  {
    if lines != [] {
      NoDataLines(Front(lines));
      FrontLast(lines);
      LineMeans(Front(lines), Last(lines));
      assert DataValues(lines) == [] <==> DataValues(Front(lines)) == [] && !BringsData(Last(lines));
    }
  }

  method ParseSseFrame(raw: string) returns (frame: Option<Frame>)
    ensures frame == ParseFrame(raw)
  {
    var event := "message";
    var dataLines: seq<string> := [];
    var lines := Lines(raw);
    for i := 0 to |lines|
      invariant event == EventName(lines[..i])
      invariant dataLines == DataValues(lines[..i])
    {
      var line := lines[i];
      assert Front(lines[..i + 1]) == lines[..i] && Last(lines[..i + 1]) == line;
      if line == "" || line[0] == ':' {
        continue;
      }
      var colon := Colon(line);
      var field := if colon == |line| then line else line[..colon];
      var value := if colon == |line| then "" else line[colon + 1..];
      if value != "" && value[0] == ' ' {
        value := value[1..];
      }
      assert field == FieldName(line) && value == FieldValue(line);
      if field == "event" {
        event := value;
      } else if field == "data" {
        dataLines := dataLines + [value];
      }
    }
    assert lines[..|lines|] == lines;
    if dataLines == [] {
      return None;
    }
    return Some(Frame(event, JoinLines(dataLines)));
  }

  // ---------------------------------------------------------------- the reader

  /** The frame of a piece, if it is one. */
  function FrameOf(piece: string): seq<Frame> {
    match ParseFrame(piece)
    case Some(f) => [f]
    case None => []
  }

  /** The frames of a list of pieces. */
  function Frames(pieces: seq<string>): seq<Frame> {
    if pieces == [] then []
    else
      Frames(Front(pieces)) + FrameOf(Last(pieces))
  }

  /** The pieces that a reader with this buffer cuts from the chunks to come. */
  function Stream(buffer: string, chunks: seq<string>): (ps: seq<string>)
    ensures ps != []
    decreases chunks
  {
    if chunks == [] then [buffer]
    else
      var ps := Pieces(Normalize(buffer + chunks[0]));
      Front(ps) + Stream(Last(ps), chunks[1..])
  }

  lemma FramesAppend(a: seq<string>, b: seq<string>)
    ensures Frames(a + b) == Frames(a) + Frames(b)
  {
    if b == [] {
      assert a + b == a;
    } else {
      assert Front(a + b) == a + Front(b) && Last(a + b) == Last(b);
      FramesAppend(a, Front(b));
    }
  }

  lemma FramesOne(p: string)
    ensures Frames([p]) == FrameOf(p)
  {
    assert Front([p]) == [];
  }

  /** The frames of the closed pieces of a buffer. */
  function Owed(s: string): seq<Frame> {
    Frames(Front(Pieces(s)))
  }

  lemma DrainStep(frames: seq<Frame>, s: string, raw: string, rest: string)
    requires Pieces(s) == [raw] + Pieces(rest)
    ensures frames + Owed(s) == (frames + FrameOf(raw)) + Owed(rest)
    ensures Last(Pieces(s)) == Last(Pieces(rest))
  {
    var ps := Pieces(rest);
    FrontLastCons(raw, ps);
    FramesAppend([raw], Front(ps));
    FramesOne(raw);
    Assoc(frames, FrameOf(raw), Frames(Front(ps)));
  }

  lemma DrainDone(s: string)
    requires Separator(s) == |s|
    ensures Owed(s) == [] && Last(Pieces(s)) == s
  {
    assert Front(Pieces(s)) == [];
  }

  method TakePiece(buffer: string) returns (raw: string, rest: string)
    requires Separator(buffer) < |buffer|
    ensures Pieces(buffer) == [raw] + Pieces(rest)
    ensures |rest| < |buffer|
  {
    var sep := Separator(buffer);
    raw, rest := buffer[..sep], buffer[sep + 2..];
  }

  /** The inner loop: takes every closed piece off the buffer. */
  method Drain(buffer: string) returns (frames: seq<Frame>, rest: string)
    ensures frames == Owed(buffer)
    ensures rest == Last(Pieces(buffer))
  {
    frames, rest := [], buffer;
    ghost var owed, last := Owed(buffer), Last(Pieces(buffer));
    while Separator(rest) != |rest|
      invariant owed == frames + Owed(rest)
      invariant last == Last(Pieces(rest))
      decreases |rest|
    {
      ghost var whole, before := rest, frames;
      var raw;
      raw, rest := TakePiece(rest);
      DrainStep(frames, whole, raw, rest);
      var frame := ParseSseFrame(raw);
      if frame.Some? {
        frames := frames + [frame.value];
      }
      assert frames == before + FrameOf(raw);
    }
    DrainDone(rest);
  }

  lemma StreamStep(frames: seq<Frame>, buffer: string, chunks: seq<string>, i: nat)
    requires i < |chunks|
    ensures var filled := Normalize(buffer + chunks[i]);
      frames + Frames(Stream(buffer, chunks[i..]))
        == (frames + Owed(filled)) + Frames(Stream(Last(Pieces(filled)), chunks[i + 1..]))
  {
    var ps := Pieces(Normalize(buffer + chunks[i]));
    var rest := chunks[i + 1..];
    assert chunks[i..][0] == chunks[i] && chunks[i..][1..] == rest;
    FramesAppend(Front(ps), Stream(Last(ps), rest));
    Assoc(frames, Frames(Front(ps)), Frames(Stream(Last(ps), rest)));
  }

  lemma StreamDone(frames: seq<Frame>, buffer: string, chunks: seq<string>, i: nat)
    requires i == |chunks|
    ensures frames + Frames(Stream(buffer, chunks[i..])) == frames + FrameOf(buffer)
  {
    FramesOne(buffer);
  }

  /** The reader yields the frames of the pieces that its buffering cuts from the chunks. */
  method IterateSseFrames(chunks: seq<string>) returns (frames: seq<Frame>)
    ensures frames == Frames(Stream("", chunks))
  {
    frames := [];
    var buffer := "";
    ghost var goal := Frames(Stream("", chunks));
    assert chunks[0..] == chunks;
    for i := 0 to |chunks|
      invariant goal == frames + Frames(Stream(buffer, chunks[i..]))
    {
      StreamStep(frames, buffer, chunks, i);
      buffer := buffer + chunks[i];
      buffer := Normalize(buffer);
      var closed, rest := Drain(buffer);
      frames, buffer := frames + closed, rest;
    }
    StreamDone(frames, buffer, chunks, |chunks|);
    if !Blank(buffer) {
      var frame := ParseSseFrame(buffer);
      if frame.Some? {
        frames := frames + [frame.value];
      }
    } else {
      BlankHasNoFrame(buffer);
    }
  }

  lemma {:induction false} BlankLines(s: string)
    requires Blank(s)
    ensures forall i | 0 <= i < |Lines(s)| :: Blank(Lines(s)[i])
  {
    if s != "" {
      BlankLines(s[1..]);
      var ls := Lines(s[1..]);
      assert Blank([s[0]] + ls[0]);
    }
  }

  lemma {:induction false} BlankHasNoData(lines: seq<string>)
    requires forall i | 0 <= i < |lines| :: Blank(lines[i])
    ensures DataValues(lines) == []
  {
    if lines != [] {
      var line := Last(lines);
      BlankHasNoData(Front(lines));
      var field := FieldName(line);
      assert field != "" ==> field[0] == line[0] && IsSpace(field[0]);
    }
  }

  /** The test on the trimmed rest of the buffer never loses a frame. */
  lemma BlankHasNoFrame(s: string)
    requires Blank(s)
    ensures ParseFrame(s) == None
  {
    BlankLines(s);
    BlankHasNoData(Lines(s));
  }
}
