/**
 * What the event-stream reader promises: the frames depend on the text alone and not on
 * where it is cut into chunks, and frames written in wire form (sections 9.2.5 and 9.2.6 of
 * the WHATWG HTML Standard) come back as they were.
 */
module SseStream {
  import opened Prelude
  import opened SseText
  import opened Sse

  // ---------------------------------------------------------------- independence of the chunks

  lemma CleanPrefix(a: string, b: string)
    requires NoCrLf(a + b)
    ensures NoCrLf(a)
  {
    forall i | 0 <= i && i + 1 < |a|
      ensures !(a[i] == '\r' && a[i + 1] == '\n')
    {
      assert (a + b)[i] == a[i] && (a + b)[i + 1] == a[i + 1];
    }
  }

  lemma NoCrCrLfPrefix(a: string, b: string)
    requires NoCrCrLf(a + b)
    ensures NoCrCrLf(a)
  {
    forall i | 0 <= i && i + 2 < |a|
      ensures !(a[i] == '\r' && a[i + 1] == '\r' && a[i + 2] == '\n')
    {
      assert (a + b)[i] == a[i] && (a + b)[i + 1] == a[i + 1] && (a + b)[i + 2] == a[i + 2];
    }
  }

  /** Reading one more chunk into the last piece gives the pieces of the longer text. */
  lemma OneChunk(text: string, chunk: string)
    requires NoCrCrLf(text + chunk)
    ensures var ps := Pieces(Normalize(text));
      Pieces(Normalize(text + chunk)) == Front(ps) + Pieces(Normalize(Last(ps) + chunk))
  {
    var n := Normalize(text);
    var last := Last(Pieces(n));
    var closed := PiecesAfter(n);
    NoCrCrLfPrefix(text, chunk);
    NormalizeClean(text);
    CleanPrefix(closed, last);
    NormalizeFixed(closed);
    NormalizeAbsorbs(text, chunk);
    Assoc(closed, last, chunk);
    NormalizeSplits(closed, last + chunk);
  }

  lemma FrontLastAppend<T>(a: seq<T>, b: seq<T>)
    requires b != []
    ensures Front(a + b) == a + Front(b) && Last(a + b) == Last(b)
  {
  }

  /** The pieces cut from here on, after those of the text read so far, are those of the whole text. */
  lemma {:induction false} StreamFrom(text: string, chunks: seq<string>)
    requires NoCrCrLf(text + Concat(chunks))
    ensures var ps := Pieces(Normalize(text));
      Front(ps) + Stream(Last(ps), chunks) == Pieces(Normalize(text + Concat(chunks)))
    decreases chunks
  {
    var ps := Pieces(Normalize(text));
    if chunks == [] {
      assert text + Concat(chunks) == text;
      assert Front(ps) + [Last(ps)] == ps;
    } else {
      var chunk, rest := chunks[0], chunks[1..];
      Assoc(text, chunk, Concat(rest));
      NoCrCrLfPrefix(text + chunk, Concat(rest));
      OneChunk(text, chunk);
      StreamFrom(text + chunk, rest);
      var more := Pieces(Normalize(Last(ps) + chunk));
      FrontLastAppend(Front(ps), more);
      Assoc(Front(ps), Front(more), Stream(Last(more), rest));
    }
  }

  /** A text without CR CR LF is cut into the same pieces by every chunking. */
  lemma ChunksDoNotMatter(chunks: seq<string>)
    requires NoCrCrLf(Concat(chunks))
    ensures Stream("", chunks) == Pieces(Normalize(Concat(chunks)))
    ensures Frames(Stream("", chunks)) == Frames(Pieces(Normalize(Concat(chunks))))
  {
    assert "" + Concat(chunks) == Concat(chunks);
    StreamFrom("", chunks);
    assert Pieces("") == [""] && Front([""]) == [];
  }

  // ---------------------------------------------------------------- exactly these texts

  ghost predicate SameForAllChunkings(text: string) {
    forall a: seq<string>, b: seq<string> | Concat(a) == text && Concat(b) == text ::
      Stream("", a) == Stream("", b)
  }

  /** A text that ends in CR LF gets shorter. */
  lemma {:induction false} NormalizeShortens(s: string)
    requires |s| > 1 && s[|s| - 2] == '\r' && s[|s| - 1] == '\n'
    ensures |Normalize(s)| < |s|
  {
    if |s| > 2 {
      assert s[1..][|s| - 3] == s[|s| - 2] && s[1..][|s| - 2] == s[|s| - 1];
      NormalizeShortens(s[1..]);
    } else {
      assert Keep(s[0], s[1..]) == "";
    }
  }

  /** A text that ends in CR CR LF still ends in CR LF. */
  lemma {:induction false} NormalizeLeaves(s: string)
    requires |s| > 2 && s[|s| - 3] == '\r' && s[|s| - 2] == '\r' && s[|s| - 1] == '\n'
    ensures var n := Normalize(s); |n| > 1 && n[|n| - 2] == '\r' && n[|n| - 1] == '\n'
  {
    if |s| > 3 {
      var t := s[1..];
      assert t[|t| - 3] == s[|s| - 3] && t[|t| - 2] == s[|s| - 2] && t[|t| - 1] == s[|s| - 1];
      NormalizeLeaves(t);
    } else {
      assert s == ['\r'] + (['\r'] + (['\n'] + ""));
      NormalizeCons('\n', "");
      NormalizeCons('\r', ['\n'] + "");
      NormalizeCons('\r', ['\r'] + (['\n'] + ""));
      assert Normalize(s) == "\r\n";
    }
  }

  lemma UnpiecesAppend(fronts: seq<string>, ps: seq<string>, closed: string, text: string)
    requires CutsAfter(closed, fronts) && ps == Pieces(text)
    ensures Unpieces(fronts + ps) == closed + text
  {
    assert fronts + ps == Pieces(closed + text);
    UnpiecesPieces(closed + text);
  }

  lemma StreamCons(buffer: string, chunk: string, chunks: seq<string>)
    ensures var ps := Pieces(Normalize(buffer + chunk));
      Stream(buffer, [chunk] + chunks) == Front(ps) + Stream(Last(ps), chunks)
  {
    assert ([chunk] + chunks)[1..] == chunks;
  }

  lemma StreamOne(buffer: string, chunk: string)
    ensures Stream(buffer, [chunk]) == Pieces(Normalize(buffer + chunk))
  {
    StreamCons(buffer, chunk, []);
    FrontLast(Pieces(Normalize(buffer + chunk)));
    assert [chunk] + [] == [chunk];
  }

  lemma StreamTwo(a: string, b: string)
    ensures var ps := Pieces(Normalize(a));
      Stream("", [a, b]) == Front(ps) + Pieces(Normalize(Last(ps) + b))
  {
    assert "" + a == a;
    assert [a, b] == [a] + [b];
    StreamCons("", a, [b]);
    StreamOne(Last(Pieces(Normalize(a))), b);
  }

  /** A text that ends in CR LF does so in what follows its last blank line. */
  lemma EndStaysOpen(closed: string, last: string)
    requires closed == "" || EndsBlank(closed)
    requires var n := closed + last; |n| > 1 && n[|n| - 2] == '\r' && n[|n| - 1] == '\n'
    ensures |last| > 1 && last[|last| - 2] == '\r' && last[|last| - 1] == '\n'
  {
    var n := closed + last;
    assert last == "" ==> n == closed;
    assert |last| > 1 ==> n[|n| - 2] == last[|last| - 2] && n[|n| - 1] == last[|last| - 1];
  }

  /** After CR CR LF, a cut makes the reader normalise what it has normalised before. */
  lemma CutAfterCrCrLf(a: string, b: string)
    requires |a| > 2 && a[|a| - 3] == '\r' && a[|a| - 2] == '\r' && a[|a| - 1] == '\n'
    ensures Stream("", [a, b]) != Stream("", [a + b])
  {
    var n := Normalize(a);
    var last := Last(Pieces(n));
    var closed := PiecesAfter(n);
    NormalizeLeaves(a);
    EndStaysOpen(closed, last);

    StreamTwo(a, b);
    UnpiecesAppend(Front(Pieces(n)), Pieces(Normalize(last + b)), closed, Normalize(last + b));
    NormalizeSplits(last, b);
    NormalizeShortens(last);

    OneStream(a + b);
    NormalizeSplits(a, b);
  }

  lemma OneStream(text: string)
    ensures Stream("", [text]) == Pieces(Normalize(text))
    ensures Unpieces(Stream("", [text])) == Normalize(text)
  {
    assert "" + text == text;
    StreamOne("", text);
    UnpiecesPieces(Normalize(text));
  }

  lemma NoCrCrLfSuffices(text: string)
    requires NoCrCrLf(text)
    ensures SameForAllChunkings(text)
  {
    forall a: seq<string>, b: seq<string> | Concat(a) == text && Concat(b) == text
      ensures Stream("", a) == Stream("", b)
    {
      ChunksDoNotMatter(a);
      ChunksDoNotMatter(b);
    }
  }

  lemma CrCrLfMatters(text: string, i: nat)
    requires i + 2 < |text| && text[i] == '\r' && text[i + 1] == '\r' && text[i + 2] == '\n'
    ensures !SameForAllChunkings(text)
  {
    var a, b := text[..i + 3], text[i + 3..];
    assert text == a + b;
    CutAfterCrCrLf(a, b);
    ConcatTwo(a, b);
    ConcatOne(text);
  }

  /** The pieces are the same for every chunking exactly when the text has no CR CR LF. */
  lemma ChunkingExact(text: string)
    ensures SameForAllChunkings(text) <==> NoCrCrLf(text)
  {
    if NoCrCrLf(text) {
      NoCrCrLfSuffices(text);
    } else {
      var i :| 0 <= i && i + 2 < |text| && text[i] == '\r' && text[i + 1] == '\r' && text[i + 2] == '\n';
      CrCrLfMatters(text, i);
    }
  }

  lemma ConcatOne(a: string)
    ensures Concat([a]) == a
  {
    assert [a][1..] == [];
    assert a + "" == a;
  }

  lemma ConcatTwo(a: string, b: string)
    ensures Concat([a, b]) == a + b
  {
    assert [a, b][1..] == [b];
    ConcatOne(b);
  }

  lemma {:induction false} NormalizePrefix(a: string, b: string)
    requires Without(a, '\r')
    ensures Normalize(a + b) == a + Normalize(b)
  {
    if a == "" {
      assert a + b == b;
      assert "" + Normalize(b) == Normalize(b);
    } else {
      var c, tail := a[0], a[1..];
      assert a == [c] + tail;
      NormalizePrefix(tail, b);
      Assoc([c], tail, b);
      NormalizeCons(c, tail + b);
      Assoc([c], tail, Normalize(b));
    }
  }

  lemma NormalizeEnds()
    ensures Normalize("\r\r\n") == "\r\n" && Normalize("\r\n") == "\n"
  {
  }

  /** One chunk leaves CR CR LF with a CR; an empty chunk after it takes that one away too. */
  lemma NormalizedTwice(line: string)
    requires Without(line, '\n') && Without(line, '\r')
    ensures Stream("", [line + "\r\r\n"]) == [line + "\r\n"]
    ensures Stream("", [line + "\r\r\n", ""]) == [line + "\n"]
  {
    var text, once, twice := line + "\r\r\n", line + "\r\n", line + "\n";
    NormalizeEnds();
    NormalizePrefix(line, "\r\r\n");
    NormalizePrefix(line, "\r\n");
    OnePiece(once);
    OnePiece(twice);
    OneStream(text);
    StreamTwo(text, "");
    assert once + "" == once && [] + [twice] == [twice];
  }

  lemma FramesOfOne(v: string)
    requires Without(v, '\n') && v != "" && v[0] != ' '
    ensures Frames(["data:" + v + "\n"]) == [Frame("message", v)]
  {
    FramesOne("data:" + v + "\n");
    DataLine(v);
  }

  /** With CR CR LF even the frames can depend on the chunks: here on an empty last chunk. */
  lemma CrCrLfChangesFrames(v: string)
    requires Without(v, '\n') && Without(v, '\r') && v != "" && v[0] != ' '
    ensures var text := "data:" + v + "\r\r\n";
      && Concat([text]) == Concat([text, ""])
      && Frames(Stream("", [text])) == [Frame("message", v + "\r")]
      && Frames(Stream("", [text, ""])) == [Frame("message", v)]
  {
    var text := "data:" + v + "\r\r\n";
    ConcatTwo(text, "");
    ConcatOne(text);
    assert text + "" == text;
    FrameOfOneChunk(v);
    FrameOfTwoChunks(v);
  }

  lemma FrameOfOneChunk(v: string)
    requires Without(v, '\n') && Without(v, '\r') && v != "" && v[0] != ' '
    ensures Frames(Stream("", ["data:" + v + "\r\r\n"])) == [Frame("message", v + "\r")]
  {
    DataLineTwice(v);
    WithoutAppend(v, "\r", '\n');
    assert (v + "\r")[0] == v[0];
    FramesOfOne(v + "\r");
    assert "data:" + (v + "\r") + "\n" == "data:" + v + "\r\n";
  }

  lemma FrameOfTwoChunks(v: string)
    requires Without(v, '\n') && Without(v, '\r') && v != "" && v[0] != ' '
    ensures Frames(Stream("", ["data:" + v + "\r\r\n", ""])) == [Frame("message", v)]
  {
    DataLineTwice(v);
    FramesOfOne(v);
  }

  lemma DataLineTwice(v: string)
    requires Without(v, '\n') && Without(v, '\r')
    ensures Stream("", ["data:" + v + "\r\r\n"]) == ["data:" + v + "\r\n"]
    ensures Stream("", ["data:" + v + "\r\r\n", ""]) == ["data:" + v + "\n"]
  {
    WithoutAppend("data:", v, '\r');
    WithoutAppend("data:", v, '\n');
    NormalizedTwice("data:" + v);
  }

  lemma OnePiece(s: string)
    requires forall k | 0 <= k < |s| - 1 :: s[k] != '\n'
    ensures Pieces(s) == [s]
    ensures Front(Pieces(s)) == [] && Last(Pieces(s)) == s
  {
    var i := Separator(s);
    assert i == |s|;
  }

  lemma Snoc(lines: seq<string>, line: string)
    ensures DataValues(lines + [line])
         == DataValues(lines) + if !Skipped(line) && FieldName(line) == "data" then [FieldValue(line)] else []
    ensures EventName(lines + [line])
         == if !Skipped(line) && FieldName(line) == "event" then FieldValue(line) else EventName(lines)
  {
    assert Front(lines + [line]) == lines && Last(lines + [line]) == line;
  }

  lemma OneDataLine(line: string, v: string)
    requires FieldName(line) == "data" && FieldValue(line) == v && !Skipped(line)
    ensures DataValues([line, ""]) == [v] && EventName([line, ""]) == "message"
  {
    Snoc([], line);
    Snoc([line], "");
    assert [] + [line] == [line] && [line] + [""] == [line, ""];
  }

  lemma DataLine(v: string)
    requires Without(v, '\n') && v != "" && v[0] != ' '
    ensures ParseFrame("data:" + v + "\n") == Some(Frame("message", v))
  {
    var line := "data:" + v;
    WithoutAppend("data:", v, '\n');
    LinesOfLine(line, "");
    assert line + "\n" + "" == line + "\n";
    assert "data" + ":" + v == line;
    FieldOf("data", v);
    OneDataLine(line, v);
    assert Lines("") == [""] && [line] + [""] == [line, ""];
  }

  // ---------------------------------------------------------------- the wire form

  /** A line `name` colon `value`. */
  lemma FieldOf(name: string, value: string)
    requires Without(name, ':') && name != ""
    ensures FieldName(name + ":" + value) == name
    ensures FieldValue(name + ":" + value) == if value != "" && value[0] == ' ' then value[1..] else value
    ensures !Skipped(name + ":" + value)
  {
    var line := name + ":" + value;
    assert line[|name|] == ':';
    assert line[0] == name[0];
    ColonIs(line, |name|);
    assert line[..|name|] == name;
    assert line[|name| + 1..] == value;
  }

  lemma ColonIs(line: string, i: nat)
    requires i < |line| && line[i] == ':'
    requires forall k | 0 <= k < i :: line[k] != ':'
    ensures Colon(line) == i
  {
    assert !(Colon(line) > i);
  }

  lemma {:induction false} LinesOfLine(line: string, rest: string)
    requires Without(line, '\n')
    ensures Lines(line + "\n" + rest) == [line] + Lines(rest)
  {
    if line == "" {
      assert (line + "\n" + rest)[1..] == rest;
    } else {
      var s := line + "\n" + rest;
      assert s[1..] == line[1..] + "\n" + rest;
      LinesOfLine(line[1..], rest);
      assert line == [line[0]] + line[1..];
    }
  }

  lemma {:induction false} LinesOfLast(line: string)
    requires Without(line, '\n')
    ensures Lines(line) == [line]
  {
    if line != "" {
      LinesOfLast(line[1..]);
      assert line == [line[0]] + line[1..];
    }
  }

  /** Splitting joined lines gives the lines. */
  lemma {:induction false} LinesJoin(ls: seq<string>)
    requires ls != [] && forall l | l in ls :: Without(l, '\n')
    ensures Lines(JoinLines(ls)) == ls
  {
    assert ls[0] in ls;
    if |ls| == 1 {
      LinesOfLast(ls[0]);
    } else {
      LinesJoin(ls[1..]);
      LinesOfLine(ls[0], JoinLines(ls[1..]));
    }
  }

  /** Joining the lines of a text gives the text, and no line holds a LF. */
  lemma {:induction false} JoinLinesOf(s: string)
    ensures JoinLines(Lines(s)) == s
    ensures forall l | l in Lines(s) :: Without(l, '\n')
  {
    if s != "" {
      var ls := Lines(s[1..]);
      JoinLinesOf(s[1..]);
      assert ls[0] in ls;
      if s[0] == '\n' {
        assert ([""] + ls)[1..] == ls;
      } else {
        var longer := [[s[0]] + ls[0]] + ls[1..];
        assert longer[1..] == ls[1..];
        forall l | l in longer
          ensures Without(l, '\n')
        {
          assert l == [s[0]] + ls[0] || l in ls;
        }
      }
    }
  }

  function DataLines(values: seq<string>): (ls: seq<string>)
    ensures |ls| == |values|
    ensures forall i | 0 <= i < |ls| :: ls[i] == "data: " + values[i]
  {
    if values == [] then [] else DataLines(Front(values)) + ["data: " + Last(values)]
  }

  function WireLines(f: Frame): seq<string> {
    ["event: " + f.event] + DataLines(Lines(f.data))
  }

  /** A frame in wire form: its lines and a blank line. */
  function Wire(f: Frame): string {
    JoinLines(WireLines(f)) + "\n\n"
  }

  function WireAll(fs: seq<Frame>): string {
    if fs == [] then "" else Wire(fs[0]) + WireAll(fs[1..])
  }

  /** What can be sent: no line end in the event name, no carriage return in the data. */
  ghost predicate Sendable(f: Frame) {
    Without(f.event, '\n') && Without(f.event, '\r') && Without(f.data, '\r')
  }

  lemma FieldOfData(v: string)
    ensures FieldName("data: " + v) == "data" && FieldValue("data: " + v) == v && !Skipped("data: " + v)
  {
    FieldOf("data", " " + v);
    assert "data: " + v == "data" + ":" + (" " + v);
    assert (" " + v)[1..] == v;
  }

  lemma FieldOfEvent(v: string)
    ensures FieldName("event: " + v) == "event" && FieldValue("event: " + v) == v && !Skipped("event: " + v)
  {
    FieldOf("event", " " + v);
    assert "event: " + v == "event" + ":" + (" " + v);
    assert (" " + v)[1..] == v;
  }

  lemma {:induction false} ReadDataLines(event: string, values: seq<string>)
    ensures DataValues(["event: " + event] + DataLines(values)) == values
    ensures EventName(["event: " + event] + DataLines(values)) == event
    decreases |values|
  {
    var head := ["event: " + event];
    if values == [] {
      assert head + DataLines(values) == [] + head;
      Snoc([], "event: " + event);
      FieldOfEvent(event);
    } else {
      var v := Last(values);
      ReadDataLines(event, Front(values));
      Assoc(head, DataLines(Front(values)), ["data: " + v]);
      Snoc(head + DataLines(Front(values)), "data: " + v);
      FieldOfData(v);
      FrontLast(values);
    }
  }

  lemma WireLinesPlain(f: Frame)
    requires Sendable(f)
    ensures forall l | l in WireLines(f) :: l != "" && Without(l, '\n') && Without(l, '\r')
  {
    JoinLinesOf(f.data);
    JoinKeeps(Lines(f.data));
    forall l | l in WireLines(f)
      ensures l != "" && Without(l, '\n') && Without(l, '\r')
    {
      if l == "event: " + f.event {
        PlainLine("event: ", f.event);
      } else {
        var i :| 0 <= i < |Lines(f.data)| && l == DataLines(Lines(f.data))[i];
        var v := Lines(f.data)[i];
        assert v in Lines(f.data);
        PlainLine("data: ", v);
      }
    }
  }

  lemma PlainLine(name: string, value: string)
    requires name == "event: " || name == "data: "
    requires Without(value, '\n') && Without(value, '\r')
    ensures name + value != "" && Without(name + value, '\n') && Without(name + value, '\r')
  {
    assert forall i | 0 <= i < |name| :: (name + value)[i] == name[i];
    assert forall i | 0 <= i < |value| :: (name + value)[|name| + i] == value[i];
  }

  /** The lines of a text hold only characters of the text. */
  lemma {:induction false} JoinKeeps(ls: seq<string>)
    requires Without(JoinLines(ls), '\r')
    ensures forall l | l in ls :: Without(l, '\r')
  {
    if |ls| > 1 {
      var s := JoinLines(ls);
      var tail := JoinLines(ls[1..]);
      assert forall i | 0 <= i < |ls[0]| :: s[i] == ls[0][i];
      assert forall i | 0 <= i < |tail| :: s[|ls[0]| + 1 + i] == tail[i];
      JoinKeeps(ls[1..]);
    }
  }

  /** Parsing what a frame is sent as gives the frame. */
  lemma ParseWire(f: Frame)
    requires Sendable(f)
    ensures ParseFrame(JoinLines(WireLines(f))) == Some(f)
  {
    WireLinesPlain(f);
    LinesJoin(WireLines(f));
    ReadDataLines(f.event, Lines(f.data));
    JoinLinesOf(f.data);
  }

  /** Lines that are not empty, joined, hold no blank line and end in none. */
  lemma {:induction false} JoinedCloses(ls: seq<string>)
    requires ls != [] && forall l | l in ls :: l != "" && Without(l, '\n')
    ensures Closes(JoinLines(ls)) && JoinLines(ls) != "" && JoinLines(ls)[0] != '\n'
  {
    var l := ls[0];
    assert l in ls;
    if |ls| > 1 {
      assert forall x | x in ls[1..] :: x in ls;
      JoinedCloses(ls[1..]);
      ClosesAfterLine(l, JoinLines(ls[1..]));
    }
  }

  lemma ClosesAfterLine(l: string, tail: string)
    requires l != "" && Without(l, '\n')
    requires Closes(tail) && tail != "" && tail[0] != '\n'
    ensures Closes(l + "\n" + tail)
    ensures (l + "\n" + tail)[0] != '\n'
  {
    var s := l + "\n" + tail;
    forall k | 0 <= k < |s|
      ensures !EndsTwice(s, k)
    {
      if k > |l| {
        assert !EndsTwice(tail, k - |l| - 1);
        assert s[k] == tail[k - |l| - 1];
        assert k + 1 < |s| ==> s[k + 1] == tail[k - |l|];
      } else if k == |l| {
        assert s[k + 1] == tail[0];
      } else {
        assert s[k] == l[k];
      }
    }
  }

  /** The pieces of sent frames are what the frames are sent as, and nothing is left over. */
  lemma {:induction false} FramesOfWire(fs: seq<Frame>)
    requires forall f | f in fs :: Sendable(f)
    ensures Frames(Pieces(WireAll(fs))) == fs
  {
    if fs == [] {
      assert Pieces("") == [""];
      FramesOne("");
      assert Lines("") == [""] && Front([""]) == [];
    } else {
      var f, rest := fs[0], fs[1..];
      assert f in fs;
      var body := JoinLines(WireLines(f));
      WireLinesPlain(f);
      JoinedCloses(WireLines(f));
      Assoc(body, "\n\n", WireAll(rest));
      PiecesClosed(body, WireAll(rest));
      FramesAppend([body], Pieces(WireAll(rest)));
      FramesOne(body);
      ParseWire(f);
      FramesOfWire(rest);
    }
  }

  lemma WithoutAppend(a: string, b: string, c: char)
    requires Without(a, c) && Without(b, c)
    ensures Without(a + b, c)
  {
  }

  lemma {:induction false} JoinedWithout(ls: seq<string>)
    requires forall l | l in ls :: Without(l, '\r')
    ensures Without(JoinLines(ls), '\r')
  {
    if ls != [] {
      assert ls[0] in ls;
      JoinedWithout(ls[1..]);
      WithoutAppend(ls[0], "\n", '\r');
      WithoutAppend(ls[0] + "\n", JoinLines(ls[1..]), '\r');
    }
  }

  lemma {:induction false} WireWithoutCr(fs: seq<Frame>)
    requires forall f | f in fs :: Sendable(f)
    ensures Without(WireAll(fs), '\r')
  {
    if fs != [] {
      assert fs[0] in fs;
      WireLinesPlain(fs[0]);
      JoinedWithout(WireLines(fs[0]));
      WithoutAppend(JoinLines(WireLines(fs[0])), "\n\n", '\r');
      WireWithoutCr(fs[1..]);
      WithoutAppend(Wire(fs[0]), WireAll(fs[1..]), '\r');
    }
  }

  /** The text with CR LF line ends. */
  function Crlf(s: string): string {
    if s == "" then "" else (if s[0] == '\n' then "\r\n" else [s[0]]) + Crlf(s[1..])
  }

  lemma {:induction false} CrlfNormal(s: string)
    requires Without(s, '\r')
    ensures Normalize(Crlf(s)) == s
    ensures NoCrCrLf(Crlf(s))
    ensures Crlf(s) != "" ==> Crlf(s)[0] != '\n'
  {
    if s != "" {
      var tail := Crlf(s[1..]);
      CrlfNormal(s[1..]);
      assert s == [s[0]] + s[1..];
      if s[0] == '\n' {
        assert Crlf(s) == ['\r'] + (['\n'] + tail);
        NormalizeCons('\n', tail);
        NormalizeCons('\r', ['\n'] + tail);
        assert "" + Normalize(['\n'] + tail) == Normalize(['\n'] + tail);
        NoCrCrLfCons('\n', tail);
        NoCrCrLfCons('\r', ['\n'] + tail);
      } else {
        NormalizeCons(s[0], tail);
        NoCrCrLfCons(s[0], tail);
      }
    }
  }

  lemma NoCrCrLfCons(c: char, s: string)
    requires NoCrCrLf(s)
    requires !(c == '\r' && |s| > 1 && s[0] == '\r' && s[1] == '\n')
    ensures NoCrCrLf([c] + s)
  {
    var t := [c] + s;
    forall i | 0 <= i && i + 2 < |t|
      ensures !(t[i] == '\r' && t[i + 1] == '\r' && t[i + 2] == '\n')
    {
      if i > 0 {
        assert t[i] == s[i - 1] && t[i + 1] == s[i] && t[i + 2] == s[i + 1];
      }
    }
  }

  /**
   * Frames sent in wire form, with LF or with CR LF line ends and cut into chunks anywhere,
   * come back as the same frames in the same order.
   */
  lemma WireRoundTrip(fs: seq<Frame>, chunks: seq<string>)
    requires forall f | f in fs :: Sendable(f)
    requires Concat(chunks) == WireAll(fs) || Concat(chunks) == Crlf(WireAll(fs))
    ensures Frames(Stream("", chunks)) == fs
  {
    var wire := WireAll(fs);
    WireWithoutCr(fs);
    CrlfNormal(wire);
    NormalizeFixed(wire);
    ChunksDoNotMatter(chunks);
    FramesOfWire(fs);
  }
}
