/**
 * What the frames of a text ask of it if they are to be the same for every chunking: no data
 * line may end in CR CR LF.
 */
module SseFrames {
  import opened Prelude
  import opened SseText
  import opened Sse
  import opened SseStream

  ghost predicate SameFramesForAllChunkings(text: string) {
    forall a: seq<string>, b: seq<string> | Concat(a) == text && Concat(b) == text ::
      Frames(Stream("", a)) == Frames(Stream("", b))
  }

  predicate EndsLine(s: string) {
    s == "" || Last(s) == '\n'
  }

  ghost predicate IsDataLine(line: string) {
    Without(line, '\n') && !Skipped(line) && FieldName(line) == "data"
  }

  // ---------------------------------------------------------------- buffers that have settled

  lemma {:induction false} StreamAppend(buffer: string, first: seq<string>, rest: seq<string>)
    ensures var ps := Stream(buffer, first);
      Stream(buffer, first + rest) == Front(ps) + Stream(Last(ps), rest)
    decreases first
  {
    if first == [] {
      assert first + rest == rest && Front([buffer]) == [];
      assert [] + Stream(buffer, rest) == Stream(buffer, rest);
    } else {
      var chunk, tail := first[0], first[1..];
      assert first == [chunk] + tail;
      StreamAppend(Last(Pieces(Normalize(buffer + chunk))), tail, rest);
      StreamAppendOne(buffer, chunk, tail, rest, Pieces(Normalize(buffer + chunk)));
    }
  }

  lemma StreamAppendOne(buffer: string, chunk: string, tail: seq<string>, rest: seq<string>, ps: seq<string>)
    requires ps != [] && ps == Pieces(Normalize(buffer + chunk))
    requires var more := Stream(Last(ps), tail);
      Stream(Last(ps), tail + rest) == Front(more) + Stream(Last(more), rest)
    ensures var all := Stream(buffer, [chunk] + tail);
      Stream(buffer, [chunk] + tail + rest) == Front(all) + Stream(Last(all), rest)
  {
    var more := Stream(Last(ps), tail);
    StreamCons(buffer, chunk, tail);
    Assoc([chunk], tail, rest);
    StreamCons(buffer, chunk, tail + rest);
    BehindFront(Front(ps), more, Stream(Last(more), rest));
  }

  lemma BehindFront(front: seq<string>, more: seq<string>, rest: seq<string>)
    requires more != []
    ensures Front(front + more) == front + Front(more) && Last(front + more) == Last(more)
    ensures front + (Front(more) + rest) == Front(front + more) + rest
  {
    assert Front(front + more) == front + Front(more);
    Assoc(front, Front(more), rest);
  }

  lemma {:induction false} ConcatAppend(a: seq<string>, b: seq<string>)
    ensures Concat(a + b) == Concat(a) + Concat(b)
  {
    if a == [] {
      assert a + b == b;
    } else {
      assert a + b == [a[0]] + (a[1..] + b);
      assert (a + b)[1..] == a[1..] + b;
      ConcatAppend(a[1..], b);
      Assoc(a[0], Concat(a[1..]), Concat(b));
    }
  }

  /** A text with a CR LF gets shorter. */
  lemma {:induction false} NormalizeCuts(s: string, i: nat)
    requires i + 1 < |s| && s[i] == '\r' && s[i + 1] == '\n'
    ensures |Normalize(s)| < |s|
  {
    if i == 0 {
      assert Keep(s[0], s[1..]) == "";
    } else {
      assert s[1..][i - 1] == s[i] && s[1..][i] == s[i + 1];
      NormalizeCuts(s[1..], i - 1);
    }
  }

  /** The last piece is open: it holds no blank line, and ends a line if the text does. */
  lemma {:induction false} LastPiece(s: string)
    ensures var l := Last(Pieces(s));
      |l| <= |s| && Pieces(l) == [l] && (EndsLine(s) ==> EndsLine(l))
    decreases |s|
  {
    var i := Separator(s);
    if i < |s| {
      LastPiece(s[i + 2..]);
      FrontLastCons(s[..i], Pieces(s[i + 2..]));
    }
  }

  lemma {:induction false} NormalizeEndsLine(s: string)
    requires EndsLine(s)
    ensures EndsLine(Normalize(s))
  {
    if |s| > 1 {
      assert EndsLine(s[1..]);
      NormalizeEndsLine(s[1..]);
      NormalizeNotEmpty(s[1..]);
    }
  }

  lemma {:induction false} NormalizeNotEmpty(s: string)
    requires s != "" && EndsLine(s)
    ensures Normalize(s) != ""
  {
    if |s| > 1 {
      assert EndsLine(s[1..]);
      NormalizeNotEmpty(s[1..]);
    }
  }

  function Empties(n: nat): seq<string> {
    if n == 0 then [] else [""] + Empties(n - 1)
  }

  lemma {:induction false} ConcatEmpties(n: nat)
    ensures Concat(Empties(n)) == ""
  {
    if n > 0 {
      ConcatEmpties(n - 1);
      assert Empties(n)[1..] == Empties(n - 1);
    }
  }

  /** An open buffer that no further empty chunk changes. */
  predicate Settled(l: string) {
    EndsLine(l) && Pieces(l) == [l] && forall i | 0 <= i && i + 1 < |l| :: !(l[i] == '\r' && l[i + 1] == '\n')
  }

  /** One more empty chunk. */
  lemma OneMoreEmpty(q: string, n: nat)
    ensures Last(Stream(q, Empties(n + 1))) == Last(Stream(Last(Pieces(Normalize(q))), Empties(n)))
  {
    var ps := Pieces(Normalize(q));
    assert q + "" == q;
    StreamCons(q, "", Empties(n));
    BehindFront(Front(ps), Stream(Last(ps), Empties(n)), []);
  }

  lemma EmptyShortens(q: string, i: nat)
    requires EndsLine(q) && i + 1 < |q| && q[i] == '\r' && q[i + 1] == '\n'
    ensures var l := Last(Pieces(Normalize(q))); |l| < |q| && EndsLine(l) && Pieces(l) == [l]
  {
    NormalizeCuts(q, i);
    NormalizeEndsLine(q);
    LastPiece(Normalize(q));
  }

  /** Enough empty chunks settle a buffer. */
  lemma {:induction false} Settle(q: string) returns (n: nat)
    requires EndsLine(q) && Pieces(q) == [q]
    ensures Settled(Last(Stream(q, Empties(n))))
    decreases |q|
  {
    if Settled(q) {
      return 0;
    }
    var i :| 0 <= i && i + 1 < |q| && q[i] == '\r' && q[i + 1] == '\n';
    EmptyShortens(q, i);
    n := Settle(Last(Pieces(Normalize(q))));
    OneMoreEmpty(q, n);
    n := n + 1;
  }

  lemma FirstChunk(p: string)
    requires EndsLine(p)
    ensures var q := Last(Stream("", [p])); EndsLine(q) && Pieces(q) == [q]
  {
    NormalizeEndsLine(p);
    LastPiece(Normalize(p));
    StreamOne("", p);
    assert "" + p == p;
  }

  lemma ThenEmpties(p: string, n: nat)
    ensures Last(Stream("", [p] + Empties(n))) == Last(Stream(Last(Stream("", [p])), Empties(n)))
    ensures Concat([p] + Empties(n)) == p
  {
    var ps := Stream("", [p]);
    StreamAppend("", [p], Empties(n));
    BehindFront(Front(ps), Stream(Last(ps), Empties(n)), []);
    ConcatAppend([p], Empties(n));
    ConcatOne(p);
    ConcatEmpties(n);
    assert p + "" == p;
  }

  /** Chunks of a text that ends a line, after which the buffer has settled. */
  lemma SettleAfter(p: string) returns (chunks: seq<string>)
    requires EndsLine(p)
    ensures Concat(chunks) == p && Settled(Last(Stream("", chunks)))
  {
    FirstChunk(p);
    var n := Settle(Last(Stream("", [p])));
    ThenEmpties(p, n);
    return [p] + Empties(n);
  }

  // ---------------------------------------------------------------- one line more

  /** A line in front of a CR stays as it is. */
  lemma {:induction false} NormalizeLine(x: string, rest: string)
    requires Without(x, '\n')
    ensures Normalize(x + ("\r" + rest)) == x + Normalize("\r" + rest)
  {
    if x == "" {
      assert x + ("\r" + rest) == "\r" + rest;
    } else {
      var c, tail := x[0], x[1..];
      assert x == [c] + tail;
      NormalizeLine(tail, rest);
      Assoc([c], tail, "\r" + rest);
      NormalizeCons(c, tail + ("\r" + rest));
      assert (tail + ("\r" + rest))[0] == if tail == "" then '\r' else tail[0];
      Assoc([c], tail, Normalize("\r" + rest));
    }
  }

  lemma NormalizeCrLf(b: string)
    ensures Normalize("\r" + ("\n" + b)) == "\n" + Normalize(b)
    ensures Normalize("\r" + ("\r" + ("\n" + b))) == "\r" + ("\n" + Normalize(b))
  {
    NormalizeCons('\n', b);
    NormalizeCons('\r', "\n" + b);
    NormalizeCons('\r', "\r" + ("\n" + b));
  }

  lemma NormalizeSettled(l: string, rest: string)
    requires Settled(l)
    ensures Normalize(l + rest) == l + Normalize(rest)
  {
    NormalizeSplits(l, rest);
    NormalizeFixed(l);
  }

  ghost predicate NoBlankLine(s: string) {
    forall i | 0 <= i && i + 1 < |s| :: !(s[i] == '\n' && s[i + 1] == '\n')
  }

  lemma OpenHasNoBlankLine(l: string)
    requires Pieces(l) == [l]
    ensures NoBlankLine(l)
  {
    CutMakesPieces(l);
  }

  lemma CutMakesPieces(l: string)
    ensures Separator(l) < |l| ==> |Pieces(l)| > 1
  {
  }

  lemma SeparatorIs(s: string, i: nat)
    requires i == |s| || (i + 2 <= |s| && s[i] == '\n' && s[i + 1] == '\n')
    requires forall k | 0 <= k < i && k + 1 < |s| :: !(s[k] == '\n' && s[k + 1] == '\n')
    ensures Separator(s) == i
  {
  }

  lemma SeparatorBehind(h: string, w: string)
    requires h != "" && Last(h) != '\n' && NoBlankLine(h)
    ensures Separator(h + w) == |h| + Separator(w)
  {
    var i := Separator(w);
    var s := h + w;
    forall k | 0 <= k < |h| + i && k + 1 < |s|
      ensures !(s[k] == '\n' && s[k + 1] == '\n')
    {
      if k < |h| {
        assert s[k] == h[k];
        assert k + 1 < |h| ==> s[k + 1] == h[k + 1];
      } else {
        assert s[k] == w[k - |h|] && s[k + 1] == w[k + 1 - |h|];
      }
    }
    assert i < |w| ==> s[|h| + i] == w[i] && s[|h| + i + 1] == w[i + 1];
    SeparatorIs(s, |h| + i);
  }

  lemma PiecesCut(s: string, head: string, tail: string)
    requires s == head + "\n\n" + tail && Separator(s) == |head|
    ensures Pieces(s) == [head] + Pieces(tail)
  {
    assert s[..|head|] == head && s[|head| + 2..] == tail;
  }

  lemma BehindHead(h: string, head: string, rest: seq<string>)
    ensures var ps := [head] + rest; [h + head] + rest == [h + ps[0]] + ps[1..]
  {
  }

  /** Text without a blank line, in front of other text, belongs to the first piece. */
  lemma PiecesBehind(h: string, w: string)
    requires h != "" && Last(h) != '\n' && NoBlankLine(h)
    ensures Pieces(h + w) == [h + Pieces(w)[0]] + Pieces(w)[1..]
  {
    var i := Separator(w);
    SeparatorBehind(h, w);
    if i < |w| {
      var head, tail := w[..i], w[i + 2..];
      assert w == head + "\n\n" + tail;
      PiecesCut(w, head, tail);
      CutBehind(h, head, tail);
      BehindHead(h, head, Pieces(tail));
    } else {
      BehindHead(h, w, []);
      assert [w] + [] == [w] && [h + w] + [] == [h + w];
    }
  }

  lemma CutBehind(h: string, head: string, tail: string)
    requires Separator(h + (head + "\n\n" + tail)) == |h| + |head|
    ensures Pieces(h + (head + "\n\n" + tail)) == [h + head] + Pieces(tail)
  {
    assert h + (head + "\n\n" + tail) == h + head + "\n\n" + tail;
    PiecesCut(h + (head + "\n\n" + tail), h + head, tail);
  }

  lemma LineOpen(l: string, x: string)
    requires Settled(l) && x != "" && Without(x, '\n')
    ensures l + x != "" && Last(l + x) != '\n' && NoBlankLine(l + x)
    ensures l + (x + "\r") == l + x + "\r"
    ensures Last(l + x + "\r") != '\n' && NoBlankLine(l + x + "\r")
  {
    OpenHasNoBlankLine(l);
    var h := l + x;
    forall i | 0 <= i && i + 1 < |h|
      ensures !(h[i] == '\n' && h[i + 1] == '\n')
    {
      if i + 1 < |l| {
        assert h[i] == l[i] && h[i + 1] == l[i + 1];
      } else {
        assert h[i + 1] == x[i + 1 - |l|];
      }
    }
    forall i | 0 <= i && i + 1 < |h + "\r"|
      ensures !((h + "\r")[i] == '\n' && (h + "\r")[i + 1] == '\n')
    {
      assert (h + "\r")[i] == h[i];
      assert i + 1 < |h| ==> (h + "\r")[i + 1] == h[i + 1];
    }
  }

  lemma LineEnds(b: string)
    ensures "\r\r\n" + b == "\r" + ("\r" + ("\n" + b))
    ensures "\r\n" + b == "\r" + ("\n" + b)
  {
  }

  lemma NormalizedOnce(l: string, x: string, b: string)
    requires Settled(l) && Without(x, '\n')
    ensures Normalize(l + (x + "\r\r\n" + b)) == l + x + "\r" + ("\n" + Normalize(b))
  {
    var rest := "\r" + ("\n" + b);
    LineEnds(b);
    Assoc(x, "\r\r\n", b);
    NormalizeSettled(l, x + ("\r" + rest));
    NormalizeLine(x, rest);
    NormalizeCrLf(b);
    var tail := "\n" + Normalize(b);
    Assoc(l + x, "\r", tail);
    Assoc(l, x, "\r" + tail);
  }

  lemma NormalizedAgain(l: string, x: string, b: string)
    requires Settled(l) && Without(x, '\n')
    ensures Normalize(l + x + "\r\n" + b) == l + x + ("\n" + Normalize(b))
  {
    var rest := "\n" + b;
    LineEnds(b);
    Assoc(l + x, "\r\n", b);
    Assoc(l, x, "\r" + rest);
    NormalizeSettled(l, x + ("\r" + rest));
    NormalizeLine(x, rest);
    NormalizeCrLf(b);
    Assoc(l, x, "\n" + Normalize(b));
  }

  /** In one chunk the line keeps a CR. */
  lemma InOneChunk(l: string, x: string, b: string)
    requires Settled(l) && Without(x, '\n')
    ensures Stream(l, [x + "\r\r\n" + b]) == Pieces(l + x + "\r" + ("\n" + Normalize(b)))
  {
    StreamOne(l, x + "\r\r\n" + b);
    NormalizedOnce(l, x, b);
  }

  /** The line alone is not closed. */
  lemma LineStaysOpen(l: string, x: string)
    requires Settled(l) && x != "" && Without(x, '\n')
    ensures Normalize(l + (x + "\r\r\n")) == l + x + "\r\n"
    ensures Pieces(l + x + "\r\n") == [l + x + "\r\n"]
  {
    assert x + "\r\r\n" + "" == x + "\r\r\n";
    assert Normalize("") == "" && "\n" + "" == "\n";
    NormalizedOnce(l, x, "");
    assert l + x + "\r" + "\n" == l + x + "\r\n";
    LineOpen(l, x);
    PiecesBehind(l + x + "\r", "\n");
    OnePiece("\n");
    assert [l + x + "\r" + "\n"] + [] == [l + x + "\r\n"];
  }

  /** A cut behind the line takes its CR away. */
  lemma InTwoChunks(l: string, x: string, b: string)
    requires Settled(l) && x != "" && Without(x, '\n')
    ensures Stream(l, [x + "\r\r\n", b]) == Pieces(l + x + ("\n" + Normalize(b)))
  {
    var y, once := x + "\r\r\n", l + x + "\r\n";
    LineStaysOpen(l, x);
    assert [y, b] == [y] + [b];
    StreamCons(l, y, [b]);
    assert Front([once]) == [] && [] + Stream(once, [b]) == Stream(once, [b]);
    StreamOne(once, b);
    NormalizedAgain(l, x, b);
  }

  // ---------------------------------------------------------------- the frames differ

  /** The lines of a text with one more character in front. */
  function OneMoreChar(c: char, ls: seq<string>): seq<string>
    requires ls != []
  {
    if c == '\n' then [""] + ls else [[c] + ls[0]] + ls[1..]
  }

  lemma LinesCons(c: char, rest: string)
    ensures Lines([c] + rest) == OneMoreChar(c, Lines(rest))
  {
    assert ([c] + rest)[1..] == rest;
  }

  lemma FrontOneMore(c: char, ls: seq<string>, more: seq<string>)
    requires more != [] && ls != [] && (c == '\n' || |ls| > 1)
    ensures OneMoreChar(c, Front(ls) + more) == Front(OneMoreChar(c, ls)) + more
  {
    if c == '\n' {
      assert Front([""] + ls) == [""] + Front(ls);
      Assoc([""], Front(ls), more);
    } else {
      var l := Front(ls) + more;
      assert l[0] == ls[0] && l[1..] == ls[1..|ls| - 1] + more;
      assert Front([[c] + ls[0]] + ls[1..]) == [[c] + ls[0]] + ls[1..|ls| - 1];
      Assoc([[c] + ls[0]], ls[1..|ls| - 1], more);
    }
  }

  lemma {:induction false} LinesSplit(l: string, s: string)
    requires EndsLine(l)
    ensures Lines(l + s) == Front(Lines(l)) + Lines(s)
  {
    if l == "" {
      assert l + s == s && Front(Lines(l)) == [];
      assert [] + Lines(s) == Lines(s);
    } else {
      var c, tail := l[0], l[1..];
      assert l == [c] + tail && EndsLine(tail);
      Assoc([c], tail, s);
      LinesSplit(tail, s);
      if c != '\n' {
        LinesMany(tail);
      }
      LinesCons(c, tail);
      LinesCons(c, tail + s);
      FrontOneMore(c, Lines(tail), Lines(s));
    }
  }

  /** A text that ends a line has a line before its last. */
  lemma {:induction false} LinesMany(s: string)
    requires s != "" && EndsLine(s)
    ensures |Lines(s)| > 1
  {
    if |s| > 1 {
      assert EndsLine(s[1..]);
      LinesMany(s[1..]);
    }
  }

  /** The lines around one line of a raw frame; `w` is empty or begins with LF. */
  lemma LinesAround(l: string, x: string, w: string) returns (before: seq<string>, after: seq<string>)
    requires EndsLine(l) && (w == "" || w[0] == '\n')
    ensures forall y | Without(y, '\n') :: Lines(l + y + w) == before + [y] + after
  {
    before := Front(Lines(l));
    after := if w == "" then [] else Lines(w[1..]);
    forall y | Without(y, '\n')
      ensures Lines(l + y + w) == before + [y] + after
    {
      Assoc(l, y, w);
      LinesSplit(l, y + w);
      if w == "" {
        assert y + w == y;
        LinesOfLast(y);
      } else {
        assert y + w == y + "\n" + w[1..];
        LinesOfLine(y, w[1..]);
      }
      Assoc(before, [y], after);
    }
  }

  lemma {:induction false} DataAppend(a: seq<string>, b: seq<string>)
    ensures DataValues(a + b) == DataValues(a) + DataValues(b)
  {
    if b == [] {
      assert a + b == a;
    } else {
      DataAppend(a, Front(b));
      FrontLast(b);
      Assoc(a, Front(b), [Last(b)]);
      Snoc(a + Front(b), Last(b));
      Snoc(Front(b), Last(b));
    }
  }

  function DataOf(line: string): seq<string> {
    if !Skipped(line) && FieldName(line) == "data" then [FieldValue(line)] else []
  }

  lemma DataAround(before: seq<string>, line: string, after: seq<string>)
    ensures DataValues(before + [line] + after) == DataValues(before) + DataOf(line) + DataValues(after)
  {
    DataAppend(before + [line], after);
    Snoc(before, line);
  }

  lemma NoColon(line: string)
    requires Without(line, ':')
    ensures Colon(line) == |line|
  {
  }

  /** A CR behind a data line is one more character of its value, or takes the line away. */
  lemma DataWithCr(x: string)
    requires IsDataLine(x)
    ensures DataOf(x) == [FieldValue(x)]
    ensures DataOf(x + "\r") == [FieldValue(x) + "\r"] || DataOf(x + "\r") == []
  {
    var i := Colon(x);
    var y := x + "\r";
    if i < |x| {
      assert forall k | 0 <= k < i :: y[k] != ':';
      ColonIs(y, i);
      assert y[..i] == x[..i];
      var v := x[i + 1..];
      assert y[i + 1..] == v + "\r";
      if v != "" && v[0] == ' ' {
        assert (v + "\r")[0] == ' ' && (v + "\r")[1..] == v[1..] + "\r";
      } else {
        assert v != "" ==> (v + "\r")[0] == v[0];
      }
    } else {
      assert x[..i] == x;
      assert forall k | 0 <= k < |x| :: y[k] == x[k];
      NoColon(y);
      assert y[..|y|] == y && |y| == 5;
    }
  }

  function Total(ls: seq<string>): nat {
    if ls == [] then 0 else |ls[0]| + 1 + Total(ls[1..])
  }

  lemma {:induction false} JoinLength(ls: seq<string>)
    requires ls != []
    ensures |JoinLines(ls)| + 1 == Total(ls)
  {
    if |ls| > 1 {
      JoinLength(ls[1..]);
    } else {
      assert ls[1..] == [];
    }
  }

  lemma {:induction false} TotalAppend(a: seq<string>, b: seq<string>)
    ensures Total(a + b) == Total(a) + Total(b)
  {
    if a == [] {
      assert a + b == b;
    } else {
      assert (a + b)[0] == a[0] && (a + b)[1..] == a[1..] + b;
      TotalAppend(a[1..], b);
    }
  }

  lemma TotalAround(a: seq<string>, m: seq<string>, b: seq<string>)
    ensures Total(a + m + b) == Total(a) + Total(m) + Total(b)
  {
    TotalAppend(a + m, b);
    TotalAppend(a, m);
  }

  lemma TotalOne(v: string)
    ensures Total([v]) == |v| + 1
  {
    assert [v][1..] == [];
  }

  /** The piece of a data line makes another frame when a CR stands behind the line. */
  lemma FrameChanges(l: string, x: string, w: string)
    requires EndsLine(l) && IsDataLine(x) && (w == "" || w[0] == '\n')
    ensures |FrameOf(l + x + w)| == 1
    ensures FrameOf(l + (x + "\r") + w) != FrameOf(l + x + w)
  {
    var before, after := LinesAround(l, x, w);
    var y := x + "\r";
    assert Without(y, '\n') by {
      WithoutAppend(x, "\r", '\n');
    }
    var a, b := DataValues(before), DataValues(after);
    DataAround(before, x, after);
    DataAround(before, y, after);
    DataWithCr(x);
    TotalAround(a, DataOf(x), b);
    TotalAround(a, DataOf(y), b);
    TotalOne(FieldValue(x));
    TotalOne(FieldValue(x) + "\r");
    var one, other := a + DataOf(x) + b, a + DataOf(y) + b;
    assert Total(other) != Total(one);
    JoinLength(one);
    if other != [] {
      JoinLength(other);
    }
  }

  lemma FramesCons(p: string, ps: seq<string>)
    ensures Frames([p] + ps) == FrameOf(p) + Frames(ps)
  {
    FramesAppend([p], ps);
    FramesOne(p);
  }

  lemma FirstPieceStarts(m: string)
    ensures var w0 := Pieces("\n" + m)[0]; w0 == "" || w0[0] == '\n'
  {
    var w := "\n" + m;
    assert w[0] == '\n';
  }

  lemma StreamsDiffer(l: string, x: string, b: string)
    requires Settled(l) && IsDataLine(x)
    ensures Frames(Stream(l, [x + "\r\r\n" + b])) != Frames(Stream(l, [x + "\r\r\n", b]))
  {
    var w := "\n" + Normalize(b);
    var first, rest := Pieces(w)[0], Pieces(w)[1..];
    InOneChunk(l, x, b);
    InTwoChunks(l, x, b);
    LineOpen(l, x);
    PiecesBehind(l + x + "\r", w);
    PiecesBehind(l + x, w);
    FirstPieceStarts(Normalize(b));
    FrameChanges(l, x, first);
    FramesCons(l + (x + "\r") + first, rest);
    FramesCons(l + x + first, rest);
    HeadsDiffer(FrameOf(l + (x + "\r") + first), FrameOf(l + x + first), Frames(rest));
  }

  lemma HeadsDiffer(a: seq<Frame>, b: seq<Frame>, rest: seq<Frame>)
    ensures a + rest == b + rest <==> a == b
  {
    if a + rest == b + rest {
      assert |a| == |b|;
      assert a == (a + rest)[..|a|] && b == (b + rest)[..|b|];
    }
  }

  lemma TailsDiffer(before: seq<Frame>, a: seq<Frame>, b: seq<Frame>)
    ensures before + a == before + b <==> a == b
  {
    if before + a == before + b {
      assert a == (before + a)[|before|..] && b == (before + b)[|before|..];
    }
  }

  /** The frames of some chunks, and then those of the chunks behind them. */
  lemma FramesBehind(chunks: seq<string>, rest: seq<string>)
    ensures var ps := Stream("", chunks);
      Frames(Stream("", chunks + rest)) == Frames(Front(ps)) + Frames(Stream(Last(ps), rest))
  {
    var ps := Stream("", chunks);
    StreamAppend("", chunks, rest);
    FramesAppend(Front(ps), Stream(Last(ps), rest));
  }

  lemma TwoChunkings(p: string, x: string, b: string, chunks: seq<string>)
    requires Concat(chunks) == p
    ensures var y := x + "\r\r\n";
      Concat(chunks + [y + b]) == p + x + "\r\r\n" + b && Concat(chunks + [y, b]) == p + x + "\r\r\n" + b
  {
    var y := x + "\r\r\n";
    ConcatAppend(chunks, [y + b]);
    ConcatAppend(chunks, [y, b]);
    ConcatOne(y + b);
    ConcatTwo(y, b);
    assert p + (y + b) == p + x + "\r\r\n" + b;
  }

  /**
   * If a data line of a text ends in CR CR LF, the frames depend on the chunking: a cut behind
   * the line takes the CR out of its value.
   */
  lemma DataLinesMustNotEndInCrCrLf(p: string, x: string, b: string)
    requires EndsLine(p) && IsDataLine(x)
    ensures !SameFramesForAllChunkings(p + x + "\r\r\n" + b)
  {
    var chunks := SettleAfter(p);
    var y := x + "\r\r\n";
    TwoChunkings(p, x, b, chunks);
    var ps := Stream("", chunks);
    FramesBehind(chunks, [y + b]);
    FramesBehind(chunks, [y, b]);
    StreamsDiffer(Last(ps), x, b);
    TailsDiffer(Frames(Front(ps)), Frames(Stream(Last(ps), [y + b])), Frames(Stream(Last(ps), [y, b])));
    NotTheSame(p + x + "\r\r\n" + b, chunks + [y + b], chunks + [y, b]);
  }

  lemma NotTheSame(text: string, one: seq<string>, other: seq<string>)
    requires Concat(one) == text && Concat(other) == text
    requires Frames(Stream("", one)) != Frames(Stream("", other))
    ensures !SameFramesForAllChunkings(text)
  {
  }
}
