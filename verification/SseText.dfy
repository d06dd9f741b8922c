/**
 * Text operations of the event-stream reader: line-ending normalisation, cutting at blank
 * lines, splitting into lines, and the lemmas about where text may be cut.
 */
module SseText {
  import opened Prelude

  /** The character `c` in front of `rest`, gone when it is the CR of a CR LF. */
  function Keep(c: char, rest: string): string {
    if c == '\r' && rest != "" && rest[0] == '\n' then "" else [c]
  }

  /** Every CR LF becomes LF. */
  function Normalize(s: string): (r: string)
    ensures |r| <= |s|
  {
    if s == "" then "" else Keep(s[0], s[1..]) + Normalize(s[1..])
  }

  /** Position of the first blank-line separator at or after `from`, or the length when there is none. */
  function SeparatorFrom(s: string, from: nat): (i: nat)
    requires from <= |s|
    ensures i == |s| || (from <= i && i + 2 <= |s| && s[i] == '\n' && s[i + 1] == '\n')
    ensures forall k | from <= k < i && k + 1 < |s| :: !(s[k] == '\n' && s[k + 1] == '\n')
    decreases |s| - from
  {
    if from + 1 >= |s| then |s|
    else if s[from] == '\n' && s[from + 1] == '\n' then from
    else SeparatorFrom(s, from + 1)
  }

  function Separator(s: string): (i: nat)
    ensures i == |s| || (i + 2 <= |s| && s[i] == '\n' && s[i + 1] == '\n')
    ensures forall k | 0 <= k < i && k + 1 < |s| :: !(s[k] == '\n' && s[k + 1] == '\n')
  {
    SeparatorFrom(s, 0)
  }

  /** The text cut at every separator; the last piece is what no separator has closed yet. */
  function Pieces(s: string): (ps: seq<string>)
    ensures ps != []
    decreases |s|
  {
    var i := Separator(s);
    if i == |s| then [s] else [s[..i]] + Pieces(s[i + 2..])
  }

  function Unpieces(ps: seq<string>): string
    requires ps != []
  {
    if |ps| == 1 then ps[0] else ps[0] + "\n\n" + Unpieces(ps[1..])
  }

  function Concat(chunks: seq<string>): string {
    if chunks == [] then "" else chunks[0] + Concat(chunks[1..])
  }

  /** CR CR LF occurs nowhere. */
  ghost predicate NoCrCrLf(s: string) {
    forall i | 0 <= i && i + 2 < |s| :: !(s[i] == '\r' && s[i + 1] == '\r' && s[i + 2] == '\n')
  }

  ghost predicate NoCrLf(s: string) {
    forall i | 0 <= i && i + 1 < |s| :: !(s[i] == '\r' && s[i + 1] == '\n')
  }

  ghost predicate Without(s: string, c: char) {
    forall i | 0 <= i < |s| :: s[i] != c
  }

  // ---------------------------------------------------------------- normalisation

  lemma NormalizeCons(c: char, rest: string)
    ensures Normalize([c] + rest) == Keep(c, rest) + Normalize(rest)
  {
    assert ([c] + rest)[1..] == rest;
  }

  lemma {:induction false} NormalizeFixed(s: string)
    requires NoCrLf(s)
    ensures Normalize(s) == s
  {
    if s != "" {
      forall i | 0 <= i && i + 1 < |s[1..]|
        ensures !(s[1..][i] == '\r' && s[1..][i + 1] == '\n')
      {
        assert s[1..][i] == s[i + 1] && s[1..][i + 1] == s[i + 2];
      }
      NormalizeFixed(s[1..]);
      assert !(|s| > 1 && s[0] == '\r' && s[1] == '\n');
    }
  }

  /** A text that ends a line can be normalised by itself. */
  lemma {:induction false} NormalizeSplits(a: string, b: string)
    requires a == "" || Last(a) == '\n'
    ensures Normalize(a + b) == Normalize(a) + Normalize(b)
  {
    if a == "" {
      assert a + b == b;
    } else {
      var c, tail := a[0], a[1..];
      assert a == [c] + tail;
      NormalizeSplits(tail, b);
      NormalizeCons(c, tail);
      NormalizeCons(c, tail + b);
      Assoc([c], tail, b);
      assert Keep(c, tail + b) == Keep(c, tail);
      Assoc(Keep(c, tail), Normalize(tail), Normalize(b));
    }
  }

  lemma NoCrCrLfTail(s: string, k: nat)
    requires NoCrCrLf(s) && k <= |s|
    ensures NoCrCrLf(s[k..])
  {
    forall i | 0 <= i && i + 2 < |s[k..]|
      ensures !(s[k..][i] == '\r' && s[k..][i + 1] == '\r' && s[k..][i + 2] == '\n')
    {
      assert s[k..][i] == s[k + i] && s[k..][i + 1] == s[k + i + 1] && s[k..][i + 2] == s[k + i + 2];
    }
  }

  /** A normalised text starts with LF only if the text starts with LF or CR LF. */
  lemma NormalizeFirst(s: string)
    requires s != ""
    ensures Normalize(s) != ""
    ensures Normalize(s)[0] == '\n' ==> s[0] == '\n' || (|s| > 1 && s[0] == '\r' && s[1] == '\n')
  {
    if |s| > 1 {
      assert s[1..][0] == s[1];
    }
    if Keep(s[0], s[1..]) == "" {
      assert Keep(s[1], s[1..][1..]) == [s[1]];
    }
  }

  lemma CleanCons(c: char, n: string)
    requires NoCrLf(n) && !(c == '\r' && n != "" && n[0] == '\n')
    ensures NoCrLf([c] + n)
  {
    var m := [c] + n;
    forall i | 0 <= i && i + 1 < |m|
      ensures !(m[i] == '\r' && m[i + 1] == '\n')
    {
      if i > 0 {
        assert m[i] == n[i - 1] && m[i + 1] == n[i];
      }
    }
  }

  lemma {:induction false} NormalizeClean(s: string)
    requires NoCrCrLf(s)
    ensures NoCrLf(Normalize(s))
  {
    if s != "" {
      var c, tail := s[0], s[1..];
      var n := Normalize(tail);
      NoCrCrLfTail(s, 1);
      NormalizeClean(tail);
      if Keep(c, tail) == [c] {
        if tail != "" {
          NormalizeFirst(tail);
          assert |tail| > 1 ==> tail[0] == s[1] && tail[1] == s[2];
        }
        CleanCons(c, n);
      } else {
        assert "" + n == n;
      }
    }
  }

  /** One more character in front of a text that absorbs its normalisation. */
  lemma AbsorbsOne(c: char, tail: string, b: string)
    requires tail != ""
    requires !(c == '\r' && |tail| > 1 && tail[0] == '\r' && tail[1] == '\n')
    requires Normalize(Normalize(tail) + b) == Normalize(tail + b)
    ensures Normalize(Keep(c, tail) + Normalize(tail) + b) == Keep(c, tail) + Normalize(tail + b)
  {
    NormalizeFirst(tail);
    Assoc(Keep(c, tail), Normalize(tail), b);
    if Keep(c, tail) == [c] {
      NormalizeCons(c, Normalize(tail) + b);
      assert Keep(c, Normalize(tail) + b) == [c];
    } else {
      assert "" + (Normalize(tail) + b) == Normalize(tail) + b;
      assert "" + Normalize(tail + b) == Normalize(tail + b);
    }
  }

  /** Normalising the part read so far first makes no difference. */
  lemma {:induction false} NormalizeAbsorbs(a: string, b: string)
    requires NoCrCrLf(a + b)
    ensures Normalize(Normalize(a) + b) == Normalize(a + b)
  {
    if |a| <= 1 {
      assert Normalize(a) == a;
    } else {
      var c, tail := a[0], a[1..];
      assert a == [c] + tail;
      Assoc([c], tail, b);
      NoCrCrLfTail(a + b, 1);
      assert (a + b)[1..] == tail + b;
      NormalizeAbsorbs(tail, b);
      assert |a| > 2 ==> (a + b)[0] == c && (a + b)[1] == tail[0] && (a + b)[2] == tail[1];
      AbsorbsOne(c, tail, b);
      NormalizeCons(c, tail);
      NormalizeCons(c, tail + b);
      assert Keep(c, tail + b) == Keep(c, tail);
    }
  }

  // ---------------------------------------------------------------- pieces

  /** A line end at `k` that would be followed by another one in front of a separator. */
  predicate EndsTwice(head: string, k: nat)
    requires k < |head|
  {
    head[k] == '\n' && (k + 1 == |head| || head[k + 1] == '\n')
  }

  /** The first separator in front of which `head` can stand is the one that follows it. */
  ghost predicate Closes(head: string) {
    forall k | 0 <= k < |head| :: !EndsTwice(head, k)
  }

  lemma SeparatorAt(head: string, tail: string)
    requires Closes(head)
    ensures Separator(head + ("\n\n" + tail)) == |head|
  {
    var s := head + ("\n\n" + tail);
    assert s[|head|] == '\n' && s[|head| + 1] == '\n';
    forall k | 0 <= k < |head|
      ensures !(s[k] == '\n' && s[k + 1] == '\n')
    {
      assert !EndsTwice(head, k);
      assert s[k] == head[k];
      assert s[k + 1] == if k + 1 == |head| then '\n' else head[k + 1];
    }
  }

  lemma PiecesClosed(head: string, tail: string)
    requires Closes(head)
    ensures Pieces(head + ("\n\n" + tail)) == [head] + Pieces(tail)
  {
    var s := head + ("\n\n" + tail);
    SeparatorAt(head, tail);
    assert s[..|head|] == head && s[|head| + 2..] == tail;
  }

  lemma SplitAround(s: string, i: nat)
    requires i + 2 <= |s|
    ensures s == s[..i] + ([s[i], s[i + 1]] + s[i + 2..])
  {
  }

  lemma FirstPiece(s: string) returns (head: string, tail: string)
    requires Separator(s) < |s|
    ensures s == head + ("\n\n" + tail) && Closes(head)
    ensures Pieces(s) == [head] + Pieces(tail)
    ensures |tail| < |s|
  {
    var i := Separator(s);
    head, tail := s[..i], s[i + 2..];
    SplitAround(s, i);
    assert ['\n', '\n'] == "\n\n";
    forall k | 0 <= k < |head|
      ensures !EndsTwice(head, k)
    {
      assert !(s[k] == '\n' && s[k + 1] == '\n');
    }
  }

  lemma AfterOne(head: string, rest: string, more: string)
    requires Closes(head)
    ensures Pieces(head + ("\n\n" + rest) + more) == [head] + Pieces(rest + more)
  {
    PiecesClosed(head, rest + more);
    Assoc(head, "\n\n" + rest, more);
    Assoc("\n\n", rest, more);
  }

  /** Whatever follows `closed` is cut up by itself, after the pieces `fronts`. */
  ghost predicate CutsAfter(closed: string, fronts: seq<string>) {
    forall more :: Pieces(closed + more) == fronts + Pieces(more)
  }

  lemma CutsNothing()
    ensures CutsAfter("", [])
  {
    forall more: string
      ensures Pieces("" + more) == [] + Pieces(more)
    {
      assert "" + more == more;
    }
  }

  lemma CutsCons(head: string, rest: string, fronts: seq<string>)
    requires Closes(head) && CutsAfter(rest, fronts)
    ensures CutsAfter(head + ("\n\n" + rest), [head] + fronts)
  {
    forall more
      ensures Pieces(head + ("\n\n" + rest) + more) == [head] + fronts + Pieces(more)
    {
      AfterOne(head, rest, more);
      Assoc([head], fronts, Pieces(more));
    }
  }

  lemma FrontLastCons<T>(x: T, s: seq<T>)
    requires s != []
    ensures Front([x] + s) == [x] + Front(s) && Last([x] + s) == Last(s)
  {
  }

  predicate EndsBlank(s: string) {
    |s| >= 2 && s[|s| - 2] == '\n' && s[|s| - 1] == '\n'
  }

  lemma EndsBlankCons(head: string, rest: string)
    requires rest == "" || EndsBlank(rest)
    ensures EndsBlank(head + ("\n\n" + rest))
  {
    var t := head + ("\n\n" + rest);
    assert t[|t| - 1] == ("\n\n" + rest)[|rest| + 1];
    assert t[|t| - 2] == ("\n\n" + rest)[|rest|];
  }

  /** A text is a closed part, which ends in a blank line unless it is empty, followed by its last piece. */
  lemma {:induction false} PiecesAfter(s: string) returns (closed: string)
    ensures s == closed + Last(Pieces(s))
    ensures closed == "" || EndsBlank(closed)
    ensures CutsAfter(closed, Front(Pieces(s)))
    decreases |s|
  {
    if Separator(s) == |s| {
      closed := "";
      CutsNothing();
    } else {
      var head, tail := FirstPiece(s);
      var rest := PiecesAfter(tail);
      var pieces := Pieces(tail);
      closed := head + ("\n\n" + rest);
      Assoc("\n\n", rest, Last(pieces));
      Assoc(head, "\n\n" + rest, Last(pieces));
      FrontLastCons(head, pieces);
      EndsBlankCons(head, rest);
      CutsCons(head, rest, Front(pieces));
    }
  }

  lemma {:induction false} UnpiecesPieces(s: string)
    ensures Unpieces(Pieces(s)) == s
    decreases |s|
  {
    if Separator(s) < |s| {
      var head, tail := FirstPiece(s);
      UnpiecesPieces(tail);
      assert Pieces(s)[1..] == Pieces(tail);
      Assoc(head, "\n\n", tail);
    }
  }
}
