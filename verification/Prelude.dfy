/** Optional values, white space, and sequences seen from their end. */
module Prelude {

  /** A value that may be absent: the source's `null` and `undefined`. */
  datatype Option<+T> = None | Some(value: T)

  function Max(a: int, b: int): int {
    if a < b then b else a
  }

  /** White space as the host's `trim` sees it. */
  predicate IsSpace(c: char) {
    || c == '\t' || c == '\n' || c == '\U{0B}' || c == '\U{0C}' || c == '\r' || c == ' '
    || c == '\U{A0}' || c == '\U{1680}' || '\U{2000}' <= c <= '\U{200A}' || c == '\U{2028}'
    || c == '\U{2029}' || c == '\U{202F}' || c == '\U{205F}' || c == '\U{3000}' || c == '\U{FEFF}'
  }

  /** The same by number: the white space and line ends of ECMA-262, sections 12.2 and 12.3. */
  lemma SpacesByNumber(c: char)
    ensures var n := c as int;
      IsSpace(c) <==> n in {9, 10, 11, 12, 13, 32, 160, 5760, 8232, 8233, 8239, 8287, 12288, 65279} || 8192 <= n <= 8202
  {
  }

  /** Nothing is left of the string once it is trimmed. */
  predicate Blank(s: string) {
    forall i | 0 <= i < |s| :: IsSpace(s[i])
  }

  function TrimStart(s: string): string {
    if s != [] && IsSpace(s[0]) then TrimStart(s[1..]) else s
  }

  function TrimEnd(s: string): string {
    if s != [] && IsSpace(Last(s)) then TrimEnd(Front(s)) else s
  }

  function Trim(s: string): string {
    TrimEnd(TrimStart(s))
  }

  lemma {:induction false} TrimStartCuts(s: string) returns (k: nat)
    ensures k <= |s| && TrimStart(s) == s[k..] && Blank(s[..k])
    ensures k < |s| ==> !IsSpace(s[k])
  {
    if s == [] || !IsSpace(s[0]) {
      return 0;
    }
    var rest := TrimStartCuts(s[1..]);
    k := rest + 1;
    assert s[1..][rest..] == s[k..];
    assert forall i | 1 <= i < k :: s[i] == s[1..][..rest][i - 1];
  }

  lemma {:induction false} TrimEndCuts(s: string) returns (k: nat)
    ensures k <= |s| && TrimEnd(s) == s[..k] && Blank(s[k..])
    ensures k > 0 ==> !IsSpace(s[k - 1])
  {
    if s == [] || !IsSpace(Last(s)) {
      return |s|;
    }
    k := TrimEndCuts(Front(s));
    assert Front(s)[..k] == s[..k];
    assert forall i | k <= i < |s| - 1 :: s[i] == Front(s)[k..][i - k];
  }

  /** Trimming cuts white space from both ends and nothing else. */
  lemma TrimIsMiddle(s: string)
    ensures exists i, j :: 0 <= i <= j <= |s| && TrimmedAt(s, i, j)
    ensures Trim(s) == [] <==> Blank(s)
  {
    var i := TrimStartCuts(s);
    var k := TrimEndCuts(s[i..]);
    var j := i + k;
    assert s[i..][..k] == s[i..j] && s[i..][k..] == s[j..];
    assert k > 0 ==> s[i..][k - 1] == s[j - 1];
    assert TrimmedAt(s, i, j);
    assert i < |s| ==> s[i..][0] == s[i];
    if k == 0 {
      assert i == |s| && s[..i] == s;
    } else {
      assert !IsSpace(s[j - 1]);
    }
  }

  /** What is trimmed once stays as it is. */
  lemma TrimAgain(s: string)
    ensures Trim(Trim(s)) == Trim(s)
  {
    TrimIsMiddle(s);
    var i, j :| 0 <= i <= j <= |s| && TrimmedAt(s, i, j);
    var t := s[i..j];
    if i < j {
      assert t[0] == s[i] && Last(t) == s[j - 1];
    }
  }

  predicate TrimmedAt(s: string, i: nat, j: nat) {
    && i <= j <= |s|
    && Trim(s) == s[i..j] && Blank(s[..i]) && Blank(s[j..])
    && (i < j ==> !IsSpace(s[i]) && !IsSpace(s[j - 1]))
  }

  function Front<T>(s: seq<T>): seq<T>
    requires s != []
  {
    s[..|s| - 1]
  }

  function Last<T>(s: seq<T>): T
    requires s != []
  {
    s[|s| - 1]
  }

  lemma FrontLast<T>(s: seq<T>)
    requires s != []
    ensures Front(s) + [Last(s)] == s
  {
  }

  lemma FrontLastSnoc<T>(s: seq<T>, x: T)
    ensures Front(s + [x]) == s && Last(s + [x]) == x
  {
  }

  /** Concatenation is associative; calling this saves the solver the extensionality argument. */
  lemma Assoc<T>(a: seq<T>, b: seq<T>, c: seq<T>)
    ensures (a + b) + c == a + (b + c)
  {
  }
}
