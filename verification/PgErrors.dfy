/** How errors of the Postgres adapter are classified (packages/adapters/postgres/src/errors.ts). */
module PgErrors {
  import opened Prelude

  datatype Kind = Transient | Permanent | Unknown

  /** A thrown value: an object with the fields that are strings, tagged if it is the adapter's own error. */
  datatype Thrown = NotAnObject | Thrown(tag: Option<Kind>, code: Option<string>, message: Option<string>)

  const ConnectionCodes := {"ECONNRESET", "ECONNREFUSED", "ETIMEDOUT", "ENOTFOUND", "EHOSTUNREACH", "ENETUNREACH"}
  const ShutdownCodes := {"57P01", "57P02", "57P03"}
  const DEADLOCK := "40P01"

  function LowerChar(c: char): char {
    if 'A' <= c <= 'Z' then c - 'A' + 'a' else c
  }

  /** The message contains the text, in any mixture of upper and lower case. */
  predicate Mentions(message: string, text: string) {
    exists i :: 0 <= i <= |message| - |text| && MentionsAt(message, text, i)
  }

  predicate MentionsAt(message: string, text: string, i: nat) {
    i + |text| <= |message| && forall k | 0 <= k < |text| :: LowerChar(message[i + k]) == text[k]
  }

  predicate SaysTerminated(message: string) {
    || Mentions(message, "connection terminated")
    || Mentions(message, "connection ended")
    || Mentions(message, "connection unexpectedly")
  }

  predicate HasSqlStateShape(code: string) {
    |code| == 5 && forall i | 0 <= i < 5 :: 'A' <= code[i] <= 'Z' || '0' <= code[i] <= '9'
  }

  function ClassifyError(e: Thrown): Kind {
    if e.NotAnObject? then Unknown
    else if e.tag.Some? then e.tag.value
    else if e.code.Some? && (e.code.value == DEADLOCK || e.code.value in ShutdownCodes) then Transient
    else if e.code.Some? && e.code.value in ConnectionCodes then Transient
    else if e.code.Some? && HasSqlStateShape(e.code.value) then Permanent
    else if e.message.Some? && SaysTerminated(e.message.value) then Transient
    else Unknown
  }

  predicate IsConnectionError(e: Thrown) {
    && e.Thrown?
    && (|| (e.code.Some? && (e.code.value in ConnectionCodes || e.code.value in ShutdownCodes))
        || (e.message.Some? && SaysTerminated(e.message.value)))
  }

  // ---------------------------------------------------------------- the same, spelled out

  /** The text with the letters A to Z, 65 to 90, in lower case. */
  function Lowered(s: string): (r: string)
    ensures |r| == |s|
    ensures forall i | 0 <= i < |s| :: r[i] as int == if 65 <= s[i] as int <= 90 then s[i] as int + 32 else s[i] as int
  {
    if s == [] then [] else [LowerChar(s[0])] + Lowered(s[1..])
  }

  ghost predicate Contains(s: string, text: string) {
    exists before, after :: s == before + text + after
  }

  lemma ContainsAt(s: string, text: string, i: nat)
    requires i + |text| <= |s| && forall k | 0 <= k < |text| :: s[i + k] == text[k]
    ensures Contains(s, text)
  {
    var before, after := s[..i], s[i + |text|..];
    assert s == before + text + after;
  }

  lemma MentionsMeans(message: string, text: string)
    ensures Mentions(message, text) <==> Contains(Lowered(message), text)
  {
    var lowered := Lowered(message);
    forall i | 0 <= i < |message|
      ensures LowerChar(message[i]) == lowered[i]
    {
      assert LowerChar(message[i]) as int == lowered[i] as int;
    }
    if Mentions(message, text) {
      var i :| 0 <= i <= |message| - |text| && MentionsAt(message, text, i);
      ContainsAt(lowered, text, i);
    }
    if Contains(lowered, text) {
      var before, after :| lowered == before + text + after;
      assert forall k | 0 <= k < |text| :: lowered[|before| + k] == text[k];
      assert MentionsAt(message, text, |before|);
    }
  }

  /** The message of a connection that ended, in any mixture of upper and lower case. */
  ghost predicate TellsOfLoss(message: Option<string>) {
    message.Some? &&
    (|| Contains(Lowered(message.value), "connection terminated")
     || Contains(Lowered(message.value), "connection ended")
     || Contains(Lowered(message.value), "connection unexpectedly"))
  }

  lemma SaysTerminatedMeans(message: string)
    ensures SaysTerminated(message) <==> TellsOfLoss(Some(message))
  {
    MentionsMeans(message, "connection terminated");
    MentionsMeans(message, "connection ended");
    MentionsMeans(message, "connection unexpectedly");
  }

  /** The error tells that the connection is gone: by one of nine codes, or by its message. */
  ghost predicate LosesConnection(e: Thrown) {
    && e.Thrown?
    && (|| (e.code.Some? && e.code.value in {"ECONNRESET", "ECONNREFUSED", "ETIMEDOUT", "ENOTFOUND", "EHOSTUNREACH", "ENETUNREACH",
                                             "57P01", "57P02", "57P03"})
        || TellsOfLoss(e.message))
  }

  lemma ConnectionErrorMeans(e: Thrown)
    ensures IsConnectionError(e) <==> LosesConnection(e)
  {
    if e.Thrown? && e.message.Some? {
      SaysTerminatedMeans(e.message.value);
    }
  }

  /** Five digits or upper-case letters. */
  ghost predicate IsSqlState(code: string) {
    |code| == 5 && forall i | 0 <= i < 5 :: 48 <= code[i] as int <= 57 || 65 <= code[i] as int <= 90
  }

  /**
   * An untagged error is transient for a deadlock, a shutdown or a lost connection by code, or by
   * its message unless it carries another server code; a server code is permanent otherwise.
   */
  lemma ClassificationMeans(e: Thrown)
    ensures e.NotAnObject? ==> ClassifyError(e) == Unknown
    ensures e.Thrown? && e.tag.Some? ==> ClassifyError(e) == e.tag.value
    ensures e.Thrown? && e.tag.None? ==>
      (ClassifyError(e) == Transient <==>
        if e.code.Some? && IsSqlState(e.code.value) then e.code.value in {"40P01", "57P01", "57P02", "57P03"}
        else || (e.code.Some? && e.code.value in {"ECONNRESET", "ECONNREFUSED", "ETIMEDOUT", "ENOTFOUND", "EHOSTUNREACH", "ENETUNREACH"})
             || TellsOfLoss(e.message))
    ensures e.Thrown? && e.tag.None? ==>
      (ClassifyError(e) == Permanent <==>
        e.code.Some? && IsSqlState(e.code.value) && e.code.value !in {"40P01", "57P01", "57P02", "57P03"})
  {
    if e.Thrown? && e.message.Some? {
      SaysTerminatedMeans(e.message.value);
    }
    if e.Thrown? && e.code.Some? {
      CodesAreDisjoint(e.code.value);
      assert HasSqlStateShape(e.code.value) <==> IsSqlState(e.code.value);
    }
  }

  /** A server error that speaks of a terminated connection under another SQLSTATE. */
  predicate HidesConnectionLoss(e: Thrown) {
    && e.Thrown? && e.code.Some? && HasSqlStateShape(e.code.value)
    && e.code.value !in ShutdownCodes && e.code.value != DEADLOCK
    && e.message.Some? && SaysTerminated(e.message.value)
  }

  /**
   * The two classifications agree on untagged errors except in two ways: a deadlock is transient
   * without being a connection error, and a hidden loss is a connection error without being transient.
   */
  lemma WhereClassificationsDiffer(e: Thrown)
    requires e.Thrown? && e.tag.None?
    ensures IsConnectionError(e) && ClassifyError(e) != Transient <==> HidesConnectionLoss(e)
    ensures ClassifyError(e) == Transient && !IsConnectionError(e) <==>
              e.code == Some(DEADLOCK) && !(e.message.Some? && SaysTerminated(e.message.value))
  {
    if e.code.Some? {
      CodesAreDisjoint(e.code.value);
    }
  }

  lemma CodesAreDisjoint(code: string)
    ensures code in ShutdownCodes ==> HasSqlStateShape(code) && code != DEADLOCK
    ensures code in ConnectionCodes ==> !HasSqlStateShape(code) && code != DEADLOCK
    ensures HasSqlStateShape(DEADLOCK)
  {
    if code in ConnectionCodes {
      assert |code| != 5;
    }
  }
}
