/**
 * Governed evidence (packages/evidence): structural validation of a submitted batch, content
 * hashes over canonical text, and the rows handed to the insert-only snapshot store.
 */
module GovernedEvidence {
  import opened Prelude
  import opened LoopModel
  import Json = CanonicalJson
  import Utf16Text

  datatype Versions = Versions(decisionRecordVersion: int, invariantVersion: int, canonicalVersion: int)

  datatype RawRef = NotARef | RawRef(kind: string, reference: Option<string>)
  datatype RawSequence = NoSequence | SequenceNotInteger | RawSequence(n: int)
  datatype RawHash = NoHash | HashNotText | RawHash(text: string)
  datatype RawLineage = NoLineage | LineageNotArray | LineageRefs(refs: seq<RawRef>)

  /**
   * One entry of a submitted batch, before validation. A required string is `None` when it is
   * anything else; `values` is a plain object when it is `Obj`. An optional field is absent, of
   * another type, or what it should be.
   */
  datatype RawSnapshot =
    | NotAnObject
    | RawSnapshot(
        snapshotKey: Option<string>,
        sourceSystem: Option<string>,
        capturedAt: Option<string>,
        capturedBy: Option<string>,
        values: Json.Value,
        versions: Option<Versions>,
        lineage: RawLineage,
        sequence: RawSequence,
        contentSha256: RawHash)

  /** What the caller passed as evidence snapshots. */
  datatype Batch = NotAnArray | Batch(snapshots: seq<RawSnapshot>)

  datatype RejectionReason = EvidenceRequired | InvalidEvidenceSnapshot | SnapshotStoreRequired

  /** The host's date parser and SHA-256, as functions; whether a snapshot store is configured. */
  datatype Host = Host(parsesAsDate: string -> bool, sha256: Utf16Text.Text -> string, hasSnapshotStore: bool)

  predicate NonEmpty(field: Option<string>) {
    field.Some? && !Blank(field.value)
  }

  predicate IsSha256Hex(s: string) {
    |s| == 64 && forall i | 0 <= i < 64 :: '0' <= s[i] <= '9' || 'a' <= s[i] <= 'f'
  }

  predicate RefOk(r: RawRef) {
    r.RawRef? && (r.kind == "source" || r.kind == "derived-input") && NonEmpty(r.reference)
  }

  predicate LineageOk(l: RawLineage) {
    match l
    case NoLineage => true
    case LineageNotArray => false
    case LineageRefs(refs) => forall i | 0 <= i < |refs| :: RefOk(refs[i])
  }

  /** A structurally complete snapshot. */
  predicate SnapshotOk(host: Host, s: RawSnapshot) {
    && s.RawSnapshot?
    && NonEmpty(s.snapshotKey) && NonEmpty(s.sourceSystem) && NonEmpty(s.capturedAt) && NonEmpty(s.capturedBy)
    && host.parsesAsDate(s.capturedAt.value)
    && s.values.Obj?
    && s.versions == Some(Versions(1, 1, 1))
    && LineageOk(s.lineage)
    && (s.sequence.NoSequence? || (s.sequence.RawSequence? && s.sequence.n >= 0))
    && (s.contentSha256.NoHash? || (s.contentSha256.RawHash? && IsSha256Hex(s.contentSha256.text)))
  }

  ghost predicate DistinctKeys(snapshots: seq<RawSnapshot>) {
    forall i, j | 0 <= i < j < |snapshots| ::
      snapshots[i].RawSnapshot? && snapshots[j].RawSnapshot? && NonEmpty(snapshots[i].snapshotKey) ==>
        snapshots[i].snapshotKey != snapshots[j].snapshotKey
  }

  /** Every snapshot is complete and no key occurs twice. */
  ghost predicate BatchOk(host: Host, snapshots: seq<RawSnapshot>) {
    (forall i | 0 <= i < |snapshots| :: SnapshotOk(host, snapshots[i])) && DistinctKeys(snapshots)
  }

  /** Text of which something is left once the white space at its ends is cut. */
  ghost predicate Said(field: Option<string>) {
    field.Some? && Trim(field.value) != ""
  }

  /** What a snapshot must bring, field by field; the optional fields may be missing. */
  ghost predicate Complete(host: Host, s: RawSnapshot) {
    match s
    case NotAnObject => false
    case RawSnapshot(key, sourceSystem, capturedAt, capturedBy, values, versions, lineage, sequence, hash) =>
      && Said(key) && Said(sourceSystem) && Said(capturedAt) && Said(capturedBy)
      && host.parsesAsDate(capturedAt.value)
      && values.Obj?
      && versions == Some(Versions(1, 1, 1))
      && lineage != LineageNotArray
      && (lineage.LineageRefs? ==>
            forall r | r in lineage.refs :: r.RawRef? && r.kind in {"source", "derived-input"} && Said(r.reference))
      && sequence != SequenceNotInteger && (sequence.RawSequence? ==> 0 <= sequence.n)
      && hash != HashNotText
      && (hash.RawHash? ==> |hash.text| == 64 && forall c | c in hash.text :: c in "0123456789abcdef")
  }

  lemma SaidIsNonEmpty(field: Option<string>)
    ensures NonEmpty(field) <==> Said(field)
  {
    if field.Some? {
      TrimIsMiddle(field.value);
    }
  }

  lemma HexDigits(s: string)
    ensures IsSha256Hex(s) <==> |s| == 64 && forall c | c in s :: c in "0123456789abcdef"
  {
    forall i | 0 <= i < |s|
      ensures '0' <= s[i] <= '9' || 'a' <= s[i] <= 'f' <==> s[i] in "0123456789abcdef"
    {
      HexDigit(s[i]);
    }
    forall c | c in s
      ensures exists i :: 0 <= i < |s| && s[i] == c
    {
    }
  }

  lemma HexDigit(c: char)
    ensures '0' <= c <= '9' || 'a' <= c <= 'f' <==> c in "0123456789abcdef"
  {
    var digits := "0123456789abcdef";
    assert forall k | 0 <= k < 10 :: digits[k] as int == 48 + k;
    assert forall k | 10 <= k < 16 :: digits[k] as int == 87 + k;
    if '0' <= c <= '9' {
      assert digits[c as int - 48] == c;
    } else if 'a' <= c <= 'f' {
      assert digits[c as int - 87] == c;
    }
  }

  lemma CompleteIsOk(host: Host, s: RawSnapshot)
    ensures SnapshotOk(host, s) <==> Complete(host, s)
  {
    if s.RawSnapshot? {
      SaidIsNonEmpty(s.snapshotKey);
      SaidIsNonEmpty(s.sourceSystem);
      SaidIsNonEmpty(s.capturedAt);
      SaidIsNonEmpty(s.capturedBy);
      if s.lineage.LineageRefs? {
        forall i | 0 <= i < |s.lineage.refs|
          ensures s.lineage.refs[i].RawRef? ==> (NonEmpty(s.lineage.refs[i].reference) <==> Said(s.lineage.refs[i].reference))
        {
          if s.lineage.refs[i].RawRef? {
            SaidIsNonEmpty(s.lineage.refs[i].reference);
          }
        }
      }
      if s.contentSha256.RawHash? {
        HexDigits(s.contentSha256.text);
      }
    }
  }

  /** Every snapshot is complete, and no two have the same key. */
  ghost predicate CompleteBatch(host: Host, snapshots: seq<RawSnapshot>) {
    && (forall s | s in snapshots :: Complete(host, s))
    && forall i, j | 0 <= i < j < |snapshots| && snapshots[i].RawSnapshot? && snapshots[j].RawSnapshot? ::
         snapshots[i].snapshotKey != snapshots[j].snapshotKey
  }

  lemma CompleteBatchIsOk(host: Host, snapshots: seq<RawSnapshot>)
    ensures BatchOk(host, snapshots) <==> CompleteBatch(host, snapshots)
  {
    forall i | 0 <= i < |snapshots|
      ensures SnapshotOk(host, snapshots[i]) <==> Complete(host, snapshots[i])
    {
      CompleteIsOk(host, snapshots[i]);
    }
  }

  /** Counts what is wrong with a batch: incomplete snapshots and repeated keys. */
  method ValidateCommitBatch(host: Host, snapshots: seq<RawSnapshot>) returns (errors: nat)
    ensures errors == 0 <==> BatchOk(host, snapshots)
    ensures errors == 0 <==> CompleteBatch(host, snapshots)
  {
    CompleteBatchIsOk(host, snapshots);
    errors := 0;
    var keys: set<string> := {};
    for i := 0 to |snapshots|
      invariant forall k :: k in keys <==>
        exists j :: 0 <= j < i && snapshots[j].RawSnapshot? && NonEmpty(snapshots[j].snapshotKey) && snapshots[j].snapshotKey.value == k
      invariant errors == 0 <==>
        (forall j | 0 <= j < i :: SnapshotOk(host, snapshots[j])) && DistinctKeys(snapshots[..i])
    {
      var s := snapshots[i];
      if !SnapshotOk(host, s) {
        errors := errors + 1;
      }
      if s.RawSnapshot? && NonEmpty(s.snapshotKey) {
        if s.snapshotKey.value in keys {
          errors := errors + 1;
          var j :| 0 <= j < i && snapshots[j].RawSnapshot? && NonEmpty(snapshots[j].snapshotKey) && snapshots[j].snapshotKey.value == s.snapshotKey.value;
          assert snapshots[..i + 1][j] == snapshots[j] && snapshots[..i + 1][i] == s;
        } else {
          keys := keys + {s.snapshotKey.value};
        }
      }
      assert forall j | 0 <= j < i :: snapshots[..i + 1][j] == snapshots[..i][j];
    }
    assert snapshots[..|snapshots|] == snapshots;
  }

  // ---------------------------------------------------------------- the commit

  /** The values have a canonical text, and a hash sent along is the hash of that text. */
  ghost predicate HashOk(host: Host, s: RawSnapshot)
    requires s.RawSnapshot?
  {
    && Json.Accepted(s.values)
    && (s.contentSha256.NoHash? || s.contentSha256 == RawHash(host.sha256(Json.Serialize(s.values))))
  }

  datatype CommitResult = Committed(snapshotIds: seq<string>, rows: seq<SnapshotRow>) | Declined(reason: RejectionReason)

  function RowOf(host: Host, tenantId: string, aggregateId: AggregateId, s: RawSnapshot, id: string): SnapshotRow
    requires s.RawSnapshot? && s.snapshotKey.Some?
  {
    SnapshotRow(tenantId, aggregateId, id, s.snapshotKey.value, s.values, host.sha256(Json.Serialize(s.values)))
  }

  ghost predicate HashesOk(host: Host, snapshots: seq<RawSnapshot>) {
    forall i | 0 <= i < |snapshots| :: snapshots[i].RawSnapshot? && HashOk(host, snapshots[i])
  }

  /** Why a batch is declined, if it is. */
  ghost function Verdict(host: Host, batch: Batch): Option<RejectionReason> {
    if batch.NotAnArray? || batch.snapshots == [] then Some(EvidenceRequired)
    else if !BatchOk(host, batch.snapshots) || !HashesOk(host, batch.snapshots) then Some(InvalidEvidenceSnapshot)
    else if !host.hasSnapshotStore then Some(SnapshotStoreRequired)
    else None
  }

  /**
   * A batch that can be stored: not empty, complete, with values that have a canonical text and
   * with no hash but the hash of that text, and with a store to keep it in.
   */
  ghost predicate Storable(host: Host, batch: Batch) {
    && batch.Batch? && |batch.snapshots| > 0
    && CompleteBatch(host, batch.snapshots)
    && (forall s | s in batch.snapshots && s.RawSnapshot? ::
          Json.Accepted(s.values) && (s.contentSha256.RawHash? ==> s.contentSha256.text == host.sha256(Json.Serialize(s.values))))
    && host.hasSnapshotStore
  }

  /** A batch is stored exactly when it can be; which of the reasons is given otherwise. */
  lemma VerdictMeans(host: Host, batch: Batch)
    ensures Verdict(host, batch).None? <==> Storable(host, batch)
    ensures Verdict(host, batch) == Some(EvidenceRequired) <==> batch == NotAnArray || batch == Batch([])
    ensures Verdict(host, batch) == Some(SnapshotStoreRequired) <==>
      !host.hasSnapshotStore && Storable(host.(hasSnapshotStore := true), batch)
  {
    if batch.Batch? && batch.snapshots != [] {
      CompleteBatchIsOk(host, batch.snapshots);
      CompleteBatchIsOk(host.(hasSnapshotStore := true), batch.snapshots);
      forall i | 0 <= i < |batch.snapshots|
        ensures var s := batch.snapshots[i];
          Complete(host, s) ==>
            (HashOk(host, s) <==>
              Json.Accepted(s.values) && (s.contentSha256.RawHash? ==> s.contentSha256.text == host.sha256(Json.Serialize(s.values))))
      {
      }
    }
  }

  function FirstIds(freshId: nat -> string, n: nat): (ids: seq<string>)
    ensures |ids| == n
    ensures forall i | 0 <= i < n :: ids[i] == freshId(i)
  {
    if n == 0 then [] else FirstIds(freshId, n - 1) + [freshId(n - 1)]
  }

  predicate Keyed(snapshots: seq<RawSnapshot>) {
    forall i | 0 <= i < |snapshots| :: snapshots[i].RawSnapshot? && snapshots[i].snapshotKey.Some?
  }

  function RowsOf(host: Host, tenantId: string, aggregateId: AggregateId, snapshots: seq<RawSnapshot>, freshId: nat -> string): (rows: seq<SnapshotRow>)
    requires Keyed(snapshots)
    ensures |rows| == |snapshots|
    ensures forall i | 0 <= i < |rows| :: rows[i] == RowOf(host, tenantId, aggregateId, snapshots[i], freshId(i))
  {
    if snapshots == [] then []
    else
      RowsOf(host, tenantId, aggregateId, Front(snapshots), freshId)
      + [RowOf(host, tenantId, aggregateId, Last(snapshots), freshId(|snapshots| - 1))]
  }

  /** Validation, hashing and the rows to insert; ids come from the host's generator. */
  ghost function Commit(host: Host, tenantId: string, aggregateId: AggregateId, batch: Batch, freshId: nat -> string): CommitResult
  {
    match Verdict(host, batch)
    case Some(reason) => Declined(reason)
    case None =>
      assert forall i | 0 <= i < |batch.snapshots| :: SnapshotOk(host, batch.snapshots[i]);
      Committed(FirstIds(freshId, |batch.snapshots|), RowsOf(host, tenantId, aggregateId, batch.snapshots, freshId))
  }

  /** The hash of a snapshot's values, unless they have no canonical text or another hash was sent along. */
  method HashOne(host: Host, s: RawSnapshot) returns (contentSha256: Option<string>)
    requires s.RawSnapshot?
    ensures contentSha256.Some? <==> HashOk(host, s)
    ensures contentSha256.Some? ==> contentSha256.value == host.sha256(Json.Serialize(s.values))
  {
    var canonical := Json.Canonicalize(s.values);
    if canonical.Refused? {
      return None;
    }
    var hash := host.sha256(canonical.text);
    if !s.contentSha256.NoHash? && s.contentSha256 != RawHash(hash) {
      return None;
    }
    return Some(hash);
  }

  /** Canonicalizes and hashes the snapshots in order, and stops at the first that does not pass. */
  method HashAll(host: Host, tenantId: string, aggregateId: AggregateId, snapshots: seq<RawSnapshot>, freshId: nat -> string)
    returns (ok: bool, ids: seq<string>, rows: seq<SnapshotRow>)
    requires Keyed(snapshots)
    ensures ok <==> HashesOk(host, snapshots)
    ensures ok ==> ids == FirstIds(freshId, |snapshots|)
    ensures ok ==> rows == RowsOf(host, tenantId, aggregateId, snapshots, freshId)
  {
    ids, rows := [], [];
    for i := 0 to |snapshots|
      invariant HashesOk(host, snapshots[..i])
      invariant ids == FirstIds(freshId, i)
      invariant rows == RowsOf(host, tenantId, aggregateId, snapshots[..i], freshId)
    {
      var s := snapshots[i];
      var hash := HashOne(host, s);
      HashesNext(host, snapshots, i);
      if hash.None? {
        return false, [], [];
      }
      RowsNext(host, tenantId, aggregateId, snapshots, freshId, i);
      ids := ids + [freshId(i)];
      rows := rows + [SnapshotRow(tenantId, aggregateId, freshId(i), s.snapshotKey.value, s.values, hash.value)];
    }
    assert snapshots[..|snapshots|] == snapshots;
    return true, ids, rows;
  }

  lemma HashesNext(host: Host, snapshots: seq<RawSnapshot>, i: nat)
    requires i < |snapshots| && snapshots[i].RawSnapshot? && HashesOk(host, snapshots[..i])
    ensures HashesOk(host, snapshots[..i + 1]) <==> HashOk(host, snapshots[i])
    ensures !HashOk(host, snapshots[i]) ==> !HashesOk(host, snapshots)
  {
    var longer := snapshots[..i + 1];
    assert longer[i] == snapshots[i];
    assert forall j | 0 <= j < i :: longer[j] == snapshots[..i][j];
  }

  lemma RowsNext(host: Host, tenantId: string, aggregateId: AggregateId, snapshots: seq<RawSnapshot>, freshId: nat -> string, i: nat)
    requires i < |snapshots| && Keyed(snapshots)
    ensures RowsOf(host, tenantId, aggregateId, snapshots[..i + 1], freshId)
         == RowsOf(host, tenantId, aggregateId, snapshots[..i], freshId) + [RowOf(host, tenantId, aggregateId, snapshots[i], freshId(i))]
  {
    assert Front(snapshots[..i + 1]) == snapshots[..i] && Last(snapshots[..i + 1]) == snapshots[i];
  }

  method CommitSnapshots(host: Host, tenantId: string, aggregateId: AggregateId, batch: Batch, freshId: nat -> string)
    returns (r: CommitResult)
    ensures r == Commit(host, tenantId, aggregateId, batch, freshId)
    ensures r.Committed? <==> Storable(host, batch)
    ensures r == Declined(EvidenceRequired) <==> batch == NotAnArray || batch == Batch([])
    ensures r == Declined(SnapshotStoreRequired) <==>
      !host.hasSnapshotStore && Storable(host.(hasSnapshotStore := true), batch)
  {
    VerdictMeans(host, batch);
    if batch.NotAnArray? || batch.snapshots == [] {
      return Declined(EvidenceRequired);
    }
    var errors := ValidateCommitBatch(host, batch.snapshots);
    if errors != 0 {
      return Declined(InvalidEvidenceSnapshot);
    }
    assert forall i | 0 <= i < |batch.snapshots| :: SnapshotOk(host, batch.snapshots[i]);
    var ok, ids, rows := HashAll(host, tenantId, aggregateId, batch.snapshots, freshId);
    if !ok {
      return Declined(InvalidEvidenceSnapshot);
    }
    if !host.hasSnapshotStore {
      return Declined(SnapshotStoreRequired);
    }
    return Committed(ids, rows);
  }

  /** What a stored row promises: its hash is the hash of the canonical text of its own values. */
  ghost predicate RowHonest(host: Host, row: SnapshotRow) {
    Json.Accepted(row.values) && row.contentSha256 == host.sha256(Json.Serialize(row.values))
  }

  ghost predicate RowsAreBatch(host: Host, rows: seq<SnapshotRow>, ids: seq<string>) {
    && rows != []
    && |ids| == |rows|
    && (forall i | 0 <= i < |rows| :: RowHonest(host, rows[i]) && rows[i].id == ids[i])
    && (forall i, j | 0 <= i < j < |rows| :: rows[i].snapshotKey != rows[j].snapshotKey)
  }

  /** The row holds the k-th snapshot, hashed, under the k-th id. */
  ghost predicate HoldsSnapshot(host: Host, row: SnapshotRow, s: RawSnapshot, aggregateId: AggregateId, freshId: nat -> string, k: nat) {
    && s.RawSnapshot?
    && row.aggregateId == aggregateId && row.id == freshId(k)
    && s.snapshotKey == Some(row.snapshotKey) && row.values == s.values
    && Json.Accepted(s.values) && row.contentSha256 == host.sha256(Json.Serialize(s.values))
    && (s.contentSha256.RawHash? ==> s.contentSha256.text == row.contentSha256)
  }

  /** A committed batch is made of honest rows with distinct keys, one for each snapshot in order, and the ids are theirs. */
  lemma CommittedRows(host: Host, tenantId: string, aggregateId: AggregateId, batch: Batch, freshId: nat -> string)
    requires Commit(host, tenantId, aggregateId, batch, freshId).Committed?
    ensures var r := Commit(host, tenantId, aggregateId, batch, freshId);
      && RowsAreBatch(host, r.rows, r.snapshotIds)
      && |r.rows| == |batch.snapshots|
      && forall k | 0 <= k < |r.rows| ::
           r.rows[k].tenantId == tenantId && HoldsSnapshot(host, r.rows[k], batch.snapshots[k], aggregateId, freshId, k)
  {
    var r := Commit(host, tenantId, aggregateId, batch, freshId);
    assert batch.Batch?;
    forall i | 0 <= i < |r.rows|
      ensures RowHonest(host, r.rows[i]) && r.rows[i].id == r.snapshotIds[i]
      ensures HoldsSnapshot(host, r.rows[i], batch.snapshots[i], aggregateId, freshId, i)
      ensures r.rows[i].snapshotKey == batch.snapshots[i].snapshotKey.value
    {
      assert HashOk(host, batch.snapshots[i]);
    }
  }
}
