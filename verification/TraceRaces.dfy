/** When a trace writer gives up: only after others were faster, three of them or two. */
module TraceRaces {
  import opened Prelude
  import opened Traces
  import opened TraceProtocol

  /** The number is greater than those of the first `seen` rows, which are at least `base - slack + attempt`. */
  ghost predicate AllBelow(t: seq<TraceRecord>, base: nat, slack: nat, attempt: nat, seen: nat, sequence: int) {
    base - slack + attempt <= seen <= |t| && forall i | 0 <= i < seen :: t[i].sequence < sequence
  }

  /** How many conflicts a first number can have with rows that were there before: a counter's number with one. */
  function Slack(first: Event): nat {
    if first.AllocationFails? then 1 else 0
  }

  /** What has been committed since writer `w` got its first number, when the run had `base` rows. */
  ghost predicate Outrun(jobs: Jobs, s: State, w: nat, base: nat, slack: nat) {
    var t := Table(s.db.rows, KeyOf(jobs.job(w).record));
    match PhaseOf(s, w)
    case Idle => false
    case Ready(sequence, attempt) =>
      if attempt < slack then base <= |t| else exists seen: nat :: AllBelow(t, base, slack, attempt, seen, sequence)
    case Racing(attempt) => base - slack + attempt <= |t| && base <= |t| && attempt >= slack
    case GaveUp => base - slack + MAX_ATTEMPTS <= |t|
    case _ => true
  }

  lemma AllBelowGrows(t: seq<TraceRecord>, more: seq<TraceRecord>, base: nat, slack: nat, attempt: nat, seen: nat, sequence: int)
    requires AllBelow(t, base, slack, attempt, seen, sequence)
    ensures AllBelow(t + more, base, slack, attempt, seen, sequence)
  {
  }

  lemma OutrunByOther(jobs: Jobs, s: State, e: Event, w: nat, base: nat, slack: nat)
    requires slack <= 1 && Outrun(jobs, s, w, base, slack) && e.writer != w
    ensures Outrun(jobs, Step(jobs, s, e), w, base, slack)
  {
    var key := KeyOf(jobs.job(w).record);
    var t, t' := Table(s.db.rows, key), Table(Step(jobs, s, e).db.rows, key);
    StepTable(jobs, s, e, key);
    var phase := PhaseOf(s, w);
    assert PhaseOf(Step(jobs, s, e), w) == phase;
    assert t' == t + t'[|t|..];
    if phase.Ready? && phase.attempt >= slack {
      var seen: nat :| AllBelow(t, base, slack, phase.attempt, seen, phase.sequence);
      AllBelowGrows(t, t'[|t|..], base, slack, phase.attempt, seen, phase.sequence);
    }
  }

  lemma OutrunByOwn(jobs: Jobs, s: State, e: Event, w: nat, base: nat, slack: nat)
    requires slack <= 1 && Outrun(jobs, s, w, base, slack) && e.writer == w
    ensures Outrun(jobs, Step(jobs, s, e), w, base, slack)
  {
    var t := Table(s.db.rows, KeyOf(jobs.job(w).record));
    var s' := Step(jobs, s, e);
    var phase := PhaseOf(s, w);
    if e.Allocate? && phase.Racing? {
      NextIsFree(t);
      assert AllBelow(t, base, slack, phase.attempt, |t|, NextSequence(t));
      assert s'.db == s.db;
    } else if e.Insert? && phase.Ready? {
      var r := Numbering(jobs.job(w), phase.sequence);
      if phase.attempt >= slack && InsertResultOf(s.db, r) == SequenceConflict {
        var seen: nat :| AllBelow(t, base, slack, phase.attempt, seen, phase.sequence);
        ConflictIsNew(s.db, r, t);
        assert s'.db == s.db && |t| > seen;
      }
    } else {
      assert s' == s || PhaseOf(s', w).Failed?;
    }
  }

  /** A conflict comes from a row that is in the table of the run. */
  lemma ConflictIsNew(db: Database, r: TraceRecord, t: seq<TraceRecord>)
    requires SequenceTaken(db.rows, r) && t == Table(db.rows, KeyOf(r))
    ensures exists i :: 0 <= i < |t| && t[i].sequence == r.sequence
  {
    TableRows(db.rows, KeyOf(r));
    var k :| 0 <= k < |db.rows| && KeyOf(db.rows[k]) == KeyOf(r) && db.rows[k].sequence == r.sequence;
    assert db.rows[k] in t;
  }

  /** The writer gets its first number, from the database or from the counter that stands in for it. */
  ghost predicate StartsAt(jobs: Jobs, events: seq<Event>, i: nat, w: nat) {
    && i < |events|
    && (events[i] == Allocate(w) || events[i] == AllocationFails(w))
    && PhaseOf(Run(jobs, events[..i]), w).Idle?
  }

  function TableAt(jobs: Jobs, events: seq<Event>, w: nat): seq<TraceRecord> {
    Table(Run(jobs, events).db.rows, KeyOf(jobs.job(w).record))
  }

  lemma {:induction false} OutrunSince(jobs: Jobs, events: seq<Event>, i: nat, w: nat)
    requires StartsAt(jobs, events, i, w)
    ensures Outrun(jobs, Run(jobs, events), w, |TableAt(jobs, events[..i], w)|, Slack(events[i]))
    ensures TableAt(jobs, events[..i], w) <= TableAt(jobs, events, w)
  {
    var before := Front(events);
    if i == |events| - 1 {
      assert before == events[..i];
      var t := TableAt(jobs, before, w);
      OutrunFirst(jobs, Run(jobs, before), events[i], w);
      assert Run(jobs, events) == Step(jobs, Run(jobs, before), events[i]);
      assert TableAt(jobs, events, w) == t;
    } else {
      assert before[..i] == events[..i] && before[i] == events[i];
      OutrunSince(jobs, before, i, w);
      if Last(events).writer == w {
        OutrunByOwn(jobs, Run(jobs, before), Last(events), w, |TableAt(jobs, events[..i], w)|, Slack(events[i]));
      } else {
        OutrunByOther(jobs, Run(jobs, before), Last(events), w, |TableAt(jobs, events[..i], w)|, Slack(events[i]));
      }
      StepTable(jobs, Run(jobs, before), Last(events), KeyOf(jobs.job(w).record));
    }
  }

  lemma OutrunFirst(jobs: Jobs, s: State, first: Event, w: nat)
    requires PhaseOf(s, w).Idle? && (first == Allocate(w) || first == AllocationFails(w))
    ensures Outrun(jobs, Step(jobs, s, first), w, |Table(s.db.rows, KeyOf(jobs.job(w).record))|, Slack(first))
  {
    var t := Table(s.db.rows, KeyOf(jobs.job(w).record));
    NextIsFree(t);
    assert AllBelow(t, |t|, 0, 0, |t|, NextSequence(t));
  }

  lemma {:induction false} TableIdsDistinct(rows: seq<TraceRecord>, key: RunKey)
    requires DistinctIds(rows)
    ensures DistinctIds(Table(rows, key))
  {
    if rows != [] {
      TableIdsDistinct(Front(rows), key);
      TableRows(Front(rows), key);
    }
  }

  /**
   * A writer gives up only when other writes to its run, all different, committed between its
   * first number and its last attempt: at least three, or two if the first number was a counter's.
   */
  lemma GivesUpOnlyWhenOutrun(jobs: Jobs, events: seq<Event>, i: nat, w: nat)
    requires StartsAt(jobs, events, i, w)
    requires !PhaseOf(Run(jobs, events), w).GaveUp?
    requires PhaseOf(Step(jobs, Run(jobs, events), Insert(w, Received)), w).GaveUp?
    ensures var first, now := TableAt(jobs, events[..i], w), TableAt(jobs, events, w);
      && first <= now && |now| >= |first| + (if events[i].Allocate? then 3 else 2)
      && DistinctIds(now)
      && forall k | 0 <= k < |now| :: now[k].id != jobs.job(w).record.id
  {
    var s := Run(jobs, events);
    var key := KeyOf(jobs.job(w).record);
    OutrunSince(jobs, events, i, w);
    OutrunByOwn(jobs, s, Insert(w, Received), w, |TableAt(jobs, events[..i], w)|, Slack(events[i]));
    StepTable(jobs, s, Insert(w, Received), key);
    AlwaysUniqueAndSummarised(jobs, events, key);
    TableIdsDistinct(s.db.rows, key);
    TableRows(s.db.rows, key);
    assert !IdTaken(s.db.rows, Numbering(jobs.job(w), PhaseOf(s, w).sequence));
  }
}
