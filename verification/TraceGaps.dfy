/** When exactly the stored traces are accepted, failed allocations and all. */
module TraceGaps {
  import opened Prelude
  import opened Traces
  import opened TraceSequence
  import opened TraceProtocol

  // ---------------------------------------------------------------- numbers are not negative

  ghost predicate NoneNegative(rs: seq<TraceRecord>) {
    forall i | 0 <= i < |rs| :: rs[i].sequence >= 0
  }

  lemma {:induction false} NextNotNegative(rs: seq<TraceRecord>)
    requires NoneNegative(rs)
    ensures NextSequence(rs) >= 0
  {
    if rs != [] {
      NextIsFree(rs);
    }
  }

  ghost predicate NumbersOk(s: State) {
    NoneNegative(s.db.rows) && forall w: nat :: PhaseOf(s, w).Ready? ==> PhaseOf(s, w).sequence >= 0
  }

  lemma StepNumbers(jobs: Jobs, s: State, e: Event)
    requires NumbersOk(s)
    ensures NumbersOk(Step(jobs, s, e))
  {
    var key := KeyOf(jobs.job(e.writer).record);
    StepInserts(jobs, s, e);
    TableRows(s.db.rows, key);
    NextNotNegative(Table(s.db.rows, key));
    forall w: nat
      ensures PhaseOf(Step(jobs, s, e), w).Ready? ==> PhaseOf(Step(jobs, s, e), w).sequence >= 0
    {
      assert PhaseOf(s, w).Ready? ==> PhaseOf(s, w).sequence >= 0;
    }
  }

  lemma {:induction false} AlwaysNumbersOk(jobs: Jobs, events: seq<Event>)
    ensures NumbersOk(Run(jobs, events))
  {
    if events != [] {
      AlwaysNumbersOk(jobs, Front(events));
      StepNumbers(jobs, Run(jobs, Front(events)), Last(events));
    }
  }

  // ---------------------------------------------------------------- one insert

  /** An insert that commits a row of the run under a number that is ahead of its rows. */
  ghost predicate RunsAhead(jobs: Jobs, s: State, e: Event, key: RunKey) {
    && e.Insert?
    && PhaseOf(s, e.writer).Ready?
    && Step(jobs, s, e).db != s.db
    && KeyOf(jobs.job(e.writer).record) == key
    && PhaseOf(s, e.writer).sequence > |Table(s.db.rows, key)|
  }

  lemma AheadIsIncomplete(t: seq<TraceRecord>, r: TraceRecord)
    requires Numbered(t, |t|) && r.sequence > |t|
    ensures !Complete(t + [r])
  {
    var t' := t + [r];
    forall i | 0 <= i < |t'|
      ensures t'[i].sequence != |t|
    {
      assert t'[i] == if i < |t| then t[i] else r;
    }
    CountNone(t', |t|);
  }

  /** From a gapless run, a step leads to a trace that is accepted exactly if it does not run ahead. */
  lemma StepAccepted(jobs: Jobs, s: State, e: Event, key: RunKey)
    requires NumbersOk(s) && Gapless(s.db.rows, key)
    ensures Gapless(Step(jobs, s, e).db.rows, key) <==> !RunsAhead(jobs, s, e, key)
    ensures Complete(Table(Step(jobs, s, e).db.rows, key)) <==> !RunsAhead(jobs, s, e, key)
  {
    var t, t' := Table(s.db.rows, key), Table(Step(jobs, s, e).db.rows, key);
    StepTable(jobs, s, e, key);
    if t' == t {
      NumberedIsComplete(t);
      AheadGrows(jobs, s, e, key);
    } else {
      var r := Numbering(jobs.job(e.writer), PhaseOf(s, e.writer).sequence);
      StepInserts(jobs, s, e);
      InsertKeepsGapless(s.db, r);
      if r.sequence <= |t| {
        NumberedIsComplete(t');
      } else {
        AheadIsIncomplete(t, r);
      }
    }
  }

  lemma AheadGrows(jobs: Jobs, s: State, e: Event, key: RunKey)
    requires Table(Step(jobs, s, e).db.rows, key) == Table(s.db.rows, key)
    ensures !RunsAhead(jobs, s, e, key)
  {
    StepInserts(jobs, s, e);
    if e.Insert? && PhaseOf(s, e.writer).Ready? {
      TableSnoc(s.db.rows, Numbering(jobs.job(e.writer), PhaseOf(s, e.writer).sequence), key);
    }
  }

  // ---------------------------------------------------------------- a whole run

  ghost predicate AcceptedAfter(jobs: Jobs, events: seq<Event>, k: nat, key: RunKey)
    requires k <= |events|
  {
    Complete(Table(Run(jobs, events[..k]).db.rows, key))
  }

  ghost predicate AheadAt(jobs: Jobs, events: seq<Event>, k: nat, key: RunKey)
    requires k < |events|
  {
    RunsAhead(jobs, Run(jobs, events[..k]), events[k], key)
  }

  /** The read side accepts the trace of the run after every step. */
  ghost predicate AlwaysAccepted(jobs: Jobs, events: seq<Event>, key: RunKey) {
    forall k | 0 <= k <= |events| :: AcceptedAfter(jobs, events, k, key)
  }

  ghost predicate NeverAhead(jobs: Jobs, events: seq<Event>, key: RunKey) {
    forall k | 0 <= k < |events| :: !AheadAt(jobs, events, k, key)
  }

  lemma FrontAfter(jobs: Jobs, events: seq<Event>, k: nat, key: RunKey)
    requires k < |events|
    ensures AcceptedAfter(jobs, events, k, key) <==> AcceptedAfter(jobs, Front(events), k, key)
    ensures k < |events| - 1 ==> (AheadAt(jobs, events, k, key) <==> AheadAt(jobs, Front(events), k, key))
    ensures k == |events| - 1 ==> (AheadAt(jobs, events, k, key) <==> RunsAhead(jobs, Run(jobs, Front(events)), Last(events), key))
  {
    assert events[..k] == Front(events)[..k];
    assert k == |events| - 1 ==> events[..k] == Front(events);
  }

  lemma FrontAccepted(jobs: Jobs, events: seq<Event>, key: RunKey)
    requires events != []
    ensures AlwaysAccepted(jobs, events, key) <==> AlwaysAccepted(jobs, Front(events), key) && AcceptedAfter(jobs, events, |events|, key)
  {
    forall k | 0 <= k < |events|
      ensures AcceptedAfter(jobs, events, k, key) <==> AcceptedAfter(jobs, Front(events), k, key)
    {
      FrontAfter(jobs, events, k, key);
    }
  }

  lemma FrontAhead(jobs: Jobs, events: seq<Event>, key: RunKey)
    requires events != []
    ensures NeverAhead(jobs, events, key) <==>
      NeverAhead(jobs, Front(events), key) && !RunsAhead(jobs, Run(jobs, Front(events)), Last(events), key)
  {
    FrontAfter(jobs, events, |events| - 1, key);
    forall k | 0 <= k < |events| - 1
      ensures AheadAt(jobs, events, k, key) <==> AheadAt(jobs, Front(events), k, key)
    {
      FrontAfter(jobs, events, k, key);
    }
  }

  /**
   * In every run, with any failed allocations, the read side accepts the trace after every step
   * if and only if no insert commits a number that is ahead of the rows of its run.
   */
  lemma {:induction false} AcceptedExactly(jobs: Jobs, events: seq<Event>, key: RunKey)
    ensures AlwaysAccepted(jobs, events, key) <==> NeverAhead(jobs, events, key)
    ensures NeverAhead(jobs, events, key) ==> Gapless(Run(jobs, events).db.rows, key)
  {
    if events == [] {
      assert events[..0] == [] && Table([], key) == [];
      NumberedIsComplete([]);
    } else {
      AcceptedExactly(jobs, Front(events), key);
      FrontAccepted(jobs, events, key);
      FrontAhead(jobs, events, key);
      if NeverAhead(jobs, Front(events), key) {
        assert events[..|events|] == events;
        AlwaysNumbersOk(jobs, Front(events));
        StepAccepted(jobs, Run(jobs, Front(events)), Last(events), key);
      }
    }
  }
}
