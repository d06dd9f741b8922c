/** What the answer of a trace write rests on: rows committed, attempts made, and numbers counted. */
module TraceAnswers {
  import opened Prelude
  import opened Traces
  import opened TraceProtocol

  // ---------------------------------------------------------------- acknowledged

  function RowsAfter(jobs: Jobs, events: seq<Event>, k: nat): seq<TraceRecord>
    requires k <= |events|
  {
    Run(jobs, events[..k]).db.rows
  }

  /** The k-th step is an insert of the writer that is answered, and it commits the writer's record under some number. */
  ghost predicate CommitsAnswered(jobs: Jobs, events: seq<Event>, k: nat, w: nat) {
    && k < |events|
    && events[k] == Insert(w, Received)
    && exists n :: RowsAfter(jobs, events, k + 1) == RowsAfter(jobs, events, k) + [jobs.job(w).record.(sequence := n)]
  }

  /** The last step is an insert of the writer that commits and is answered. */
  ghost predicate CommitsNow(jobs: Jobs, s: State, e: Event, w: nat) {
    e == Insert(w, Received) && exists n :: Step(jobs, s, e).db.rows == s.db.rows + [jobs.job(w).record.(sequence := n)]
  }

  lemma StepAcknowledges(jobs: Jobs, s: State, e: Event, w: nat)
    ensures PhaseOf(Step(jobs, s, e), w).Acknowledged? <==> PhaseOf(s, w).Acknowledged? || CommitsNow(jobs, s, e, w)
  {
    StepInserts(jobs, s, e);
    var phase, rows, rows' := PhaseOf(s, w), s.db.rows, Step(jobs, s, e).db.rows;
    if e == Insert(w, Received) && phase.Ready? {
      InsertResultMeans(s.db, jobs.job(w).record.(sequence := phase.sequence));
      assert rows' == rows + [jobs.job(w).record.(sequence := phase.sequence)] || rows' == rows;
    }
    if CommitsNow(jobs, s, e, w) {
      assert |rows'| == |rows| + 1;
    }
  }

  lemma CommitsInFront(jobs: Jobs, events: seq<Event>, k: nat, w: nat)
    requires k < |events|
    ensures k < |events| - 1 ==> (CommitsAnswered(jobs, events, k, w) <==> CommitsAnswered(jobs, Front(events), k, w))
    ensures k == |events| - 1 ==>
      (CommitsAnswered(jobs, events, k, w) <==> CommitsNow(jobs, Run(jobs, Front(events)), Last(events), w))
  {
    if k < |events| - 1 {
      assert events[..k] == Front(events)[..k] && events[..k + 1] == Front(events)[..k + 1];
    } else {
      assert events[..k] == Front(events) && events[..k + 1] == events;
      assert Run(jobs, events) == Step(jobs, Run(jobs, Front(events)), Last(events));
    }
  }

  /** A write is acknowledged exactly when one of its inserts has committed its record and was answered. */
  lemma {:induction false} AcknowledgedExactly(jobs: Jobs, events: seq<Event>, w: nat)
    ensures PhaseOf(Run(jobs, events), w).Acknowledged? <==> exists k: nat :: CommitsAnswered(jobs, events, k, w)
  {
    if events != [] {
      AcknowledgedExactly(jobs, Front(events), w);
      StepAcknowledges(jobs, Run(jobs, Front(events)), Last(events), w);
      forall k: nat | k < |events|
        ensures CommitsAnswered(jobs, events, k, w) <==>
          if k < |events| - 1 then CommitsAnswered(jobs, Front(events), k, w)
          else CommitsNow(jobs, Run(jobs, Front(events)), Last(events), w)
      {
        CommitsInFront(jobs, events, k, w);
      }
      var last: nat := |events| - 1;
      assert CommitsNow(jobs, Run(jobs, Front(events)), Last(events), w) <==> CommitsAnswered(jobs, events, last, w);
      if k: nat :| CommitsAnswered(jobs, Front(events), k, w) {
        assert CommitsAnswered(jobs, events, k, w);
      }
      if k: nat :| CommitsAnswered(jobs, events, k, w) {
        assert k < |events|;
      }
    }
  }

  /** An insert whose answer is lost has stored its record unless it met a conflict; one that is refused has not. */
  lemma LostInsertIsStored(jobs: Jobs, events: seq<Event>, w: nat, sequence: int, attempt: nat, answer: Answer)
    requires PhaseOf(Run(jobs, events), w) == Ready(sequence, attempt)
    ensures var s, r := Run(jobs, events), jobs.job(w).record.(sequence := sequence);
      var s' := Step(jobs, s, Insert(w, answer));
      && s'.db.rows == s.db.rows + (if answer != Refused && InsertResultOf(s.db, r) == Inserted then [r] else [])
      && (answer != Received ==> PhaseOf(s', w) == Failed)
  {
    var s := Run(jobs, events);
    InsertResultMeans(s.db, jobs.job(w).record.(sequence := sequence));
  }

  // ---------------------------------------------------------------- attempts

  /** How many inserts a writer has made with a number in hand. */
  function Attempts(jobs: Jobs, events: seq<Event>, w: nat): nat {
    if events == [] then 0
    else
      var s := Run(jobs, Front(events));
      Attempts(jobs, Front(events), w) + if Last(events).Insert? && Last(events).writer == w && PhaseOf(s, w).Ready? then 1 else 0
  }

  /** A writer makes at most three attempts, and exactly three when it gives up. */
  lemma {:induction false} ThreeAttempts(jobs: Jobs, events: seq<Event>, w: nat)
    ensures Attempts(jobs, events, w) <= 3
    ensures match PhaseOf(Run(jobs, events), w)
      case Idle => Attempts(jobs, events, w) == 0
      case Ready(_, attempt) => attempt == Attempts(jobs, events, w) < 3
      case Racing(attempt) => attempt == Attempts(jobs, events, w) < 3
      case GaveUp => Attempts(jobs, events, w) == 3
      case _ => true
  {
    if events != [] {
      ThreeAttempts(jobs, Front(events), w);
    }
  }

  // ---------------------------------------------------------------- the counter that stands in

  /** How often a process has fallen back on its own number for a run. */
  function Fallbacks(jobs: Jobs, events: seq<Event>, process: nat, loopRunId: string): nat {
    if events == [] then 0
    else
      var s, e := Run(jobs, Front(events)), Last(events);
      var job := jobs.job(e.writer);
      Fallbacks(jobs, Front(events), process, loopRunId) +
      if e.AllocationFails? && PhaseOf(s, e.writer).Idle? && job.process == process && job.record.loopRunId == loopRunId then 1 else 0
  }

  lemma {:induction false} CounterCounts(jobs: Jobs, events: seq<Event>, process: nat, loopRunId: string)
    ensures CounterOf(Run(jobs, events), Counter(process, loopRunId)) == Fallbacks(jobs, events, process, loopRunId)
  {
    if events != [] {
      CounterCounts(jobs, Front(events), process, loopRunId);
    }
  }

  /**
   * The number that a write begins with: from the database one more than the greatest of its run,
   * and where that fails, how often its process has fallen back for that run before.
   */
  lemma FirstNumber(jobs: Jobs, events: seq<Event>, w: nat)
    requires PhaseOf(Run(jobs, events), w).Idle?
    ensures var r := jobs.job(w).record;
      PhaseOf(Run(jobs, events + [Allocate(w)]), w) ==
        Ready(NextSequence(Table(Run(jobs, events).db.rows, RunKey(r.tenantId, r.loopRunId))), 0)
    ensures PhaseOf(Run(jobs, events + [AllocationFails(w)]), w) ==
      Ready(Fallbacks(jobs, events, jobs.job(w).process, jobs.job(w).record.loopRunId), 0)
  {
    CounterCounts(jobs, events, jobs.job(w).process, jobs.job(w).record.loopRunId);
    RunSnoc(jobs, events, Allocate(w));
    RunSnoc(jobs, events, AllocationFails(w));
  }
}
