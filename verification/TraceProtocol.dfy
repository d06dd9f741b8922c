/**
 * How trace records get their sequence numbers (packages/runtime-core: trace-repository.ts and
 * oss-traced-loop-system.ts). Any number of writers allocate a number, insert their record under
 * it, and try again when another writer was faster. Each database transaction is one step.
 */
module TraceProtocol {
  import opened Prelude
  import opened Traces
  import opened StableOrder
  import opened TraceSequence

  // ---------------------------------------------------------------- the database

  datatype RunKey = RunKey(tenantId: string, loopRunId: string)

  function KeyOf(r: TraceRecord): RunKey {
    RunKey(r.tenantId, r.loopRunId)
  }

  /** The trace records in the order in which they were committed, and the run summaries. */
  datatype Database = Database(rows: seq<TraceRecord>, summaries: map<RunKey, RunSummary>)

  /** The rows of one run. */
  function Table(rows: seq<TraceRecord>, key: RunKey): seq<TraceRecord> {
    if rows == [] then [] else Table(Front(rows), key) + if KeyOf(Last(rows)) == key then [Last(rows)] else []
  }

  lemma TableSnoc(rows: seq<TraceRecord>, r: TraceRecord, key: RunKey)
    ensures Table(rows + [r], key) == Table(rows, key) + if KeyOf(r) == key then [r] else []
  {
    FrontLastSnoc(rows, r);
  }

  function Greatest(rs: seq<TraceRecord>): int
    requires rs != []
  {
    if |rs| == 1 || Greatest(Front(rs)) < Last(rs).sequence then Last(rs).sequence else Greatest(Front(rs))
  }

  /** One more than the greatest sequence number stored, and 0 for an empty run. */
  function NextSequence(rs: seq<TraceRecord>): int {
    if rs == [] then 0 else Greatest(rs) + 1
  }

  lemma {:induction false} NextIsFree(rs: seq<TraceRecord>)
    ensures forall i | 0 <= i < |rs| :: rs[i].sequence < NextSequence(rs)
  {
    if |rs| > 1 {
      NextIsFree(Front(rs));
    }
  }

  lemma {:induction false} NextOfNumbered(rs: seq<TraceRecord>)
    requires Numbered(rs, |rs|)
    ensures NextSequence(rs) == |rs|
  {
    if |rs| > 1 {
      NextOfNumbered(Front(rs));
    }
  }

  predicate IdTaken(rows: seq<TraceRecord>, r: TraceRecord) {
    exists i :: 0 <= i < |rows| && rows[i].id == r.id
  }

  predicate SequenceTaken(rows: seq<TraceRecord>, r: TraceRecord) {
    exists i :: 0 <= i < |rows| && KeyOf(rows[i]) == KeyOf(r) && rows[i].sequence == r.sequence
  }

  datatype InsertResult = Inserted | IdConflict | SequenceConflict

  function NextSummary(existing: Option<RunSummary>, r: TraceRecord): RunSummary {
    var isTerminal := r.kind.LoopTerminal?;
    match existing
    case None =>
      RunSummary(r.tenantId, r.loopRunId, r.loopId, r.timestamp, if isTerminal then Some(r.timestamp) else None,
                 if isTerminal then r.toState else None, 1, if r.blocked then 1 else 0, r.governed)
    case Some(s) =>
      var updated := s.(stepCount := s.stepCount + 1, blockedCount := s.blockedCount + (if r.blocked then 1 else 0),
                        governed := s.governed || r.governed);
      if isTerminal then updated.(completedAt := Some(r.timestamp), terminalState := r.toState) else updated
  }

  function SummaryAt(db: Database, key: RunKey): Option<RunSummary> {
    if key in db.summaries then Some(db.summaries[key]) else None
  }

  /** The insert transaction: nothing on a conflict, otherwise the row and the summary together. */
  function InsertResultOf(db: Database, r: TraceRecord): InsertResult {
    if IdTaken(db.rows, r) then IdConflict else if SequenceTaken(db.rows, r) then SequenceConflict else Inserted
  }

  function AfterInsert(db: Database, r: TraceRecord): Database {
    if InsertResultOf(db, r) != Inserted then db
    else Database(db.rows + [r], db.summaries[KeyOf(r) := NextSummary(SummaryAt(db, KeyOf(r)), r)])
  }

  /** A record goes in exactly when no row has its id, and no row of its tenant and run its number. */
  lemma InsertResultMeans(db: Database, r: TraceRecord)
    ensures InsertResultOf(db, r) == IdConflict <==> exists row :: row in db.rows && row.id == r.id
    ensures InsertResultOf(db, r) == Inserted <==>
      forall row | row in db.rows :: row.id != r.id &&
        !(row.tenantId == r.tenantId && row.loopRunId == r.loopRunId && row.sequence == r.sequence)
    ensures AfterInsert(db, r).rows == if InsertResultOf(db, r) == Inserted then db.rows + [r] else db.rows
  {
    if row :| row in db.rows && row.id == r.id {
      var i :| 0 <= i < |db.rows| && db.rows[i] == row;
    }
    if IdTaken(db.rows, r) {
      var i :| 0 <= i < |db.rows| && db.rows[i].id == r.id;
      assert db.rows[i] in db.rows;
    } else if SequenceTaken(db.rows, r) {
      var i :| 0 <= i < |db.rows| && KeyOf(db.rows[i]) == KeyOf(r) && db.rows[i].sequence == r.sequence;
      assert db.rows[i] in db.rows;
    } else {
      forall row | row in db.rows
        ensures row.id != r.id && !(row.tenantId == r.tenantId && row.loopRunId == r.loopRunId && row.sequence == r.sequence)
      {
        var i :| 0 <= i < |db.rows| && db.rows[i] == row;
      }
    }
  }

  /** The number to allocate: 0 for an empty run, otherwise one more than the greatest of its rows. */
  lemma {:induction false} NextMeans(rs: seq<TraceRecord>)
    ensures rs == [] ==> NextSequence(rs) == 0
    ensures rs != [] ==> exists r :: r in rs && r.sequence == NextSequence(rs) - 1
    ensures forall r | r in rs :: r.sequence <= NextSequence(rs) - 1
  {
    if rs != [] {
      NextMeans(Front(rs));
      FrontLast(rs);
      assert forall r | r in rs :: r in Front(rs) || r == Last(rs);
      assert Last(rs) in rs;
      if |rs| > 1 {
        var r :| r in Front(rs) && r.sequence == NextSequence(Front(rs)) - 1;
        assert r in rs;
      }
    }
  }

  // ---------------------------------------------------------------- the writers

  /** A write: its record, to be numbered, and the process that makes it. */
  datatype Job = Job(record: TraceRecord, process: nat)

  /** The writes: any number of them. */
  datatype Jobs = Jobs(job: nat -> Job)

  const MAX_ATTEMPTS := 3

  datatype Phase =
    | Idle
    | Ready(sequence: int, attempt: nat)
    | Racing(attempt: nat)
    | Acknowledged
    | GaveUp
    | Failed

  /** The counters that a process falls back on, one for each run. */
  datatype Counter = Counter(process: nat, loopRunId: string)

  datatype State = State(db: Database, phases: map<nat, Phase>, counters: map<Counter, nat>)

  const EMPTY := State(Database([], map[]), map[], map[])

  function PhaseOf(s: State, w: nat): Phase {
    if w in s.phases then s.phases[w] else Idle
  }

  function CounterOf(s: State, c: Counter): nat {
    if c in s.counters then s.counters[c] else 0
  }

  function Numbering(job: Job, sequence: int): TraceRecord {
    job.record.(sequence := sequence)
  }

  /** A lost answer leaves the insert committed; a refused one leaves nothing. */
  datatype Answer = Received | Lost | Refused

  /** A writer that takes no further step has crashed. */
  datatype Event =
    | Allocate(writer: nat)
    | AllocationFails(writer: nat)
    | Insert(writer: nat, answer: Answer)

  function FallbackCounter(jobs: Jobs, w: nat): Counter {
    Counter(jobs.job(w).process, jobs.job(w).record.loopRunId)
  }

  /** What a writer does when its insert is answered. */
  function Answered(result: InsertResult, attempt: nat): Phase {
    match result
    case Inserted => Acknowledged
    case IdConflict => Failed
    case SequenceConflict => if attempt + 1 >= MAX_ATTEMPTS then GaveUp else Racing(attempt + 1)
  }

  function Step(jobs: Jobs, s: State, e: Event): State {
    var w := e.writer;
    var phase := PhaseOf(s, w);
    match e
    case Allocate(_) =>
      if phase.Idle? || phase.Racing? then
        var n := NextSequence(Table(s.db.rows, KeyOf(jobs.job(w).record)));
        s.(phases := s.phases[w := Ready(n, if phase.Racing? then phase.attempt else 0)])
      else s
    case AllocationFails(_) =>
      if phase.Idle? then
        var c := FallbackCounter(jobs, w);
        var n := CounterOf(s, c);
        s.(phases := s.phases[w := Ready(n, 0)], counters := s.counters[c := n + 1])
      else if phase.Racing? then s.(phases := s.phases[w := Failed])
      else s
    case Insert(_, answer) =>
      if phase.Ready? then
        var r := Numbering(jobs.job(w), phase.sequence);
        var next := if answer.Received? then Answered(InsertResultOf(s.db, r), phase.attempt) else Failed;
        s.(db := if answer.Refused? then s.db else AfterInsert(s.db, r), phases := s.phases[w := next])
      else s
  }

  function Run(jobs: Jobs, events: seq<Event>): State {
    RunFrom(jobs, EMPTY, events)
  }

  function RunFrom(jobs: Jobs, s: State, events: seq<Event>): State {
    if events == [] then s else Step(jobs, RunFrom(jobs, s, Front(events)), Last(events))
  }

  /** What a step does to the rows and the summaries: nothing, or one insert that met no conflict. */
  lemma StepInserts(jobs: Jobs, s: State, e: Event)
    ensures var s' := Step(jobs, s, e);
      || s'.db == s.db
      || (&& e.Insert? && PhaseOf(s, e.writer).Ready?
          && var r := Numbering(jobs.job(e.writer), PhaseOf(s, e.writer).sequence);
             InsertResultOf(s.db, r) == Inserted && s'.db == AfterInsert(s.db, r))
  {
  }

  lemma StepTable(jobs: Jobs, s: State, e: Event, key: RunKey)
    ensures var t, t' := Table(s.db.rows, key), Table(Step(jobs, s, e).db.rows, key);
      || t' == t
      || (&& e.Insert? && PhaseOf(s, e.writer).Ready?
          && var r := Numbering(jobs.job(e.writer), PhaseOf(s, e.writer).sequence);
             InsertResultOf(s.db, r) == Inserted && KeyOf(r) == key && t' == t + [r])
  {
    StepInserts(jobs, s, e);
    var phase := PhaseOf(s, e.writer);
    if phase.Ready? {
      FrontLastSnoc(s.db.rows, Numbering(jobs.job(e.writer), phase.sequence));
    }
  }

  lemma {:induction false} TableRows(rows: seq<TraceRecord>, key: RunKey)
    ensures forall i | 0 <= i < |Table(rows, key)| :: KeyOf(Table(rows, key)[i]) == key && Table(rows, key)[i] in rows
    ensures forall r | r in rows && KeyOf(r) == key :: r in Table(rows, key)
    ensures forall r :: r in Table(rows, key) <==> r in rows && r.tenantId == key.tenantId && r.loopRunId == key.loopRunId
  {
    if rows != [] {
      TableRows(Front(rows), key);
      FrontLast(rows);
      assert forall r | r in rows :: r in Front(rows) || r == Last(rows);
      assert forall r | r in Front(rows) :: r in rows;
    }
  }

  // ---------------------------------------------------------------- what every step keeps

  ghost predicate DistinctIds(rows: seq<TraceRecord>) {
    forall i, j | 0 <= i < j < |rows| :: rows[i].id != rows[j].id
  }

  ghost predicate DistinctNumbers(rows: seq<TraceRecord>) {
    forall i, j | 0 <= i < j < |rows| && rows[i].tenantId == rows[j].tenantId && rows[i].loopRunId == rows[j].loopRunId ::
      rows[i].sequence != rows[j].sequence
  }

  lemma InsertKeepsUnique(db: Database, r: TraceRecord)
    requires DistinctIds(db.rows) && DistinctNumbers(db.rows)
    ensures DistinctIds(AfterInsert(db, r).rows) && DistinctNumbers(AfterInsert(db, r).rows)
  {
  }

  /** The summary of a run tells the rows of the run. */
  ghost predicate Summarised(db: Database, key: RunKey) {
    var t := Table(db.rows, key);
    if t == [] then key !in db.summaries
    else
      && key in db.summaries
      && Counts(db.summaries[key], t)
      && db.summaries[key].tenantId == key.tenantId && db.summaries[key].loopRunId == key.loopRunId
      && db.summaries[key].loopId == t[0].loopId
  }

  lemma CountsOne(r: TraceRecord)
    ensures Counts(NextSummary(None, r), [r])
  {
    var rs := [r];
    assert Front(rs) == [] && rs[0] == r && Blocked(Front(rs)) == 0;
    assert r.kind.LoopTerminal? ==> LastTerminal(rs, 0);
  }

  lemma InsertKeepsSummary(db: Database, r: TraceRecord, key: RunKey)
    requires Summarised(db, key)
    ensures Summarised(AfterInsert(db, r), key)
  {
    FrontLastSnoc(db.rows, r);
    var t := Table(db.rows, key);
    var db' := AfterInsert(db, r);
    if db' == db {
    } else if KeyOf(r) != key {
      assert Table(db'.rows, key) == t;
    } else if t == [] {
      CountsOne(r);
      assert Table(db'.rows, key) == [r];
      assert SummaryAt(db, key).None?;
    } else {
      CountsNext(db.summaries[key], t, r, NextSummary(SummaryAt(db, key), r));
      assert Table(db'.rows, key) == t + [r] && (t + [r])[0] == t[0];
    }
  }

  /**
   * In every run, whatever fails and whoever is fastest, ids are unique, sequence numbers are
   * unique within a run, and the summary of a run counts its rows.
   */
  lemma {:induction false} AlwaysUniqueAndSummarised(jobs: Jobs, events: seq<Event>, key: RunKey)
    ensures var db := Run(jobs, events).db;
      DistinctIds(db.rows) && DistinctNumbers(db.rows) && Summarised(db, key)
  {
    if events != [] {
      var s, e := Run(jobs, Front(events)), Last(events);
      AlwaysUniqueAndSummarised(jobs, Front(events), key);
      StepInserts(jobs, s, e);
      if Step(jobs, s, e).db != s.db {
        var r := Numbering(jobs.job(e.writer), PhaseOf(s, e.writer).sequence);
        InsertKeepsUnique(s.db, r);
        InsertKeepsSummary(s.db, r, key);
      }
    }
  }

  // ---------------------------------------------------------------- no gaps

  /** The rows of the run are numbered 0, 1, 2, … in the order in which they were committed. */
  ghost predicate Gapless(rows: seq<TraceRecord>, key: RunKey) {
    Numbered(Table(rows, key), |Table(rows, key)|)
  }

  /** From a gapless table, an insert that meets no conflict keeps it gapless exactly when its number is not ahead. */
  lemma InsertKeepsGapless(db: Database, r: TraceRecord)
    requires Gapless(db.rows, KeyOf(r)) && InsertResultOf(db, r) == Inserted && r.sequence >= 0
    ensures Gapless(AfterInsert(db, r).rows, KeyOf(r)) <==> r.sequence <= |Table(db.rows, KeyOf(r))|
  {
    var key := KeyOf(r);
    var t := Table(db.rows, key);
    FrontLastSnoc(db.rows, r);
    var t' := Table(AfterInsert(db, r).rows, key);
    assert t' == t + [r];
    if r.sequence < |t| {
      LowNumberIsTaken(db, r);
    }
    assert t'[|t|] == r;
    assert forall i | 0 <= i < |t| :: t'[i] == t[i];
  }

  lemma LowNumberIsTaken(db: Database, r: TraceRecord)
    requires Gapless(db.rows, KeyOf(r)) && 0 <= r.sequence < |Table(db.rows, KeyOf(r))|
    ensures SequenceTaken(db.rows, r)
  {
    TableRows(db.rows, KeyOf(r));
    var row := Table(db.rows, KeyOf(r))[r.sequence];
    var i :| 0 <= i < |db.rows| && db.rows[i] == row;
  }

  /** A number that is in use does not run ahead of the rows of its run. */
  ghost predicate InStep(jobs: Jobs, s: State, w: nat) {
    PhaseOf(s, w).Ready? ==> 0 <= PhaseOf(s, w).sequence <= |Table(s.db.rows, KeyOf(jobs.job(w).record))|
  }

  /** The database allocates, or the counter that stands in for it is not ahead of the rows of the run. */
  ghost predicate Tame(jobs: Jobs, s: State, e: Event) {
    e.AllocationFails? && PhaseOf(s, e.writer).Idle? ==>
      CounterOf(s, FallbackCounter(jobs, e.writer)) <= |Table(s.db.rows, KeyOf(jobs.job(e.writer).record))|
  }

  ghost predicate TameRun(jobs: Jobs, events: seq<Event>) {
    events == [] || (TameRun(jobs, Front(events)) && Tame(jobs, Run(jobs, Front(events)), Last(events)))
  }

  ghost predicate AllInStep(jobs: Jobs, s: State) {
    (forall key :: Gapless(s.db.rows, key)) && (forall w: nat :: InStep(jobs, s, w))
  }

  lemma StepKeepsGapless(jobs: Jobs, s: State, e: Event, key: RunKey)
    requires AllInStep(jobs, s)
    ensures Gapless(Step(jobs, s, e).db.rows, key)
  {
    StepTable(jobs, s, e, key);
    assert Gapless(s.db.rows, key);
    if Table(Step(jobs, s, e).db.rows, key) != Table(s.db.rows, key) {
      var r := Numbering(jobs.job(e.writer), PhaseOf(s, e.writer).sequence);
      assert InStep(jobs, s, e.writer);
      InsertKeepsGapless(s.db, r);
      StepInserts(jobs, s, e);
    }
  }

  lemma StepKeepsInStep(jobs: Jobs, s: State, e: Event, w: nat)
    requires AllInStep(jobs, s) && Tame(jobs, s, e)
    ensures InStep(jobs, Step(jobs, s, e), w)
  {
    var key := KeyOf(jobs.job(w).record);
    StepTable(jobs, s, e, key);
    assert InStep(jobs, s, w);
    assert Gapless(s.db.rows, key);
    NextOfNumbered(Table(s.db.rows, key));
  }

  lemma {:induction false} AlwaysInStep(jobs: Jobs, events: seq<Event>)
    requires TameRun(jobs, events)
    ensures AllInStep(jobs, Run(jobs, events))
  {
    if events != [] {
      var s, e := Run(jobs, Front(events)), Last(events);
      AlwaysInStep(jobs, Front(events));
      forall key
        ensures Gapless(Step(jobs, s, e).db.rows, key)
      {
        StepKeepsGapless(jobs, s, e, key);
      }
      forall w: nat
        ensures InStep(jobs, Step(jobs, s, e), w)
      {
        StepKeepsInStep(jobs, s, e, w);
      }
    }
  }

  /**
   * Under every interleaving of any number of writers, retries, crashes and lost answers, the
   * rows of each run are numbered 0, …, n-1 in commit order, so that the read side accepts the
   * trace it is given; as long as allocation does not fall back on a counter that is ahead.
   */
  lemma EveryTraceIsAccepted(jobs: Jobs, events: seq<Event>, key: RunKey)
    requires TameRun(jobs, events)
    ensures var t := Table(Run(jobs, events).db.rows, key);
      Numbered(t, |t|) && Complete(t) && Complete(StableSort(t))
  {
    AlwaysInStep(jobs, events);
    var t := Table(Run(jobs, events).db.rows, key);
    assert Gapless(Run(jobs, events).db.rows, key);
    NumberedIsComplete(t);
    SortIsStable(t);
    SortedCounts(t);
  }

  /** In particular when no allocation fails. */
  lemma {:induction false} NoFailureIsTame(jobs: Jobs, events: seq<Event>)
    requires forall e | e in events :: !e.AllocationFails?
    ensures TameRun(jobs, events)
  {
    if events != [] {
      FrontLast(events);
      assert forall e | e in Front(events) :: e in events;
      assert Last(events) in events;
      NoFailureIsTame(jobs, Front(events));
    }
  }

  /** Two writes of one process to one run. */
  const TWO_JOBS := Jobs((w: nat) => SmallJob(w))

  function SmallJob(w: nat): Job {
    Job(TraceRecord(if w == 0 then "a" else "b", "run", "loop", "tenant", 0, 0, TransitionCompleted, None, None, None, false, false), 0)
  }

  /** The counter has moved on and the table is empty. */
  lemma FallbackRun()
    ensures Run(TWO_JOBS, [AllocationFails(0), Insert(0, Refused), AllocationFails(1)])
         == State(EMPTY.db, map[0 := Failed, 1 := Ready(1, 0)], map[Counter(0, "run") := 2])
  {
    var c := Counter(0, "run");
    var e1, e2, e3 := AllocationFails(0), Insert(0, Refused), AllocationFails(1);
    assert [] + [e1] == [e1] && [e1] + [e2] == [e1, e2] && [e1, e2] + [e3] == [e1, e2, e3];
    RunSnoc(TWO_JOBS, [], e1);
    assert Run(TWO_JOBS, [e1]) == State(EMPTY.db, map[0 := Ready(0, 0)], map[c := 1]);
    RunSnoc(TWO_JOBS, [e1], e2);
    assert Run(TWO_JOBS, [e1, e2]) == State(EMPTY.db, map[0 := Failed], map[c := 1]);
    RunSnoc(TWO_JOBS, [e1, e2], e3);
  }

  /**
   * The fallback can leave a gap: a process whose two allocations fail, and whose first insert
   * does not get through, stores number 1 in an empty run.
   */
  lemma FallbackLeavesGap()
    ensures var events := [AllocationFails(0), Insert(0, Refused), AllocationFails(1), Insert(1, Received)];
      var t := Table(Run(TWO_JOBS, events).db.rows, RunKey("tenant", "run"));
      |t| == 1 && t[0].sequence == 1 && !Complete(t)
  {
    var before := [AllocationFails(0), Insert(0, Refused), AllocationFails(1)];
    var last := Insert(1, Received);
    var r := Numbering(TWO_JOBS.job(1), 1);
    FallbackRun();
    RunSnoc(TWO_JOBS, before, last);
    assert before + [last] == [AllocationFails(0), Insert(0, Refused), AllocationFails(1), last];
    assert Run(TWO_JOBS, before + [last]).db.rows == [] + [r];
    TableSnoc([], r, RunKey("tenant", "run"));
    assert [] + [r] == [r];
    CountNone([r], 0);
  }

  lemma RunSnoc(jobs: Jobs, events: seq<Event>, e: Event)
    ensures Run(jobs, events + [e]) == Step(jobs, Run(jobs, events), e)
  {
    FrontLastSnoc(events, e);
  }
}
