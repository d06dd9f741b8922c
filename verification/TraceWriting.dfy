/** The trace repository (packages/runtime-core/src/trace-repository.ts), which performs the protocol step by step. */
module TraceWriting {
  import opened Prelude
  import opened Traces
  import opened TraceProtocol

  /** The repository, with what every other write in flight is doing. */
  class TraceRepository {
    var rows: seq<TraceRecord>
    var summaries: map<RunKey, RunSummary>
    var phases: map<nat, Phase>
    var counters: map<Counter, nat>

    function Now(): State
      reads this
    {
      State(Database(rows, summaries), phases, counters)
    }

    constructor ()
      ensures Now() == EMPTY
    {
      rows, summaries, phases, counters := [], map[], map[], map[];
    }

    /** The aggregate query of the allocation transaction. */
    method AllocateNextSequence(key: RunKey) returns (n: int)
      ensures n == NextSequence(Table(rows, key))
      ensures forall r | r in rows && r.tenantId == key.tenantId && r.loopRunId == key.loopRunId :: r.sequence < n
      ensures n == 0 || exists r :: r in rows && r.tenantId == key.tenantId && r.loopRunId == key.loopRunId && r.sequence == n - 1
    {
      var greatest: Option<int> := None;
      for i := 0 to |rows|
        invariant greatest == GreatestIn(Table(rows[..i], key))
      {
        assert rows[..i + 1] == rows[..i] + [rows[i]];
        GreatestNext(rows[..i], rows[i], key);
        if KeyOf(rows[i]) == key && (greatest.None? || greatest.value < rows[i].sequence) {
          greatest := Some(rows[i].sequence);
        }
      }
      assert rows[..|rows|] == rows;
      TableRows(rows, key);
      NextMeans(Table(rows, key));
      n := (if greatest.Some? then greatest.value else -1) + 1;
    }

    method PersistTraceWithSummaryOnce(input: TraceRecord) returns (r: InsertResult)
      modifies this`rows, this`summaries
      ensures r == InsertResultOf(old(Now()).db, input)
      ensures Database(rows, summaries) == AfterInsert(old(Now()).db, input)
      ensures rows == if r == Inserted then old(rows) + [input] else old(rows)
      ensures r == IdConflict <==> exists row :: row in old(rows) && row.id == input.id
      ensures r == Inserted ==> forall row | row in old(rows) ::
        !(row.tenantId == input.tenantId && row.loopRunId == input.loopRunId && row.sequence == input.sequence)
    {
      InsertResultMeans(Now().db, input);
      if IdTaken(rows, input) {
        return IdConflict;
      }
      if SequenceTaken(rows, input) {
        return SequenceConflict;
      }
      rows := rows + [input];
      var key := KeyOf(input);
      var isTerminal := input.kind.LoopTerminal?;
      if key !in summaries {
        summaries := summaries[key := RunSummary(
          input.tenantId, input.loopRunId, input.loopId, input.timestamp, if isTerminal then Some(input.timestamp) else None,
          if isTerminal then input.toState else None, 1, if input.blocked then 1 else 0, input.governed)];
        return Inserted;
      }
      var existing := summaries[key];
      var updated := existing.(
        stepCount := existing.stepCount + 1,
        blockedCount := existing.blockedCount + (if input.blocked then 1 else 0),
        governed := existing.governed || input.governed);
      if isTerminal {
        updated := updated.(completedAt := Some(input.timestamp), terminalState := input.toState);
      }
      summaries := summaries[key := updated];
      return Inserted;
    }

    /** Other writers take their steps. */
    method Elsewhere(jobs: Jobs, events: seq<Event>)
      modifies this
      ensures Now() == RunFrom(jobs, old(Now()), events)
    {
      var s := RunFrom(jobs, Now(), events);
      rows, summaries, phases, counters := s.db.rows, s.db.summaries, s.phases, s.counters;
    }

    /** One attempt to insert, after some steps of others; no result when its answer does not come. */
    method Attempt(jobs: Jobs, w: nat, input: TraceRecord, attempt: nat, others: seq<Event>, answer: Answer)
      returns (r: Option<InsertResult>)
      requires PhaseOf(Now(), w) == Ready(input.sequence, attempt) && input == Numbering(jobs.job(w), input.sequence)
      requires NotBy(others, w)
      modifies this
      ensures Now() == RunFrom(jobs, RunFrom(jobs, old(Now()), others), [Insert(w, answer)])
      ensures r.Some? <==> answer.Received?
      ensures PhaseOf(Now(), w) == if r.Some? then Answered(r.value, attempt) else Failed
      ensures PhaseOf(RunFrom(jobs, old(Now()), others), w) == Ready(input.sequence, attempt)
      ensures r.Some? ==> rows == RunFrom(jobs, old(Now()), others).db.rows + if r.value == Inserted then [input] else []
      ensures r == Some(IdConflict) ==> exists row :: row in rows && row.id == input.id
    {
      Elsewhere(jobs, others);
      OthersKeepPhase(jobs, old(Now()), others, w);
      OneStep(jobs, Now(), Insert(w, answer));
      if answer.Refused? {
        phases := phases[w := Failed];
        return None;
      }
      var result := PersistTraceWithSummaryOnce(input);
      phases := phases[w := if answer.Received? then Answered(result, attempt) else Failed];
      r := if answer.Received? then Some(result) else None;
    }

    /** A new number for the next attempt, after some steps of others; none when the allocation fails. */
    method Reallocate(jobs: Jobs, w: nat, input: TraceRecord, attempt: nat, others: seq<Event>, allocates: bool) returns (n: Option<int>)
      requires PhaseOf(Now(), w) == Racing(attempt) && input == Numbering(jobs.job(w), input.sequence)
      requires NotBy(others, w)
      modifies this
      ensures Now() == RunFrom(jobs, RunFrom(jobs, old(Now()), others), [if allocates then Allocate(w) else AllocationFails(w)])
      ensures n.Some? <==> allocates
      ensures PhaseOf(Now(), w) == if n.Some? then Ready(n.value, attempt) else Failed
    {
      Elsewhere(jobs, others);
      OthersKeepPhase(jobs, old(Now()), others, w);
      OneStep(jobs, Now(), if allocates then Allocate(w) else AllocationFails(w));
      if !allocates {
        phases := phases[w := Failed];
        return None;
      }
      var next := AllocateNextSequence(KeyOf(input));
      phases := phases[w := Ready(next, attempt)];
      n := Some(next);
    }

    /** The attempt as part of a schedule that has committed nothing so far. */
    method InsertRound(jobs: Jobs, w: nat, input: TraceRecord, attempt: nat, round: Round, ghost start: State, ghost schedule: seq<Event>)
      returns (r: Option<InsertResult>, ghost longer: seq<Event>)
      requires PhaseOf(Now(), w) == Ready(input.sequence, attempt) && input == Numbering(jobs.job(w), input.sequence)
      requires NotBy(round.beforeInsert, w)
      requires Now() == RunFrom(jobs, start, schedule)
      requires OwnCommits(jobs, start, schedule, w) == 0 && InsertsBy(schedule, w) == attempt
      modifies this
      ensures Now() == RunFrom(jobs, start, longer)
      ensures InsertsBy(longer, w) == attempt + 1
      ensures r.Some? <==> round.answer.Received?
      ensures PhaseOf(Now(), w) == if r.Some? then Answered(r.value, attempt) else Failed
      ensures r == Some(Inserted) ==> CommittedLast(jobs, start, longer, w, rows) && input in rows
      ensures r.Some? ==> OwnCommits(jobs, start, longer, w) == if r.value == Inserted then 1 else 0
      ensures r == Some(IdConflict) ==> exists row :: row in rows && row.id == input.id
    {
      ghost var insert := Insert(w, round.answer);
      ScheduleGrows(jobs, start, schedule, round.beforeInsert, insert, w);
      r := Attempt(jobs, w, input, attempt, round.beforeInsert, round.answer);
      longer := schedule + round.beforeInsert + [insert];
      assert r == Some(Inserted) ==> rows[|rows| - 1] == input;
    }

    /** The allocation as part of such a schedule. */
    method AllocationRound(jobs: Jobs, w: nat, input: TraceRecord, attempt: nat, round: Round, ghost start: State, ghost schedule: seq<Event>)
      returns (n: Option<int>, ghost longer: seq<Event>)
      requires PhaseOf(Now(), w) == Racing(attempt) && input == Numbering(jobs.job(w), input.sequence)
      requires NotBy(round.beforeAllocation, w)
      requires Now() == RunFrom(jobs, start, schedule)
      requires OwnCommits(jobs, start, schedule, w) == 0 && InsertsBy(schedule, w) == attempt
      modifies this
      ensures Now() == RunFrom(jobs, start, longer)
      ensures OwnCommits(jobs, start, longer, w) == 0 && InsertsBy(longer, w) == attempt
      ensures n.Some? <==> round.allocates
      ensures PhaseOf(Now(), w) == if n.Some? then Ready(n.value, attempt) else Failed
    {
      ghost var allocation := if round.allocates then Allocate(w) else AllocationFails(w);
      ScheduleGrows(jobs, start, schedule, round.beforeAllocation, allocation, w);
      OneStep(jobs, RunFrom(jobs, RunFrom(jobs, start, schedule), round.beforeAllocation), allocation);
      n := Reallocate(jobs, w, input, attempt, round.beforeAllocation, round.allocates);
      longer := schedule + round.beforeAllocation + [allocation];
    }

    /**
     * The retry loop of one writer, while others take any steps before each of its transactions.
     * It performs the writer's own steps of the protocol. It answers well only when its last step
     * has committed the record, under the number of that attempt; and when every answer came and
     * it does not answer well, it has committed nothing.
     */
    method PersistTraceWithSummary(jobs: Jobs, w: nat, input: TraceRecord, rounds: seq<Round>)
      returns (ok: bool, ghost schedule: seq<Event>)
      requires PhaseOf(Now(), w) == Ready(input.sequence, 0) && input == Numbering(jobs.job(w), input.sequence)
      requires |rounds| == MAX_ATTEMPTS
      requires forall k | 0 <= k < |rounds| :: NotBy(rounds[k].beforeInsert, w) && NotBy(rounds[k].beforeAllocation, w)
      modifies this
      ensures Now() == RunFrom(jobs, old(Now()), schedule)
      ensures ok <==> PhaseOf(Now(), w).Acknowledged?
      ensures !ok ==> PhaseOf(Now(), w).GaveUp? || PhaseOf(Now(), w).Failed?
      ensures ok ==> CommittedLast(jobs, old(Now()), schedule, w, rows)
      ensures ok ==> exists n :: jobs.job(w).record.(sequence := n) in rows
      ensures ok ==> OwnCommits(jobs, old(Now()), schedule, w) == 1
      ensures !ok && (forall round | round in rounds :: round.answer.Received?) ==> OwnCommits(jobs, old(Now()), schedule, w) == 0
      ensures InsertsBy(schedule, w) <= 3 && (PhaseOf(Now(), w).GaveUp? ==> InsertsBy(schedule, w) == 3)
      ensures PhaseOf(Now(), w).Failed? && (forall round | round in rounds :: round.answer.Received? && round.allocates) ==>
        exists row :: row in rows && row.id == input.id
    {
      schedule := [];
      var input := input;
      for attempt := 0 to MAX_ATTEMPTS
        invariant PhaseOf(Now(), w) == Ready(input.sequence, attempt)
        invariant attempt < MAX_ATTEMPTS
        invariant input == Numbering(jobs.job(w), input.sequence)
        invariant Now() == RunFrom(jobs, old(Now()), schedule)
        invariant OwnCommits(jobs, old(Now()), schedule, w) == 0 && InsertsBy(schedule, w) == attempt
      {
        assert rounds[attempt] in rounds;
        var r;
        r, schedule := InsertRound(jobs, w, input, attempt, rounds[attempt], old(Now()), schedule);
        if r == Some(Inserted) {
          assert input == jobs.job(w).record.(sequence := input.sequence);
          return true, schedule;
        }
        if r != Some(SequenceConflict) || attempt == MAX_ATTEMPTS - 1 {
          return false, schedule;
        }
        var n;
        n, schedule := AllocationRound(jobs, w, input, attempt + 1, rounds[attempt], old(Now()), schedule);
        if n.None? {
          return false, schedule;
        }
        input := input.(sequence := n.value);
      }
      return false, schedule;
    }
  }

  /** What happens around one attempt: steps of others, how its insert is answered, and whether it gets a new number. */
  datatype Round = Round(beforeInsert: seq<Event>, answer: Answer, beforeAllocation: seq<Event>, allocates: bool)

  /** The last step is an insert of the writer that was answered and has put its record, with its number, behind the rows. */
  ghost predicate CommittedLast(jobs: Jobs, s: State, schedule: seq<Event>, w: nat, rows: seq<TraceRecord>) {
    && schedule != [] && Last(schedule) == Insert(w, Received)
    && var before := RunFrom(jobs, s, Front(schedule));
    && PhaseOf(before, w).Ready?
    && rows == before.db.rows + [jobs.job(w).record.(sequence := PhaseOf(before, w).sequence)]
  }

  /** How many steps of the writer have added a row. */
  function OwnCommits(jobs: Jobs, s: State, schedule: seq<Event>, w: nat): nat {
    if schedule == [] then 0
    else
      var before := RunFrom(jobs, s, Front(schedule));
      OwnCommits(jobs, s, Front(schedule), w)
      + if Last(schedule).writer == w && Step(jobs, before, Last(schedule)).db.rows != before.db.rows then 1 else 0
  }

  function InsertsBy(schedule: seq<Event>, w: nat): nat {
    if schedule == [] then 0
    else InsertsBy(Front(schedule), w) + if Last(schedule).Insert? && Last(schedule).writer == w then 1 else 0
  }

  lemma OneStep(jobs: Jobs, s: State, e: Event)
    ensures RunFrom(jobs, s, [e]) == Step(jobs, s, e)
  {
    assert Front([e]) == [];
  }

  lemma {:induction false} OthersCountNothing(jobs: Jobs, s: State, schedule: seq<Event>, others: seq<Event>, w: nat)
    requires NotBy(others, w)
    ensures OwnCommits(jobs, s, schedule + others, w) == OwnCommits(jobs, s, schedule, w)
    ensures InsertsBy(schedule + others, w) == InsertsBy(schedule, w)
  {
    if others == [] {
      assert schedule + others == schedule;
    } else {
      OthersCountNothing(jobs, s, schedule, Front(others), w);
      FrontLast(others);
      Assoc(schedule, Front(others), [Last(others)]);
      FrontLastSnoc(schedule + Front(others), Last(others));
    }
  }

  /** A schedule with some steps of others and one of the writer's own behind it. */
  lemma ScheduleGrows(jobs: Jobs, s: State, schedule: seq<Event>, others: seq<Event>, own: Event, w: nat)
    requires NotBy(others, w) && own.writer == w
    ensures var before := RunFrom(jobs, RunFrom(jobs, s, schedule), others);
      var longer := schedule + others + [own];
      && Last(longer) == own && RunFrom(jobs, s, Front(longer)) == before
      && RunFrom(jobs, s, longer) == RunFrom(jobs, before, [own])
      && OwnCommits(jobs, s, longer, w) ==
           OwnCommits(jobs, s, schedule, w) + (if RunFrom(jobs, before, [own]).db.rows != before.db.rows then 1 else 0)
      && InsertsBy(longer, w) == InsertsBy(schedule, w) + if own.Insert? then 1 else 0
  {
    var before := RunFrom(jobs, RunFrom(jobs, s, schedule), others);
    RunFromAppend(jobs, s, schedule, others);
    OthersCountNothing(jobs, s, schedule, others, w);
    FrontLastSnoc(schedule + others, own);
    OneStep(jobs, before, own);
  }

  function GreatestIn(rs: seq<TraceRecord>): Option<int> {
    if rs == [] then None else Some(Greatest(rs))
  }

  lemma GreatestNext(rows: seq<TraceRecord>, r: TraceRecord, key: RunKey)
    ensures var before := GreatestIn(Table(rows, key));
      GreatestIn(Table(rows + [r], key)) ==
        if KeyOf(r) == key && (before.None? || before.value < r.sequence) then Some(r.sequence) else before
  {
    var t := Table(rows, key);
    TableSnoc(rows, r, key);
    FrontLastSnoc(t, r);
    assert t + [] == t;
  }

  predicate NotBy(events: seq<Event>, w: nat) {
    forall i | 0 <= i < |events| :: events[i].writer != w
  }

  lemma {:induction false} OthersKeepPhase(jobs: Jobs, s: State, events: seq<Event>, w: nat)
    requires NotBy(events, w)
    ensures PhaseOf(RunFrom(jobs, s, events), w) == PhaseOf(s, w)
  {
    if events != [] {
      OthersKeepPhase(jobs, s, Front(events), w);
    }
  }

  lemma {:induction false} RunFromAppend(jobs: Jobs, s: State, first: seq<Event>, rest: seq<Event>)
    ensures RunFrom(jobs, s, first + rest) == RunFrom(jobs, RunFrom(jobs, s, first), rest)
  {
    if rest == [] {
      assert first + rest == first;
    } else {
      RunFromAppend(jobs, s, first, Front(rest));
      FrontLast(rest);
      Assoc(first, Front(rest), [Last(rest)]);
      FrontLastSnoc(first + Front(rest), Last(rest));
    }
  }
}
