/**
 * The in-memory trace store (packages/observability/src/memory-trace-store.ts): it keeps the
 * records of every run in sequence order and a running summary, and compares runs.
 */
module TraceStore {
  import opened Prelude
  import opened Traces
  import opened StableOrder

  // ---------------------------------------------------------------- comparing two runs

  /** The first record with a sequence number. */
  function First(trace: seq<TraceRecord>, n: int): Option<TraceRecord> {
    var found := WithKey(trace, n);
    if found == [] then None else Some(found[0])
  }

  /** The record is the first with this number, or there is none. */
  ghost predicate IsFirst(trace: seq<TraceRecord>, n: int, found: Option<TraceRecord>) {
    match found
    case None => forall r | r in trace :: r.sequence != n
    case Some(r) => exists i :: 0 <= i < |trace| && trace[i] == r && r.sequence == n && forall k | 0 <= k < i :: trace[k].sequence != n
  }

  lemma FirstStays(trace: seq<TraceRecord>, n: int, r: TraceRecord)
    requires trace != [] && IsFirst(Front(trace), n, Some(r))
    ensures IsFirst(trace, n, Some(r))
  {
    var front := Front(trace);
    var i :| 0 <= i < |front| && front[i] == r && r.sequence == n && forall k | 0 <= k < i :: front[k].sequence != n;
    assert trace[i] == r && forall k | 0 <= k < i :: trace[k] == front[k];
  }

  lemma FirstAtLast(trace: seq<TraceRecord>, n: int)
    requires trace != [] && IsFirst(Front(trace), n, None)
    ensures IsFirst(trace, n, if Last(trace).sequence == n then Some(Last(trace)) else None)
  {
    var front := Front(trace);
    FrontLast(trace);
    assert forall k | 0 <= k < |front| :: trace[k] in front;
    assert trace[|trace| - 1] == Last(trace);
    assert forall r | r in trace :: r in front || r == Last(trace);
  }

  lemma {:induction false} FirstIsFirst(trace: seq<TraceRecord>, n: int)
    ensures IsFirst(trace, n, First(trace, n))
  {
    if trace != [] {
      var before := WithKey(Front(trace), n);
      FirstIsFirst(Front(trace), n);
      if before != [] {
        FirstStays(trace, n, before[0]);
        assert WithKey(trace, n)[0] == before[0];
      } else {
        FirstAtLast(trace, n);
      }
    }
  }

  /** Both records are missing, or both are there with the same kind, target state and blocked mark. */
  predicate Alike(x: Option<TraceRecord>, y: Option<TraceRecord>) {
    if x.Some? && y.Some? then
      x.value.kind == y.value.kind && x.value.toState == y.value.toState && x.value.blocked == y.value.blocked
    else x.None? && y.None?
  }

  predicate Diverge(a: seq<TraceRecord>, b: seq<TraceRecord>, n: int) {
    !Alike(First(a, n), First(b, n))
  }

  /** The least sequence number, from 0 on, where the runs differ; none when there is none. */
  ghost predicate IsDivergencePoint(a: seq<TraceRecord>, b: seq<TraceRecord>, point: Option<int>) {
    match point
    case None => forall n | 0 <= n :: !Diverge(a, b, n)
    case Some(p) => 0 <= p && Diverge(a, b, p) && forall n | 0 <= n < p :: !Diverge(a, b, n)
  }

  /** Swapping the runs gives the same point, and there is only one. */
  lemma DivergenceIsSymmetric(a: seq<TraceRecord>, b: seq<TraceRecord>, one: Option<int>, other: Option<int>)
    requires IsDivergencePoint(a, b, one) && IsDivergencePoint(b, a, other)
    ensures one == other
  {
    if one.Some? {
      assert Diverge(b, a, one.value);
    }
    if other.Some? {
      assert Diverge(a, b, other.value);
    }
  }

  /** Runs of records from sequence 0 on diverge nowhere exactly when they look the same at every number. */
  lemma NoneMeansAlike(a: seq<TraceRecord>, b: seq<TraceRecord>)
    requires forall i | 0 <= i < |a| :: a[i].sequence >= 0
    requires forall i | 0 <= i < |b| :: b[i].sequence >= 0
    ensures IsDivergencePoint(a, b, None) <==> forall n: int :: Alike(First(a, n), First(b, n))
  {
    forall n: int | n < 0
      ensures First(a, n).None? && First(b, n).None?
    {
      WithKeyEmpty(a, n);
      WithKeyEmpty(b, n);
    }
    if forall n: int :: Alike(First(a, n), First(b, n)) {
      assert forall n: int :: !Diverge(a, b, n);
    } else if IsDivergencePoint(a, b, None) {
      var n: int :| !Alike(First(a, n), First(b, n));
      assert Diverge(a, b, n);
    }
  }

  method FindSequence(trace: seq<TraceRecord>, n: int) returns (found: Option<TraceRecord>)
    ensures found == First(trace, n)
    ensures IsFirst(trace, n, found)
  {
    FirstIsFirst(trace, n);
    for i := 0 to |trace|
      invariant WithKey(trace[..i], n) == []
    {
      assert Front(trace[..i + 1]) == trace[..i];
      if trace[i].sequence == n {
        assert WithKey(trace[..i + 1], n) == [trace[i]];
        WithKeyPrefix(trace, i + 1, n);
        return Some(trace[i]);
      }
    }
    assert trace[..|trace|] == trace;
    return None;
  }

  lemma {:induction false} WithKeyPrefix(trace: seq<TraceRecord>, i: nat, n: int)
    requires i <= |trace|
    ensures WithKey(trace[..i], n) <= WithKey(trace, n)
  {
    if i == |trace| {
      assert trace[..i] == trace;
    } else {
      WithKeyPrefix(Front(trace), i, n);
      assert Front(trace)[..i] == trace[..i];
    }
  }

  /** The greatest sequence number, or -1. */
  function MaxSequence(trace: seq<TraceRecord>): (m: int)
    ensures m >= -1
  {
    if trace == [] then -1 else Max(MaxSequence(Front(trace)), Last(trace).sequence)
  }

  lemma {:induction false} MaxIsGreatest(trace: seq<TraceRecord>)
    ensures forall i | 0 <= i < |trace| :: trace[i].sequence <= MaxSequence(trace)
    ensures MaxSequence(trace) == -1 || exists i :: 0 <= i < |trace| && trace[i].sequence == MaxSequence(trace)
  {
    if trace != [] {
      MaxIsGreatest(Front(trace));
      if MaxSequence(trace) != -1 && MaxSequence(trace) != Last(trace).sequence {
        var i :| 0 <= i < |Front(trace)| && Front(trace)[i].sequence == MaxSequence(trace);
        assert trace[i] == Front(trace)[i];
      }
    }
  }

  datatype ComparedStep = ComparedStep(sequence: int, inA: Option<TraceRecord>, inB: Option<TraceRecord>, equivalent: bool)

  function StepAt(a: seq<TraceRecord>, b: seq<TraceRecord>, n: int): ComparedStep {
    ComparedStep(n, First(a, n), First(b, n), !Diverge(a, b, n))
  }

  ghost predicate StepsOf(a: seq<TraceRecord>, b: seq<TraceRecord>, steps: seq<ComparedStep>) {
    forall n | 0 <= n < |steps| :: steps[n] == StepAt(a, b, n)
  }

  /** Every number from 0 on is compared, with the first record of each run, up to the greatest number of either. */
  ghost predicate Compares(a: seq<TraceRecord>, b: seq<TraceRecord>, steps: seq<ComparedStep>) {
    && Spans(a, b, |steps|)
    && forall n | 0 <= n < |steps| ::
         && steps[n].sequence == n
         && IsFirst(a, n, steps[n].inA) && IsFirst(b, n, steps[n].inB)
         && (steps[n].equivalent <==> Alike(steps[n].inA, steps[n].inB))
  }

  /** All numbers of both runs are below `n`, and that is needed. */
  ghost predicate Spans(a: seq<TraceRecord>, b: seq<TraceRecord>, n: int) {
    && 0 <= n && (forall r | r in a || r in b :: r.sequence < n)
    && (n == 0 || exists r :: (r in a || r in b) && r.sequence == n - 1)
  }

  lemma SpansToMax(a: seq<TraceRecord>, b: seq<TraceRecord>)
    ensures Spans(a, b, Max(MaxSequence(a), MaxSequence(b)) + 1)
  {
    MaxIsGreatest(a);
    MaxIsGreatest(b);
    var max := Max(MaxSequence(a), MaxSequence(b));
    if max != -1 && max == MaxSequence(a) {
      var i :| 0 <= i < |a| && a[i].sequence == max;
      assert a[i] in a;
    } else if max != -1 {
      var i :| 0 <= i < |b| && b[i].sequence == max;
      assert b[i] in b;
    }
  }

  lemma StepsCompare(a: seq<TraceRecord>, b: seq<TraceRecord>, steps: seq<ComparedStep>)
    requires StepsOf(StableSort(a), StableSort(b), steps) && Spans(StableSort(a), StableSort(b), |steps|)
    ensures Compares(a, b, steps)
  {
    SortIsStable(a);
    SortIsStable(b);
    SortKeepsMembers(a);
    SortKeepsMembers(b);
    forall n | 0 <= n < |steps|
      ensures steps[n].inA == First(a, n) && steps[n].inB == First(b, n)
    {
      assert steps[n] == StepAt(StableSort(a), StableSort(b), n);
    }
    forall n | 0 <= n < |steps|
      ensures IsFirst(a, n, steps[n].inA) && IsFirst(b, n, steps[n].inB)
    {
      FirstIsFirst(a, n);
      FirstIsFirst(b, n);
    }
  }

  ghost predicate AlikeBelow(a: seq<TraceRecord>, b: seq<TraceRecord>, n: int) {
    forall k | 0 <= k < n :: !Diverge(a, b, k)
  }

  /** What is known of the divergence point when the numbers below `n` have been compared. */
  ghost predicate PointBelow(a: seq<TraceRecord>, b: seq<TraceRecord>, point: Option<int>, n: int) {
    match point
    case None => AlikeBelow(a, b, n)
    case Some(p) => 0 <= p < n && Diverge(a, b, p) && AlikeBelow(a, b, p)
  }

  /** One number of two traces. */
  method CompareAt(a: seq<TraceRecord>, b: seq<TraceRecord>, n: int) returns (step: ComparedStep)
    ensures step == StepAt(a, b, n)
  {
    var inA := FindSequence(a, n);
    var inB := FindSequence(b, n);
    var equivalent := inA.Some? == inB.Some?
      && (inA.Some? ==>
            inA.value.kind == inB.value.kind && inA.value.toState == inB.value.toState && inA.value.blocked == inB.value.blocked);
    return ComparedStep(n, inA, inB, equivalent);
  }

  /** Compares two traces number by number. */
  method CompareTraces(a: seq<TraceRecord>, b: seq<TraceRecord>) returns (steps: seq<ComparedStep>, divergencePoint: Option<int>)
    ensures IsDivergencePoint(a, b, divergencePoint)
    ensures StepsOf(a, b, steps) && Spans(a, b, |steps|)
  {
    var maxSeq := Max(MaxSequence(a), MaxSequence(b));
    steps, divergencePoint := [], None;
    for n := 0 to maxSeq + 1
      invariant |steps| == n && StepsOf(a, b, steps)
      invariant PointBelow(a, b, divergencePoint, n)
    {
      var step := CompareAt(a, b, n);
      StepsNext(a, b, steps, n);
      PointNext(a, b, divergencePoint, n);
      if !step.equivalent && divergencePoint.None? {
        divergencePoint := Some(n);
      }
      steps := steps + [step];
    }
    PointFound(a, b, divergencePoint, maxSeq + 1);
    SpansToMax(a, b);
  }

  lemma StepsNext(a: seq<TraceRecord>, b: seq<TraceRecord>, steps: seq<ComparedStep>, n: int)
    requires |steps| == n && StepsOf(a, b, steps)
    ensures StepsOf(a, b, steps + [StepAt(a, b, n)])
  {
  }

  lemma PointNext(a: seq<TraceRecord>, b: seq<TraceRecord>, point: Option<int>, n: int)
    requires 0 <= n && PointBelow(a, b, point, n)
    ensures PointBelow(a, b, if point.None? && Diverge(a, b, n) then Some(n) else point, n + 1)
  {
  }

  /** Beyond every sequence number the runs have nothing to differ in. */
  lemma PointFound(a: seq<TraceRecord>, b: seq<TraceRecord>, point: Option<int>, n: int)
    requires n > MaxSequence(a) && n > MaxSequence(b)
    requires PointBelow(a, b, point, n)
    ensures IsDivergencePoint(a, b, point)
  {
    MaxIsGreatest(a);
    MaxIsGreatest(b);
    forall k | n <= k
      ensures !Diverge(a, b, k)
    {
      WithKeyEmpty(a, k);
      WithKeyEmpty(b, k);
    }
  }

  /** Sorting does not move the point: the first record of a number stays the first. */
  lemma SortingKeepsPoint(a: seq<TraceRecord>, b: seq<TraceRecord>, point: Option<int>)
    requires IsDivergencePoint(StableSort(a), StableSort(b), point)
    ensures IsDivergencePoint(a, b, point)
  {
    SortIsStable(a);
    SortIsStable(b);
    forall n: int
      ensures Diverge(StableSort(a), StableSort(b), n) == Diverge(a, b, n)
    {
    }
  }

  // ---------------------------------------------------------------- the writes of one run

  function RunOf(writes: seq<TraceRecord>, run: string): (rs: seq<TraceRecord>)
    ensures forall i | 0 <= i < |rs| :: rs[i].loopRunId == run
  {
    if writes == [] then []
    else RunOf(Front(writes), run) + if Last(writes).loopRunId == run then [Last(writes)] else []
  }

  predicate DistinctSequences(rs: seq<TraceRecord>) {
    forall i, j | 0 <= i < j < |rs| :: rs[i].sequence != rs[j].sequence
  }

  lemma {:induction false} OnlyWithKey(rs: seq<TraceRecord>, i: nat)
    requires DistinctSequences(rs) && i < |rs|
    ensures WithKey(rs, rs[i].sequence) == [rs[i]]
  {
    if i == |rs| - 1 {
      WithKeyEmpty(Front(rs), rs[i].sequence);
    } else {
      OnlyWithKey(Front(rs), i);
    }
  }

  /** With distinct sequence numbers it does not matter in which order a run's records were written. */
  lemma WriteOrderDoesNotMatter(xs: seq<TraceRecord>, ys: seq<TraceRecord>)
    requires DistinctSequences(xs) && DistinctSequences(ys)
    requires forall r :: r in xs <==> r in ys
    ensures StableSort(xs) == StableSort(ys)
  {
    forall k
      ensures WithKey(xs, k) == WithKey(ys, k)
    {
      if i :| 0 <= i < |xs| && xs[i].sequence == k {
        assert xs[i] in ys;
        var j :| 0 <= j < |ys| && ys[j] == xs[i];
        OnlyWithKey(xs, i);
        OnlyWithKey(ys, j);
      } else {
        WithKeyEmpty(xs, k);
        forall j | 0 <= j < |ys|
          ensures ys[j].sequence != k
        {
          assert ys[j] in xs;
        }
        WithKeyEmpty(ys, k);
      }
    }
    SortIsStable(xs);
    SortIsStable(ys);
    StableUnique(StableSort(xs), StableSort(ys));
  }

  // ---------------------------------------------------------------- the store

  datatype RunComparison = RunComparison(runA: RunSummary, runB: RunSummary, steps: seq<ComparedStep>, divergencePoint: Option<int>)

  /** The summary of a run after one more write. */
  function NextSummary(current: Option<RunSummary>, record: TraceRecord): RunSummary {
    var isTerminal := record.kind.LoopTerminal?;
    RunSummary(
      record.tenantId,
      record.loopRunId,
      record.loopId,
      if current.Some? then current.value.startedAt else record.timestamp,
      if isTerminal then Some(record.timestamp) else if current.Some? then current.value.completedAt else None,
      if isTerminal then record.toState else if current.Some? then current.value.terminalState else None,
      (if current.Some? then current.value.stepCount else 0) + 1,
      (if current.Some? then current.value.blockedCount else 0) + (if record.blocked then 1 else 0),
      (current.Some? && current.value.governed) || record.governed)
  }

  /** What is stored of a run with the writes `rs`: the writes stably sorted, and a summary that counts them. */
  ghost predicate RunStored(rs: seq<TraceRecord>, trace: Option<seq<TraceRecord>>, summary: Option<RunSummary>) {
    if rs == [] then trace.None? && summary.None?
    else
      && trace == Some(StableSort(rs))
      && summary.Some?
      && Counts(summary.value, rs)
      && summary.value.loopId == Last(rs).loopId
      && summary.value.tenantId == Last(rs).tenantId
  }

  lemma SummaryFollows(rs: seq<TraceRecord>, summary: Option<RunSummary>, r: TraceRecord)
    requires if rs == [] then summary.None? else summary.Some? && Counts(summary.value, rs)
    requires summary.Some? ==> summary.value.loopRunId == r.loopRunId
    ensures Counts(NextSummary(summary, r), rs + [r])
  {
    if rs == [] {
      CountsFirst(r, NextSummary(None, r));
      assert [] + [r] == [r];
    } else {
      CountsNext(summary.value, rs, r, NextSummary(summary, r));
    }
  }

  /** One more write of a run, sorted once. */
  lemma WriteStores(rs: seq<TraceRecord>, trace: Option<seq<TraceRecord>>, summary: Option<RunSummary>, r: TraceRecord, sorted: seq<TraceRecord>)
    requires RunStored(rs, trace, summary) && sorted == StableSort(rs + [r])
    requires summary.Some? ==> summary.value.loopRunId == r.loopRunId
    ensures RunStored(rs + [r], Some(sorted), Some(NextSummary(summary, r)))
  {
    FrontLastSnoc(rs, r);
    SummaryFollows(rs, summary, r);
  }

  lemma SortedAgain(rs: seq<TraceRecord>, trace: Option<seq<TraceRecord>>, summary: Option<RunSummary>, r: TraceRecord)
    requires RunStored(rs, trace, summary)
    ensures StableSort((if trace.Some? then trace.value else []) + [r]) == StableSort(rs + [r])
  {
    SortAgain(rs, r);
    assert rs == [] ==> StableSort(rs) == [];
  }

  lemma CountsFirst(r: TraceRecord, s: RunSummary)
    requires s == NextSummary(None, r)
    ensures Counts(s, [r])
  {
    var rs := [r];
    assert Front(rs) == [] && rs[0] == r;
    assert r.kind.LoopTerminal? ==> LastTerminal(rs, 0);
    assert Blocked(Front(rs)) == 0;
  }

  function Get<T>(m: map<string, T>, k: string): Option<T> {
    if k in m then Some(m[k]) else None
  }

  ghost predicate AllStored(writes: seq<TraceRecord>, records: map<string, seq<TraceRecord>>, summaries: map<string, RunSummary>) {
    forall run :: Stored(writes, records, summaries, run)
  }

  ghost predicate Stored(writes: seq<TraceRecord>, records: map<string, seq<TraceRecord>>, summaries: map<string, RunSummary>, run: string) {
    RunStored(RunOf(writes, run), Get(records, run), Get(summaries, run))
  }

  lemma RunOfSnoc(writes: seq<TraceRecord>, r: TraceRecord, run: string)
    ensures RunOf(writes + [r], run) == RunOf(writes, run) + if r.loopRunId == run then [r] else []
  {
    FrontLastSnoc(writes, r);
  }

  lemma OwnStored(writes: seq<TraceRecord>, records: map<string, seq<TraceRecord>>, summaries: map<string, RunSummary>, r: TraceRecord,
                  sorted: seq<TraceRecord>)
    requires Stored(writes, records, summaries, r.loopRunId)
    requires sorted == StableSort((if r.loopRunId in records then records[r.loopRunId] else []) + [r])
    ensures Stored(writes + [r], records[r.loopRunId := sorted],
                   summaries[r.loopRunId := NextSummary(Get(summaries, r.loopRunId), r)], r.loopRunId)
  {
    var own := r.loopRunId;
    var rs := RunOf(writes, own);
    SortedAgain(rs, Get(records, own), Get(summaries, own), r);
    WriteStores(rs, Get(records, own), Get(summaries, own), r, sorted);
    RunOfSnoc(writes, r, own);
  }

  lemma OtherStored(writes: seq<TraceRecord>, records: map<string, seq<TraceRecord>>, summaries: map<string, RunSummary>, r: TraceRecord,
                    sorted: seq<TraceRecord>, summary: RunSummary, run: string)
    requires Stored(writes, records, summaries, run) && run != r.loopRunId
    ensures Stored(writes + [r], records[r.loopRunId := sorted], summaries[r.loopRunId := summary], run)
  {
    RunOfSnoc(writes, r, run);
    assert RunOf(writes, run) + [] == RunOf(writes, run);
  }

  lemma OneMoreStored(writes: seq<TraceRecord>, records: map<string, seq<TraceRecord>>, summaries: map<string, RunSummary>, r: TraceRecord,
                      sorted: seq<TraceRecord>)
    requires AllStored(writes, records, summaries)
    requires sorted == StableSort((if r.loopRunId in records then records[r.loopRunId] else []) + [r])
    ensures AllStored(writes + [r], records[r.loopRunId := sorted],
                      summaries[r.loopRunId := NextSummary(Get(summaries, r.loopRunId), r)])
  {
    var records' := records[r.loopRunId := sorted];
    var summaries' := summaries[r.loopRunId := NextSummary(Get(summaries, r.loopRunId), r)];
    forall run
      ensures Stored(writes + [r], records', summaries', run)
    {
      assert Stored(writes, records, summaries, run);
      if run == r.loopRunId {
        OwnStored(writes, records, summaries, r, sorted);
      } else {
        OtherStored(writes, records, summaries, r, sorted, NextSummary(Get(summaries, r.loopRunId), r), run);
      }
    }
  }

  class MemoryTraceStore {
    var records: map<string, seq<TraceRecord>>
    var summaries: map<string, RunSummary>
    /** Everything written since the store was last cleared. */
    ghost var writes: seq<TraceRecord>

    /** Every run's records are its writes stably sorted by sequence, and its summary counts them. */
    ghost predicate Valid()
      reads this
    {
      AllStored(writes, records, summaries)
    }

    constructor ()
      ensures Valid() && writes == []
    {
      records, summaries, writes := map[], map[], [];
    }

    method Clear()
      modifies this
      ensures Valid() && writes == []
    {
      records, summaries, writes := map[], map[], [];
    }

    method Write(record: TraceRecord)
      requires Valid()
      modifies this
      ensures Valid()
      ensures writes == old(writes) + [record]
      ensures records.Keys == old(records).Keys + {record.loopRunId}
      ensures forall run | run in old(records) && run != record.loopRunId :: records[run] == old(records)[run]
    {
      var run := record.loopRunId;
      var existing := if run in records then records[run] else [];
      var sorted := StableSort(existing + [record]);
      OneMoreStored(writes, records, summaries, record, sorted);
      records := records[run := sorted];
      summaries := summaries[run := NextSummary(Get(summaries, run), record)];
      writes := writes + [record];
    }

    method GetRunTrace(run: string) returns (trace: seq<TraceRecord>)
      requires Valid()
      ensures trace == StableSort(RunOf(writes, run))
    {
      assert Stored(writes, records, summaries, run);
      return if run in records then records[run] else [];
    }

    /** Fails when one of the runs is unknown. */
    method CompareRuns(runA: string, runB: string) returns (comparison: Option<RunComparison>)
      requires Valid()
      ensures comparison.None? <==> RunOf(writes, runA) == [] || RunOf(writes, runB) == []
      ensures comparison.Some? ==>
        && IsDivergencePoint(RunOf(writes, runA), RunOf(writes, runB), comparison.value.divergencePoint)
        && Compares(RunOf(writes, runA), RunOf(writes, runB), comparison.value.steps)
        && Counts(comparison.value.runA, RunOf(writes, runA))
        && Counts(comparison.value.runB, RunOf(writes, runB))
    {
      assert Stored(writes, records, summaries, runA);
      assert Stored(writes, records, summaries, runB);
      if runA !in summaries || runB !in summaries {
        return None;
      }
      var a := GetRunTrace(runA);
      var b := GetRunTrace(runB);
      var steps, point := CompareTraces(a, b);
      SortingKeepsPoint(RunOf(writes, runA), RunOf(writes, runB), point);
      StepsCompare(RunOf(writes, runA), RunOf(writes, runB), steps);
      return Some(RunComparison(summaries[runA], summaries[runB], steps, point));
    }
  }
}
