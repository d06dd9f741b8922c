/** The trace records that the trace stores keep and the read side consumes. */
module Traces {
  import opened Prelude

  datatype TraceEventType =
    | LoopStarted | TransitionAttempted | GuardEvaluated | TransitionCompleted | TransitionBlocked | LoopTerminal

  datatype TraceRecord = TraceRecord(
    id: string,
    loopRunId: string,
    loopId: string,
    tenantId: string,
    sequence: int,
    timestamp: int,
    kind: TraceEventType,
    fromState: Option<string>,
    toState: Option<string>,
    transitionId: Option<string>,
    blocked: bool,
    governed: bool)

  datatype RunSummary = RunSummary(
    tenantId: string,
    loopRunId: string,
    loopId: string,
    startedAt: int,
    completedAt: Option<int>,
    terminalState: Option<string>,
    stepCount: int,
    blockedCount: int,
    governed: bool)

  function Blocked(rs: seq<TraceRecord>): nat {
    if rs == [] then 0 else Blocked(Front(rs)) + if Last(rs).blocked then 1 else 0
  }

  /** The terminal record at `k` is the last one. */
  predicate LastTerminal(rs: seq<TraceRecord>, k: nat) {
    k < |rs| && rs[k].kind.LoopTerminal? && forall j | k < j < |rs| :: !rs[j].kind.LoopTerminal?
  }

  /** What a summary says of the records of a run, in the order in which they were written. */
  ghost predicate Counts(s: RunSummary, rs: seq<TraceRecord>) {
    && rs != []
    && s.loopRunId == rs[0].loopRunId
    && s.startedAt == rs[0].timestamp
    && s.stepCount == |rs|
    && s.blockedCount == Blocked(rs)
    && (s.governed <==> exists k :: 0 <= k < |rs| && rs[k].governed)
    && (forall k: nat | LastTerminal(rs, k) :: s.completedAt == Some(rs[k].timestamp) && s.terminalState == rs[k].toState)
    && ((forall k: nat :: !LastTerminal(rs, k)) ==> s.completedAt.None? && s.terminalState.None?)
  }

  lemma {:induction false} SomeTerminal(rs: seq<TraceRecord>, k: nat)
    requires k < |rs| && rs[k].kind.LoopTerminal?
    ensures exists j: nat :: LastTerminal(rs, j)
    decreases |rs| - k
  {
    if !LastTerminal(rs, k) {
      var j :| k < j < |rs| && rs[j].kind.LoopTerminal?;
      SomeTerminal(rs, j);
    }
  }

  /** How a summary follows its run when one more record is written. */
  lemma CountsNext(s: RunSummary, rs: seq<TraceRecord>, r: TraceRecord, s': RunSummary)
    requires Counts(s, rs)
    requires s'.loopRunId == s.loopRunId && s'.startedAt == s.startedAt
    requires s'.stepCount == s.stepCount + 1
    requires s'.blockedCount == s.blockedCount + if r.blocked then 1 else 0
    requires s'.governed == (s.governed || r.governed)
    requires s'.completedAt == if r.kind.LoopTerminal? then Some(r.timestamp) else s.completedAt
    requires s'.terminalState == if r.kind.LoopTerminal? then r.toState else s.terminalState
    ensures Counts(s', rs + [r])
  {
    FrontLastSnoc(rs, r);
    var all := rs + [r];
    assert all[0] == rs[0] && all[|rs|] == r;
    assert s'.governed <==> exists k :: 0 <= k < |all| && all[k].governed by {
      if k :| 0 <= k < |rs| && rs[k].governed {
        assert all[k].governed;
      }
      if r.governed {
        assert all[|rs|].governed;
      }
    }
    if r.kind.LoopTerminal? {
      assert LastTerminal(all, |rs|);
      forall k: nat | LastTerminal(all, k)
        ensures k == |rs|
      {
      }
    } else {
      forall k: nat
        ensures LastTerminal(all, k) <==> LastTerminal(rs, k)
      {
      }
    }
  }
}
