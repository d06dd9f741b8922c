/** The history checker (packages/observability/src/replay.ts), and what it accepts. */
module Replay {
  import opened Prelude
  import opened LoopModel

  datatype ReplayError = ReplayError(transitionId: TransitionId, state: StateId, toState: StateId)

  ghost predicate Allows(d: LoopDefinition, state: StateId, r: TransitionRecord) {
    exists t | t in d.transitions :: t.id == r.transitionId && t.origin == state && t.target == r.toState
  }

  /** The state after the records, when every one of them moves on. */
  function EndState(start: StateId, records: seq<TransitionRecord>): StateId {
    if records == [] then start else Last(records).toState
  }

  /** The records are a walk through the definition. */
  ghost predicate IsPath(d: LoopDefinition, start: StateId, records: seq<TransitionRecord>) {
    records == [] || (IsPath(d, start, Front(records)) && Allows(d, EndState(start, Front(records)), Last(records)))
  }

  /** The k-th record is a transition of the definition out of the state where the one before it ended, or out of `start`. */
  ghost predicate FollowsOn(d: LoopDefinition, start: StateId, records: seq<TransitionRecord>, k: nat)
    requires k < |records|
  {
    exists t | t in d.transitions ::
      && t.id == records[k].transitionId && t.target == records[k].toState
      && t.origin == if k == 0 then start else records[k - 1].toState
  }

  lemma {:induction false} PathMeans(d: LoopDefinition, start: StateId, records: seq<TransitionRecord>)
    ensures IsPath(d, start, records) <==> forall k: nat | k < |records| :: FollowsOn(d, start, records, k)
  {
    if records != [] {
      var front := Front(records);
      PathMeans(d, start, front);
      forall k: nat | k < |front|
        ensures FollowsOn(d, start, records, k) <==> FollowsOn(d, start, front, k)
      {
      }
      assert FollowsOn(d, start, records, |front|) <==> Allows(d, EndState(start, front), Last(records));
    }
  }

  method Matches(d: LoopDefinition, state: StateId, r: TransitionRecord) returns (found: bool)
    ensures found <==> Allows(d, state, r)
  {
    for i := 0 to |d.transitions|
      invariant forall k | 0 <= k < i ::
        !(d.transitions[k].id == r.transitionId && d.transitions[k].origin == state && d.transitions[k].target == r.toState)
    {
      var t := d.transitions[i];
      if t.id == r.transitionId && t.origin == state && t.target == r.toState {
        return true;
      }
    }
    return false;
  }

  /** The error names the first record that does not follow on, and the state it should have left. */
  ghost predicate IsFirstError(d: LoopDefinition, history: seq<TransitionRecord>, k: nat, error: ReplayError) {
    && k < |history|
    && !FollowsOn(d, d.initialState, history, k)
    && (forall j: nat | j < k :: FollowsOn(d, d.initialState, history, j))
    && error == ReplayError(history[k].transitionId, if k == 0 then d.initialState else history[k - 1].toState, history[k].toState)
  }

  lemma AllowsFollows(d: LoopDefinition, history: seq<TransitionRecord>, k: nat)
    requires k < |history|
    ensures FollowsOn(d, d.initialState, history, k) <==>
      Allows(d, if k == 0 then d.initialState else history[k - 1].toState, history[k])
  {
  }

  /**
   * Replay accepts exactly the histories that are a walk from the initial state. The first error
   * names the first record that does not follow on.
   */
  method ReplayLoop(d: LoopDefinition, history: seq<TransitionRecord>) returns (valid: bool, errors: seq<ReplayError>)
    ensures valid <==> IsPath(d, d.initialState, history)
    ensures valid <==> forall k: nat | k < |history| :: FollowsOn(d, d.initialState, history, k)
    ensures valid <==> errors == []
    ensures errors != [] ==> exists k :: 0 <= k < |history| && IsFirstError(d, history, k, errors[0])
  {
    errors := [];
    var state := d.initialState;
    ghost var first: nat := 0;
    for i := 0 to |history|
      invariant errors == [] ==> state == if i == 0 then d.initialState else history[i - 1].toState
      invariant errors == [] ==> forall k: nat | k < i :: FollowsOn(d, d.initialState, history, k)
      invariant errors != [] ==> IsFirstError(d, history, first, errors[0])
    {
      var record := history[i];
      AllowsFollows(d, history, i);
      var match_ := Matches(d, state, record);
      if !match_ {
        first := if errors == [] then i else first;
        errors := errors + [ReplayError(record.transitionId, state, record.toState)];
        continue;
      }
      state := record.toState;
    }
    PathMeans(d, d.initialState, history);
    valid := errors == [];
  }
}
