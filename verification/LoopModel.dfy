/**
 * The entities of the loop engine: definitions, instances, transition records, events and
 * governed-evidence snapshots.
 */
module LoopModel {
  import opened Prelude
  import Json = CanonicalJson

  type LoopId = string
  type AggregateId = string
  type StateId = string
  type TransitionId = string
  type SignalId = string
  type GuardId = string

  datatype ActorType = Human | Automation | AiAgent | System
  datatype ActorRef = ActorRef(id: string, kind: ActorType)

  // ---------------------------------------------------------------- definitions

  datatype Severity = Hard | Soft
  datatype GuardSpec = GuardSpec(id: GuardId, severity: Severity, parameters: map<string, string>)

  datatype TransitionSpec = TransitionSpec(
    id: TransitionId,
    origin: StateId,
    target: StateId,
    signal: SignalId,
    actors: seq<ActorType>,
    guards: seq<GuardSpec>,
    governed: bool)

  datatype StateSpec = StateSpec(id: StateId, isTerminal: bool)
  datatype OutcomeSpec = OutcomeSpec(valueUnit: string, businessMetrics: seq<string>)

  datatype LoopDefinition = LoopDefinition(
    id: LoopId,
    version: string,
    name: string,
    states: seq<StateSpec>,
    initialState: StateId,
    transitions: seq<TransitionSpec>,
    outcome: Option<OutcomeSpec>,
    governed: bool)

  predicate IsTerminal(definition: LoopDefinition, state: StateId) {
    exists i :: 0 <= i < |definition.states| && definition.states[i] == StateSpec(state, true)
  }

  /** A state is terminal when some state of its id is marked as such, whatever others of the same id say. */
  lemma IsTerminalMeans(definition: LoopDefinition, state: StateId)
    ensures IsTerminal(definition, state) <==> exists s :: s in definition.states && s.id == state && s.isTerminal
  {
    if IsTerminal(definition, state) {
      var i :| 0 <= i < |definition.states| && definition.states[i] == StateSpec(state, true);
      assert definition.states[i] in definition.states;
    }
  }

  /** The first transition with this id out of this state, among those from position `i` on. */
  function FindFrom(ts: seq<TransitionSpec>, i: nat, id: TransitionId, origin: StateId): (r: Option<TransitionSpec>)
    requires i <= |ts|
    ensures r.Some? ==> r.value in ts && r.value.id == id && r.value.origin == origin
    decreases |ts| - i
  {
    if i == |ts| then None
    else if ts[i].id == id && ts[i].origin == origin then Some(ts[i])
    else FindFrom(ts, i + 1, id, origin)
  }

  function Find(definition: LoopDefinition, id: TransitionId, origin: StateId): (r: Option<TransitionSpec>)
    ensures r.Some? ==> r.value in definition.transitions && r.value.id == id && r.value.origin == origin
  {
    FindFrom(definition.transitions, 0, id, origin)
  }

  predicate Fires(t: TransitionSpec, id: TransitionId, origin: StateId) {
    t.id == id && t.origin == origin
  }

  /** The transition at `k` is the first of this id and origin. */
  ghost predicate IsFirst(ts: seq<TransitionSpec>, k: nat, id: TransitionId, origin: StateId) {
    k < |ts| && Fires(ts[k], id, origin) && forall j | 0 <= j < k :: !Fires(ts[j], id, origin)
  }

  lemma {:induction false} FindFromFinds(ts: seq<TransitionSpec>, i: nat, id: TransitionId, origin: StateId)
    requires i <= |ts| && forall j | 0 <= j < i :: !Fires(ts[j], id, origin)
    ensures match FindFrom(ts, i, id, origin)
      case None => forall t | t in ts :: !Fires(t, id, origin)
      case Some(t) => exists k :: 0 <= k < |ts| && IsFirst(ts, k, id, origin) && ts[k] == t
    decreases |ts| - i
  {
    if i < |ts| {
      if Fires(ts[i], id, origin) {
        assert IsFirst(ts, i, id, origin);
      } else {
        FindFromFinds(ts, i + 1, id, origin);
      }
    }
  }

  /** The engine finds the first transition with the id out of the state, and nothing exactly when there is none. */
  lemma FindsTheFirst(d: LoopDefinition, id: TransitionId, origin: StateId)
    ensures Find(d, id, origin).None? <==> forall t | t in d.transitions :: !Fires(t, id, origin)
    ensures Find(d, id, origin).Some? ==>
      exists k :: 0 <= k < |d.transitions| && IsFirst(d.transitions, k, id, origin) && d.transitions[k] == Find(d, id, origin).value
  {
    FindFromFinds(d.transitions, 0, id, origin);
  }

  // ---------------------------------------------------------------- instances, records, evidence

  datatype LoopStatus = Pending | Active | Completed | FailedStatus | CancelledStatus | Suspended

  datatype LoopInstance = LoopInstance(
    loopId: LoopId,
    aggregateId: AggregateId,
    currentState: StateId,
    status: LoopStatus,
    startedAt: int,
    updatedAt: int,
    completedAt: Option<int>,
    metadata: map<string, string>)

  datatype Failure = Failure(guardId: GuardId, message: string)

  datatype EvidenceValue =
    | Submitted(value: Json.Value)
    | SoftWarnings(warnings: seq<Failure>)
    | SnapshotIds(ids: seq<string>)
    | LaunchVersions

  type Evidence = map<string, EvidenceValue>

  datatype TransitionRecord = TransitionRecord(
    aggregateId: AggregateId,
    loopId: LoopId,
    transitionId: TransitionId,
    signal: SignalId,
    fromState: StateId,
    toState: StateId,
    actor: ActorRef,
    occurredAt: int,
    evidence: Evidence)

  /** A stored snapshot of governed evidence. */
  datatype SnapshotRow = SnapshotRow(
    tenantId: string,
    aggregateId: AggregateId,
    id: string,
    snapshotKey: string,
    values: Json.Value,
    contentSha256: string)

  // ---------------------------------------------------------------- events

  datatype LoopEvent =
    | LoopStarted(loopId: LoopId, aggregateId: AggregateId, initialState: StateId, actor: ActorRef)
    | TransitionRequested(loopId: LoopId, aggregateId: AggregateId, transitionId: TransitionId, fromState: StateId,
                          toState: StateId, signal: SignalId, actor: ActorRef, evidence: Evidence)
    | GuardFailed(loopId: LoopId, aggregateId: AggregateId, transitionId: TransitionId, fromState: StateId,
                  guardId: GuardId, severity: Severity, actor: ActorRef, message: string)
    | TransitionBlocked(loopId: LoopId, aggregateId: AggregateId, transitionId: TransitionId, fromState: StateId,
                        attemptedToState: StateId, actor: ActorRef, guardFailures: seq<Failure>)
    | TransitionExecuted(loopId: LoopId, aggregateId: AggregateId, transitionId: TransitionId, fromState: StateId,
                         toState: StateId, signal: SignalId, actor: ActorRef, evidence: Evidence,
                         softGuardWarnings: seq<Failure>)
    | LoopCompleted(loopId: LoopId, aggregateId: AggregateId, finalState: StateId, actor: ActorRef, durationMs: int)
    | LoopCancelled(loopId: LoopId, aggregateId: AggregateId, fromState: StateId, actor: ActorRef, reason: Option<string>)
    | LoopFailed(loopId: LoopId, aggregateId: AggregateId, fromState: StateId, code: string, message: string)
}
