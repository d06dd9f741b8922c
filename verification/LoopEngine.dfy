/**
 * The loop engine (packages/runtime/src/engine.ts) over an in-memory store
 * (packages/adapter-memory): `start`, `transition`, `cancelLoop` and `failLoop`.
 *
 * `Effect` is the specification of one call: what it saves, records, emits and answers, as a
 * function of the stored instance alone. The class performs the same call step by step.
 */
module LoopEngine {
  import opened Prelude
  import opened LoopModel
  import opened Guards
  import opened GovernedEvidence

  /** What an engine is built with. */
  datatype Config = Config(registry: map<LoopId, LoopDefinition>, host: Host)

  /** A registry gives out every definition under its own id. */
  predicate Consistent(config: Config) {
    forall id | id in config.registry :: config.registry[id].id == id
  }

  datatype TransitionParams = TransitionParams(
    aggregateId: AggregateId,
    transitionId: TransitionId,
    actor: ActorRef,
    evidence: Evidence,
    evidenceSnapshots: Batch,
    tenantId: Option<string>,
    requiresHumanApprovalFor: seq<TransitionId>)

  /** What the outside world contributes to one transition call. */
  datatype Environment = Environment(guards: GuardRegistry, now: int, freshId: nat -> string)

  datatype Call =
    | Start(loopId: LoopId, aggregateId: AggregateId, actor: ActorRef, metadata: map<string, string>, now: int)
    | Transition(params: TransitionParams, env: Environment)
    | Cancel(aggregateId: AggregateId, actor: ActorRef, reason: Option<string>, now: int)
    | Fail(aggregateId: AggregateId, fromState: StateId, code: string, message: string, now: int)

  function Target(call: Call): AggregateId {
    match call
    case Start(_, a, _, _, _) => a
    case Transition(p, _) => p.aggregateId
    case Cancel(a, _, _, _) => a
    case Fail(a, _, _, _, _) => a
  }

  datatype Thrown = DefinitionNotFound | ActiveLoopExists | InstanceNotFound | UnknownGuard | EventSchema

  datatype Reason = LoopClosed | InvalidTransition | UnauthorizedActor | Evidence(why: RejectionReason)

  datatype Outcome =
    | Threw(error: Thrown)
    | Started(instance: LoopInstance)
    | Executed(fromState: StateId, toState: StateId, warnings: seq<Failure>)
    | GuardsFailed(fromState: StateId, failures: seq<Failure>)
    | Rejected(fromState: StateId, reason: Reason)
    | PendingApproval(fromState: StateId)
    | Ended(event: LoopEvent)

  // ---------------------------------------------------------------- the world

  /** The instances, histories, delivered events and stored snapshots; and where each latest start fell. */
  datatype World = World(
    instances: map<AggregateId, LoopInstance>,
    histories: map<AggregateId, seq<TransitionRecord>>,
    log: seq<LoopEvent>,
    snapshots: seq<SnapshotRow>,
    marks: map<AggregateId, nat>)

  const EMPTY_WORLD := World(map[], map[], [], [], map[])

  function InstanceOf(w: World, a: AggregateId): Option<LoopInstance> {
    if a in w.instances then Some(w.instances[a]) else None
  }

  function HistoryOf(w: World, a: AggregateId): seq<TransitionRecord> {
    if a in w.histories then w.histories[a] else []
  }

  datatype Effect = Effect(
    save: Option<LoopInstance>,
    restart: bool,
    record: Option<TransitionRecord>,
    events: seq<LoopEvent>,
    rows: seq<SnapshotRow>,
    outcome: Outcome)

  function Nothing(outcome: Outcome): Effect {
    Effect(None, false, None, [], [], outcome)
  }

  function Apply(w: World, a: AggregateId, e: Effect): World {
    World(
      if e.save.Some? then w.instances[a := e.save.value] else w.instances,
      if e.record.Some? then w.histories[a := HistoryOf(w, a) + [e.record.value]] else w.histories,
      w.log + e.events,
      w.snapshots + e.rows,
      if e.restart then w.marks[a := |HistoryOf(w, a)|] else w.marks)
  }

  // ---------------------------------------------------------------- the effect of one call

  function StartEffect(config: Config, stored: Option<LoopInstance>, loopId: LoopId, a: AggregateId, actor: ActorRef,
                       metadata: map<string, string>, now: int): Effect
  {
    if loopId !in config.registry then Nothing(Threw(DefinitionNotFound))
    else if stored.Some? && stored.value.status == Active then Nothing(Threw(ActiveLoopExists))
    else
      var d := config.registry[loopId];
      var instance := LoopInstance(d.id, a, d.initialState, Active, now, now, None, metadata);
      // the event schema wants a version and a name
      if d.version == "" || d.name == "" then Effect(Some(instance), true, None, [], [], Threw(EventSchema))
      else Effect(Some(instance), true, None, [LoopStarted(d.id, a, d.initialState, actor)], [], Started(instance))
  }

  /** The failures in front of the first one without a message, which the event schema refuses. */
  function Emittable(fs: seq<Failure>): (n: nat)
    ensures n <= |fs|
    ensures forall i | 0 <= i < n :: fs[i].message != ""
    ensures n < |fs| ==> fs[n].message == ""
  {
    if fs == [] then 0
    else
      var n := Emittable(Front(fs));
      if n < |fs| - 1 || Last(fs).message == "" then n else n + 1
  }

  function GuardEvents(i: LoopInstance, t: TransitionSpec, actor: ActorRef, severity: Severity, fs: seq<Failure>): (es: seq<LoopEvent>)
    ensures |es| == |fs|
    ensures forall k | 0 <= k < |es| ::
      es[k] == GuardFailed(i.loopId, i.aggregateId, t.id, i.currentState, fs[k].guardId, severity, actor, fs[k].message)
  {
    if fs == [] then []
    else
      GuardEvents(i, t, actor, severity, Front(fs))
      + [GuardFailed(i.loopId, i.aggregateId, t.id, i.currentState, Last(fs).guardId, severity, actor, Last(fs).message)]
  }

  function ContextOf(i: LoopInstance, t: TransitionSpec, p: TransitionParams): GuardContext {
    GuardContext(p.actor, i.loopId, i.aggregateId, i.currentState, t.target, t.signal, p.evidence, i.metadata)
  }

  function Requested(i: LoopInstance, t: TransitionSpec, p: TransitionParams): LoopEvent {
    TransitionRequested(i.loopId, i.aggregateId, t.id, i.currentState, t.target, t.signal, p.actor, p.evidence)
  }

  function TenantOf(i: LoopInstance, p: TransitionParams): string {
    if p.tenantId.Some? then p.tenantId.value
    else if "tenantId" in i.metadata then i.metadata["tenantId"]
    else if "organizationId" in i.metadata then i.metadata["organizationId"]
    else i.aggregateId
  }

  predicate RequiresGovernedEvidence(d: LoopDefinition, t: TransitionSpec) {
    d.governed || t.governed
  }

  /** The evidence of the record when the call brought `evidence` and `soft` guards failed. */
  function WithWarnings(evidence: LoopModel.Evidence, soft: seq<Failure>): LoopModel.Evidence {
    if soft == [] then evidence else evidence["_softGuardWarnings" := SoftWarnings(soft)]
  }

  function WithSnapshots(evidence: LoopModel.Evidence, ids: seq<string>): LoopModel.Evidence {
    evidence["snapshotIds" := SnapshotIds(ids)]["versions" := LaunchVersions]
  }

  /** The last part of a transition, once nothing can reject it any more. */
  function ExecuteEffect(d: LoopDefinition, i: LoopInstance, t: TransitionSpec, actor: ActorRef, now: int, soft: seq<Failure>,
                         evidence: LoopModel.Evidence, rows: seq<SnapshotRow>, before: seq<LoopEvent>): Effect
  {
    var closes := IsTerminal(d, t.target);
    var updated := if closes
                   then i.(currentState := t.target, updatedAt := now, status := Completed, completedAt := Some(now))
                   else i.(currentState := t.target, updatedAt := now);
    var record := TransitionRecord(i.aggregateId, i.loopId, t.id, t.signal, i.currentState, t.target, actor, now, evidence);
    var executed := TransitionExecuted(i.loopId, i.aggregateId, t.id, i.currentState, t.target, t.signal, actor, evidence, soft);
    var completes := updated.status == Completed;
    var schemaRefuses := completes && d.outcome.Some? && d.outcome.value.valueUnit == "";
    var completed := LoopCompleted(i.loopId, i.aggregateId, t.target, actor, Max(0, now - i.startedAt));
    Effect(Some(updated), false, Some(record),
           before + [executed] + (if completes && !schemaRefuses then [completed] else []),
           rows,
           if schemaRefuses then Threw(EventSchema) else Executed(i.currentState, t.target, soft))
  }

  ghost function TransitionEffect(config: Config, stored: Option<LoopInstance>, p: TransitionParams, env: Environment): Effect {
    if stored.None? then Nothing(Threw(InstanceNotFound))
    else
      var i := stored.value;
      if i.loopId !in config.registry then Nothing(Threw(DefinitionNotFound))
      else
        var d := config.registry[i.loopId];
        if i.status == Completed || IsTerminal(d, i.currentState) then Nothing(Rejected(i.currentState, LoopClosed))
        else
          match Find(d, p.transitionId, i.currentState)
          case None => Nothing(Rejected(i.currentState, InvalidTransition))
          case Some(t) =>
            match CanActorExecute(p.actor, t, p.requiresHumanApprovalFor)
            case Unauthorized => Nothing(Rejected(i.currentState, UnauthorizedActor))
            case NeedsApproval => Nothing(PendingApproval(i.currentState))
            case Authorized => GuardedEffect(config, d, i, t, p, env)
  }

  /** From the requested event on. */
  ghost function GuardedEffect(config: Config, d: LoopDefinition, i: LoopInstance, t: TransitionSpec, p: TransitionParams, env: Environment): Effect {
    var requested := [Requested(i, t, p)];
    if !Known(t.guards, env.guards) then Effect(None, false, None, requested, [], Threw(UnknownGuard))
    else
      var context := ContextOf(i, t, p);
      JudgedEffect(config, d, i, t, p, env, Failures(t.guards, Soft, context, env.guards),
                   Failures(t.guards, Hard, context, env.guards), requested)
  }

  /** From the answers of the guards on. */
  ghost function JudgedEffect(config: Config, d: LoopDefinition, i: LoopInstance, t: TransitionSpec, p: TransitionParams, env: Environment,
                              soft: seq<Failure>, hard: seq<Failure>, before: seq<LoopEvent>): Effect
  {
    var n := Emittable(soft);
    var warned := before + GuardEvents(i, t, p.actor, Soft, soft[..n]);
    if n < |soft| then Effect(None, false, None, warned, [], Threw(EventSchema))
    else if hard != [] then BlockedEffect(i, t, p, hard, warned)
    else CommittedEffect(config, d, i, t, p, env, soft, warned)
  }

  function BlockedEffect(i: LoopInstance, t: TransitionSpec, p: TransitionParams, hard: seq<Failure>, before: seq<LoopEvent>): Effect {
    var m := Emittable(hard);
    var failed := before + GuardEvents(i, t, p.actor, Hard, hard[..m]);
    if m < |hard| then Effect(None, false, None, failed, [], Threw(EventSchema))
    else
      var blocked := TransitionBlocked(i.loopId, i.aggregateId, t.id, i.currentState, t.target, p.actor, hard);
      Effect(None, false, None, failed + [blocked], [], GuardsFailed(i.currentState, hard))
  }

  /** From the governed evidence on. */
  ghost function CommittedEffect(config: Config, d: LoopDefinition, i: LoopInstance, t: TransitionSpec, p: TransitionParams,
                                 env: Environment, soft: seq<Failure>, before: seq<LoopEvent>): Effect
  {
    var evidence := WithWarnings(p.evidence, soft);
    if !RequiresGovernedEvidence(d, t) then ExecuteEffect(d, i, t, p.actor, env.now, soft, evidence, [], before)
    else
      match Commit(config.host, TenantOf(i, p), p.aggregateId, p.evidenceSnapshots, env.freshId)
      case Declined(why) => Effect(None, false, None, before, [], Rejected(i.currentState, Reason.Evidence(why)))
      case Committed(ids, rows) =>
        ExecuteEffect(d, i, t, p.actor, env.now, soft, WithSnapshots(evidence, ids), rows, before)
  }

  /** The tenant that the call names; else the instance's tenant, then its organization, then its aggregate. */
  ghost predicate BelongsTo(row: SnapshotRow, i: LoopInstance, p: TransitionParams) {
    && (p.tenantId.Some? ==> row.tenantId == p.tenantId.value)
    && (p.tenantId.None? && "tenantId" in i.metadata ==> row.tenantId == i.metadata["tenantId"])
    && (p.tenantId.None? && "tenantId" !in i.metadata && "organizationId" in i.metadata ==>
          row.tenantId == i.metadata["organizationId"])
    && (p.tenantId.None? && "tenantId" !in i.metadata && "organizationId" !in i.metadata ==> row.tenantId == i.aggregateId)
  }

  /** Every row of a call is stored for its aggregate and under its tenant. */
  ghost predicate AllBelong(rows: seq<SnapshotRow>, i: LoopInstance, p: TransitionParams) {
    forall n | 0 <= n < |rows| :: rows[n].aggregateId == p.aggregateId && BelongsTo(rows[n], i, p)
  }

  lemma CommittedBelong(config: Config, d: LoopDefinition, i: LoopInstance, t: TransitionSpec, p: TransitionParams,
                        env: Environment, soft: seq<Failure>, before: seq<LoopEvent>)
    ensures AllBelong(CommittedEffect(config, d, i, t, p, env, soft, before).rows, i, p)
  {
    if Commit(config.host, TenantOf(i, p), p.aggregateId, p.evidenceSnapshots, env.freshId).Committed? {
      CommittedRows(config.host, TenantOf(i, p), p.aggregateId, p.evidenceSnapshots, env.freshId);
    }
  }

  lemma GuardedBelong(config: Config, d: LoopDefinition, i: LoopInstance, t: TransitionSpec, p: TransitionParams, env: Environment)
    ensures AllBelong(GuardedEffect(config, d, i, t, p, env).rows, i, p)
  {
    if Known(t.guards, env.guards) {
      var soft := Failures(t.guards, Soft, ContextOf(i, t, p), env.guards);
      CommittedBelong(config, d, i, t, p, env, soft,
                      [Requested(i, t, p)] + GuardEvents(i, t, p.actor, Soft, soft[..Emittable(soft)]));
    }
  }

  lemma TransitionBelong(config: Config, stored: Option<LoopInstance>, p: TransitionParams, env: Environment)
    ensures TransitionEffect(config, stored, p, env).rows != [] ==> stored.Some?
    ensures stored.Some? ==> AllBelong(TransitionEffect(config, stored, p, env).rows, stored.value, p)
  {
    if stored.Some? && stored.value.loopId in config.registry {
      var i := stored.value;
      var d := config.registry[i.loopId];
      var t := Find(d, p.transitionId, i.currentState);
      if t.Some? {
        GuardedBelong(config, d, i, t.value, p, env);
      }
    }
  }

  function CancelEffect(stored: Option<LoopInstance>, actor: ActorRef, reason: Option<string>, now: int): Effect {
    if stored.None? then Nothing(Threw(InstanceNotFound))
    else
      var i := stored.value;
      var event := LoopCancelled(i.loopId, i.aggregateId, i.currentState, actor, reason);
      Effect(Some(i.(status := CancelledStatus, completedAt := Some(now), updatedAt := now)), false, None, [event], [], Ended(event))
  }

  function FailEffect(stored: Option<LoopInstance>, fromState: StateId, code: string, message: string, now: int): Effect {
    if stored.None? then Nothing(Threw(InstanceNotFound))
    else
      var i := stored.value;
      var event := LoopFailed(i.loopId, i.aggregateId, fromState, code, message);
      var save := Some(i.(status := FailedStatus, completedAt := Some(now), updatedAt := now));
      if code == "" || message == "" then Effect(save, false, None, [], [], Threw(EventSchema))
      else Effect(save, false, None, [event], [], Ended(event))
  }

  /** What a call does, given the instance stored for its aggregate. */
  ghost function EffectOf(config: Config, stored: Option<LoopInstance>, call: Call): Effect {
    match call
    case Start(loopId, a, actor, metadata, now) => StartEffect(config, stored, loopId, a, actor, metadata, now)
    case Transition(p, env) => TransitionEffect(config, stored, p, env)
    case Cancel(_, actor, reason, now) => CancelEffect(stored, actor, reason, now)
    case Fail(_, fromState, code, message, now) => FailEffect(stored, fromState, code, message, now)
  }

  ghost function EffectIn(config: Config, w: World, call: Call): Effect {
    EffectOf(config, InstanceOf(w, Target(call)), call)
  }

  ghost function Step(config: Config, w: World, call: Call): World {
    Apply(w, Target(call), EffectIn(config, w, call))
  }

  // ---------------------------------------------------------------- the store

  class MemoryStore {
    var loops: map<AggregateId, LoopInstance>
    var transitions: map<AggregateId, seq<TransitionRecord>>

    constructor ()
      ensures loops == map[] && transitions == map[]
    {
      loops, transitions := map[], map[];
    }

    method GetInstance(a: AggregateId) returns (instance: Option<LoopInstance>)
      ensures instance == if a in loops then Some(loops[a]) else None
    {
      return if a in loops then Some(loops[a]) else None;
    }

    method SaveInstance(instance: LoopInstance)
      modifies this`loops
      ensures loops == old(loops)[instance.aggregateId := instance]
    {
      loops := loops[instance.aggregateId := instance];
    }

    method SaveTransitionRecord(record: TransitionRecord)
      modifies this`transitions
      ensures transitions == old(transitions)[record.aggregateId :=
                (if record.aggregateId in old(transitions) then old(transitions)[record.aggregateId] else []) + [record]]
    {
      var current := if record.aggregateId in transitions then transitions[record.aggregateId] else [];
      current := current + [record];
      transitions := transitions[record.aggregateId := current];
    }

    method GetTransitionHistory(a: AggregateId) returns (history: seq<TransitionRecord>)
      ensures history == if a in transitions then transitions[a] else []
    {
      return if a in transitions then transitions[a] else [];
    }
  }

  // ---------------------------------------------------------------- the engine

  class Engine {
    const config: Config
    const store: MemoryStore
    var log: seq<LoopEvent>
    var snapshots: seq<SnapshotRow>
    ghost var marks: map<AggregateId, nat>

    ghost function View(): World
      reads this, store
    {
      World(store.loops, store.transitions, log, snapshots, marks)
    }

    /** Every stored instance is stored under its own aggregate. */
    ghost predicate Valid()
      reads this, store
    {
      forall a | a in store.loops :: store.loops[a].aggregateId == a
    }

    constructor (config: Config)
      ensures this.config == config && fresh(store)
      ensures Valid() && View() == EMPTY_WORLD
    {
      this.config := config;
      store := new MemoryStore();
      log, snapshots, marks := [], [], map[];
    }

    method Emit(event: LoopEvent)
      modifies this`log
      ensures log == old(log) + [event]
    {
      log := log + [event];
    }

    method StartLoop(loopId: LoopId, a: AggregateId, actor: ActorRef, metadata: map<string, string>, now: int)
      returns (outcome: Outcome)
      requires Valid()
      modifies this, store
      ensures Valid()
      ensures var e := StartEffect(config, InstanceOf(old(View()), a), loopId, a, actor, metadata, now);
        View() == Apply(old(View()), a, e) && outcome == e.outcome
    {
      if loopId !in config.registry {
        return Threw(DefinitionNotFound);
      }
      var definition := config.registry[loopId];
      var existing := store.GetInstance(a);
      if existing.Some? && existing.value.status == Active {
        return Threw(ActiveLoopExists);
      }
      var instance := LoopInstance(definition.id, a, definition.initialState, Active, now, now, None, metadata);
      store.SaveInstance(instance);
      marks := marks[a := |HistoryOf(View(), a)|];
      if definition.version == "" || definition.name == "" {
        return Threw(EventSchema);
      }
      Emit(LoopStarted(definition.id, a, definition.initialState, actor));
      return Started(instance);
    }

    /** Emits one event for each failure; the event schema throws at a failure without a message. */
    method EmitGuardEvents(i: LoopInstance, t: TransitionSpec, actor: ActorRef, severity: Severity, fs: seq<Failure>)
      returns (ok: bool)
      modifies this`log
      ensures log == old(log) + GuardEvents(i, t, actor, severity, fs[..Emittable(fs)])
      ensures ok <==> Emittable(fs) == |fs|
    {
      for k := 0 to |fs|
        invariant Emittable(fs[..k]) == k
        invariant log == old(log) + GuardEvents(i, t, actor, severity, fs[..k])
      {
        ghost var longer := fs[..k + 1];
        assert Front(longer) == fs[..k] && Last(longer) == fs[k];
        if fs[k].message == "" {
          EmittableStops(fs, k);
          return false;
        }
        Emit(GuardFailed(i.loopId, i.aggregateId, t.id, i.currentState, fs[k].guardId, severity, actor, fs[k].message));
      }
      assert fs[..|fs|] == fs;
      return true;
    }

    method TakeTransition(p: TransitionParams, env: Environment) returns (outcome: Outcome)
      requires Valid()
      modifies this, store
      ensures Valid()
      ensures var e := TransitionEffect(config, InstanceOf(old(View()), p.aggregateId), p, env);
        View() == Apply(old(View()), p.aggregateId, e) && outcome == e.outcome
      ensures p.aggregateId in old(store.loops) ==>
        AllBelong(snapshots[|old(snapshots)|..], old(store.loops)[p.aggregateId], p)
      ensures p.aggregateId !in old(store.loops) ==> snapshots == old(snapshots)
    {
      TransitionBelong(config, InstanceOf(View(), p.aggregateId), p, env);
      var found := store.GetInstance(p.aggregateId);
      if found.None? {
        return Threw(InstanceNotFound);
      }
      var instance := found.value;
      if instance.loopId !in config.registry {
        return Threw(DefinitionNotFound);
      }
      var definition := config.registry[instance.loopId];
      if instance.status == Completed || IsTerminal(definition, instance.currentState) {
        return Rejected(instance.currentState, LoopClosed);
      }
      var transition := Find(definition, p.transitionId, instance.currentState);
      if transition.None? {
        return Rejected(instance.currentState, InvalidTransition);
      }
      var authorization := CanActorExecute(p.actor, transition.value, p.requiresHumanApprovalFor);
      if authorization == Unauthorized {
        return Rejected(instance.currentState, UnauthorizedActor);
      }
      if authorization == NeedsApproval {
        return PendingApproval(instance.currentState);
      }
      outcome := RunGuards(definition, instance, transition.value, p, env);
    }

    /** The world `w` with nothing changed but the events `more` delivered. */
    ghost predicate Delivered(w: World, more: seq<LoopEvent>)
      reads this, store
    {
      View() == w.(log := w.log + more)
    }

    /** `transition` from the requested event on. */
    method RunGuards(definition: LoopDefinition, instance: LoopInstance, t: TransitionSpec, p: TransitionParams, env: Environment)
      returns (outcome: Outcome)
      requires Valid()
      requires instance.aggregateId == p.aggregateId
      modifies this, store
      ensures Valid()
      ensures var e := GuardedEffect(config, definition, instance, t, p, env);
        View() == Apply(old(View()), p.aggregateId, e) && outcome == e.outcome
    {
      ghost var w := View();
      var requested := Requested(instance, t, p);
      Emit(requested);
      var evaluated := EvaluateGuards(t.guards, ContextOf(instance, t, p), env.guards);
      if evaluated.None? {
        return Threw(UnknownGuard);
      }
      NoFailures(t.guards, Hard, ContextOf(instance, t, p), env.guards);
      outcome := JudgeGuards(definition, instance, t, p, env, evaluated.value, w, [requested]);
    }

    /** `transition` from the answers of the guards on. */
    method JudgeGuards(definition: LoopDefinition, instance: LoopInstance, t: TransitionSpec, p: TransitionParams, env: Environment,
                       summary: GuardSummary, ghost w: World, ghost before: seq<LoopEvent>)
      returns (outcome: Outcome)
      requires Valid()
      requires instance.aggregateId == p.aggregateId
      requires summary.allPassed <==> summary.hardFailures == []
      requires Delivered(w, before)
      modifies this, store
      ensures Valid()
      ensures var e := JudgedEffect(config, definition, instance, t, p, env, summary.softFailures, summary.hardFailures, before);
        View() == Apply(w, p.aggregateId, e) && outcome == e.outcome
    {
      var soft := summary.softFailures;
      ghost var warnings := GuardEvents(instance, t, p.actor, Soft, soft[..Emittable(soft)]);
      var ok := EmitGuardEvents(instance, t, p.actor, Soft, soft);
      Assoc(w.log, before, warnings);
      if !ok {
        return Threw(EventSchema);
      }
      if !summary.allPassed {
        outcome := Block(instance, t, p, summary.hardFailures, w, before + warnings);
      } else {
        outcome := CommitTransition(definition, instance, t, p, env, soft, w, before + warnings);
      }
    }

    method Block(instance: LoopInstance, t: TransitionSpec, p: TransitionParams, hard: seq<Failure>, ghost w: World, ghost before: seq<LoopEvent>)
      returns (outcome: Outcome)
      requires Valid()
      requires Delivered(w, before)
      modifies this`log
      ensures var e := BlockedEffect(instance, t, p, hard, before);
        View() == Apply(w, p.aggregateId, e) && outcome == e.outcome
    {
      ghost var failures := GuardEvents(instance, t, p.actor, Hard, hard[..Emittable(hard)]);
      var ok := EmitGuardEvents(instance, t, p.actor, Hard, hard);
      Assoc(w.log, before, failures);
      if !ok {
        return Threw(EventSchema);
      }
      var blocked := TransitionBlocked(instance.loopId, instance.aggregateId, t.id, instance.currentState, t.target, p.actor, hard);
      Emit(blocked);
      Assoc(w.log, before + failures, [blocked]);
      return GuardsFailed(instance.currentState, hard);
    }

    /** `transition` from the governed evidence to its result. */
    method CommitTransition(definition: LoopDefinition, instance: LoopInstance, t: TransitionSpec, p: TransitionParams,
                            env: Environment, soft: seq<Failure>, ghost w: World, ghost before: seq<LoopEvent>)
      returns (outcome: Outcome)
      requires Valid()
      requires instance.aggregateId == p.aggregateId
      requires Delivered(w, before)
      modifies this, store
      ensures Valid()
      ensures var e := CommittedEffect(config, definition, instance, t, p, env, soft, before);
        View() == Apply(w, p.aggregateId, e) && outcome == e.outcome
    {
      var committedEvidence := WithWarnings(p.evidence, soft);
      ghost var rows: seq<SnapshotRow> := [];
      if RequiresGovernedEvidence(definition, t) {
        var governedCommit := CommitSnapshots(config.host, TenantOf(instance, p), p.aggregateId, p.evidenceSnapshots, env.freshId);
        if governedCommit.Declined? {
          return Rejected(instance.currentState, Reason.Evidence(governedCommit.reason));
        }
        snapshots := snapshots + governedCommit.rows;
        rows := governedCommit.rows;
        committedEvidence := WithSnapshots(committedEvidence, governedCommit.snapshotIds);
      }
      assert View() == w.(log := w.log + before, snapshots := w.snapshots + rows);
      outcome := Execute(definition, instance, t, p.actor, env.now, soft, committedEvidence, w, before, rows);
    }

    /** `transition` from the save on. */
    method Execute(definition: LoopDefinition, instance: LoopInstance, t: TransitionSpec, actor: ActorRef, now: int, soft: seq<Failure>,
                   evidence: LoopModel.Evidence, ghost w: World, ghost before: seq<LoopEvent>, ghost rows: seq<SnapshotRow>)
      returns (outcome: Outcome)
      requires Valid()
      requires View() == w.(log := w.log + before, snapshots := w.snapshots + rows)
      modifies this, store
      ensures Valid()
      ensures var e := ExecuteEffect(definition, instance, t, actor, now, soft, evidence, rows, before);
        View() == Apply(w, instance.aggregateId, e) && outcome == e.outcome
    {
      var updated := instance.(currentState := t.target, updatedAt := now);
      if IsTerminal(definition, t.target) {
        updated := updated.(status := Completed, completedAt := Some(now));
      }
      store.SaveInstance(updated);
      var record := TransitionRecord(updated.aggregateId, updated.loopId, t.id, t.signal, instance.currentState, t.target,
                                     actor, now, evidence);
      store.SaveTransitionRecord(record);
      var executed := TransitionExecuted(updated.loopId, updated.aggregateId, t.id, instance.currentState, t.target, t.signal,
                                         record.actor, record.evidence, soft);
      var completed := LoopCompleted(updated.loopId, updated.aggregateId, updated.currentState, record.actor,
                                     Max(0, now - updated.startedAt));
      outcome := Announce(definition, updated, executed, completed, Executed(instance.currentState, t.target, soft));
      AssocLog(w.log, before, executed, completed);
    }

    /** Emits the executed event and, when the loop is completed, the completed event. */
    method Announce(definition: LoopDefinition, updated: LoopInstance, executed: LoopEvent, completed: LoopEvent, result: Outcome)
      returns (outcome: Outcome)
      modifies this`log
      ensures var refused := updated.status == Completed && definition.outcome.Some? && definition.outcome.value.valueUnit == "";
        && log == old(log) + ([executed] + (if updated.status == Completed && !refused then [completed] else []))
        && outcome == if refused then Threw(EventSchema) else result
    {
      Emit(executed);
      if updated.status == Completed {
        if definition.outcome.Some? && definition.outcome.value.valueUnit == "" {
          return Threw(EventSchema);
        }
        Emit(completed);
      }
      return result;
    }

    method CancelLoop(a: AggregateId, actor: ActorRef, reason: Option<string>, now: int) returns (outcome: Outcome)
      requires Valid()
      modifies this, store
      ensures Valid()
      ensures var e := CancelEffect(InstanceOf(old(View()), a), actor, reason, now);
        View() == Apply(old(View()), a, e) && outcome == e.outcome
      ensures a in old(store.loops) ==>
        var i := old(store.loops)[a];
        && store.loops == old(store.loops)[a := i.(status := CancelledStatus, completedAt := Some(now), updatedAt := now)]
        && log == old(log) + [LoopCancelled(i.loopId, a, i.currentState, actor, reason)]
    {
      var found := store.GetInstance(a);
      if found.None? {
        return Threw(InstanceNotFound);
      }
      var instance := found.value;
      store.SaveInstance(instance.(status := CancelledStatus, completedAt := Some(now), updatedAt := now));
      var event := LoopCancelled(instance.loopId, instance.aggregateId, instance.currentState, actor, reason);
      Emit(event);
      return Ended(event);
    }

    method FailLoop(a: AggregateId, fromState: StateId, code: string, message: string, now: int) returns (outcome: Outcome)
      requires Valid()
      modifies this, store
      ensures Valid()
      ensures var e := FailEffect(InstanceOf(old(View()), a), fromState, code, message, now);
        View() == Apply(old(View()), a, e) && outcome == e.outcome
      ensures a in old(store.loops) ==>
        var i := old(store.loops)[a];
        && store.loops == old(store.loops)[a := i.(status := FailedStatus, completedAt := Some(now), updatedAt := now)]
        && log == old(log) + if code == "" || message == "" then [] else [LoopFailed(i.loopId, a, fromState, code, message)]
    {
      var found := store.GetInstance(a);
      if found.None? {
        return Threw(InstanceNotFound);
      }
      var instance := found.value;
      store.SaveInstance(instance.(status := FailedStatus, completedAt := Some(now), updatedAt := now));
      if code == "" || message == "" {
        return Threw(EventSchema);
      }
      var event := LoopFailed(instance.loopId, instance.aggregateId, fromState, code, message);
      Emit(event);
      return Ended(event);
    }

    /** Any call, as the step function says. */
    method Perform(call: Call) returns (outcome: Outcome)
      requires Valid()
      modifies this, store
      ensures Valid()
      ensures View() == Step(config, old(View()), call)
      ensures outcome == EffectIn(config, old(View()), call).outcome
    {
      match call {
        case Start(loopId, a, actor, metadata, now) => outcome := StartLoop(loopId, a, actor, metadata, now);
        case Transition(p, env) => outcome := TakeTransition(p, env);
        case Cancel(a, actor, reason, now) => outcome := CancelLoop(a, actor, reason, now);
        case Fail(a, fromState, code, message, now) => outcome := FailLoop(a, fromState, code, message, now);
      }
    }
  }

  lemma AssocLog(log: seq<LoopEvent>, before: seq<LoopEvent>, executed: LoopEvent, completed: LoopEvent)
    ensures log + before + ([executed] + []) == log + (before + [executed] + [])
    ensures log + before + ([executed] + [completed]) == log + (before + [executed] + [completed])
  {
  }

  lemma {:induction false} EmittableStops(fs: seq<Failure>, k: nat)
    requires k < |fs| && Emittable(fs[..k]) == k && fs[k].message == ""
    ensures Emittable(fs) == k
  {
    var n := Emittable(fs);
    forall i | 0 <= i < k
      ensures fs[i].message != ""
    {
      assert fs[..k][i] == fs[i];
    }
  }
}
