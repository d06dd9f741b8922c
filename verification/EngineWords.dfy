/**
 * The words of the event log: what a transition call that answers has emitted, event by event,
 * and how the log of a run is made of the words of its calls.
 */
module EngineWords {
  import opened Prelude
  import opened LoopModel
  import opened Guards
  import opened GovernedEvidence
  import opened LoopEngine
  import opened EngineRuns

  // ---------------------------------------------------------------- the word of a call

  /** What the guards of a call are shown: the actor, the instance, the move and the evidence that came with it. */
  function CallContext(i: LoopInstance, t: TransitionSpec, p: TransitionParams): GuardContext {
    GuardContext(p.actor, i.loopId, i.aggregateId, i.currentState, t.target, t.signal, p.evidence, i.metadata)
  }

  /** The guards of one severity that fail in this call, in the order of the definition. */
  function FailingGuards(i: LoopInstance, t: TransitionSpec, p: TransitionParams, env: Environment, severity: Severity): seq<Failure>
    requires Known(t.guards, env.guards)
  {
    Failures(t.guards, severity, CallContext(i, t, p), env.guards)
  }

  /** The request, and one event for each soft failure. */
  function Opening(i: LoopInstance, t: TransitionSpec, p: TransitionParams, soft: seq<Failure>): seq<LoopEvent> {
    [TransitionRequested(i.loopId, i.aggregateId, t.id, i.currentState, t.target, t.signal, p.actor, p.evidence)]
    + GuardEvents(i, t, p.actor, Soft, soft)
  }

  /** One event for each hard failure, and the block. */
  function BlockedTail(i: LoopInstance, t: TransitionSpec, p: TransitionParams, hard: seq<Failure>): seq<LoopEvent> {
    GuardEvents(i, t, p.actor, Hard, hard)
    + [TransitionBlocked(i.loopId, i.aggregateId, t.id, i.currentState, t.target, p.actor, hard)]
  }

  /** The execution, and the completion exactly at a terminal target. */
  function ExecutedTail(d: LoopDefinition, i: LoopInstance, t: TransitionSpec, p: TransitionParams, now: int, soft: seq<Failure>,
                        evidence: LoopModel.Evidence): seq<LoopEvent>
  {
    [TransitionExecuted(i.loopId, i.aggregateId, t.id, i.currentState, t.target, t.signal, p.actor, evidence, soft)]
    + if IsTerminal(d, t.target)
      then [LoopCompleted(i.loopId, i.aggregateId, t.target, p.actor, Max(0, now - i.startedAt))] else []
  }

  /** The completed event of this transition carries an empty unit, which the event schema refuses. */
  predicate CompletionRefused(d: LoopDefinition, t: TransitionSpec) {
    IsTerminal(d, t.target) && d.outcome.Some? && d.outcome.value.valueUnit == ""
  }

  predicate AllSpeak(fs: seq<Failure>) {
    forall k | 0 <= k < |fs| :: fs[k].message != ""
  }

  /** The n-th failure is the first without a message. */
  ghost predicate FirstSilent(fs: seq<Failure>, n: nat) {
    n < |fs| && fs[n].message == "" && AllSpeak(fs[..n])
  }

  /** The word up to the first event that the schema refuses: a failure without a message, or a completion without a unit. */
  ghost predicate IsCutWord(d: LoopDefinition, i: LoopInstance, t: TransitionSpec, p: TransitionParams,
                            soft: seq<Failure>, hard: seq<Failure>, e: Effect)
  {
    || (exists n: nat :: FirstSilent(soft, n) && e.record.None? && e.events == Opening(i, t, p, soft[..n]))
    || (AllSpeak(soft) && e.record.None? &&
        exists n: nat :: FirstSilent(hard, n) && e.events == Opening(i, t, p, soft) + GuardEvents(i, t, p.actor, Hard, hard[..n]))
    || (AllSpeak(soft) && hard == [] && e.record.Some? && CompletionRefused(d, t)
        && e.events == Opening(i, t, p, soft) + [TransitionExecuted(i.loopId, i.aggregateId, t.id, i.currentState, t.target, t.signal,
                                                                    p.actor, e.record.value.evidence, soft)])
  }

  /** Why a batch that cannot be stored is declined. */
  ghost predicate DeclinedFor(host: Host, batch: Batch, why: RejectionReason) {
    && !Storable(host, batch)
    && match why
       case EvidenceRequired => batch == NotAnArray || batch == Batch([])
       case SnapshotStoreRequired => !host.hasSnapshotStore && Storable(host.(hasSnapshotStore := true), batch)
       case InvalidEvidenceSnapshot =>
         batch != NotAnArray && batch != Batch([]) && !Storable(host.(hasSnapshotStore := true), batch)
  }

  /** The word that belongs to an answer once the transition was found and the actor may take it. */
  ghost predicate IsJudgedWord(config: Config, d: LoopDefinition, i: LoopInstance, t: TransitionSpec, p: TransitionParams,
                               env: Environment, soft: seq<Failure>, hard: seq<Failure>, e: Effect)
  {
    match e.outcome
    case GuardsFailed(origin, failures) =>
      && hard != [] && AllSpeak(soft) && AllSpeak(hard) && failures == hard && origin == i.currentState
      && e.record.None?
      && e.events == Opening(i, t, p, soft) + BlockedTail(i, t, p, hard)
    case Executed(origin, target, warnings) =>
      && hard == [] && AllSpeak(soft) && !CompletionRefused(d, t) && warnings == soft && origin == i.currentState && target == t.target
      && e.record.Some?
      && e.events == Opening(i, t, p, soft) + ExecutedTail(d, i, t, p, env.now, soft, e.record.value.evidence)
    case Rejected(origin, reason) =>
      && hard == [] && AllSpeak(soft) && origin == i.currentState
      && (d.governed || t.governed)
      && reason.Evidence? && DeclinedFor(config.host, p.evidenceSnapshots, reason.why)
      && e.record.None?
      && e.events == Opening(i, t, p, soft)
    case Threw(error) => error == EventSchema && IsCutWord(d, i, t, p, soft, hard, e)
    case _ => false
  }

  /**
   * The word that belongs to an answer: nothing when the loop is closed, no transition is found,
   * the actor may not take it or needs approval; the request alone when a guard is unknown;
   * otherwise that of the judged transition, with all failing guards in it.
   */
  ghost predicate IsWord(config: Config, d: LoopDefinition, i: LoopInstance, p: TransitionParams, env: Environment, e: Effect) {
    if i.status == Completed || IsTerminal(d, i.currentState) then
      e.outcome == Rejected(i.currentState, LoopClosed) && e.events == []
    else
      match Find(d, p.transitionId, i.currentState)
      case None => e.outcome == Rejected(i.currentState, InvalidTransition) && e.events == []
      case Some(t) =>
        if p.actor.kind !in t.actors then
          e.outcome == Rejected(i.currentState, UnauthorizedActor) && e.events == []
        else if p.actor.kind == AiAgent && p.transitionId in p.requiresHumanApprovalFor then
          e.outcome == PendingApproval(i.currentState) && e.events == []
        else if exists g :: g in t.guards && g.id !in env.guards then
          e.outcome == Threw(UnknownGuard) && e.events == Opening(i, t, p, [])
        else
          IsJudgedWord(config, d, i, t, p, env, FailingGuards(i, t, p, env, Soft), FailingGuards(i, t, p, env, Hard), e)
  }

  lemma ExecuteWord(d: LoopDefinition, i: LoopInstance, t: TransitionSpec, p: TransitionParams, now: int, soft: seq<Failure>,
                    evidence: LoopModel.Evidence, rows: seq<SnapshotRow>, before: seq<LoopEvent>)
    requires i.status != Completed
    ensures var e := ExecuteEffect(d, i, t, p.actor, now, soft, evidence, rows, before);
      && e.record.Some? && e.record.value.evidence == evidence
      && e.outcome == (if CompletionRefused(d, t) then Threw(EventSchema) else Executed(i.currentState, t.target, soft))
      && e.events == before + if CompletionRefused(d, t) then ExecutedTail(d, i, t, p, now, soft, evidence)[..1]
                              else ExecutedTail(d, i, t, p, now, soft, evidence)
  {
    var executed := TransitionExecuted(i.loopId, i.aggregateId, t.id, i.currentState, t.target, t.signal, p.actor, evidence, soft);
    var completed := LoopCompleted(i.loopId, i.aggregateId, t.target, p.actor, Max(0, now - i.startedAt));
    Assoc(before, [executed], [completed]);
    Assoc(before, [executed], []);
  }

  lemma CommittedWord(config: Config, d: LoopDefinition, i: LoopInstance, t: TransitionSpec, p: TransitionParams,
                      env: Environment, soft: seq<Failure>)
    requires i.status != Completed && AllSpeak(soft)
    ensures IsJudgedWord(config, d, i, t, p, env, soft, [], CommittedEffect(config, d, i, t, p, env, soft, Opening(i, t, p, soft)))
  {
    var before := Opening(i, t, p, soft);
    var evidence := WithWarnings(p.evidence, soft);
    var commit := Commit(config.host, TenantOf(i, p), p.aggregateId, p.evidenceSnapshots, env.freshId);
    if !RequiresGovernedEvidence(d, t) {
      ExecuteWord(d, i, t, p, env.now, soft, evidence, [], before);
    } else if commit.Declined? {
      VerdictMeans(config.host, p.evidenceSnapshots);
      VerdictMeans(config.host.(hasSnapshotStore := true), p.evidenceSnapshots);
    } else {
      ExecuteWord(d, i, t, p, env.now, soft, WithSnapshots(evidence, commit.snapshotIds), commit.rows, before);
    }
  }

  lemma BlockedWord(config: Config, d: LoopDefinition, i: LoopInstance, t: TransitionSpec, p: TransitionParams,
                    env: Environment, soft: seq<Failure>, hard: seq<Failure>)
    requires hard != [] && AllSpeak(soft)
    ensures IsJudgedWord(config, d, i, t, p, env, soft, hard, BlockedEffect(i, t, p, hard, Opening(i, t, p, soft)))
  {
    var before := Opening(i, t, p, soft);
    var blocked := TransitionBlocked(i.loopId, i.aggregateId, t.id, i.currentState, t.target, p.actor, hard);
    assert hard[..|hard|] == hard;
    if Emittable(hard) < |hard| {
      assert FirstSilent(hard, Emittable(hard));
    }
    Assoc(before, GuardEvents(i, t, p.actor, Hard, hard), [blocked]);
  }

  lemma JudgedWord(config: Config, d: LoopDefinition, i: LoopInstance, t: TransitionSpec, p: TransitionParams,
                   env: Environment, soft: seq<Failure>, hard: seq<Failure>)
    requires i.status != Completed
    ensures IsJudgedWord(config, d, i, t, p, env, soft, hard, JudgedEffect(config, d, i, t, p, env, soft, hard, [Requested(i, t, p)]))
  {
    if Emittable(soft) < |soft| {
      assert FirstSilent(soft, Emittable(soft));
    } else {
      assert soft[..|soft|] == soft;
      if hard == [] {
        CommittedWord(config, d, i, t, p, env, soft);
      } else {
        BlockedWord(config, d, i, t, p, env, soft, hard);
      }
    }
  }

  /** The events of a transition call are exactly the word that belongs to its answer, be it thrown. */
  lemma TransitionWord(config: Config, i: LoopInstance, p: TransitionParams, env: Environment)
    requires i.loopId in config.registry
    ensures IsWord(config, config.registry[i.loopId], i, p, env, TransitionEffect(config, Some(i), p, env))
  {
    var d := config.registry[i.loopId];
    if i.status != Completed && !IsTerminal(d, i.currentState) {
      var found := Find(d, p.transitionId, i.currentState);
      if found.Some? && Known(found.value.guards, env.guards) {
        var t := found.value;
        JudgedWord(config, d, i, t, p, env, FailingGuards(i, t, p, env, Soft), FailingGuards(i, t, p, env, Hard));
      }
    }
  }

  // ---------------------------------------------------------------- the words of a run

  /** The world before the k-th call. */
  ghost function Before(config: Config, calls: seq<Call>, k: nat): World
    requires k <= |calls|
  {
    Run(config, calls[..k])
  }

  ghost function EventsOf(config: Config, calls: seq<Call>, k: nat): seq<LoopEvent>
    requires k < |calls|
  {
    EffectIn(config, Before(config, calls, k), calls[k]).events
  }

  /** What the calls emitted, one after the other. */
  ghost function Emitted(config: Config, calls: seq<Call>, n: nat): seq<LoopEvent>
    requires n <= |calls|
  {
    if n == 0 then [] else Emitted(config, calls, n - 1) + EventsOf(config, calls, n - 1)
  }

  lemma {:induction false} LogIsEmitted(config: Config, calls: seq<Call>, n: nat)
    requires n <= |calls|
    ensures Before(config, calls, n).log == Emitted(config, calls, n)
  {
    if n == 0 {
      assert calls[..0] == [];
    } else {
      LogIsEmitted(config, calls, n - 1);
      assert Front(calls[..n]) == calls[..n - 1] && Last(calls[..n]) == calls[n - 1];
      StepEmits(config, Before(config, calls, n - 1), calls[n - 1]);
    }
  }

  lemma StepEmits(config: Config, w: World, call: Call)
    ensures Step(config, w, call).log == w.log + EffectIn(config, w, call).events
  {
  }

  /**
   * The log of every run is what its calls emitted, in order; and each transition call that finds
   * an instance and answers has emitted exactly one word, the one that belongs to its answer.
   */
  lemma LogIsMadeOfWords(config: Config, calls: seq<Call>)
    requires Consistent(config)
    ensures Run(config, calls).log == Emitted(config, calls, |calls|)
    ensures forall k | 0 <= k < |calls| && calls[k].Transition? :: CallIsWord(config, calls, k)
  {
    assert calls[..|calls|] == calls;
    LogIsEmitted(config, calls, |calls|);
    forall k | 0 <= k < |calls| && calls[k].Transition?
      ensures CallIsWord(config, calls, k)
    {
      var w, p := Before(config, calls, k), calls[k].params;
      AlwaysStanding(config, calls[..k], p.aggregateId);
      if p.aggregateId in w.instances {
        TransitionWord(config, w.instances[p.aggregateId], p, calls[k].env);
      }
    }
  }

  ghost predicate CallIsWord(config: Config, calls: seq<Call>, k: nat)
    requires k < |calls| && calls[k].Transition?
  {
    var w, p := Before(config, calls, k), calls[k].params;
    var e := EffectIn(config, w, calls[k]);
    if p.aggregateId in w.instances then
      var i := w.instances[p.aggregateId];
      i.loopId in config.registry && IsWord(config, config.registry[i.loopId], i, p, calls[k].env, e)
    else e.outcome == Threw(InstanceNotFound) && e.events == []
  }
}
