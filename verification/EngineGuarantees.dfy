/**
 * When exactly the engine lets a transition through, and what the status and the times of an
 * instance say in every run.
 */
module EngineGuarantees {
  import opened Prelude
  import opened LoopModel
  import opened Guards
  import opened GovernedEvidence
  import opened LoopEngine
  import opened EngineRuns
  import opened EngineWords

  // ---------------------------------------------------------------- what is let through

  /** Every hard guard passes, and every soft guard that fails says why. */
  ghost predicate GuardsAdmit(guards: seq<GuardSpec>, context: GuardContext, registry: GuardRegistry) {
    && Known(guards, registry)
    && (forall g | g in guards && g.severity == Hard :: registry[g.id](context, g).passed)
    && (forall g | g in guards && g.severity == Soft && !registry[g.id](context, g).passed ::
          registry[g.id](context, g).message.Some? && registry[g.id](context, g).message.value != "")
  }

  /** Where the definition or the transition asks for governed evidence, the batch can be stored. */
  ghost predicate EvidenceAdmits(config: Config, d: LoopDefinition, t: TransitionSpec, p: TransitionParams) {
    d.governed || t.governed ==> Storable(config.host, p.evidenceSnapshots)
  }

  /** The loop is open, the actor may take the transition without approval, and guards and evidence admit it. */
  ghost predicate Admits(config: Config, d: LoopDefinition, i: LoopInstance, p: TransitionParams, env: Environment) {
    && i.status != Completed && !IsTerminal(d, i.currentState)
    && match Find(d, p.transitionId, i.currentState)
       case None => false
       case Some(t) =>
         && p.actor.kind in t.actors
         && !(p.actor.kind == AiAgent && p.transitionId in p.requiresHumanApprovalFor)
         && GuardsAdmit(t.guards, CallContext(i, t, p), env.guards)
         && EvidenceAdmits(config, d, t, p)
  }

  /** The failures in front of the first without a message are all of them exactly when each guard that fails says why. */
  lemma {:induction false} FailuresSpeak(guards: seq<GuardSpec>, severity: Severity, context: GuardContext, registry: GuardRegistry)
    requires Known(guards, registry)
    ensures AllSpeak(Failures(guards, severity, context, registry)) <==>
      forall g | g in guards && g.severity == severity && !registry[g.id](context, g).passed ::
        registry[g.id](context, g).message.Some? && registry[g.id](context, g).message.value != ""
  {
    if guards != [] {
      FailuresSpeak(Front(guards), severity, context, registry);
      FrontLast(guards);
      forall g | g in guards
        ensures g in Front(guards) || g == Last(guards)
      {
      }
      var before := Failures(Front(guards), severity, context, registry);
      var e := Evaluate(Last(guards), context, registry);
      SpeakSnoc(before, Failure(e.guardId, e.message));
    }
  }

  lemma SpeakSnoc(fs: seq<Failure>, f: Failure)
    ensures AllSpeak(fs + [f]) <==> AllSpeak(fs) && f.message != ""
    ensures fs + [] == fs
  {
    assert (fs + [f])[|fs|] == f;
    assert forall k | 0 <= k < |fs| :: (fs + [f])[k] == fs[k];
  }

  lemma EmittableAll(fs: seq<Failure>)
    ensures Emittable(fs) == |fs| <==> AllSpeak(fs)
  {
  }

  lemma GuardedExactly(config: Config, d: LoopDefinition, i: LoopInstance, t: TransitionSpec, p: TransitionParams, env: Environment)
    ensures GuardedEffect(config, d, i, t, p, env).record.Some? <==>
      GuardsAdmit(t.guards, CallContext(i, t, p), env.guards) && EvidenceAdmits(config, d, t, p)
  {
    var context := CallContext(i, t, p);
    if Known(t.guards, env.guards) {
      var soft := Failures(t.guards, Soft, context, env.guards);
      var hard := Failures(t.guards, Hard, context, env.guards);
      NoFailures(t.guards, Hard, context, env.guards);
      FailuresSpeak(t.guards, Soft, context, env.guards);
      EmittableAll(soft);
      JudgedExactly(config, d, i, t, p, env, soft, hard, [Requested(i, t, p)]);
    }
  }

  lemma JudgedExactly(config: Config, d: LoopDefinition, i: LoopInstance, t: TransitionSpec, p: TransitionParams, env: Environment,
                      soft: seq<Failure>, hard: seq<Failure>, before: seq<LoopEvent>)
    ensures JudgedEffect(config, d, i, t, p, env, soft, hard, before).record.Some? <==>
      Emittable(soft) == |soft| && hard == [] && EvidenceAdmits(config, d, t, p)
  {
    CommittedExactly(config, d, i, t, p, env, soft, before + GuardEvents(i, t, p.actor, Soft, soft[..Emittable(soft)]));
  }

  lemma CommittedExactly(config: Config, d: LoopDefinition, i: LoopInstance, t: TransitionSpec, p: TransitionParams,
                         env: Environment, soft: seq<Failure>, before: seq<LoopEvent>)
    ensures CommittedEffect(config, d, i, t, p, env, soft, before).record.Some? <==> EvidenceAdmits(config, d, t, p)
  {
    VerdictMeans(config.host, p.evidenceSnapshots);
  }

  /**
   * A transition is recorded exactly when the loop is open, the first transition found lists the
   * actor and needs no approval, every hard guard passes, every failing soft guard says why, and
   * governed evidence is complete, honest and storable where it is asked for.
   */
  lemma RecordedExactlyWhenAdmitted(config: Config, i: LoopInstance, p: TransitionParams, env: Environment)
    requires i.loopId in config.registry
    ensures TransitionEffect(config, Some(i), p, env).record.Some? <==> Admits(config, config.registry[i.loopId], i, p, env)
  {
    var d := config.registry[i.loopId];
    var found := Find(d, p.transitionId, i.currentState);
    if found.Some? {
      GuardedExactly(config, d, i, found.value, p, env);
    }
  }

  // ---------------------------------------------------------------- stored and yet thrown

  /** What a recorded transition answers. */
  ghost predicate AnswersRecorded(d: LoopDefinition, i: LoopInstance, t: TransitionSpec, soft: seq<Failure>, e: Effect) {
    && (e.record.Some? ==>
          e.outcome == if CompletionRefused(d, t) then Threw(EventSchema) else Executed(i.currentState, t.target, soft))
    && (e.record.Some? ==> e.save.Some?)
    && (e.record.None? ==> !e.outcome.Executed? && e.save.None? && e.rows == [])
    && !e.restart
  }

  lemma CommittedAnswers(config: Config, d: LoopDefinition, i: LoopInstance, t: TransitionSpec, p: TransitionParams,
                         env: Environment, soft: seq<Failure>, before: seq<LoopEvent>)
    requires i.status != Completed
    ensures AnswersRecorded(d, i, t, soft, CommittedEffect(config, d, i, t, p, env, soft, before))
  {
  }

  lemma GuardedAnswers(config: Config, d: LoopDefinition, i: LoopInstance, t: TransitionSpec, p: TransitionParams, env: Environment)
    requires i.status != Completed && Known(t.guards, env.guards)
    ensures AnswersRecorded(d, i, t, FailingGuards(i, t, p, env, Soft), GuardedEffect(config, d, i, t, p, env))
  {
    var soft := FailingGuards(i, t, p, env, Soft);
    CommittedAnswers(config, d, i, t, p, env, soft,
                     [Requested(i, t, p)] + GuardEvents(i, t, p.actor, Soft, soft[..Emittable(soft)]));
  }

  /** The transition is admitted and then answered, or admitted and stored and then thrown on. */
  ghost predicate AdmittedAnswer(config: Config, d: LoopDefinition, i: LoopInstance, p: TransitionParams, env: Environment, outcome: Outcome) {
    && Admits(config, d, i, p, env)
    && var t := Find(d, p.transitionId, i.currentState).value;
       outcome == if CompletionRefused(d, t) then Threw(EventSchema)
                  else Executed(i.currentState, t.target, FailingGuards(i, t, p, env, Soft))
  }

  lemma TransitionAnswers(config: Config, i: LoopInstance, p: TransitionParams, env: Environment)
    requires i.loopId in config.registry
    ensures var d, e := config.registry[i.loopId], TransitionEffect(config, Some(i), p, env);
      && (e.record.Some? ==> AdmittedAnswer(config, d, i, p, env, e.outcome) && e.save.Some?)
      && (e.record.None? ==> !e.outcome.Executed? && e.save.None? && e.rows == [])
      && !e.restart
  {
    var d := config.registry[i.loopId];
    RecordedExactlyWhenAdmitted(config, i, p, env);
    if i.status != Completed && !IsTerminal(d, i.currentState) {
      var found := Find(d, p.transitionId, i.currentState);
      if found.Some? && Known(found.value.guards, env.guards) {
        GuardedAnswers(config, d, i, found.value, p, env);
      }
    }
  }

  /** A call whose event is refused by the schema after it has saved. */
  ghost predicate RefusedAfterSave(config: Config, stored: Option<LoopInstance>, call: Call) {
    match call
    case Start(loopId, _, _, _, _) =>
      && loopId in config.registry
      && !(stored.Some? && stored.value.status == Active)
      && (config.registry[loopId].version == "" || config.registry[loopId].name == "")
    case Transition(p, env) =>
      && stored.Some? && stored.value.loopId in config.registry
      && var d, i := config.registry[stored.value.loopId], stored.value;
         Admits(config, d, i, p, env) && CompletionRefused(d, Find(d, p.transitionId, i.currentState).value)
    case Cancel(_, _, _, _) => false
    case Fail(_, _, code, message, _) => stored.Some? && (code == "" || message == "")
  }

  /**
   * A call throws after it has saved exactly when it starts a loop without a version or a name,
   * fails a loop with an empty code or message, or completes a loop whose unit is empty by a
   * transition that is admitted. Any other call that throws saves, records and stores nothing.
   */
  lemma ThrowsAfterSaveExactly(config: Config, stored: Option<LoopInstance>, call: Call)
    ensures var e := EffectOf(config, stored, call);
      && (e.outcome.Threw? && e.save.Some? <==> RefusedAfterSave(config, stored, call))
      && (e.save.None? ==> e.record.None? && e.rows == [] && !e.restart)
  {
    if call.Transition? && stored.Some? && stored.value.loopId in config.registry {
      TransitionAnswers(config, stored.value, call.params, call.env);
      RecordedExactlyWhenAdmitted(config, stored.value, call.params, call.env);
    }
  }

  ghost predicate AdmittedIn(config: Config, w: World, p: TransitionParams, env: Environment) {
    && p.aggregateId in w.instances
    && w.instances[p.aggregateId].loopId in config.registry
    && Admits(config, config.registry[w.instances[p.aggregateId].loopId], w.instances[p.aggregateId], p, env)
  }

  /**
   * A transition changes instances, histories or stored snapshots exactly when it is admitted; a
   * rejected commit changes nothing. And it answers that it was executed exactly when it is
   * admitted and its completion is not refused.
   */
  lemma OnlyExecutedChanges(config: Config, w: World, p: TransitionParams, env: Environment)
    requires Consistent(config)
    ensures var w' := Step(config, w, Transition(p, env));
      (w'.instances == w.instances && w'.histories == w.histories && w'.snapshots == w.snapshots) <==> !AdmittedIn(config, w, p, env)
    ensures EffectIn(config, w, Transition(p, env)).outcome.Executed? <==>
      AdmittedIn(config, w, p, env) && !RefusedAfterSave(config, InstanceOf(w, p.aggregateId), Transition(p, env))
  {
    var e := EffectIn(config, w, Transition(p, env));
    if p.aggregateId in w.instances && w.instances[p.aggregateId].loopId in config.registry {
      var i := w.instances[p.aggregateId];
      TransitionAnswers(config, i, p, env);
      RecordedExactlyWhenAdmitted(config, i, p, env);
    }
    RecordChanges(w, p.aggregateId, e);
  }

  lemma RecordChanges(w: World, a: AggregateId, e: Effect)
    requires e.record.Some? <==> e.save.Some?
    requires e.record.None? ==> e.rows == []
    ensures var w' := Apply(w, a, e);
      (w'.instances == w.instances && w'.histories == w.histories && w'.snapshots == w.snapshots) <==> e.record.None?
  {
    if e.record.Some? {
      assert HistoryOf(Apply(w, a, e), a) == HistoryOf(w, a) + [e.record.value];
      assert |HistoryOf(Apply(w, a, e), a)| > |HistoryOf(w, a)|;
    }
  }

  const UNITLESS := LoopDefinition(
    "unitless", "1", "Unitless", [StateSpec("A", false), StateSpec("B", true)], "A",
    [TransitionSpec("go", "A", "B", "finish", [Human], [], false)], Some(OutcomeSpec("", ["m"])), false)

  /** A started loop whose unit is empty is brought to its end by a call that throws. */
  lemma UnitlessIsStoredAndThrown(config: Config, a: AggregateId, actor: ActorRef)
    requires Consistent(config) && "unitless" in config.registry && config.registry["unitless"] == UNITLESS
    ensures var w := Run(config, [Start("unitless", a, actor, map[], 0)]);
      var p := TransitionParams(a, "go", ActorRef("u", Human), map[], NotAnArray, None, []);
      var call := Transition(p, Environment(map[], 0, (n: nat) => "id"));
      var w' := Step(config, w, call);
      && EffectIn(config, w, call).outcome == Threw(EventSchema)
      && a in w'.instances && w'.instances[a].currentState == "B" && w'.instances[a].status == Completed
      && HistoryOf(w, a) == [] && |HistoryOf(w', a)| == 1
  {
    var start := Start("unitless", a, actor, map[], 0);
    var w := Run(config, [start]);
    assert Front([start]) == [] && Run(config, []) == EMPTY_WORLD;
    assert w == Step(config, EMPTY_WORLD, start);
    UnitlessEnds(config, w.instances[a]);
  }

  lemma UnitlessEnds(config: Config, i: LoopInstance)
    requires Consistent(config) && "unitless" in config.registry && config.registry["unitless"] == UNITLESS
    requires i.loopId == "unitless" && i.currentState == "A" && i.status == Active
    ensures var p := TransitionParams(i.aggregateId, "go", ActorRef("u", Human), map[], NotAnArray, None, []);
      var e := TransitionEffect(config, Some(i), p, Environment(map[], 0, (n: nat) => "id"));
      && e.outcome == Threw(EventSchema)
      && e.record.Some? && e.save.Some? && e.save.value.currentState == "B" && e.save.value.status == Completed
  {
    var d := UNITLESS;
    var p := TransitionParams(i.aggregateId, "go", ActorRef("u", Human), map[], NotAnArray, None, []);
    var env := Environment(map[], 0, (n: nat) => "id");
    assert d.states[0] == StateSpec("A", false) && d.states[1] == StateSpec("B", true);
    assert IsTerminal(d, "B") && !IsTerminal(d, "A");
    assert Find(d, "go", "A") == Some(d.transitions[0]);
    assert Admits(config, d, i, p, env);
    RecordedExactlyWhenAdmitted(config, i, p, env);
    TransitionAnswers(config, i, p, env);
    TransitionSaves(config, i, p, env);
    TransitionShape(config, Some(i), p, env);
  }

  // ---------------------------------------------------------------- status and times

  /** What is saved with a record: the time of the move, and completion exactly at a terminal state. */
  ghost predicate SavesWell(d: LoopDefinition, i: LoopInstance, e: Effect) {
    e.record.Some? ==>
      && e.save.Some?
      && var s, at := e.save.value, e.record.value.occurredAt;
      && s.updatedAt == at && s.startedAt == i.startedAt && s.metadata == i.metadata
      && (if IsTerminal(d, s.currentState) then s.status == Completed && s.completedAt == Some(at)
          else s.status == i.status && s.completedAt == i.completedAt)
  }

  lemma CommittedSaves(config: Config, d: LoopDefinition, i: LoopInstance, t: TransitionSpec, p: TransitionParams,
                       env: Environment, soft: seq<Failure>, before: seq<LoopEvent>)
    ensures SavesWell(d, i, CommittedEffect(config, d, i, t, p, env, soft, before))
  {
  }

  lemma GuardedSaves(config: Config, d: LoopDefinition, i: LoopInstance, t: TransitionSpec, p: TransitionParams, env: Environment)
    ensures SavesWell(d, i, GuardedEffect(config, d, i, t, p, env))
  {
    if Known(t.guards, env.guards) {
      var soft := FailingGuards(i, t, p, env, Soft);
      CommittedSaves(config, d, i, t, p, env, soft,
                     [Requested(i, t, p)] + GuardEvents(i, t, p.actor, Soft, soft[..Emittable(soft)]));
    }
  }

  lemma TransitionSaves(config: Config, i: LoopInstance, p: TransitionParams, env: Environment)
    requires i.loopId in config.registry
    ensures SavesWell(config.registry[i.loopId], i, TransitionEffect(config, Some(i), p, env))
  {
    var d := config.registry[i.loopId];
    var found := Find(d, p.transitionId, i.currentState);
    if found.Some? {
      GuardedSaves(config, d, i, found.value, p, env);
    }
  }

  /** What status and times of an instance say of its records since the latest start. */
  ghost predicate Tidy(d: LoopDefinition, i: LoopInstance, since: seq<TransitionRecord>) {
    match i.status
    case Active =>
      && i.completedAt.None?
      && i.updatedAt == (if since == [] then i.startedAt else Last(since).occurredAt)
      && (IsTerminal(d, i.currentState) ==> since == [])
    case Completed =>
      && IsTerminal(d, i.currentState)
      && since != []
      && i.updatedAt == Last(since).occurredAt && i.completedAt == Some(i.updatedAt)
    case CancelledStatus => i.completedAt.Some?
    case FailedStatus => i.completedAt.Some?
    case _ => false
  }

  ghost predicate TidyIn(config: Config, w: World, a: AggregateId) {
    Standing(config, w, a)
    && (a in w.instances ==> Tidy(config.registry[w.instances[a].loopId], w.instances[a], Since(w, a)))
  }

  /** What a call saves is tidy, given the records since the latest start. */
  ghost predicate SavesTidy(config: Config, since: seq<TransitionRecord>, e: Effect) {
    e.save.Some? && e.save.value.loopId in config.registry ==>
      var d, s := config.registry[e.save.value.loopId], e.save.value;
      if e.restart then Tidy(d, s, [])
      else if e.record.Some? then Tidy(d, s, since + [e.record.value])
      else s.completedAt.Some? && (s.status == CancelledStatus || s.status == FailedStatus)
  }

  lemma TidyApply(config: Config, w: World, a: AggregateId, e: Effect)
    requires TidyIn(config, w, a) && Standing(config, Apply(w, a, e), a)
    requires WellShaped(config, InstanceOf(w, a), a, e)
    requires SavesTidy(config, if a in w.instances then Since(w, a) else [], e)
    ensures TidyIn(config, Apply(w, a, e), a)
  {
    if e.restart {
      assert Since(Apply(w, a, e), a) == [];
    } else if a in w.instances {
      SinceGrows(w, a, e);
    }
  }

  lemma MoveIsTidy(d: LoopDefinition, i: LoopInstance, since: seq<TransitionRecord>, e: Effect)
    requires Tidy(d, i, since) && SavesWell(d, i, e) && e.record.Some? && i.status != Completed
    ensures Tidy(d, e.save.value, since + [e.record.value])
  {
    FrontLastSnoc(since, e.record.value);
  }

  lemma TransitionIsTidy(config: Config, i: LoopInstance, since: seq<TransitionRecord>, p: TransitionParams, env: Environment)
    requires Consistent(config) && i.loopId in config.registry && Tidy(config.registry[i.loopId], i, since)
    ensures SavesTidy(config, since, TransitionEffect(config, Some(i), p, env))
  {
    var e := TransitionEffect(config, Some(i), p, env);
    TransitionSaves(config, i, p, env);
    TransitionShape(config, Some(i), p, env);
    if e.record.Some? {
      MoveIsTidy(config.registry[i.loopId], i, since, e);
    }
  }

  lemma StartIsTidy(config: Config, stored: Option<LoopInstance>, since: seq<TransitionRecord>, loopId: LoopId, a: AggregateId,
                    actor: ActorRef, metadata: map<string, string>, now: int)
    requires Consistent(config)
    ensures SavesTidy(config, since, StartEffect(config, stored, loopId, a, actor, metadata, now))
  {
  }

  lemma EndIsTidy(config: Config, stored: Option<LoopInstance>, since: seq<TransitionRecord>, call: Call)
    requires call.Cancel? || call.Fail?
    ensures SavesTidy(config, since, EffectOf(config, stored, call))
  {
  }

  lemma TidyStep(config: Config, w: World, call: Call)
    requires Consistent(config) && TidyIn(config, w, Target(call))
    ensures TidyIn(config, Step(config, w, call), Target(call))
  {
    var a, stored := Target(call), InstanceOf(w, Target(call));
    var since := if a in w.instances then Since(w, a) else [];
    EffectShape(config, stored, call);
    StandingApply(config, w, a, EffectIn(config, w, call));
    match call
    case Start(loopId, _, actor, metadata, now) => StartIsTidy(config, stored, since, loopId, a, actor, metadata, now);
    case Transition(p, env) =>
      if stored.Some? {
        TransitionIsTidy(config, stored.value, since, p, env);
      }
    case _ => EndIsTidy(config, stored, since, call);
    TidyApply(config, w, a, EffectIn(config, w, call));
  }

  lemma {:induction false} AlwaysTidyIn(config: Config, calls: seq<Call>, a: AggregateId)
    requires Consistent(config)
    ensures TidyIn(config, Run(config, calls), a)
  {
    if calls != [] {
      var w, call := Run(config, Front(calls)), Last(calls);
      AlwaysTidyIn(config, Front(calls), a);
      if a == Target(call) {
        TidyStep(config, w, call);
      } else {
        OthersUntouched(config, w, call, a);
      }
    }
  }

  /**
   * In every run an instance is completed only in a terminal state that its last record entered,
   * at the time of that record; an active one carries no end and the time of its last record;
   * and none that a record brought to a terminal state is active.
   */
  lemma StatusTellsHistory(config: Config, calls: seq<Call>, a: AggregateId)
    requires Consistent(config) && a in Run(config, calls).instances
    ensures var w := Run(config, calls);
      && w.instances[a].loopId in config.registry && a in w.marks && w.marks[a] <= |HistoryOf(w, a)|
      && Tidy(config.registry[w.instances[a].loopId], w.instances[a], Since(w, a))
  {
    AlwaysTidyIn(config, calls, a);
  }
}
