/**
 * What the engine keeps over every run of calls on any number of aggregates: histories that
 * replay accepts, and an event log that tells them record for record.
 */
module EngineRuns {
  import opened Prelude
  import opened LoopModel
  import opened Guards
  import opened GovernedEvidence
  import opened LoopEngine
  import opened Replay

  ghost function RunFrom(config: Config, w: World, calls: seq<Call>): World {
    if calls == [] then w else Step(config, RunFrom(config, w, Front(calls)), Last(calls))
  }

  /** The world after a run of calls on a new engine. */
  ghost function Run(config: Config, calls: seq<Call>): World {
    RunFrom(config, EMPTY_WORLD, calls)
  }

  // ---------------------------------------------------------------- the shape of an effect

  /** The transition that the engine takes for a record made in this state. */
  ghost predicate Taken(d: LoopDefinition, state: StateId, r: TransitionRecord) {
    && !IsTerminal(d, state)
    && r.loopId == d.id
    && r.fromState == state
    && match Find(d, r.transitionId, state)
       case None => false
       case Some(t) => t.target == r.toState && t.signal == r.signal && r.actor.kind in t.actors
  }

  /** Restarting, recording and saving: which of them go together, and with what. */
  ghost predicate WellShaped(config: Config, stored: Option<LoopInstance>, a: AggregateId, e: Effect) {
    && (e.restart ==>
          && e.record.None? && e.rows == []
          && e.save.Some? && e.save.value.loopId in config.registry && e.save.value.aggregateId == a
          && e.save.value.currentState == config.registry[e.save.value.loopId].initialState)
    && (e.record.Some? ==>
          && !e.restart && stored.Some? && stored.value.loopId in config.registry && stored.value.status != Completed
          && Taken(config.registry[stored.value.loopId], stored.value.currentState, e.record.value)
          && e.record.value.aggregateId == stored.value.aggregateId
          && e.save.Some? && e.save.value.currentState == e.record.value.toState)
    && (e.save.Some? && !e.restart ==>
          && stored.Some? && e.save.value.loopId == stored.value.loopId
          && e.save.value.aggregateId == stored.value.aggregateId)
    && (e.save.Some? && !e.restart && e.record.None? ==> e.save.value.currentState == stored.value.currentState)
    && (e.save.None? ==> e.record.None? && !e.restart && e.rows == [])
    && (e.record.None? ==> e.rows == [])
  }

  lemma EffectShape(config: Config, stored: Option<LoopInstance>, call: Call)
    requires Consistent(config)
    ensures WellShaped(config, stored, Target(call), EffectOf(config, stored, call))
  {
    if call.Transition? {
      TransitionShape(config, stored, call.params, call.env);
    }
  }

  /** The same for a transition of instance `i` under definition `d`. */
  ghost predicate Shaped(d: LoopDefinition, i: LoopInstance, e: Effect) {
    && !e.restart
    && (e.record.None? ==> e.save.None? && e.rows == [])
    && (e.record.Some? ==>
          && i.status != Completed
          && Taken(d, i.currentState, e.record.value)
          && e.record.value.aggregateId == i.aggregateId
          && e.save.Some?
          && e.save.value.loopId == i.loopId
          && e.save.value.aggregateId == i.aggregateId
          && e.save.value.currentState == e.record.value.toState)
  }

  /** The transition `t` is the one that actor `p.actor` may take next. */
  ghost predicate Ready(d: LoopDefinition, i: LoopInstance, t: TransitionSpec, p: TransitionParams) {
    && i.loopId == d.id && i.status != Completed && !IsTerminal(d, i.currentState)
    && Find(d, t.id, i.currentState) == Some(t)
    && p.actor.kind in t.actors
  }

  lemma CommittedShape(config: Config, d: LoopDefinition, i: LoopInstance, t: TransitionSpec, p: TransitionParams,
                       env: Environment, soft: seq<Failure>, before: seq<LoopEvent>)
    requires Ready(d, i, t, p)
    ensures Shaped(d, i, CommittedEffect(config, d, i, t, p, env, soft, before))
  {
  }

  lemma GuardedShape(config: Config, d: LoopDefinition, i: LoopInstance, t: TransitionSpec, p: TransitionParams, env: Environment)
    requires Ready(d, i, t, p)
    ensures Shaped(d, i, GuardedEffect(config, d, i, t, p, env))
  {
    if Known(t.guards, env.guards) {
      var soft := Failures(t.guards, Soft, ContextOf(i, t, p), env.guards);
      CommittedShape(config, d, i, t, p, env, soft,
                     [Requested(i, t, p)] + GuardEvents(i, t, p.actor, Soft, soft[..Emittable(soft)]));
    }
  }

  lemma TransitionShape(config: Config, stored: Option<LoopInstance>, p: TransitionParams, env: Environment)
    requires Consistent(config)
    ensures var e := TransitionEffect(config, stored, p, env);
      && (e.record.Some? ==> stored.Some? && stored.value.loopId in config.registry)
      && !e.restart
      && (e.record.None? ==> e.save.None? && e.rows == [])
      && (stored.Some? && stored.value.loopId in config.registry ==>
            Shaped(config.registry[stored.value.loopId], stored.value, e))
  {
    if stored.Some? && stored.value.loopId in config.registry {
      var i := stored.value;
      var d := config.registry[i.loopId];
      var t := Find(d, p.transitionId, i.currentState);
      if i.status != Completed && !IsTerminal(d, i.currentState) && t.Some?
         && CanActorExecute(p.actor, t.value, p.requiresHumanApprovalFor) == Authorized {
        GuardedShape(config, d, i, t.value, p, env);
      }
    }
  }

  // ---------------------------------------------------------------- replay

  /** A walk that takes, in every state, the first transition with the id asked for. */
  ghost predicate IsTakenPath(d: LoopDefinition, start: StateId, records: seq<TransitionRecord>) {
    records == [] || (IsTakenPath(d, start, Front(records)) && Taken(d, EndState(start, Front(records)), Last(records)))
  }

  lemma {:induction false} TakenPathIsPath(d: LoopDefinition, start: StateId, records: seq<TransitionRecord>)
    requires IsTakenPath(d, start, records)
    ensures IsPath(d, start, records)
  {
    if records != [] {
      TakenPathIsPath(d, start, Front(records));
    }
  }

  /** The records since the latest start. */
  function Since(w: World, a: AggregateId): seq<TransitionRecord>
    requires a in w.marks && w.marks[a] <= |HistoryOf(w, a)|
  {
    HistoryOf(w, a)[w.marks[a]..]
  }

  /** The stored instance stands at the end of the records since its latest start. */
  ghost predicate Standing(config: Config, w: World, a: AggregateId) {
    a in w.instances ==>
      var i := w.instances[a];
      && i.aggregateId == a
      && i.loopId in config.registry
      && a in w.marks && w.marks[a] <= |HistoryOf(w, a)|
      && var d := config.registry[i.loopId];
         IsTakenPath(d, d.initialState, Since(w, a)) && EndState(d.initialState, Since(w, a)) == i.currentState
  }

  lemma SinceGrows(w: World, a: AggregateId, e: Effect)
    requires a in w.marks && w.marks[a] <= |HistoryOf(w, a)| && !e.restart
    ensures var w' := Apply(w, a, e);
      && a in w'.marks && w'.marks[a] <= |HistoryOf(w', a)|
      && Since(w', a) == if e.record.Some? then Since(w, a) + [e.record.value] else Since(w, a)
  {
  }

  lemma StandingApply(config: Config, w: World, a: AggregateId, e: Effect)
    requires Standing(config, w, a) && WellShaped(config, InstanceOf(w, a), a, e)
    ensures Standing(config, Apply(w, a, e), a)
  {
    if e.restart {
      assert Since(Apply(w, a, e), a) == [];
    } else if a in w.instances {
      SinceGrows(w, a, e);
      if e.record.Some? {
        FrontLastSnoc(Since(w, a), e.record.value);
      }
    }
  }

  lemma StandingStep(config: Config, w: World, call: Call, a: AggregateId)
    requires Consistent(config) && Standing(config, w, a)
    requires a == Target(call)
    ensures Standing(config, Step(config, w, call), a)
  {
    EffectShape(config, InstanceOf(w, a), call);
    StandingApply(config, w, a, EffectIn(config, w, call));
  }

  /** A call changes nothing of another aggregate: neither its instance nor its history nor its mark. */
  lemma OthersUntouched(config: Config, w: World, call: Call, a: AggregateId)
    requires a != Target(call)
    ensures var w' := Step(config, w, call);
      InstanceOf(w', a) == InstanceOf(w, a) && HistoryOf(w', a) == HistoryOf(w, a)
      && (a in w'.marks <==> a in w.marks) && (a in w.marks ==> w'.marks[a] == w.marks[a])
  {
  }

  lemma {:induction false} AlwaysStanding(config: Config, calls: seq<Call>, a: AggregateId)
    requires Consistent(config)
    ensures Standing(config, Run(config, calls), a)
  {
    if calls != [] {
      var w, call := Run(config, Front(calls)), Last(calls);
      AlwaysStanding(config, Front(calls), a);
      if a == Target(call) {
        StandingStep(config, w, call, a);
      } else {
        OthersUntouched(config, w, call, a);
      }
    }
  }

  /**
   * In every run, the history recorded since an aggregate's latest start is one that replay
   * accepts, and it ends in the instance's current state.
   */
  lemma ReplayAccepts(config: Config, calls: seq<Call>, a: AggregateId)
    requires Consistent(config)
    requires a in Run(config, calls).instances
    ensures var w := Run(config, calls);
      && w.instances[a].loopId in config.registry
      && a in w.marks && w.marks[a] <= |HistoryOf(w, a)|
      && var d := config.registry[w.instances[a].loopId];
         IsPath(d, d.initialState, Since(w, a)) && EndState(d.initialState, Since(w, a)) == w.instances[a].currentState
  {
    var w := Run(config, calls);
    AlwaysStanding(config, calls, a);
    var d := config.registry[w.instances[a].loopId];
    TakenPathIsPath(d, d.initialState, Since(w, a));
  }

  // ---------------------------------------------------------------- history and log

  /** What a record and an executed event both say. */
  datatype Fact = Fact(loopId: LoopId, transitionId: TransitionId, signal: SignalId, fromState: StateId, toState: StateId,
                       actor: ActorRef, evidence: LoopModel.Evidence)

  function FactOf(r: TransitionRecord): Fact {
    Fact(r.loopId, r.transitionId, r.signal, r.fromState, r.toState, r.actor, r.evidence)
  }

  function RecordedFacts(records: seq<TransitionRecord>): seq<Fact> {
    if records == [] then [] else RecordedFacts(Front(records)) + [FactOf(Last(records))]
  }

  function FactsIn(event: LoopEvent, a: AggregateId): seq<Fact> {
    match event
    case TransitionExecuted(l, b, id, origin, target, signal, actor, evidence, _) =>
      if b == a then [Fact(l, id, signal, origin, target, actor, evidence)] else []
    case _ => []
  }

  /** The executed events of an aggregate, in log order. */
  function ExecutedFacts(log: seq<LoopEvent>, a: AggregateId): seq<Fact> {
    if log == [] then [] else ExecutedFacts(Front(log), a) + FactsIn(Last(log), a)
  }

  lemma {:induction false} ExecutedFactsAppend(log: seq<LoopEvent>, more: seq<LoopEvent>, a: AggregateId)
    ensures ExecutedFacts(log + more, a) == ExecutedFacts(log, a) + ExecutedFacts(more, a)
  {
    if more == [] {
      assert log + more == log;
    } else {
      ExecutedFactsAppend(log, Front(more), a);
      FrontLast(more);
      Assoc(log, Front(more), [Last(more)]);
      FrontLastSnoc(log + Front(more), Last(more));
      Assoc(ExecutedFacts(log, a), ExecutedFacts(Front(more), a), FactsIn(Last(more), a));
    }
  }

  lemma {:induction false} NoFacts(es: seq<LoopEvent>, a: AggregateId)
    requires forall k | 0 <= k < |es| :: FactsIn(es[k], a) == []
    ensures ExecutedFacts(es, a) == []
  {
    if es != [] {
      NoFacts(Front(es), a);
    }
  }

  /** The events of a call say that a transition was executed exactly when a record is made, and say the same of it. */
  lemma EffectFacts(config: Config, stored: Option<LoopInstance>, call: Call, a: AggregateId)
    requires stored.Some? ==> stored.value.aggregateId == Target(call)
    ensures FactsAgree(EffectOf(config, stored, call), Target(call), a)
  {
    var e := EffectOf(config, stored, call);
    if call.Transition? {
      TransitionFacts(config, stored, call.params, call.env, a);
    } else {
      NoFacts(e.events, a);
    }
  }

  ghost predicate FactsAgree(e: Effect, a: AggregateId, b: AggregateId) {
    ExecutedFacts(e.events, b) == if e.record.Some? && a == b then [FactOf(e.record.value)] else []
  }

  lemma ExecuteFacts(d: LoopDefinition, i: LoopInstance, t: TransitionSpec, actor: ActorRef, now: int, soft: seq<Failure>,
                     evidence: LoopModel.Evidence, rows: seq<SnapshotRow>, before: seq<LoopEvent>, b: AggregateId)
    requires ExecutedFacts(before, b) == []
    ensures FactsAgree(ExecuteEffect(d, i, t, actor, now, soft, evidence, rows, before), i.aggregateId, b)
  {
    var executed := TransitionExecuted(i.loopId, i.aggregateId, t.id, i.currentState, t.target, t.signal, actor, evidence, soft);
    var completed := LoopCompleted(i.loopId, i.aggregateId, t.target, actor, Max(0, now - i.startedAt));
    FactsOfExecuted(before, executed, b);
    FactsOfOther(before + [executed], completed, b);
    ExecuteEvents(d, i, t, actor, now, soft, evidence, rows, before, executed, completed);
  }

  lemma ExecuteEvents(d: LoopDefinition, i: LoopInstance, t: TransitionSpec, actor: ActorRef, now: int, soft: seq<Failure>,
                      evidence: LoopModel.Evidence, rows: seq<SnapshotRow>, before: seq<LoopEvent>, executed: LoopEvent, completed: LoopEvent)
    requires executed == TransitionExecuted(i.loopId, i.aggregateId, t.id, i.currentState, t.target, t.signal, actor, evidence, soft)
    requires completed == LoopCompleted(i.loopId, i.aggregateId, t.target, actor, Max(0, now - i.startedAt))
    ensures var e := ExecuteEffect(d, i, t, actor, now, soft, evidence, rows, before);
      && (e.events == before + [executed] || e.events == before + [executed] + [completed])
      && e.record.Some?
      && FactsIn(executed, i.aggregateId) == [FactOf(e.record.value)]
      && forall b | b != i.aggregateId :: FactsIn(executed, b) == []
  {
    assert before + [executed] + [] == before + [executed];
  }

  lemma FactsOfExecuted(before: seq<LoopEvent>, executed: LoopEvent, b: AggregateId)
    requires ExecutedFacts(before, b) == []
    ensures ExecutedFacts(before + [executed], b) == FactsIn(executed, b)
  {
    FrontLastSnoc(before, executed);
    assert [] + FactsIn(executed, b) == FactsIn(executed, b);
  }

  lemma FactsOfOther(before: seq<LoopEvent>, other: LoopEvent, b: AggregateId)
    requires !other.TransitionExecuted?
    ensures ExecutedFacts(before + [other], b) == ExecutedFacts(before, b)
  {
    FrontLastSnoc(before, other);
    assert ExecutedFacts(before, b) + [] == ExecutedFacts(before, b);
  }

  lemma CommittedFacts(config: Config, d: LoopDefinition, i: LoopInstance, t: TransitionSpec, p: TransitionParams,
                       env: Environment, soft: seq<Failure>, before: seq<LoopEvent>, b: AggregateId)
    requires ExecutedFacts(before, b) == []
    ensures FactsAgree(CommittedEffect(config, d, i, t, p, env, soft, before), i.aggregateId, b)
  {
    var evidence := WithWarnings(p.evidence, soft);
    ExecuteFacts(d, i, t, p.actor, env.now, soft, evidence, [], before, b);
    var commit := Commit(config.host, TenantOf(i, p), p.aggregateId, p.evidenceSnapshots, env.freshId);
    if commit.Committed? {
      ExecuteFacts(d, i, t, p.actor, env.now, soft, WithSnapshots(evidence, commit.snapshotIds), commit.rows, before, b);
    }
  }

  lemma GuardEventsHaveNoFacts(before: seq<LoopEvent>, i: LoopInstance, t: TransitionSpec, actor: ActorRef, severity: Severity,
                               fs: seq<Failure>, b: AggregateId)
    requires ExecutedFacts(before, b) == []
    ensures ExecutedFacts(before + GuardEvents(i, t, actor, severity, fs), b) == []
  {
    var more := GuardEvents(i, t, actor, severity, fs);
    NoFacts(more, b);
    ExecutedFactsAppend(before, more, b);
  }

  lemma BlockedFacts(i: LoopInstance, t: TransitionSpec, p: TransitionParams, hard: seq<Failure>, before: seq<LoopEvent>, b: AggregateId)
    requires ExecutedFacts(before, b) == []
    ensures FactsAgree(BlockedEffect(i, t, p, hard, before), i.aggregateId, b)
  {
    var e := BlockedEffect(i, t, p, hard, before);
    GuardEventsHaveNoFacts(before, i, t, p.actor, Hard, hard[..Emittable(hard)], b);
    if Emittable(hard) == |hard| {
      var blocked := [TransitionBlocked(i.loopId, i.aggregateId, t.id, i.currentState, t.target, p.actor, hard)];
      NoFacts(blocked, b);
      ExecutedFactsAppend(before + GuardEvents(i, t, p.actor, Hard, hard[..Emittable(hard)]), blocked, b);
    }
  }

  lemma JudgedFacts(config: Config, d: LoopDefinition, i: LoopInstance, t: TransitionSpec, p: TransitionParams, env: Environment,
                    soft: seq<Failure>, hard: seq<Failure>, before: seq<LoopEvent>, b: AggregateId)
    requires ExecutedFacts(before, b) == []
    ensures FactsAgree(JudgedEffect(config, d, i, t, p, env, soft, hard, before), i.aggregateId, b)
  {
    var warned := before + GuardEvents(i, t, p.actor, Soft, soft[..Emittable(soft)]);
    GuardEventsHaveNoFacts(before, i, t, p.actor, Soft, soft[..Emittable(soft)], b);
    BlockedFacts(i, t, p, hard, warned, b);
    CommittedFacts(config, d, i, t, p, env, soft, warned, b);
  }

  lemma GuardedFacts(config: Config, d: LoopDefinition, i: LoopInstance, t: TransitionSpec, p: TransitionParams, env: Environment, b: AggregateId)
    ensures FactsAgree(GuardedEffect(config, d, i, t, p, env), i.aggregateId, b)
  {
    var requested := [Requested(i, t, p)];
    NoFacts(requested, b);
    if Known(t.guards, env.guards) {
      var context := ContextOf(i, t, p);
      JudgedFacts(config, d, i, t, p, env, Failures(t.guards, Soft, context, env.guards),
                  Failures(t.guards, Hard, context, env.guards), requested, b);
    }
  }

  lemma TransitionFacts(config: Config, stored: Option<LoopInstance>, p: TransitionParams, env: Environment, b: AggregateId)
    requires stored.Some? ==> stored.value.aggregateId == p.aggregateId
    ensures FactsAgree(TransitionEffect(config, stored, p, env), p.aggregateId, b)
  {
    if stored.Some? && stored.value.loopId in config.registry {
      var i := stored.value;
      var d := config.registry[i.loopId];
      var t := Find(d, p.transitionId, i.currentState);
      if t.Some? {
        GuardedFacts(config, d, i, t.value, p, env, b);
      }
    }
  }

  /** In every run, the executed events of an aggregate are its stored history, record for record and in order. */
  lemma {:induction false} LogMatchesHistory(config: Config, calls: seq<Call>, a: AggregateId)
    requires Consistent(config)
    ensures var w := Run(config, calls);
      ExecutedFacts(w.log, a) == RecordedFacts(HistoryOf(w, a))
  {
    if calls != [] {
      var w, call := Run(config, Front(calls)), Last(calls);
      LogMatchesHistory(config, Front(calls), a);
      AlwaysStanding(config, Front(calls), Target(call));
      var e := EffectIn(config, w, call);
      ExecutedFactsAppend(w.log, e.events, a);
      EffectFacts(config, InstanceOf(w, Target(call)), call, a);
      if a != Target(call) {
        OthersUntouched(config, w, call, a);
      } else if e.record.Some? {
        FrontLastSnoc(HistoryOf(w, a), e.record.value);
      }
    }
  }
}
