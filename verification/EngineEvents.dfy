/**
 * The event log tells the state: a reader that sees nothing but the events of an aggregate
 * always knows its current state, and finds every event in its place.
 */
module EngineEvents {
  import opened Prelude
  import opened LoopModel
  import opened Guards
  import opened GovernedEvidence
  import opened LoopEngine
  import opened EngineRuns

  /**
   * What the reader knows between events: nothing has been asked; a transition has been asked
   * for, with or without hard failures so far; a transition has just been executed.
   */
  datatype Phase = Quiet | Asked(id: TransitionId, target: StateId, hard: bool) | JustExecuted

  datatype Reader = Unstarted | At(state: StateId, phase: Phase) | Lost

  function ReadEvent(r: Reader, e: LoopEvent): Reader {
    match e
    case LoopStarted(_, _, initial, _) => if r.Lost? then Lost else At(initial, Quiet)
    case TransitionRequested(_, _, id, origin, target, _, _, _) =>
      if r.At? && r.state == origin then At(r.state, Asked(id, target, false)) else Lost
    case GuardFailed(_, _, id, origin, _, severity, _, _) =>
      if r.At? && r.state == origin && r.phase.Asked? && r.phase.id == id && (r.phase.hard ==> severity == Hard)
      then At(r.state, r.phase.(hard := severity == Hard)) else Lost
    case TransitionBlocked(_, _, id, origin, attempted, _, _) =>
      if r == At(origin, Asked(id, attempted, true)) then At(r.state, Quiet) else Lost
    case TransitionExecuted(_, _, id, origin, target, _, _, _, _) =>
      if r == At(origin, Asked(id, target, false)) then At(target, JustExecuted) else Lost
    case LoopCompleted(_, _, final, _, _) =>
      if r == At(final, JustExecuted) then At(final, Quiet) else Lost
    case LoopCancelled(_, _, origin, _, _) => if r.At? && r.state == origin then At(r.state, Quiet) else Lost
    case LoopFailed(_, _, _, _, _) => if r.At? then At(r.state, Quiet) else Lost
  }

  function ReadEvents(r: Reader, es: seq<LoopEvent>): Reader {
    if es == [] then r else ReadEvent(ReadEvents(r, Front(es)), Last(es))
  }

  lemma {:induction false} ReadAppend(r: Reader, a: seq<LoopEvent>, b: seq<LoopEvent>)
    ensures ReadEvents(r, a + b) == ReadEvents(ReadEvents(r, a), b)
  {
    if b == [] {
      assert a + b == a;
    } else {
      ReadAppend(r, a, Front(b));
      FrontLast(b);
      Assoc(a, Front(b), [Last(b)]);
      FrontLastSnoc(a + Front(b), Last(b));
    }
  }

  lemma ReadOne(r: Reader, e: LoopEvent)
    ensures ReadEvents(r, [e]) == ReadEvent(r, e)
  {
    FrontLastSnoc([], e);
    assert [] + [e] == [e];
  }

  lemma ReadSnoc(r: Reader, a: seq<LoopEvent>, e: LoopEvent)
    ensures ReadEvents(r, a + [e]) == ReadEvent(ReadEvents(r, a), e)
  {
    FrontLastSnoc(a, e);
  }

  // ---------------------------------------------------------------- the events of one call

  /** Where a call leaves the reader, by what the call answers. */
  ghost predicate Tells(d: LoopDefinition, i: LoopInstance, e: Effect, end: Reader) {
    && end.At?
    && end.state == (if e.save.Some? then e.save.value.currentState else i.currentState)
    && match e.outcome
       case Executed(origin, target, _) =>
         origin == i.currentState && end == At(target, if IsTerminal(d, target) then Quiet else JustExecuted)
       case GuardsFailed(origin, failures) => origin == i.currentState && failures != [] && end.phase == Quiet && e.events != []
       case Rejected(origin, Evidence(_)) => origin == i.currentState && end.phase.Asked? && !end.phase.hard && e.events != []
       case Rejected(origin, _) => origin == i.currentState && e.events == []
       case PendingApproval(origin) => origin == i.currentState && e.events == []
       case _ => true
  }

  lemma {:induction false} ReadGuardEvents(r: Reader, i: LoopInstance, t: TransitionSpec, actor: ActorRef, severity: Severity, fs: seq<Failure>)
    requires r == At(i.currentState, Asked(t.id, t.target, false))
    ensures ReadEvents(r, GuardEvents(i, t, actor, severity, fs))
         == At(i.currentState, Asked(t.id, t.target, fs != [] && severity == Hard))
  {
    if fs != [] {
      ReadGuardEvents(r, i, t, actor, severity, Front(fs));
      FrontLastSnoc(GuardEvents(i, t, actor, severity, Front(fs)),
        GuardFailed(i.loopId, i.aggregateId, t.id, i.currentState, Last(fs).guardId, severity, actor, Last(fs).message));
    }
  }

  lemma ExecuteTells(r: Reader, d: LoopDefinition, i: LoopInstance, t: TransitionSpec, actor: ActorRef, now: int, soft: seq<Failure>,
                     evidence: LoopModel.Evidence, rows: seq<SnapshotRow>, before: seq<LoopEvent>)
    requires i.status != Completed
    requires ReadEvents(r, before) == At(i.currentState, Asked(t.id, t.target, false))
    ensures var e := ExecuteEffect(d, i, t, actor, now, soft, evidence, rows, before);
      Tells(d, i, e, ReadEvents(r, e.events))
  {
    var executed := TransitionExecuted(i.loopId, i.aggregateId, t.id, i.currentState, t.target, t.signal, actor, evidence, soft);
    var completed := LoopCompleted(i.loopId, i.aggregateId, t.target, actor, Max(0, now - i.startedAt));
    ReadSnoc(r, before, executed);
    ReadSnoc(r, before + [executed], completed);
    assert before + [executed] + [] == before + [executed];
  }

  lemma CommittedTells(r: Reader, config: Config, d: LoopDefinition, i: LoopInstance, t: TransitionSpec, p: TransitionParams,
                       env: Environment, soft: seq<Failure>, before: seq<LoopEvent>)
    requires i.status != Completed && before != []
    requires ReadEvents(r, before) == At(i.currentState, Asked(t.id, t.target, false))
    ensures var e := CommittedEffect(config, d, i, t, p, env, soft, before);
      Tells(d, i, e, ReadEvents(r, e.events))
  {
    var evidence := WithWarnings(p.evidence, soft);
    ExecuteTells(r, d, i, t, p.actor, env.now, soft, evidence, [], before);
    var commit := Commit(config.host, TenantOf(i, p), p.aggregateId, p.evidenceSnapshots, env.freshId);
    if commit.Committed? {
      ExecuteTells(r, d, i, t, p.actor, env.now, soft, WithSnapshots(evidence, commit.snapshotIds), commit.rows, before);
    }
  }

  lemma BlockedTells(r: Reader, d: LoopDefinition, i: LoopInstance, t: TransitionSpec, p: TransitionParams, hard: seq<Failure>, before: seq<LoopEvent>)
    requires hard != []
    requires ReadEvents(r, before) == At(i.currentState, Asked(t.id, t.target, false))
    ensures var e := BlockedEffect(i, t, p, hard, before);
      Tells(d, i, e, ReadEvents(r, e.events))
  {
    var m := Emittable(hard);
    var failures := GuardEvents(i, t, p.actor, Hard, hard[..m]);
    var blocked := TransitionBlocked(i.loopId, i.aggregateId, t.id, i.currentState, t.target, p.actor, hard);
    ReadGuardEvents(ReadEvents(r, before), i, t, p.actor, Hard, hard[..m]);
    ReadAppend(r, before, failures);
    ReadSnoc(r, before + failures, blocked);
  }

  lemma JudgedTells(r: Reader, config: Config, d: LoopDefinition, i: LoopInstance, t: TransitionSpec, p: TransitionParams, env: Environment,
                    soft: seq<Failure>, hard: seq<Failure>, before: seq<LoopEvent>)
    requires i.status != Completed && before != []
    requires ReadEvents(r, before) == At(i.currentState, Asked(t.id, t.target, false))
    ensures var e := JudgedEffect(config, d, i, t, p, env, soft, hard, before);
      Tells(d, i, e, ReadEvents(r, e.events))
  {
    var warnings := GuardEvents(i, t, p.actor, Soft, soft[..Emittable(soft)]);
    ReadGuardEvents(ReadEvents(r, before), i, t, p.actor, Soft, soft[..Emittable(soft)]);
    ReadAppend(r, before, warnings);
    if hard != [] {
      BlockedTells(r, d, i, t, p, hard, before + warnings);
    }
    CommittedTells(r, config, d, i, t, p, env, soft, before + warnings);
  }

  /** Where the events of a transition call leave a reader that knew the current state. */
  lemma TransitionTells(r: Reader, config: Config, i: LoopInstance, p: TransitionParams, env: Environment)
    requires r.At? && r.state == i.currentState
    requires i.loopId in config.registry
    ensures var e := TransitionEffect(config, Some(i), p, env);
      Tells(config.registry[i.loopId], i, e, ReadEvents(r, e.events))
  {
    var d := config.registry[i.loopId];
    var found := Find(d, p.transitionId, i.currentState);
    if i.status != Completed && !IsTerminal(d, i.currentState) && found.Some?
       && CanActorExecute(p.actor, found.value, p.requiresHumanApprovalFor) == Authorized {
      var t := found.value;
      var requested := Requested(i, t, p);
      ReadOne(r, requested);
      if Known(t.guards, env.guards) {
        var context := ContextOf(i, t, p);
        JudgedTells(r, config, d, i, t, p, env, Failures(t.guards, Soft, context, env.guards),
                    Failures(t.guards, Hard, context, env.guards), [requested]);
      }
    }
  }

  // ---------------------------------------------------------------- the log of a run

  function AggregateOf(e: LoopEvent): AggregateId {
    e.aggregateId
  }

  /** The events of one aggregate, in log order. */
  function LogOf(log: seq<LoopEvent>, a: AggregateId): seq<LoopEvent> {
    if log == [] then []
    else LogOf(Front(log), a) + if AggregateOf(Last(log)) == a then [Last(log)] else []
  }

  lemma {:induction false} LogOfAppend(log: seq<LoopEvent>, more: seq<LoopEvent>, a: AggregateId, b: AggregateId)
    requires AllOf(more, b)
    ensures LogOf(log + more, a) == LogOf(log, a) + if a == b then more else []
  {
    if more == [] {
      assert log + more == log;
    } else {
      LogOfAppend(log, Front(more), a, b);
      FrontLast(more);
      Assoc(log, Front(more), [Last(more)]);
      FrontLastSnoc(log + Front(more), Last(more));
      Assoc(LogOf(log, a), Front(more), [Last(more)]);
    }
  }

  ghost predicate AllOf(es: seq<LoopEvent>, a: AggregateId) {
    forall k | 0 <= k < |es| :: AggregateOf(es[k]) == a
  }

  lemma AllOfAppend(es: seq<LoopEvent>, more: seq<LoopEvent>, a: AggregateId)
    requires AllOf(es, a) && AllOf(more, a)
    ensures AllOf(es + more, a)
  {
  }

  lemma CommittedOf(config: Config, d: LoopDefinition, i: LoopInstance, t: TransitionSpec, p: TransitionParams,
                    env: Environment, soft: seq<Failure>, before: seq<LoopEvent>)
    requires AllOf(before, i.aggregateId)
    ensures AllOf(CommittedEffect(config, d, i, t, p, env, soft, before).events, i.aggregateId)
  {
    var es := CommittedEffect(config, d, i, t, p, env, soft, before).events;
    var more := es[|before|..];
    assert es == before + more;
    AllOfAppend(before, more, i.aggregateId);
  }

  lemma GuardEventsOf(i: LoopInstance, t: TransitionSpec, actor: ActorRef, severity: Severity, fs: seq<Failure>)
    ensures AllOf(GuardEvents(i, t, actor, severity, fs), i.aggregateId)
  {
  }

  lemma BlockedOf(i: LoopInstance, t: TransitionSpec, p: TransitionParams, hard: seq<Failure>, before: seq<LoopEvent>)
    requires AllOf(before, i.aggregateId)
    ensures AllOf(BlockedEffect(i, t, p, hard, before).events, i.aggregateId)
  {
    var failures := GuardEvents(i, t, p.actor, Hard, hard[..Emittable(hard)]);
    GuardEventsOf(i, t, p.actor, Hard, hard[..Emittable(hard)]);
    AllOfAppend(before, failures, i.aggregateId);
  }

  lemma JudgedOf(config: Config, d: LoopDefinition, i: LoopInstance, t: TransitionSpec, p: TransitionParams, env: Environment,
                 soft: seq<Failure>, hard: seq<Failure>, before: seq<LoopEvent>)
    requires AllOf(before, i.aggregateId)
    ensures AllOf(JudgedEffect(config, d, i, t, p, env, soft, hard, before).events, i.aggregateId)
  {
    var warnings := GuardEvents(i, t, p.actor, Soft, soft[..Emittable(soft)]);
    GuardEventsOf(i, t, p.actor, Soft, soft[..Emittable(soft)]);
    AllOfAppend(before, warnings, i.aggregateId);
    BlockedOf(i, t, p, hard, before + warnings);
    CommittedOf(config, d, i, t, p, env, soft, before + warnings);
  }

  lemma GuardedOf(config: Config, d: LoopDefinition, i: LoopInstance, t: TransitionSpec, p: TransitionParams, env: Environment)
    ensures AllOf(GuardedEffect(config, d, i, t, p, env).events, i.aggregateId)
  {
    if Known(t.guards, env.guards) {
      var context := ContextOf(i, t, p);
      JudgedOf(config, d, i, t, p, env, Failures(t.guards, Soft, context, env.guards),
               Failures(t.guards, Hard, context, env.guards), [Requested(i, t, p)]);
    }
  }

  /** A call emits events of its own aggregate only. */
  lemma EventsOfTarget(config: Config, stored: Option<LoopInstance>, call: Call)
    requires stored.Some? ==> stored.value.aggregateId == Target(call)
    ensures AllOf(EffectOf(config, stored, call).events, Target(call))
  {
    if call.Transition? && stored.Some? && stored.value.loopId in config.registry {
      var i := stored.value;
      var d := config.registry[i.loopId];
      var t := Find(d, call.params.transitionId, i.currentState);
      if t.Some? {
        GuardedOf(config, d, i, t.value, call.params, call.env);
      }
    }
  }

  /** The reader of an aggregate's events knows whether it was started, and its current state. */
  ghost predicate Told(w: World, a: AggregateId) {
    var r := ReadEvents(Unstarted, LogOf(w.log, a));
    if a in w.instances then r.At? && r.state == w.instances[a].currentState else r == Unstarted
  }

  /** A start that is stored without an event, because the definition has no version or no name. */
  predicate StartsSilently(config: Config, w: World, call: Call) {
    && call.Start?
    && call.loopId in config.registry
    && !(call.aggregateId in w.instances && w.instances[call.aggregateId].status == Active)
    && (config.registry[call.loopId].version == "" || config.registry[call.loopId].name == "")
  }

  /** A silent start that moves the aggregate: it was not there, or not in the initial state of the loop. */
  predicate Misleads(config: Config, w: World, call: Call, a: AggregateId) {
    && StartsSilently(config, w, call)
    && call.aggregateId == a
    && !(a in w.instances && w.instances[a].currentState == config.registry[call.loopId].initialState)
  }

  lemma OwnCallTells(config: Config, w: World, call: Call, a: AggregateId)
    requires Consistent(config)
    requires Standing(config, w, a) && Told(w, a) && a == Target(call)
    ensures var e := EffectIn(config, w, call);
      var r := ReadEvents(ReadEvents(Unstarted, LogOf(w.log, a)), e.events);
      Misleads(config, w, call, a) <==>
        !(if e.save.Some? then r.At? && r.state == e.save.value.currentState
          else if a in w.instances then r.At? && r.state == w.instances[a].currentState
          else r == Unstarted)
  {
    var e := EffectIn(config, w, call);
    var r := ReadEvents(Unstarted, LogOf(w.log, a));
    if call.Transition? && a in w.instances {
      TransitionTells(r, config, w.instances[a], call.params, call.env);
    } else if |e.events| == 1 {
      ReadOne(r, e.events[0]);
      assert e.events == [e.events[0]];
    } else {
      assert e.events == [];
    }
  }

  lemma OwnCallTold(config: Config, w: World, call: Call, a: AggregateId)
    requires Consistent(config) && Standing(config, w, a) && Told(w, a) && a == Target(call)
    ensures Told(Step(config, w, call), a) <==> !Misleads(config, w, call, a)
  {
    var e := EffectIn(config, w, call);
    EventsOfTarget(config, InstanceOf(w, a), call);
    LogOfAppend(w.log, e.events, a, a);
    OwnCallTells(config, w, call, a);
    ReadAppend(Unstarted, LogOf(w.log, a), e.events);
  }

  lemma OtherCallTold(config: Config, w: World, call: Call, a: AggregateId)
    requires Consistent(config) && Standing(config, w, Target(call)) && a != Target(call)
    ensures Told(Step(config, w, call), a) <==> Told(w, a)
    ensures !Misleads(config, w, call, a)
  {
    var e := EffectIn(config, w, call);
    EventsOfTarget(config, InstanceOf(w, Target(call)), call);
    LogOfAppend(w.log, e.events, a, Target(call));
    OthersUntouched(config, w, call, a);
    assert LogOf(w.log, a) + [] == LogOf(w.log, a);
  }

  /** From a log that tells the state, a call leads to one exactly if it does not mislead. */
  lemma CallTells(config: Config, w: World, call: Call, a: AggregateId)
    requires Consistent(config) && Standing(config, w, a) && Standing(config, w, Target(call)) && Told(w, a)
    ensures Told(Step(config, w, call), a) <==> !Misleads(config, w, call, a)
  {
    if a == Target(call) {
      OwnCallTold(config, w, call, a);
    } else {
      OtherCallTold(config, w, call, a);
    }
  }

  ghost predicate ToldAfter(config: Config, calls: seq<Call>, k: nat, a: AggregateId)
    requires k <= |calls|
  {
    Told(Run(config, calls[..k]), a)
  }

  ghost predicate MisledBy(config: Config, calls: seq<Call>, k: nat, a: AggregateId)
    requires k < |calls|
  {
    Misleads(config, Run(config, calls[..k]), calls[k], a)
  }

  /** After every call of the run the log tells the state of the aggregate. */
  ghost predicate AlwaysTold(config: Config, calls: seq<Call>, a: AggregateId) {
    forall k | 0 <= k <= |calls| :: ToldAfter(config, calls, k, a)
  }

  ghost predicate NeverMisled(config: Config, calls: seq<Call>, a: AggregateId) {
    forall k | 0 <= k < |calls| :: !MisledBy(config, calls, k, a)
  }

  lemma FrontAfter(config: Config, calls: seq<Call>, k: nat, a: AggregateId)
    requires k < |calls|
    ensures ToldAfter(config, calls, k, a) <==> ToldAfter(config, Front(calls), k, a)
    ensures k < |calls| - 1 ==> (MisledBy(config, calls, k, a) <==> MisledBy(config, Front(calls), k, a))
    ensures k == |calls| - 1 ==> (MisledBy(config, calls, k, a) <==> Misleads(config, Run(config, Front(calls)), Last(calls), a))
  {
    assert calls[..k] == Front(calls)[..k];
    assert k == |calls| - 1 ==> calls[..k] == Front(calls);
  }

  lemma FrontTold(config: Config, calls: seq<Call>, a: AggregateId)
    requires calls != []
    ensures AlwaysTold(config, calls, a) <==> AlwaysTold(config, Front(calls), a) && ToldAfter(config, calls, |calls|, a)
  {
    forall k | 0 <= k < |calls|
      ensures ToldAfter(config, calls, k, a) <==> ToldAfter(config, Front(calls), k, a)
    {
      FrontAfter(config, calls, k, a);
    }
  }

  lemma FrontMisled(config: Config, calls: seq<Call>, a: AggregateId)
    requires calls != []
    ensures NeverMisled(config, calls, a) <==>
      NeverMisled(config, Front(calls), a) && !Misleads(config, Run(config, Front(calls)), Last(calls), a)
  {
    FrontAfter(config, calls, |calls| - 1, a);
    forall k | 0 <= k < |calls| - 1
      ensures MisledBy(config, calls, k, a) <==> MisledBy(config, Front(calls), k, a)
    {
      FrontAfter(config, calls, k, a);
    }
  }

  lemma LastTold(config: Config, calls: seq<Call>, a: AggregateId)
    requires Consistent(config) && calls != [] && AlwaysTold(config, Front(calls), a)
    ensures ToldAfter(config, calls, |calls|, a) <==> !Misleads(config, Run(config, Front(calls)), Last(calls), a)
  {
    var before := Front(calls);
    assert calls[..|calls|] == calls && before[..|before|] == before;
    assert ToldAfter(config, before, |before|, a);
    AlwaysStanding(config, before, a);
    AlwaysStanding(config, before, Target(Last(calls)));
    CallTells(config, Run(config, before), Last(calls), a);
  }

  /**
   * In every run the events of an aggregate tell its current state after every call, and none of
   * them is out of place, if and only if no call starts it silently from another state.
   */
  lemma {:induction false} LogTellsState(config: Config, calls: seq<Call>, a: AggregateId)
    requires Consistent(config)
    ensures AlwaysTold(config, calls, a) <==> NeverMisled(config, calls, a)
  {
    if calls == [] {
      assert calls[..0] == [];
    } else {
      LogTellsState(config, Front(calls), a);
      FrontTold(config, calls, a);
      FrontMisled(config, calls, a);
      if AlwaysTold(config, Front(calls), a) {
        LastTold(config, calls, a);
      }
    }
  }

  /** Definitions with a version and a name never mislead. */
  lemma NamedTellsState(config: Config, calls: seq<Call>, a: AggregateId)
    requires Consistent(config)
    requires forall id | id in config.registry :: config.registry[id].version != "" && config.registry[id].name != ""
    ensures Told(Run(config, calls), a)
  {
    LogTellsState(config, calls, a);
    assert calls[..|calls|] == calls;
    assert AlwaysTold(config, calls, a) ==> ToldAfter(config, calls, |calls|, a);
  }

  const UNNAMED := LoopDefinition("unnamed", "1", "", [StateSpec("A", false)], "A", [], None, false)

  /** Starting a loop without a name stores an instance that no event tells of. */
  lemma UnnamedStartMisleads(config: Config, a: AggregateId, actor: ActorRef)
    requires Consistent(config) && "unnamed" in config.registry && config.registry["unnamed"] == UNNAMED
    ensures var w := Run(config, [Start("unnamed", a, actor, map[], 0)]);
      a in w.instances && w.log == [] && !Told(w, a)
  {
    var call := Start("unnamed", a, actor, map[], 0);
    assert Front([call]) == [] && Run(config, []) == EMPTY_WORLD;
    assert Run(config, [call]) == Step(config, EMPTY_WORLD, call);
  }
}
