/**
 * Aggregates do not interfere: what an aggregate sees of a run is what it sees of the run of
 * its own calls. And a terminal state is final until the aggregate is started again.
 */
module EngineIsolation {
  import opened Prelude
  import opened LoopModel
  import opened LoopEngine
  import opened EngineRuns
  import opened EngineEvents

  /** Everything that is stored or logged for one aggregate. */
  datatype Local = Local(instance: Option<LoopInstance>, history: seq<TransitionRecord>, mark: Option<nat>, log: seq<LoopEvent>)

  function LocalView(w: World, a: AggregateId): Local {
    Local(InstanceOf(w, a), HistoryOf(w, a), if a in w.marks then Some(w.marks[a]) else None, LogOf(w.log, a))
  }

  /** The calls on one aggregate, in order. */
  function OnlyFor(calls: seq<Call>, a: AggregateId): seq<Call> {
    if calls == [] then []
    else OnlyFor(Front(calls), a) + if Target(Last(calls)) == a then [Last(calls)] else []
  }

  /** What the calls on one aggregate are answered, in order. */
  ghost function Answers(config: Config, calls: seq<Call>, a: AggregateId): seq<Outcome> {
    if calls == [] then []
    else
      var w := Run(config, Front(calls));
      Answers(config, Front(calls), a) + if Target(Last(calls)) == a then [EffectIn(config, w, Last(calls)).outcome] else []
  }

  lemma CallLocally(config: Config, w: World, call: Call, a: AggregateId)
    requires a in w.instances ==> w.instances[a].aggregateId == a
    requires a == Target(call)
    ensures var e := EffectIn(config, w, call);
      var v := LocalView(w, a);
      LocalView(Step(config, w, call), a) == Local(
        if e.save.Some? then e.save else v.instance,
        if e.record.Some? then v.history + [e.record.value] else v.history,
        if e.restart then Some(|v.history|) else v.mark,
        v.log + e.events)
  {
    var e := EffectIn(config, w, call);
    EventsOfTarget(config, InstanceOf(w, a), call);
    LogOfAppend(w.log, e.events, a, a);
  }

  lemma CallElsewhere(config: Config, w: World, call: Call, a: AggregateId)
    requires Target(call) in w.instances ==> w.instances[Target(call)].aggregateId == Target(call)
    requires a != Target(call)
    ensures LocalView(Step(config, w, call), a) == LocalView(w, a)
  {
    var e := EffectIn(config, w, call);
    OthersUntouched(config, w, call, a);
    EventsOfTarget(config, InstanceOf(w, Target(call)), call);
    LogOfAppend(w.log, e.events, a, Target(call));
    assert LogOf(w.log, a) + [] == LogOf(w.log, a);
  }

  /**
   * In every run, an aggregate's instance, history, latest start, events and answers are those
   * of the run of its own calls alone.
   */
  lemma {:induction false} RunsProject(config: Config, calls: seq<Call>, a: AggregateId)
    requires Consistent(config)
    ensures LocalView(Run(config, calls), a) == LocalView(Run(config, OnlyFor(calls, a)), a)
    ensures Answers(config, calls, a) == Answers(config, OnlyFor(calls, a), a)
  {
    if calls != [] {
      var before, call := Front(calls), Last(calls);
      var own := OnlyFor(before, a);
      RunsProject(config, before, a);
      AlwaysStanding(config, before, Target(call));
      if Target(call) == a {
        FrontLastSnoc(own, call);
        AlwaysStanding(config, own, a);
        CallLocally(config, Run(config, before), call, a);
        CallLocally(config, Run(config, own), call, a);
      } else {
        CallElsewhere(config, Run(config, before), call, a);
        assert OnlyFor(calls, a) == own;
      }
    }
  }

  /** Runs that make the same calls on an aggregate, interleaved with others in any way, agree on it. */
  lemma InterleavingsAgree(config: Config, one: seq<Call>, other: seq<Call>, a: AggregateId)
    requires Consistent(config)
    requires OnlyFor(one, a) == OnlyFor(other, a)
    ensures LocalView(Run(config, one), a) == LocalView(Run(config, other), a)
    ensures Answers(config, one, a) == Answers(config, other, a)
  {
    RunsProject(config, one, a);
    RunsProject(config, other, a);
  }

  // ---------------------------------------------------------------- closed loops

  /** The aggregate stands in a terminal state of its loop. */
  ghost predicate Closed(config: Config, w: World, a: AggregateId) {
    && a in w.instances
    && w.instances[a].loopId in config.registry
    && IsTerminal(config.registry[w.instances[a].loopId], w.instances[a].currentState)
  }

  lemma ClosedStep(config: Config, w: World, call: Call, a: AggregateId)
    requires Consistent(config) && Closed(config, w, a)
    requires call.Start? ==> call.aggregateId != a
    ensures var w' := Step(config, w, call);
      && Closed(config, w', a)
      && w'.instances[a].loopId == w.instances[a].loopId
      && w'.instances[a].currentState == w.instances[a].currentState
      && HistoryOf(w', a) == HistoryOf(w, a)
    ensures call.Transition? && Target(call) == a ==>
      && EffectIn(config, w, call) == Nothing(Rejected(w.instances[a].currentState, LoopClosed))
      && Step(config, w, call) == w
  {
    if Target(call) != a {
      OthersUntouched(config, w, call, a);
    } else {
      EffectShape(config, InstanceOf(w, a), call);
    }
  }

  /**
   * Once an aggregate stands in a terminal state it stays there with its history, through any
   * calls, until one that starts it again; and every transition asked of it is rejected as
   * closed and changes nothing.
   */
  lemma {:induction false} ClosedUntilStarted(config: Config, w: World, calls: seq<Call>, a: AggregateId)
    requires Consistent(config) && Closed(config, w, a)
    requires forall call | call in calls && call.Start? :: call.aggregateId != a
    ensures var w' := RunFrom(config, w, calls);
      && Closed(config, w', a)
      && w'.instances[a].currentState == w.instances[a].currentState
      && HistoryOf(w', a) == HistoryOf(w, a)
      && forall p: TransitionParams, env: Environment | p.aggregateId == a ::
           && EffectIn(config, w', Transition(p, env)).outcome == Rejected(w.instances[a].currentState, LoopClosed)
           && Step(config, w', Transition(p, env)) == w'
  {
    if calls != [] {
      FrontLast(calls);
      assert forall call | call in Front(calls) :: call in calls;
      ClosedUntilStarted(config, w, Front(calls), a);
      assert Last(calls) in calls;
      ClosedStep(config, RunFrom(config, w, Front(calls)), Last(calls), a);
    }
    var w' := RunFrom(config, w, calls);
    forall p: TransitionParams, env: Environment | p.aggregateId == a
      ensures EffectIn(config, w', Transition(p, env)).outcome == Rejected(w.instances[a].currentState, LoopClosed)
      ensures Step(config, w', Transition(p, env)) == w'
    {
      ClosedStep(config, w', Transition(p, env), a);
    }
  }
}
