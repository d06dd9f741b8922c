/** The guard pipeline (packages/guards) and actor authorization (packages/actors). */
module Guards {
  import opened Prelude
  import opened LoopModel

  datatype GuardContext = GuardContext(
    actor: ActorRef,
    loopId: LoopId,
    aggregateId: AggregateId,
    fromState: StateId,
    toState: StateId,
    signal: SignalId,
    evidence: Evidence,
    loopData: map<string, string>)

  datatype GuardResult = GuardResult(passed: bool, message: Option<string>)

  /** What the registered evaluators answer during one call. */
  type GuardRegistry = map<GuardId, (GuardContext, GuardSpec) -> GuardResult>

  datatype Evaluation = Evaluation(guardId: GuardId, severity: Severity, passed: bool, message: string)

  datatype GuardSummary = GuardSummary(hardFailures: seq<Failure>, softFailures: seq<Failure>, allPassed: bool)

  predicate Known(guards: seq<GuardSpec>, registry: GuardRegistry) {
    forall i | 0 <= i < |guards| :: guards[i].id in registry
  }

  function Evaluate(guard: GuardSpec, context: GuardContext, registry: GuardRegistry): Evaluation
    requires guard.id in registry
  {
    var answer := registry[guard.id](context, guard);
    Evaluation(guard.id, guard.severity, answer.passed, if answer.message.Some? then answer.message.value else "")
  }

  /** The failures of one severity, in the order of the guards. */
  function Failures(guards: seq<GuardSpec>, severity: Severity, context: GuardContext, registry: GuardRegistry): (fs: seq<Failure>)
    requires Known(guards, registry)
  {
    if guards == [] then []
    else
      var e := Evaluate(Last(guards), context, registry);
      Failures(Front(guards), severity, context, registry) +
      if !e.passed && e.severity == severity then [Failure(e.guardId, e.message)] else []
  }

  /** No failure of a severity exactly when every guard of that severity passes. */
  lemma {:induction false} NoFailures(guards: seq<GuardSpec>, severity: Severity, context: GuardContext, registry: GuardRegistry)
    requires Known(guards, registry)
    ensures Failures(guards, severity, context, registry) == [] <==>
      forall g | g in guards && g.severity == severity :: registry[g.id](context, g).passed
  {
    if guards != [] {
      NoFailures(Front(guards), severity, context, registry);
      FrontLast(guards);
      forall g | g in guards
        ensures g in Front(guards) || g == Last(guards)
      {
      }
    }
  }

  /** What a guard that does not pass leaves behind. */
  function SaidBy(guard: GuardSpec, context: GuardContext, registry: GuardRegistry): Failure
    requires guard.id in registry
  {
    var said := registry[guard.id](context, guard).message;
    Failure(guard.id, if said.Some? then said.value else "")
  }

  /** `fs` tells of the guards at `ks`: every guard of the severity that does not pass, once and in their order. */
  ghost predicate TellsOf(guards: seq<GuardSpec>, severity: Severity, context: GuardContext, registry: GuardRegistry,
                          ks: seq<nat>, fs: seq<Failure>)
    requires Known(guards, registry)
  {
    && |ks| == |fs|
    && (forall n | 0 <= n < |ks| :: ks[n] < |guards| && fs[n] == SaidBy(guards[ks[n]], context, registry))
    && (forall m, n | 0 <= m < n < |ks| :: ks[m] < ks[n])
    && forall k: nat | k < |guards| ::
         k in ks <==> guards[k].severity == severity && !registry[guards[k].id](context, guards[k]).passed
  }

  lemma TellsOfPassed(guards: seq<GuardSpec>, severity: Severity, context: GuardContext, registry: GuardRegistry,
                      ks: seq<nat>, fs: seq<Failure>)
    requires guards != [] && Known(guards, registry)
    requires TellsOf(Front(guards), severity, context, registry, ks, fs)
    requires Last(guards).severity != severity || registry[Last(guards).id](context, Last(guards)).passed
    ensures TellsOf(guards, severity, context, registry, ks, fs)
  {
    forall k: nat | k < |guards|
      ensures k in ks <==> guards[k].severity == severity && !registry[guards[k].id](context, guards[k]).passed
    {
      if k < |guards| - 1 {
        assert guards[k] == Front(guards)[k];
      }
    }
  }

  lemma TellsOfFailed(guards: seq<GuardSpec>, severity: Severity, context: GuardContext, registry: GuardRegistry,
                      ks: seq<nat>, fs: seq<Failure>)
    requires guards != [] && Known(guards, registry)
    requires TellsOf(Front(guards), severity, context, registry, ks, fs)
    requires Last(guards).severity == severity && !registry[Last(guards).id](context, Last(guards)).passed
    ensures TellsOf(guards, severity, context, registry, ks + [|guards| - 1], fs + [SaidBy(Last(guards), context, registry)])
  {
    var more := ks + [|guards| - 1];
    forall k: nat | k < |guards|
      ensures k in more <==> guards[k].severity == severity && !registry[guards[k].id](context, guards[k]).passed
    {
      if k < |guards| - 1 {
        assert guards[k] == Front(guards)[k];
      } else {
        assert more[|ks|] == k;
      }
    }
  }

  lemma {:induction false} FailuresTell(guards: seq<GuardSpec>, severity: Severity, context: GuardContext, registry: GuardRegistry)
    returns (ks: seq<nat>)
    requires Known(guards, registry)
    ensures TellsOf(guards, severity, context, registry, ks, Failures(guards, severity, context, registry))
  {
    if guards == [] {
      return [];
    }
    ks := FailuresTell(Front(guards), severity, context, registry);
    var fs := Failures(Front(guards), severity, context, registry);
    if Last(guards).severity == severity && !registry[Last(guards).id](context, Last(guards)).passed {
      TellsOfFailed(guards, severity, context, registry, ks, fs);
      ks := ks + [|guards| - 1];
    } else {
      TellsOfPassed(guards, severity, context, registry, ks, fs);
      assert fs + [] == fs;
    }
  }

  /** Evaluates the guards in order; an id without an evaluator makes the pipeline throw. */
  method EvaluateGuards(guards: seq<GuardSpec>, context: GuardContext, registry: GuardRegistry)
    returns (summary: Option<GuardSummary>)
    ensures summary.Some? <==> Known(guards, registry)
    ensures summary.Some? ==>
      && summary.value.hardFailures == Failures(guards, Hard, context, registry)
      && summary.value.softFailures == Failures(guards, Soft, context, registry)
      && (summary.value.allPassed <==>
            forall g | g in guards && g.severity == Hard :: registry[g.id](context, g).passed)
    ensures summary.Some? ==>
      && (exists ks :: TellsOf(guards, Hard, context, registry, ks, summary.value.hardFailures))
      && (exists ks :: TellsOf(guards, Soft, context, registry, ks, summary.value.softFailures))
  {
    var hard: seq<Failure>, soft: seq<Failure> := [], [];
    for i := 0 to |guards|
      invariant Known(guards[..i], registry)
      invariant hard == Failures(guards[..i], Hard, context, registry)
      invariant soft == Failures(guards[..i], Soft, context, registry)
    {
      if guards[i].id !in registry {
        return None;
      }
      assert Front(guards[..i + 1]) == guards[..i] && Last(guards[..i + 1]) == guards[i];
      var e := Evaluate(guards[i], context, registry);
      if !e.passed && e.severity == Hard {
        hard := hard + [Failure(e.guardId, e.message)];
      }
      if !e.passed && e.severity == Soft {
        soft := soft + [Failure(e.guardId, e.message)];
      }
    }
    assert guards[..|guards|] == guards;
    NoFailures(guards, Hard, context, registry);
    ghost var hardAt := FailuresTell(guards, Hard, context, registry);
    ghost var softAt := FailuresTell(guards, Soft, context, registry);
    return Some(GuardSummary(hard, soft, hard == []));
  }

  datatype Authorization = Unauthorized | NeedsApproval | Authorized

  /** Whether an actor may take a transition; only AI agents can be held for approval. */
  function CanActorExecute(actor: ActorRef, transition: TransitionSpec, approvalFor: seq<TransitionId>): Authorization {
    if actor.kind !in transition.actors then Unauthorized
    else if actor.kind == AiAgent && transition.id in approvalFor then NeedsApproval
    else Authorized
  }
}
