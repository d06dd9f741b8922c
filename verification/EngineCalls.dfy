/**
 * What one call saves, records, stores and announces, field by field; and over every run, which
 * call a stored row and the status of an instance come from.
 */
module EngineCalls {
  import opened Prelude
  import opened LoopModel
  import opened Guards
  import opened GovernedEvidence
  import opened LoopEngine
  import opened EngineRuns
  import opened EngineWords
  import opened EngineGuarantees

  // ---------------------------------------------------------------- a transition

  /** One row for each submitted snapshot where governed evidence is asked for, and none elsewhere. */
  ghost predicate KeepsSnapshots(config: Config, d: LoopDefinition, i: LoopInstance, t: TransitionSpec, p: TransitionParams,
                                 env: Environment, rows: seq<SnapshotRow>)
  {
    if d.governed || t.governed then
      && p.evidenceSnapshots.Batch? && |rows| == |p.evidenceSnapshots.snapshots|
      && forall k | 0 <= k < |rows| ::
           && BelongsTo(rows[k], i, p)
           && HoldsSnapshot(config.host, rows[k], p.evidenceSnapshots.snapshots[k], p.aggregateId, env.freshId, k)
    else rows == []
  }

  /** What is recorded as evidence: what the call brought, the soft failures, and the ids of the rows with the versions. */
  ghost predicate KeepsEvidence(governed: bool, given: LoopModel.Evidence, soft: seq<Failure>, rows: seq<SnapshotRow>,
                                kept: LoopModel.Evidence)
  {
    && (forall key :: key in kept <==>
          || key in given
          || (key == "_softGuardWarnings" && soft != [])
          || (key == "snapshotIds" && governed) || (key == "versions" && governed))
    && (forall key | key in given && key !in {"_softGuardWarnings", "snapshotIds", "versions"} :: kept[key] == given[key])
    && (soft != [] ==> kept["_softGuardWarnings"] == SoftWarnings(soft))
    && (soft == [] && "_softGuardWarnings" in given ==> kept["_softGuardWarnings"] == given["_softGuardWarnings"])
    && (governed ==>
          && kept["versions"] == LaunchVersions
          && kept["snapshotIds"].SnapshotIds?
          && |kept["snapshotIds"].ids| == |rows|
          && forall k | 0 <= k < |rows| :: kept["snapshotIds"].ids[k] == rows[k].id)
    && (!governed ==>
          forall key | key in given && key in {"snapshotIds", "versions"} :: kept[key] == given[key])
  }

  /** The record and the instance of a transition that goes through, and the rows that belong to it. */
  ghost predicate Moves(config: Config, d: LoopDefinition, i: LoopInstance, t: TransitionSpec, p: TransitionParams,
                        env: Environment, soft: seq<Failure>, e: Effect)
  {
    e.record.Some? ==>
      && e.record.value == TransitionRecord(i.aggregateId, i.loopId, t.id, t.signal, i.currentState, t.target, p.actor, env.now,
                                            e.record.value.evidence)
      && KeepsEvidence(d.governed || t.governed, p.evidence, soft, e.rows, e.record.value.evidence)
      && KeepsSnapshots(config, d, i, t, p, env, e.rows)
      && e.save == Some(if IsTerminal(d, t.target)
                        then LoopInstance(i.loopId, i.aggregateId, t.target, Completed, i.startedAt, env.now, Some(env.now), i.metadata)
                        else LoopInstance(i.loopId, i.aggregateId, t.target, i.status, i.startedAt, env.now, i.completedAt, i.metadata))
  }

  lemma CommitKeeps(config: Config, d: LoopDefinition, i: LoopInstance, t: TransitionSpec, p: TransitionParams, env: Environment,
                    soft: seq<Failure>)
    requires d.governed || t.governed
    ensures match Commit(config.host, TenantOf(i, p), p.aggregateId, p.evidenceSnapshots, env.freshId)
      case Declined(_) => true
      case Committed(ids, rows) =>
        && KeepsSnapshots(config, d, i, t, p, env, rows)
        && KeepsEvidence(true, p.evidence, soft, rows, WithSnapshots(WithWarnings(p.evidence, soft), ids))
  {
    var r := Commit(config.host, TenantOf(i, p), p.aggregateId, p.evidenceSnapshots, env.freshId);
    if r.Committed? {
      CommittedRows(config.host, TenantOf(i, p), p.aggregateId, p.evidenceSnapshots, env.freshId);
    }
  }

  lemma CommittedMoves(config: Config, d: LoopDefinition, i: LoopInstance, t: TransitionSpec, p: TransitionParams,
                       env: Environment, soft: seq<Failure>, before: seq<LoopEvent>)
    requires i.status != Completed
    ensures Moves(config, d, i, t, p, env, soft, CommittedEffect(config, d, i, t, p, env, soft, before))
  {
    if d.governed || t.governed {
      CommitKeeps(config, d, i, t, p, env, soft);
    }
  }

  lemma GuardedMoves(config: Config, d: LoopDefinition, i: LoopInstance, t: TransitionSpec, p: TransitionParams, env: Environment)
    requires i.status != Completed
    requires Known(t.guards, env.guards)
    ensures Moves(config, d, i, t, p, env, FailingGuards(i, t, p, env, Soft), GuardedEffect(config, d, i, t, p, env))
  {
    var soft := FailingGuards(i, t, p, env, Soft);
    CommittedMoves(config, d, i, t, p, env, soft,
                   [Requested(i, t, p)] + GuardEvents(i, t, p.actor, Soft, soft[..Emittable(soft)]));
  }

  /** Whenever a transition is recorded: the record, the instance, the evidence and the rows are those of the admitted call. */
  ghost predicate AdmittedMoves(config: Config, d: LoopDefinition, i: LoopInstance, p: TransitionParams, env: Environment, e: Effect) {
    && Admits(config, d, i, p, env)
    && var t := Find(d, p.transitionId, i.currentState).value;
       Moves(config, d, i, t, p, env, FailingGuards(i, t, p, env, Soft), e)
  }

  lemma TransitionMoves(config: Config, i: LoopInstance, p: TransitionParams, env: Environment)
    requires i.loopId in config.registry
    ensures var d, e := config.registry[i.loopId], TransitionEffect(config, Some(i), p, env);
      && (e.record.Some? ==> AdmittedMoves(config, d, i, p, env, e))
      && (e.record.None? ==> e.rows == [] && e.save.None?)
  {
    var d := config.registry[i.loopId];
    RecordedExactlyWhenAdmitted(config, i, p, env);
    TransitionAnswers(config, i, p, env);
    if Admits(config, d, i, p, env) {
      GuardedMoves(config, d, i, Find(d, p.transitionId, i.currentState).value, p, env);
    }
  }

  // ---------------------------------------------------------------- the rows of a run

  /** The call is a transition that finds this instance and stores the row for its aggregate, under its tenant. */
  ghost predicate Stores(config: Config, w: World, call: Call, row: SnapshotRow) {
    && call.Transition?
    && var p := call.params;
    && p.aggregateId in w.instances
    && row in EffectIn(config, w, call).rows
    && row.aggregateId == p.aggregateId
    && BelongsTo(row, w.instances[p.aggregateId], p)
  }

  ghost predicate StoredBy(config: Config, calls: seq<Call>, k: nat, row: SnapshotRow) {
    k < |calls| && Stores(config, Before(config, calls, k), calls[k], row)
  }

  lemma StepStores(config: Config, w: World, call: Call, n: nat)
    requires Consistent(config) && Standing(config, w, Target(call))
    requires n < |Step(config, w, call).snapshots|
    ensures var row := Step(config, w, call).snapshots[n];
      if n < |w.snapshots| then row == w.snapshots[n] else Stores(config, w, call, row)
  {
    if n >= |w.snapshots| && call.Transition? && call.params.aggregateId in w.instances {
      TransitionMoves(config, w.instances[call.params.aggregateId], call.params, call.env);
    }
  }

  lemma StoredByFront(config: Config, calls: seq<Call>, k: nat, row: SnapshotRow)
    requires calls != [] && StoredBy(config, Front(calls), k, row)
    ensures StoredBy(config, calls, k, row)
  {
    assert Front(calls)[..k] == calls[..k];
  }

  lemma StoredByLast(config: Config, calls: seq<Call>, row: SnapshotRow)
    requires calls != [] && Stores(config, Run(config, Front(calls)), Last(calls), row)
    ensures StoredBy(config, calls, |calls| - 1, row)
  {
    assert calls[..|calls| - 1] == Front(calls);
  }

  /**
   * Every stored row of a run was stored by one of its transition calls, for the aggregate of that
   * call, and under the tenant that the call named, or else that the instance it found belongs to.
   */
  lemma {:induction false} RowsBelongToTheirCalls(config: Config, calls: seq<Call>, n: nat)
    requires Consistent(config) && n < |Run(config, calls).snapshots|
    ensures exists k :: 0 <= k < |calls| && StoredBy(config, calls, k, Run(config, calls).snapshots[n])
  {
    var w, call := Run(config, Front(calls)), Last(calls);
    var row := Run(config, calls).snapshots[n];
    AlwaysStanding(config, Front(calls), Target(call));
    StepStores(config, w, call, n);
    if n < |w.snapshots| {
      RowsBelongToTheirCalls(config, Front(calls), n);
      var k :| 0 <= k < |Front(calls)| && StoredBy(config, Front(calls), k, row);
      StoredByFront(config, calls, k, row);
    } else {
      StoredByLast(config, calls, row);
    }
  }

  // ---------------------------------------------------------------- calls that find nothing to work on

  /** Starts of an unknown loop or over an active instance, and other calls with no instance, throw just that and do nothing. */
  lemma RefusedExactly(config: Config, stored: Option<LoopInstance>, call: Call)
    ensures var e := EffectOf(config, stored, call);
      && (e.outcome == Threw(InstanceNotFound) <==> !call.Start? && stored.None?)
      && (e.outcome == Threw(ActiveLoopExists) <==>
            call.Start? && call.loopId in config.registry && stored.Some? && stored.value.status == Active)
      && (e.outcome == Threw(DefinitionNotFound) <==>
            || (call.Start? && call.loopId !in config.registry)
            || (call.Transition? && stored.Some? && stored.value.loopId !in config.registry))
      && (e.outcome in {Threw(InstanceNotFound), Threw(ActiveLoopExists), Threw(DefinitionNotFound)} ==>
            e.save.None? && e.record.None? && e.events == [] && e.rows == [])
      && (!call.Transition? && e.save.None? ==>
            e.outcome in {Threw(InstanceNotFound), Threw(ActiveLoopExists), Threw(DefinitionNotFound)})
  {
    if call.Transition? && stored.Some? && stored.value.loopId in config.registry {
      TransitionWord(config, stored.value, call.params, call.env);
    }
  }

  // ---------------------------------------------------------------- the status in a run

  /** The call saves an instance of the aggregate with a status of its own: it starts, completes, cancels or fails it. */
  ghost predicate SetsStatus(config: Config, w: World, call: Call, a: AggregateId) {
    && Target(call) == a
    && var e := EffectIn(config, w, call);
       e.save.Some? && (call.Transition? ==> e.save.value.status == Completed)
  }

  /** Status, times and metadata of the instance are those that this call gives, and the call announces just this. */
  ghost predicate SetBy(config: Config, w: World, call: Call, i: LoopInstance) {
    && var e := EffectIn(config, w, call);
    && match call
       case Start(loopId, a, actor, metadata, now) =>
         && loopId in config.registry
         && i.status == Active && i.startedAt == now && i.completedAt == None && i.metadata == metadata
         && var d := config.registry[loopId];
            e.events == if d.version == "" || d.name == "" then [] else [LoopStarted(loopId, a, d.initialState, actor)]
       case Transition(_, env) =>
         i.status == Completed && i.completedAt == Some(env.now) && i.updatedAt == env.now
       case Cancel(a, actor, reason, now) =>
         && i.status == CancelledStatus && i.completedAt == Some(now)
         && a in w.instances && i.startedAt == w.instances[a].startedAt && i.metadata == w.instances[a].metadata
         && e.events == [LoopCancelled(w.instances[a].loopId, a, w.instances[a].currentState, actor, reason)]
         && e.outcome == Ended(e.events[0])
       case Fail(a, fromState, code, message, now) =>
         && i.status == FailedStatus && i.completedAt == Some(now)
         && a in w.instances && i.startedAt == w.instances[a].startedAt && i.metadata == w.instances[a].metadata
         && if code == "" || message == "" then e.events == [] && e.outcome == Threw(EventSchema)
            else e.events == [LoopFailed(w.instances[a].loopId, a, fromState, code, message)] && e.outcome == Ended(e.events[0])
  }

  lemma StepSets(config: Config, w: World, call: Call, a: AggregateId)
    requires Consistent(config) && Standing(config, w, a) && SetsStatus(config, w, call, a)
    ensures a in Step(config, w, call).instances
    ensures SetBy(config, w, call, Step(config, w, call).instances[a])
    ensures !call.Transition? ==> Step(config, w, call).instances[a].updatedAt == call.now
  {
    if call.Transition? && a in w.instances {
      TransitionMoves(config, w.instances[a], call.params, call.env);
    }
  }

  /** A completed instance takes no transition any more. */
  lemma StepKeepsStatus(config: Config, w: World, call: Call, a: AggregateId)
    requires Consistent(config) && Standing(config, w, a) && !SetsStatus(config, w, call, a)
    requires a in Step(config, w, call).instances
    ensures a in w.instances
    ensures var i, j := w.instances[a], Step(config, w, call).instances[a];
      && j.status == i.status && j.startedAt == i.startedAt && j.completedAt == i.completedAt && j.metadata == i.metadata
      && (i.status == Completed ==> j == i)
  {
    if a == Target(call) && call.Transition? && a in w.instances {
      TransitionMoves(config, w.instances[a], call.params, call.env);
    }
  }

  /** The k-th call is the last that set the status of the aggregate, and the instance has it from there. */
  ghost predicate LastSetBy(config: Config, calls: seq<Call>, k: nat, a: AggregateId, i: LoopInstance) {
    && k < |calls|
    && SetsStatus(config, Before(config, calls, k), calls[k], a)
    && SetBy(config, Before(config, calls, k), calls[k], i)
    && forall j: nat | k < j < |calls| :: !SetsStatus(config, Before(config, calls, j), calls[j], a)
  }

  lemma LastSetGrows(config: Config, calls: seq<Call>, k: nat, a: AggregateId, i: LoopInstance, i': LoopInstance)
    requires calls != [] && LastSetBy(config, Front(calls), k, a, i)
    requires !SetsStatus(config, Run(config, Front(calls)), Last(calls), a)
    requires i'.status == i.status && i'.startedAt == i.startedAt && i'.completedAt == i.completedAt && i'.metadata == i.metadata
    requires i.status == Completed ==> i' == i
    ensures LastSetBy(config, calls, k, a, i')
  {
    var front := Front(calls);
    assert front[..k] == calls[..k] && calls[..|front|] == front;
    forall j: nat | k < j < |calls|
      ensures !SetsStatus(config, Before(config, calls, j), calls[j], a)
    {
      if j < |front| {
        assert front[..j] == calls[..j] && front[j] == calls[j];
      }
    }
  }

  lemma LastSetNow(config: Config, calls: seq<Call>, a: AggregateId, i: LoopInstance)
    requires calls != []
    requires SetsStatus(config, Run(config, Front(calls)), Last(calls), a)
    requires SetBy(config, Run(config, Front(calls)), Last(calls), i)
    ensures LastSetBy(config, calls, |calls| - 1, a, i)
  {
    assert calls[..|calls| - 1] == Front(calls);
  }

  /**
   * In every run the status of an instance is that of the last call that started, completed,
   * cancelled or failed it: cancelled by a cancellation with its reason, failed by a failure with
   * its code and message, at the time of that call.
   */
  lemma {:induction false} StatusTellsItsCall(config: Config, calls: seq<Call>, a: AggregateId)
    requires Consistent(config) && a in Run(config, calls).instances
    ensures exists k :: 0 <= k < |calls| && LastSetBy(config, calls, k, a, Run(config, calls).instances[a])
  {
    var w, call := Run(config, Front(calls)), Last(calls);
    var i := Run(config, calls).instances[a];
    AlwaysStanding(config, Front(calls), a);
    if SetsStatus(config, w, call, a) {
      StepSets(config, w, call, a);
      LastSetNow(config, calls, a, i);
    } else {
      StepKeepsStatus(config, w, call, a);
      StatusTellsItsCall(config, Front(calls), a);
      var k :| 0 <= k < |Front(calls)| && LastSetBy(config, Front(calls), k, a, w.instances[a]);
      LastSetGrows(config, calls, k, a, w.instances[a], i);
    }
  }
}
