/** Governed evidence over every run: what records point to, and what the snapshot store holds. */
module EngineEvidence {
  import opened Prelude
  import opened LoopModel
  import opened Guards
  import opened GovernedEvidence
  import opened LoopEngine
  import opened EngineRuns

  /** The ids are those of a batch that was stored at position `k`, for this aggregate. */
  ghost predicate StoredAt(host: Host, snapshots: seq<SnapshotRow>, k: nat, ids: seq<string>, a: AggregateId) {
    && k + |ids| <= |snapshots|
    && RowsAreBatch(host, snapshots[k..k + |ids|], ids)
    && forall n | k <= n < k + |ids| :: snapshots[n].aggregateId == a
  }

  ghost predicate Stored(host: Host, snapshots: seq<SnapshotRow>, ids: seq<string>, a: AggregateId) {
    exists k :: 0 <= k && StoredAt(host, snapshots, k, ids, a)
  }

  /** The transition of a record asked for governed evidence. */
  ghost predicate IsGoverned(config: Config, r: TransitionRecord) {
    r.loopId in config.registry &&
    match Find(config.registry[r.loopId], r.transitionId, r.fromState)
    case None => false
    case Some(t) => config.registry[r.loopId].governed || t.governed
  }

  /** A record of a governed transition carries the ids of a stored batch and the launch versions. */
  ghost predicate Evidenced(config: Config, snapshots: seq<SnapshotRow>, r: TransitionRecord) {
    IsGoverned(config, r) ==>
      && "versions" in r.evidence && r.evidence["versions"] == LaunchVersions
      && "snapshotIds" in r.evidence && r.evidence["snapshotIds"].SnapshotIds?
      && Stored(config.host, snapshots, r.evidence["snapshotIds"].ids, r.aggregateId)
  }

  /** Rows stay where they are when more are inserted. */
  lemma StoredGrows(host: Host, snapshots: seq<SnapshotRow>, more: seq<SnapshotRow>, ids: seq<string>, a: AggregateId)
    requires Stored(host, snapshots, ids, a)
    ensures Stored(host, snapshots + more, ids, a)
  {
    var k :| 0 <= k && StoredAt(host, snapshots, k, ids, a);
    assert (snapshots + more)[k..k + |ids|] == snapshots[k..k + |ids|];
    assert StoredAt(host, snapshots + more, k, ids, a);
  }

  lemma StoredNow(host: Host, snapshots: seq<SnapshotRow>, rows: seq<SnapshotRow>, ids: seq<string>, a: AggregateId)
    requires RowsAreBatch(host, rows, ids)
    requires forall n | 0 <= n < |rows| :: rows[n].aggregateId == a
    ensures Stored(host, snapshots + rows, ids, a)
  {
    var k := |snapshots|;
    assert (snapshots + rows)[k..k + |ids|] == rows;
    assert StoredAt(host, snapshots + rows, k, ids, a);
  }

  /** What one call adds to the store and to the history. */
  ghost predicate Adds(config: Config, snapshots: seq<SnapshotRow>, e: Effect) {
    && (forall n | 0 <= n < |e.rows| :: RowHonest(config.host, e.rows[n]))
    && (e.record.Some? ==> Evidenced(config, snapshots + e.rows, e.record.value))
  }

  lemma CommittedAdds(config: Config, d: LoopDefinition, i: LoopInstance, t: TransitionSpec, p: TransitionParams,
                      env: Environment, soft: seq<Failure>, before: seq<LoopEvent>, snapshots: seq<SnapshotRow>)
    requires Find(d, t.id, i.currentState) == Some(t)
    requires i.loopId in config.registry && config.registry[i.loopId] == d && i.aggregateId == p.aggregateId
    ensures Adds(config, snapshots, CommittedEffect(config, d, i, t, p, env, soft, before))
  {
    var tenant := TenantOf(i, p);
    var commit := Commit(config.host, tenant, p.aggregateId, p.evidenceSnapshots, env.freshId);
    if RequiresGovernedEvidence(d, t) && commit.Committed? {
      CommittedRows(config.host, tenant, p.aggregateId, p.evidenceSnapshots, env.freshId);
      assert forall n | 0 <= n < |commit.rows| :: RowHonest(config.host, commit.rows[n]);
      StoredNow(config.host, snapshots, commit.rows, commit.snapshotIds, p.aggregateId);
    }
  }

  lemma GuardedAdds(config: Config, d: LoopDefinition, i: LoopInstance, t: TransitionSpec, p: TransitionParams,
                    env: Environment, snapshots: seq<SnapshotRow>)
    requires Find(d, t.id, i.currentState) == Some(t)
    requires i.loopId in config.registry && config.registry[i.loopId] == d && i.aggregateId == p.aggregateId
    ensures Adds(config, snapshots, GuardedEffect(config, d, i, t, p, env))
  {
    if Known(t.guards, env.guards) {
      var soft := Failures(t.guards, Soft, ContextOf(i, t, p), env.guards);
      CommittedAdds(config, d, i, t, p, env, soft,
                    [Requested(i, t, p)] + GuardEvents(i, t, p.actor, Soft, soft[..Emittable(soft)]), snapshots);
    }
  }

  lemma CallAdds(config: Config, stored: Option<LoopInstance>, call: Call, snapshots: seq<SnapshotRow>)
    requires stored.Some? ==> stored.value.aggregateId == Target(call)
    ensures Adds(config, snapshots, EffectOf(config, stored, call))
  {
    if call.Transition? && stored.Some? && stored.value.loopId in config.registry {
      var i := stored.value;
      var d := config.registry[i.loopId];
      var found := Find(d, call.params.transitionId, i.currentState);
      if found.Some? {
        GuardedAdds(config, d, i, found.value, call.params, call.env, snapshots);
      }
    }
  }

  /**
   * In every run, each record of a governed transition carries the ids of rows that were stored
   * as one batch with distinct keys, and every stored row holds the hash of the canonical text
   * of its own values.
   */
  lemma {:induction false} GovernedRecordsAreEvidenced(config: Config, calls: seq<Call>, a: AggregateId)
    requires Consistent(config)
    ensures var w := Run(config, calls);
      && (forall r | r in HistoryOf(w, a) :: Evidenced(config, w.snapshots, r))
      && (forall n | 0 <= n < |w.snapshots| :: RowHonest(config.host, w.snapshots[n]))
  {
    if calls != [] {
      var w, call := Run(config, Front(calls)), Last(calls);
      var e := EffectIn(config, w, call);
      GovernedRecordsAreEvidenced(config, Front(calls), a);
      AlwaysStanding(config, Front(calls), Target(call));
      CallAdds(config, InstanceOf(w, Target(call)), call, w.snapshots);
      forall r | r in HistoryOf(w, a)
        ensures Evidenced(config, w.snapshots + e.rows, r)
      {
        if IsGoverned(config, r) {
          StoredGrows(config.host, w.snapshots, e.rows, r.evidence["snapshotIds"].ids, r.aggregateId);
        }
      }
      if a != Target(call) {
        OthersUntouched(config, w, call, a);
      }
    }
  }
}
