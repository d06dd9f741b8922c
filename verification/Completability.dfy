/**
 * What validation says about execution: exactly which definitions the engine can drive to a
 * terminal state, and that an accepted definition is one of them when no two of its transitions
 * share an id and an origin.
 */
module Completability {
  import opened Prelude
  import opened LoopModel
  import opened Guards
  import opened GovernedEvidence
  import opened LoopEngine
  import opened EngineRuns
  import opened EngineIsolation
  import Json = CanonicalJson
  import V = Validator

  // ---------------------------------------------------------------- what the engine can pass

  /** Governed evidence can be committed: a snapshot store is there and some date can be written. */
  ghost predicate CanCommit(host: Host) {
    host.hasSnapshotStore && exists date: string :: !Blank(date) && host.parsesAsDate(date)
  }

  /** The engine finds this transition under its own id, somebody may take it, and its evidence can be stored. */
  ghost predicate Passable(config: Config, d: LoopDefinition, t: TransitionSpec) {
    && Find(d, t.id, t.origin) == Some(t)
    && t.actors != []
    && ((d.governed || t.governed) ==> CanCommit(config.host))
  }

  function EndOf(d: LoopDefinition, ts: seq<TransitionSpec>): StateId {
    if ts == [] then d.initialState else Last(ts).target
  }

  /** A chain of passable transitions from the initial state. */
  ghost predicate IsPassage(config: Config, d: LoopDefinition, ts: seq<TransitionSpec>) {
    ts == [] || (IsPassage(config, d, Front(ts)) && Passable(config, d, Last(ts)) && Last(ts).origin == EndOf(d, Front(ts)))
  }

  /** Some chain of passable transitions leads from the initial state to a terminal one. */
  ghost predicate Completable(config: Config, d: LoopDefinition) {
    exists ts :: IsPassage(config, d, ts) && IsTerminal(d, EndOf(d, ts))
  }

  // ---------------------------------------------------------------- driving

  /** Evaluators that let everything pass. */
  function AllPass(guards: seq<GuardSpec>): GuardRegistry {
    map id | id in Ids(guards) :: (context: GuardContext, guard: GuardSpec) => GuardResult(true, None)
  }

  function Ids(guards: seq<GuardSpec>): set<GuardId> {
    set g | g in guards :: g.id
  }

  function SmallBatch(date: string): Batch {
    Batch([RawSnapshot(Some("k"), Some("s"), Some(date), Some("u"), Json.Obj([]), Some(Versions(1, 1, 1)), NoLineage, NoSequence, NoHash)])
  }

  /** A call that takes `t`: by a listed actor, with a small batch of evidence and guards that pass. */
  function DriveCall(a: AggregateId, t: TransitionSpec, date: string): Call
    requires t.actors != []
  {
    Transition(TransitionParams(a, t.id, ActorRef("driver", t.actors[0]), map[], SmallBatch(date), None, []),
               Environment(AllPass(t.guards), 0, (n: nat) => "id"))
  }

  lemma SmallBatchCommits(host: Host, tenantId: string, a: AggregateId, date: string, freshId: nat -> string)
    requires host.hasSnapshotStore && !Blank(date) && host.parsesAsDate(date)
    ensures Commit(host, tenantId, a, SmallBatch(date), freshId).Committed?
  {
    var s := SmallBatch(date).snapshots[0];
    assert !Blank("k") by { assert !IsSpace("k"[0]); }
    assert !Blank("s") by { assert !IsSpace("s"[0]); }
    assert !Blank("u") by { assert !IsSpace("u"[0]); }
    assert SnapshotOk(host, s);
    assert HashOk(host, s);
  }

  lemma AllPassPasses(guards: seq<GuardSpec>, severity: Severity, context: GuardContext)
    ensures Known(guards, AllPass(guards))
    ensures Failures(guards, severity, context, AllPass(guards)) == []
  {
    forall i | 0 <= i < |guards|
      ensures guards[i].id in AllPass(guards)
    {
      assert guards[i] in guards;
    }
    forall g | g in guards && g.severity == severity
      ensures AllPass(guards)[g.id](context, g).passed
    {
      assert g.id in Ids(guards);
    }
    NoFailures(guards, severity, context, AllPass(guards));
  }

  /** The aggregate is in this state of a loop that may go on. */
  predicate Open(w: World, a: AggregateId, id: LoopId, state: StateId) {
    && a in w.instances
    && w.instances[a].aggregateId == a
    && w.instances[a].loopId == id
    && w.instances[a].currentState == state
    && w.instances[a].status != Completed
  }

  ghost predicate ClosedIn(config: Config, w: World, a: AggregateId, id: LoopId) {
    Closed(config, w, a) && w.instances[a].loopId == id
  }

  lemma ExecuteMoves(d: LoopDefinition, i: LoopInstance, t: TransitionSpec, actor: ActorRef, now: int, soft: seq<Failure>,
                     evidence: LoopModel.Evidence, rows: seq<SnapshotRow>, before: seq<LoopEvent>)
    ensures MovesTo(d, i, t, ExecuteEffect(d, i, t, actor, now, soft, evidence, rows, before))
  {
  }

  predicate MovesTo(d: LoopDefinition, i: LoopInstance, t: TransitionSpec, e: Effect) {
    && e.save.Some?
    && e.save.value.loopId == i.loopId
    && e.save.value.aggregateId == i.aggregateId
    && e.save.value.currentState == t.target
    && (IsTerminal(d, t.target) || e.save.value.status == i.status)
  }

  lemma DrivenGuarded(config: Config, d: LoopDefinition, i: LoopInstance, t: TransitionSpec, date: string)
    requires Passable(config, d, t)
    requires CanCommit(config.host) ==> !Blank(date) && config.host.parsesAsDate(date)
    ensures var call := DriveCall(i.aggregateId, t, date);
      MovesTo(d, i, t, GuardedEffect(config, d, i, t, call.params, call.env))
  {
    var call := DriveCall(i.aggregateId, t, date);
    var p, env := call.params, call.env;
    var context := ContextOf(i, t, p);
    AllPassPasses(t.guards, Soft, context);
    AllPassPasses(t.guards, Hard, context);
    var before := [Requested(i, t, p)] + GuardEvents(i, t, p.actor, Soft, []);
    assert Failures(t.guards, Soft, context, env.guards)[..0] == [];
    if RequiresGovernedEvidence(d, t) {
      var tenant := TenantOf(i, p);
      SmallBatchCommits(config.host, tenant, i.aggregateId, date, env.freshId);
      var commit := Commit(config.host, tenant, i.aggregateId, p.evidenceSnapshots, env.freshId);
      ExecuteMoves(d, i, t, p.actor, 0, [], WithSnapshots(map[], commit.snapshotIds), commit.rows, before);
    } else {
      ExecuteMoves(d, i, t, p.actor, 0, [], map[], [], before);
    }
    assert MovesTo(d, i, t, CommittedEffect(config, d, i, t, p, env, [], before));
  }

  /** The call gets as far as the guards. */
  lemma DrivenIsGuarded(config: Config, i: LoopInstance, t: TransitionSpec, date: string)
    requires i.loopId in config.registry && Passable(config, config.registry[i.loopId], t)
    requires i.status != Completed && i.currentState == t.origin && !IsTerminal(config.registry[i.loopId], t.origin)
    ensures var call := DriveCall(i.aggregateId, t, date);
      TransitionEffect(config, Some(i), call.params, call.env)
        == GuardedEffect(config, config.registry[i.loopId], i, t, call.params, call.env)
  {
  }

  /** Saving the instance of a transition that goes through leaves the loop open or closes it. */
  lemma MoveApplies(config: Config, w: World, a: AggregateId, id: LoopId, t: TransitionSpec, e: Effect)
    requires id in config.registry && Open(w, a, id, t.origin) && MovesTo(config.registry[id], w.instances[a], t, e)
    ensures Open(Apply(w, a, e), a, id, t.target) || ClosedIn(config, Apply(w, a, e), a, id)
  {
  }

  /** A passable transition out of the current state can be taken. */
  lemma DriveStep(config: Config, w: World, a: AggregateId, id: LoopId, t: TransitionSpec, date: string)
    requires id in config.registry && Passable(config, config.registry[id], t)
    requires CanCommit(config.host) ==> !Blank(date) && config.host.parsesAsDate(date)
    requires Open(w, a, id, t.origin) && !IsTerminal(config.registry[id], t.origin)
    ensures var w' := Step(config, w, DriveCall(a, t, date));
      Open(w', a, id, t.target) || ClosedIn(config, w', a, id)
  {
    var i, call := w.instances[a], DriveCall(a, t, date);
    DrivenGuarded(config, config.registry[id], i, t, date);
    DrivenIsGuarded(config, i, t, date);
    MoveApplies(config, w, a, id, t, EffectIn(config, w, call));
  }

  /** Only transitions of this aggregate, each asked for by an actor that the definition lists for it. */
  ghost predicate IsDrive(d: LoopDefinition, a: AggregateId, calls: seq<Call>) {
    forall call | call in calls :: DriveOf(d, a, call)
  }

  ghost predicate DriveOf(d: LoopDefinition, a: AggregateId, call: Call) {
    && call.Transition?
    && call.params.aggregateId == a
    && exists t :: t in d.transitions && t.id == call.params.transitionId && call.params.actor.kind in t.actors
  }

  /** Every chain of passable transitions can be driven, up to the first terminal state on it. */
  lemma {:induction false} Drive(config: Config, w: World, a: AggregateId, id: LoopId, ts: seq<TransitionSpec>, date: string)
    returns (calls: seq<Call>)
    requires id in config.registry && IsPassage(config, config.registry[id], ts)
    requires CanCommit(config.host) ==> !Blank(date) && config.host.parsesAsDate(date)
    requires Open(w, a, id, config.registry[id].initialState)
    ensures IsDrive(config.registry[id], a, calls)
    ensures var w' := RunFrom(config, w, calls);
      Open(w', a, id, EndOf(config.registry[id], ts)) || ClosedIn(config, w', a, id)
  {
    if ts == [] {
      return [];
    }
    var t := Last(ts);
    var before := Drive(config, w, a, id, Front(ts), date);
    var w' := RunFrom(config, w, before);
    if ClosedIn(config, w', a, id) {
      return before;
    }
    var call := DriveCall(a, t, date);
    calls := before + [call];
    FrontLastSnoc(before, call);
    DriveStep(config, w', a, id, t, date);
    assert t in config.registry[id].transitions && t.actors[0] in t.actors;
    assert DriveOf(config.registry[id], a, call);
  }

  /** Any freshly started aggregate of a completable loop is closed by some calls of listed actors. */
  lemma CompletesFromStart(config: Config, w: World, a: AggregateId, id: LoopId)
    requires id in config.registry && Completable(config, config.registry[id])
    requires Open(w, a, id, config.registry[id].initialState)
    ensures exists calls :: IsDrive(config.registry[id], a, calls) && ClosedIn(config, RunFrom(config, w, calls), a, id)
  {
    var d := config.registry[id];
    var ts :| IsPassage(config, d, ts) && IsTerminal(d, EndOf(d, ts));
    var date := "";
    if CanCommit(config.host) {
      date :| !Blank(date) && config.host.parsesAsDate(date);
    }
    var calls := Drive(config, w, a, id, ts, date);
    assert ClosedIn(config, RunFrom(config, w, calls), a, id);
  }

  /** Starting an aggregate that has no active loop puts it in the initial state. */
  lemma StartOpens(config: Config, w: World, a: AggregateId, id: LoopId, actor: ActorRef)
    requires Consistent(config) && id in config.registry
    requires a in w.instances ==> w.instances[a].status != Active
    ensures Open(Step(config, w, Start(id, a, actor, map[], 0)), a, id, config.registry[id].initialState)
  {
  }

  // ---------------------------------------------------------------- nothing else completes

  /** A record is only made of a transition that is passable. */
  ghost predicate RecordPassable(config: Config, r: TransitionRecord) {
    r.loopId in config.registry ==>
      var d := config.registry[r.loopId];
      match Find(d, r.transitionId, r.fromState)
      case None => false
      case Some(t) => d.governed || t.governed ==> CanCommit(config.host)
  }

  lemma CommittedCanCommit(host: Host, tenantId: string, a: AggregateId, batch: Batch, freshId: nat -> string)
    requires Commit(host, tenantId, a, batch, freshId).Committed?
    ensures CanCommit(host)
  {
    assert SnapshotOk(host, batch.snapshots[0]);
    var date := batch.snapshots[0].capturedAt.value;
    assert !Blank(date) && host.parsesAsDate(date);
  }

  lemma CommittedPassable(config: Config, d: LoopDefinition, i: LoopInstance, t: TransitionSpec, p: TransitionParams,
                          env: Environment, soft: seq<Failure>, before: seq<LoopEvent>)
    requires Find(d, t.id, i.currentState) == Some(t)
    requires i.loopId in config.registry && config.registry[i.loopId] == d
    ensures var e := CommittedEffect(config, d, i, t, p, env, soft, before);
      e.record.Some? ==> RecordPassable(config, e.record.value)
  {
    var commit := Commit(config.host, TenantOf(i, p), p.aggregateId, p.evidenceSnapshots, env.freshId);
    if RequiresGovernedEvidence(d, t) && commit.Committed? {
      CommittedCanCommit(config.host, TenantOf(i, p), p.aggregateId, p.evidenceSnapshots, env.freshId);
    }
  }

  lemma GuardedPassable(config: Config, d: LoopDefinition, i: LoopInstance, t: TransitionSpec, p: TransitionParams, env: Environment)
    requires Find(d, t.id, i.currentState) == Some(t)
    requires i.loopId in config.registry && config.registry[i.loopId] == d
    ensures var e := GuardedEffect(config, d, i, t, p, env);
      e.record.Some? ==> RecordPassable(config, e.record.value)
  {
    if Known(t.guards, env.guards) {
      var soft := Failures(t.guards, Soft, ContextOf(i, t, p), env.guards);
      CommittedPassable(config, d, i, t, p, env, soft,
                        [Requested(i, t, p)] + GuardEvents(i, t, p.actor, Soft, soft[..Emittable(soft)]));
    }
  }

  lemma CallPassable(config: Config, stored: Option<LoopInstance>, call: Call)
    ensures var e := EffectOf(config, stored, call);
      e.record.Some? ==> RecordPassable(config, e.record.value)
  {
    if call.Transition? && stored.Some? && stored.value.loopId in config.registry {
      var i := stored.value;
      var found := Find(config.registry[i.loopId], call.params.transitionId, i.currentState);
      if found.Some? {
        GuardedPassable(config, config.registry[i.loopId], i, found.value, call.params, call.env);
      }
    }
  }

  lemma {:induction false} RecordsPassable(config: Config, calls: seq<Call>, a: AggregateId)
    ensures forall r | r in HistoryOf(Run(config, calls), a) :: RecordPassable(config, r)
  {
    if calls != [] {
      var w, call := Run(config, Front(calls)), Last(calls);
      RecordsPassable(config, Front(calls), a);
      CallPassable(config, InstanceOf(w, Target(call)), call);
      if a != Target(call) {
        OthersUntouched(config, w, call, a);
      }
    }
  }

  /** The transitions that were taken for the records of a walk. */
  lemma {:induction false} PassageOf(config: Config, d: LoopDefinition, records: seq<TransitionRecord>) returns (ts: seq<TransitionSpec>)
    requires d.id in config.registry && config.registry[d.id] == d
    requires IsTakenPath(d, d.initialState, records)
    requires forall r | r in records :: RecordPassable(config, r)
    ensures IsPassage(config, d, ts)
    ensures EndOf(d, ts) == Replay.EndState(d.initialState, records)
  {
    if records == [] {
      return [];
    }
    assert forall r | r in Front(records) :: r in records;
    var before := PassageOf(config, d, Front(records));
    var r := Last(records);
    assert r in records;
    var t := Find(d, r.transitionId, r.fromState).value;
    ts := before + [t];
    FrontLastSnoc(before, t);
  }

  lemma OnlyCompletableCloses(config: Config, calls: seq<Call>, a: AggregateId, id: LoopId)
    requires Consistent(config) && id in config.registry
    requires ClosedIn(config, Run(config, calls), a, id)
    ensures Completable(config, config.registry[id])
  {
    var w := Run(config, calls);
    AlwaysStanding(config, calls, a);
    RecordsPassable(config, calls, a);
    var ts := PassageOf(config, config.registry[id], Since(w, a));
  }

  /**
   * The engine can bring an aggregate to a terminal state of a loop exactly when some chain of
   * transitions, each the first of its id and origin, each with an actor, and each with evidence
   * that can be stored where it is asked for, leads there.
   */
  lemma ExactlyCompletableLoopsClose(config: Config, a: AggregateId, id: LoopId)
    requires Consistent(config) && id in config.registry
    ensures (exists calls :: ClosedIn(config, Run(config, calls), a, id)) <==> Completable(config, config.registry[id])
  {
    if calls :| ClosedIn(config, Run(config, calls), a, id) {
      OnlyCompletableCloses(config, calls, a, id);
    }
    if Completable(config, config.registry[id]) {
      var first := Start(id, a, ActorRef("driver", System), map[], 0);
      RunOne(config, EMPTY_WORLD, first);
      StartOpens(config, EMPTY_WORLD, a, id, first.actor);
      var w := Run(config, [first]);
      CompletesFromStart(config, w, a, id);
      var rest :| ClosedIn(config, RunFrom(config, w, rest), a, id);
      RunFromAppend(config, EMPTY_WORLD, [first], rest);
      assert ClosedIn(config, Run(config, [first] + rest), a, id);
    }
  }

  lemma RunOne(config: Config, w: World, call: Call)
    ensures RunFrom(config, w, [call]) == Step(config, w, call)
  {
    var calls := [call];
    assert RunFrom(config, w, Front(calls)) == w;
    assert RunFrom(config, w, calls) == Step(config, RunFrom(config, w, Front(calls)), Last(calls));
  }

  lemma {:induction false} RunFromAppend(config: Config, w: World, first: seq<Call>, rest: seq<Call>)
    ensures RunFrom(config, w, first + rest) == RunFrom(config, RunFrom(config, w, first), rest)
  {
    if rest == [] {
      assert first + rest == first;
    } else {
      RunFromAppend(config, w, first, Front(rest));
      FrontLast(rest);
      Assoc(first, Front(rest), [Last(rest)]);
      FrontLastSnoc(first + Front(rest), Last(rest));
    }
  }

  // ---------------------------------------------------------------- from validation to execution

  predicate DistinctPairs(d: LoopDefinition) {
    forall i, j | 0 <= i < j < |d.transitions| ::
      d.transitions[i].id != d.transitions[j].id || d.transitions[i].origin != d.transitions[j].origin
  }

  /** With distinct pairs the first match is the only one. */
  lemma {:induction false} FindOnly(d: LoopDefinition, i: nat, k: nat)
    requires DistinctPairs(d) && i <= k < |d.transitions|
    ensures FindFrom(d.transitions, i, d.transitions[k].id, d.transitions[k].origin) == Some(d.transitions[k])
    decreases k - i
  {
    if i < k {
      FindOnly(d, i + 1, k);
    }
  }

  lemma {:induction false} PassageAlong(config: Config, d: LoopDefinition, path: seq<StateId>) returns (ts: seq<TransitionSpec>)
    requires forall t | t in d.transitions :: Passable(config, d, t)
    requires V.IsWalk(d, path) && path[0] == d.initialState
    ensures IsPassage(config, d, ts) && EndOf(d, ts) == Last(path)
  {
    if |path| == 1 {
      return [];
    }
    assert V.IsWalk(d, Front(path));
    var before := PassageAlong(config, d, Front(path));
    assert V.Edge(d, path[|path| - 2], path[|path| - 1]);
    var t :| t in d.transitions && t.origin == path[|path| - 2] && t.target == path[|path| - 1];
    ts := before + [t];
    FrontLastSnoc(before, t);
  }

  /**
   * An accepted definition with distinct (id, origin) pairs, an actor for every transition and a
   * host that can store the evidence it asks for is completable.
   */
  lemma AcceptedIsCompletable(config: Config, d: LoopDefinition)
    requires V.Acceptable(d) && DistinctPairs(d)
    requires forall t | t in d.transitions :: t.actors != [] && ((d.governed || t.governed) ==> CanCommit(config.host))
    ensures Completable(config, d)
  {
    V.AcceptableMeans(d);
    forall t | t in d.transitions
      ensures Passable(config, d, t)
    {
      var k :| 0 <= k < |d.transitions| && d.transitions[k] == t;
      FindOnly(d, 0, k);
    }
    var v :| IsTerminal(d, v) && V.Reaches(d, d.initialState, v);
    var path :| V.IsWalk(d, path) && path[0] == d.initialState && Last(path) == v;
    var ts := PassageAlong(config, d, path);
  }

  /** Two transitions share the id and the origin: validation accepts, the engine always takes the first. */
  const SHADOWED := LoopDefinition(
    "shadowed", "1", "Shadowed", [StateSpec("A", false), StateSpec("B", true), StateSpec("C", false)], "A",
    [TransitionSpec("go", "A", "C", "park", [Human], [], false), TransitionSpec("go", "A", "B", "finish", [Human], [], false)],
    None, false)

  lemma ShadowedCompletes()
    ensures V.CanComplete(SHADOWED)
  {
    var d := SHADOWED;
    assert d.states[1] == StateSpec("B", true) && IsTerminal(d, "B");
    assert d.transitions[1] in d.transitions;
    assert V.Edge(d, "A", "B");
    V.ReachesItself(d, "A");
    V.ReachesNext(d, "A", "A", "B");
  }

  lemma ShadowedIsAccepted()
    ensures V.Acceptable(SHADOWED)
  {
    var d := SHADOWED;
    ShadowedCompletes();
    assert d.states[0].id == "A" && d.states[1].id == "B" && d.states[2].id == "C" && d.states[1].isTerminal;
    assert d.states[0] in d.states && d.states[1] in d.states && d.states[2] in d.states;
    assert d.transitions[1] in d.transitions && d.transitions[1].target == "B";
    assert d.transitions[0].target != "A" && d.transitions[1].target != "A";
    forall code: V.ErrorCode
      ensures !V.Violates(d, code)
    {
    }
  }

  lemma {:induction false} ShadowedPassages(config: Config, ts: seq<TransitionSpec>)
    requires IsPassage(config, SHADOWED, ts)
    ensures EndOf(SHADOWED, ts) == "A" || EndOf(SHADOWED, ts) == "C"
  {
    if ts != [] {
      ShadowedPassages(config, Front(ts));
      var d, t := SHADOWED, Last(ts);
      assert FindFrom(d.transitions, 0, "go", "A") == Some(d.transitions[0]);
      assert t in d.transitions;
    }
  }

  lemma ShadowedNotCompletable(config: Config)
    ensures !Completable(config, SHADOWED)
  {
    assert !IsTerminal(SHADOWED, "A") && !IsTerminal(SHADOWED, "C");
    forall ts | IsPassage(config, SHADOWED, ts)
      ensures !IsTerminal(SHADOWED, EndOf(SHADOWED, ts))
    {
      ShadowedPassages(config, ts);
    }
  }

  /** Without distinct pairs acceptance is not enough: no run closes this accepted loop. */
  lemma ShadowedNeverCloses(config: Config, calls: seq<Call>, a: AggregateId)
    requires Consistent(config) && "shadowed" in config.registry && config.registry["shadowed"] == SHADOWED
    ensures V.Acceptable(SHADOWED)
    ensures !ClosedIn(config, Run(config, calls), a, "shadowed")
  {
    ShadowedIsAccepted();
    ShadowedNotCompletable(config);
    if ClosedIn(config, Run(config, calls), a, "shadowed") {
      OnlyCompletableCloses(config, calls, a, "shadowed");
    }
  }
}
