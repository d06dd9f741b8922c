/** What any number of migration calls leave, whatever happens to them. */
module MigrationRuns {
  import opened Prelude
  import opened Migrations
  import opened MigrationSteps

  ghost predicate Good(c: Config, s: State) {
    && Clean(c, s.shared)
    && forall p: nat :: SessionOk(c, s.shared.effects, s.shared.lock == Some(p), p, SessionOf(s, p))
  }

  lemma StepOk(c: Config, s: State, e: Event)
    requires Uniform(c) && Good(c, s)
    ensures Good(c, Step(c, s, e))
    ensures s.shared.effects <= Step(c, s, e).shared.effects
  {
    var x := SessionOf(s, e.p);
    var s' := Step(c, s, e);
    if e.Next? {
      ActOk(c, s.shared, e.p, x, e.answer);
    } else {
      EndOk(c, s.shared, e.p, x);
    }
    forall q: nat
      ensures SessionOk(c, s'.shared.effects, s'.shared.lock == Some(q), q, SessionOf(s', q))
    {
      if q != e.p {
        assert SessionOk(c, s.shared.effects, s.shared.lock == Some(q), q, SessionOf(s, q));
        assert SessionOf(s', q) == SessionOf(s, q);
        if s.shared.lock != Some(q) {
          OthersCommit(c, s.shared.effects, s'.shared.effects, q, SessionOf(s, q));
        }
      }
    }
  }

  lemma {:induction false} GoodRun(c: Config, s: State, events: seq<Event>)
    requires Uniform(c) && Good(c, s)
    ensures Good(c, RunFrom(c, s, events))
  {
    if events != [] {
      GoodRun(c, s, Front(events));
      StepOk(c, RunFrom(c, s, Front(events)), Last(events));
    }
  }

  lemma AlwaysGood(c: Config, events: seq<Event>)
    requires Uniform(c)
    ensures Good(c, Run(c, events))
  {
    assert c.migrations[..0] == [];
    GoodRun(c, EMPTY, events);
  }

  // ---------------------------------------------------------------- main results

  /**
   * Through any crashes, failures, lost answers and concurrent calls, the committed effects are
   * the first migrations of the list, each once and in order, and exactly they are recorded.
   */
  lemma EffectsAreARecordedPrefix(c: Config, events: seq<Event>)
    requires Uniform(c)
    ensures var s := Run(c, events).shared;
      && s.effects <= c.migrations
      && |s.records| == |s.effects|
      && (forall i | 0 <= i < |s.effects| :: s.records[i] == Recorded(s.effects[i].id, s.effects[i].checksum))
      && (forall i, j | 0 <= i < j < |s.records| :: s.records[i].id != s.records[j].id)
  {
    AlwaysGood(c, events);
    RecordsAt(Run(c, events).shared.effects);
  }

  /**
   * A call that returns has left every migration of its list committed, and reports each of them
   * once, as skipped or as applied; no call finds drift.
   */
  lemma ReturnedMeansMigrated(c: Config, events: seq<Event>, p: nat)
    requires Uniform(c)
    requires SessionOf(Run(c, events), p).client.Finished?
    ensures var s := Run(c, events);
      match SessionOf(s, p).client.result
      case Returned(applied, skipped) =>
        && c.list(p) <= s.shared.effects
        && skipped + applied == IdsOf(c.list(p))
      case Drifted(_) => false
      case Threw => true
  {
    AlwaysGood(c, events);
    var s := Run(c, events);
    assert SessionOk(c, s.shared.effects, s.shared.lock == Some(p), p, SessionOf(s, p));
    assert c.migrations[..LengthOf(c, p)] == c.list(p);
  }

  /** A call that has not loaded the rows yet, when its whole list is committed. */
  ghost predicate ComesLater(c: Config, effects: seq<Migration>, p: nat, x: Session) {
    && LengthOf(c, p) <= |effects|
    && match x.client
       case Idle => true
       case Connected => true
       case Locked => true
       case TableSeen(found) => found || x.ended || LengthOf(c, p) == 0
       case AtMigration(l) => l.applied == [] && (LengthOf(c, p) <= |l.already| || x.ended)
       case Finished(r) => r.Returned? ==> r.applied == []
       case Unlocking(r) => r.Returned? ==> r.applied == []
       case RollingBack => true
       case _ => x.ended
  }

  lemma LaterMigration(c: Config, s: Shared, p: nat, x: Session, y: Session, a: Answer, l: Loop)
    requires Fits(c, s, p, x) && Sees(x, y, a) && x.client == AtMigration(l) && ComesLater(c, s.effects, p, x)
    ensures ComesLater(c, s.effects, p, ActMigration(c, s, p, x, y, a, l).session)
  {
    if l.k < LengthOf(c, p) {
      LoadedIs(c.migrations, |l.already|, l.k);
    }
  }

  lemma LaterAct(c: Config, s: Shared, p: nat, x: Session, answer: Answer)
    requires Fits(c, s, p, x) && ComesLater(c, s.effects, p, x)
    ensures ComesLater(c, s.effects, p, Act(c, s, p, x, answer).session)
  {
    var a := if x.broken || x.ended then NotSent else answer;
    var y := x.(broken := x.broken || a.Lost? || a.NotSent?);
    match x.client
    case AtMigration(l) => LaterMigration(c, s, p, x, y, a, l);
    case Locked =>
      if s.effects == [] {
        assert LengthOf(c, p) == 0;
      } else {
        RecordsAt(s.effects);
      }
    case TableSeen(found) => RecordsAt(s.effects);
    case _ =>
  }

  lemma LaterStep(c: Config, s: State, e: Event, p: nat)
    requires Uniform(c) && Good(c, s)
    requires ComesLater(c, s.shared.effects, p, SessionOf(s, p))
    ensures var s' := Step(c, s, e);
      ComesLater(c, s'.shared.effects, p, SessionOf(s', p))
  {
    StepOk(c, s, e);
    var x := SessionOf(s, p);
    assert SessionOk(c, s.shared.effects, s.shared.lock == Some(p), p, x);
    if e.p == p && e.Next? {
      LaterAct(c, s.shared, p, x, e.answer);
    }
  }

  lemma {:induction false} LaterRun(c: Config, s: State, events: seq<Event>, p: nat)
    requires Uniform(c) && Good(c, s)
    requires ComesLater(c, s.shared.effects, p, SessionOf(s, p))
    ensures var s' := RunFrom(c, s, events);
      Good(c, s') && ComesLater(c, s'.shared.effects, p, SessionOf(s', p))
  {
    if events != [] {
      LaterRun(c, s, Front(events), p);
      LaterStep(c, RunFrom(c, s, Front(events)), Last(events), p);
      StepOk(c, RunFrom(c, s, Front(events)), Last(events));
    }
  }

  /** A call that starts when its migrations are committed applies nothing, and skips them all. */
  lemma FollowingCallAppliesNothing(c: Config, before: seq<Event>, after: seq<Event>, p: nat)
    requires Uniform(c)
    requires SessionOf(Run(c, before), p) == FRESH
    requires LengthOf(c, p) <= |Run(c, before).shared.effects|
    requires SessionOf(RunFrom(c, Run(c, before), after), p).client.Finished?
    ensures var r := SessionOf(RunFrom(c, Run(c, before), after), p).client.result;
      r == Threw || r == Returned([], IdsOf(c.list(p)))
  {
    AlwaysGood(c, before);
    LaterRun(c, Run(c, before), after, p);
    var s' := RunFrom(c, Run(c, before), after);
    assert SessionOk(c, s'.shared.effects, s'.shared.lock == Some(p), p, SessionOf(s', p));
    assert c.migrations[..LengthOf(c, p)] == c.list(p);
  }
}
