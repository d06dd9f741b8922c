/** What a migration call reports: as applied just what it committed itself, and everything else as skipped. */
module MigrationReports {
  import opened Prelude
  import opened Migrations
  import opened MigrationDrift

  /** The id that a step has committed, if it has. */
  function Added(before: seq<Migration>, after: seq<Migration>): seq<string> {
    if |after| > |before| then [after[|before|].id] else []
  }

  /** The ids of the migrations that the steps of a call have committed, in their order. */
  function CommittedBy(c: Config, events: seq<Event>, p: nat): seq<string> {
    if events == [] then []
    else
      CommittedBy(c, Front(events), p)
      + if Last(events).p == p then Added(Run(c, Front(events)).shared.effects, Run(c, events).shared.effects) else []
  }

  /** The ids of the first `k` migrations, each dealt to one of two lists, in the order of the migrations. */
  predicate Dealt(ms: seq<Migration>, k: nat, applied: seq<string>, skipped: seq<string>)
    requires k <= |ms|
  {
    if k == 0 then applied == [] && skipped == []
    else
      || (applied != [] && Last(applied) == ms[k - 1].id && Dealt(ms, k - 1, Front(applied), skipped))
      || (skipped != [] && Last(skipped) == ms[k - 1].id && Dealt(ms, k - 1, applied, Front(skipped)))
  }

  /** The first `k` ids of the list are divided into those applied, which are those committed, and those skipped. */
  ghost predicate Divided(ms: seq<Migration>, k: nat, applied: seq<string>, skipped: seq<string>, committed: seq<string>) {
    k <= |ms| && applied == committed && Dealt(ms, k, applied, skipped)
  }

  ghost predicate LoopReports(ms: seq<Migration>, l: Loop, committed: seq<string>) {
    Divided(ms, l.k, l.applied, l.skipped, committed)
  }

  ghost predicate ResultReports(ms: seq<Migration>, r: Result, committed: seq<string>) {
    r.Returned? ==> Divided(ms, |ms|, r.applied, r.skipped, committed)
  }

  ghost predicate Reports(ms: seq<Migration>, client: Client, committed: seq<string>) {
    match client
    case AtMigration(l) => LoopReports(ms, l, committed)
    case Began(l) => LoopReports(ms, l, committed)
    case BodyDone(l) => LoopReports(ms, l, committed)
    case RowDone(l) => LoopReports(ms, l, committed)
    case RollingBack => true
    case Unlocking(r) => ResultReports(ms, r, committed)
    case Finished(r) => ResultReports(ms, r, committed)
    case _ => committed == []
  }

  lemma SkippedDivides(ms: seq<Migration>, k: nat, applied: seq<string>, skipped: seq<string>, committed: seq<string>)
    requires k < |ms| && Divided(ms, k, applied, skipped, committed)
    ensures Divided(ms, k + 1, applied, skipped + [ms[k].id], committed)
  {
    FrontLastSnoc(skipped, ms[k].id);
  }

  lemma AppliedDivides(ms: seq<Migration>, k: nat, applied: seq<string>, skipped: seq<string>, committed: seq<string>)
    requires k < |ms| && Divided(ms, k, applied, skipped, committed)
    ensures Divided(ms, k + 1, applied + [ms[k].id], skipped, committed + [ms[k].id])
  {
    FrontLastSnoc(applied, ms[k].id);
  }

  lemma MigrationReported(c: Config, s: Shared, p: nat, x: Session, y: Session, a: Answer, l: Loop, committed: seq<string>)
    requires LoopReports(c.list(p), l, committed)
    ensures Reports(c.list(p), ActMigration(c, s, p, x, y, a, l).session.client, committed)
  {
    if l.k < |c.list(p)| {
      SkippedDivides(c.list(p), l.k, l.applied, l.skipped, committed);
    }
  }

  lemma CommitReported(c: Config, s: Shared, p: nat, y: Session, a: Answer, l: Loop, committed: seq<string>)
    requires LoopReports(c.list(p), l, committed) && l.k < |c.list(p)|
    requires Executed(a) ==> y.tx.Some? && y.tx.value.effects == [c.list(p)[l.k]]
    ensures var r := ActCommit(c, s, p, y, a, l);
      Reports(c.list(p), r.session.client, committed + Added(s.effects, r.shared.effects))
  {
    AppliedDivides(c.list(p), l.k, l.applied, l.skipped, committed);
    assert committed + [] == committed;
  }

  /** Every other statement leaves the effects alone. */
  lemma OtherReported(c: Config, s: Shared, p: nat, x: Session, answer: Answer, committed: seq<string>)
    requires Reports(c.list(p), x.client, committed) && !x.client.RowDone? && !x.client.AtMigration?
    ensures var r := Act(c, s, p, x, answer);
      r.shared.effects == s.effects && Reports(c.list(p), r.session.client, committed)
  {
  }

  lemma ActReported(c: Config, s: Shared, p: nat, x: Session, answer: Answer, committed: seq<string>)
    requires Stands(c, s, p, x) && Reports(c.list(p), x.client, committed)
    ensures var r := Act(c, s, p, x, answer);
      Reports(c.list(p), r.session.client, committed + Added(s.effects, r.shared.effects))
  {
    var a := if x.broken || x.ended then NotSent else answer;
    var y := x.(broken := x.broken || a.Lost? || a.NotSent?);
    if x.client.RowDone? {
      CommitReported(c, s, p, y, a, x.client.loop, committed);
    } else {
      assert committed + [] == committed;
      if x.client.AtMigration? {
        MigrationReported(c, s, p, x, y, a, x.client.loop, committed);
        assert Act(c, s, p, x, answer) == ActMigration(c, s, p, x, y, a, x.client.loop);
      } else {
        OtherReported(c, s, p, x, answer, committed);
      }
    }
  }

  /** In every run, what a call has committed is what it will report as applied. */
  lemma {:induction false} AlwaysReported(c: Config, events: seq<Event>, p: nat)
    ensures Reports(c.list(p), SessionOf(Run(c, events), p).client, CommittedBy(c, events, p))
  {
    if events != [] {
      var s, e := Run(c, Front(events)), Last(events);
      AlwaysReported(c, Front(events), p);
      EmptySound(c);
      RunSound(c, EMPTY, Front(events));
      assert SessionSound(s.shared, s.shared.lock == Some(p), c.list(p), SessionOf(s, p));
      var committed := CommittedBy(c, Front(events), p);
      assert committed + [] == committed;
      if e.p == p && e.Next? {
        ActReported(c, s.shared, p, SessionOf(s, p), e.answer, committed);
      }
    }
  }

  /**
   * Whatever lists the calls carry: a call that returns reports as applied just the migrations
   * that it committed itself, and every other of its list as skipped, each once and in the order of
   * the list.
   */
  lemma AppliedMeansCommitted(c: Config, events: seq<Event>, p: nat)
    requires SessionOf(Run(c, events), p).client.Finished? && SessionOf(Run(c, events), p).client.result.Returned?
    ensures var r := SessionOf(Run(c, events), p).client.result;
      && r.applied == CommittedBy(c, events, p)
      && Dealt(c.list(p), |c.list(p)|, r.applied, r.skipped)
  {
    AlwaysReported(c, events, p);
  }

  // ---------------------------------------------------------------- the lock

  /** The session is healthy or over, and holds no lock before its call has begun or after it has finished. */
  ghost predicate LetsGo(s: Shared, p: nat, x: Session) {
    && (x.ended || !x.broken)
    && (x.ended || x.client.Idle? || x.client.Connected? || x.client.Finished? ==> s.lock != Some(p))
  }

  lemma OwnLetsGo(c: Config, s: Shared, p: nat, x: Session)
    requires LetsGo(s, p, x)
    ensures var r := Act(c, s, p, x, Received); LetsGo(r.shared, p, r.session)
  {
  }

  lemma OtherLetsGo(c: Config, s: Shared, p: nat, x: Session, q: nat, answer: Answer)
    requires s.lock != Some(p) && p != q
    ensures Act(c, s, q, x, answer).shared.lock != Some(p)
  {
  }

  lemma {:induction false} AlwaysLetsGo(c: Config, events: seq<Event>, p: nat)
    requires forall e | e in events && e.Next? && e.p == p :: e.answer.Received?
    ensures var s := Run(c, events); LetsGo(s.shared, p, SessionOf(s, p))
  {
    if events != [] {
      var s, e := Run(c, Front(events)), Last(events);
      FrontLast(events);
      assert e in events && forall f | f in Front(events) :: f in events;
      AlwaysLetsGo(c, Front(events), p);
      if e.Next? && e.p == p {
        OwnLetsGo(c, s.shared, p, SessionOf(s, p));
      } else if e.Next? && s.shared.lock != Some(p) {
        OtherLetsGo(c, s.shared, p, SessionOf(s, e.p), e.p, e.answer);
      }
    }
  }

  /** A call whose statements are all answered holds no lock any more when it has finished, whatever it ended in. */
  lemma FinishedLetsGo(c: Config, events: seq<Event>, p: nat)
    requires forall e | e in events && e.Next? && e.p == p :: e.answer.Received?
    requires SessionOf(Run(c, events), p).client.Finished?
    ensures Run(c, events).shared.lock != Some(p)
  {
    AlwaysLetsGo(c, events, p);
  }

  // ---------------------------------------------------------------- lost answers

  /**
   * A commit that the server executes stands, also when its answer is lost and the call ends in an
   * error; one that is rejected or does not arrive leaves nothing. And a lock whose answer is lost
   * is held although the call has ended, until its session does.
   */
  lemma LostAnswersHaveHappened(c: Config, events: seq<Event>, p: nat, l: Loop, answer: Answer)
    requires var x := SessionOf(Run(c, events), p); !x.broken && !x.ended
    ensures SessionOf(Run(c, events), p).client == RowDone(l) ==>
      var s, s' := Run(c, events), Step(c, Run(c, events), Next(p, answer));
      && l.k < |c.list(p)|
      && s'.shared.effects == s.shared.effects + (if answer == Received || answer == Lost then [c.list(p)[l.k]] else [])
      && (SessionOf(s', p).client.AtMigration? <==> answer == Received)
    ensures SessionOf(Run(c, events), p).client == Connected && Run(c, events).shared.lock.None? ==>
      var s' := Step(c, Run(c, events), Next(p, answer));
      && (s'.shared.lock == Some(p) <==> answer == Received || answer == Lost)
      && (SessionOf(s', p).client == Finished(Threw) <==> answer != Received)
      && Step(c, s', SessionEnds(p)).shared.lock.None?
  {
    var s := Run(c, events);
    EmptySound(c);
    RunSound(c, EMPTY, events);
    assert SessionSound(s.shared, s.shared.lock == Some(p), c.list(p), SessionOf(s, p));
  }
}
