/** What every statement of a migration call keeps, however it fares. */
module MigrationSteps {
  import opened Prelude
  import opened Migrations

  /** The first migrations of the list are committed, and they are what is recorded. */
  ghost predicate Clean(c: Config, s: Shared) {
    && |s.effects| <= |c.migrations|
    && s.effects == c.migrations[..|s.effects|]
    && s.records == RecordsOf(s.effects)
    && (s.records != [] ==> TableExists(s.effects))
  }

  function Min(a: int, b: int): int {
    if a < b then a else b
  }

  /** What a call has skipped and applied when it stands at migration `l.k`. */
  ghost predicate LoopOk(c: Config, effects: seq<Migration>, p: nat, l: Loop) {
    var n := |l.already|;
    && l.k <= LengthOf(c, p) <= |c.migrations|
    && n <= |effects| <= |c.migrations|
    && l.already == RecordsOf(c.migrations[..n])
    && l.skipped == IdsOf(c.migrations[..Min(l.k, n)])
    && l.applied == IdsOf(c.migrations[Min(l.k, n)..l.k])
    && (l.k > n ==> l.k <= |effects|)
  }

  /** While the session lives nobody else has committed since the rows were loaded. */
  ghost predicate UpToDate(effects: seq<Migration>, l: Loop) {
    |effects| == if l.k > |l.already| then l.k else |l.already|
  }

  ghost predicate ResultOk(c: Config, effects: seq<Migration>, p: nat, r: Result) {
    match r
    case Returned(applied, skipped) =>
      LengthOf(c, p) <= |effects| <= |c.migrations| && skipped + applied == IdsOf(c.migrations[..LengthOf(c, p)])
    case Drifted(_) => false
    case Threw => true
  }

  ghost predicate InTransaction(c: Config, effects: seq<Migration>, p: nat, x: Session, l: Loop, tx: Tx) {
    && LoopOk(c, effects, p, l)
    && l.k < LengthOf(c, p) && l.k >= |l.already|
    && (!x.ended ==> UpToDate(effects, l) && x.tx == Some(tx))
  }

  /** What is true of a session, given what is committed and whether it holds the lock. */
  ghost predicate SessionOk(c: Config, effects: seq<Migration>, held: bool, p: nat, x: Session) {
    && (x.ended ==> x.tx.None? && !held)
    && (x.tx.Some? ==> held)
    && (held ==> !x.client.Idle? && !x.client.Connected?)
    && match x.client
       case Idle => x.tx.None?
       case Connected => x.tx.None?
       case Locked => x.tx.None? && (x.ended || held)
       case TableSeen(found) => x.tx.None? && (x.ended || (held && found == TableExists(effects)))
       case AtMigration(l) => x.tx.None? && LoopOk(c, effects, p, l) && (x.ended || (held && UpToDate(effects, l)))
       case Began(l) => InTransaction(c, effects, p, x, l, Tx([], [])) && (x.ended || held)
       case BodyDone(l) => l.k < |c.migrations| && InTransaction(c, effects, p, x, l, Tx([c.migrations[l.k]], [])) && (x.ended || held)
       case RowDone(l) =>
         l.k < |c.migrations| && InTransaction(c, effects, p, x, l, Tx([c.migrations[l.k]], [RecordOf(c.migrations[l.k])]))
         && (x.ended || (held && TableExists(effects + [c.migrations[l.k]])))
       case RollingBack => x.ended || held
       case Unlocking(r) => ResultOk(c, effects, p, r) && (x.tx.Some? ==> x.broken)
       case Finished(r) => ResultOk(c, effects, p, r) && (x.tx.Some? ==> x.broken)
  }

  /** Nothing that is known of a session without the lock is lost when others commit. */
  lemma OthersCommit(c: Config, effects: seq<Migration>, effects': seq<Migration>, p: nat, x: Session)
    requires SessionOk(c, effects, false, p, x)
    requires |effects| <= |effects'| <= |c.migrations|
    ensures SessionOk(c, effects', false, p, x)
  {
  }

  lemma {:induction false} LoadedIs(ms: seq<Migration>, n: nat, k: nat)
    requires DistinctIds(ms) && n <= |ms| && k < |ms|
    ensures Loaded(RecordsOf(ms[..n]), ms[k].id) == if k < n then Some(ms[k].checksum) else None
  {
    if n > 0 {
      LoadedIs(ms, n - 1, k);
      PrefixSnoc(ms, n - 1);
      FrontLastSnoc(ms[..n - 1], ms[n - 1]);
      FrontLastSnoc(RecordsOf(ms[..n - 1]), RecordOf(ms[n - 1]));
    }
  }

  lemma PrefixSnoc(ms: seq<Migration>, n: nat)
    requires n < |ms|
    ensures ms[..n + 1] == ms[..n] + [ms[n]]
  {
  }

  lemma RecordsSnoc(ms: seq<Migration>, m: Migration)
    ensures RecordsOf(ms + [m]) == RecordsOf(ms) + [RecordOf(m)]
  {
    FrontLastSnoc(ms, m);
  }

  lemma {:induction false} IdsSplit(ms: seq<Migration>, i: nat, k: nat)
    requires i <= k <= |ms|
    ensures IdsOf(ms[..i]) + IdsOf(ms[i..k]) == IdsOf(ms[..k])
  {
    if i == k {
      assert ms[i..k] == [];
    } else {
      IdsSplit(ms, i, k - 1);
      IdsNext(ms, i, k - 1);
      PrefixSnoc(ms, k - 1);
      FrontLastSnoc(ms[..k - 1], ms[k - 1]);
      Assoc(IdsOf(ms[..i]), IdsOf(ms[i..k - 1]), [ms[k - 1].id]);
    }
  }

  lemma IdsNext(ms: seq<Migration>, i: nat, k: nat)
    requires i <= k < |ms|
    ensures IdsOf(ms[i..k + 1]) == IdsOf(ms[i..k]) + [ms[k].id]
  {
    assert ms[i..k + 1] == ms[i..k] + [ms[k]];
    FrontLastSnoc(ms[i..k], ms[k]);
  }

  /** The state after a step fits, and what the step may have changed. */
  ghost predicate ActedOk(c: Config, s: Shared, p: nat, r: Acted) {
    && Clean(c, r.shared)
    && SessionOk(c, r.shared.effects, r.shared.lock == Some(p), p, r.session)
    && s.effects <= r.shared.effects
    && (r.shared.effects != s.effects ==> s.lock == Some(p))
    && (r.shared.lock == s.lock || (s.lock.None? && r.shared.lock == Some(p)) || (s.lock == Some(p) && r.shared.lock.None?))
  }

  ghost predicate Fits(c: Config, s: Shared, p: nat, x: Session) {
    DistinctIds(c.migrations) && c.list(p) <= c.migrations && Clean(c, s) && SessionOk(c, s.effects, s.lock == Some(p), p, x)
  }

  /** The session as the step sees it, and how the statement fares on it. */
  ghost predicate Sees(x: Session, y: Session, a: Answer) {
    (x.broken || x.ended ==> a.NotSent?) && y == x.(broken := x.broken || a.Lost? || a.NotSent?)
  }

  lemma LockOk(c: Config, s: Shared, p: nat, x: Session, y: Session, a: Answer)
    requires Fits(c, s, p, x) && Sees(x, y, a) && x.client.Connected?
    ensures ActedOk(c, s, p, ActLock(s, p, x, y, a))
  {
  }

  lemma LoopEnds(c: Config, effects: seq<Migration>, p: nat, l: Loop)
    requires LoopOk(c, effects, p, l) && l.k == LengthOf(c, p)
    ensures ResultOk(c, effects, p, Returned(l.applied, l.skipped))
  {
    IdsSplit(c.migrations, Min(l.k, |l.already|), l.k);
  }

  lemma LoopSkips(c: Config, effects: seq<Migration>, p: nat, l: Loop)
    requires LoopOk(c, effects, p, l) && l.k < LengthOf(c, p) && l.k < |l.already|
    ensures var l' := l.(k := l.k + 1, skipped := l.skipped + [c.migrations[l.k].id]);
      LoopOk(c, effects, p, l') && (UpToDate(effects, l) ==> UpToDate(effects, l'))
  {
    var ms := c.migrations;
    IdsNext(ms, 0, l.k);
    assert ms[0..l.k] == ms[..l.k] && ms[0..l.k + 1] == ms[..l.k + 1];
    assert ms[l.k..l.k] == [] && ms[l.k + 1..l.k + 1] == [];
  }

  lemma MigrationOk(c: Config, s: Shared, p: nat, x: Session, y: Session, a: Answer, l: Loop)
    requires Fits(c, s, p, x) && Sees(x, y, a) && x.client == AtMigration(l)
    ensures ActedOk(c, s, p, ActMigration(c, s, p, x, y, a, l))
  {
    if l.k >= LengthOf(c, p) {
      LoopEnds(c, s.effects, p, l);
    } else {
      LoadedIs(c.migrations, |l.already|, l.k);
      if l.k < |l.already| {
        LoopSkips(c, s.effects, p, l);
      } else {
        BeginOk(c, s, p, x, y, a, l);
      }
    }
  }

  lemma BeginOk(c: Config, s: Shared, p: nat, x: Session, y: Session, a: Answer, l: Loop)
    requires Fits(c, s, p, x) && Sees(x, y, a) && x.client == AtMigration(l)
    requires |l.already| <= l.k < LengthOf(c, p)
    ensures ActedOk(c, s, p, Acted(s, y.(client := if a.Received? then Began(l) else Unlocking(Threw),
                                         tx := if Executed(a) then Some(Tx([], [])) else y.tx)))
  {
  }

  lemma BodyOk(c: Config, s: Shared, p: nat, x: Session, y: Session, a: Answer, l: Loop)
    requires Fits(c, s, p, x) && Sees(x, y, a) && x.client == Began(l)
    ensures ActedOk(c, s, p, ActBody(c, s, p, y, a, l))
  {
    assert [] + [c.migrations[l.k]] == [c.migrations[l.k]];
  }

  lemma InsertOk(c: Config, s: Shared, p: nat, x: Session, y: Session, a: Answer, l: Loop)
    requires Fits(c, s, p, x) && Sees(x, y, a) && x.client == BodyDone(l)
    ensures ActedOk(c, s, p, ActInsert(c, s, p, y, a, l))
  {
    assert [] + [RecordOf(c.migrations[l.k])] == [RecordOf(c.migrations[l.k])];
  }

  lemma CommitKeepsClean(c: Config, s: Shared)
    requires Clean(c, s) && |s.effects| < |c.migrations|
    requires TableExists(s.effects + [c.migrations[|s.effects|]])
    ensures var m := c.migrations[|s.effects|];
      Clean(c, s.(effects := s.effects + [m], records := s.records + [RecordOf(m)]))
  {
    PrefixSnoc(c.migrations, |s.effects|);
    RecordsSnoc(s.effects, c.migrations[|s.effects|]);
  }

  lemma CommitLoop(c: Config, effects: seq<Migration>, p: nat, l: Loop)
    requires LoopOk(c, effects, p, l)
    requires |l.already| <= l.k == |effects| < LengthOf(c, p)
    ensures var m := c.migrations[l.k];
      var l' := l.(k := l.k + 1, applied := l.applied + [m.id]);
      LoopOk(c, effects + [m], p, l') && UpToDate(effects + [m], l')
  {
    IdsNext(c.migrations, |l.already|, l.k);
  }

  lemma CommitExecuted(c: Config, s: Shared, p: nat, y: Session, l: Loop, client: Client)
    requires Clean(c, s) && LoopOk(c, s.effects, p, l) && s.lock == Some(p) && !y.ended
    requires |l.already| <= l.k == |s.effects| < LengthOf(c, p)
    requires TableExists(s.effects + [c.migrations[l.k]])
    requires client.RollingBack? || client == AtMigration(l.(k := l.k + 1, applied := l.applied + [c.migrations[l.k].id]))
    ensures var m := c.migrations[l.k];
      ActedOk(c, s, p, Acted(s.(effects := s.effects + [m], records := s.records + [RecordOf(m)]), y.(client := client, tx := None)))
  {
    CommitKeepsClean(c, s);
    CommitLoop(c, s.effects, p, l);
  }

  lemma CommitFails(c: Config, s: Shared, p: nat, x: Session, y: Session, a: Answer, l: Loop)
    requires Fits(c, s, p, x) && Sees(x, y, a) && x.client == RowDone(l) && !Executed(a)
    ensures ActedOk(c, s, p, Acted(s, y.(client := RollingBack, tx := if a.Rejected? then None else y.tx)))
  {
  }

  /** A live session about to commit stands at the end of what is committed. */
  lemma CommitReady(c: Config, s: Shared, p: nat, x: Session, l: Loop)
    requires Fits(c, s, p, x) && x.client == RowDone(l) && !x.ended
    ensures LoopOk(c, s.effects, p, l) && s.lock == Some(p)
    ensures |l.already| <= l.k == |s.effects| < LengthOf(c, p)
    ensures TableExists(s.effects + [c.migrations[l.k]])
    ensures x.tx == Some(Tx([c.migrations[l.k]], [RecordOf(c.migrations[l.k])]))
  {
  }

  lemma CommitOk(c: Config, s: Shared, p: nat, x: Session, y: Session, a: Answer, l: Loop)
    requires Fits(c, s, p, x) && Sees(x, y, a) && x.client == RowDone(l)
    ensures ActedOk(c, s, p, ActCommit(c, s, p, y, a, l))
  {
    if Executed(a) {
      CommitReady(c, s, p, x, l);
      CommitExecuted(c, s, p, y, l,
        if a.Received? then AtMigration(l.(k := l.k + 1, applied := l.applied + [c.migrations[l.k].id])) else RollingBack);
    } else {
      CommitFails(c, s, p, x, y, a, l);
    }
  }

  lemma ConnectOk(c: Config, s: Shared, p: nat, x: Session, y: Session, a: Answer)
    requires Fits(c, s, p, x) && Sees(x, y, a) && x.client.Idle?
    ensures ActedOk(c, s, p, ActConnect(c, s, p, x, y, a))
  {
    assert c.migrations[..0] == [];
  }

  lemma LookOk(c: Config, s: Shared, p: nat, x: Session, y: Session, a: Answer)
    requires Fits(c, s, p, x) && Sees(x, y, a) && x.client.Locked?
    ensures ActedOk(c, s, p, ActLook(s, y, a))
  {
  }

  lemma RollBackOk(c: Config, s: Shared, p: nat, x: Session, y: Session, a: Answer)
    requires Fits(c, s, p, x) && Sees(x, y, a) && x.client.RollingBack?
    ensures ActedOk(c, s, p, ActRollBack(s, y, a))
  {
  }

  lemma LoopStarts(c: Config, s: Shared, p: nat)
    requires Clean(c, s) && LengthOf(c, p) <= |c.migrations|
    ensures LoopOk(c, s.effects, p, Loop(0, s.records, [], [])) && UpToDate(s.effects, Loop(0, s.records, [], []))
    ensures LoopOk(c, s.effects, p, Loop(0, [], [], []))
    ensures s.records == [] ==> s.effects == []
  {
    RecordsAt(s.effects);
    assert c.migrations[..0] == [] && c.migrations[0..0] == [];
    assert s.effects[..|s.effects|] == s.effects;
  }

  lemma LoadOk(c: Config, s: Shared, p: nat, x: Session, y: Session, a: Answer)
    requires Fits(c, s, p, x) && Sees(x, y, a) && x.client.TableSeen?
    ensures ActedOk(c, s, p, ActLoad(s, x, y, a, x.client.exists_))
  {
    LoopStarts(c, s, p);
  }

  lemma UnlockOk(c: Config, s: Shared, p: nat, x: Session, y: Session, a: Answer)
    requires Fits(c, s, p, x) && Sees(x, y, a) && x.client.Unlocking?
    ensures ActedOk(c, s, p, ActUnlock(s, p, y, a, x.client.result))
  {
  }

  lemma ActOk(c: Config, s: Shared, p: nat, x: Session, answer: Answer)
    requires Fits(c, s, p, x)
    ensures ActedOk(c, s, p, Act(c, s, p, x, answer))
  {
    var a := if x.broken || x.ended then NotSent else answer;
    var y := x.(broken := x.broken || a.Lost? || a.NotSent?);
    match x.client
    case Idle => ConnectOk(c, s, p, x, y, a);
    case Connected => LockOk(c, s, p, x, y, a);
    case TableSeen(found) => LoadOk(c, s, p, x, y, a);
    case AtMigration(l) => MigrationOk(c, s, p, x, y, a, l);
    case Began(l) => BodyOk(c, s, p, x, y, a, l);
    case BodyDone(l) => InsertOk(c, s, p, x, y, a, l);
    case RowDone(l) => CommitOk(c, s, p, x, y, a, l);
    case Unlocking(r) => UnlockOk(c, s, p, x, y, a);
    case Locked => LookOk(c, s, p, x, y, a);
    case RollingBack => RollBackOk(c, s, p, x, y, a);
    case Finished(r) =>
  }

  lemma EndOk(c: Config, s: Shared, p: nat, x: Session)
    requires Fits(c, s, p, x)
    ensures ActedOk(c, s, p, End(s, p, x))
  {
  }
}
