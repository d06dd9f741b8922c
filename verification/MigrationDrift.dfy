/**
 * The drift guard of the migration runner, for calls that carry any lists whatsoever: what a
 * returning call certifies, and how an edited migration is refused.
 */
module MigrationDrift {
  import opened Prelude
  import opened Migrations
  import opened MigrationSteps

  // ---------------------------------------------------------------- what every step keeps

  /** Effects and records go together, no id is recorded twice, and nothing is recorded without the table. */
  ghost predicate Sound(s: Shared) {
    && s.records == RecordsOf(s.effects)
    && DistinctIds(s.effects)
    && (s.records != [] ==> exists m :: m in s.effects && m.createsTable)
  }

  /** The first `k` migrations are recorded, each under its own checksum. */
  ghost predicate Agreed(records: seq<Recorded>, ms: seq<Migration>, k: nat) {
    k <= |ms| && forall j | 0 <= j < k :: Recorded(ms[j].id, ms[j].checksum) in records
  }

  /** The migration at `k` is recorded under another checksum. */
  ghost predicate Edited(records: seq<Recorded>, ms: seq<Migration>, k: nat) {
    k < |ms| && exists r | r in records :: r.id == ms[k].id && r.checksum != ms[k].checksum
  }

  ghost predicate LoopSound(records: seq<Recorded>, ms: seq<Migration>, l: Loop) {
    Agreed(records, ms, l.k) && l.already <= records
  }

  /** A return certifies the whole list; drift names a migration that was edited, behind ones that agree. */
  ghost predicate ResultSound(records: seq<Recorded>, ms: seq<Migration>, r: Result) {
    match r
    case Returned(_, _) => Agreed(records, ms, |ms|)
    case Drifted(id) => exists k :: 0 <= k < |ms| && ms[k].id == id && Agreed(records, ms, k) && Edited(records, ms, k)
    case Threw => true
  }

  ghost predicate ApplyingSound(s: Shared, ms: seq<Migration>, x: Session, l: Loop, tx: Tx) {
    LoopSound(s.records, ms, l) && l.k < |ms| && (!x.ended ==> x.tx == Some(tx))
  }

  /** What is true of a session whose call has the list `ms`. */
  ghost predicate SessionSound(s: Shared, held: bool, ms: seq<Migration>, x: Session) {
    && (x.ended ==> x.tx.None? && !held)
    && (x.tx.Some? ==> held)
    && (held ==> !x.client.Idle? && !x.client.Connected?)
    && match x.client
       case Idle => x.tx.None?
       case Connected => x.tx.None?
       case Locked => x.tx.None? && (x.ended || held)
       case TableSeen(found) => x.tx.None? && (x.ended || (held && found == TableExists(s.effects)))
       case AtMigration(l) => x.tx.None? && LoopSound(s.records, ms, l) && (x.ended || held)
       case Began(l) => ApplyingSound(s, ms, x, l, Tx([], [])) && (x.ended || held)
       case BodyDone(l) => l.k < |ms| && ApplyingSound(s, ms, x, l, Tx([ms[l.k]], [])) && (x.ended || held)
       case RowDone(l) =>
         && l.k < |ms| && ApplyingSound(s, ms, x, l, Tx([ms[l.k]], [RecordOf(ms[l.k])]))
         && (x.ended || (held && TableExists(s.effects + [ms[l.k]]) && !IsRecorded(s.records, ms[l.k].id)))
       case RollingBack => x.ended || held
       case Unlocking(r) => ResultSound(s.records, ms, r) && (x.tx.Some? ==> x.broken)
       case Finished(r) => ResultSound(s.records, ms, r) && (x.tx.Some? ==> x.broken)
  }

  lemma AgreedGrows(records: seq<Recorded>, records': seq<Recorded>, ms: seq<Migration>, k: nat)
    requires records <= records' && Agreed(records, ms, k)
    ensures Agreed(records', ms, k)
  {
    forall r | r in records
      ensures r in records'
    {
      var i :| 0 <= i < |records| && records[i] == r;
      assert records'[i] == r;
    }
  }

  lemma EditedGrows(records: seq<Recorded>, records': seq<Recorded>, ms: seq<Migration>, k: nat)
    requires records <= records' && Edited(records, ms, k)
    ensures Edited(records', ms, k)
  {
    var r :| r in records && r.id == ms[k].id && r.checksum != ms[k].checksum;
    var i :| 0 <= i < |records| && records[i] == r;
    assert records'[i] == r && r in records';
  }

  lemma ResultGrows(records: seq<Recorded>, records': seq<Recorded>, ms: seq<Migration>, r: Result)
    requires records <= records' && ResultSound(records, ms, r)
    ensures ResultSound(records', ms, r)
  {
    match r
    case Returned(_, _) => AgreedGrows(records, records', ms, |ms|);
    case Drifted(id) =>
      var k :| 0 <= k < |ms| && ms[k].id == id && Agreed(records, ms, k) && Edited(records, ms, k);
      AgreedGrows(records, records', ms, k);
      EditedGrows(records, records', ms, k);
    case Threw =>
  }

  /** Nothing that is known of a session without the lock is lost when others commit. */
  lemma OthersKeep(s: Shared, s': Shared, ms: seq<Migration>, x: Session)
    requires SessionSound(s, false, ms, x) && s.records <= s'.records
    ensures SessionSound(s', false, ms, x)
  {
    match x.client
    case AtMigration(l) => AgreedGrows(s.records, s'.records, ms, l.k);
    case Began(l) => AgreedGrows(s.records, s'.records, ms, l.k);
    case BodyDone(l) => AgreedGrows(s.records, s'.records, ms, l.k);
    case RowDone(l) => AgreedGrows(s.records, s'.records, ms, l.k);
    case Unlocking(r) => ResultGrows(s.records, s'.records, ms, r);
    case Finished(r) => ResultGrows(s.records, s'.records, ms, r);
    case _ =>
  }

  /** A checksum that was loaded is recorded; an id that was not loaded is not among the rows. */
  lemma {:induction false} LoadedIsRecorded(rows: seq<Recorded>, id: string)
    ensures Loaded(rows, id).Some? ==> Recorded(id, Loaded(rows, id).value) in rows
  {
    if rows != [] && Last(rows).id != id {
      LoadedIsRecorded(Front(rows), id);
    } else if rows != [] {
      assert rows[|rows| - 1] == Recorded(id, Last(rows).checksum);
    }
  }

  // ---------------------------------------------------------------- one step of a call

  ghost predicate ActedSound(s: Shared, p: nat, ms: seq<Migration>, r: Acted) {
    && Sound(r.shared)
    && SessionSound(r.shared, r.shared.lock == Some(p), ms, r.session)
    && s.records <= r.shared.records
    && (r.shared.records != s.records ==> s.lock == Some(p))
    && (r.shared.effects != s.effects ==> r.shared.records != s.records)
    && (r.shared.lock == s.lock || (s.lock.None? && r.shared.lock == Some(p)) || (s.lock == Some(p) && r.shared.lock.None?))
  }

  ghost predicate Stands(c: Config, s: Shared, p: nat, x: Session) {
    Sound(s) && SessionSound(s, s.lock == Some(p), c.list(p), x)
  }

  lemma LockSound(c: Config, s: Shared, p: nat, x: Session, y: Session, a: Answer)
    requires Stands(c, s, p, x) && Sees(x, y, a) && x.client.Connected?
    ensures ActedSound(s, p, c.list(p), ActLock(s, p, x, y, a))
  {
  }

  lemma MigrationSound(c: Config, s: Shared, p: nat, x: Session, y: Session, a: Answer, l: Loop)
    requires Stands(c, s, p, x) && Sees(x, y, a) && x.client == AtMigration(l)
    ensures ActedSound(s, p, c.list(p), ActMigration(c, s, p, x, y, a, l))
  {
    var ms := c.list(p);
    if l.k < |ms| {
      LoadedIsRecorded(l.already, ms[l.k].id);
      var found := Loaded(l.already, ms[l.k].id);
      if found.Some? {
        var row := Recorded(ms[l.k].id, found.value);
        var i :| 0 <= i < |l.already| && l.already[i] == row;
        assert s.records[i] == row && row in s.records;
        if found.value == ms[l.k].checksum {
          assert row == RecordOf(ms[l.k]);
          assert Agreed(s.records, ms, l.k + 1);
        } else {
          assert Edited(s.records, ms, l.k);
        }
      }
    }
  }

  lemma BodySound(c: Config, s: Shared, p: nat, x: Session, y: Session, a: Answer, l: Loop)
    requires Stands(c, s, p, x) && Sees(x, y, a) && x.client == Began(l)
    ensures ActedSound(s, p, c.list(p), ActBody(c, s, p, y, a, l))
  {
    assert [] + [c.list(p)[l.k]] == [c.list(p)[l.k]];
  }

  lemma InsertSound(c: Config, s: Shared, p: nat, x: Session, y: Session, a: Answer, l: Loop)
    requires Stands(c, s, p, x) && Sees(x, y, a) && x.client == BodyDone(l)
    ensures ActedSound(s, p, c.list(p), ActInsert(c, s, p, y, a, l))
  {
    assert [] + [RecordOf(c.list(p)[l.k])] == [RecordOf(c.list(p)[l.k])];
    assert s.records + [] == s.records;
  }

  /** One more migration whose id is not recorded. */
  lemma SoundGrows(s: Shared, m: Migration)
    requires Sound(s) && !IsRecorded(s.records, m.id) && TableExists(s.effects + [m])
    ensures Sound(s.(effects := s.effects + [m], records := s.records + [RecordOf(m)]))
  {
    RecordsAt(s.effects);
    RecordsSnoc(s.effects, m);
    forall i | 0 <= i < |s.effects|
      ensures s.effects[i].id != m.id
    {
      assert s.records[i].id == s.effects[i].id;
    }
  }

  lemma AgreedNext(records: seq<Recorded>, ms: seq<Migration>, k: nat)
    requires Agreed(records, ms, k) && k < |ms|
    ensures Agreed(records + [RecordOf(ms[k])], ms, k + 1)
  {
    var longer := records + [RecordOf(ms[k])];
    AgreedGrows(records, longer, ms, k);
    assert longer[|records|] == RecordOf(ms[k]);
  }

  lemma CommitExecutedSound(s: Shared, p: nat, ms: seq<Migration>, y: Session, l: Loop, client: Client)
    requires Sound(s) && s.lock == Some(p) && !y.ended && l.k < |ms| && LoopSound(s.records, ms, l)
    requires !IsRecorded(s.records, ms[l.k].id) && TableExists(s.effects + [ms[l.k]])
    requires client.RollingBack? || client == AtMigration(l.(k := l.k + 1, applied := l.applied + [ms[l.k].id]))
    ensures ActedSound(s, p, ms, Acted(s.(effects := s.effects + [ms[l.k]], records := s.records + [RecordOf(ms[l.k])]),
                                       y.(client := client, tx := None)))
  {
    SoundGrows(s, ms[l.k]);
    AgreedNext(s.records, ms, l.k);
  }

  lemma CommitFailedSound(c: Config, s: Shared, p: nat, x: Session, y: Session, a: Answer, l: Loop)
    requires Stands(c, s, p, x) && Sees(x, y, a) && x.client == RowDone(l) && !Executed(a)
    ensures ActedSound(s, p, c.list(p), Acted(s, y.(client := RollingBack, tx := if a.Rejected? then None else y.tx)))
  {
  }

  lemma CommitSound(c: Config, s: Shared, p: nat, x: Session, y: Session, a: Answer, l: Loop)
    requires Stands(c, s, p, x) && Sees(x, y, a) && x.client == RowDone(l)
    ensures ActedSound(s, p, c.list(p), ActCommit(c, s, p, y, a, l))
  {
    if Executed(a) {
      assert !x.ended && x.tx == Some(Tx([c.list(p)[l.k]], [RecordOf(c.list(p)[l.k])]));
      CommitExecutedSound(s, p, c.list(p), y, l,
        if a.Received? then AtMigration(l.(k := l.k + 1, applied := l.applied + [c.list(p)[l.k].id])) else RollingBack);
    } else {
      CommitFailedSound(c, s, p, x, y, a, l);
    }
  }

  lemma LoadSound(c: Config, s: Shared, p: nat, x: Session, y: Session, a: Answer)
    requires Stands(c, s, p, x) && Sees(x, y, a) && x.client.TableSeen?
    ensures ActedSound(s, p, c.list(p), ActLoad(s, x, y, a, x.client.exists_))
  {
  }

  lemma ConnectSound(c: Config, s: Shared, p: nat, x: Session, y: Session, a: Answer)
    requires Stands(c, s, p, x) && Sees(x, y, a) && x.client.Idle?
    ensures ActedSound(s, p, c.list(p), ActConnect(c, s, p, x, y, a))
  {
  }

  lemma LookSound(c: Config, s: Shared, p: nat, x: Session, y: Session, a: Answer)
    requires Stands(c, s, p, x) && Sees(x, y, a) && x.client.Locked?
    ensures ActedSound(s, p, c.list(p), ActLook(s, y, a))
  {
  }

  lemma RollBackSound(c: Config, s: Shared, p: nat, x: Session, y: Session, a: Answer)
    requires Stands(c, s, p, x) && Sees(x, y, a) && x.client.RollingBack?
    ensures ActedSound(s, p, c.list(p), ActRollBack(s, y, a))
  {
  }

  lemma UnlockSound(c: Config, s: Shared, p: nat, x: Session, y: Session, a: Answer)
    requires Stands(c, s, p, x) && Sees(x, y, a) && x.client.Unlocking?
    ensures ActedSound(s, p, c.list(p), ActUnlock(s, p, y, a, x.client.result))
  {
  }

  lemma ActSound(c: Config, s: Shared, p: nat, x: Session, answer: Answer)
    requires Stands(c, s, p, x)
    ensures ActedSound(s, p, c.list(p), Act(c, s, p, x, answer))
  {
    var a := if x.broken || x.ended then NotSent else answer;
    var y := x.(broken := x.broken || a.Lost? || a.NotSent?);
    match x.client
    case Connected => LockSound(c, s, p, x, y, a);
    case TableSeen(_) => LoadSound(c, s, p, x, y, a);
    case AtMigration(l) => MigrationSound(c, s, p, x, y, a, l);
    case Began(l) => BodySound(c, s, p, x, y, a, l);
    case BodyDone(l) => InsertSound(c, s, p, x, y, a, l);
    case RowDone(l) => CommitSound(c, s, p, x, y, a, l);
    case Idle => ConnectSound(c, s, p, x, y, a);
    case Locked => LookSound(c, s, p, x, y, a);
    case RollingBack => RollBackSound(c, s, p, x, y, a);
    case Unlocking(_) => UnlockSound(c, s, p, x, y, a);
    case Finished(_) =>
  }

  lemma EndSound(c: Config, s: Shared, p: nat, x: Session)
    requires Stands(c, s, p, x)
    ensures ActedSound(s, p, c.list(p), End(s, p, x))
  {
  }

  ghost predicate AllSound(c: Config, s: State) {
    Sound(s.shared) && forall p: nat :: SessionSound(s.shared, s.shared.lock == Some(p), c.list(p), SessionOf(s, p))
  }

  lemma StepSound(c: Config, s: State, e: Event)
    requires AllSound(c, s)
    ensures AllSound(c, Step(c, s, e))
    ensures s.shared.records <= Step(c, s, e).shared.records
  {
    var x := SessionOf(s, e.p);
    var s' := Step(c, s, e);
    if e.Next? {
      ActSound(c, s.shared, e.p, x, e.answer);
    } else {
      EndSound(c, s.shared, e.p, x);
    }
    forall q: nat
      ensures SessionSound(s'.shared, s'.shared.lock == Some(q), c.list(q), SessionOf(s', q))
    {
      if q != e.p {
        assert SessionSound(s.shared, s.shared.lock == Some(q), c.list(q), SessionOf(s, q));
        assert SessionOf(s', q) == SessionOf(s, q);
        if s.shared.lock != Some(q) {
          OthersKeep(s.shared, s'.shared, c.list(q), SessionOf(s, q));
        }
      }
    }
  }

  lemma {:induction false} RunSound(c: Config, s: State, events: seq<Event>)
    requires AllSound(c, s)
    ensures AllSound(c, RunFrom(c, s, events))
    ensures s.shared.records <= RunFrom(c, s, events).shared.records
  {
    if events != [] {
      RunSound(c, s, Front(events));
      StepSound(c, RunFrom(c, s, Front(events)), Last(events));
    }
  }

  lemma EmptySound(c: Config)
    ensures AllSound(c, EMPTY)
  {
  }

  // ---------------------------------------------------------------- main results

  /**
   * Whatever lists the calls carry: each effect is committed exactly when it is recorded, under an
   * id that is not recorded twice; a call that returns has every migration of its list recorded
   * under its own checksum; and one that reports drift has found one that was recorded under
   * another, behind migrations that agree.
   */
  lemma ReturnCertifiesChecksums(c: Config, events: seq<Event>, p: nat)
    ensures var s := Run(c, events);
      && |s.shared.records| == |s.shared.effects|
      && (forall i | 0 <= i < |s.shared.effects| ::
            s.shared.records[i] == Recorded(s.shared.effects[i].id, s.shared.effects[i].checksum))
      && (forall i, j | 0 <= i < j < |s.shared.effects| :: s.shared.effects[i].id != s.shared.effects[j].id)
      && (s.shared.records != [] ==> exists m :: m in s.shared.effects && m.createsTable)
      && (SessionOf(s, p).client.Finished? ==> ResultSound(s.shared.records, c.list(p), SessionOf(s, p).client.result))
  {
    EmptySound(c);
    RunSound(c, EMPTY, events);
    var s := Run(c, events);
    RecordsAt(s.shared.effects);
    assert SessionSound(s.shared, s.shared.lock == Some(p), c.list(p), SessionOf(s, p));
  }

  lemma SameIdSameRecord(s: Shared, a: Recorded, b: Recorded)
    requires Sound(s) && a in s.records && b in s.records && a.id == b.id
    ensures a == b
  {
    RecordsAt(s.effects);
    var i :| 0 <= i < |s.records| && s.records[i] == a;
    var j :| 0 <= j < |s.records| && s.records[j] == b;
    assert s.effects[i].id == s.effects[j].id;
  }

  /** An edited migration does not agree. */
  lemma EditedDisagrees(s: Shared, ms: seq<Migration>, k: nat, n: nat)
    requires Sound(s) && Edited(s.records, ms, k) && Agreed(s.records, ms, n)
    ensures n <= k
    ensures IsRecorded(s.records, ms[k].id)
  {
    var r :| r in s.records && r.id == ms[k].id && r.checksum != ms[k].checksum;
    var i :| 0 <= i < |s.records| && s.records[i] == r;
    if k < n {
      SameIdSameRecord(s, r, RecordOf(ms[k]));
    }
  }

  /**
   * An edited migration is refused: once one of a call's list is recorded under another checksum,
   * the call does not return, and no step of it commits that migration or one behind it.
   */
  lemma EditedIsRefused(c: Config, before: seq<Event>, after: seq<Event>, p: nat, k: nat, answer: Answer)
    requires Edited(Run(c, before).shared.records, c.list(p), k)
    ensures var s := RunFrom(c, Run(c, before), after);
      var s' := Step(c, s, Next(p, answer));
      && !(SessionOf(s, p).client.Finished? && SessionOf(s, p).client.result.Returned?)
      && (s'.shared.effects == s.shared.effects
          || exists j :: 0 <= j < k && s'.shared.effects == s.shared.effects + [c.list(p)[j]])
  {
    EmptySound(c);
    RunSound(c, EMPTY, before);
    RunSound(c, Run(c, before), after);
    var s := RunFrom(c, Run(c, before), after);
    EditedGrows(Run(c, before).shared.records, s.shared.records, c.list(p), k);
    assert SessionSound(s.shared, s.shared.lock == Some(p), c.list(p), SessionOf(s, p));
    RefusedHere(c, s.shared, p, SessionOf(s, p), k, answer);
  }

  lemma RefusedHere(c: Config, s: Shared, p: nat, x: Session, k: nat, answer: Answer)
    requires Stands(c, s, p, x) && Edited(s.records, c.list(p), k)
    ensures !(x.client.Finished? && x.client.result.Returned?)
    ensures var r := Act(c, s, p, x, answer);
      r.shared.effects == s.effects || exists j :: 0 <= j < k && r.shared.effects == s.effects + [c.list(p)[j]]
  {
    var ms := c.list(p);
    match x.client
    case Finished(r) =>
      if r.Returned? {
        EditedDisagrees(s, ms, k, |ms|);
      }
    case RowDone(l) =>
      EditedDisagrees(s, ms, k, l.k);
      if !x.ended {
        assert l.k != k;
      }
    case _ =>
  }
}
