/**
 * The migration runner (packages/adapters/postgres/src/migrations/runner.ts) against a server:
 * any number of calls, each on its own session, whose statements may be rejected, may lose their
 * answer, or may not arrive; sessions may end at any moment. A call that takes no further step
 * has crashed. Each call has its own list of migrations on disk.
 */
module Migrations {
  import opened Prelude

  /** `createsTable` says that the SQL creates the table of recorded migrations. */
  datatype Migration = Migration(id: string, sql: string, checksum: string, createsTable: bool)

  datatype Recorded = Recorded(id: string, checksum: string)

  /** The migrations that each call has on disk, and a list that they may all be taken from. */
  datatype Config = Config(migrations: seq<Migration>, list: nat -> seq<Migration>)

  function LengthOf(c: Config, p: nat): nat {
    |c.list(p)|
  }

  /** Every call has the first migrations of one list, as releases of different age do. */
  ghost predicate Uniform(c: Config) {
    DistinctIds(c.migrations) && forall p: nat :: c.list(p) <= c.migrations
  }

  predicate DistinctIds(ms: seq<Migration>) {
    forall i, j | 0 <= i < j < |ms| :: ms[i].id != ms[j].id
  }

  function RecordOf(m: Migration): Recorded {
    Recorded(m.id, m.checksum)
  }

  function RecordsOf(ms: seq<Migration>): seq<Recorded> {
    if ms == [] then [] else RecordsOf(Front(ms)) + [RecordOf(Last(ms))]
  }

  function IdsOf(ms: seq<Migration>): seq<string> {
    if ms == [] then [] else IdsOf(Front(ms)) + [Last(ms).id]
  }

  lemma {:induction false} RecordsAt(ms: seq<Migration>)
    ensures |RecordsOf(ms)| == |ms|
    ensures forall i | 0 <= i < |ms| :: RecordsOf(ms)[i] == RecordOf(ms[i])
  {
    if ms != [] {
      RecordsAt(Front(ms));
    }
  }

  // ---------------------------------------------------------------- server and sessions

  predicate TableExists(effects: seq<Migration>) {
    exists i :: 0 <= i < |effects| && effects[i].createsTable
  }

  lemma TableExistsMeans(effects: seq<Migration>)
    ensures TableExists(effects) <==> exists m :: m in effects && m.createsTable
  {
    if TableExists(effects) {
      var i :| 0 <= i < |effects| && effects[i].createsTable;
      assert effects[i] in effects;
    }
  }

  predicate IsRecorded(records: seq<Recorded>, id: string) {
    exists i :: 0 <= i < |records| && records[i].id == id
  }

  /** The checksum a call loaded for an id; a later row replaces an earlier one. */
  function Loaded(rows: seq<Recorded>, id: string): Option<string> {
    if rows == [] then None else if Last(rows).id == id then Some(Last(rows).checksum) else Loaded(Front(rows), id)
  }

  /** What an open transaction has done so far. */
  datatype Tx = Tx(effects: seq<Migration>, records: seq<Recorded>)

  datatype Result = Returned(applied: seq<string>, skipped: seq<string>) | Drifted(id: string) | Threw

  /** The loop over the migrations: the position, the rows loaded before it, and the two results. */
  datatype Loop = Loop(k: nat, already: seq<Recorded>, applied: seq<string>, skipped: seq<string>)

  datatype Client =
    | Idle
    | Connected
    | Locked
    | TableSeen(exists_: bool)
    | AtMigration(loop: Loop)
    | Began(loop: Loop)
    | BodyDone(loop: Loop)
    | RowDone(loop: Loop)
    | RollingBack
    | Unlocking(result: Result)
    | Finished(result: Result)

  /** A session: what the client is about to do, whether its connection broke, whether the server ended it. */
  datatype Session = Session(client: Client, broken: bool, ended: bool, tx: Option<Tx>)

  const FRESH := Session(Idle, false, false, None)

  /** What is committed, and who holds the advisory lock. */
  datatype Shared = Shared(effects: seq<Migration>, records: seq<Recorded>, lock: Option<nat>)

  datatype State = State(shared: Shared, sessions: map<nat, Session>)

  const EMPTY := State(Shared([], [], None), map[])

  function SessionOf(s: State, p: nat): Session {
    if p in s.sessions then s.sessions[p] else FRESH
  }

  /**
   * How a statement fares: executed and answered, executed with the answer lost, rejected by the
   * server, or never arrived. A lost answer and a lost statement break the connection.
   */
  datatype Answer = Received | Lost | Rejected | NotSent

  predicate Executed(a: Answer) {
    a.Received? || a.Lost?
  }

  datatype Event = Next(p: nat, answer: Answer) | SessionEnds(p: nat)

  // ---------------------------------------------------------------- one step of a call

  datatype Acted = Acted(shared: Shared, session: Session)

  /** The next statement of a call, or its next local step. */
  function Act(c: Config, s: Shared, p: nat, x: Session, answer: Answer): Acted {
    var a := if x.broken || x.ended then NotSent else answer;
    var y := x.(broken := x.broken || a.Lost? || a.NotSent?);
    match x.client
    case Idle => ActConnect(c, s, p, x, y, a)
    case Connected => ActLock(s, p, x, y, a)
    case Locked => ActLook(s, y, a)
    case TableSeen(found) => ActLoad(s, x, y, a, found)
    case AtMigration(l) => ActMigration(c, s, p, x, y, a, l)
    case Began(l) => ActBody(c, s, p, y, a, l)
    case BodyDone(l) => ActInsert(c, s, p, y, a, l)
    case RowDone(l) => ActCommit(c, s, p, y, a, l)
    case RollingBack => ActRollBack(s, y, a)
    case Unlocking(r) => ActUnlock(s, p, y, a, r)
    case Finished(r) => Acted(s, x)
  }

  /** Nothing to do without migrations. */
  function ActConnect(c: Config, s: Shared, p: nat, x: Session, y: Session, a: Answer): Acted {
    if LengthOf(c, p) == 0 then Acted(s, x.(client := Finished(Returned([], []))))
    else Acted(s, y.(client := if a.Received? then Connected else Finished(Threw)))
  }

  /** Looks for the table of records. */
  function ActLook(s: Shared, y: Session, a: Answer): Acted {
    Acted(s, y.(client := if a.Received? then TableSeen(TableExists(s.effects)) else Unlocking(Threw)))
  }

  function ActRollBack(s: Shared, y: Session, a: Answer): Acted {
    Acted(s, y.(client := Unlocking(Threw), tx := if a.NotSent? then y.tx else None))
  }

  /** Loads the rows, unless there is no table. */
  function ActLoad(s: Shared, x: Session, y: Session, a: Answer, found: bool): Acted {
    if !found then Acted(s, x.(client := AtMigration(Loop(0, [], [], []))))
    else Acted(s, y.(client := if a.Received? then AtMigration(Loop(0, s.records, [], [])) else Unlocking(Threw)))
  }

  function ActUnlock(s: Shared, p: nat, y: Session, a: Answer, r: Result): Acted {
    Acted(if Executed(a) && s.lock == Some(p) then s.(lock := None) else s, y.(client := Finished(r)))
  }

  /** Waits while somebody else holds the lock. */
  function ActLock(s: Shared, p: nat, x: Session, y: Session, a: Answer): Acted {
    if Executed(a) && s.lock.Some? && s.lock.value != p then Acted(s, x)
    else
      Acted(if Executed(a) then s.(lock := Some(p)) else s,
            y.(client := if a.Received? then Locked else Finished(Threw)))
  }

  /** Looks up the next migration: done, skipped, drifted, or to be applied. A BEGIN that fails is not rolled back. */
  function ActMigration(c: Config, s: Shared, p: nat, x: Session, y: Session, a: Answer, l: Loop): Acted {
    if l.k >= LengthOf(c, p) then Acted(s, x.(client := Unlocking(Returned(l.applied, l.skipped))))
    else
      var m := c.list(p)[l.k];
      match Loaded(l.already, m.id)
      case Some(checksum) =>
        if checksum != m.checksum then Acted(s, x.(client := Unlocking(Drifted(m.id))))
        else Acted(s, x.(client := AtMigration(l.(k := l.k + 1, skipped := l.skipped + [m.id]))))
      case None =>
        Acted(s, y.(client := if a.Received? then Began(l) else Unlocking(Threw),
                    tx := if Executed(a) then Some(Tx([], [])) else y.tx))
  }

  function ActBody(c: Config, s: Shared, p: nat, y: Session, a: Answer, l: Loop): Acted {
    if l.k < LengthOf(c, p) && y.tx.Some? && Executed(a) then
      Acted(s, y.(client := if a.Received? then BodyDone(l) else RollingBack,
                  tx := Some(y.tx.value.(effects := y.tx.value.effects + [c.list(p)[l.k]]))))
    else Acted(s, y.(client := RollingBack))
  }

  /** The row needs the table, and an id that is not recorded. */
  function ActInsert(c: Config, s: Shared, p: nat, y: Session, a: Answer, l: Loop): Acted {
    if l.k < LengthOf(c, p) && y.tx.Some? && Executed(a)
       && TableExists(s.effects + y.tx.value.effects)
       && !IsRecorded(s.records + y.tx.value.records, c.list(p)[l.k].id)
    then
      Acted(s, y.(client := if a.Received? then RowDone(l) else RollingBack,
                  tx := Some(y.tx.value.(records := y.tx.value.records + [RecordOf(c.list(p)[l.k])]))))
    else Acted(s, y.(client := RollingBack))
  }

  /** A commit that the server rejects rolls back. */
  function ActCommit(c: Config, s: Shared, p: nat, y: Session, a: Answer, l: Loop): Acted {
    if l.k < LengthOf(c, p) && y.tx.Some? && Executed(a) then
      Acted(s.(effects := s.effects + y.tx.value.effects, records := s.records + y.tx.value.records),
            y.(client := if a.Received?
                         then AtMigration(l.(k := l.k + 1, applied := l.applied + [c.list(p)[l.k].id]))
                         else RollingBack,
               tx := None))
    else Acted(s, y.(client := RollingBack, tx := if a.Rejected? then None else y.tx))
  }

  /** The server forgets the session: its transaction is rolled back and its lock is free. */
  function End(s: Shared, p: nat, x: Session): Acted {
    Acted(if s.lock == Some(p) then s.(lock := None) else s, x.(ended := true, tx := None))
  }

  function Happens(c: Config, s: Shared, x: Session, e: Event): Acted {
    match e
    case Next(p, answer) => Act(c, s, p, x, answer)
    case SessionEnds(p) => End(s, p, x)
  }

  function Step(c: Config, s: State, e: Event): State {
    var r := Happens(c, s.shared, SessionOf(s, e.p), e);
    State(r.shared, s.sessions[e.p := r.session])
  }

  function RunFrom(c: Config, s: State, events: seq<Event>): State {
    if events == [] then s else Step(c, RunFrom(c, s, Front(events)), Last(events))
  }

  /** What any number of calls leave of a fresh database. */
  function Run(c: Config, events: seq<Event>): State {
    RunFrom(c, EMPTY, events)
  }
}
