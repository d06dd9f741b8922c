/**
 * One call of the migration runner, statement by statement, while other sessions take any steps
 * before each of its statements. It performs its own steps of the protocol in `Migrations`.
 */
module MigrationRunner {
  import opened Prelude
  import opened Migrations
  import opened MigrationSteps
  import opened MigrationRuns
  import Drift = MigrationDrift

  /** What others do before a statement, and how the statement fares. */
  datatype Turn = Turn(others: seq<Event>, answer: Answer)

  predicate NotBy(events: seq<Event>, p: nat) {
    forall i | 0 <= i < |events| :: events[i].Next? ==> events[i].p != p
  }

  lemma {:induction false} OthersKeepClient(c: Config, s: State, events: seq<Event>, p: nat)
    requires NotBy(events, p)
    ensures SessionOf(RunFrom(c, s, events), p).client == SessionOf(s, p).client
  {
    if events != [] {
      OthersKeepClient(c, s, Front(events), p);
    }
  }

  lemma {:induction false} RunFromAppend(c: Config, s: State, first: seq<Event>, rest: seq<Event>)
    ensures RunFrom(c, s, first + rest) == RunFrom(c, RunFrom(c, s, first), rest)
  {
    if rest == [] {
      assert first + rest == first;
    } else {
      RunFromAppend(c, s, first, Front(rest));
      FrontLast(rest);
      Assoc(first, Front(rest), [Last(rest)]);
      FrontLastSnoc(first + Front(rest), Last(rest));
    }
  }

  lemma RunFromSnoc(c: Config, s: State, events: seq<Event>, e: Event)
    ensures RunFrom(c, s, events + [e]) == Step(c, RunFrom(c, s, events), e)
  {
    FrontLastSnoc(events, e);
  }

  class Connection {
    const config: Config
    const p: nat
    var shared: Shared
    var sessions: map<nat, Session>
    var turns: seq<Turn>
    ghost const start: State
    /** Everything that has happened since `start`. */
    ghost var schedule: seq<Event>

    function Now(): State
      reads this
    {
      State(shared, sessions)
    }

    function Own(): Session
      reads this
    {
      SessionOf(Now(), p)
    }

    /** What has happened is a run of the protocol. */
    ghost predicate InStep()
      reads this
    {
      && Now() == RunFrom(config, start, schedule)
      && forall k | 0 <= k < |turns| :: NotBy(turns[k].others, p)
    }

    constructor (config: Config, p: nat, start: State, turns: seq<Turn>)
      requires forall k | 0 <= k < |turns| :: NotBy(turns[k].others, p)
      ensures InStep() && Now() == start
      ensures this.config == config && this.p == p && this.start == start && this.turns == turns
    {
      this.config, this.p, this.turns, this.start := config, p, turns, start;
      shared, sessions, schedule := start.shared, start.sessions, [];
    }

    /**
     * Others take their steps; then it is known how the next statement fares, and the session
     * that it leaves. When the turns have run out nobody interferes and statements pass.
     */
    method Ask() returns (answer: Answer, a: Answer, y: Session)
      requires InStep()
      modifies this
      ensures InStep() && Own().client == old(Own().client)
      ensures a == if Own().broken || Own().ended then NotSent else answer
      ensures y == Own().(broken := Own().broken || a.Lost? || a.NotSent?)
      ensures if old(turns) == [] then turns == [] && Now() == old(Now()) && answer == Received else turns == old(turns)[1..]
    {
      var turn := if turns == [] then Turn([], Received) else turns[0];
      turns := if turns == [] then [] else turns[1..];
      var s := RunFrom(config, Now(), turn.others);
      OthersKeepClient(config, Now(), turn.others, p);
      RunFromAppend(config, start, schedule, turn.others);
      schedule := schedule + turn.others;
      shared, sessions := s.shared, s.sessions;
      answer := turn.answer;
      a := if Own().broken || Own().ended then NotSent else answer;
      y := Own().(broken := Own().broken || a.Lost? || a.NotSent?);
    }

    /** The statement is done. */
    method Put(shared': Shared, session: Session, ghost answer: Answer)
      requires InStep() && Acted(shared', session) == Act(config, shared, p, Own(), answer)
      modifies this`shared, this`sessions, this`schedule
      ensures InStep() && shared == shared' && Own() == session
    {
      RunFromSnoc(config, start, schedule, Next(p, answer));
      shared, sessions := shared', sessions[p := session];
      schedule := schedule + [Next(p, answer)];
    }

    method Connect() returns (ok: bool)
      requires InStep() && Own().client.Idle? && LengthOf(config, p) > 0
      modifies this
      ensures InStep() && Own().client == if ok then Connected else Finished(Threw)
    {
      var answer, a, y := Ask();
      ok := a.Received?;
      Put(shared, y.(client := if ok then Connected else Finished(Threw)), answer);
    }

    /** Waits for the lock, as long as there are turns. */
    method Lock() returns (waits: bool, ok: bool)
      requires InStep() && Own().client.Connected?
      modifies this
      ensures InStep()
      ensures waits ==> Own().client.Connected? && turns == [] && shared.lock.Some? && shared.lock.value != p
      ensures !waits ==> Own().client == if ok then Locked else Finished(Threw)
    {
      waits, ok := true, false;
      while waits
        invariant InStep()
        invariant waits ==> Own().client.Connected?
        invariant !waits ==> Own().client == if ok then Locked else Finished(Threw)
        decreases waits, |turns|
      {
        var before := turns;
        var answer, a, y := Ask();
        if Executed(a) && shared.lock.Some? && shared.lock.value != p {
          Put(shared, Own(), answer);
          if before == [] {
            return;
          }
        } else {
          waits, ok := false, a.Received?;
          Put(if Executed(a) then shared.(lock := Some(p)) else shared, y.(client := if ok then Locked else Finished(Threw)), answer);
        }
      }
    }

    method SchemaMigrationsTableExists() returns (ok: bool, found: bool)
      requires InStep() && Own().client.Locked?
      modifies this
      ensures InStep() && Own().client == if ok then TableSeen(found) else Unlocking(Threw)
    {
      var answer, a, y := Ask();
      ok, found := a.Received?, TableExists(shared.effects);
      Put(shared, y.(client := if ok then TableSeen(found) else Unlocking(Threw)), answer);
    }

    method LoadAppliedMigrations(found: bool) returns (ok: bool, rows: seq<Recorded>)
      requires InStep() && Own().client == TableSeen(found)
      modifies this
      ensures InStep() && Own().client == if ok then AtMigration(Loop(0, rows, [], [])) else Unlocking(Threw)
    {
      if !found {
        Put(shared, Own().(client := AtMigration(Loop(0, [], [], []))), Received);
        return true, [];
      }
      var answer, a, y := Ask();
      ok, rows := a.Received?, shared.records;
      Put(shared, y.(client := if ok then AtMigration(Loop(0, rows, [], [])) else Unlocking(Threw)), answer);
    }

    method Begin(l: Loop) returns (ok: bool)
      requires InStep() && Own().client == AtMigration(l) && l.k < LengthOf(config, p)
      requires Loaded(l.already, config.list(p)[l.k].id).None?
      modifies this
      ensures InStep() && Own().client == if ok then Began(l) else Unlocking(Threw)
    {
      var answer, a, y := Ask();
      ok := a.Received?;
      Put(shared, y.(client := if ok then Began(l) else Unlocking(Threw), tx := if Executed(a) then Some(Tx([], [])) else y.tx), answer);
    }

    method RunSql(m: Migration, l: Loop) returns (ok: bool)
      requires InStep() && Own().client == Began(l) && l.k < LengthOf(config, p) && m == config.list(p)[l.k]
      modifies this
      ensures InStep() && Own().client == if ok then BodyDone(l) else RollingBack
    {
      var answer, a, y := Ask();
      ok := a.Received? && y.tx.Some?;
      var z := y.(client := if ok then BodyDone(l) else RollingBack);
      if Executed(a) && y.tx.Some? {
        z := z.(tx := Some(y.tx.value.(effects := y.tx.value.effects + [m])));
      }
      Put(shared, z, answer);
    }

    method InsertRow(m: Migration, l: Loop) returns (ok: bool)
      requires InStep() && Own().client == BodyDone(l) && l.k < LengthOf(config, p) && m == config.list(p)[l.k]
      modifies this
      ensures InStep() && Own().client == if ok then RowDone(l) else RollingBack
    {
      var answer, a, y := Ask();
      var fits := y.tx.Some? && TableExists(shared.effects + y.tx.value.effects)
                  && !IsRecorded(shared.records + y.tx.value.records, m.id);
      ok := a.Received? && fits;
      var z := y.(client := if ok then RowDone(l) else RollingBack);
      if Executed(a) && fits {
        z := z.(tx := Some(y.tx.value.(records := y.tx.value.records + [RecordOf(m)])));
      }
      Put(shared, z, answer);
    }

    method Commit(m: Migration, l: Loop) returns (ok: bool)
      requires InStep() && Own().client == RowDone(l) && l.k < LengthOf(config, p) && m == config.list(p)[l.k]
      modifies this
      ensures InStep()
      ensures Own().client == if ok then AtMigration(l.(k := l.k + 1, applied := l.applied + [m.id])) else RollingBack
    {
      var answer, a, y := Ask();
      ok := a.Received? && y.tx.Some?;
      var z := y.(client := if ok then AtMigration(l.(k := l.k + 1, applied := l.applied + [m.id])) else RollingBack);
      if Executed(a) && y.tx.Some? {
        var tx := y.tx.value;
        Put(shared.(effects := shared.effects + tx.effects, records := shared.records + tx.records), z.(tx := None), answer);
      } else {
        Put(shared, z.(tx := if a.Rejected? then None else y.tx), answer);
      }
    }

    /** A rollback that fails is swallowed. */
    method RollBack()
      requires InStep() && Own().client.RollingBack?
      modifies this
      ensures InStep() && Own().client == Unlocking(Threw)
    {
      var answer, a, y := Ask();
      Put(shared, y.(client := Unlocking(Threw), tx := if a.NotSent? then y.tx else None), answer);
    }

    /** An unlock that fails is swallowed. */
    method Unlock(result: Result)
      requires InStep() && Own().client == Unlocking(result)
      modifies this
      ensures InStep() && Own().client == Finished(result)
    {
      var answer, a, y := Ask();
      Put(if Executed(a) && shared.lock == Some(p) then shared.(lock := None) else shared, y.(client := Finished(result)), answer);
    }

    method ApplyMigration(m: Migration, l: Loop) returns (ok: bool)
      requires InStep() && Own().client == AtMigration(l) && l.k < LengthOf(config, p) && m == config.list(p)[l.k]
      requires Loaded(l.already, m.id).None?
      modifies this
      ensures InStep()
      ensures Own().client == if ok then AtMigration(l.(k := l.k + 1, applied := l.applied + [m.id])) else Unlocking(Threw)
    {
      ok := Begin(l);
      if !ok {
        return;
      }
      ok := RunSql(m, l);
      if ok {
        ok := InsertRow(m, l);
      }
      if ok {
        ok := Commit(m, l);
      }
      if !ok {
        RollBack();
      }
    }

    /** The loop over the migrations: skip what is recorded, stop at drift, apply the rest. */
    method ApplyPending(already: seq<Recorded>) returns (result: Result)
      requires InStep() && Own().client == AtMigration(Loop(0, already, [], []))
      modifies this
      ensures InStep() && Own().client == Unlocking(result)
    {
      var applied: seq<string>, skipped: seq<string> := [], [];
      for k := 0 to LengthOf(config, p)
        invariant InStep() && Own().client == AtMigration(Loop(k, already, applied, skipped))
      {
        var m := config.list(p)[k];
        var recorded := Loaded(already, m.id);
        if recorded.Some? && recorded.value != m.checksum {
          Put(shared, Own().(client := Unlocking(Drifted(m.id))), Received);
          return Drifted(m.id);
        }
        if recorded.Some? {
          skipped := skipped + [m.id];
          Put(shared, Own().(client := AtMigration(Loop(k + 1, already, applied, skipped))), Received);
          continue;
        }
        var ok := ApplyMigration(m, Loop(k, already, applied, skipped));
        if !ok {
          return Threw;
        }
        applied := applied + [m.id];
      }
      result := Returned(applied, skipped);
      Put(shared, Own().(client := Unlocking(result)), Received);
    }

    /** What is done once the lock is held. */
    method UnderLock() returns (result: Result)
      requires InStep() && Own().client.Locked?
      modifies this
      ensures InStep() && Own().client == Unlocking(result)
    {
      var ok, found := SchemaMigrationsTableExists();
      if !ok {
        return Threw;
      }
      var loaded, already := LoadAppliedMigrations(found);
      if !loaded {
        return Threw;
      }
      result := ApplyPending(already);
    }

    /**
     * The call takes its steps of the protocol until it is finished, or until the turns run out
     * while another session holds the lock. So a result means what it means in every run: drift
     * and checksums whatever the lists are, and a committed list when all calls share one.
     */
    method RunMigrations() returns (result: Option<Result>)
      requires InStep() && Own().client.Idle?
      modifies this
      ensures InStep()
      ensures match result
        case Some(r) => Own().client == Finished(r)
        case None => Own().client.Connected? && shared.lock.Some? && shared.lock.value != p
      ensures result.Some? && Drift.AllSound(config, start) ==>
        Drift.Sound(shared) && Drift.ResultSound(shared.records, config.list(p), result.value)
      ensures result.Some? && Uniform(config) && Good(config, start) ==>
        Good(config, Now()) && ResultOk(config, shared.effects, p, result.value)
    {
      result := Call();
      if Drift.AllSound(config, start) {
        Drift.RunSound(config, start, schedule);
        assert Drift.SessionSound(shared, shared.lock == Some(p), config.list(p), Own());
      }
      if Uniform(config) && Good(config, start) {
        GoodRun(config, start, schedule);
        assert SessionOk(config, shared.effects, shared.lock == Some(p), p, Own());
      }
    }

    method Call() returns (result: Option<Result>)
      requires InStep() && Own().client.Idle?
      modifies this
      ensures InStep()
      ensures match result
        case Some(r) => Own().client == Finished(r)
        case None => Own().client.Connected? && shared.lock.Some? && shared.lock.value != p
    {
      if LengthOf(config, p) == 0 {
        Put(shared, Own().(client := Finished(Returned([], []))), Received);
        return Some(Returned([], []));
      }
      var ok := Connect();
      if !ok {
        return Some(Threw);
      }
      var waits, locked := Lock();
      if waits {
        return None;
      }
      if !locked {
        return Some(Threw);
      }
      var r := UnderLock();
      Unlock(r);
      return Some(r);
    }
  }
}
