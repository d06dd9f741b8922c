/**
 * `withTransaction` of the Postgres adapter (packages/adapters/postgres/src/index.ts): what its
 * outcome says about the true state of the server, under every schedule of failures.
 */
module Transactions {
  import opened Prelude
  import opened PgErrors

  // ---------------------------------------------------------------- the server

  datatype Statement = Begin | Write(row: string) | Read | Commit | Rollback

  /**
   * How a statement fares: executed and answered; refused by the server; never arrived; executed
   * with the answer lost. Each failure surfaces as some error. The last two break the connection.
   */
  datatype Answer = Done | Refused(error: Thrown) | Unsent(error: Thrown) | Unanswered(error: Thrown)

  /** What fate has in store for one statement, and the error if the statement cannot be executed anyway. */
  datatype Turn = Turn(answer: Answer, otherwise: Thrown)

  datatype Exchange = Exchange(statement: Statement, answer: Answer)

  datatype Tx = Tx(writes: seq<string>, aborted: bool)

  /** Committed rows, the open transaction of the session, and whether the connection broke. */
  datatype Server = Server(committed: seq<string>, open: Option<Tx>, broken: bool)

  function AnswerOf(s: Server, st: Statement, turn: Turn): Answer {
    if s.broken then Unsent(turn.otherwise)
    else if s.open.Some? && s.open.value.aborted && (st.Write? || st.Read?) then
      if turn.answer.Done? || turn.answer.Unanswered? then Refused(turn.otherwise) else turn.answer
    else if st.Rollback? && turn.answer.Refused? then Done
    else turn.answer
  }

  /** The state of an executed statement. Committing an aborted transaction rolls it back without an error. */
  function Execute(s: Server, st: Statement): Server {
    match st
    case Begin => s.(open := Some(Tx([], false)))
    case Read => s
    case Write(row) => if s.open.Some? then s.(open := Some(s.open.value.(writes := s.open.value.writes + [row]))) else s
    case Commit =>
      Server(if s.open.Some? && !s.open.value.aborted then s.committed + s.open.value.writes else s.committed, None, s.broken)
    case Rollback => s.(open := None)
  }

  /** A refused statement aborts the transaction, a refused commit ends it; a broken connection ends the session. */
  function After(s: Server, st: Statement, a: Answer): Server {
    match a
    case Done => Execute(s, st)
    case Refused(_) =>
      if st.Commit? then s.(open := None)
      else if s.open.Some? then s.(open := Some(s.open.value.(aborted := true))) else s
    case Unsent(_) => Server(s.committed, None, true)
    case Unanswered(_) => Server(Execute(s, st).committed, None, true)
  }

  /** The server, and what is going to happen to the next statements; when that runs out, they pass. */
  datatype Fate = Fate(server: Server, turns: seq<Turn>)

  function NextTurn(turns: seq<Turn>): Turn {
    if turns == [] then Turn(Done, NotAnObject) else turns[0]
  }

  function AnswerTo(f: Fate, st: Statement): Answer {
    AnswerOf(f.server, st, NextTurn(f.turns))
  }

  function Ask(f: Fate, st: Statement): Fate {
    Fate(After(f.server, st, AnswerTo(f, st)), if f.turns == [] then [] else f.turns[1..])
  }

  // ---------------------------------------------------------------- the caller's function

  /**
   * What the caller's function does: statements, with a continuation for success and one for
   * failure, until it returns, throws, or throws on the error of its last failed statement.
   */
  datatype Program =
    | Return(value: string)
    | Throw(error: Thrown)
    | Rethrow
    | Issue(statement: Statement, onDone: Program, onError: Program)

  datatype Ending = Returned(value: string) | Threw(error: Thrown)

  /** Statements of the caller are reads and writes. */
  predicate WellBehaved(p: Program) {
    p.Issue? ==> (p.statement.Write? || p.statement.Read?) && WellBehaved(p.onDone) && WellBehaved(p.onError)
  }

  /** Every statement error is thrown on. */
  predicate Propagates(p: Program) {
    p.Issue? ==> Propagates(p.onDone) && p.onError.Rethrow?
  }

  /** The rows whose writes were acknowledged. */
  function Acknowledged(log: seq<Exchange>): seq<string> {
    if log == [] then []
    else Acknowledged(Front(log)) + if Last(log).statement.Write? && Last(log).answer.Done? then [Last(log).statement.row] else []
  }

  predicate AllDone(log: seq<Exchange>) {
    forall i | 0 <= i < |log| :: log[i].answer.Done?
  }

  /** The server after some statements of a transaction that was opened on `committed`. */
  predicate InTransaction(s: Server, committed: seq<string>, log: seq<Exchange>) {
    && s.committed == committed
    && (AllDone(log) ==> s == Server(committed, Some(Tx(Acknowledged(log), false)), false))
    && (!AllDone(log) ==> s.broken || (s.open.Some? && s.open.value.aborted))
  }

  // ---------------------------------------------------------------- the transaction as a function

  datatype Played = Played(fate: Fate, log: seq<Exchange>, ending: Ending)

  /** The caller's function on a session; `log` holds the statements of the transaction so far. */
  function Play(f: Fate, p: Program, lastError: Thrown, log: seq<Exchange>): Played
    decreases p
  {
    match p
    case Return(value) => Played(f, log, Returned(value))
    case Throw(error) => Played(f, log, Threw(error))
    case Rethrow => Played(f, log, Threw(lastError))
    case Issue(st, onDone, onError) =>
      var a := AnswerTo(f, st);
      if a.Done? then Play(Ask(f, st), onDone, lastError, log + [Exchange(st, a)])
      else Play(Ask(f, st), onError, a.error, log + [Exchange(st, a)])
  }

  datatype Outcome = Resolved(value: string) | Rejected(error: Thrown) | Integrity(cause: Thrown)

  datatype Transacted = Transacted(outcome: Outcome, log: seq<Exchange>, fate: Fate)

  function Transact(f: Fate, fn: Program): Transacted {
    var a := AnswerTo(f, Begin);
    var log := [Exchange(Begin, a)];
    if !a.Done? then Transacted(Rejected(a.error), log, Ask(f, Begin))
    else Conclude(Play(Ask(f, Begin), fn, NotAnObject, log))
  }

  /** COMMIT or ROLLBACK, and what the caller is told. */
  function Conclude(r: Played): Transacted {
    match r.ending
    case Threw(fnError) =>
      var b := AnswerTo(r.fate, Rollback);
      Transacted(if b.Done? then Rejected(fnError) else Integrity(fnError), r.log + [Exchange(Rollback, b)], Ask(r.fate, Rollback))
    case Returned(value) =>
      var b := AnswerTo(r.fate, Commit);
      var outcome := if b.Done? then Resolved(value) else if IsConnectionError(b.error) then Integrity(b.error) else Rejected(b.error);
      Transacted(outcome, r.log + [Exchange(Commit, b)], Ask(r.fate, Commit))
  }

  // ---------------------------------------------------------------- what the caller is told

  /** The function ends so when its statements fare as `log` tells, and `lastError` is the error of the last one that failed before. */
  ghost predicate EndsSo(p: Program, lastError: Thrown, log: seq<Exchange>, ending: Ending)
    decreases p
  {
    match p
    case Return(value) => log == [] && ending == Returned(value)
    case Throw(error) => log == [] && ending == Threw(error)
    case Rethrow => log == [] && ending == Threw(lastError)
    case Issue(st, onDone, onError) =>
      && log != [] && log[0].statement == st
      && match log[0].answer
         case Done => EndsSo(onDone, lastError, log[1..], ending)
         case Refused(e) => EndsSo(onError, e, log[1..], ending)
         case Unsent(e) => EndsSo(onError, e, log[1..], ending)
         case Unanswered(e) => EndsSo(onError, e, log[1..], ending)
  }

  /**
   * The outcome by the end of the function and the last exchange. The function's error goes through
   * unchanged after a rollback and is the cause of an integrity error when the rollback fails; a
   * value is handed on after a commit; an error of the commit goes through unless the connection is lost.
   */
  ghost predicate ToldSo(ending: Ending, last: Exchange, outcome: Outcome) {
    match ending
    case Threw(e) =>
      last.statement == Rollback && outcome == if last.answer == Done then Rejected(e) else Integrity(e)
    case Returned(v) =>
      && last.statement == Commit
      && match last.answer
         case Done => outcome == Resolved(v)
         case Refused(e) => outcome == if LosesConnection(e) then Integrity(e) else Rejected(e)
         case Unsent(e) => outcome == if LosesConnection(e) then Integrity(e) else Rejected(e)
         case Unanswered(e) => outcome == if LosesConnection(e) then Integrity(e) else Rejected(e)
  }

  /** A BEGIN that fails is all there is; otherwise the function's statements follow, and COMMIT or ROLLBACK. */
  ghost predicate Told(fn: Program, log: seq<Exchange>, outcome: Outcome) {
    && log != [] && log[0].statement == Begin
    && if log[0].answer == Done then
         && |log| > 1
         && exists ending :: EndsSo(fn, NotAnObject, log[1..|log| - 1], ending) && ToldSo(ending, Last(log), outcome)
       else |log| == 1 && outcome == Rejected(log[0].answer.error)
  }

  lemma {:induction false} PlayEndsSo(f: Fate, p: Program, lastError: Thrown, log: seq<Exchange>) returns (own: seq<Exchange>)
    ensures var r := Play(f, p, lastError, log);
      r.log == log + own && EndsSo(p, lastError, own, r.ending)
    decreases p
  {
    if p.Issue? {
      var a := AnswerTo(f, p.statement);
      var e := Exchange(p.statement, a);
      var rest;
      if a.Done? {
        rest := PlayEndsSo(Ask(f, p.statement), p.onDone, lastError, log + [e]);
      } else {
        rest := PlayEndsSo(Ask(f, p.statement), p.onError, a.error, log + [e]);
      }
      own := [e] + rest;
      assert own[1..] == rest;
      Assoc(log, [e], rest);
    } else {
      own := [];
      assert log + own == log;
    }
  }

  /** Whatever happens, the caller is told just this. */
  lemma TransactTells(f: Fate, fn: Program)
    ensures Told(fn, Transact(f, fn).log, Transact(f, fn).outcome)
  {
    if AnswerTo(f, Begin).Done? {
      var begun := [Exchange(Begin, Done)];
      var own := PlayEndsSo(Ask(f, Begin), fn, NotAnObject, begun);
      var r := Play(Ask(f, Begin), fn, NotAnObject, begun);
      var t := Conclude(r);
      var last := Last(t.log);
      assert t.log == begun + own + [last];
      assert t.log[1..|t.log| - 1] == own;
      if r.ending.Returned? && !last.answer.Done? {
        ConnectionErrorMeans(last.answer.error);
      }
      assert EndsSo(fn, NotAnObject, own, r.ending) && ToldSo(r.ending, last, t.outcome);
    }
  }

  // ---------------------------------------------------------------- what the outcome says

  lemma AllDoneSnoc(log: seq<Exchange>, e: Exchange)
    ensures AllDone(log + [e]) <==> AllDone(log) && e.answer.Done?
  {
    assert (log + [e])[|log|] == e;
    assert forall i | 0 <= i < |log| :: (log + [e])[i] == log[i];
  }

  lemma OneMore(s: Server, committed: seq<string>, log: seq<Exchange>, e: Exchange)
    requires InTransaction(s, committed, log) && CanFare(s, e.statement, e.answer)
    requires e.statement.Write? || e.statement.Read?
    ensures InTransaction(After(s, e.statement, e.answer), committed, log + [e])
  {
    FrontLastSnoc(log, e);
    AllDoneSnoc(log, e);
    assert Acknowledged(log) + [] == Acknowledged(log);
  }

  /** Which answers are possible: only failure on a broken connection, only refusal in an aborted transaction. */
  predicate CanFare(s: Server, st: Statement, a: Answer) {
    && (s.broken ==> a.Unsent?)
    && (s.open.Some? && s.open.value.aborted && (st.Write? || st.Read?) ==> a.Refused? || a.Unsent?)
    && (st.Rollback? ==> !a.Refused?)
  }

  lemma AnswerCanFare(f: Fate, st: Statement)
    ensures CanFare(f.server, st, AnswerTo(f, st))
  {
  }

  lemma {:induction false} PlayKeeps(f: Fate, p: Program, lastError: Thrown, log: seq<Exchange>, committed: seq<string>)
    requires WellBehaved(p) && InTransaction(f.server, committed, log)
    ensures var r := Play(f, p, lastError, log);
      && InTransaction(r.fate.server, committed, r.log)
      && (Propagates(p) && r.ending.Returned? && AllDone(log) ==> AllDone(r.log))
    decreases p
  {
    if p.Issue? {
      var a := AnswerTo(f, p.statement);
      var e := Exchange(p.statement, a);
      AnswerCanFare(f, p.statement);
      OneMore(f.server, committed, log, e);
      AllDoneSnoc(log, e);
      if a.Done? {
        PlayKeeps(Ask(f, p.statement), p.onDone, lastError, log + [e], committed);
      } else {
        PlayKeeps(Ask(f, p.statement), p.onError, a.error, log + [e], committed);
      }
    }
  }

  /** The commit was executed, but its answer was lost. */
  predicate CommitUnanswered(e: Exchange) {
    e.statement.Commit? && e.answer.Unanswered?
  }

  /**
   * What an outcome says. `log` holds the statements of this call and `committed` the rows
   * before it.
   */
  predicate Truth(outcome: Outcome, log: seq<Exchange>, committed: seq<string>, after: seq<string>) {
    && log != []
    && (outcome.Resolved? ==>
          && Last(log) == Exchange(Commit, Done)
          && after == committed + if AllDone(log) then Acknowledged(log) else [])
    && (outcome.Rejected? ==>
          after == committed + if CommitUnanswered(Last(log)) && AllDone(Front(log)) then Acknowledged(log) else [])
    && (outcome.Rejected? && CommitUnanswered(Last(log)) ==>
          outcome.error == Last(log).answer.error && !IsConnectionError(outcome.error))
    && (outcome.Integrity? ==>
          || (after == committed && Last(log).statement.Rollback? && !Last(log).answer.Done?)
          || (&& Last(log).statement.Commit? && !Last(log).answer.Done? && IsConnectionError(Last(log).answer.error)
              && (after == committed || after == committed + Acknowledged(log))))
  }

  /** What the server holds after the commit, however the commit fared. */
  lemma CommitTells(s: Server, committed: seq<string>, log: seq<Exchange>, e: Exchange)
    requires InTransaction(s, committed, log) && CanFare(s, Commit, e.answer) && e.statement.Commit?
    ensures var after := After(s, Commit, e.answer).committed;
      && (e.answer.Done? ==> after == committed + if AllDone(log + [e]) then Acknowledged(log + [e]) else [])
      && (e.answer.Unanswered? ==> after == committed + if AllDone(log) then Acknowledged(log + [e]) else [])
      && (e.answer.Refused? || e.answer.Unsent? ==> after == committed)
  {
    FrontLastSnoc(log, e);
    AllDoneSnoc(log, e);
    assert Acknowledged(log) + [] == Acknowledged(log) && committed + [] == committed;
  }

  lemma ConcludeTells(r: Played, committed: seq<string>)
    requires InTransaction(r.fate.server, committed, r.log)
    ensures var t := Conclude(r);
      Truth(t.outcome, t.log, committed, t.fate.server.committed)
    ensures r.ending.Returned? && AllDone(r.log) && Conclude(r).outcome.Resolved? ==> AllDone(Conclude(r).log)
  {
    var t := Conclude(r);
    var e := Last(t.log);
    FrontLastSnoc(r.log, e);
    AllDoneSnoc(r.log, e);
    AnswerCanFare(r.fate, e.statement);
    assert committed + [] == committed;
    if r.ending.Returned? {
      CommitTells(r.fate.server, committed, r.log, e);
    }
  }

  /**
   * Under every schedule of connection and statement failures the outcome says of the server
   * what `Truth` says, and a function that throws on every statement error only resolves when
   * every statement was executed.
   */
  lemma OutcomeTellsTruth(f: Fate, fn: Program)
    requires f.server.open.None? && WellBehaved(fn)
    ensures var t := Transact(f, fn);
      && Truth(t.outcome, t.log, f.server.committed, t.fate.server.committed)
      && (Propagates(fn) && t.outcome.Resolved? ==> AllDone(t.log))
  {
    if AnswerTo(f, Begin).Done? {
      BeginOpens(f);
      var log := [Exchange(Begin, Done)];
      PlayKeeps(Ask(f, Begin), fn, NotAnObject, log, f.server.committed);
      ConcludeTells(Play(Ask(f, Begin), fn, NotAnObject, log), f.server.committed);
    } else {
      BeginFails(f, fn);
    }
  }

  lemma BeginOpens(f: Fate)
    requires f.server.open.None? && AnswerTo(f, Begin).Done?
    ensures InTransaction(Ask(f, Begin).server, f.server.committed, [Exchange(Begin, Done)])
    ensures AllDone([Exchange(Begin, Done)])
  {
    BeginAcknowledges();
  }

  lemma BeginAcknowledges()
    ensures Acknowledged([Exchange(Begin, Done)]) == []
  {
    var log := [Exchange(Begin, Done)];
    assert Front(log) == [] && Last(log).statement == Begin;
    assert Acknowledged(Front(log)) == [];
  }

  lemma BeginFails(f: Fate, fn: Program)
    requires f.server.open.None? && !AnswerTo(f, Begin).Done?
    ensures var t := Transact(f, fn);
      Truth(t.outcome, t.log, f.server.committed, t.fate.server.committed) && !t.outcome.Resolved?
  {
    assert f.server.committed + [] == f.server.committed;
  }

  /**
   * When the call resolves, the acknowledged writes are committed exactly when no statement
   * failed (or there were none); when fn throws on every statement error they always are.
   */
  lemma ResolvedMeansCommitted(f: Fate, fn: Program)
    requires f.server.open.None? && WellBehaved(fn)
    requires Transact(f, fn).outcome.Resolved?
    ensures var t := Transact(f, fn);
      && (t.fate.server.committed == f.server.committed + Acknowledged(t.log) <==> AllDone(t.log) || Acknowledged(t.log) == [])
      && (Propagates(fn) ==> t.fate.server.committed == f.server.committed + Acknowledged(t.log))
  {
    OutcomeTellsTruth(f, fn);
    SameLength(f.server.committed, Acknowledged(Transact(f, fn).log));
  }

  /**
   * When the call is rejected with another error than the integrity error, nothing of it is
   * committed, exactly unless an executed commit lost its answer to an error that is not
   * recognised as one of the connection.
   */
  lemma RejectedMeansNothing(f: Fate, fn: Program)
    requires f.server.open.None? && WellBehaved(fn)
    requires Transact(f, fn).outcome.Rejected?
    ensures var t := Transact(f, fn);
      t.fate.server.committed != f.server.committed <==>
        CommitUnanswered(Last(t.log)) && !IsConnectionError(Last(t.log).answer.error) && AllDone(Front(t.log)) && Acknowledged(t.log) != []
  {
    OutcomeTellsTruth(f, fn);
    SameLength(f.server.committed, Acknowledged(Transact(f, fn).log));
  }

  lemma SameLength(a: seq<string>, b: seq<string>)
    ensures a + b == a <==> b == []
  {
    assert b != [] ==> |a + b| > |a|;
    assert a + [] == a;
  }

  const NEW := Server([], None, false)

  /** A function that goes on after a refused read resolves although its acknowledged write is gone. */
  lemma SwallowedErrorLosesWrite()
    ensures var fn := Issue(Write("row"), Issue(Read, Return("ok"), Return("ok")), Rethrow);
      var pass, refuse := Turn(Done, NotAnObject), Turn(Refused(NotAnObject), NotAnObject);
      var t := Transact(Fate(NEW, [pass, pass, refuse, pass]), fn);
      t.outcome == Resolved("ok") && Acknowledged(t.log) == ["row"] && t.fate.server.committed == []
  {
    var rest := Issue(Read, Return("ok"), Return("ok"));
    var fn := Issue(Write("row"), rest, Rethrow);
    var pass, refuse := Turn(Done, NotAnObject), Turn(Refused(NotAnObject), NotAnObject);
    var f0 := Fate(NEW, [pass, pass, refuse, pass]);
    var f1, f2 := Ask(f0, Begin), Ask(Ask(f0, Begin), Write("row"));
    var l1 := [Exchange(Begin, Done)];
    var l2 := l1 + [Exchange(Write("row"), Done)];
    var l3 := l2 + [Exchange(Read, Refused(NotAnObject))];
    assert [] + ["row"] == ["row"];
    assert f1 == Fate(Server([], Some(Tx([], false)), false), [pass, refuse, pass]);
    assert f2 == Fate(Server([], Some(Tx(["row"], false)), false), [refuse, pass]);
    var f3 := Ask(f2, Read);
    assert f3 == Fate(Server([], Some(Tx(["row"], true)), false), [pass]);
    assert Play(f3, Return("ok"), NotAnObject, l3) == Played(f3, l3, Returned("ok"));
    assert Play(f2, rest, NotAnObject, l2) == Play(f3, Return("ok"), NotAnObject, l3);
    assert Play(f1, fn, NotAnObject, l1) == Play(f2, rest, NotAnObject, l2);
    var t := Transact(f0, fn);
    assert t.log == l3 + [Exchange(Commit, Done)];
    BeginAcknowledges();
    FrontLastSnoc(l1, Exchange(Write("row"), Done));
    FrontLastSnoc(l2, Exchange(Read, Refused(NotAnObject)));
    FrontLastSnoc(l3, Exchange(Commit, Done));
    assert Acknowledged(l2) == ["row"];
    assert Acknowledged(l3) == ["row"] + [];
  }

  /** A commit whose answer is lost to a broken pipe is reported as a plain rejection, and yet committed. */
  lemma UnrecognisedLossCommits()
    ensures var fn := Issue(Write("row"), Return("ok"), Rethrow);
      var pass, lost := Turn(Done, NotAnObject), Turn(Unanswered(Thrown(None, Some("EPIPE"), None)), NotAnObject);
      var t := Transact(Fate(NEW, [pass, pass, lost]), fn);
      t.outcome == Rejected(Thrown(None, Some("EPIPE"), None)) && t.fate.server.committed == ["row"]
  {
    var fn := Issue(Write("row"), Return("ok"), Rethrow);
    var error := Thrown(None, Some("EPIPE"), None);
    var pass, lost := Turn(Done, NotAnObject), Turn(Unanswered(error), NotAnObject);
    var f0 := Fate(NEW, [pass, pass, lost]);
    var f1, f2 := Ask(f0, Begin), Ask(Ask(f0, Begin), Write("row"));
    var l1 := [Exchange(Begin, Done)];
    var l2 := l1 + [Exchange(Write("row"), Done)];
    assert [] + ["row"] == ["row"];
    assert f1 == Fate(Server([], Some(Tx([], false)), false), [pass, lost]);
    assert f2 == Fate(Server([], Some(Tx(["row"], false)), false), [lost]);
    assert Play(f2, Return("ok"), NotAnObject, l2) == Played(f2, l2, Returned("ok"));
    assert Play(f1, fn, NotAnObject, l1) == Play(f2, Return("ok"), NotAnObject, l2);
  }

  // ---------------------------------------------------------------- the client

  class Client {
    var server: Server
    var turns: seq<Turn>
    /** Every statement sent on this client, and how it fared. */
    ghost var log: seq<Exchange>
    var releases: nat

    function Now(): Fate
      reads this
    {
      Fate(server, turns)
    }

    constructor (server: Server, turns: seq<Turn>)
      ensures Now() == Fate(server, turns) && log == [] && releases == 0
    {
      this.server, this.turns, log, releases := server, turns, [], 0;
    }

    method Query(st: Statement) returns (error: Option<Thrown>)
      modifies this`server, this`turns, this`log
      ensures Now() == Ask(old(Now()), st)
      ensures var a := AnswerTo(old(Now()), st);
        && log == old(log) + [Exchange(st, a)]
        && error == if a.Done? then None else Some(a.error)
    {
      var answer := AnswerOf(server, st, NextTurn(turns));
      server := After(server, st, answer);
      turns := if turns == [] then [] else turns[1..];
      log := log + [Exchange(st, answer)];
      error := if answer.Done? then None else Some(answer.error);
    }

    method Release()
      modifies this`releases
      ensures releases == old(releases) + 1
    {
      releases := releases + 1;
    }
  }

  /** Runs the caller's function on the client. */
  method RunProgram(client: Client, p: Program, lastError: Thrown) returns (ending: Ending)
    modifies client`server, client`turns, client`log
    ensures Played(client.Now(), client.log, ending) == Play(old(client.Now()), p, lastError, old(client.log))
    decreases p
  {
    match p
    case Return(value) => return Returned(value);
    case Throw(error) => return Threw(error);
    case Rethrow => return Threw(lastError);
    case Issue(statement, onDone, onError) =>
      var error := client.Query(statement);
      if error.None? {
        ending := RunProgram(client, onDone, lastError);
      } else {
        ending := RunProgram(client, onError, error.value);
      }
  }

  /**
   * `connectError` is the error of a pool that has no client to give. A client that was acquired
   * is released once, whatever happens.
   */
  method WithTransaction(client: Client, connectError: Option<Thrown>, fn: Program) returns (outcome: Outcome)
    requires client.log == []
    modifies client
    ensures connectError.Some? ==>
      outcome == Rejected(connectError.value) && client.Now() == old(client.Now()) && client.releases == old(client.releases)
    ensures connectError.None? ==>
      && Transacted(outcome, client.log, client.Now()) == Transact(old(client.Now()), fn)
      && Told(fn, client.log, outcome)
      && client.releases == old(client.releases) + 1
  {
    if connectError.Some? {
      return Rejected(connectError.value);
    }
    TransactTells(client.Now(), fn);
    outcome := InsideTransaction(client, fn);
    client.Release();
  }

  method InsideTransaction(client: Client, fn: Program) returns (outcome: Outcome)
    requires client.log == []
    modifies client`server, client`turns, client`log
    ensures Transacted(outcome, client.log, client.Now()) == Transact(old(client.Now()), fn)
  {
    var error := client.Query(Begin);
    assert client.log == [Exchange(Begin, AnswerTo(old(client.Now()), Begin))];
    if error.Some? {
      return Rejected(error.value);
    }
    var ending := RunProgram(client, fn, NotAnObject);
    match ending
    case Threw(fnError) =>
      var rollbackError := client.Query(Rollback);
      return if rollbackError.Some? then Integrity(fnError) else Rejected(fnError);
    case Returned(value) =>
      var commitError := client.Query(Commit);
      if commitError.Some? {
        return if IsConnectionError(commitError.value) then Integrity(commitError.value) else Rejected(commitError.value);
      }
      return Resolved(value);
  }
}
