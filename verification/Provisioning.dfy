/**
 * Idempotent creation of loop instances (packages/runtime-core: loop-execution.ts and
 * loop-instance-repository.ts) by any number of concurrent calls. Each query is one step.
 */
module Provisioning {
  import opened Prelude

  // ---------------------------------------------------------------- requests

  /** `initialState` is what the definition gives for it, if anything. */
  datatype Request = Request(tenantId: string, loopId: string, idempotencyKey: Option<string>, initialState: Option<string>, payload: string)

  /** The calls: any number of them. */
  datatype Requests = Requests(of: nat -> Request)

  /** The key that counts: trimmed, and none when nothing is left. */
  function KeyOf(r: Request): Option<string> {
    if r.idempotencyKey.Some? && Trim(r.idempotencyKey.value) != "" then Some(Trim(r.idempotencyKey.value)) else None
  }

  predicate HasInitialState(r: Request) {
    r.initialState.Some? && r.initialState.value != ""
  }

  // ---------------------------------------------------------------- the table

  datatype Row = Row(id: string, aggregateId: string, loopId: string, tenantId: string, idempotencyKey: Option<string>,
                     currentState: string, status: string, context: string)

  function FindByKey(rows: seq<Row>, tenantId: string, key: string): Option<Row> {
    if rows == [] then None
    else if rows[0].tenantId == tenantId && rows[0].idempotencyKey == Some(key) then Some(rows[0])
    else FindByKey(rows[1..], tenantId, key)
  }

  datatype Target = OnId | OnAggregateId | OnIdempotencyKey

  predicate Collides(row: Row, other: Row, target: Target) {
    match target
    case OnId => row.id == other.id
    case OnAggregateId => row.aggregateId == other.aggregateId
    case OnIdempotencyKey => row.idempotencyKey.Some? && row.tenantId == other.tenantId && row.idempotencyKey == other.idempotencyKey
  }

  predicate Violates(rows: seq<Row>, row: Row, target: Target) {
    exists i :: 0 <= i < |rows| && Collides(rows[i], row, target)
  }

  /** The unique constraint that an insert violates, if any. */
  function Violation(rows: seq<Row>, row: Row): Option<Target> {
    if Violates(rows, row, OnId) then Some(OnId)
    else if Violates(rows, row, OnAggregateId) then Some(OnAggregateId)
    else if Violates(rows, row, OnIdempotencyKey) then Some(OnIdempotencyKey)
    else None
  }

  lemma ViolationMeans(rows: seq<Row>, row: Row)
    ensures Violates(rows, row, OnId) <==> exists other :: other in rows && other.id == row.id
    ensures Violates(rows, row, OnAggregateId) <==> exists other :: other in rows && other.aggregateId == row.aggregateId
    ensures Violates(rows, row, OnIdempotencyKey) <==>
      exists o :: o in rows && row.idempotencyKey.Some? && o.tenantId == row.tenantId && o.idempotencyKey == row.idempotencyKey
  {
    forall target | Violates(rows, row, target)
      ensures exists other :: other in rows && Collides(other, row, target)
    {
      var i :| 0 <= i < |rows| && Collides(rows[i], row, target);
      assert rows[i] in rows;
    }
  }

  // ---------------------------------------------------------------- the calls

  datatype Outcome = Created(row: Row) | Replayed(row: Row) | InvalidDefinition | Conflict(target: Target) | Threw

  datatype Phase = Idle | Creating | Refetching | Done(outcome: Outcome)

  datatype State = State(rows: seq<Row>, phases: map<nat, Phase>)

  const EMPTY := State([], map[])

  function PhaseOf(s: State, c: nat): Phase {
    if c in s.phases then s.phases[c] else Idle
  }

  datatype Answer = Received | Lost | Refused

  /** The next query of a call, with the ids it draws; or another operation changes the state of a row. */
  datatype Event =
    | Next(call: nat, id: string, aggregateId: string, answer: Answer)
    | Update(id: string, currentState: string, status: string)

  function NewRow(r: Request, id: string, aggregateId: string): Row
    requires HasInitialState(r)
  {
    Row(id, aggregateId, r.loopId, r.tenantId, KeyOf(r), r.initialState.value, "CREATED", r.payload)
  }

  /** After the look-up found nothing, or was not needed. */
  function BeginCreate(r: Request): Phase {
    if HasInitialState(r) then Creating else Done(InvalidDefinition)
  }

  function LookUp(rows: seq<Row>, r: Request, answer: Answer): Phase {
    if KeyOf(r).None? then BeginCreate(r)
    else if !answer.Received? then Done(Threw)
    else
      match FindByKey(rows, r.tenantId, KeyOf(r).value)
      case Some(row) => Done(Replayed(row))
      case None => BeginCreate(r)
  }

  function AfterViolation(target: Target): Phase {
    if target.OnIdempotencyKey? then Refetching else Done(Conflict(target))
  }

  function Refetch(rows: seq<Row>, r: Request, answer: Answer): Phase {
    if !answer.Received? || KeyOf(r).None? then Done(Threw)
    else
      match FindByKey(rows, r.tenantId, KeyOf(r).value)
      case Some(row) => Done(Replayed(row))
      case None => Done(Threw)
  }

  function Updated(rows: seq<Row>, id: string, currentState: string, status: string): (r: seq<Row>)
    ensures |r| == |rows|
    ensures forall i | 0 <= i < |rows| ::
      r[i] == if rows[i].id == id then rows[i].(currentState := currentState, status := status) else rows[i]
  {
    if rows == [] then []
    else
      Updated(Front(rows), id, currentState, status)
      + [if Last(rows).id == id then Last(rows).(currentState := currentState, status := status) else Last(rows)]
  }

  function Step(requests: Requests, s: State, e: Event): State {
    match e
    case Update(id, currentState, status) => s.(rows := Updated(s.rows, id, currentState, status))
    case Next(c, id, aggregateId, answer) =>
      var r := requests.of(c);
      match PhaseOf(s, c)
      case Idle => s.(phases := s.phases[c := LookUp(s.rows, r, answer)])
      case Creating => StepCreate(s, c, r, id, aggregateId, answer)
      case Refetching => s.(phases := s.phases[c := Refetch(s.rows, r, answer)])
      case Done(_) => s
  }

  /** The insert; a lost answer leaves the row in the table. */
  function StepCreate(s: State, c: nat, r: Request, id: string, aggregateId: string, answer: Answer): State {
    if answer.Refused? || !HasInitialState(r) then s.(phases := s.phases[c := Done(Threw)])
    else
      var row := NewRow(r, id, aggregateId);
      match Violation(s.rows, row)
      case Some(target) => s.(phases := s.phases[c := if answer.Lost? then Done(Threw) else AfterViolation(target)])
      case None => State(s.rows + [row], s.phases[c := if answer.Lost? then Done(Threw) else Done(Created(row))])
  }

  function RunFrom(requests: Requests, s: State, events: seq<Event>): State {
    if events == [] then s else Step(requests, RunFrom(requests, s, Front(events)), Last(events))
  }

  function Run(requests: Requests, events: seq<Event>): State {
    RunFrom(requests, EMPTY, events)
  }

  // ---------------------------------------------------------------- what every step keeps

  predicate Distinct(rows: seq<Row>) {
    forall i, j, t: Target | 0 <= i < j < |rows| :: !Collides(rows[i], rows[j], t)
  }

  /** The same row, perhaps in another state. */
  predicate Same(a: Row, b: Row) {
    a == b.(currentState := a.currentState, status := a.status)
  }

  predicate Stored(rows: seq<Row>, row: Row) {
    exists i :: 0 <= i < |rows| && Same(rows[i], row)
  }

  /** A row that a call reports is stored, and is the one of its tenant and key. */
  predicate ReportOk(rows: seq<Row>, r: Request, p: Phase) {
    match p
    case Done(Created(row)) => Stored(rows, row) && row.tenantId == r.tenantId && row.idempotencyKey == KeyOf(r)
                               && HasInitialState(r) && row == NewRow(r, row.id, row.aggregateId)
    case Done(Replayed(row)) => Stored(rows, row) && KeyOf(r).Some? && row.tenantId == r.tenantId && row.idempotencyKey == KeyOf(r)
    case Refetching => KeyOf(r).Some? && FindByKey(rows, r.tenantId, KeyOf(r).value).Some?
    case _ => true
  }

  lemma {:induction false} FindByKeyFinds(rows: seq<Row>, tenantId: string, key: string)
    ensures match FindByKey(rows, tenantId, key)
      case Some(row) => row in rows && row.tenantId == tenantId && row.idempotencyKey == Some(key)
      case None => forall i | 0 <= i < |rows| :: !(rows[i].tenantId == tenantId && rows[i].idempotencyKey == Some(key))
  {
    if rows != [] {
      FindByKeyFinds(rows[1..], tenantId, key);
      assert forall i | 1 <= i < |rows| :: rows[i] == rows[1..][i - 1];
    }
  }

  /** Rows are added or change their state; they are never lost. */
  ghost predicate Grows(rows: seq<Row>, rows': seq<Row>) {
    |rows| <= |rows'| && forall i | 0 <= i < |rows| :: Same(rows[i], rows'[i])
  }

  lemma StepGrows(requests: Requests, s: State, e: Event)
    ensures Grows(s.rows, Step(requests, s, e).rows)
  {
  }

  lemma StepDistinct(requests: Requests, s: State, e: Event)
    requires Distinct(s.rows)
    ensures Distinct(Step(requests, s, e).rows)
  {
    var rows' := Step(requests, s, e).rows;
    if e.Next? && rows' != s.rows {
      var row := NewRow(requests.of(e.call), e.id, e.aggregateId);
      forall i, j, t: Target | 0 <= i < j < |rows'|
        ensures !Collides(rows'[i], rows'[j], t)
      {
        if j == |s.rows| {
          assert !Violates(s.rows, row, t);
        }
      }
    } else if e.Update? {
      forall i, j, t: Target | 0 <= i < j < |rows'|
        ensures !Collides(rows'[i], rows'[j], t)
      {
        assert !Collides(s.rows[i], s.rows[j], t);
      }
    }
  }

  lemma ReportKept(rows: seq<Row>, rows': seq<Row>, r: Request, p: Phase)
    requires ReportOk(rows, r, p) && Grows(rows, rows')
    ensures ReportOk(rows', r, p)
  {
    match p
    case Done(Created(row)) => StoredKept(rows, rows', row);
    case Done(Replayed(row)) => StoredKept(rows, rows', row);
    case Refetching =>
      FindByKeyFinds(rows, r.tenantId, KeyOf(r).value);
      FindByKeyFinds(rows', r.tenantId, KeyOf(r).value);
      var row := FindByKey(rows, r.tenantId, KeyOf(r).value).value;
      var i :| 0 <= i < |rows| && rows[i] == row;
      assert Same(rows[i], rows'[i]);
    case _ =>
  }

  lemma StoredKept(rows: seq<Row>, rows': seq<Row>, row: Row)
    requires Stored(rows, row) && Grows(rows, rows')
    ensures Stored(rows', row)
  {
    var i :| 0 <= i < |rows| && Same(rows[i], row);
    assert Same(rows[i], rows'[i]) && Same(rows'[i], row);
  }

  lemma FoundIsReported(rows: seq<Row>, r: Request)
    requires KeyOf(r).Some? && FindByKey(rows, r.tenantId, KeyOf(r).value).Some?
    ensures ReportOk(rows, r, Done(Replayed(FindByKey(rows, r.tenantId, KeyOf(r).value).value)))
  {
    FindByKeyFinds(rows, r.tenantId, KeyOf(r).value);
    var row := FindByKey(rows, r.tenantId, KeyOf(r).value).value;
    var i :| 0 <= i < |rows| && rows[i] == row;
    assert Same(rows[i], row);
  }

  /** The call's own step. */
  lemma OwnReport(requests: Requests, s: State, e: Event)
    requires e.Next? && ReportOk(s.rows, requests.of(e.call), PhaseOf(s, e.call))
    ensures var s' := Step(requests, s, e); ReportOk(s'.rows, requests.of(e.call), PhaseOf(s', e.call))
  {
    var r := requests.of(e.call);
    if KeyOf(r).Some? && FindByKey(s.rows, r.tenantId, KeyOf(r).value).Some? {
      FoundIsReported(s.rows, r);
    }
    if PhaseOf(s, e.call).Creating? && HasInitialState(r) {
      var row := NewRow(r, e.id, e.aggregateId);
      match Violation(s.rows, row)
      case Some(target) =>
        if target.OnIdempotencyKey? {
          FindByKeyFinds(s.rows, r.tenantId, KeyOf(r).value);
        }
      case None => assert (s.rows + [row])[|s.rows|] == row && Same(row, row);
    }
  }

  ghost predicate Good(requests: Requests, s: State) {
    Distinct(s.rows) && forall c: nat :: ReportOk(s.rows, requests.of(c), PhaseOf(s, c))
  }

  lemma {:induction false} AlwaysGood(requests: Requests, events: seq<Event>)
    ensures Good(requests, Run(requests, events))
  {
    if events != [] {
      var s, e := Run(requests, Front(events)), Last(events);
      AlwaysGood(requests, Front(events));
      StepDistinct(requests, s, e);
      StepGrows(requests, s, e);
      var s' := Step(requests, s, e);
      forall c: nat
        ensures ReportOk(s'.rows, requests.of(c), PhaseOf(s', c))
      {
        if e.Next? && e.call == c {
          OwnReport(requests, s, e);
        } else {
          ReportKept(s.rows, s'.rows, requests.of(c), PhaseOf(s, c));
        }
      }
    }
  }

  // ---------------------------------------------------------------- main results

  /** Both calls are of one tenant and bring a key, the same but for white space around it, and not a blank one. */
  predicate SameKey(a: Request, b: Request) {
    && a.tenantId == b.tenantId
    && a.idempotencyKey.Some? && b.idempotencyKey.Some?
    && Trim(a.idempotencyKey.value) == Trim(b.idempotencyKey.value) && Trim(a.idempotencyKey.value) != ""
  }

  predicate Succeeded(p: Phase) {
    p.Done? && (p.outcome.Created? || p.outcome.Replayed?)
  }

  /** A stored key is not blank and has no white space around it. */
  predicate KeyTrimmed(row: Row) {
    row.idempotencyKey.Some? ==> row.idempotencyKey.value != "" && row.idempotencyKey.value == Trim(row.idempotencyKey.value)
  }

  lemma {:induction false} KeysAreTrimmed(requests: Requests, events: seq<Event>)
    ensures forall row | row in Run(requests, events).rows :: KeyTrimmed(row)
  {
    if events != [] {
      var s, e := Run(requests, Front(events)), Last(events);
      var s' := Step(requests, s, e);
      KeysAreTrimmed(requests, Front(events));
      StepGrows(requests, s, e);
      forall i | 0 <= i < |s'.rows|
        ensures KeyTrimmed(s'.rows[i])
      {
        if i < |s.rows| {
          assert s.rows[i] in s.rows && Same(s.rows[i], s'.rows[i]);
        } else {
          NewKeyTrimmed(requests.of(e.call));
        }
      }
    }
  }

  lemma NewKeyTrimmed(r: Request)
    ensures KeyOf(r).Some? ==> KeyOf(r).value != "" && KeyOf(r).value == Trim(KeyOf(r).value)
  {
    if r.idempotencyKey.Some? {
      TrimAgain(r.idempotencyKey.value);
    }
  }

  /** Under every interleaving there is at most one row for a tenant and a key, whatever white space is around it. */
  lemma OneRowPerKey(requests: Requests, events: seq<Event>, i: nat, j: nat)
    requires var rows := Run(requests, events).rows;
      i < |rows| && j < |rows| && rows[i].idempotencyKey.Some? && rows[j].idempotencyKey.Some?
      && rows[i].tenantId == rows[j].tenantId && Trim(rows[i].idempotencyKey.value) == Trim(rows[j].idempotencyKey.value)
    ensures i == j
  {
    AlwaysGood(requests, events);
    KeysAreTrimmed(requests, events);
    var rows := Run(requests, events).rows;
    assert rows[i] in rows && rows[j] in rows;
    assert Collides(rows[i], rows[j], OnIdempotencyKey) && Collides(rows[j], rows[i], OnIdempotencyKey);
  }

  /** All calls with the same tenant and trimmed key that succeed report the same row. */
  lemma SameRowForAll(requests: Requests, events: seq<Event>, c: nat, d: nat)
    requires SameKey(requests.of(c), requests.of(d))
    requires var s := Run(requests, events); Succeeded(PhaseOf(s, c)) && Succeeded(PhaseOf(s, d))
    ensures var s := Run(requests, events);
      Same(PhaseOf(s, c).outcome.row, PhaseOf(s, d).outcome.row)
  {
    AlwaysGood(requests, events);
    var s := Run(requests, events);
    assert ReportOk(s.rows, requests.of(c), PhaseOf(s, c)) && ReportOk(s.rows, requests.of(d), PhaseOf(s, d));
    var i :| 0 <= i < |s.rows| && Same(s.rows[i], PhaseOf(s, c).outcome.row);
    var j :| 0 <= j < |s.rows| && Same(s.rows[j], PhaseOf(s, d).outcome.row);
    OneRowPerKey(requests, events, i, j);
  }

  /** What an answer says of the request. */
  ghost predicate Means(r: Request, outcome: Outcome) {
    match outcome
    case Created(row) =>
      && row.tenantId == r.tenantId && row.loopId == r.loopId && row.context == r.payload
      && r.initialState == Some(row.currentState) && row.currentState != "" && row.status == "CREATED"
      && (r.idempotencyKey.Some? && Trim(r.idempotencyKey.value) != "" ==> row.idempotencyKey == Some(Trim(r.idempotencyKey.value)))
      && (r.idempotencyKey.None? || Trim(r.idempotencyKey.value) == "" ==> row.idempotencyKey == None)
    case Replayed(row) =>
      && r.idempotencyKey.Some? && Trim(r.idempotencyKey.value) != ""
      && row.tenantId == r.tenantId && row.idempotencyKey == Some(Trim(r.idempotencyKey.value))
    case InvalidDefinition => r.initialState == None || r.initialState == Some("")
    case Conflict(target) => target != OnIdempotencyKey && r.initialState.Some? && r.initialState.value != ""
    case Threw => true
  }

  lemma StepMeans(requests: Requests, s: State, e: Event, c: nat)
    requires PhaseOf(s, c).Done? ==> Means(requests.of(c), PhaseOf(s, c).outcome)
    ensures var p := PhaseOf(Step(requests, s, e), c); p.Done? ==> Means(requests.of(c), p.outcome)
  {
    if e.Next? && e.call == c {
      var r := requests.of(c);
      if KeyOf(r).Some? {
        FindByKeyFinds(s.rows, r.tenantId, KeyOf(r).value);
      }
    }
  }

  /** What a call reports is a row of its tenant, of its trimmed key, and when created of its payload; and the row is stored. */
  lemma {:induction false} AnswerMeans(requests: Requests, events: seq<Event>, c: nat)
    requires PhaseOf(Run(requests, events), c).Done?
    ensures var s := Run(requests, events);
      && Means(requests.of(c), PhaseOf(s, c).outcome)
      && (Succeeded(PhaseOf(s, c)) ==> Stored(s.rows, PhaseOf(s, c).outcome.row))
  {
    AlwaysGood(requests, events);
    assert ReportOk(Run(requests, events).rows, requests.of(c), PhaseOf(Run(requests, events), c));
    AlwaysMeans(requests, events, c);
  }

  lemma {:induction false} AlwaysMeans(requests: Requests, events: seq<Event>, c: nat)
    ensures var p := PhaseOf(Run(requests, events), c); p.Done? ==> Means(requests.of(c), p.outcome)
  {
    if events != [] {
      AlwaysMeans(requests, Front(events), c);
      StepMeans(requests, Run(requests, Front(events)), Last(events), c);
    }
  }

  /** As long as every query is answered no call ends in an error; also the second look-up finds its row. */
  lemma {:induction false} AnsweredCallsSucceed(requests: Requests, events: seq<Event>, c: nat)
    requires forall e | e in events && e.Next? :: e.answer.Received?
    ensures PhaseOf(Run(requests, events), c) != Done(Threw)
    ensures PhaseOf(Run(requests, events), c).Creating? ==> HasInitialState(requests.of(c))
  {
    if events != [] {
      var s, e := Run(requests, Front(events)), Last(events);
      FrontLast(events);
      assert e in events && forall f | f in Front(events) :: f in events;
      AnsweredCallsSucceed(requests, Front(events), c);
      AlwaysGood(requests, Front(events));
      assert ReportOk(s.rows, requests.of(c), PhaseOf(s, c));
    }
  }

  /** A row of the tenant of the call under its trimmed key. */
  ghost predicate HasRowFor(rows: seq<Row>, r: Request) {
    && r.idempotencyKey.Some? && Trim(r.idempotencyKey.value) != ""
    && exists row :: row in rows && row.tenantId == r.tenantId && row.idempotencyKey == Some(Trim(r.idempotencyKey.value))
  }

  lemma RowsStay(rows: seq<Row>, rows': seq<Row>, r: Request)
    requires Grows(rows, rows') && HasRowFor(rows, r)
    ensures HasRowFor(rows', r)
  {
    var row :| row in rows && row.tenantId == r.tenantId && row.idempotencyKey == Some(Trim(r.idempotencyKey.value));
    var i :| 0 <= i < |rows| && rows[i] == row;
    assert Same(rows[i], rows'[i]) && rows'[i] in rows';
  }

  lemma {:induction false} RunGrows(requests: Requests, s: State, events: seq<Event>)
    ensures Grows(s.rows, RunFrom(requests, s, events).rows)
  {
    if events != [] {
      var before := RunFrom(requests, s, Front(events)).rows;
      RunGrows(requests, s, Front(events));
      StepGrows(requests, RunFrom(requests, s, Front(events)), Last(events));
      var after := RunFrom(requests, s, events).rows;
      forall i | 0 <= i < |s.rows|
        ensures Same(s.rows[i], after[i])
      {
        assert Same(s.rows[i], before[i]) && Same(before[i], after[i]);
      }
    }
  }

  /**
   * A call whose key is stored when it looks it up is answered with that row, whatever its
   * definition and payload are, and adds nothing.
   */
  lemma StoredKeyIsReplayed(requests: Requests, s: State, c: nat, id: string, aggregateId: string)
    requires PhaseOf(s, c).Idle? && HasRowFor(s.rows, requests.of(c))
    ensures var s' := Step(requests, s, Next(c, id, aggregateId, Received));
      s'.rows == s.rows && PhaseOf(s', c).Done? && PhaseOf(s', c).outcome.Replayed? && PhaseOf(s', c).outcome.row in s.rows
  {
    var r := requests.of(c);
    var row :| row in s.rows && row.tenantId == r.tenantId && row.idempotencyKey == Some(Trim(r.idempotencyKey.value));
    FindByKeyFinds(s.rows, r.tenantId, Trim(r.idempotencyKey.value));
    var i :| 0 <= i < |s.rows| && s.rows[i] == row;
  }

  /** An insert whose answer is lost has left its row all the same, so that a later call with the key replays it; a refused one has not. */
  lemma LostInsertIsStored(requests: Requests, s: State, c: nat, id: string, aggregateId: string, answer: Answer)
    requires PhaseOf(s, c) == Creating && HasInitialState(requests.of(c))
    ensures var s' := Step(requests, s, Next(c, id, aggregateId, answer));
      && (answer == Refused ==> s'.rows == s.rows)
      && (answer != Refused && (forall row | row in s.rows ::
             && row.id != id && row.aggregateId != aggregateId
             && !(row.tenantId == requests.of(c).tenantId && row.idempotencyKey.Some? && row.idempotencyKey == KeyOf(requests.of(c)))) ==>
           |s'.rows| == |s.rows| + 1 && Means(requests.of(c), Created(Last(s'.rows))))
      && (answer != Received ==> PhaseOf(s', c) == Done(Threw))
  {
    ViolationMeans(s.rows, NewRow(requests.of(c), id, aggregateId));
  }

  /** Which call created the row at each position of the table. */
  ghost predicate CreatorsOk(requests: Requests, s: State, creators: seq<nat>) {
    && |creators| == |s.rows|
    && (forall i, j | 0 <= i < j < |creators| :: creators[i] != creators[j])
    && (forall i | 0 <= i < |creators| :: CreatorOk(PhaseOf(s, creators[i]), s.rows[i]))
    && (forall c: nat :: PhaseOf(s, c).Done? && PhaseOf(s, c).outcome.Created? ==> c in creators)
  }

  predicate CreatorOk(p: Phase, row: Row) {
    match p
    case Done(Created(r)) => Same(r, row)
    case Done(Threw) => true
    case _ => false
  }

  lemma CreatorsStep(requests: Requests, s: State, e: Event, creators: seq<nat>) returns (creators': seq<nat>)
    requires CreatorsOk(requests, s, creators)
    ensures CreatorsOk(requests, Step(requests, s, e), creators')
  {
    var s' := Step(requests, s, e);
    if |s'.rows| > |s.rows| {
      creators' := creators + [e.call];
      assert PhaseOf(s, e.call).Creating?;
      assert e.call !in creators;
    } else {
      creators' := creators;
      StepGrows(requests, s, e);
      forall i | 0 <= i < |creators|
        ensures CreatorOk(PhaseOf(s', creators[i]), s'.rows[i])
      {
        assert CreatorOk(PhaseOf(s, creators[i]), s.rows[i]);
        assert Same(s.rows[i], s'.rows[i]);
      }
    }
  }

  lemma {:induction false} CreatorsOf(requests: Requests, events: seq<Event>) returns (creators: seq<nat>)
    ensures CreatorsOk(requests, Run(requests, events), creators)
  {
    if events == [] {
      return [];
    }
    var before := CreatorsOf(requests, Front(events));
    creators := CreatorsStep(requests, Run(requests, Front(events)), Last(events), before);
  }

  /** At most one call with a tenant and a key reports that it created the row. */
  lemma CreatedOnce(requests: Requests, events: seq<Event>, c: nat, d: nat)
    requires SameKey(requests.of(c), requests.of(d))
    requires var s := Run(requests, events);
      && PhaseOf(s, c).Done? && PhaseOf(s, c).outcome.Created?
      && PhaseOf(s, d).Done? && PhaseOf(s, d).outcome.Created?
    ensures c == d
  {
    var s := Run(requests, events);
    var creators := CreatorsOf(requests, events);
    AlwaysGood(requests, events);
    assert ReportOk(s.rows, requests.of(c), PhaseOf(s, c)) && ReportOk(s.rows, requests.of(d), PhaseOf(s, d));
    var i :| 0 <= i < |creators| && creators[i] == c;
    var j :| 0 <= j < |creators| && creators[j] == d;
    OneRowPerKey(requests, events, i, j);
  }

  /** If no insert lost its answer, some call reports that it created the row that the others replay. */
  lemma SomebodyCreated(requests: Requests, events: seq<Event>, c: nat)
    requires forall e | e in events && e.Next? :: !e.answer.Lost?
    requires Succeeded(PhaseOf(Run(requests, events), c))
    ensures var s := Run(requests, events);
      exists d: nat :: CreatedFor(s, d, PhaseOf(s, c).outcome.row)
  {
    var s := Run(requests, events);
    AlwaysGood(requests, events);
    assert ReportOk(s.rows, requests.of(c), PhaseOf(s, c));
    var i :| 0 <= i < |s.rows| && Same(s.rows[i], PhaseOf(s, c).outcome.row);
    EveryRowReported(requests, events, i);
    var d: nat :| CreatedFor(s, d, s.rows[i]);
    assert CreatedFor(s, d, PhaseOf(s, c).outcome.row);
  }

  predicate CreatedFor(s: State, d: nat, row: Row) {
    PhaseOf(s, d).Done? && PhaseOf(s, d).outcome.Created? && Same(PhaseOf(s, d).outcome.row, row)
  }

  lemma {:induction false} EveryRowReported(requests: Requests, events: seq<Event>, i: nat)
    requires forall e | e in events && e.Next? :: !e.answer.Lost?
    requires i < |Run(requests, events).rows|
    ensures exists d: nat :: CreatedFor(Run(requests, events), d, Run(requests, events).rows[i])
  {
    assert events != [];
    var s, e := Run(requests, Front(events)), Last(events);
    var s' := Run(requests, events);
    FrontLast(events);
    assert e in events && forall f | f in Front(events) :: f in events;
    StepGrows(requests, s, e);
    if i < |s.rows| {
      EveryRowReported(requests, Front(events), i);
      var d: nat :| CreatedFor(s, d, s.rows[i]);
      assert Same(s.rows[i], s'.rows[i]);
      assert CreatedFor(s', d, s'.rows[i]);
    } else {
      assert CreatedFor(s', e.call, s'.rows[i]);
    }
  }

  // ---------------------------------------------------------------- the repository

  /** The repository, with where every call in flight stands. */
  class LoopInstanceRepository {
    var rows: seq<Row>
    var phases: map<nat, Phase>

    function Now(): State
      reads this
    {
      State(rows, phases)
    }

    constructor ()
      ensures Now() == EMPTY
    {
      rows, phases := [], map[];
    }

    method FindByIdempotencyKey(tenantId: string, key: string) returns (row: Option<Row>)
      ensures row == FindByKey(rows, tenantId, key)
      ensures row.Some? ==> row.value in rows && row.value.tenantId == tenantId && row.value.idempotencyKey == Some(key)
      ensures row.None? ==> forall other | other in rows :: !(other.tenantId == tenantId && other.idempotencyKey == Some(key))
    {
      FindByKeyFinds(rows, tenantId, key);
      var i := 0;
      assert rows[0..] == rows;
      while i < |rows|
        invariant 0 <= i <= |rows|
        invariant FindByKey(rows[i..], tenantId, key) == FindByKey(rows, tenantId, key)
      {
        assert rows[i..][1..] == rows[i + 1..];
        if rows[i].tenantId == tenantId && rows[i].idempotencyKey == Some(key) {
          return Some(rows[i]);
        }
        i := i + 1;
      }
      return None;
    }

    method CreateInstance(row: Row) returns (violation: Option<Target>)
      modifies this`rows
      ensures violation == Violation(old(rows), row)
      ensures rows == if violation.None? then old(rows) + [row] else old(rows)
      ensures violation == Some(OnId) <==> exists other :: other in old(rows) && other.id == row.id
      ensures violation == Some(OnAggregateId) <==>
        && (forall other | other in old(rows) :: other.id != row.id)
        && (exists other :: other in old(rows) && other.aggregateId == row.aggregateId)
      ensures violation.None? <==> forall other | other in old(rows) ::
        && other.id != row.id && other.aggregateId != row.aggregateId
        && !(row.idempotencyKey.Some? && other.tenantId == row.tenantId && other.idempotencyKey == row.idempotencyKey)
    {
      ViolationMeans(rows, row);
      violation := Violation(rows, row);
      if violation.None? {
        rows := rows + [row];
      }
    }

    /** Other calls take their steps. */
    method Elsewhere(requests: Requests, events: seq<Event>)
      modifies this
      ensures Now() == RunFrom(requests, old(Now()), events)
    {
      var s := RunFrom(requests, Now(), events);
      rows, phases := s.rows, s.phases;
    }

    /** The look-up before the insert, if there is a key; it answers, lets the insert begin, or ends in an error. */
    method LookUpFirst(requests: Requests, c: nat, id: string, aggregateId: string, others: seq<Event>) returns (existing: Option<Row>)
      requires PhaseOf(Now(), c).Idle? && NotBy(others, c)
      modifies this
      ensures Now() == RunFrom(requests, old(Now()), others + [Next(c, id, aggregateId, Received)])
      ensures PhaseOf(Now(), c) == if existing.Some? then Done(Replayed(existing.value)) else BeginCreate(requests.of(c))
      ensures existing.Some? ==> existing.value in rows && Means(requests.of(c), Replayed(existing.value))
      ensures HasRowFor(old(rows), requests.of(c)) ==> existing.Some?
    {
      Elsewhere(requests, others);
      OthersKeepPhase(requests, old(Now()), others, c);
      FrontLastSnoc(others, Next(c, id, aggregateId, Received));
      existing := None;
      RunGrows(requests, old(Now()), others);
      if HasRowFor(old(rows), requests.of(c)) {
        RowsStay(old(rows), rows, requests.of(c));
      }
      var key := KeyOf(requests.of(c));
      if key.Some? {
        existing := FindByIdempotencyKey(requests.of(c).tenantId, key.value);
      }
      phases := phases[c := if existing.Some? then Done(Replayed(existing.value)) else BeginCreate(requests.of(c))];
    }

    method Insert(requests: Requests, c: nat, id: string, aggregateId: string, others: seq<Event>) returns (violation: Option<Target>)
      requires PhaseOf(Now(), c).Creating? && HasInitialState(requests.of(c)) && NotBy(others, c)
      modifies this
      ensures Now() == RunFrom(requests, old(Now()), others + [Next(c, id, aggregateId, Received)])
      ensures PhaseOf(Now(), c) ==
        if violation.None? then Done(Created(NewRow(requests.of(c), id, aggregateId))) else AfterViolation(violation.value)
      ensures violation.None? ==> rows != [] && Last(rows) == NewRow(requests.of(c), id, aggregateId)
      ensures violation == Some(OnId) ==> exists other :: other in rows && other.id == id
      ensures violation == Some(OnAggregateId) ==> exists other :: other in rows && other.aggregateId == aggregateId
    {
      Elsewhere(requests, others);
      OthersKeepPhase(requests, old(Now()), others, c);
      FrontLastSnoc(others, Next(c, id, aggregateId, Received));
      var row := NewRow(requests.of(c), id, aggregateId);
      violation := CreateInstance(row);
      phases := phases[c := if violation.None? then Done(Created(row)) else AfterViolation(violation.value)];
    }

    /** The look-up after a lost race. */
    method LookUpAgain(requests: Requests, c: nat, id: string, aggregateId: string, others: seq<Event>) returns (winner: Option<Row>)
      requires PhaseOf(Now(), c).Refetching? && NotBy(others, c)
      modifies this
      ensures Now() == RunFrom(requests, old(Now()), others + [Next(c, id, aggregateId, Received)])
      ensures PhaseOf(Now(), c) == if winner.Some? then Done(Replayed(winner.value)) else Done(Threw)
      ensures winner.Some? ==> winner.value in rows && Means(requests.of(c), Replayed(winner.value))
    {
      Elsewhere(requests, others);
      OthersKeepPhase(requests, old(Now()), others, c);
      FrontLastSnoc(others, Next(c, id, aggregateId, Received));
      winner := None;
      var key := KeyOf(requests.of(c));
      if key.Some? {
        winner := FindByIdempotencyKey(requests.of(c).tenantId, key.value);
      }
      phases := phases[c := if winner.Some? then Done(Replayed(winner.value)) else Done(Threw)];
    }

    /**
     * One call, while others take any steps before each of its three queries. It performs the
     * call's own steps; `id` and `aggregateId` are drawn for the new row.
     */
    method Provision(requests: Requests, c: nat, id: string, aggregateId: string, others: seq<seq<Event>>)
      returns (outcome: Outcome, ghost schedule: seq<Event>)
      requires PhaseOf(Now(), c).Idle?
      requires |others| == 3 && NotBy(others[0], c) && NotBy(others[1], c) && NotBy(others[2], c)
      modifies this
      ensures Now() == RunFrom(requests, old(Now()), schedule)
      ensures PhaseOf(Now(), c) == Done(outcome)
      ensures Means(requests.of(c), outcome)
      ensures outcome.Created? ==>
        outcome.row.id == id && outcome.row.aggregateId == aggregateId && rows != [] && Last(rows) == outcome.row
      ensures outcome.Replayed? ==> outcome.row in rows
      ensures HasRowFor(old(rows), requests.of(c)) ==> outcome.Replayed?
      ensures outcome == Conflict(OnId) ==> exists other :: other in rows && other.id == id
      ensures outcome == Conflict(OnAggregateId) ==> exists other :: other in rows && other.aggregateId == aggregateId
    {
      ghost var next := Next(c, id, aggregateId, Received);
      var existing := LookUpFirst(requests, c, id, aggregateId, others[0]);
      schedule := others[0] + [next];
      if existing.Some? {
        return Replayed(existing.value), schedule;
      }
      if !HasInitialState(requests.of(c)) {
        return InvalidDefinition, schedule;
      }
      var violation := Insert(requests, c, id, aggregateId, others[1]);
      RunFromAppend(requests, old(Now()), schedule, others[1] + [next]);
      schedule := schedule + (others[1] + [next]);
      if violation.None? {
        return Created(NewRow(requests.of(c), id, aggregateId)), schedule;
      }
      if !violation.value.OnIdempotencyKey? {
        return Conflict(violation.value), schedule;
      }
      var winner := LookUpAgain(requests, c, id, aggregateId, others[2]);
      RunFromAppend(requests, old(Now()), schedule, others[2] + [next]);
      schedule := schedule + (others[2] + [next]);
      outcome := if winner.Some? then Replayed(winner.value) else Threw;
    }
  }

  predicate NotBy(events: seq<Event>, c: nat) {
    forall i | 0 <= i < |events| :: events[i].Next? ==> events[i].call != c
  }

  lemma {:induction false} OthersKeepPhase(requests: Requests, s: State, events: seq<Event>, c: nat)
    requires NotBy(events, c)
    ensures PhaseOf(RunFrom(requests, s, events), c) == PhaseOf(s, c)
  {
    if events != [] {
      OthersKeepPhase(requests, s, Front(events), c);
    }
  }

  lemma {:induction false} RunFromAppend(requests: Requests, s: State, first: seq<Event>, rest: seq<Event>)
    ensures RunFrom(requests, s, first + rest) == RunFrom(requests, RunFrom(requests, s, first), rest)
  {
    if rest == [] {
      assert first + rest == first;
    } else {
      RunFromAppend(requests, s, first, Front(rest));
      FrontLast(rest);
      Assoc(first, Front(rest), [Last(rest)]);
      FrontLastSnoc(first + Front(rest), Last(rest));
    }
  }
}
