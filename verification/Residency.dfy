/** How long a run stayed in each state (packages/observability/src/trace-timeline.ts). */
module Residency {
  import opened Prelude
  import opened Traces

  datatype StateResidency = StateResidency(state: string, enteredAt: int, exitedAt: Option<int>, durationMs: Option<int>)

  predicate HasText(s: Option<string>) {
    s.Some? && s.value != ""
  }

  predicate IsTransition(r: TraceRecord) {
    r.kind.TransitionCompleted? || r.kind.TransitionBlocked?
  }

  /** A start or transition that says where it goes, or the end of the run. */
  predicate Moves(r: TraceRecord) {
    || (r.kind == LoopStarted && r.toState.Some? && r.toState.value != "")
    || (&& (r.kind == TransitionCompleted || r.kind == TransitionBlocked)
        && r.fromState.Some? && r.fromState.value != "" && r.toState.Some? && r.toState.value != "")
    || r.kind == LoopTerminal
  }

  function Closed(state: string, enteredAt: int, exitAt: int): StateResidency {
    StateResidency(state, enteredAt, Some(exitAt), Some(exitAt - enteredAt))
  }

  // ---------------------------------------------------------------- the walk

  /** Where the run stands, and since when. */
  datatype Stay = Stay(state: string, since: int)

  datatype Cursor = Cursor(out: seq<StateResidency>, stay: Option<Stay>)

  function Close(c: Cursor, exitAt: int): seq<StateResidency> {
    if c.stay.Some? then c.out + [Closed(c.stay.value.state, c.stay.value.since, exitAt)] else c.out
  }

  function Advance(c: Cursor, r: TraceRecord): Cursor {
    if !Moves(r) then c
    else if r.kind.LoopTerminal? then Cursor(Close(c, r.timestamp), None)
    else
      Cursor(if IsTransition(r) && c.stay.Some? && Some(c.stay.value.state) == r.fromState then Close(c, r.timestamp) else c.out,
             Some(Stay(r.toState.value, r.timestamp)))
  }

  function Walk(records: seq<TraceRecord>): Cursor {
    if records == [] then Cursor([], None) else Advance(Walk(Front(records)), Last(records))
  }

  function Finish(c: Cursor): seq<StateResidency> {
    if c.stay.Some? then c.out + [StateResidency(c.stay.value.state, c.stay.value.since, None, None)] else c.out
  }

  method ComputeStateResidency(sorted: seq<TraceRecord>) returns (out: seq<StateResidency>)
    ensures out == Finish(Walk(sorted))
    ensures exists at, ks :: Tells(sorted, at, ks, out)
  {
    StaysAreTold(sorted);
    out := [];
    var currentState: Option<string>, enteredAt: Option<int> := None, None;
    for i := 0 to |sorted|
      invariant currentState.Some? <==> enteredAt.Some?
      invariant Walk(sorted[..i]) ==
        Cursor(out, if currentState.Some? then Some(Stay(currentState.value, enteredAt.value)) else None)
    {
      var r := sorted[i];
      assert Front(sorted[..i + 1]) == sorted[..i] && Last(sorted[..i + 1]) == r;
      if r.kind.LoopStarted? {
        if HasText(r.toState) {
          currentState, enteredAt := r.toState, Some(r.timestamp);
        }
        continue;
      }
      if IsTransition(r) {
        if HasText(r.fromState) && HasText(r.toState) {
          if currentState == r.fromState && enteredAt.Some? {
            out := out + [Closed(currentState.value, enteredAt.value, r.timestamp)];
          }
          currentState, enteredAt := r.toState, Some(r.timestamp);
        }
        continue;
      }
      if r.kind.LoopTerminal? {
        if currentState.Some? && enteredAt.Some? {
          out := out + [Closed(currentState.value, enteredAt.value, r.timestamp)];
        }
        currentState, enteredAt := None, None;
      }
    }
    assert sorted[..|sorted|] == sorted;
    if currentState.Some? && enteredAt.Some? {
      out := out + [StateResidency(currentState.value, enteredAt.value, None, None)];
    }
  }

  // ---------------------------------------------------------------- which stays are told

  /** `at` lists the positions of the records that move the run. */
  ghost predicate MovesAt(records: seq<TraceRecord>, at: seq<nat>) {
    && (forall n | 0 <= n < |at| :: at[n] < |records| && Moves(records[at[n]]))
    && (forall m, n | 0 <= m < n < |at| :: at[m] < at[n])
    && forall k: nat | k < |records| && Moves(records[k]) :: k in at
  }

  /** The move at `j` ends the stay that the one before it, at `i`, has begun: it is the end of the run or leaves that state. */
  ghost predicate Ends(records: seq<TraceRecord>, i: nat, j: nat)
    requires i < |records| && j < |records|
  {
    && records[i].kind != LoopTerminal
    && (|| records[j].kind == LoopTerminal
        || ((records[j].kind == TransitionCompleted || records[j].kind == TransitionBlocked)
            && records[j].fromState == records[i].toState))
  }

  /** `ks` lists the moves, by their place among the moves, that end the stay before them. */
  ghost predicate EndingsAt(records: seq<TraceRecord>, at: seq<nat>, ks: seq<nat>)
    requires MovesAt(records, at)
  {
    && (forall n | 0 <= n < |ks| :: 0 < ks[n] < |at|)
    && (forall m, n | 0 <= m < n < |ks| :: ks[m] < ks[n])
    && forall k: nat | 0 < k < |at| :: k in ks <==> Ends(records, at[k - 1], at[k])
  }

  /** The stay that begins with the move `a` and ends with the move `b`. */
  predicate IsStay(s: StateResidency, a: TraceRecord, b: TraceRecord) {
    && Some(s.state) == a.toState && s.enteredAt == a.timestamp
    && s.exitedAt == Some(b.timestamp) && s.durationMs == Some(b.timestamp - a.timestamp)
  }

  ghost predicate StaysTold(records: seq<TraceRecord>, at: seq<nat>, ks: seq<nat>, out: seq<StateResidency>)
    requires MovesAt(records, at) && EndingsAt(records, at, ks)
  {
    |out| == |ks| && forall n | 0 <= n < |out| :: IsStay(out[n], records[at[ks[n] - 1]], records[at[ks[n]]])
  }

  /** Where the run stands after its last move. */
  ghost predicate StandsAt(records: seq<TraceRecord>, at: seq<nat>, stay: Option<Stay>)
    requires MovesAt(records, at)
  {
    if at == [] || records[Last(at)].kind == LoopTerminal then stay.None?
    else stay.Some? && Some(stay.value.state) == records[Last(at)].toState && stay.value.since == records[Last(at)].timestamp
  }

  ghost predicate WalkTold(records: seq<TraceRecord>, at: seq<nat>, ks: seq<nat>, c: Cursor) {
    && MovesAt(records, at) && EndingsAt(records, at, ks)
    && StaysTold(records, at, ks, c.out)
    && StandsAt(records, at, c.stay)
  }

  lemma AtGrows(records: seq<TraceRecord>, r: TraceRecord, at: seq<nat>)
    requires MovesAt(records, at)
    ensures MovesAt(records + [r], if Moves(r) then at + [|records|] else at)
  {
    var all, last := records + [r], |records|;
    var more := if Moves(r) then at + [last] else at;
    if Moves(r) {
      assert more[|at|] == last;
    }
    forall k: nat | k < |all| && Moves(all[k])
      ensures k in more
    {
      if k < last {
        assert Moves(records[k]) && k in at;
      }
    }
  }

  lemma EndingsGrow(records: seq<TraceRecord>, r: TraceRecord, at: seq<nat>, ks: seq<nat>)
    requires MovesAt(records, at) && EndingsAt(records, at, ks)
    requires Moves(r) && MovesAt(records + [r], at + [|records|])
    ensures var ends := at != [] && Ends(records + [r], Last(at), |records|);
      EndingsAt(records + [r], at + [|records|], if ends then ks + [|at|] else ks)
  {
    var all, more := records + [r], at + [|records|];
    var ends := at != [] && Ends(all, Last(at), |records|);
    var longer := if ends then ks + [|at|] else ks;
    if ends {
      assert longer[|ks|] == |at|;
    }
    forall k: nat | 0 < k < |more|
      ensures k in longer <==> Ends(all, more[k - 1], more[k])
    {
      if k < |at| {
        assert more[k] == at[k] && more[k - 1] == at[k - 1];
        assert k in ks <==> Ends(records, at[k - 1], at[k]);
      }
    }
  }

  lemma StayOn(records: seq<TraceRecord>, r: TraceRecord, at: seq<nat>, ks: seq<nat>, c: Cursor)
    requires WalkTold(records, at, ks, c) && !Moves(r)
    ensures WalkTold(records + [r], at, ks, c)
  {
    AtGrows(records, r, at);
    forall k: nat | 0 < k < |at|
      ensures k in ks <==> Ends(records + [r], at[k - 1], at[k])
    {
      assert k in ks <==> Ends(records, at[k - 1], at[k]);
    }
  }

  /** The stays told so far are told of the longer trace as well. */
  lemma StaysKept(records: seq<TraceRecord>, r: TraceRecord, at: seq<nat>, ks: seq<nat>, out: seq<StateResidency>, n: nat)
    requires MovesAt(records, at) && EndingsAt(records, at, ks) && StaysTold(records, at, ks, out) && n < |ks|
    requires MovesAt(records + [r], at + [|records|])
    ensures var all, more := records + [r], at + [|records|];
      0 < ks[n] < |at| && IsStay(out[n], all[more[ks[n] - 1]], all[more[ks[n]]])
  {
    assert (at + [|records|])[ks[n]] == at[ks[n]] && (at + [|records|])[ks[n] - 1] == at[ks[n] - 1];
  }

  lemma StaysWithNone(records: seq<TraceRecord>, r: TraceRecord, at: seq<nat>, ks: seq<nat>, out: seq<StateResidency>)
    requires MovesAt(records, at) && EndingsAt(records, at, ks) && StaysTold(records, at, ks, out)
    requires MovesAt(records + [r], at + [|records|]) && EndingsAt(records + [r], at + [|records|], ks)
    ensures StaysTold(records + [r], at + [|records|], ks, out)
  {
    forall n | 0 <= n < |out|
      ensures IsStay(out[n], (records + [r])[(at + [|records|])[ks[n] - 1]], (records + [r])[(at + [|records|])[ks[n]]])
    {
      StaysKept(records, r, at, ks, out, n);
    }
  }

  lemma StaysWithOne(records: seq<TraceRecord>, r: TraceRecord, at: seq<nat>, ks: seq<nat>, out: seq<StateResidency>, s: StateResidency)
    requires MovesAt(records, at) && EndingsAt(records, at, ks) && StaysTold(records, at, ks, out) && at != []
    requires MovesAt(records + [r], at + [|records|]) && EndingsAt(records + [r], at + [|records|], ks + [|at|])
    requires IsStay(s, records[Last(at)], r)
    ensures StaysTold(records + [r], at + [|records|], ks + [|at|], out + [s])
  {
    var all, more, longer := records + [r], at + [|records|], ks + [|at|];
    forall n | 0 <= n < |out + [s]|
      ensures IsStay((out + [s])[n], all[more[longer[n] - 1]], all[more[longer[n]]])
    {
      if n < |out| {
        StaysKept(records, r, at, ks, out, n);
        assert longer[n] == ks[n];
      } else {
        assert more[|at| - 1] == Last(at) && all[Last(at)] == records[Last(at)];
      }
    }
  }

  lemma StandsNow(records: seq<TraceRecord>, r: TraceRecord, at: seq<nat>, c: Cursor)
    requires Moves(r) && MovesAt(records + [r], at + [|records|])
    ensures StandsAt(records + [r], at + [|records|], Advance(c, r).stay)
  {
    FrontLastSnoc(at, |records|);
    assert (records + [r])[|records|] == r;
  }

  /** Advancing closes the stay exactly when the move ends it. */
  lemma AdvanceCloses(records: seq<TraceRecord>, r: TraceRecord, at: seq<nat>, c: Cursor) returns (s: StateResidency)
    requires MovesAt(records, at) && StandsAt(records, at, c.stay) && Moves(r)
    ensures at != [] ==> Last(at) < |records|
    ensures at != [] && Ends(records + [r], Last(at), |records|) ==>
      IsStay(s, records[Last(at)], r) && Advance(c, r).out == c.out + [s]
    ensures !(at != [] && Ends(records + [r], Last(at), |records|)) ==> Advance(c, r).out == c.out
  {
    s := StateResidency("", 0, None, None);
    if at != [] {
      assert (records + [r])[Last(at)] == records[Last(at)];
      if c.stay.Some? {
        s := Closed(c.stay.value.state, c.stay.value.since, r.timestamp);
      }
    }
  }

  lemma MoveOn(records: seq<TraceRecord>, r: TraceRecord, at: seq<nat>, ks: seq<nat>, c: Cursor) returns (longer: seq<nat>)
    requires WalkTold(records, at, ks, c) && Moves(r)
    ensures WalkTold(records + [r], at + [|records|], longer, Advance(c, r))
  {
    var s := AdvanceCloses(records, r, at, c);
    AtGrows(records, r, at);
    EndingsGrow(records, r, at, ks);
    StandsNow(records, r, at, c);
    longer := MoveTold(records, r, at, ks, c, s, Advance(c, r));
  }

  lemma MoveTold(records: seq<TraceRecord>, r: TraceRecord, at: seq<nat>, ks: seq<nat>, c: Cursor, s: StateResidency, next: Cursor)
    returns (longer: seq<nat>)
    requires WalkTold(records, at, ks, c) && MovesAt(records + [r], at + [|records|])
    requires StandsAt(records + [r], at + [|records|], next.stay)
    requires var ends := at != [] && Ends(records + [r], Last(at), |records|);
      && EndingsAt(records + [r], at + [|records|], if ends then ks + [|at|] else ks)
      && (ends ==> IsStay(s, records[Last(at)], r))
      && next.out == if ends then c.out + [s] else c.out
    ensures WalkTold(records + [r], at + [|records|], longer, next)
  {
    if at != [] && Ends(records + [r], Last(at), |records|) {
      longer := ks + [|at|];
      StaysWithOne(records, r, at, ks, c.out, s);
    } else {
      longer := ks;
      StaysWithNone(records, r, at, ks, c.out);
    }
  }

  lemma {:induction false} WalkTells(records: seq<TraceRecord>) returns (at: seq<nat>, ks: seq<nat>)
    ensures WalkTold(records, at, ks, Walk(records))
  {
    if records == [] {
      return [], [];
    }
    at, ks := WalkTells(Front(records));
    FrontLast(records);
    if Moves(Last(records)) {
      ks := MoveOn(Front(records), Last(records), at, ks, Walk(Front(records)));
      at := at + [|records| - 1];
    } else {
      StayOn(Front(records), Last(records), at, ks, Walk(Front(records)));
    }
  }

  /** The stays that were ended, in order, and then the one that was not, if the run has not ended. */
  ghost predicate Tells(records: seq<TraceRecord>, at: seq<nat>, ks: seq<nat>, out: seq<StateResidency>) {
    && MovesAt(records, at) && EndingsAt(records, at, ks)
    && |ks| <= |out| && StaysTold(records, at, ks, out[..|ks|])
    && if at == [] || records[Last(at)].kind == LoopTerminal then |out| == |ks|
       else |out| == |ks| + 1
            && Some(Last(out).state) == records[Last(at)].toState && Last(out).enteredAt == records[Last(at)].timestamp
            && Last(out).exitedAt == None && Last(out).durationMs == None
  }

  /**
   * For every trace, also one that does not chain: each move that is a transition out of the state
   * that the move before it entered, or the end of the run, closes one interval; nothing else does;
   * and a run that has not ended has one more, open.
   */
  lemma StaysAreTold(records: seq<TraceRecord>)
    ensures exists at, ks :: Tells(records, at, ks, Finish(Walk(records)))
  {
    var at, ks := WalkTells(records);
    var c := Walk(records);
    assert Finish(c)[..|ks|] == c.out;
    assert Tells(records, at, ks, Finish(c));
  }

  // ---------------------------------------------------------------- no overlap

  predicate InTime(records: seq<TraceRecord>) {
    forall i, j | 0 <= i < j < |records| :: records[i].timestamp <= records[j].timestamp
  }

  /** A closed interval that does not end before it begins. */
  predicate ClosedOk(s: StateResidency) {
    s.exitedAt.Some? && s.enteredAt <= s.exitedAt.value && s.durationMs == Some(s.exitedAt.value - s.enteredAt)
  }

  /** Closed intervals, each ending before the next begins, and all of them before `end`. */
  predicate Disjoint(out: seq<StateResidency>, end: int) {
    && (forall i | 0 <= i < |out| :: ClosedOk(out[i]) && out[i].exitedAt.value <= end)
    && (forall i, j | 0 <= i < j < |out| :: ClosedOk(out[i]) && out[i].exitedAt.value <= out[j].enteredAt)
  }

  predicate CursorInTime(c: Cursor, now: int) {
    if c.stay.Some? then Disjoint(c.out, c.stay.value.since) && c.stay.value.since <= now else Disjoint(c.out, now)
  }

  lemma DisjointLater(out: seq<StateResidency>, end: int, later: int)
    requires Disjoint(out, end) && end <= later
    ensures Disjoint(out, later)
  {
  }

  lemma CloseKeepsOrder(c: Cursor, now: int)
    requires CursorInTime(c, now)
    ensures Disjoint(Close(c, now), now)
  {
    if c.stay.Some? {
      DisjointLater(c.out, c.stay.value.since, now);
    }
  }

  lemma AdvanceKeepsOrder(c: Cursor, now: int, r: TraceRecord)
    requires CursorInTime(c, now) && now <= r.timestamp
    ensures CursorInTime(Advance(c, r), r.timestamp)
  {
    if c.stay.Some? {
      DisjointLater(c.out, c.stay.value.since, r.timestamp);
    } else {
      DisjointLater(c.out, now, r.timestamp);
    }
    CloseKeepsOrder(c, r.timestamp);
  }

  lemma {:induction false} WalkKeepsOrder(records: seq<TraceRecord>, start: int)
    requires InTime(records) && (records != [] ==> start <= records[0].timestamp)
    ensures CursorInTime(Walk(records), if records == [] then start else Last(records).timestamp)
  {
    if records != [] {
      WalkKeepsOrder(Front(records), start);
      AdvanceKeepsOrder(Walk(Front(records)), if |records| == 1 then start else records[|records| - 2].timestamp, Last(records));
    }
  }

  /**
   * For every trace whose timestamps do not go back the intervals come in order and do not
   * overlap, and only the last one may be open.
   */
  lemma IntervalsDoNotOverlap(records: seq<TraceRecord>)
    requires InTime(records)
    ensures var out := Finish(Walk(records));
      && (forall i, j | 0 <= i < j < |out| :: ClosedOk(out[i]) && out[i].exitedAt.value <= out[j].enteredAt)
      && (out != [] ==> ClosedOk(Last(out)) || (Last(out).exitedAt.None? && Last(out).durationMs.None?))
  {
    WalkKeepsOrder(records, if records == [] then 0 else records[0].timestamp);
  }

  // ---------------------------------------------------------------- tiling

  /** The records that move the run. */
  function MovesOf(records: seq<TraceRecord>): seq<TraceRecord> {
    if records == [] then [] else MovesOf(Front(records)) + if Moves(Last(records)) then [Last(records)] else []
  }

  /** Each move leaves the state that the one before it entered; the end of the run comes last. */
  predicate Chained(moves: seq<TraceRecord>) {
    && (moves != [] ==> !moves[0].kind.LoopTerminal?)
    && (forall i | 0 < i < |moves| :: Follows(moves[i - 1], moves[i]))
  }

  predicate Follows(a: TraceRecord, b: TraceRecord) {
    && !a.kind.LoopTerminal?
    && (b.kind.LoopTerminal? || ((b.kind == TransitionCompleted || b.kind == TransitionBlocked) && b.fromState == a.toState))
  }

  /** From one move to the next. */
  function Between(a: TraceRecord, b: TraceRecord): StateResidency {
    Closed(if a.toState.Some? then a.toState.value else "", a.timestamp, b.timestamp)
  }

  predicate Tiled(out: seq<StateResidency>, moves: seq<TraceRecord>) {
    |out| == |moves| - 1 && forall i | 0 <= i < |out| :: out[i] == Between(moves[i], moves[i + 1])
  }

  predicate CursorTiled(c: Cursor, moves: seq<TraceRecord>) {
    if moves == [] then c == Cursor([], None)
    else
      && Tiled(c.out, moves)
      && c.stay == if Last(moves).kind.LoopTerminal? || Last(moves).toState.None? then None
                   else Some(Stay(Last(moves).toState.value, Last(moves).timestamp))
  }

  lemma TiledSnoc(out: seq<StateResidency>, moves: seq<TraceRecord>, r: TraceRecord)
    requires moves != [] && Tiled(out, moves)
    ensures Tiled(out + [Between(Last(moves), r)], moves + [r])
  {
    var out', moves' := out + [Between(Last(moves), r)], moves + [r];
    forall i | 0 <= i < |out'|
      ensures out'[i] == Between(moves'[i], moves'[i + 1])
    {
      if i < |out| {
        assert out'[i] == out[i] && moves'[i] == moves[i] && moves'[i + 1] == moves[i + 1];
      }
    }
  }

  lemma ChainedPrefix(moves: seq<TraceRecord>, r: TraceRecord)
    requires Chained(moves + [r])
    ensures Chained(moves)
    ensures moves != [] ==> Follows(Last(moves), r)
    ensures moves == [] ==> !r.kind.LoopTerminal?
  {
    var all := moves + [r];
    forall i | 0 < i < |moves|
      ensures Follows(moves[i - 1], moves[i])
    {
      assert Follows(all[i - 1], all[i]);
    }
    if moves != [] {
      assert moves[0] == all[0];
      assert Follows(all[|moves| - 1], all[|moves|]);
    } else {
      assert all[0] == r;
    }
  }

  lemma {:induction false} MovesMove(records: seq<TraceRecord>)
    ensures forall i | 0 <= i < |MovesOf(records)| :: Moves(MovesOf(records)[i])
  {
    if records != [] {
      MovesMove(Front(records));
    }
  }

  lemma AdvanceTiles(c: Cursor, moves: seq<TraceRecord>, r: TraceRecord)
    requires CursorTiled(c, moves) && Moves(r) && Chained(moves + [r])
    requires forall i | 0 <= i < |moves| :: Moves(moves[i])
    ensures CursorTiled(Advance(c, r), moves + [r])
  {
    ChainedPrefix(moves, r);
    FrontLastSnoc(moves, r);
    if moves != [] {
      assert Moves(Last(moves));
      TiledSnoc(c.out, moves, r);
    }
  }

  lemma {:induction false} WalkTiles(records: seq<TraceRecord>)
    requires Chained(MovesOf(records))
    ensures CursorTiled(Walk(records), MovesOf(records))
  {
    if records != [] {
      var r, moves := Last(records), MovesOf(Front(records));
      if Moves(r) {
        ChainedPrefix(moves, r);
        WalkTiles(Front(records));
        MovesMove(Front(records));
        AdvanceTiles(Walk(Front(records)), moves, r);
      } else {
        assert MovesOf(records) == moves;
        WalkTiles(Front(records));
      }
    }
  }

  /** The total of the closed durations. */
  function Total(out: seq<StateResidency>): int {
    if out == [] then 0 else Total(Front(out)) + if Last(out).durationMs.Some? then Last(out).durationMs.value else 0
  }

  lemma {:induction false} TotalOfTiles(out: seq<StateResidency>, moves: seq<TraceRecord>)
    requires Tiled(out, moves)
    ensures Total(out) == Last(moves).timestamp - moves[0].timestamp
  {
    if out != [] {
      assert Tiled(Front(out), Front(moves));
      TotalOfTiles(Front(out), Front(moves));
    }
  }

  /**
   * For a chained trace the intervals tile: the i-th is the stay between the i-th move and the
   * next, each exit is the next entry, a run that has not ended has one more interval that is
   * open, and the closed durations sum to the time from the first move to the last.
   */
  lemma ChainedTraceTiles(records: seq<TraceRecord>)
    requires var moves := MovesOf(records); moves != [] && Chained(moves)
    ensures var moves, out := MovesOf(records), Finish(Walk(records));
      && |out| == |moves| - (if Last(moves).kind.LoopTerminal? then 1 else 0)
      && (forall i | 0 <= i < |out| :: Some(out[i].state) == moves[i].toState && out[i].enteredAt == moves[i].timestamp)
      && (forall i | 0 <= i < |out| :: out[i].exitedAt == if i + 1 < |moves| then Some(moves[i + 1].timestamp) else None)
      && Total(out) == Last(moves).timestamp - moves[0].timestamp
  {
    var moves, c := MovesOf(records), Walk(records);
    WalkTiles(records);
    MovesMove(records);
    TotalOfTiles(c.out, moves);
    forall i | 0 <= i < |moves| && (i < |moves| - 1 || !Last(moves).kind.LoopTerminal?)
      ensures moves[i].toState.Some?
    {
      if i < |moves| - 1 {
        assert Follows(moves[i + 1 - 1], moves[i + 1]);
      }
      assert Moves(moves[i]);
    }
    var out := Finish(c);
    if c.stay.Some? {
      FrontLastSnoc(c.out, StateResidency(c.stay.value.state, c.stay.value.since, None, None));
    }
    forall i | 0 <= i < |out|
      ensures Some(out[i].state) == moves[i].toState && out[i].enteredAt == moves[i].timestamp
      ensures out[i].exitedAt == if i + 1 < |moves| then Some(moves[i + 1].timestamp) else None
    {
      if i < |c.out| {
        assert out[i] == c.out[i] && c.out[i] == Between(moves[i], moves[i + 1]);
      }
    }
  }
}
