/**
 * The definition validator (packages/loop-definition/src/validator.ts): what each error code
 * means, and the worklist search for a terminal state.
 */
module Validator {
  import opened Prelude
  import opened LoopModel

  // ---------------------------------------------------------------- walks

  ghost predicate Joined(ts: seq<TransitionSpec>, u: StateId, v: StateId) {
    exists t :: t in ts && t.origin == u && t.target == v
  }

  ghost predicate Edge(d: LoopDefinition, u: StateId, v: StateId) {
    Joined(d.transitions, u, v)
  }

  /** Consecutive states are joined by transitions. */
  ghost predicate IsWalk(d: LoopDefinition, path: seq<StateId>) {
    path != [] && forall k | 0 <= k < |path| - 1 :: Edge(d, path[k], path[k + 1])
  }

  ghost predicate Reaches(d: LoopDefinition, u: StateId, v: StateId) {
    exists path :: IsWalk(d, path) && path[0] == u && Last(path) == v
  }

  /** Some chain of transitions leads from the initial state to a terminal one. */
  ghost predicate CanComplete(d: LoopDefinition) {
    exists v :: IsTerminal(d, v) && Reaches(d, d.initialState, v)
  }

  lemma ReachesItself(d: LoopDefinition, u: StateId)
    ensures Reaches(d, u, u)
  {
    assert IsWalk(d, [u]) && Last([u]) == u;
  }

  lemma ReachesNext(d: LoopDefinition, s: StateId, u: StateId, v: StateId)
    requires Reaches(d, s, u) && Edge(d, u, v)
    ensures Reaches(d, s, v)
  {
    var path :| IsWalk(d, path) && path[0] == s && Last(path) == u;
    var longer := path + [v];
    forall k | 0 <= k < |longer| - 1
      ensures Edge(d, longer[k], longer[k + 1])
    {
      if k == |path| - 1 {
        assert longer[k] == u;
      }
    }
    assert IsWalk(d, longer) && Last(longer) == v;
  }

  /** A walk never leaves a set of states that is closed under transitions. */
  lemma {:induction false} WalkStays(d: LoopDefinition, path: seq<StateId>, closed: set<StateId>)
    requires IsWalk(d, path) && path[0] in closed
    requires forall u, v | u in closed && Edge(d, u, v) :: v in closed
    ensures Last(path) in closed
  {
    if |path| > 1 {
      var shorter := Front(path);
      assert IsWalk(d, shorter);
      WalkStays(d, shorter, closed);
      assert Edge(d, path[|path| - 2], path[|path| - 1]);
    }
  }

  // ---------------------------------------------------------------- the search

  function TerminalStates(d: LoopDefinition): (r: set<StateId>)
    ensures forall s :: s in r <==> IsTerminal(d, s)
  {
    set i | 0 <= i < |d.states| && d.states[i].isTerminal :: d.states[i].id
  }

  type Graph = map<StateId, seq<StateId>>

  predicate Follows(g: Graph, u: StateId, v: StateId) {
    u in g && v in g[u]
  }

  /** The graph holds the successors of every state. */
  ghost predicate IsGraphOf(g: Graph, ts: seq<TransitionSpec>) {
    forall u, v :: Follows(g, u, v) <==> Joined(ts, u, v)
  }

  method BuildGraph(d: LoopDefinition) returns (graph: Graph)
    ensures IsGraphOf(graph, d.transitions)
  {
    graph := map[];
    var ts := d.transitions;
    for i := 0 to |ts|
      invariant IsGraphOf(graph, ts[..i])
    {
      var t := ts[i];
      ghost var before := graph;
      if t.origin !in graph {
        graph := graph[t.origin := []];
      }
      if t.target !in graph[t.origin] {
        graph := graph[t.origin := graph[t.origin] + [t.target]];
      }
      assert ts[..i + 1] == ts[..i] + [t];
      forall u, v
        ensures Follows(graph, u, v) <==> Joined(ts[..i + 1], u, v)
      {
        JoinedOneMore(ts[..i], t, u, v);
        assert Follows(before, u, v) <==> Joined(ts[..i], u, v);
      }
    }
    assert ts[..|ts|] == ts;
  }

  lemma JoinedOneMore(ts: seq<TransitionSpec>, t: TransitionSpec, u: StateId, v: StateId)
    ensures Joined(ts + [t], u, v) <==> Joined(ts, u, v) || (t.origin == u && t.target == v)
  {
    assert forall x :: x in ts + [t] <==> x in ts || x == t;
  }

  /** The states the search can ever queue. */
  function Nodes(d: LoopDefinition): set<StateId> {
    {d.initialState} + set t | t in d.transitions :: t.target
  }

  ghost predicate Frontier(d: LoopDefinition, visited: set<StateId>, queue: seq<StateId>, extra: set<StateId>) {
    && (d.initialState in visited || d.initialState in queue || d.initialState in extra)
    && (forall u, v | u in visited && Edge(d, u, v) :: v in visited || v in queue || v in extra)
    && (forall u | u in queue :: u in Nodes(d) && Reaches(d, d.initialState, u))
    && visited <= Nodes(d)
    && (forall u | u in visited :: !IsTerminal(d, u))
  }

  /**
   * The worklist search. The queue may hold a state several times, so that the measure is the
   * number of states not yet visited and then the length of the queue.
   */
  method HasPathToTerminal(d: LoopDefinition, terminalStates: set<StateId>) returns (found: bool)
    requires terminalStates == TerminalStates(d)
    ensures found <==> CanComplete(d)
  {
    var graph := BuildGraph(d);
    var visited: set<StateId> := {};
    var queue := [d.initialState];
    ReachesItself(d, d.initialState);
    while queue != []
      invariant Frontier(d, visited, queue, {})
      decreases Nodes(d) - visited, |queue|
    {
      var current := queue[0];
      assert current in queue;
      assert queue == [current] + queue[1..];
      queue := queue[1..];
      if current in terminalStates {
        return true;
      }
      if current in visited {
        continue;
      }
      visited := visited + {current};
      queue := PushSuccessors(d, graph, visited, queue, current);
    }
    NoWalk(d, visited);
    return false;
  }

  /** Queues the successors of a state that have not been visited. */
  method PushSuccessors(d: LoopDefinition, graph: Graph, visited: set<StateId>, before: seq<StateId>, current: StateId)
    returns (queue: seq<StateId>)
    requires IsGraphOf(graph, d.transitions)
    requires current in visited && Reaches(d, d.initialState, current)
    requires Frontier(d, visited - {current}, before, {current}) && current in Nodes(d) && !IsTerminal(d, current)
    ensures Frontier(d, visited, queue, {})
  {
    queue := before;
    var next := if current in graph then graph[current] else [];
    for i := 0 to |next|
      invariant forall u | u in before :: u in queue
      invariant forall k | 0 <= k < i :: next[k] in visited || next[k] in queue
      invariant forall u | u in queue :: u in Nodes(d) && Reaches(d, d.initialState, u)
    {
      assert Follows(graph, current, next[i]);
      ReachesNext(d, d.initialState, current, next[i]);
      if next[i] !in visited {
        queue := queue + [next[i]];
      }
    }
    forall u, v | u in visited && Edge(d, u, v)
      ensures v in visited || v in queue
    {
      if u == current {
        assert Follows(graph, current, v);
      }
    }
  }

  lemma NoWalk(d: LoopDefinition, visited: set<StateId>)
    requires Frontier(d, visited, [], {})
    ensures !CanComplete(d)
  {
    forall v | IsTerminal(d, v)
      ensures !Reaches(d, d.initialState, v)
    {
      if Reaches(d, d.initialState, v) {
        var path :| IsWalk(d, path) && path[0] == d.initialState && Last(path) == v;
        WalkStays(d, path, visited);
      }
    }
  }

  // ---------------------------------------------------------------- the error codes

  datatype ErrorCode =
    | InvalidInitialState
    | InvalidTransitionOrigin(index: nat)
    | InvalidTransitionTarget(index: nat)
    | DuplicateGuardId(index: nat)
    | NoTerminalState
    | LoopNotCompletable
    | SignalCycleDetected(index: nat)
    | OutcomeMetricsRequired

  predicate HasState(d: LoopDefinition, s: StateId) {
    exists i :: 0 <= i < |d.states| && d.states[i].id == s
  }

  lemma HasStateMeans(d: LoopDefinition, s: StateId)
    ensures HasState(d, s) <==> exists state :: state in d.states && state.id == s
  {
    if HasState(d, s) {
      var i :| 0 <= i < |d.states| && d.states[i].id == s;
      assert d.states[i] in d.states;
    }
  }

  ghost predicate RepeatsGuard(t: TransitionSpec) {
    exists i, j :: 0 <= i < j < |t.guards| && t.guards[i].id == t.guards[j].id
  }

  /** What an error code says of a definition. */
  ghost predicate Violates(d: LoopDefinition, code: ErrorCode) {
    match code
    case InvalidInitialState => forall s | s in d.states :: s.id != d.initialState
    case InvalidTransitionOrigin(i) => i < |d.transitions| && forall s | s in d.states :: s.id != d.transitions[i].origin
    case InvalidTransitionTarget(i) => i < |d.transitions| && forall s | s in d.states :: s.id != d.transitions[i].target
    case DuplicateGuardId(i) => i < |d.transitions| && RepeatsGuard(d.transitions[i])
    case NoTerminalState => forall s | s in d.states :: !s.isTerminal
    case LoopNotCompletable =>
      && (exists s :: s in d.states && s.isTerminal)
      && !((exists t, s :: t in d.transitions && s in d.states && s.id == t.target && s.isTerminal) && CanComplete(d))
    case SignalCycleDetected(i) =>
      // another transition with the same signal leads straight back
      && i < |d.transitions|
      && exists j :: 0 <= j < |d.transitions| && j != i
           && d.transitions[j].signal == d.transitions[i].signal
           && d.transitions[j].origin == d.transitions[i].target && d.transitions[j].target == d.transitions[i].origin
    case OutcomeMetricsRequired => d.outcome.Some? && d.outcome.value.businessMetrics == []
  }

  method CheckGuards(t: TransitionSpec) returns (repeated: bool)
    ensures repeated <==> RepeatsGuard(t)
  {
    var seen: set<GuardId> := {};
    repeated := false;
    for i := 0 to |t.guards|
      invariant forall g :: g in seen <==> exists k :: 0 <= k < i && t.guards[k].id == g
      invariant repeated <==> exists k, j :: 0 <= k < j < i && t.guards[k].id == t.guards[j].id
    {
      if t.guards[i].id in seen {
        repeated := true;
      }
      seen := seen + {t.guards[i].id};
    }
  }

  method CheckSignalCycles(d: LoopDefinition) returns (errors: seq<ErrorCode>)
    ensures forall code :: code in errors <==> code.SignalCycleDetected? && Violates(d, code)
  {
    errors := [];
    for i := 0 to |d.transitions|
      invariant forall code :: code in errors <==> code.SignalCycleDetected? && code.index < i && Violates(d, code)
    {
      ghost var before := errors;
      for j := 0 to |d.transitions|
        invariant forall code :: code in errors <==>
          code in before
          || (code == SignalCycleDetected(i)
              && exists k :: 0 <= k < j && k != i
                   && d.transitions[k].signal == d.transitions[i].signal
                   && d.transitions[k].origin == d.transitions[i].target && d.transitions[k].target == d.transitions[i].origin)
      {
        if i == j {
          continue;
        }
        var a, b := d.transitions[i], d.transitions[j];
        if b.signal == a.signal && b.origin == a.target && b.target == a.origin {
          errors := errors + [SignalCycleDetected(i)];
        }
      }
    }
  }

  /** The codes about single transitions. */
  predicate PerTransition(code: ErrorCode) {
    code.InvalidTransitionOrigin? || code.InvalidTransitionTarget? || code.DuplicateGuardId?
  }

  method CheckTransitions(d: LoopDefinition) returns (errors: seq<ErrorCode>)
    ensures forall code :: code in errors <==> PerTransition(code) && Violates(d, code)
  {
    errors := [];
    for i := 0 to |d.transitions|
      invariant forall code :: code in errors <==> PerTransition(code) && code.index < i && Violates(d, code)
    {
      var t := d.transitions[i];
      HasStateMeans(d, t.origin);
      HasStateMeans(d, t.target);
      if !HasState(d, t.origin) {
        errors := errors + [InvalidTransitionOrigin(i)];
      }
      if !HasState(d, t.target) {
        errors := errors + [InvalidTransitionTarget(i)];
      }
      var repeated := CheckGuards(t);
      if repeated {
        errors := errors + [DuplicateGuardId(i)];
      }
    }
  }

  lemma TerminalMeans(d: LoopDefinition)
    ensures TerminalStates(d) == {} <==> forall s | s in d.states :: !s.isTerminal
    ensures (exists t :: t in d.transitions && t.target in TerminalStates(d)) <==>
      exists t, s :: t in d.transitions && s in d.states && s.id == t.target && s.isTerminal
  {
    forall s | s in d.states && s.isTerminal
      ensures s.id in TerminalStates(d)
    {
      IsTerminalMeans(d, s.id);
    }
    forall id | id in TerminalStates(d)
      ensures exists s :: s in d.states && s.id == id && s.isTerminal
    {
      IsTerminalMeans(d, id);
    }
  }

  /** Validation reports exactly the codes that are true of the definition. */
  method ValidateLoopDefinition(d: LoopDefinition) returns (valid: bool, errors: seq<ErrorCode>)
    ensures forall code :: code in errors <==> Violates(d, code)
    ensures valid <==> errors == []
  {
    errors := [];
    HasStateMeans(d, d.initialState);
    if !HasState(d, d.initialState) {
      errors := errors + [InvalidInitialState];
    }
    var transitionErrors := CheckTransitions(d);
    errors := errors + transitionErrors;
    var terminalStates := TerminalStates(d);
    TerminalMeans(d);
    if terminalStates == {} {
      errors := errors + [NoTerminalState];
    } else {
      var inbound := exists t :: t in d.transitions && t.target in terminalStates;
      var path := HasPathToTerminal(d, terminalStates);
      if !inbound || !path {
        errors := errors + [LoopNotCompletable];
      }
    }
    var cycles := CheckSignalCycles(d);
    errors := errors + cycles;
    if d.outcome.Some? && d.outcome.value.businessMetrics == [] {
      errors := errors + [OutcomeMetricsRequired];
    }
    valid := errors == [];
  }

  /** The validator accepts a definition of which no code is true. */
  ghost predicate Acceptable(d: LoopDefinition) {
    forall code :: !Violates(d, code)
  }

  lemma AcceptableMeans(d: LoopDefinition)
    requires Acceptable(d)
    ensures CanComplete(d)
    ensures HasState(d, d.initialState)
    ensures forall t | t in d.transitions :: HasState(d, t.origin) && HasState(d, t.target)
    ensures forall i, j | 0 <= i < |d.transitions| && 0 <= j < |d.transitions| && i != j ::
              !(d.transitions[i].signal == d.transitions[j].signal
                && d.transitions[i].origin == d.transitions[j].target && d.transitions[i].target == d.transitions[j].origin)
  {
    assert !Violates(d, InvalidInitialState) && !Violates(d, NoTerminalState) && !Violates(d, LoopNotCompletable);
    HasStateMeans(d, d.initialState);
    forall t | t in d.transitions
      ensures HasState(d, t.origin) && HasState(d, t.target)
    {
      var i :| 0 <= i < |d.transitions| && d.transitions[i] == t;
      HasStateMeans(d, t.origin);
      HasStateMeans(d, t.target);
      assert !Violates(d, InvalidTransitionOrigin(i)) && !Violates(d, InvalidTransitionTarget(i));
    }
    forall i, j | 0 <= i < |d.transitions| && 0 <= j < |d.transitions| && i != j
      ensures !(d.transitions[i].signal == d.transitions[j].signal
                && d.transitions[i].origin == d.transitions[j].target && d.transitions[i].target == d.transitions[j].origin)
    {
      assert !Violates(d, SignalCycleDetected(i));
    }
  }
}
