/** A migration call that is not interrupted gets to its end. */
module MigrationProgress {
  import opened Prelude
  import opened Migrations
  import opened MigrationSteps
  import opened MigrationRuns

  /** The state after `n` steps of the call, every statement of which is executed and answered. */
  function Alone(c: Config, s: State, p: nat, n: nat): State {
    Iterated(CallStep(c, p), s, n)
  }

  function CallStep(c: Config, p: nat): State -> State {
    (t: State) => Step(c, t, Next(p, Received))
  }

  function Iterated(f: State -> State, s: State, n: nat): State {
    if n == 0 then s else f(Iterated(f, s, n - 1))
  }

  lemma {:induction false} IteratedSplit(f: State -> State, s: State, m: nat, n: nat)
    ensures Iterated(f, s, m + n) == Iterated(f, Iterated(f, s, m), n)
  {
    if n > 0 {
      IteratedSplit(f, s, m, n - 1);
    }
  }

  lemma AloneNext(c: Config, s: State, p: nat, n: nat)
    ensures Alone(c, s, p, n + 1) == Step(c, Alone(c, s, p, n), Next(p, Received))
  {
  }

  ghost predicate StandsBefore(c: Config, s: State, p: nat, k: nat) {
    exists l :: StandsAt(c, s, p, l) && l.k == k
  }

  /** Live, with an unbroken connection, at migration `l.k`. */
  ghost predicate StandsAt(c: Config, s: State, p: nat, l: Loop) {
    && Good(c, s)
    && SessionOf(s, p) == Session(AtMigration(l), false, false, None)
  }

  /** One migration is passed in one step when it is recorded, and otherwise in four. */
  lemma PassOne(c: Config, s: State, p: nat, l: Loop) returns (n: nat)
    requires Uniform(c) && c.migrations != [] && c.migrations[0].createsTable
    requires StandsAt(c, s, p, l) && l.k < LengthOf(c, p)
    ensures StandsBefore(c, Alone(c, s, p, n), p, l.k + 1)
  {
    var m := c.migrations[l.k];
    assert SessionOk(c, s.shared.effects, s.shared.lock == Some(p), p, SessionOf(s, p));
    LoadedIs(c.migrations, |l.already|, l.k);
    assert Alone(c, s, p, 0) == s;
    AloneNext(c, s, p, 0);
    var s1 := Alone(c, s, p, 1);
    StepOk(c, s, Next(p, Received));
    if l.k < |l.already| {
      var l' := l.(k := l.k + 1, skipped := l.skipped + [m.id]);
      assert StandsAt(c, s1, p, l');
      return 1;
    }
    ApplyOne(c, s, s1, p, l);
    return 4;
  }

  lemma ApplyOne(c: Config, s: State, s1: State, p: nat, l: Loop)
    requires Uniform(c) && c.migrations != [] && c.migrations[0].createsTable
    requires s1 == Alone(c, s, p, 1) && Good(c, s1)
    requires l.k < LengthOf(c, p) && SessionOf(s1, p) == Session(Began(l), false, false, Some(Tx([], [])))
    ensures StandsBefore(c, Alone(c, s, p, 4), p, l.k + 1)
  {
    var m := c.migrations[l.k];
    assert SessionOk(c, s1.shared.effects, s1.shared.lock == Some(p), p, SessionOf(s1, p));
    var s2 := BodyWorks(c, s1, p, l);
    AloneNext(c, s, p, 1);
    InsertWorks(c, s1.shared, l.k);
    var s3 := RowWorks(c, s2, p, l);
    AloneNext(c, s, p, 2);
    var s4 := CommitWorks(c, s3, p, l);
    AloneNext(c, s, p, 3);
  }

  lemma BodyWorks(c: Config, s: State, p: nat, l: Loop) returns (s': State)
    requires Uniform(c) && Good(c, s) && l.k < LengthOf(c, p)
    requires SessionOf(s, p) == Session(Began(l), false, false, Some(Tx([], [])))
    ensures s' == Step(c, s, Next(p, Received)) && Good(c, s') && s'.shared == s.shared
    ensures SessionOf(s', p) == Session(BodyDone(l), false, false, Some(Tx([c.migrations[l.k]], [])))
  {
    s' := Step(c, s, Next(p, Received));
    StepOk(c, s, Next(p, Received));
    assert [] + [c.migrations[l.k]] == [c.migrations[l.k]];
  }

  lemma RowWorks(c: Config, s: State, p: nat, l: Loop) returns (s': State)
    requires Uniform(c) && Good(c, s) && l.k < LengthOf(c, p)
    requires SessionOf(s, p) == Session(BodyDone(l), false, false, Some(Tx([c.migrations[l.k]], [])))
    requires TableExists(s.shared.effects + [c.migrations[l.k]]) && !IsRecorded(s.shared.records + [], c.migrations[l.k].id)
    ensures s' == Step(c, s, Next(p, Received)) && Good(c, s') && s'.shared == s.shared
    ensures SessionOf(s', p) == Session(RowDone(l), false, false, Some(Tx([c.migrations[l.k]], [RecordOf(c.migrations[l.k])])))
  {
    s' := Step(c, s, Next(p, Received));
    StepOk(c, s, Next(p, Received));
    assert [] + [RecordOf(c.migrations[l.k])] == [RecordOf(c.migrations[l.k])];
  }

  lemma CommitWorks(c: Config, s: State, p: nat, l: Loop) returns (s': State)
    requires Uniform(c) && Good(c, s) && l.k < LengthOf(c, p)
    requires SessionOf(s, p) == Session(RowDone(l), false, false, Some(Tx([c.migrations[l.k]], [RecordOf(c.migrations[l.k])])))
    ensures s' == Step(c, s, Next(p, Received))
    ensures StandsAt(c, s', p, l.(k := l.k + 1, applied := l.applied + [c.migrations[l.k].id]))
  {
    s' := Step(c, s, Next(p, Received));
    StepOk(c, s, Next(p, Received));
  }

  /** The table is there once the first migration is, and ids are new. */
  lemma InsertWorks(c: Config, s: Shared, k: nat)
    requires Uniform(c) && c.migrations != [] && c.migrations[0].createsTable
    requires Clean(c, s) && |s.effects| == k < |c.migrations|
    ensures TableExists(s.effects + [c.migrations[k]])
    ensures !IsRecorded(s.records + [], c.migrations[k].id)
  {
    RecordsAt(s.effects);
    assert (s.effects + [c.migrations[k]])[0] == c.migrations[0];
    assert s.records + [] == s.records;
  }

  /** What leads from each position to the next leads to the last. */
  lemma {:induction false} Climb(f: State -> State, P: iset<(State, nat)>, s: State, k: nat, top: nat) returns (n: nat)
    requires forall t: State, i: nat | (t, i) in P && i < top :: Climbs(f, P, t, i)
    requires (s, k) in P && k <= top
    ensures (Iterated(f, s, n), top) in P
    decreases top - k
  {
    if k == top {
      assert Iterated(f, s, 0) == s;
      return 0;
    }
    assert Climbs(f, P, s, k);
    var m: nat :| (Iterated(f, s, m), k + 1) in P;
    var rest := Climb(f, P, Iterated(f, s, m), k + 1, top);
    IteratedSplit(f, s, m, rest);
    return m + rest;
  }

  ghost predicate Climbs(f: State -> State, P: iset<(State, nat)>, t: State, i: nat) {
    exists m: nat :: (Iterated(f, t, m), i + 1) in P
  }

  lemma PassAll(c: Config, s: State, p: nat) returns (n: nat)
    requires Uniform(c) && c.migrations != [] && c.migrations[0].createsTable
    requires StandsBefore(c, s, p, 0)
    ensures StandsBefore(c, Alone(c, s, p, n), p, LengthOf(c, p))
  {
    var f := CallStep(c, p);
    ghost var P := iset t: State, i: nat | StandsBefore(c, t, p, i) :: (t, i);
    forall t: State, i: nat | (t, i) in P && i < LengthOf(c, p)
      ensures Climbs(f, P, t, i)
    {
      var m := PassNext(c, t, p, i);
      assert (Iterated(f, t, m), i + 1) in P;
    }
    n := Climb(f, P, s, 0, LengthOf(c, p));
  }

  lemma PassNext(c: Config, s: State, p: nat, k: nat) returns (n: nat)
    requires Uniform(c) && c.migrations != [] && c.migrations[0].createsTable
    requires StandsBefore(c, s, p, k) && k < LengthOf(c, p)
    ensures StandsBefore(c, Alone(c, s, p, n), p, k + 1)
  {
    var l :| StandsAt(c, s, p, l) && l.k == k;
    n := PassOne(c, s, p, l);
  }

  /** Connecting, locking, looking for the table and loading its rows. */
  lemma Opens(c: Config, s: State, p: nat) returns (n: nat)
    requires Uniform(c) && Good(c, s) && LengthOf(c, p) > 0
    requires s.shared.lock.None? && SessionOf(s, p) == FRESH
    ensures StandsBefore(c, Alone(c, s, p, n), p, 0)
  {
    assert Alone(c, s, p, 0) == s;
    var s1 := Proceeds(c, s, p, 0);
    assert SessionOf(s1, p) == Session(Connected, false, false, None);
    var s2 := Proceeds(c, s, p, 1);
    assert SessionOf(s2, p) == Session(Locked, false, false, None);
    var s3 := Proceeds(c, s, p, 2);
    var found := TableExists(s3.shared.effects);
    assert SessionOf(s3, p) == Session(TableSeen(found), false, false, None);
    var s4 := Proceeds(c, s, p, 3);
    assert StandsAt(c, s4, p, Loop(0, if found then s3.shared.records else [], [], []));
    return 4;
  }

  lemma Proceeds(c: Config, s: State, p: nat, n: nat) returns (t: State)
    requires Uniform(c) && Good(c, Alone(c, s, p, n))
    ensures t == Alone(c, s, p, n + 1) && t == Step(c, Alone(c, s, p, n), Next(p, Received)) && Good(c, t)
  {
    AloneNext(c, s, p, n);
    StepOk(c, Alone(c, s, p, n), Next(p, Received));
    return Step(c, Alone(c, s, p, n), Next(p, Received));
  }

  lemma Closes(c: Config, s: State, p: nat) returns (n: nat)
    requires Uniform(c) && StandsBefore(c, s, p, LengthOf(c, p))
    ensures Migrated(c, Alone(c, s, p, n), p)
  {
    assert Alone(c, s, p, 0) == s;
    assert SessionOk(c, s.shared.effects, s.shared.lock == Some(p), p, SessionOf(s, p));
    var l :| StandsAt(c, s, p, l) && l.k == LengthOf(c, p);
    var s1 := Proceeds(c, s, p, 0);
    assert SessionOf(s1, p) == Session(Unlocking(Returned(l.applied, l.skipped)), false, false, None);
    var s2 := Proceeds(c, s, p, 1);
    assert SessionOk(c, s2.shared.effects, s2.shared.lock == Some(p), p, SessionOf(s2, p));
    return 2;
  }

  ghost predicate Migrated(c: Config, s: State, p: nat) {
    && c.list(p) <= s.shared.effects
    && s.shared.lock.None?
    && SessionOf(s, p).client.Finished?
    && SessionOf(s, p).client.result.Returned?
  }

  ghost predicate Leads(f: State -> State, s: State, P: iset<State>) {
    exists n: nat :: Iterated(f, s, n) in P
  }

  lemma LeadsOn(f: State -> State, s: State, P: iset<State>, Q: iset<State>)
    requires Leads(f, s, P) && forall t | t in P :: Leads(f, t, Q)
    ensures Leads(f, s, Q)
  {
    var m: nat :| Iterated(f, s, m) in P;
    var n: nat :| Iterated(f, Iterated(f, s, m), n) in Q;
    IteratedSplit(f, s, m, n);
  }

  /**
   * Whatever happened before, a call that finds the lock free and is not interrupted returns,
   * with its migrations committed and the lock free again; provided the first migration of the
   * list creates the table of records.
   */
  lemma UninterruptedCallMigrates(c: Config, before: seq<Event>, p: nat) returns (n: nat)
    requires Uniform(c) && LengthOf(c, p) > 0 && c.migrations[0].createsTable
    requires var s := Run(c, before); s.shared.lock.None? && SessionOf(s, p) == FRESH
    ensures Migrated(c, Alone(c, Run(c, before), p, n), p)
  {
    AlwaysGood(c, before);
    n := Migrates(c, Run(c, before), p);
  }

  lemma Migrates(c: Config, s: State, p: nat) returns (n: nat)
    requires Uniform(c) && LengthOf(c, p) > 0 && c.migrations[0].createsTable
    requires Good(c, s) && s.shared.lock.None? && SessionOf(s, p) == FRESH
    ensures Migrated(c, Alone(c, s, p, n), p)
  {
    var f := CallStep(c, p);
    ghost var first := iset t | StandsBefore(c, t, p, 0);
    ghost var last := iset t | StandsBefore(c, t, p, LengthOf(c, p));
    ghost var end := iset t | Migrated(c, t, p);
    OpensLeads(c, s, p, first);
    PassAllLeads(c, p, first, last);
    ClosesLeads(c, p, last, end);
    LeadsOn(f, s, first, last);
    LeadsOn(f, s, last, end);
    n :| Iterated(f, s, n) in end;
  }

  lemma OpensLeads(c: Config, s: State, p: nat, first: iset<State>)
    requires Uniform(c) && LengthOf(c, p) > 0
    requires Good(c, s) && s.shared.lock.None? && SessionOf(s, p) == FRESH
    requires forall t :: t in first <==> StandsBefore(c, t, p, 0)
    ensures Leads(CallStep(c, p), s, first)
  {
    var n := Opens(c, s, p);
    assert Iterated(CallStep(c, p), s, n) in first;
  }

  lemma PassAllLeads(c: Config, p: nat, first: iset<State>, last: iset<State>)
    requires Uniform(c) && LengthOf(c, p) > 0 && c.migrations[0].createsTable
    requires forall t :: t in first <==> StandsBefore(c, t, p, 0)
    requires forall t :: t in last <==> StandsBefore(c, t, p, LengthOf(c, p))
    ensures forall t | t in first :: Leads(CallStep(c, p), t, last)
  {
    forall t | t in first
      ensures Leads(CallStep(c, p), t, last)
    {
      var n := PassAll(c, t, p);
      assert Iterated(CallStep(c, p), t, n) in last;
    }
  }

  lemma ClosesLeads(c: Config, p: nat, last: iset<State>, end: iset<State>)
    requires Uniform(c)
    requires forall t :: t in last <==> StandsBefore(c, t, p, LengthOf(c, p))
    requires forall t :: t in end <==> Migrated(c, t, p)
    ensures forall t | t in last :: Leads(CallStep(c, p), t, end)
  {
    forall t | t in last
      ensures Leads(CallStep(c, p), t, end)
    {
      var n := Closes(c, t, p);
      assert Iterated(CallStep(c, p), t, n) in end;
    }
  }
}
