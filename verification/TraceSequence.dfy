/**
 * The read side's check on a stored trace (packages/runtime-core/src/build-run-responses.ts):
 * its sequence numbers must be 0, 1, 2, … without a gap or a repetition.
 */
module TraceSequence {
  import opened Prelude
  import opened Traces
  import opened StableOrder

  /** How many records carry a sequence number. */
  function Count(trace: seq<TraceRecord>, k: int): nat {
    |WithKey(trace, k)|
  }

  /** The sequence numbers are a permutation of 0, …, n-1. */
  ghost predicate Complete(trace: seq<TraceRecord>) {
    forall k: int :: Count(trace, k) == if 0 <= k < |trace| then 1 else 0
  }

  /** A number that is there but negative, repeated, or above one that is missing. */
  ghost predicate Misplaced(trace: seq<TraceRecord>, v: int) {
    Count(trace, v) > 0 && (v < 0 || Count(trace, v) > 1 || exists u :: 0 <= u < v && Count(trace, u) == 0)
  }

  ghost predicate Numbered(trace: seq<TraceRecord>, n: nat) {
    n <= |trace| && forall i | 0 <= i < n :: trace[i].sequence == i
  }

  lemma {:induction false} CountNone(trace: seq<TraceRecord>, k: int)
    requires forall i | 0 <= i < |trace| :: trace[i].sequence != k
    ensures Count(trace, k) == 0
  {
    WithKeyEmpty(trace, k);
  }

  lemma {:induction false} CountOne(trace: seq<TraceRecord>, j: nat)
    requires j < |trace|
    requires forall i | 0 <= i < |trace| && i != j :: trace[i].sequence != trace[j].sequence
    ensures Count(trace, trace[j].sequence) == 1
  {
    if j == |trace| - 1 {
      CountNone(Front(trace), trace[j].sequence);
    } else {
      CountOne(Front(trace), j);
    }
  }

  lemma {:induction false} CountSome(trace: seq<TraceRecord>, j: nat)
    requires j < |trace|
    ensures Count(trace, trace[j].sequence) >= 1
  {
    if j < |trace| - 1 {
      CountSome(Front(trace), j);
    }
  }

  lemma {:induction false} CountTwo(trace: seq<TraceRecord>, i: nat, j: nat)
    requires i < j < |trace| && trace[i].sequence == trace[j].sequence
    ensures Count(trace, trace[j].sequence) >= 2
  {
    if j < |trace| - 1 {
      CountTwo(Front(trace), i, j);
    } else {
      CountSome(Front(trace), i);
    }
  }

  lemma NumberedIsComplete(trace: seq<TraceRecord>)
    requires Numbered(trace, |trace|)
    ensures Complete(trace)
  {
    forall k: int
      ensures Count(trace, k) == if 0 <= k < |trace| then 1 else 0
    {
      if 0 <= k < |trace| {
        CountOne(trace, k);
      } else {
        CountNone(trace, k);
      }
    }
  }

  ghost predicate Occurs(trace: seq<TraceRecord>, k: int) {
    exists r :: r in trace && r.sequence == k
  }

  /** Every number is below the length, and every number below the length occurs, once. */
  lemma CompleteMeans(trace: seq<TraceRecord>)
    ensures Complete(trace) <==>
      && (forall i | 0 <= i < |trace| :: 0 <= trace[i].sequence < |trace|)
      && (forall i, j | 0 <= i < j < |trace| :: trace[i].sequence != trace[j].sequence)
      && (forall k | 0 <= k < |trace| :: Occurs(trace, k))
  {
    if Complete(trace) {
      forall i | 0 <= i < |trace|
        ensures 0 <= trace[i].sequence < |trace|
      {
        CountSome(trace, i);
      }
      forall i, j | 0 <= i < j < |trace|
        ensures trace[i].sequence != trace[j].sequence
      {
        if trace[i].sequence == trace[j].sequence {
          CountTwo(trace, i, j);
        }
      }
      forall k | 0 <= k < |trace|
        ensures Occurs(trace, k)
      {
        assert Count(trace, k) == 1;
        WithKeyEmpty(trace, k);
        var i :| 0 <= i < |trace| && trace[i].sequence == k;
        assert trace[i] in trace;
      }
    } else {
      var k :| Count(trace, k) != if 0 <= k < |trace| then 1 else 0;
      if j :| 0 <= j < |trace| && trace[j].sequence == k {
        if forall i | 0 <= i < |trace| && i != j :: trace[i].sequence != k {
          CountOne(trace, j);
        }
      } else {
        CountNone(trace, k);
        assert forall r | r in trace :: r.sequence != k;
        assert !Occurs(trace, k);
      }
    }
  }

  /** The first record of an ascending trace that is out of place has the least misplaced number. */
  lemma FirstMisplaced(trace: seq<TraceRecord>, i: nat)
    requires Ascending(trace) && Numbered(trace, i)
    requires i < |trace| && trace[i].sequence != i
    ensures Misplaced(trace, trace[i].sequence)
    ensures forall w | w < trace[i].sequence :: !Misplaced(trace, w)
  {
    var v := trace[i].sequence;
    CountSome(trace, i);
    if 0 <= v < i {
      CountTwo(trace, v, i);
    } else if v > i {
      CountNone(trace, i);
    }
    forall w | w < v
      ensures !Misplaced(trace, w)
    {
      if Count(trace, w) > 0 {
        NotMisplaced(trace, i, w);
      }
    }
  }

  lemma NotMisplaced(trace: seq<TraceRecord>, i: nat, w: int)
    requires Ascending(trace) && Numbered(trace, i)
    requires i < |trace| && w < trace[i].sequence && Count(trace, w) > 0
    ensures !Misplaced(trace, w)
  {
    WithKeyEmpty(trace, w);
    var j :| 0 <= j < |trace| && trace[j].sequence == w;
    assert j < i;
    CountOne(trace, j);
    forall u | 0 <= u < w
      ensures Count(trace, u) != 0
    {
      CountSome(trace, u);
    }
  }

  ghost predicate LeastMisplaced(trace: seq<TraceRecord>, v: int) {
    Misplaced(trace, v) && forall w | w < v :: !Misplaced(trace, w)
  }

  lemma SortedCounts(trace: seq<TraceRecord>)
    ensures forall k: int :: Count(StableSort(trace), k) == Count(trace, k)
  {
    SortIsStable(trace);
  }

  lemma Accepts(trace: seq<TraceRecord>)
    requires Numbered(StableSort(trace), |StableSort(trace)|)
    ensures Complete(trace)
  {
    SortIsStable(trace);
    SortedCounts(trace);
    NumberedIsComplete(StableSort(trace));
  }

  lemma Rejects(trace: seq<TraceRecord>, i: nat)
    requires Numbered(StableSort(trace), i)
    requires i < |StableSort(trace)| && StableSort(trace)[i].sequence != i
    ensures !Complete(trace)
    ensures LeastMisplaced(trace, StableSort(trace)[i].sequence)
  {
    var v := StableSort(trace)[i].sequence;
    SortIsStable(trace);
    SortedCounts(trace);
    FirstMisplaced(StableSort(trace), i);
    assert Misplaced(trace, v);
    forall w | w < v
      ensures !Misplaced(trace, w)
    {
      assert !Misplaced(StableSort(trace), w);
    }
  }

  /**
   * Valid exactly when the sequence numbers are a permutation of 0, …, n-1; otherwise the number
   * reported is the least that is misplaced.
   */
  method ValidateTraceSequence(trace: seq<TraceRecord>) returns (sequenceValid: bool, invalidAtSequence: Option<int>)
    ensures sequenceValid <==> Complete(trace)
    ensures sequenceValid ==> forall k | 0 <= k < |trace| :: Occurs(trace, k)
    ensures sequenceValid <==> invalidAtSequence.None?
    ensures invalidAtSequence.Some? ==> LeastMisplaced(trace, invalidAtSequence.value)
  {
    var sorted := StableSort(trace);
    for i := 0 to |sorted|
      invariant Numbered(sorted, i)
    {
      if sorted[i].sequence != i {
        Rejects(trace, i);
        return false, Some(sorted[i].sequence);
      }
    }
    Accepts(trace);
    CompleteMeans(trace);
    return true, None;
  }
}
