/**
 * The host's array sort of trace records by sequence number: ascending and stable. `StableUnique`
 * shows that these two facts determine the result.
 */
module StableOrder {
  import opened Prelude
  import opened Traces

  /** The elements with one key, in their order. */
  function WithKey(xs: seq<TraceRecord>, k: int): seq<TraceRecord> {
    if xs == [] then [] else WithKey(Front(xs), k) + if Last(xs).sequence == k then [Last(xs)] else []
  }

  ghost predicate Ascending(xs: seq<TraceRecord>) {
    forall i, j | 0 <= i < j < |xs| :: xs[i].sequence <= xs[j].sequence
  }

  /** Behind every element that is not greater. */
  function Insert(xs: seq<TraceRecord>, x: TraceRecord): seq<TraceRecord> {
    if xs == [] || Last(xs).sequence <= x.sequence then xs + [x] else Insert(Front(xs), x) + [Last(xs)]
  }

  function StableSort(xs: seq<TraceRecord>): seq<TraceRecord> {
    if xs == [] then [] else Insert(StableSort(Front(xs)), Last(xs))
  }

  lemma {:induction false} InsertElements(xs: seq<TraceRecord>, x: TraceRecord, y: TraceRecord)
    ensures y in Insert(xs, x) <==> y in xs || y == x
  {
    if xs != [] && Last(xs).sequence > x.sequence {
      InsertElements(Front(xs), x, y);
      FrontLast(xs);
      assert y in xs <==> y in Front(xs) + [Last(xs)];
    }
  }

  lemma {:induction false} InsertKeepsOrder(xs: seq<TraceRecord>, x: TraceRecord)
    requires Ascending(xs)
    ensures Ascending(Insert(xs, x))
    ensures |Insert(xs, x)| == |xs| + 1
  {
    if xs != [] && Last(xs).sequence > x.sequence {
      InsertKeepsOrder(Front(xs), x);
      LastIsGreatest(xs);
      var r := Insert(Front(xs), x);
      forall i | 0 <= i < |r|
        ensures r[i].sequence <= Last(xs).sequence
      {
        InsertElements(Front(xs), x, r[i]);
        assert r[i] in r;
        if r[i] in Front(xs) {
          assert r[i] in xs;
        }
      }
    }
  }

  lemma LastIsGreatest(xs: seq<TraceRecord>)
    requires Ascending(xs) && xs != []
    ensures forall y | y in xs :: y.sequence <= Last(xs).sequence
  {
    forall i | 0 <= i < |xs|
      ensures xs[i].sequence <= Last(xs).sequence
    {
    }
  }

  lemma {:induction false} InsertIsStable(xs: seq<TraceRecord>, x: TraceRecord, k: int)
    requires Ascending(xs)
    ensures WithKey(Insert(xs, x), k) == WithKey(xs, k) + if x.sequence == k then [x] else []
  {
    if xs == [] || Last(xs).sequence <= x.sequence {
      FrontLastSnoc(xs, x);
    } else {
      InsertIsStable(Front(xs), x, k);
      FrontLastSnoc(Insert(Front(xs), x), Last(xs));
    }
  }

  /** Sorting gives an ascending sequence of the same elements, equal keys in their old order. */
  lemma {:induction false} SortIsStable(xs: seq<TraceRecord>)
    ensures Ascending(StableSort(xs))
    ensures forall k :: WithKey(StableSort(xs), k) == WithKey(xs, k)
    ensures |StableSort(xs)| == |xs|
  {
    if xs != [] {
      var before := StableSort(Front(xs));
      SortIsStable(Front(xs));
      FrontLast(xs);
      InsertKeepsOrder(before, Last(xs));
      forall k
        ensures WithKey(StableSort(xs), k) == WithKey(xs, k)
      {
        InsertIsStable(before, Last(xs), k);
      }
    }
  }

  lemma {:induction false} SortKeepsMembers(xs: seq<TraceRecord>)
    ensures forall r :: r in StableSort(xs) <==> r in xs
  {
    if xs != [] {
      SortKeepsMembers(Front(xs));
      FrontLast(xs);
      forall r
        ensures r in StableSort(xs) <==> r in xs
      {
        InsertElements(StableSort(Front(xs)), Last(xs), r);
        assert r in xs <==> r in Front(xs) + [Last(xs)];
      }
    }
  }

  lemma {:induction false} WithKeyEmpty(xs: seq<TraceRecord>, k: int)
    ensures WithKey(xs, k) == [] <==> forall i | 0 <= i < |xs| :: xs[i].sequence != k
  {
    if xs != [] {
      WithKeyEmpty(Front(xs), k);
      assert xs[|xs| - 1].sequence == k ==> WithKey(xs, k) != [];
    }
  }

  lemma LastWithKey(xs: seq<TraceRecord>)
    requires xs != []
    ensures WithKey(xs, Last(xs).sequence) != []
    ensures Last(WithKey(xs, Last(xs).sequence)) == Last(xs)
  {
  }

  lemma KeyAtMostLast(xs: seq<TraceRecord>, k: int)
    requires Ascending(xs) && WithKey(xs, k) != []
    ensures xs != [] && k <= Last(xs).sequence
  {
    WithKeyEmpty(xs, k);
  }

  lemma SameLast(xs: seq<TraceRecord>, ys: seq<TraceRecord>)
    requires Ascending(xs) && Ascending(ys)
    requires forall k :: WithKey(xs, k) == WithKey(ys, k)
    requires xs != []
    ensures ys != [] && Last(xs) == Last(ys)
  {
    LastWithKey(xs);
    KeyAtMostLast(ys, Last(xs).sequence);
    LastWithKey(ys);
    KeyAtMostLast(xs, Last(ys).sequence);
  }

  /** An ascending sequence is determined by the elements with each key and their order. */
  lemma {:induction false} StableUnique(xs: seq<TraceRecord>, ys: seq<TraceRecord>)
    requires Ascending(xs) && Ascending(ys)
    requires forall k :: WithKey(xs, k) == WithKey(ys, k)
    ensures xs == ys
  {
    if xs == [] {
      if ys != [] {
        SameLast(ys, xs);
      }
    } else {
      SameLast(xs, ys);
      forall k
        ensures WithKey(Front(xs), k) == WithKey(Front(ys), k)
      {
        var last := if Last(xs).sequence == k then [Last(xs)] else [];
        assert WithKey(xs, k) == WithKey(Front(xs), k) + last;
        assert WithKey(ys, k) == WithKey(Front(ys), k) + last;
        SameFront(WithKey(Front(xs), k), WithKey(Front(ys), k), last);
      }
      StableUnique(Front(xs), Front(ys));
      FrontLast(xs);
      FrontLast(ys);
    }
  }

  lemma SameFront(a: seq<TraceRecord>, b: seq<TraceRecord>, c: seq<TraceRecord>)
    requires a + c == b + c
    ensures a == b
  {
    assert |a| == |b|;
    assert a == (a + c)[..|a|] && b == (b + c)[..|b|];
  }

  lemma WithKeySnoc(xs: seq<TraceRecord>, x: TraceRecord, k: int)
    ensures WithKey(xs + [x], k) == WithKey(xs, k) + if x.sequence == k then [x] else []
  {
    FrontLastSnoc(xs, x);
  }

  /** A sequence sorts to the ascending one with the same elements of each key. */
  lemma SortsTo(xs: seq<TraceRecord>, ys: seq<TraceRecord>)
    requires Ascending(ys)
    requires forall k :: WithKey(xs, k) == WithKey(ys, k)
    ensures StableSort(xs) == ys
  {
    SortIsStable(xs);
    StableUnique(StableSort(xs), ys);
  }

  /** Sorting once more after an element was added to a sorted sequence is the same as sorting once. */
  lemma SortAgain(xs: seq<TraceRecord>, x: TraceRecord)
    ensures StableSort(StableSort(xs) + [x]) == StableSort(xs + [x])
  {
    SortIsStable(xs);
    SortIsStable(xs + [x]);
    forall k
      ensures WithKey(StableSort(xs) + [x], k) == WithKey(StableSort(xs + [x]), k)
    {
      WithKeySnoc(StableSort(xs), x, k);
      WithKeySnoc(xs, x, k);
    }
    SortsTo(StableSort(xs) + [x], StableSort(xs + [x]));
  }
}
