/**
 * Sorting object members by key in UTF-16 code unit order (RFC 8785, section 3.2.3).
 */
module KeyOrder {
  import opened Utf16Text

  /** One member of an object: a key with what it is bound to. */
  datatype Entry<V> = Entry(key: Text, val: V)

  predicate Less(a: Text, b: Text) {
    b != [] && (a == [] || a[0] < b[0] || (a[0] == b[0] && Less(a[1..], b[1..])))
  }

  lemma {:induction false} LessTotal(a: Text, b: Text)
    ensures a == b || Less(a, b) || Less(b, a)
  {
    if a != [] && b != [] && a[0] == b[0] {
      LessTotal(a[1..], b[1..]);
      assert a == [a[0]] + a[1..] && b == [b[0]] + b[1..];
    }
  }

  lemma {:induction false} LessIrreflexive(a: Text)
    ensures !Less(a, a)
  {
    if a != [] {
      LessIrreflexive(a[1..]);
    }
  }

  lemma {:induction false} LessTransitive(a: Text, b: Text, c: Text)
    requires Less(a, b) && Less(b, c)
    ensures Less(a, c)
  {
    if a != [] && a[0] == b[0] && b[0] == c[0] {
      LessTransitive(a[1..], b[1..], c[1..]);
    }
  }

  /** Keys ascend: behind what they share, the first has ended or goes on with the smaller unit. */
  ghost predicate Ascend(a: Text, b: Text) {
    exists k: nat :: k <= |a| && k < |b| && a[..k] == b[..k] && (k == |a| || a[k] < b[k])
  }

  lemma {:induction false} LessAscends(a: Text, b: Text) returns (k: nat)
    requires Less(a, b)
    ensures k <= |a| && k < |b| && a[..k] == b[..k] && (k == |a| || a[k] < b[k])
  {
    if a == [] || a[0] < b[0] {
      return 0;
    }
    var rest := LessAscends(a[1..], b[1..]);
    k := rest + 1;
    assert a[..k] == [a[0]] + a[1..][..rest] && b[..k] == [b[0]] + b[1..][..rest];
  }

  lemma {:induction false} AscendingIsLess(a: Text, b: Text, k: nat)
    requires k <= |a| && k < |b| && a[..k] == b[..k] && (k == |a| || a[k] < b[k])
    ensures Less(a, b)
  {
    if k > 0 {
      assert a[0] == a[..k][0] == b[..k][0] == b[0];
      assert a[1..][..k - 1] == a[..k][1..] && b[1..][..k - 1] == b[..k][1..];
      AscendingIsLess(a[1..], b[1..], k - 1);
    }
  }

  /** The order is that of the first unit in which the keys differ, and a key comes before its continuations. */
  lemma LessMeans(a: Text, b: Text)
    ensures Less(a, b) <==> exists k: nat :: k <= |a| && k < |b| && a[..k] == b[..k] && (k == |a| || a[k] < b[k])
    ensures Less(a, b) <==> Ascend(a, b)
  {
    if Less(a, b) {
      var k := LessAscends(a, b);
      assert a[..k] == b[..k];
    }
    forall k: nat | k <= |a| && k < |b| && a[..k] == b[..k] && (k == |a| || a[k] < b[k])
      ensures Less(a, b)
    {
      AscendingIsLess(a, b, k);
    }
  }

  ghost predicate DistinctKeys<V>(es: seq<Entry<V>>) {
    forall i, j | 0 <= i < j < |es| :: es[i].key != es[j].key
  }

  ghost predicate Sorted<V>(es: seq<Entry<V>>) {
    forall i, j | 0 <= i < j < |es| :: Less(es[i].key, es[j].key)
  }

  ghost predicate AllAscend<V>(es: seq<Entry<V>>) {
    forall i, j | 0 <= i < j < |es| :: Ascend(es[i].key, es[j].key)
  }

  lemma SortedAscends<V>(es: seq<Entry<V>>)
    ensures Sorted(es) <==> AllAscend(es)
  {
    forall i, j | 0 <= i < j < |es|
      ensures Less(es[i].key, es[j].key) <==> Ascend(es[i].key, es[j].key)
    {
      LessMeans(es[i].key, es[j].key);
    }
  }

  function Insert<V>(e: Entry<V>, es: seq<Entry<V>>): (r: seq<Entry<V>>)
    ensures multiset(r) == multiset(es) + multiset{e}
    ensures |r| == |es| + 1
  {
    if es == [] || !Less(es[0].key, e.key) then [e] + es
    else
      assert es == [es[0]] + es[1..];
      [es[0]] + Insert(e, es[1..])
  }

  function SortByKey<V>(es: seq<Entry<V>>): (r: seq<Entry<V>>)
    ensures multiset(r) == multiset(es)
    ensures |r| == |es|
  {
    if es == [] then []
    else
      assert es == [es[0]] + es[1..];
      Insert(es[0], SortByKey(es[1..]))
  }

  lemma SameMembers<V>(es: seq<Entry<V>>, e: Entry<V>)
    ensures e in SortByKey(es) <==> e in es
  {
    assert e in SortByKey(es) <==> e in multiset(SortByKey(es));
    assert e in es <==> e in multiset(es);
  }

  lemma {:induction false} InsertSorted<V>(e: Entry<V>, es: seq<Entry<V>>)
    requires Sorted(es)
    requires forall x | x in es :: x.key != e.key
    ensures Sorted(Insert(e, es))
  {
    if es != [] && Less(es[0].key, e.key) {
      InsertSorted(e, es[1..]);
      var tail := Insert(e, es[1..]);
      forall j | 0 <= j < |tail|
        ensures Less(es[0].key, tail[j].key)
      {
        assert tail[j] in multiset(tail);
        assert tail[j] == e || tail[j] in es[1..];
      }
    } else if es != [] {
      LessTotal(es[0].key, e.key);
      assert es[0] in es;
      forall j | 0 <= j < |es|
        ensures Less(e.key, es[j].key)
      {
        if j > 0 {
          LessTransitive(e.key, es[0].key, es[j].key);
        }
      }
    }
  }

  /** Sorting members with distinct keys gives them in strictly increasing key order. */
  lemma {:induction false} SortByKeySorts<V>(es: seq<Entry<V>>)
    requires DistinctKeys(es)
    ensures Sorted(SortByKey(es))
    ensures AllAscend(SortByKey(es))
  {
    if es != [] {
      SortByKeySorts(es[1..]);
      forall x | x in SortByKey(es[1..])
        ensures x.key != es[0].key
      {
        SameMembers(es[1..], x);
      }
      InsertSorted(es[0], SortByKey(es[1..]));
      SortedAscends(SortByKey(es));
    }
  }

  /** A strictly sorted list is determined by its members. */
  lemma {:induction false} SortedUnique<V>(a: seq<Entry<V>>, b: seq<Entry<V>>)
    requires Sorted(a) && Sorted(b)
    requires forall e :: e in a <==> e in b
    ensures a == b
  {
    NonEmptyToo(a, b);
    NonEmptyToo(b, a);
    if a != [] {
      assert a[0] in b;
      assert b[0] in a;
      LeastFirst(a, b[0]);
      LeastFirst(b, a[0]);
      if a[0] != b[0] {
        LessTransitive(a[0].key, b[0].key, a[0].key);
        LessIrreflexive(a[0].key);
      }
      forall e
        ensures e in a[1..] <==> e in b[1..]
      {
        TailMember(a, e);
        TailMember(b, e);
      }
      SortedUnique(a[1..], b[1..]);
      assert a == [a[0]] + a[1..] && b == [b[0]] + b[1..];
    }
  }

  lemma NonEmptyToo<V>(a: seq<Entry<V>>, b: seq<Entry<V>>)
    requires forall e | e in a :: e in b
    ensures a != [] ==> b != []
  {
    if a != [] {
      assert a[0] in b;
    }
  }

  lemma LeastFirst<V>(es: seq<Entry<V>>, e: Entry<V>)
    requires Sorted(es) && e in es
    ensures e == es[0] || Less(es[0].key, e.key)
  {
    var i :| 0 <= i < |es| && es[i] == e;
  }

  lemma TailMember<V>(es: seq<Entry<V>>, e: Entry<V>)
    requires Sorted(es) && es != []
    ensures e in es[1..] <==> e in es && e != es[0]
  {
    if e in es[1..] {
      var i :| 1 <= i < |es| && es[i] == e;
      LessIrreflexive(e.key);
    }
  }
}
