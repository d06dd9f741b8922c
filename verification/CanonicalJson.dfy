/**
 * Canonical JSON text (packages/canonical-json): which values are accepted, the serializer,
 * a JSON reader, and the proof that the text is a faithful fingerprint of the value.
 */
module CanonicalJson {
  import opened Prelude
  import opened Utf16Text
  import opened JsonSyntax
  import opened KeyOrder

  /**
   * A host value. Numbers are integers or not finite; `Other` stands for what has no JSON
   * form (`undefined`, a function, a symbol, a big integer). An object lists its members in
   * insertion order.
   */
  datatype Value =
    | Null
    | Bool(b: bool)
    | Num(n: int)
    | NonFinite
    | Str(s: Text)
    | Arr(items: seq<Value>)
    | Obj(fields: seq<Entry<Value>>)
    | Other

  const MAX_SAFE_INTEGER: int := 0x1F_FFFF_FFFF_FFFF

  /** What the host guarantees of its objects: no key twice. */
  ghost predicate WellFormed(v: Value) {
    match v
    case Arr(items) => forall i | 0 <= i < |items| :: WellFormed(items[i])
    case Obj(fields) => DistinctKeys(fields) && forall i | 0 <= i < |fields| :: WellFormed(fields[i].val)
    case _ => true
  }

  // ---------------------------------------------------------------- acceptance

  datatype Reason = LoneSurrogate | NotFinite | UnsafeInteger | Unsupported
  datatype Step = Index(i: nat) | Member(key: Text)
  datatype CanonicalizationError = CanonicalizationError(reason: Reason, path: seq<Step>)

  /** The value is by itself, without its parts, one that has no canonical text, for this reason. */
  ghost predicate Offends(v: Value, reason: Reason) {
    match reason
    case LoneSurrogate => v.Str? && !WellPaired(v.s)
    case NotFinite => v.NonFinite?
    case UnsafeInteger => v.Num? && (v.n > MAX_SAFE_INTEGER || -v.n > MAX_SAFE_INTEGER)
    case Unsupported => v.Other?
  }

  /** `part` is what the path leads to inside `v`. */
  ghost predicate Leads(v: Value, path: seq<Step>, part: Value)
    decreases path
  {
    if path == [] then part == v
    else
      match path[0]
      case Index(i) => v.Arr? && i < |v.items| && Leads(v.items[i], path[1..], part)
      case Member(k) => v.Obj? && exists j | 0 <= j < |v.fields| ::
          v.fields[j].key == k && Leads(v.fields[j].val, path[1..], part)
  }

  /** No part of the value offends. Object keys are not looked at. */
  ghost predicate Accepted(v: Value) {
    && (forall reason :: !Offends(v, reason))
    && match v
       case Arr(items) => forall i | 0 <= i < |items| :: Accepted(items[i])
       case Obj(fields) => forall i | 0 <= i < |fields| :: Accepted(fields[i].val)
       case _ => true
  }

  /** What is refused and why, by kind of value: integers beyond 2^53 - 1, strings with a lone surrogate, and what is no JSON. */
  lemma OffencesByKind(v: Value, reason: Reason)
    ensures Offends(v, reason) <==>
      match v
      case Num(n) => reason == UnsafeInteger && !(-9007199254740991 <= n <= 9007199254740991)
      case NonFinite => reason == NotFinite
      case Str(s) => reason == LoneSurrogate && exists i: nat :: i < |s| && Lone(s, i)
      case Other => reason == Unsupported
      case _ => false
  {
    if v.Str? {
      WellPairedHasNoLone(v.s);
    }
  }

  method CheckPairs(s: Text) returns (ok: bool)
    ensures ok <==> WellPaired(s)
    ensures ok <==> forall i: nat | i < |s| :: !Lone(s, i)
  {
    WellPairedHasNoLone(s);
    var i := 0;
    while i < |s|
      invariant 0 <= i <= |s|
      invariant forall k | 0 <= k < i :: IsHigh(s[k]) ==> k + 1 < i && IsLow(s[k + 1])
      invariant forall k | 0 <= k < i :: IsLow(s[k]) ==> 0 < k && IsHigh(s[k - 1])
    {
      if IsSurrogate(s[i]) {
        var pairOk := IsHigh(s[i]) && i + 1 < |s| && IsLow(s[i + 1]);
        if !pairOk {
          // a low surrogate here follows no high one: that one would have been skipped over
          assert 0 < i ==> !IsHigh(s[i - 1]);
          assert !PairedAt(s, i);
          return false;
        }
        i := i + 1;
      }
      i := i + 1;
    }
    return true;
  }

  /**
   * The check that runs before serialization. It reports a part that offends, with the path
   * that leads there, exactly when there is one.
   */
  method AssertCanonicalizable(v: Value, path: seq<Step>) returns (error: Option<CanonicalizationError>)
    ensures error.None? <==> Accepted(v)
    ensures error.Some? ==> exists part ::
      && path <= error.value.path
      && Leads(v, error.value.path[|path|..], part)
      && Offends(part, error.value.reason)
    decreases v
  {
    match v {
      case Null => return None;
      case Bool(_) => return None;
      case Str(s) =>
        var ok := CheckPairs(s);
        if !ok {
          assert Offends(v, LoneSurrogate) && Leads(v, [], v);
          return Some(CanonicalizationError(LoneSurrogate, path));
        }
        return None;
      case NonFinite =>
        assert Offends(v, NotFinite) && Leads(v, [], v);
        return Some(CanonicalizationError(NotFinite, path));
      case Num(n) =>
        if (if n < 0 then -n else n) > MAX_SAFE_INTEGER {
          assert Offends(v, UnsafeInteger) && Leads(v, [], v);
          return Some(CanonicalizationError(UnsafeInteger, path));
        }
        return None;
      case Other =>
        assert Offends(v, Unsupported) && Leads(v, [], v);
        return Some(CanonicalizationError(Unsupported, path));
      case Arr(items) =>
        for i := 0 to |items|
          invariant forall k | 0 <= k < i :: Accepted(items[k])
        {
          error := AssertCanonicalizable(items[i], path + [Index(i)]);
          if error.Some? {
            PathExtends(v, path, Index(i), items[i], error.value);
            return;
          }
        }
        return None;
      case Obj(fields) =>
        for i := 0 to |fields|
          invariant forall k | 0 <= k < i :: Accepted(fields[k].val)
        {
          error := AssertCanonicalizable(fields[i].val, path + [Member(fields[i].key)]);
          if error.Some? {
            PathExtends(v, path, Member(fields[i].key), fields[i].val, error.value);
            return;
          }
        }
        return None;
    }
  }

  lemma PathExtends(v: Value, path: seq<Step>, step: Step, child: Value, error: CanonicalizationError)
    requires step.Index? ==> v.Arr? && step.i < |v.items| && v.items[step.i] == child
    requires step.Member? ==> v.Obj? && exists j | 0 <= j < |v.fields| :: v.fields[j] == Entry(step.key, child)
    requires exists part ::
      && path + [step] <= error.path
      && Leads(child, error.path[|path| + 1..], part)
      && Offends(part, error.reason)
    ensures exists part ::
      && path <= error.path
      && Leads(v, error.path[|path|..], part)
      && Offends(part, error.reason)
  {
    var part :| path + [step] <= error.path && Leads(child, error.path[|path| + 1..], part) && Offends(part, error.reason);
    var rest := error.path[|path|..];
    assert error.path[..|path| + 1] == path + [step];
    assert rest[0] == error.path[|path|] == step;
    assert rest[1..] == error.path[|path| + 1..];
    assert Leads(v, rest, part);
  }

  // ---------------------------------------------------------------- serialization

  const COMMA: Unit := 0x2C
  const COLON: Unit := 0x3A
  const LBRACKET: Unit := 0x5B
  const RBRACKET: Unit := 0x5D
  const LBRACE: Unit := 0x7B
  const RBRACE: Unit := 0x7D
  const NULL_TEXT: Text := [0x6E, 0x75, 0x6C, 0x6C]
  const TRUE_TEXT: Text := [0x74, 0x72, 0x75, 0x65]
  const FALSE_TEXT: Text := [0x66, 0x61, 0x6C, 0x73, 0x65]

  /** The parts with a comma between neighbours. */
  function Join(parts: seq<Text>): Text {
    if parts == [] then []
    else if |parts| == 1 then parts[0]
    else parts[0] + [COMMA] + Join(parts[1..])
  }

  function Members(es: seq<Entry<Text>>): (parts: seq<Text>)
    ensures |parts| == |es|
    ensures forall i | 0 <= i < |es| :: parts[i] == Quote(es[i].key) + [COLON] + es[i].val
  {
    if es == [] then [] else [Quote(es[0].key) + [COLON] + es[0].val] + Members(es[1..])
  }

  /** The canonical text. Values that the check refuses never get here. */
  function Serialize(v: Value): Text
    decreases v
  {
    match v
    case Null => NULL_TEXT
    case Bool(b) => if b then TRUE_TEXT else FALSE_TEXT
    case Num(n) => PrintInt(n)
    case NonFinite => NULL_TEXT
    case Str(s) => Quote(s)
    case Arr(items) => [LBRACKET] + Join(SerializeItems(items)) + [RBRACKET]
    case Obj(fields) => [LBRACE] + Join(Members(SortByKey(SerializeFields(fields)))) + [RBRACE]
    case Other => []
  }

  function SerializeItems(items: seq<Value>): (parts: seq<Text>)
    ensures |parts| == |items|
    ensures forall i | 0 <= i < |items| :: parts[i] == Serialize(items[i])
    decreases items
  {
    if items == [] then [] else [Serialize(items[0])] + SerializeItems(items[1..])
  }

  function SerializeFields(fields: seq<Entry<Value>>): (es: seq<Entry<Text>>)
    ensures |es| == |fields|
    ensures forall i | 0 <= i < |fields| :: es[i] == Entry(fields[i].key, Serialize(fields[i].val))
    decreases fields
  {
    if fields == [] then []
    else [Entry(fields[0].key, Serialize(fields[0].val))] + SerializeFields(fields[1..])
  }

  lemma {:induction false} InsertCommutes(e: Entry<Value>, es: seq<Entry<Value>>)
    ensures SerializeFields(Insert(e, es)) == Insert(Entry(e.key, Serialize(e.val)), SerializeFields(es))
  {
    if es != [] && Less(es[0].key, e.key) {
      InsertCommutes(e, es[1..]);
      assert SerializeFields(es)[1..] == SerializeFields(es[1..]);
    }
  }

  /** Sorting the members and then writing them is writing them and then sorting. */
  lemma {:induction false} SortCommutes(fields: seq<Entry<Value>>)
    ensures SerializeFields(SortByKey(fields)) == SortByKey(SerializeFields(fields))
  {
    if fields != [] {
      SortCommutes(fields[1..]);
      InsertCommutes(fields[0], SortByKey(fields[1..]));
      assert SerializeFields(fields)[1..] == SerializeFields(fields[1..]);
    }
  }

  // ---------------------------------------------------------------- the text in numbers

  /** The parts with a comma between neighbours, from the last one. */
  ghost function Listed(parts: seq<Text>): Text {
    if parts == [] then [] else if |parts| == 1 then parts[0] else Listed(Front(parts)) + [44] + Last(parts)
  }

  /**
   * `t` is the canonical text of `v`: null, true, false, decimal integers, strings in quotes, items
   * between brackets and members between braces, without white space.
   */
  ghost predicate Writes(v: Value, t: Text)
    decreases v
  {
    match v
    case Null => t == [110, 117, 108, 108]
    case Bool(b) => t == if b then [116, 114, 117, 101] else [102, 97, 108, 115, 101]
    case Num(n) => -9007199254740991 <= n <= 9007199254740991 && IsInteger(t, n)
    case Str(s) => (forall i: nat | i < |s| :: !Lone(s, i)) && IsString(t, s)
    case Arr(items) => exists parts :: WritesItems(items, parts) && t == [91] + Listed(parts) + [93]
    case Obj(fields) => exists es, parts :: WritesMembers(fields, es, parts) && t == [123] + Listed(parts) + [125]
    case NonFinite => false
    case Other => false
  }

  ghost predicate WritesItems(items: seq<Value>, parts: seq<Text>)
    decreases items
  {
    |parts| == |items| && forall i | 0 <= i < |items| :: Writes(items[i], parts[i])
  }

  /** Every member once, with keys that ascend. */
  ghost predicate WritesMembers(fields: seq<Entry<Value>>, es: seq<Entry<Value>>, parts: seq<Text>)
    decreases fields
  {
    && multiset(es) == multiset(fields) && AllAscend(es)
    && |parts| == |es|
    && forall i | 0 <= i < |es| :: es[i] in fields && WritesMember(es[i], parts[i])
  }

  /** The key as a string, a colon, and the value. */
  ghost predicate WritesMember(e: Entry<Value>, part: Text)
    decreases e
  {
    exists key, val :: IsString(key, e.key) && Writes(e.val, val) && part == key + [58] + val
  }

  lemma {:induction false} JoinSnoc(parts: seq<Text>, last: Text)
    requires parts != []
    ensures Join(parts + [last]) == Join(parts) + [44] + last
  {
    if |parts| > 1 {
      JoinSnoc(parts[1..], last);
      assert (parts + [last])[1..] == parts[1..] + [last];
      var head, mid := parts[0] + [44], Join(parts[1..]);
      Assoc(head, mid, [44]);
      Assoc(head, mid + [44], last);
    }
  }

  lemma {:induction false} JoinIsListed(parts: seq<Text>)
    ensures Join(parts) == Listed(parts)
  {
    if |parts| > 1 {
      JoinIsListed(Front(parts));
      JoinSnoc(Front(parts), Last(parts));
      FrontLast(parts);
    }
  }

  lemma MemberWritten(e: Entry<Value>)
    requires Writes(e.val, Serialize(e.val))
    ensures WritesMember(e, Quote(e.key) + [58] + Serialize(e.val))
  {
    QuoteIsString(e.key);
  }

  lemma ItemsWritten(items: seq<Value>)
    requires forall i | 0 <= i < |items| :: Writes(items[i], Serialize(items[i]))
    ensures Writes(Arr(items), Serialize(Arr(items)))
  {
    var parts := SerializeItems(items);
    JoinIsListed(parts);
    assert WritesItems(items, parts);
  }

  lemma FieldsWritten(fields: seq<Entry<Value>>)
    requires DistinctKeys(fields)
    requires forall e | e in fields :: Writes(e.val, Serialize(e.val))
    ensures Writes(Obj(fields), Serialize(Obj(fields)))
  {
    var es := SortByKey(fields);
    var parts := Members(SerializeFields(es));
    SortByKeySorts(fields);
    SortCommutes(fields);
    JoinIsListed(parts);
    forall i | 0 <= i < |es|
      ensures es[i] in fields && WritesMember(es[i], parts[i])
    {
      SameMembers(fields, es[i]);
      MemberWritten(es[i]);
    }
    assert WritesMembers(fields, es, parts);
  }

  /** What is serialized is the canonical text, with the members of every object in ascending order of their keys. */
  lemma {:induction false} SerializeWrites(v: Value)
    requires WellFormed(v) && Accepted(v)
    ensures Writes(v, Serialize(v))
    decreases v
  {
    forall reason
      ensures !Offends(v, reason)
    {
    }
    match v {
      case Num(n) =>
        PrintIntIsInteger(n);
        OffencesByKind(v, UnsafeInteger);
      case Str(s) =>
        QuoteIsString(s);
        OffencesByKind(v, LoneSurrogate);
      case Arr(items) =>
        forall i | 0 <= i < |items|
          ensures Writes(items[i], Serialize(items[i]))
        {
          SerializeWrites(items[i]);
        }
        ItemsWritten(items);
      case Obj(fields) =>
        forall e | e in fields
          ensures Writes(e.val, Serialize(e.val))
        {
          var i :| 0 <= i < |fields| && fields[i] == e;
          SerializeWrites(fields[i].val);
        }
        FieldsWritten(fields);
      case NonFinite => OffencesByKind(v, NotFinite);
      case Other => OffencesByKind(v, Unsupported);
      case _ =>
    }
  }

  /** The recursive serializer. */
  method CanonicalSerialize(v: Value) returns (t: Text)
    ensures t == Serialize(v)
    ensures WellFormed(v) && Accepted(v) ==> Writes(v, t)
    decreases v, 1
  {
    match v {
      case Null => t := NULL_TEXT;
      case Bool(b) => t := if b then TRUE_TEXT else FALSE_TEXT;
      case Num(n) => t := PrintInt(n);
      case NonFinite => t := NULL_TEXT;
      case Str(s) => t := Quote(s);
      case Other => t := [];
      case Arr(items) => t := SerializeArray(items);
      case Obj(fields) => t := SerializeObject(fields);
    }
    if WellFormed(v) && Accepted(v) {
      SerializeWrites(v);
    }
  }

  /** The items in order. */
  method SerializeArray(items: seq<Value>) returns (t: Text)
    ensures t == Serialize(Arr(items))
    decreases items
  {
    var parts: seq<Text> := [];
    for i := 0 to |items|
      invariant |parts| == i && forall k | 0 <= k < i :: parts[k] == Serialize(items[k])
    {
      var part := CanonicalSerialize(items[i]);
      parts := parts + [part];
    }
    assert parts == SerializeItems(items);
    return [LBRACKET] + Join(parts) + [RBRACKET];
  }

  lemma ObjectText(fields: seq<Entry<Value>>, parts: seq<Text>)
    requires var sorted := SortByKey(fields);
      |parts| == |sorted| && forall k | 0 <= k < |sorted| :: parts[k] == Quote(sorted[k].key) + [COLON] + Serialize(sorted[k].val)
    ensures [LBRACE] + Join(parts) + [RBRACE] == Serialize(Obj(fields))
  {
    SortCommutes(fields);
    assert parts == Members(SerializeFields(SortByKey(fields)));
  }

  method SerializeMember(e: Entry<Value>) returns (part: Text)
    ensures part == Quote(e.key) + [COLON] + Serialize(e.val)
    decreases e
  {
    var val := CanonicalSerialize(e.val);
    part := Quote(e.key) + [COLON] + val;
  }

  /** The loop over the sorted members. */
  method SerializeMembers(sorted: seq<Entry<Value>>, ghost fields: seq<Entry<Value>>) returns (parts: seq<Text>)
    requires forall e | e in sorted :: e in fields
    ensures |parts| == |sorted|
    ensures forall k | 0 <= k < |sorted| :: parts[k] == Quote(sorted[k].key) + [COLON] + Serialize(sorted[k].val)
    decreases fields, 0
  {
    parts := [];
    for i := 0 to |sorted|
      invariant |parts| == i
      invariant forall k | 0 <= k < i :: parts[k] == Quote(sorted[k].key) + [COLON] + Serialize(sorted[k].val)
    {
      assert sorted[i] in fields;
      var part := SerializeMember(sorted[i]);
      parts := parts + [part];
    }
  }

  method SerializeObject(fields: seq<Entry<Value>>) returns (t: Text)
    ensures t == Serialize(Obj(fields))
    decreases fields, 1
  {
    var sorted := SortByKey(fields);
    forall e | e in sorted
      ensures e in fields
    {
      SameMembers(fields, e);
    }
    var parts := SerializeMembers(sorted, fields);
    ObjectText(fields, parts);
    return [LBRACE] + Join(parts) + [RBRACE];
  }

  datatype Outcome = Canonical(text: Text) | Refused(error: CanonicalizationError)

  method Canonicalize(v: Value) returns (r: Outcome)
    ensures r.Canonical? <==> Accepted(v)
    ensures r.Canonical? ==> r.text == Serialize(v)
    ensures r.Canonical? && WellFormed(v) ==> Writes(v, r.text)
    ensures r.Refused? ==> exists part :: Leads(v, r.error.path, part) && Offends(part, r.error.reason)
  {
    var error := AssertCanonicalizable(v, []);
    if error.Some? {
      assert error.value.path[0..] == error.value.path;
      return Refused(error.value);
    }
    var text := CanonicalSerialize(v);
    return Canonical(text);
  }
}
