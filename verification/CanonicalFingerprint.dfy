/**
 * Canonical text is a faithful fingerprint: a JSON reader inverts it in front of any suffix
 * (that does not go on with a digit, when the text is a number), hence two accepted values have
 * the same text exactly when they are the same tree up to the order of object keys.
 */
module CanonicalFingerprint {
  import opened Prelude
  import opened Utf16Text
  import opened KeyOrder
  import opened CanonicalJson

  // ---------------------------------------------------------------- the reader

  function Read(t: Text): (r: Option<(Value, Text)>)
    ensures r.Some? ==> |r.value.1| < |t|
    decreases |t|, 0
  {
    if t == [] then None
    else if t[0] == NULL_TEXT[0] then ReadLiteral(t, NULL_TEXT, Null)
    else if t[0] == TRUE_TEXT[0] then ReadLiteral(t, TRUE_TEXT, Bool(true))
    else if t[0] == FALSE_TEXT[0] then ReadLiteral(t, FALSE_TEXT, Bool(false))
    else if t[0] == QUOTE then
      match ReadChars(t[1..])
      case None => None
      case Some((s, rest)) => Some((Str(s), rest))
    else if t[0] == LBRACKET then ReadArray(t[1..])
    else if t[0] == LBRACE then ReadObject(t[1..])
    else
      match ReadInt(t)
      case None => None
      case Some((n, rest)) => Some((Num(n), rest))
  }

  function ReadLiteral(t: Text, literal: Text, v: Value): (r: Option<(Value, Text)>)
    requires literal != []
    ensures r.Some? ==> |r.value.1| < |t|
  {
    if literal <= t then Some((v, t[|literal|..])) else None
  }

  /** What follows an opening bracket. */
  function ReadArray(t: Text): (r: Option<(Value, Text)>)
    ensures r.Some? ==> |r.value.1| < |t|
    decreases |t|, 2
  {
    if t != [] && t[0] == RBRACKET then Some((Arr([]), t[1..]))
    else
      match ReadItems(t)
      case None => None
      case Some((items, rest)) => Some((Arr(items), rest))
  }

  /** What follows an opening brace. */
  function ReadObject(t: Text): (r: Option<(Value, Text)>)
    ensures r.Some? ==> |r.value.1| < |t|
    decreases |t|, 3
  {
    if t != [] && t[0] == RBRACE then Some((Obj([]), t[1..]))
    else
      match ReadFields(t)
      case None => None
      case Some((fields, rest)) => Some((Obj(fields), rest))
  }

  /** One or more values with commas between them, up to the closing bracket. */
  function ReadItems(t: Text): (r: Option<(seq<Value>, Text)>)
    ensures r.Some? ==> |r.value.1| < |t|
    decreases |t|, 1
  {
    match Read(t)
    case None => None
    case Some((v, rest)) =>
      if rest == [] then None
      else if rest[0] == RBRACKET then Some(([v], rest[1..]))
      else if rest[0] != COMMA then None
      else
        match ReadItems(rest[1..])
        case None => None
        case Some((vs, end)) => Some(([v] + vs, end))
  }

  function ReadField(t: Text): (r: Option<(Entry<Value>, Text)>)
    ensures r.Some? ==> |r.value.1| < |t|
    decreases |t|, 1
  {
    if t == [] || t[0] != QUOTE then None
    else
      match ReadChars(t[1..])
      case None => None
      case Some((key, rest)) =>
        if rest == [] || rest[0] != COLON then None
        else
          match Read(rest[1..])
          case None => None
          case Some((v, end)) => Some((Entry(key, v), end))
  }

  function ReadFields(t: Text): (r: Option<(seq<Entry<Value>>, Text)>)
    ensures r.Some? ==> |r.value.1| < |t|
    decreases |t|, 2
  {
    match ReadField(t)
    case None => None
    case Some((f, rest)) =>
      if rest == [] then None
      else if rest[0] == RBRACE then Some(([f], rest[1..]))
      else if rest[0] != COMMA then None
      else
        match ReadFields(rest[1..])
        case None => None
        case Some((fs, end)) => Some(([f] + fs, end))
  }

  // ---------------------------------------------------------------- the value a text stands for

  /** The value with the members of every object in key order. */
  function Normal(v: Value): Value
    decreases v
  {
    match v
    case Arr(items) => Arr(NormalItems(items))
    case Obj(fields) => Obj(SortByKey(NormalFields(fields)))
    case _ => v
  }

  function NormalItems(items: seq<Value>): (r: seq<Value>)
    ensures |r| == |items|
    ensures forall i | 0 <= i < |items| :: r[i] == Normal(items[i])
    decreases items
  {
    if items == [] then [] else [Normal(items[0])] + NormalItems(items[1..])
  }

  function NormalFields(fields: seq<Entry<Value>>): (r: seq<Entry<Value>>)
    ensures |r| == |fields|
    ensures forall i | 0 <= i < |fields| :: r[i] == Entry(fields[i].key, Normal(fields[i].val))
    decreases fields
  {
    if fields == [] then []
    else [Entry(fields[0].key, Normal(fields[0].val))] + NormalFields(fields[1..])
  }

  lemma {:induction false} NormalInsert(e: Entry<Value>, es: seq<Entry<Value>>)
    ensures NormalFields(Insert(e, es)) == Insert(Entry(e.key, Normal(e.val)), NormalFields(es))
  {
    if es != [] && Less(es[0].key, e.key) {
      NormalInsert(e, es[1..]);
      assert NormalFields(es)[1..] == NormalFields(es[1..]);
    }
  }

  lemma {:induction false} NormalSort(fields: seq<Entry<Value>>)
    ensures NormalFields(SortByKey(fields)) == SortByKey(NormalFields(fields))
  {
    if fields != [] {
      NormalSort(fields[1..]);
      NormalInsert(fields[0], SortByKey(fields[1..]));
      assert NormalFields(fields)[1..] == NormalFields(fields[1..]);
    }
  }

  // ---------------------------------------------------------------- the reader inverts the text

  ghost predicate Inverts(v: Value, rest: Text) {
    Read(Serialize(v) + rest) == Some((Normal(v), rest))
  }

  ghost predicate InvertsAll(v: Value) {
    forall rest | NoDigitFirst(rest) :: Inverts(v, rest)
  }

  /** The first unit of a text tells which kind of value it is the text of. */
  lemma FirstUnit(v: Value)
    requires Accepted(v)
    ensures Serialize(v) != []
    ensures v.Null? ==> Serialize(v)[0] == 0x6E
    ensures v.Bool? ==> Serialize(v)[0] == if v.b then 0x74 else 0x66
    ensures v.Str? ==> Serialize(v)[0] == QUOTE
    ensures v.Num? ==> Serialize(v)[0] == MINUS || IsDigit(Serialize(v)[0])
    ensures v.Arr? ==> Serialize(v)[0] == LBRACKET
    ensures v.Obj? ==> Serialize(v)[0] == LBRACE
    ensures Serialize(v)[0] != RBRACKET
  {
    assert !Offends(v, NotFinite) && !Offends(v, Unsupported);
  }

  /** What stands after the first part of a joined list that `tail` closes. */
  function AfterFirst(parts: seq<Text>, tail: Text): Text
    requires parts != []
  {
    if |parts| == 1 then tail else [COMMA] + (Join(parts[1..]) + tail)
  }

  lemma JoinFirst(parts: seq<Text>, tail: Text)
    requires parts != []
    ensures Join(parts) + tail == parts[0] + AfterFirst(parts, tail)
  {
  }

  lemma {:induction false} ItemsInvert(items: seq<Value>, rest: Text)
    requires items != []
    requires forall v | v in items :: InvertsAll(v)
    ensures ReadItems(Join(SerializeItems(items)) + ([RBRACKET] + rest)) == Some((NormalItems(items), rest))
  {
    var parts := SerializeItems(items);
    var tail := [RBRACKET] + rest;
    var after := AfterFirst(parts, tail);
    JoinFirst(parts, tail);
    assert items[0] in items && NoDigitFirst(after);
    assert Inverts(items[0], after);
    if |items| == 1 {
      assert after[1..] == rest;
      assert NormalItems(items) == [Normal(items[0])];
    } else {
      ItemsInvert(items[1..], rest);
      assert after[1..] == Join(SerializeItems(items[1..])) + tail;
    }
  }

  lemma ReadOneField(key: Text, written: Text, v: Value, after: Text)
    requires Read(written + after) == Some((v, after))
    ensures ReadField([QUOTE] + (Escape(key) + ([QUOTE] + ([COLON] + (written + after))))) == Some((Entry(key, v), after))
  {
    var tail := [COLON] + (written + after);
    var body := Escape(key) + ([QUOTE] + tail);
    ReadCharsInverts(key, tail);
    assert ([QUOTE] + body)[1..] == body;
    assert tail[1..] == written + after;
  }

  lemma FieldInverts(f: Entry<Value>, after: Text)
    requires InvertsAll(f.val) && NoDigitFirst(after)
    ensures ReadField(Quote(f.key) + [COLON] + Serialize(f.val) + after) == Some((Entry(f.key, Normal(f.val)), after))
  {
    var written := Serialize(f.val);
    assert Inverts(f.val, after);
    ReadOneField(f.key, written, Normal(f.val), after);
    assert Quote(f.key) + [COLON] + written + after
        == [QUOTE] + (Escape(f.key) + ([QUOTE] + ([COLON] + (written + after))));
  }

  lemma {:induction false} FieldsInvert(fields: seq<Entry<Value>>, rest: Text)
    requires fields != []
    requires forall f | f in fields :: InvertsAll(f.val)
    ensures ReadFields(Join(Members(SerializeFields(fields))) + ([RBRACE] + rest)) == Some((NormalFields(fields), rest))
  {
    var parts := Members(SerializeFields(fields));
    var tail := [RBRACE] + rest;
    var after := AfterFirst(parts, tail);
    JoinFirst(parts, tail);
    assert fields[0] in fields && NoDigitFirst(after);
    FieldInverts(fields[0], after);
    if |fields| == 1 {
      assert after[1..] == rest;
      assert NormalFields(fields) == [Entry(fields[0].key, Normal(fields[0].val))];
    } else {
      FieldsInvert(fields[1..], rest);
      assert after[1..] == Join(Members(SerializeFields(fields[1..]))) + tail;
    }
  }

  lemma ReadAfterOpening(open: Unit, body: Text)
    ensures open == LBRACKET ==> Read([open] + body) == ReadArray(body)
    ensures open == LBRACE ==> Read([open] + body) == ReadObject(body)
  {
    assert ([open] + body)[1..] == body;
  }

  lemma ArrayInverts(items: seq<Value>, rest: Text)
    requires forall v | v in items :: Accepted(v) && InvertsAll(v)
    ensures Inverts(Arr(items), rest)
  {
    var tail := [RBRACKET] + rest;
    var parts := SerializeItems(items);
    var body := Join(parts) + tail;
    assert Serialize(Arr(items)) + rest == [LBRACKET] + body;
    ReadAfterOpening(LBRACKET, body);
    if items == [] {
      assert body == tail && tail[1..] == rest;
    } else {
      JoinFirst(parts, tail);
      FirstUnit(items[0]);
      assert body[0] == Serialize(items[0])[0];
      ItemsInvert(items, rest);
    }
  }

  lemma BracedInverts(sorted: seq<Entry<Value>>, rest: Text)
    requires forall f | f in sorted :: InvertsAll(f.val)
    ensures Read([LBRACE] + Join(Members(SerializeFields(sorted))) + [RBRACE] + rest) == Some((Obj(NormalFields(sorted)), rest))
  {
    var tail := [RBRACE] + rest;
    var parts := Members(SerializeFields(sorted));
    var body := Join(parts) + tail;
    assert [LBRACE] + Join(parts) + [RBRACE] + rest == [LBRACE] + body;
    ReadAfterOpening(LBRACE, body);
    if sorted == [] {
      assert body == tail && tail[1..] == rest;
    } else {
      JoinFirst(parts, tail);
      assert body[0] == parts[0][0] == QUOTE;
      FieldsInvert(sorted, rest);
    }
  }

  lemma ObjectInverts(fields: seq<Entry<Value>>, rest: Text)
    requires forall f | f in fields :: InvertsAll(f.val)
    ensures Inverts(Obj(fields), rest)
  {
    var sorted := SortByKey(fields);
    SortCommutes(fields);
    NormalSort(fields);
    forall f | f in sorted
      ensures InvertsAll(f.val)
    {
      SameMembers(fields, f);
    }
    BracedInverts(sorted, rest);
  }

  lemma StringInverts(s: Text, rest: Text)
    ensures Inverts(Str(s), rest)
  {
    var body := Escape(s) + ([QUOTE] + rest);
    ReadCharsInverts(s, rest);
    assert Quote(s) + rest == [QUOTE] + body;
    assert ([QUOTE] + body)[1..] == body;
  }

  lemma NumberInverts(n: int, rest: Text)
    requires NoDigitFirst(rest)
    ensures Inverts(Num(n), rest)
  {
    var t := PrintInt(n) + rest;
    assert t[0] == PrintInt(n)[0];
    ReadIntInverts(n, rest);
  }

  lemma LeafInverts(v: Value, rest: Text)
    requires Accepted(v) && !v.Arr? && !v.Obj? && (v.Num? ==> NoDigitFirst(rest))
    ensures Inverts(v, rest)
  {
    assert !Offends(v, NotFinite) && !Offends(v, Unsupported);
    match v {
      case Null => assert (NULL_TEXT + rest)[4..] == rest;
      case Bool(b) => assert (Serialize(v) + rest)[|Serialize(v)|..] == rest;
      case Num(n) => NumberInverts(n, rest);
      case Str(s) => StringInverts(s, rest);
      case _ =>
    }
  }

  /**
   * Reading a canonical text in front of any suffix gives the value it stands for and that suffix.
   * Only what follows a number must not begin with a digit.
   */
  lemma {:induction false} ReadInverts(v: Value, rest: Text)
    requires Accepted(v) && (v.Num? ==> NoDigitFirst(rest))
    ensures Inverts(v, rest)
    decreases v
  {
    match v {
      case Arr(items) =>
        forall item, r | item in items && NoDigitFirst(r)
          ensures Accepted(item) && Inverts(item, r)
        {
          ReadInverts(item, r);
        }
        ArrayInverts(items, rest);
      case Obj(fields) =>
        forall f, r | f in fields && NoDigitFirst(r)
          ensures Inverts(f.val, r)
        {
          ReadInverts(f.val, r);
        }
        ObjectInverts(fields, rest);
      case _ => LeafInverts(v, rest);
    }
  }

  /** A canonical text is a proper prefix of another one only if both are texts of numbers. */
  lemma ProperPrefixesAreNumbers(a: Value, b: Value, rest: Text)
    requires Accepted(a) && Accepted(b)
    requires rest != [] && Serialize(a) + rest == Serialize(b)
    ensures a.Num? && b.Num?
  {
    FirstUnit(a);
    FirstUnit(b);
    assert Serialize(b)[0] == Serialize(a)[0];
    ReadInverts(b, []);
    assert Serialize(b) + [] == Serialize(b);
    if !a.Num? {
      ReadInverts(a, rest);
    }
  }

  lemma NumbersCanBePrefixes()
    ensures Accepted(Num(1)) && Accepted(Num(12))
    ensures Serialize(Num(1)) + [0x32] == Serialize(Num(12))
  {
    assert Digits(1) == [0x31];
    assert Digits(12) == Digits(1) + [0x32];
  }

  // ---------------------------------------------------------------- sameness

  ghost predicate HasKey(fields: seq<Entry<Value>>, key: Text) {
    exists j :: 0 <= j < |fields| && fields[j].key == key
  }

  ghost predicate KeysWithin(fs: seq<Entry<Value>>, gs: seq<Entry<Value>>) {
    forall i | 0 <= i < |fs| :: HasKey(gs, fs[i].key)
  }

  /** The same tree up to the order of object keys. */
  ghost predicate Same(a: Value, b: Value)
    decreases a
  {
    match a
    case Arr(xs) => b.Arr? && |xs| == |b.items| && forall i | 0 <= i < |xs| :: Same(xs[i], b.items[i])
    case Obj(fs) =>
      && b.Obj?
      && KeysWithin(fs, b.fields)
      && KeysWithin(b.fields, fs)
      && (forall i, j | 0 <= i < |fs| && 0 <= j < |b.fields| && fs[i].key == b.fields[j].key ::
            Same(fs[i].val, b.fields[j].val))
    case _ => a == b
  }

  lemma SortedTogether(es: seq<Entry<Value>>, ds: seq<Entry<Value>>)
    requires SortByKey(es) == SortByKey(ds)
    ensures forall e | e in es :: e in ds
  {
    forall e | e in es
      ensures e in ds
    {
      SameMembers(es, e);
      SameMembers(ds, e);
    }
  }

  lemma NormalMember(gs: seq<Entry<Value>>, e: Entry<Value>)
    requires e in NormalFields(gs)
    ensures exists j :: 0 <= j < |gs| && gs[j].key == e.key && Normal(gs[j].val) == e.val
  {
    var j :| 0 <= j < |gs| && NormalFields(gs)[j] == e;
    assert gs[j].key == e.key;
  }

  /** Objects with the same normal form bind the same keys to values with the same normal form. */
  lemma SameNormalMember(fs: seq<Entry<Value>>, gs: seq<Entry<Value>>, i: nat)
    requires forall e | e in NormalFields(fs) :: e in NormalFields(gs)
    requires DistinctKeys(gs) && i < |fs|
    ensures HasKey(gs, fs[i].key)
    ensures forall j | 0 <= j < |gs| && gs[j].key == fs[i].key :: Normal(gs[j].val) == Normal(fs[i].val)
  {
    var e := NormalFields(fs)[i];
    NormalMember(gs, e);
  }

  /** Two objects with the same normal form have the same keys, bound to values with the same normal form. */
  lemma SameNormalMembers(fs: seq<Entry<Value>>, gs: seq<Entry<Value>>)
    requires SortByKey(NormalFields(fs)) == SortByKey(NormalFields(gs))
    requires DistinctKeys(fs) && DistinctKeys(gs)
    ensures KeysWithin(fs, gs) && KeysWithin(gs, fs)
    ensures forall i, j | 0 <= i < |fs| && 0 <= j < |gs| && fs[i].key == gs[j].key ::
              Normal(fs[i].val) == Normal(gs[j].val)
  {
    SortedTogether(NormalFields(fs), NormalFields(gs));
    SortedTogether(NormalFields(gs), NormalFields(fs));
    forall i | 0 <= i < |gs|
      ensures HasKey(fs, gs[i].key)
    {
      SameNormalMember(gs, fs, i);
    }
    forall i | 0 <= i < |fs|
      ensures HasKey(gs, fs[i].key)
      ensures forall j | 0 <= j < |gs| && fs[i].key == gs[j].key :: Normal(fs[i].val) == Normal(gs[j].val)
    {
      SameNormalMember(fs, gs, i);
    }
  }

  lemma {:induction false} NormalFaithful(a: Value, b: Value)
    requires WellFormed(a) && WellFormed(b)
    requires Normal(a) == Normal(b)
    ensures Same(a, b)
    decreases a
  {
    match a {
      case Arr(xs) =>
        forall i | 0 <= i < |xs|
          ensures Same(xs[i], b.items[i])
        {
          assert NormalItems(xs)[i] == NormalItems(b.items)[i];
          NormalFaithful(xs[i], b.items[i]);
        }
      case Obj(fs) =>
        var gs := b.fields;
        SameNormalMembers(fs, gs);
        forall i, j | 0 <= i < |fs| && 0 <= j < |gs| && fs[i].key == gs[j].key
          ensures Same(fs[i].val, gs[j].val)
        {
          NormalFaithful(fs[i].val, gs[j].val);
        }
      case _ =>
    }
  }

  lemma WrittenMember(fs: seq<Entry<Value>>, gs: seq<Entry<Value>>)
    requires KeysWithin(fs, gs)
    requires forall i, j | 0 <= i < |fs| && 0 <= j < |gs| && fs[i].key == gs[j].key ::
               Serialize(fs[i].val) == Serialize(gs[j].val)
    ensures forall e | e in SerializeFields(fs) :: e in SerializeFields(gs)
  {
    forall e | e in SerializeFields(fs)
      ensures e in SerializeFields(gs)
    {
      var i :| 0 <= i < |fs| && SerializeFields(fs)[i] == e;
      assert HasKey(gs, fs[i].key);
      var j :| 0 <= j < |gs| && gs[j].key == fs[i].key;
      assert SerializeFields(gs)[j] == e;
    }
  }

  /** Lists of written members that bind the same keys to the same texts sort to the same list. */
  lemma SameSorted(fs: seq<Entry<Value>>, gs: seq<Entry<Value>>)
    requires DistinctKeys(fs) && DistinctKeys(gs) && KeysWithin(fs, gs) && KeysWithin(gs, fs)
    requires forall i, j | 0 <= i < |fs| && 0 <= j < |gs| && fs[i].key == gs[j].key ::
               Serialize(fs[i].val) == Serialize(gs[j].val)
    ensures SortByKey(SerializeFields(fs)) == SortByKey(SerializeFields(gs))
  {
    WrittenMember(fs, gs);
    WrittenMember(gs, fs);
    SortByKeySorts(SerializeFields(fs));
    SortByKeySorts(SerializeFields(gs));
    forall e
      ensures e in SortByKey(SerializeFields(fs)) <==> e in SortByKey(SerializeFields(gs))
    {
      SameMembers(SerializeFields(fs), e);
      SameMembers(SerializeFields(gs), e);
    }
    SortedUnique(SortByKey(SerializeFields(fs)), SortByKey(SerializeFields(gs)));
  }

  /** Trees that differ only in key order have the same text. */
  lemma {:induction false} SameText(a: Value, b: Value)
    requires WellFormed(a) && WellFormed(b) && Same(a, b)
    ensures Serialize(a) == Serialize(b)
    decreases a
  {
    match a {
      case Arr(xs) =>
        forall i | 0 <= i < |xs|
          ensures Serialize(xs[i]) == Serialize(b.items[i])
        {
          SameText(xs[i], b.items[i]);
        }
        assert SerializeItems(xs) == SerializeItems(b.items);
      case Obj(fs) =>
        var gs := b.fields;
        forall i, j | 0 <= i < |fs| && 0 <= j < |gs| && fs[i].key == gs[j].key
          ensures Serialize(fs[i].val) == Serialize(gs[j].val)
        {
          SameText(fs[i].val, gs[j].val);
        }
        SameSorted(fs, gs);
      case _ =>
    }
  }

  /** The text can be read back, to a value that is the same tree and has the same text again. */
  lemma ReadBack(v: Value)
    requires WellFormed(v) && Accepted(v)
    ensures exists w :: Read(Serialize(v)) == Some((w, [])) && Same(v, w) && Serialize(w) == Serialize(v)
  {
    ReadInverts(v, []);
    assert Serialize(v) + [] == Serialize(v);
    NormalIsNormal(v);
    NormalWellFormed(v);
    NormalFaithful(v, Normal(v));
    SameText(v, Normal(v));
  }

  lemma {:induction false} NormalWellFormed(v: Value)
    requires WellFormed(v)
    ensures WellFormed(Normal(v))
    decreases v
  {
    match v {
      case Arr(items) =>
        forall i | 0 <= i < |items|
          ensures WellFormed(NormalItems(items)[i])
        {
          NormalWellFormed(items[i]);
        }
      case Obj(fields) =>
        var ns := NormalFields(fields);
        var sorted := SortByKey(ns);
        SortByKeySorts(ns);
        forall i, j | 0 <= i < j < |sorted|
          ensures sorted[i].key != sorted[j].key
        {
          LessIrreflexive(sorted[i].key);
        }
        forall i | 0 <= i < |sorted|
          ensures WellFormed(sorted[i].val)
        {
          SameMembers(ns, sorted[i]);
          var j :| 0 <= j < |ns| && ns[j] == sorted[i];
          NormalWellFormed(fields[j].val);
        }
      case _ =>
    }
  }

  lemma {:induction false} NormalIsNormal(v: Value)
    requires WellFormed(v)
    ensures Normal(Normal(v)) == Normal(v)
    decreases v
  {
    match v {
      case Arr(items) =>
        forall i | 0 <= i < |items|
          ensures Normal(Normal(items[i])) == Normal(items[i])
        {
          NormalIsNormal(items[i]);
        }
        assert NormalItems(NormalItems(items)) == NormalItems(items);
      case Obj(fields) =>
        var ns := NormalFields(fields);
        forall i | 0 <= i < |fields|
          ensures Normal(Normal(fields[i].val)) == Normal(fields[i].val)
        {
          NormalIsNormal(fields[i].val);
        }
        assert NormalFields(ns) == ns;
        NormalSort(ns);
        SortByKeySorts(ns);
        SortIdempotent(ns);
      case _ =>
    }
  }

  lemma SortIdempotent(es: seq<Entry<Value>>)
    requires DistinctKeys(es)
    ensures SortByKey(SortByKey(es)) == SortByKey(es)
  {
    var sorted := SortByKey(es);
    SortByKeySorts(es);
    forall i, j | 0 <= i < j < |sorted|
      ensures sorted[i].key != sorted[j].key
    {
      LessIrreflexive(sorted[i].key);
    }
    SortByKeySorts(sorted);
    forall e
      ensures e in SortByKey(sorted) <==> e in sorted
    {
      SameMembers(sorted, e);
    }
    SortedUnique(SortByKey(sorted), sorted);
  }

  /** Accepted values have the same canonical text exactly when they are the same tree up to key order. */
  lemma CanonicalTextFaithful(a: Value, b: Value)
    requires WellFormed(a) && WellFormed(b) && Accepted(a) && Accepted(b)
    ensures Serialize(a) == Serialize(b) <==> Same(a, b)
  {
    if Serialize(a) == Serialize(b) {
      ReadInverts(a, []);
      ReadInverts(b, []);
      NormalFaithful(a, b);
    }
    if Same(a, b) {
      SameText(a, b);
    }
  }
}
