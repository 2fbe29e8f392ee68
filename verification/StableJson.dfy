/** The canonical printer behind the request fingerprints, and what equal prints mean. */
module StableJson {
  import opened Json
  import opened JsNumbers
  import opened JsText

  const COMMA: CodeUnit := 44
  const COLON: CodeUnit := 58
  const OPEN_ARRAY: CodeUnit := 91
  const CLOSE_ARRAY: CodeUnit := 93
  const OPEN_OBJECT: CodeUnit := 123
  const CLOSE_OBJECT: CodeUnit := 125

  // --- Keys in the order of `Array.prototype.sort` ---

  predicate Less(a: Text, b: Text) {
    b != [] && (a == [] || a[0] < b[0] || (a[0] == b[0] && Less(a[1..], b[1..])))
  }

  lemma {:induction false} LessTotal(a: Text, b: Text)
    ensures a != b ==> Less(a, b) || Less(b, a)
    ensures Less(a, b) ==> a != b && !Less(b, a)
  {
    if a != [] && b != [] {
      LessTotal(a[1..], b[1..]);
      assert a == [a[0]] + a[1..] && b == [b[0]] + b[1..];
    }
  }

  lemma {:induction false} LessTransitive(a: Text, b: Text, c: Text)
    requires Less(a, b) && Less(b, c)
    ensures Less(a, c)
  {
    if a != [] {
      if a[0] == b[0] && b[0] == c[0] { LessTransitive(a[1..], b[1..], c[1..]); }
    }
  }

  predicate Ascending(keys: seq<Text>) {
    forall i, j :: 0 <= i < j < |keys| ==> Less(keys[i], keys[j])
  }

  function Insert(key: Text, keys: seq<Text>): (r: seq<Text>)
    requires Ascending(keys) && key !in keys
    ensures Ascending(r)
    ensures forall k :: k in r <==> k == key || k in keys
  {
    if keys == [] || Less(key, keys[0]) then
      InsertFirst(key, keys);
      [key] + keys
    else
      LessTotal(key, keys[0]);
      var rest := Insert(key, keys[1..]);
      assert forall k :: k in keys <==> k == keys[0] || k in keys[1..];
      assert forall i :: 0 <= i < |rest| ==> rest[i] in rest;
      [keys[0]] + rest
  }

  lemma InsertFirst(key: Text, keys: seq<Text>)
    requires Ascending(keys) && (keys != [] ==> Less(key, keys[0]))
    ensures forall i :: 0 <= i < |keys| ==> Less(key, keys[i])
  {
    forall i | 0 < i < |keys| ensures Less(key, keys[i]) {
      LessTransitive(key, keys[0], keys[i]);
    }
  }

  predicate Distinct(keys: seq<Text>) {
    forall i, j :: 0 <= i < j < |keys| ==> keys[i] != keys[j]
  }

  function Sort(keys: seq<Text>): (r: seq<Text>)
    requires Distinct(keys)
    ensures Ascending(r)
    ensures forall k :: k in r <==> k in keys
  {
    if keys == [] then []
    else
      assert forall k :: k in keys <==> k == keys[0] || k in keys[1..];
      Insert(keys[0], Sort(keys[1..]))
  }

  /** An ascending arrangement of a set of keys is unique, so it does not matter how it is computed. */
  lemma {:induction false} AscendingIsUnique(a: seq<Text>, b: seq<Text>)
    requires Ascending(a) && Ascending(b)
    requires forall k :: k in a <==> k in b
    ensures a == b
  {
    if a == [] {
      assert forall i :: 0 <= i < |b| ==> b[i] in b;
    } else {
      assert a[0] in b;
      assert b[0] in a;
      LessTotal(a[0], b[0]);
      assert a[0] == b[0];
      forall k ensures k in a[1..] <==> k in b[1..] {
        LessTotal(a[0], k);
        assert k in a <==> k == a[0] || k in a[1..];
        assert k in b <==> k == b[0] || k in b[1..];
        assert k in a[1..] ==> Less(a[0], k);
        assert k in b[1..] ==> Less(b[0], k);
      }
      AscendingIsUnique(a[1..], b[1..]);
      assert a == [a[0]] + a[1..] && b == [b[0]] + b[1..];
    }
  }

  /** Keys of the fields that are not `undefined`, in insertion order. */
  function DefinedKeys(fields: seq<Field>): (r: seq<Text>)
    ensures forall k :: k in r <==> Has(fields, k)
  {
    if fields == [] then []
    else
      HasStep(fields);
      if fields[0].value == Undefined then DefinedKeys(fields[1..])
      else [fields[0].key] + DefinedKeys(fields[1..])
  }

  lemma HasStep(fields: seq<Field>)
    requires fields != []
    ensures forall k :: Has(fields, k) <==>
      (fields[0].key == k && fields[0].value != Undefined) || Has(fields[1..], k)
  {
    forall k ensures Has(fields, k) <==>
      (fields[0].key == k && fields[0].value != Undefined) || Has(fields[1..], k)
    {
      if i :| 0 <= i < |fields| && fields[i].key == k && fields[i].value != Undefined {
        if i > 0 { assert fields[1..][i - 1] == fields[i]; }
      }
      if j :| 0 <= j < |fields[1..]| && fields[1..][j].key == k && fields[1..][j].value != Undefined {
        assert fields[j + 1] == fields[1..][j];
      }
    }
  }

  lemma {:induction false} DefinedKeysDistinct(fields: seq<Field>)
    requires DistinctKeys(fields)
    ensures Distinct(DefinedKeys(fields))
  {
    if fields != [] {
      DefinedKeysDistinct(fields[1..]);
      assert fields[0].key !in DefinedKeys(fields[1..]);
    }
  }

  function IndexOf(fields: seq<Field>, key: Text): (i: nat)
    requires Has(fields, key)
    ensures i < |fields| && fields[i].key == key && fields[i].value != Undefined
  {
    HasStep(fields);
    if fields[0].key == key && fields[0].value != Undefined then 0 else 1 + IndexOf(fields[1..], key)
  }

  // --- The printer ---

  /** Objects of JavaScript have one field per key, and doubles have shortest digits. */
  predicate WellFormed(v: Value) {
    match v
    case Num(n) => ValidNumber(n)
    case Arr(items) => forall i :: 0 <= i < |items| ==> WellFormed(items[i])
    case Obj(fields) => DistinctKeys(fields) && forall i :: 0 <= i < |fields| ==> WellFormed(fields[i].value)
    case _ => true
  }

  function Join(parts: seq<Text>): Text {
    if parts == [] then [] else if |parts| == 1 then parts[0] else parts[0] + [COMMA] + Join(parts[1..])
  }

  /** An `undefined` item joins as the empty text. */
  function Print(v: Value): Text
    requires WellFormed(v)
    decreases v
  {
    match v
    case Undefined => []
    case Null => Ascii("null")
    case Bool(b) => if b then Ascii("true") else Ascii("false")
    case Num(n) => PrintNumber(n)
    case Str(s) => Quote(s)
    case Arr(items) => [OPEN_ARRAY] + Join(PrintItems(items)) + [CLOSE_ARRAY]
    case Obj(fields) =>
      DefinedKeysDistinct(fields);
      [OPEN_OBJECT] + Join(PrintMembers(fields, Sort(DefinedKeys(fields)))) + [CLOSE_OBJECT]
  }

  function PrintItems(items: seq<Value>): (r: seq<Text>)
    requires forall i :: 0 <= i < |items| ==> WellFormed(items[i])
    ensures |r| == |items|
    decreases items
  {
    if items == [] then [] else [Print(items[0])] + PrintItems(items[1..])
  }

  function PrintMembers(fields: seq<Field>, keys: seq<Text>): (r: seq<Text>)
    requires forall i :: 0 <= i < |fields| ==> WellFormed(fields[i].value)
    requires forall k :: k in keys ==> Has(fields, k)
    ensures |r| == |keys|
    decreases fields, |keys|
  {
    if keys == [] then []
    else
      var i := IndexOf(fields, keys[0]);
      [Quote(keys[0]) + [COLON] + Print(fields[i].value)] + PrintMembers(fields, keys[1..])
  }

  // --- What two values have in common when they are the same JSON value ---

  predicate SameKeys(f: seq<Field>, g: seq<Field>) {
    && (forall i :: 0 <= i < |f| && f[i].value != Undefined ==> Has(g, f[i].key))
    && (forall j :: 0 <= j < |g| && g[j].value != Undefined ==> Has(f, g[j].key))
  }

  /** Equality up to field order, fields holding `undefined` and the sign of zero. */
  predicate SameJson(a: Value, b: Value) {
    match (a, b)
    case (Undefined, Undefined) => true
    case (Null, Null) => true
    case (Bool(x), Bool(y)) => x == y
    case (Num(m), Num(n)) => SameNumber(m, n)
    case (Str(s), Str(t)) => s == t
    case (Arr(xs), Arr(ys)) => |xs| == |ys| && forall i :: 0 <= i < |xs| ==> SameJson(xs[i], ys[i])
    case (Obj(f), Obj(g)) =>
      SameKeys(f, g) &&
      forall i, j ::
        (0 <= i < |f| && 0 <= j < |g| && f[i].key == g[j].key && f[i].value != Undefined && g[j].value != Undefined)
        ==> SameJson(f[i].value, g[j].value)
    case _ => false
  }

  /** Values JSON can hold: finite numbers, no `undefined` inside an array. */
  predicate Plain(v: Value) {
    match v
    case Undefined => false
    case Num(n) => n.Zero? || n.Finite?
    case Arr(items) => forall i :: 0 <= i < |items| ==> Plain(items[i])
    case Obj(fields) => forall i :: 0 <= i < |fields| && fields[i].value != Undefined ==> Plain(fields[i].value)
    case _ => true
  }

  /**
   * Values on which the printer loses nothing. An array may hold `undefined`, as long as it is not `[undefined]`,
   * which prints like the empty array.
   */
  predicate Settled(v: Value) {
    match v
    case Num(n) => n.Zero? || n.Finite?
    case Arr(items) => items != [Undefined] && forall i :: 0 <= i < |items| ==> Settled(items[i])
    case Obj(fields) => forall i :: 0 <= i < |fields| && fields[i].value != Undefined ==> Settled(fields[i].value)
    case _ => true
  }

  lemma {:induction false} PlainIsSettled(v: Value)
    requires Plain(v)
    ensures Settled(v)
    decreases v
  {
    match v
    case Arr(items) =>
      forall i | 0 <= i < |items| ensures Settled(items[i]) { PlainIsSettled(items[i]); }
      assert |items| > 0 ==> items[0] != Undefined;
    case Obj(fields) =>
      forall i | 0 <= i < |fields| && fields[i].value != Undefined ensures Settled(fields[i].value) {
        PlainIsSettled(fields[i].value);
      }
    case _ =>
  }

  // --- No printed value is a proper prefix of another printed value ---

  /** What may follow a value inside an array or an object. */
  predicate Delimited(rest: Text) {
    rest != [] ==> rest[0] == COMMA || rest[0] == CLOSE_ARRAY || rest[0] == CLOSE_OBJECT
  }

  datatype Kind = IsNull | IsTrue | IsFalse | IsNumber | IsString | IsArray | IsObject | IsNothing

  function KindOf(v: Value): Kind {
    match v
    case Undefined => IsNothing
    case Null => IsNull
    case Bool(b) => if b then IsTrue else IsFalse
    case Num(_) => IsNumber
    case Str(_) => IsString
    case Arr(_) => IsArray
    case Obj(_) => IsObject
  }

  function KindOfUnit(u: CodeUnit): Kind {
    if u == 'n' as int then IsNull
    else if u == 't' as int then IsTrue
    else if u == 'f' as int then IsFalse
    else if IsDigit(u) || u == MINUS then IsNumber
    else if u == QUOTE then IsString
    else if u == OPEN_ARRAY then IsArray
    else if u == OPEN_OBJECT then IsObject
    else IsNothing
  }

  lemma FirstUnit(v: Value)
    requires WellFormed(v) && Settled(v) && v != Undefined
    ensures Print(v) != [] && KindOfUnit(Print(v)[0]) == KindOf(v)
  {
    match v
    case Num(n) => PrintedUnits(n);
    case _ =>
  }

  lemma SameStart(a: Value, b: Value, p: Text, q: Text)
    requires WellFormed(a) && Settled(a) && WellFormed(b) && Settled(b)
    requires Delimited(p) && (a == Undefined ==> p != [])
    requires Delimited(q) && (b == Undefined ==> q != [])
    requires Print(a) + p == Print(b) + q
    ensures KindOf(a) == KindOf(b)
  {
    FirstOf(a, p);
    FirstOf(b, q);
  }

  lemma FirstOf(v: Value, rest: Text)
    requires WellFormed(v) && Settled(v) && Delimited(rest) && (v == Undefined ==> rest != [])
    ensures Print(v) + rest != [] && KindOfUnit((Print(v) + rest)[0]) == KindOf(v)
  {
    if v == Undefined {
      assert [] + rest == rest;
    } else {
      FirstUnit(v);
      Start(Print(v), rest);
    }
  }

  lemma Cut(a: Text, p: Text, q: Text)
    requires a + p == a + q
    ensures p == q
  {
    assert (a + p)[|a|..] == p && (a + q)[|a|..] == q;
  }

  /** The text after the first of several joined parts. */
  function Tail(parts: seq<Text>, rest: Text): Text
  {
    if parts == [] then rest else [COMMA] + Join(parts) + rest
  }

  lemma JoinThen(parts: seq<Text>, rest: Text)
    requires parts != []
    ensures Join(parts) + rest == parts[0] + Tail(parts[1..], rest)
  {
    if |parts| > 1 {
      var more := Join(parts[1..]);
      Concatenation(parts[0] + [COMMA], more, rest);
      Concatenation(parts[0], [COMMA], more + rest);
      Concatenation([COMMA], more, rest);
    }
  }

  predicate ItemsOk(items: seq<Value>) {
    forall i :: 0 <= i < |items| ==> WellFormed(items[i]) && Settled(items[i])
  }

  predicate FieldsOk(fields: seq<Field>) {
    forall i :: 0 <= i < |fields| && fields[i].value != Undefined ==>
      WellFormed(fields[i].value) && Settled(fields[i].value)
  }

  lemma {:induction false} PrefixFree(a: Value, b: Value, p: Text, q: Text)
    requires WellFormed(a) && Settled(a) && WellFormed(b) && Settled(b)
    requires Delimited(p) && (a == Undefined ==> p != [])
    requires Delimited(q) && (b == Undefined ==> q != [])
    requires Print(a) + p == Print(b) + q
    ensures SameJson(a, b) && p == q
    decreases a
  {
    SameStart(a, b, p, q);
    match a
    case Undefined => Cut([], p, q);
    case Null => Cut(Print(a), p, q);
    case Bool(_) => Cut(Print(a), p, q);
    case Num(n) => NumberPrefixFree(n, b.n, p, q);
    case Str(s) => QuotePrefixFree(s, b.s, p, q);
    case Arr(items) =>
      ArrayPrefixFree(items, b.items, p, q);
    case Obj(fields) =>
      ObjectPrefixFree(fields, b.fields, p, q);
  }

  lemma {:induction false} ItemsPrefixFree(xs: seq<Value>, ys: seq<Value>, p: Text, q: Text)
    requires ItemsOk(xs) && ItemsOk(ys) && xs != [] && ys != []
    requires p != [] && p[0] == CLOSE_ARRAY && q != [] && q[0] == CLOSE_ARRAY
    requires Join(PrintItems(xs)) + p == Join(PrintItems(ys)) + q
    ensures |xs| == |ys| && (forall i :: 0 <= i < |xs| ==> SameJson(xs[i], ys[i])) && p == q
    decreases xs, 0
  {
    JoinThen(PrintItems(xs), p);
    JoinThen(PrintItems(ys), q);
    var xt, yt := Tail(PrintItems(xs[1..]), p), Tail(PrintItems(ys[1..]), q);
    PrefixFree(xs[0], ys[0], xt, yt);
    assert xs[1..] == [] <==> xt[0] == CLOSE_ARRAY;
    assert ys[1..] == [] <==> yt[0] == CLOSE_ARRAY;
    if xs[1..] != [] {
      AfterComma(Join(PrintItems(xs[1..])), p, Join(PrintItems(ys[1..])), q);
      ItemsPrefixFree(xs[1..], ys[1..], p, q);
      assert forall i :: 0 <= i < |xs| ==> xs[i] == if i == 0 then xs[0] else xs[1..][i - 1];
    }
  }

  lemma {:induction false} ArrayPrefixFree(xs: seq<Value>, ys: seq<Value>, p: Text, q: Text)
    requires ItemsOk(xs) && xs != [Undefined] && ItemsOk(ys) && ys != [Undefined]
    requires Print(Arr(xs)) + p == Print(Arr(ys)) + q
    ensures SameJson(Arr(xs), Arr(ys)) && p == q
    decreases xs, 1
  {
    Unwrap([OPEN_ARRAY], Join(PrintItems(xs)), Join(PrintItems(ys)), [CLOSE_ARRAY], p, q);
    if xs == [] || ys == [] {
      NoItemsPrefixFree(xs, ys, [CLOSE_ARRAY] + p, [CLOSE_ARRAY] + q);
    } else {
      ItemsPrefixFree(xs, ys, [CLOSE_ARRAY] + p, [CLOSE_ARRAY] + q);
    }
    Cut([CLOSE_ARRAY], p, q);
  }

  lemma Unwrap(open: Text, s: Text, t: Text, close: Text, p: Text, q: Text)
    requires open + s + close + p == open + t + close + q
    ensures s + (close + p) == t + (close + q)
  {
    Wrap(open, s, close, p);
    Wrap(open, t, close, q);
    Cut(open, s + (close + p), t + (close + q));
  }

  lemma Wrap(open: Text, s: Text, close: Text, p: Text)
    ensures open + s + close + p == open + (s + (close + p))
  {
    Concatenation(open + s, close, p);
    Concatenation(open, s, close + p);
  }

  lemma AfterComma(s: Text, p: Text, t: Text, q: Text)
    requires [COMMA] + s + p == [COMMA] + t + q
    ensures s + p == t + q
  {
    assert [COMMA] + s + p == [COMMA] + (s + p) && [COMMA] + t + q == [COMMA] + (t + q);
    Cut([COMMA], s + p, t + q);
  }

  lemma NoItemsPrefixFree(xs: seq<Value>, ys: seq<Value>, p: Text, q: Text)
    requires ItemsOk(xs) && xs != [Undefined] && ItemsOk(ys) && ys != [Undefined]
    requires xs == [] || ys == []
    requires p != [] && p[0] == CLOSE_ARRAY && q != [] && q[0] == CLOSE_ARRAY
    requires Join(PrintItems(xs)) + p == Join(PrintItems(ys)) + q
    ensures xs == ys && p == q
  {
    assert [] + p == p && [] + q == q;
    if xs != [] { ItemsStart(xs, p); }
    if ys != [] { ItemsStart(ys, q); }
  }

  lemma ItemsStart(xs: seq<Value>, p: Text)
    requires ItemsOk(xs) && xs != [] && xs != [Undefined]
    requires p != [] && p[0] == CLOSE_ARRAY
    ensures (Join(PrintItems(xs)) + p) != [] && (Join(PrintItems(xs)) + p)[0] != CLOSE_ARRAY
  {
    var parts := PrintItems(xs);
    JoinThen(parts, p);
    if xs[0] == Undefined {
      UndefinedStart(parts[1..], p);
    } else {
      FirstUnit(xs[0]);
      Start(Print(xs[0]), Tail(parts[1..], p));
    }
  }

  lemma UndefinedStart(parts: seq<Text>, p: Text)
    requires parts != []
    ensures [] + Tail(parts, p) != [] && ([] + Tail(parts, p))[0] == COMMA
  {
    assert Tail(parts, p)[0] == COMMA;
  }

  lemma Start(a: Text, b: Text)
    requires a != []
    ensures a + b != [] && (a + b)[0] == a[0]
  {
  }

  lemma {:induction false} ObjectPrefixFree(f: seq<Field>, g: seq<Field>, p: Text, q: Text)
    requires WellFormed(Obj(f)) && Settled(Obj(f)) && WellFormed(Obj(g)) && Settled(Obj(g))
    requires Print(Obj(f)) + p == Print(Obj(g)) + q
    ensures SameJson(Obj(f), Obj(g)) && p == q
    decreases f
  {
    DefinedKeysDistinct(f);
    DefinedKeysDistinct(g);
    var ks, ls := Sort(DefinedKeys(f)), Sort(DefinedKeys(g));
    Unwrap([OPEN_OBJECT], Join(PrintMembers(f, ks)), Join(PrintMembers(g, ls)), [CLOSE_OBJECT], p, q);
    MembersPrefixFree(f, ks, g, ls, [CLOSE_OBJECT] + p, [CLOSE_OBJECT] + q);
    Cut([CLOSE_OBJECT], p, q);
    SameMembers(f, g, ks);
  }

  /** Under every listed key the two objects hold the same value. */
  predicate SameUnder(f: seq<Field>, g: seq<Field>, key: Text)
    requires Has(f, key) && Has(g, key)
  {
    SameJson(f[IndexOf(f, key)].value, g[IndexOf(g, key)].value)
  }

  lemma SameMembers(f: seq<Field>, g: seq<Field>, keys: seq<Text>)
    requires DistinctKeys(f) && DistinctKeys(g)
    requires forall k :: k in keys <==> Has(f, k)
    requires forall k :: k in keys <==> Has(g, k)
    requires forall k :: k in keys ==> SameUnder(f, g, k)
    ensures SameJson(Obj(f), Obj(g))
  {
    forall i, j | 0 <= i < |f| && 0 <= j < |g| && f[i].key == g[j].key
      && f[i].value != Undefined && g[j].value != Undefined
      ensures SameJson(f[i].value, g[j].value)
    {
      assert Has(f, f[i].key) && Has(g, f[i].key);
      assert IndexOf(f, f[i].key) == i && IndexOf(g, f[i].key) == j;
      assert SameUnder(f, g, f[i].key);
    }
    assert forall i :: 0 <= i < |f| && f[i].value != Undefined ==> Has(f, f[i].key);
    assert forall j :: 0 <= j < |g| && g[j].value != Undefined ==> Has(g, g[j].key);
  }

  lemma MemberThen(key: Text, value: Text, rest: Text)
    ensures Quote(key) + [COLON] + value + rest == Quote(key) + ([COLON] + (value + rest))
  {
    Concatenation(Quote(key) + [COLON], value, rest);
    Concatenation(Quote(key), [COLON], value + rest);
  }

  lemma SplitMember(k: Text, l: Text, v: Text, w: Text, p: Text, q: Text)
    requires Quote(k) + [COLON] + v + p == Quote(l) + [COLON] + w + q
    ensures k == l && v + p == w + q
  {
    MemberThen(k, v, p);
    MemberThen(l, w, q);
    QuotePrefixFree(k, l, [COLON] + (v + p), [COLON] + (w + q));
    Cut([COLON], v + p, w + q);
  }

  predicate MembersOk(f: seq<Field>, keys: seq<Text>) {
    && FieldsOk(f)
    && (forall i :: 0 <= i < |f| ==> WellFormed(f[i].value))
    && (forall k :: k in keys ==> Has(f, k))
  }

  /** The value under the first key, and the text after it. */
  function FirstMember(f: seq<Field>, keys: seq<Text>): Value
    requires MembersOk(f, keys) && keys != []
  {
    f[IndexOf(f, keys[0])].value
  }

  function MembersTail(f: seq<Field>, keys: seq<Text>, rest: Text): Text
    requires MembersOk(f, keys)
  {
    Tail(PrintMembers(f, keys), rest)
  }

  lemma MembersThen(f: seq<Field>, keys: seq<Text>, rest: Text)
    requires MembersOk(f, keys) && keys != [] && rest != [] && rest[0] == CLOSE_OBJECT
    ensures MembersOk(f, keys[1..])
    ensures var tail := MembersTail(f, keys[1..], rest);
      && Join(PrintMembers(f, keys)) + rest == Quote(keys[0]) + [COLON] + Print(FirstMember(f, keys)) + tail
      && tail != [] && tail[0] == if keys[1..] == [] then CLOSE_OBJECT else COMMA
  {
    JoinThen(PrintMembers(f, keys), rest);
  }

  lemma FirstMembers(f: seq<Field>, ks: seq<Text>, g: seq<Field>, ls: seq<Text>, p: Text, q: Text)
    requires MembersOk(f, ks) && MembersOk(g, ls) && ks != [] && ls != []
    requires p != [] && p[0] == CLOSE_OBJECT && q != [] && q[0] == CLOSE_OBJECT
    requires Join(PrintMembers(f, ks)) + p == Join(PrintMembers(g, ls)) + q
    ensures ks[0] == ls[0] && MembersOk(f, ks[1..]) && MembersOk(g, ls[1..])
    ensures Print(FirstMember(f, ks)) + MembersTail(f, ks[1..], p) == Print(FirstMember(g, ls)) + MembersTail(g, ls[1..], q)
    ensures Delimited(MembersTail(f, ks[1..], p)) && Delimited(MembersTail(g, ls[1..], q))
  {
    MembersThen(f, ks, p);
    MembersThen(g, ls, q);
    SplitMember(ks[0], ls[0], Print(FirstMember(f, ks)), Print(FirstMember(g, ls)),
      MembersTail(f, ks[1..], p), MembersTail(g, ls[1..], q));
  }

  lemma SameTails(f: seq<Field>, ks: seq<Text>, g: seq<Field>, ls: seq<Text>, p: Text, q: Text)
    requires MembersOk(f, ks) && MembersOk(g, ls)
    requires p != [] && p[0] == CLOSE_OBJECT && q != [] && q[0] == CLOSE_OBJECT
    requires MembersTail(f, ks, p) == MembersTail(g, ls, q)
    ensures Join(PrintMembers(f, ks)) + p == Join(PrintMembers(g, ls)) + q
  {
    assert MembersTail(f, ks, p)[0] == MembersTail(g, ls, q)[0];
    assert ks == [] <==> ls == [];
    if ks != [] {
      AfterComma(Join(PrintMembers(f, ks)), p, Join(PrintMembers(g, ls)), q);
    }
  }

  lemma {:induction false} FirstSame(f: seq<Field>, ks: seq<Text>, g: seq<Field>, ls: seq<Text>, p: Text, q: Text)
    requires MembersOk(f, ks) && MembersOk(g, ls) && ks != [] && ls != []
    requires p != [] && p[0] == CLOSE_OBJECT && q != [] && q[0] == CLOSE_OBJECT
    requires Join(PrintMembers(f, ks)) + p == Join(PrintMembers(g, ls)) + q
    ensures ks[0] == ls[0] && MembersOk(f, ks[1..]) && MembersOk(g, ls[1..])
    ensures SameUnder(f, g, ks[0])
    ensures Join(PrintMembers(f, ks[1..])) + p == Join(PrintMembers(g, ls[1..])) + q
    decreases f, |ks|, 0
  {
    FirstMembers(f, ks, g, ls, p, q);
    PrefixFree(FirstMember(f, ks), FirstMember(g, ls), MembersTail(f, ks[1..], p), MembersTail(g, ls[1..], q));
    SameTails(f, ks[1..], g, ls[1..], p, q);
  }

  lemma {:induction false} MembersPrefixFree(
      f: seq<Field>, ks: seq<Text>, g: seq<Field>, ls: seq<Text>, p: Text, q: Text)
    requires MembersOk(f, ks) && MembersOk(g, ls)
    requires p != [] && p[0] == CLOSE_OBJECT && q != [] && q[0] == CLOSE_OBJECT
    requires Join(PrintMembers(f, ks)) + p == Join(PrintMembers(g, ls)) + q
    ensures ks == ls && (forall k :: k in ks ==> SameUnder(f, g, k)) && p == q
    decreases f, |ks|, 1
  {
    if ks == [] || ls == [] {
      NoMembersPrefixFree(f, ks, g, ls, p, q);
    } else {
      FirstSame(f, ks, g, ls, p, q);
      MembersPrefixFree(f, ks[1..], g, ls[1..], p, q);
      assert ks == [ks[0]] + ks[1..] && ls == [ls[0]] + ls[1..];
    }
  }

  lemma NoMembersPrefixFree(
      f: seq<Field>, ks: seq<Text>, g: seq<Field>, ls: seq<Text>, p: Text, q: Text)
    requires MembersOk(f, ks) && MembersOk(g, ls) && (ks == [] || ls == [])
    requires p != [] && p[0] == CLOSE_OBJECT && q != [] && q[0] == CLOSE_OBJECT
    requires Join(PrintMembers(f, ks)) + p == Join(PrintMembers(g, ls)) + q
    ensures ks == ls && p == q
  {
    assert [] + p == p && [] + q == q;
    if ks != [] { MembersStart(f, ks, p); }
    if ls != [] { MembersStart(g, ls, q); }
  }

  lemma MembersStart(f: seq<Field>, ks: seq<Text>, p: Text)
    requires MembersOk(f, ks) && ks != []
    ensures Join(PrintMembers(f, ks)) + p != [] && (Join(PrintMembers(f, ks)) + p)[0] == QUOTE
  {
    JoinThen(PrintMembers(f, ks), p);
    Start(PrintMembers(f, ks)[0], Tail(PrintMembers(f, ks)[1..], p));
  }

  // --- The printer depends on nothing but the JSON value ---

  lemma {:induction false} SamePrint(a: Value, b: Value)
    requires WellFormed(a) && WellFormed(b) && SameJson(a, b)
    ensures Print(a) == Print(b)
    decreases a, 1
  {
    match a
    case Arr(items) => SameItemsPrint(items, b.items);
    case Obj(fields) =>
      DefinedKeysDistinct(fields);
      DefinedKeysDistinct(b.fields);
      assert forall k :: Has(fields, k) <==> Has(b.fields, k);
      AscendingIsUnique(Sort(DefinedKeys(fields)), Sort(DefinedKeys(b.fields)));
      SameMembersPrint(fields, b.fields, Sort(DefinedKeys(fields)));
    case _ =>
  }

  lemma {:induction false} SameItemsPrint(xs: seq<Value>, ys: seq<Value>)
    requires |xs| == |ys|
    requires forall i :: 0 <= i < |xs| ==> WellFormed(xs[i]) && WellFormed(ys[i]) && SameJson(xs[i], ys[i])
    ensures PrintItems(xs) == PrintItems(ys)
    decreases xs
  {
    if xs != [] {
      SamePrint(xs[0], ys[0]);
      SameItemsPrint(xs[1..], ys[1..]);
    }
  }

  lemma {:induction false} SameMembersPrint(f: seq<Field>, g: seq<Field>, keys: seq<Text>)
    requires WellFormed(Obj(f)) && WellFormed(Obj(g)) && SameJson(Obj(f), Obj(g))
    requires forall k :: k in keys ==> Has(f, k) && Has(g, k)
    ensures PrintMembers(f, keys) == PrintMembers(g, keys)
    decreases f, |keys|
  {
    if keys != [] {
      var i, j := IndexOf(f, keys[0]), IndexOf(g, keys[0]);
      SamePrint(f[i].value, g[j].value);
      SameMembersPrint(f, g, keys[1..]);
    }
  }

  lemma PrintsAreFaithful(a: Value, b: Value)
    requires WellFormed(a) && WellFormed(b) && Settled(a) && Settled(b) && a != Undefined && b != Undefined
    ensures Print(a) == Print(b) <==> SameJson(a, b)
  {
    if Print(a) == Print(b) {
      assert Print(a) + [] == Print(a) && Print(b) + [] == Print(b);
      PrefixFree(a, b, [], []);
    }
    if SameJson(a, b) { SamePrint(a, b); }
  }

  /**
   * Two values of finite numbers, and with no `undefined` inside an array, print alike exactly when they are the
   * same JSON value up to field order, `undefined` fields and the sign of zero.
   */
  lemma EqualPrintsMeanEqualJson(a: Value, b: Value)
    requires WellFormed(a) && WellFormed(b) && Plain(a) && Plain(b)
    ensures Print(a) == Print(b) <==> SameJson(a, b)
  {
    PlainIsSettled(a);
    PlainIsSettled(b);
    PrintsAreFaithful(a, b);
  }

  /** The same holds for objects printed in any one fixed arrangement of their keys. */
  lemma FixedOrderIsFaithful(f: seq<Field>, g: seq<Field>, order: seq<Text>)
    requires WellFormed(Obj(f)) && Plain(Obj(f)) && WellFormed(Obj(g)) && Plain(Obj(g))
    requires forall k :: (k in order <==> Has(f, k)) && (k in order <==> Has(g, k))
    ensures Join(PrintMembers(f, order)) == Join(PrintMembers(g, order)) <==> SameJson(Obj(f), Obj(g))
  {
    PlainIsSettled(Obj(f));
    PlainIsSettled(Obj(g));
    if Join(PrintMembers(f, order)) == Join(PrintMembers(g, order)) {
      MembersPrefixFree(f, order, g, order, [CLOSE_OBJECT], [CLOSE_OBJECT]);
      SameMembers(f, g, order);
    }
    if SameJson(Obj(f), Obj(g)) {
      SameMembersPrint(f, g, order);
    }
  }

  // --- Without the restriction ---

  /** What the printer forgets: numbers that are not finite become `null`, `[undefined]` becomes `[]`. */
  function Collapse(v: Value): Value
    decreases v
  {
    match v
    case Num(n) => if n.Zero? || n.Finite? then v else Null
    case Arr(items) => if items == [Undefined] then Arr([]) else Arr(CollapseItems(items))
    case Obj(fields) => Obj(CollapseFields(fields))
    case _ => v
  }

  function CollapseItems(items: seq<Value>): (r: seq<Value>)
    ensures |r| == |items| && forall i :: 0 <= i < |items| ==> r[i] == Collapse(items[i])
    decreases items
  {
    if items == [] then [] else [Collapse(items[0])] + CollapseItems(items[1..])
  }

  function CollapseFields(fields: seq<Field>): (r: seq<Field>)
    ensures |r| == |fields|
    ensures forall i :: 0 <= i < |fields| ==>
      r[i].key == fields[i].key && r[i].value == Collapse(fields[i].value)
    decreases fields
  {
    if fields == [] then [] else [Field(fields[0].key, Collapse(fields[0].value))] + CollapseFields(fields[1..])
  }

  lemma {:induction false} CollapseSettles(v: Value)
    requires WellFormed(v)
    ensures WellFormed(Collapse(v)) && Settled(Collapse(v)) && (Collapse(v) == Undefined <==> v == Undefined)
    decreases v
  {
    match v
    case Arr(items) =>
      forall i | 0 <= i < |items| ensures WellFormed(Collapse(items[i])) && Settled(Collapse(items[i])) {
        CollapseSettles(items[i]);
      }
      if CollapseItems(items) == [Undefined] {
        assert |items| == 1 && Collapse(items[0]) == Undefined;
        CollapseSettles(items[0]);
        assert items == [Undefined];
      }
    case Obj(fields) =>
      forall i | 0 <= i < |fields|
        ensures WellFormed(Collapse(fields[i].value)) && Settled(Collapse(fields[i].value))
      {
        CollapseSettles(fields[i].value);
      }
    case _ =>
  }

  lemma {:induction false} CollapsePrints(v: Value)
    requires WellFormed(v)
    ensures WellFormed(Collapse(v)) && Print(Collapse(v)) == Print(v)
    decreases v, 1
  {
    CollapseSettles(v);
    match v
    case Arr(items) => CollapseItemsPrint(items);
    case Obj(fields) =>
      var c := CollapseFields(fields);
      CollapseKeys(fields);
      DefinedKeysDistinct(fields);
      CollapseMembersPrint(fields, Sort(DefinedKeys(fields)));
    case _ =>
  }

  lemma {:induction false} CollapseItemsPrint(items: seq<Value>)
    requires forall i :: 0 <= i < |items| ==> WellFormed(items[i])
    ensures forall i :: 0 <= i < |items| ==> WellFormed(Collapse(items[i]))
    ensures PrintItems(CollapseItems(items)) == PrintItems(items)
    decreases items
  {
    if items != [] {
      CollapsePrints(items[0]);
      CollapseItemsPrint(items[1..]);
      assert CollapseItems(items)[1..] == CollapseItems(items[1..]);
      assert forall i :: 0 <= i < |items| ==> items[i] == if i == 0 then items[0] else items[1..][i - 1];
    }
  }

  lemma {:induction false} CollapseKeys(fields: seq<Field>)
    requires forall i :: 0 <= i < |fields| ==> WellFormed(fields[i].value)
    ensures DefinedKeys(CollapseFields(fields)) == DefinedKeys(fields)
  {
    if fields != [] {
      CollapseSettles(fields[0].value);
      CollapseKeys(fields[1..]);
      assert CollapseFields(fields)[1..] == CollapseFields(fields[1..]);
    }
  }

  lemma {:induction false} CollapseMembersPrint(fields: seq<Field>, keys: seq<Text>)
    requires WellFormed(Obj(fields)) && WellFormed(Obj(CollapseFields(fields)))
    requires forall k :: k in keys ==> Has(fields, k) && Has(CollapseFields(fields), k)
    ensures PrintMembers(CollapseFields(fields), keys) == PrintMembers(fields, keys)
    decreases fields, |keys|
  {
    if keys != [] {
      var i := IndexOf(fields, keys[0]);
      var j := IndexOf(CollapseFields(fields), keys[0]);
      assert fields[j].key == keys[0] && i == j;
      CollapsePrints(fields[i].value);
      CollapseMembersPrint(fields, keys[1..]);
    }
  }

  /** For all values: equal prints mean equal values exactly up to what `Collapse` forgets. */
  lemma EqualPrintsInGeneral(a: Value, b: Value)
    requires WellFormed(a) && WellFormed(b) && a != Undefined && b != Undefined
    ensures Print(a) == Print(b) <==> SameJson(Collapse(a), Collapse(b))
  {
    CollapsePrints(a);
    CollapsePrints(b);
    CollapseSettles(a);
    CollapseSettles(b);
    PrintsAreFaithful(Collapse(a), Collapse(b));
  }

  /** The restriction is needed: these pairs print alike and are different values. */
  lemma ForgottenDifferences()
    ensures Print(Num(NaN)) == Print(Null) && !SameJson(Num(NaN), Null)
    ensures Print(Arr([Undefined])) == Print(Arr([])) && !SameJson(Arr([Undefined]), Arr([]))
  {
    assert [OPEN_ARRAY] + Join([]) + [CLOSE_ARRAY] == Print(Arr([]));
    assert PrintItems([Undefined]) == [[]];
  }
}
