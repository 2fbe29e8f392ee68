/** Object literals with a fixed list of keys, compared key by key. */
module JsonRecords {
  import opened Json
  import opened Options
  import opened StableJson

  /** An object literal; an absent optional field is one whose value is `undefined`. */
  function Record(keys: seq<Text>, values: seq<Value>): seq<Field>
    requires |keys| == |values|
  {
    if keys == [] then []
    else (if values[0] == Undefined then [] else [Field(keys[0], values[0])]) + Record(keys[1..], values[1..])
  }

  lemma {:induction false} RecordFields(keys: seq<Text>, values: seq<Value>)
    requires |keys| == |values| && Distinct(keys)
    ensures DistinctKeys(Record(keys, values))
    ensures forall f :: f in Record(keys, values) ==>
      f.value != Undefined && exists i :: 0 <= i < |keys| && keys[i] == f.key && values[i] == f.value
  {
    if keys != [] {
      RecordFields(keys[1..], values[1..]);
      forall f | f in Record(keys[1..], values[1..])
        ensures exists i :: 0 < i < |keys| && keys[i] == f.key && values[i] == f.value
      {
        var i :| 0 <= i < |keys[1..]| && keys[1..][i] == f.key && values[1..][i] == f.value;
        assert keys[i + 1] == f.key && values[i + 1] == f.value;
      }
      var rest := Record(keys[1..], values[1..]);
      assert forall j :: 0 <= j < |rest| ==> rest[j] in rest;
    }
  }

  lemma {:induction false} RecordHas(keys: seq<Text>, values: seq<Value>, i: nat)
    requires |keys| == |values| && i < |keys| && values[i] != Undefined
    ensures Field(keys[i], values[i]) in Record(keys, values)
  {
    if i > 0 { RecordHas(keys[1..], values[1..], i - 1); }
  }

  lemma RecordValue(keys: seq<Text>, values: seq<Value>, i: nat, f: Field)
    requires |keys| == |values| && Distinct(keys) && i < |keys|
    requires f in Record(keys, values) && f.key == keys[i]
    ensures f.value == values[i]
  {
    RecordFields(keys, values);
  }

  lemma SameRecordHas(keys: seq<Text>, v: seq<Value>, w: seq<Value>, i: nat)
    requires |keys| == |v| == |w| && Distinct(keys) && i < |keys|
    requires SameJson(Obj(Record(keys, v)), Obj(Record(keys, w)))
    ensures v[i] != Undefined ==> w[i] != Undefined && SameJson(v[i], w[i])
  {
    var f, g := Record(keys, v), Record(keys, w);
    if v[i] != Undefined {
      RecordHas(keys, v, i);
      var a :| 0 <= a < |f| && f[a] == Field(keys[i], v[i]);
      assert Has(g, f[a].key);
      var b :| 0 <= b < |g| && g[b].key == keys[i] && g[b].value != Undefined;
      RecordValue(keys, w, i, g[b]);
      assert f[a].key == g[b].key;
    }
  }

  lemma FieldsOfSameValues(keys: seq<Text>, v: seq<Value>, w: seq<Value>, f: Field)
    requires |keys| == |v| == |w| && Distinct(keys)
    requires forall i :: 0 <= i < |keys| ==> SameJson(v[i], w[i])
    requires f in Record(keys, v)
    ensures Has(Record(keys, w), f.key)
  {
    RecordFields(keys, v);
    var i :| 0 <= i < |keys| && keys[i] == f.key && v[i] == f.value;
    assert w[i] != Undefined;
    RecordHas(keys, w, i);
    var g := Record(keys, w);
    var b :| 0 <= b < |g| && g[b] == Field(keys[i], w[i]);
  }

  lemma SameReversed(a: Value, b: Value)
    requires SameJson(a, b)
    ensures SameJson(b, a)
    decreases a
  {
    match a
    case Arr(items) =>
      forall i | 0 <= i < |items| ensures SameJson(b.items[i], items[i]) { SameReversed(items[i], b.items[i]); }
    case Obj(f) =>
      var g := b.fields;
      forall j, i | 0 <= j < |g| && 0 <= i < |f| && g[j].key == f[i].key
        && g[j].value != Undefined && f[i].value != Undefined
        ensures SameJson(g[j].value, f[i].value)
      {
        assert f[i].key == g[j].key;
        SameReversed(f[i].value, g[j].value);
      }
    case _ =>
  }

  lemma SameAsItself(a: Value)
    requires WellFormed(a)
    ensures SameJson(a, a)
    decreases a
  {
    match a
    case Arr(items) =>
      forall i | 0 <= i < |items| ensures SameJson(items[i], items[i]) { SameAsItself(items[i]); }
    case Obj(f) =>
      forall i, j | 0 <= i < |f| && 0 <= j < |f| && f[i].key == f[j].key ensures SameJson(f[i].value, f[j].value) {
        assert i == j;
        SameAsItself(f[i].value);
      }
      assert forall i :: 0 <= i < |f| && f[i].value != Undefined ==> Has(f, f[i].key);
    case _ =>
  }

  /** Two literals with the same keys are the same JSON value exactly when they agree under every key. */
  lemma RecordsCompare(keys: seq<Text>, v: seq<Value>, w: seq<Value>)
    requires |keys| == |v| == |w| && Distinct(keys)
    ensures SameJson(Obj(Record(keys, v)), Obj(Record(keys, w)))
       <==> forall i :: 0 <= i < |keys| ==> SameJson(v[i], w[i])
  {
    var f, g := Record(keys, v), Record(keys, w);
    if SameJson(Obj(f), Obj(g)) {
      SameReversed(Obj(f), Obj(g));
      forall i | 0 <= i < |keys| ensures SameJson(v[i], w[i]) {
        SameRecordHas(keys, v, w, i);
        SameRecordHas(keys, w, v, i);
      }
    }
    if forall i :: 0 <= i < |keys| ==> SameJson(v[i], w[i]) {
      forall i | 0 <= i < |keys| ensures SameJson(w[i], v[i]) { SameReversed(v[i], w[i]); }
      forall a | 0 <= a < |f| ensures Has(g, f[a].key) { FieldsOfSameValues(keys, v, w, f[a]); }
      forall b | 0 <= b < |g| ensures Has(f, g[b].key) { FieldsOfSameValues(keys, w, v, g[b]); }
      RecordFields(keys, v);
      forall a, b | 0 <= a < |f| && 0 <= b < |g| && f[a].key == g[b].key ensures SameJson(f[a].value, g[b].value) {
        assert f[a] in f && g[b] in g;
        var i :| 0 <= i < |keys| && keys[i] == f[a].key && v[i] == f[a].value;
        RecordValue(keys, w, i, g[b]);
      }
    }
  }

  lemma RecordIsPlain(keys: seq<Text>, values: seq<Value>)
    requires |keys| == |values| && Distinct(keys)
    requires forall i :: 0 <= i < |keys| ==> values[i] == Undefined || (WellFormed(values[i]) && Plain(values[i]))
    ensures WellFormed(Obj(Record(keys, values))) && Plain(Obj(Record(keys, values)))
  {
    RecordFields(keys, values);
    var f := Record(keys, values);
    forall a | 0 <= a < |f| ensures WellFormed(f[a].value) && Plain(f[a].value) {
      assert f[a] in f;
    }
  }

  lemma RecordKeys(keys: seq<Text>, values: seq<Value>)
    requires |keys| == |values| && Distinct(keys) && Undefined !in values
    ensures forall k :: k in keys <==> Has(Record(keys, values), k)
  {
    RecordFields(keys, values);
    var f := Record(keys, values);
    forall k ensures k in keys <==> Has(f, k) {
      if k in keys {
        var i :| 0 <= i < |keys| && keys[i] == k;
        RecordHas(keys, values, i);
      }
      if j :| 0 <= j < |f| && f[j].key == k && f[j].value != Undefined {
        assert f[j] in f;
      }
    }
  }

  /** `x ?? null` of an optional text. */
  function OrNull(x: Option<Text>): Value {
    match x
    case Some(t) => Str(t)
    case None => Null
  }

  /** Literal keys with different text at some place are different keys. */
  lemma Differ(a: string, b: string, at: nat)
    requires at < |a| && at < |b| && a[at] != b[at] && a[at] as int < 128 && b[at] as int < 128
    ensures Ascii(a) != Ascii(b)
  {
    assert Ascii(a)[at] != Ascii(b)[at];
  }
}
