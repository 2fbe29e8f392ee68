/** The typed snapshot a completed manual payment leaves in its idempotency record, and its recogniser. */
module StoredPayments {
  import opened Json

  /** The public columns of a payment; amount and instant are the texts the writer stores. */
  datatype Payment = Payment(
    id: Text,
    orderId: Text,
    customerId: Text,
    transactionNumber: Text,
    direction: Text,
    purpose: Text,
    paymentMethod: Text,
    amount: Text,
    status: Text,
    paidAt: Text)

  function ResultKeys(): seq<string> {
    ["id", "orderId", "customerId", "transactionNumber", "direction",
     "purpose", "paymentMethod", "amount", "status", "paidAt"]
  }

  function Columns(p: Payment): seq<Text> {
    [p.id, p.orderId, p.customerId, p.transactionNumber, p.direction,
     p.purpose, p.paymentMethod, p.amount, p.status, p.paidAt]
  }

  function ResultFields(p: Payment): (fields: seq<Field>)
    ensures |fields| == 10
  {
    seq(10, i requires 0 <= i < 10 => Field(Ascii(ResultKeys()[i]), Str(Columns(p)[i])))
  }

  function ToResult(p: Payment): Value {
    Obj(ResultFields(p))
  }

  const VERSION := Num(Finite(false, [1], 1))

  function Kind(): Value {
    Str(Ascii("finance-manual-payment-create"))
  }

  function ToStored(p: Payment): Value {
    Obj([Field(Ascii("version"), VERSION), Field(Ascii("kind"), Kind()), Field(Ascii("result"), ToResult(p))])
  }

  predicate IsStored(v: Value) {
    && v.Obj?
    && Get(v.fields, Ascii("version")) == VERSION
    && Get(v.fields, Ascii("kind")) == Kind()
    && var result := Get(v.fields, Ascii("result"));
    && result.Obj?
    && forall i | 0 <= i < 10 :: Get(result.fields, Ascii(ResultKeys()[i])).Str?
  }

  function StoredResult(v: Value): Value
    requires IsStored(v)
  {
    Get(v.fields, Ascii("result"))
  }

  lemma ResultKeysDiffer(i: nat, j: nat)
    requires i < j < 10
    ensures Ascii(ResultKeys()[i]) != Ascii(ResultKeys()[j])
  {
    var a, b := ResultKeys()[i], ResultKeys()[j];
    assert |a| != |b| || a[0] != b[0];
    if |a| == |b| {
      assert Ascii(a)[0] != Ascii(b)[0];
    }
  }

  /** Whatever was written is recognised, and read back as the result given to the first caller. */
  lemma StoredResultRoundTrip(p: Payment)
    ensures IsStored(ToStored(p))
    ensures StoredResult(ToStored(p)) == ToResult(p)
  {
    var fields := ToStored(p).fields;
    assert |Ascii("version")| == 7 && |Ascii("kind")| == 4 && |Ascii("result")| == 6;
    assert DistinctKeys(fields);
    GetFindsField(fields, 0);
    GetFindsField(fields, 1);
    GetFindsField(fields, 2);
    var inner := ResultFields(p);
    forall i, j | 0 <= i < j < 10 ensures inner[i].key != inner[j].key {
      ResultKeysDiffer(i, j);
    }
    forall i | 0 <= i < 10 ensures Get(inner, Ascii(ResultKeys()[i])) == Str(Columns(p)[i]) {
      GetFindsField(inner, i);
    }
  }

  /** The result object holds the columns of the payment, whatever else it holds. */
  ghost predicate ShowsPayment(result: Value, p: Payment) {
    result.Obj? && forall i | 0 <= i < 10 :: Get(result.fields, Ascii(ResultKeys()[i])) == Str(Columns(p)[i])
  }

  /** What is recognised: an object of this version and kind whose result reads as that of some payment. */
  lemma RecognisedExactlyWhen(v: Value)
    ensures IsStored(v) <==>
      && v.Obj?
      && Get(v.fields, Ascii("version")) == Num(Finite(false, [1], 1))
      && Get(v.fields, Ascii("kind")) == Str(Ascii("finance-manual-payment-create"))
      && exists p :: ShowsPayment(Get(v.fields, Ascii("result")), p)
  {
    if IsStored(v) {
      var fields := Get(v.fields, Ascii("result")).fields;
      var t := seq(10, i requires 0 <= i < 10 => Get(fields, Ascii(ResultKeys()[i])).s);
      var p := Payment(t[0], t[1], t[2], t[3], t[4], t[5], t[6], t[7], t[8], t[9]);
      assert Columns(p) == t;
      assert ShowsPayment(Get(v.fields, Ascii("result")), p);
    }
  }

  /** The result shows every public column: payments with the same stored snapshot have the same columns. */
  lemma StoredResultIsFaithful(p: Payment, q: Payment)
    requires ToStored(p) == ToStored(q)
    ensures p == q
  {
    assert ToStored(p).fields[2].value == ToStored(q).fields[2].value;
    assert ResultFields(p) == ResultFields(q);
    forall i | 0 <= i < 10 ensures Columns(p)[i] == Columns(q)[i] {
      assert ResultFields(p)[i].value == ResultFields(q)[i].value;
    }
    assert Columns(p) == Columns(q);
    assert [Columns(p)[0], Columns(p)[1], Columns(p)[2], Columns(p)[3], Columns(p)[4],
            Columns(p)[5], Columns(p)[6], Columns(p)[7], Columns(p)[8], Columns(p)[9]] == Columns(p);
  }
}
