/** JSON-like values as JavaScript holds them, with text as UTF-16 code units. */
module Json {
  type CodeUnit = u: int | 0 <= u < 0x1_0000
  type Text = seq<CodeUnit>

  /** A double: its sign, its shortest round-trip decimal digits and the position of the point. */
  datatype Number =
    | NaN
    | Infinite(negative: bool)
    | Zero(negative: bool)
    | Finite(negative: bool, digits: seq<int>, point: int)

  datatype Value =
    | Undefined
    | Null
    | Bool(b: bool)
    | Num(n: Number)
    | Str(s: Text)
    | Arr(items: seq<Value>)
    | Obj(fields: seq<Field>)

  /** Fields are listed in insertion order; a field may hold `undefined`. */
  datatype Field = Field(key: Text, value: Value)

  /** Code units of a literal of the program, all of which are ASCII. */
  function Ascii(s: string): (t: Text)
    ensures |t| == |s|
  {
    seq(|s|, i requires 0 <= i < |s| => if s[i] as int < 128 then s[i] as int else 0)
  }

  predicate Has(fields: seq<Field>, key: Text) {
    exists i :: 0 <= i < |fields| && fields[i].key == key && fields[i].value != Undefined
  }

  /** Property lookup: `undefined` for an absent key. */
  function Get(fields: seq<Field>, key: Text): Value {
    if fields == [] then Undefined
    else if fields[0].key == key then fields[0].value
    else Get(fields[1..], key)
  }

  predicate DistinctKeys(fields: seq<Field>) {
    forall i, j :: 0 <= i < j < |fields| ==> fields[i].key != fields[j].key
  }

  lemma {:induction false} GetFindsField(fields: seq<Field>, i: nat)
    requires DistinctKeys(fields) && i < |fields|
    ensures Get(fields, fields[i].key) == fields[i].value
  {
    if i > 0 {
      GetFindsField(fields[1..], i - 1);
    }
  }
}
