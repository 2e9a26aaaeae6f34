/** `serializeBigInt`: make a value JSON-safe by replacing every `bigint`, at
    any depth, with its decimal string. Objects are plain records of their own
    enumerable keys. */
module BigIntSerialize {
  import opened Wrappers
  import opened JsText

  /** The JavaScript values the function distinguishes. */
  datatype Value =
    | Undefined
    | Null
    | Bool(b: bool)
    | Num(n: real)
    | Str(s: string)
    | BigInt(i: int)
    | Array(items: seq<Value>)
    | Object(fields: map<string, Value>)

  /** No `bigint` anywhere inside `v`. */
  predicate BigIntFree(v: Value)
    decreases v
  {
    match v
    case BigInt(_) => false
    case Array(items) => forall k :: 0 <= k < |items| ==> BigIntFree(items[k])
    case Object(fields) => forall key :: key in fields ==> BigIntFree(fields[key])
    case _ => true
  }

  /** A primitive other than `bigint`: returned as it is. */
  predicate IsPlainPrimitive(v: Value) {
    v.Undefined? || v.Null? || v.Bool? || v.Num? || v.Str?
  }

  /** `serializeBigInt(v)`. A `bigint` becomes its `toString()`, an array is
      mapped element by element, an object is rebuilt with the same own keys,
      and anything else comes back unchanged. */
  function Serialize(v: Value): (r: Value)
    ensures v.BigInt? ==> r == Str(IntToDecimal(v.i))
    ensures v.Array? <==> r.Array?
    ensures v.Array? ==> |r.items| == |v.items|
    ensures v.Object? <==> r.Object?
    ensures v.Object? ==> r.fields.Keys == v.fields.Keys
    ensures IsPlainPrimitive(v) ==> r == v
    decreases v
  {
    match v
    case BigInt(i) => Str(IntToDecimal(i))
    case Array(items) =>
      Array(seq(|items|, k requires 0 <= k < |items| => Serialize(items[k])))
    case Object(fields) =>
      Object(map key | key in fields :: Serialize(fields[key]))
    case _ => v
  }

  /** Elements and fields are serialised in place: position by position and
      key by key. */
  lemma SerializeComponents(v: Value)
    ensures v.Array? ==> forall k :: 0 <= k < |v.items| ==> Serialize(v).items[k] == Serialize(v.items[k])
    ensures v.Object? ==> forall key :: key in v.fields ==> Serialize(v).fields[key] == Serialize(v.fields[key])
  {
  }

  /** The output holds no `bigint` at any depth. */
  lemma {:induction false} SerializeBigIntFree(v: Value)
    ensures BigIntFree(Serialize(v))
    decreases v
  {
    match v
    case Array(items) =>
      forall k | 0 <= k < |items|
        ensures BigIntFree(Serialize(v).items[k])
      {
        SerializeBigIntFree(items[k]);
      }
    case Object(fields) =>
      forall key | key in fields
        ensures BigIntFree(Serialize(v).fields[key])
      {
        SerializeBigIntFree(fields[key]);
      }
    case _ =>
  }

  /** On a `bigint`-free value the function is the identity. */
  lemma {:induction false} SerializeFixesBigIntFree(v: Value)
    requires BigIntFree(v)
    ensures Serialize(v) == v
    decreases v
  {
    match v
    case Array(items) =>
      forall k | 0 <= k < |items|
        ensures Serialize(items[k]) == items[k]
      {
        SerializeFixesBigIntFree(items[k]);
      }
      assert Serialize(v).items == items;
    case Object(fields) =>
      forall key | key in fields
        ensures Serialize(fields[key]) == fields[key]
      {
        SerializeFixesBigIntFree(fields[key]);
      }
      assert Serialize(v).fields == fields;
    case _ =>
  }

  /** Serialising twice is serialising once. */
  lemma SerializeIdempotent(v: Value)
    ensures Serialize(Serialize(v)) == Serialize(v)
  {
    SerializeBigIntFree(v);
    SerializeFixesBigIntFree(Serialize(v));
  }

  /** The string a `bigint` becomes reads back as the same `bigint`. */
  lemma SerializedBigIntParses(i: int)
    ensures Serialize(BigInt(i)).Str?
    ensures ParseBigInt(Serialize(BigInt(i)).s) == Some(i)
  {
    ParseBigIntOfDecimal(i);
  }
}
