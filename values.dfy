/**
 Values shared by the query builder and the relationship matcher: optional
 values, primary/array keys, the values an entity row holds, and the view of a
 model (`ModelInterface`) that the relationship code relies on.
 */
module Values {

  datatype Option<+T> = None | Some(value: T)

  /** A primary key or an array key: PHP's integer-or-string union. */
  datatype Key = IntKey(i: int) | StrKey(s: string)

  /**
   A value stored in an entity row. Scalars are the column values a query
   returns; `Row` and `Rows` are the nested payloads that the relationship
   matcher stores under a relationship name (one related row, or the ordered
   list of related rows).
   */
  datatype Value =
    | Null
    | Scalar(key: Key)
    | Row(fields: map<string, Value>)
    | Rows(items: seq<map<string, Value>>)

  /** An entity: a field-name-to-value mapping. */
  type Entity = map<string, Value>

  /**
   The two things the relationship code asks of a model: its table name and
   the primary key of an entity (null for an entity that is not saved yet).
   Both are given, pure functions of the model.
   */
  datatype Model = Model(table: string, getId: Entity -> Option<Key>)

  /** `$entity[$field]`: reading a missing field yields null. */
  function Field(e: Entity, field: string): Value
  {
    if field in e then e[field] else Null
  }

  /** `isset($entity[$field])`: the field is present and not null. */
  predicate IsSet(e: Entity, field: string)
  {
    field in e && e[field] != Null
  }

  /**
   The array key under which a set field value is indexed. Only scalar
   values can serve as keys; a null or nested value yields no key.
   */
  function KeyOf(v: Value): (r: Option<Key>)
    ensures r.Some? <==> v.Scalar?
    ensures r.Some? ==> v == Scalar(r.value)
  {
    match v
    case Scalar(k) => Some(k)
    case _ => None
  }
}
