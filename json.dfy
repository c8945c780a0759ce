/** Already-decoded JSON values and records, with the two JavaScript semantics the
    handlers rely on: truthiness (`!x`) and strict equality (`===`). */
module Json {
  import opened Wrappers

  /** A JSON value. Numbers are exact reals: JSON.parse never produces NaN, and
      floating-point rounding is not modelled. */
  datatype JsonValue =
    | Null
    | Bool(b: bool)
    | Num(n: real)
    | Str(s: string)
    | Arr(items: seq<JsonValue>)
    | Obj(fields: map<string, JsonValue>)

  /** A record of a collection: a string-keyed object whose reserved field is "id". */
  type Record = map<string, JsonValue>

  const IdField: string := "id"

  /** JavaScript truthiness of a JSON value: exactly the falsy values a JSON document can
      hold (null, false, zero and the empty string) are not truthy. */
  predicate Truthy(v: JsonValue): (b: bool)
    ensures b <==> v !in {Null, Bool(false), Num(0.0), Str("")}
  {
    match v
    case Null => false
    case Bool(b) => b
    case Num(n) => n != 0.0
    case Str(s) => s != ""
    case Arr(_) => true
    case Obj(_) => true
  }

  /** `a === b` for two values that come from separate JSON parses: primitives compare
      by value, while two arrays or objects are two distinct references and never equal. */
  predicate StrictEquals(a: JsonValue, b: JsonValue): (r: bool)
    ensures r <==> IsPrimitive(a) && a == b
  {
    match (a, b)
    case (Null, Null) => true
    case (Bool(x), Bool(y)) => x == y
    case (Num(x), Num(y)) => x == y
    case (Str(x), Str(y)) => x == y
    case _ => false
  }

  /** A primitive value, the only kind `===` can find equal to anything. */
  predicate IsPrimitive(v: JsonValue) {
    !v.Arr? && !v.Obj?
  }

  /** `r.id`: the record's identifier, or None for `undefined`. */
  function IdOf(r: Record): Option<JsonValue> {
    if IdField in r then Some(r[IdField]) else None
  }

  /** `r.id === v`; an absent field is `undefined`, which equals no JSON value. */
  predicate HasId(r: Record, v: JsonValue) {
    IdField in r && StrictEquals(r[IdField], v)
  }

  /** `!r.id` is false: the record carries a truthy identifier. */
  predicate HasTruthyId(r: Record) {
    IdField in r && Truthy(r[IdField])
  }

  /** Strict equality is symmetric, and it holds only between primitives, each of
      which is strictly equal to itself. */
  lemma StrictEqualsFacts(a: JsonValue, b: JsonValue)
    ensures StrictEquals(a, b) <==> StrictEquals(b, a)
    ensures StrictEquals(a, b) ==> IsPrimitive(a) && a == b
    ensures IsPrimitive(a) <==> StrictEquals(a, a)
  {
  }
}
