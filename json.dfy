/**
 * The values `JSON.parse` can produce, the JavaScript truthiness and
 * property lookup the session code applies to them, and the
 * `JSON.parse` / `JSON.stringify` pair as a codec.
 */
module Json {
  import opened Wrappers

  /** A JSON value; an object is a map from property names to values. */
  datatype Value =
    | Null
    | Bool(b: bool)
    | Number(n: real)
    | Str(s: string)
    | Array(items: seq<Value>)
    | Object(properties: map<string, Value>)

  /** JavaScript truthiness: `null`, `false`, `0` and `""` are falsy. */
  predicate Truthy(v: Value)
  {
    match v
    case Null => false
    case Bool(b) => b
    case Number(n) => n != 0.0
    case Str(s) => s != ""
    case Array(_) => true
    case Object(_) => true
  }

  /**
   * `v[key]` for a property the value does not inherit: only objects have
   * own properties; a missing one reads as `undefined` (here `None`).
   */
  function Property(v: Value, key: string): (r: Option<Value>)
    ensures r.Some? <==> v.Object? && key in v.properties
    ensures r.Some? ==> r.value == v.properties[key]
  {
    if v.Object? && key in v.properties then Some(v.properties[key]) else None
  }

  /**
   * `JSON.stringify` and `JSON.parse`; `parse` yields `None` where the
   * real one throws.
   */
  datatype Codec = Codec(stringify: Value -> string, parse: string -> Option<Value>) {

    /**
     * The two facts the session store relies on for a value it stores: it
     * parses back to an equal value, and its text is never empty.  (Asking
     * this of every value is impossible: no map from the reals into strings
     * is one-to-one.)
     */
    ghost predicate RoundTrips(v: Value)
    {
      parse(stringify(v)) == Some(v) && stringify(v) != ""
    }
  }
}
