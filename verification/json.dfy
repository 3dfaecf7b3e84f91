/**
 * The JSON values the node sends back, with the accessors the client uses.
 * An object is a map from keys to values, so a key occurs at most once.
 */
module Json {
  import opened Wrappers
  import opened Ints

  /** A JSON number: an integer, or a number written with a fraction or exponent. */
  datatype Number = Int(value: int) | Float(text: string)

  datatype Value =
    | Null
    | Bool(b: bool)
    | Num(n: Number)
    | Str(s: string)
    | Arr(items: seq<Value>)
    | Obj(fields: map<string, Value>)
  {
    /** Key lookup; a non-object has no keys. */
    function Get(key: string): (r: Option<Value>)
      ensures r.Some? <==> Obj? && key in fields
      ensures r.Some? ==> r.value == fields[key]
    {
      if Obj? && key in fields then Some(fields[key]) else None
    }

    /** Indexing by key: a missing key, or indexing a non-object, yields Null. */
    function Index(key: string): (r: Value)
      ensures Get(key).Some? ==> r == Get(key).value
      ensures Get(key).None? ==> r == Null
    {
      Get(key).GetOr(Null)
    }

    function AsArray(): (r: Option<seq<Value>>)
      ensures r.Some? <==> Arr?
      ensures r.Some? ==> r.value == items
    {
      if Arr? then Some(items) else None
    }

    function AsStr(): (r: Option<string>)
      ensures r.Some? <==> Str?
      ensures r.Some? ==> r.value == s
    {
      if Str? then Some(s) else None
    }

    /** Succeeds only on an integer that fits an unsigned 64-bit word. */
    function AsU64(): (r: Option<u64>)
      ensures r.Some? <==> Num? && n.Int? && 0 <= n.value <= U64_MAX
      ensures r.Some? ==> Num(Int(r.value)) == this
    {
      if Num? && n.Int? && 0 <= n.value <= U64_MAX then Some(n.value) else None
    }
  }
}
