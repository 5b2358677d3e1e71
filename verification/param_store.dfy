/** The untyped parameter store behind every request: a string-keyed table of
    values (a Java Hashtable<String, Object>), modelled as an immutable map. */
module ParamStore {
  import opened Wrappers
  import opened RpcTypes

  /** A value stored in the table, classified by the Java class the accessors
      test for with `instanceof`. */
  datatype Value =
    | Str(s: string)                        // java.lang.String
    | Align(alignment: TextAlignment)       // an already-typed TextAlignment
    | Img(image: Image)                     // an already-typed Image
    | Btn(button: SoftButton)               // an already-typed SoftButton
    | Table(entries: map<string, Value>)    // a nested Hashtable, as decoded from the wire
    | List(items: seq<Value>)               // a java.util.List
    | Null                                  // null (only possible inside a list)
    | Other                                 // an object of any other class

  type Params = map<string, Value>

  /** Hashtable.get: the value under `key`, or None when the key is absent. */
  function Lookup(p: Params, key: string): (r: Option<Value>)
    ensures r.None? <==> key !in p
    ensures r.Some? ==> key in p && p[key] == r.value
  {
    if key in p then Some(p[key]) else None
  }

  /** A Hashtable never holds a null value. */
  ghost predicate WellFormed(p: Params)
  {
    forall k :: k in p ==> p[k] != Null
  }

  /** `r` agrees with `p` on every key other than `key`. */
  ghost predicate OnlyKeyChanged(p: Params, r: Params, key: string)
  {
    forall k :: k != key ==> Lookup(r, k) == Lookup(p, k)
  }

  /** Hashtable.put, which rejects a null value. */
  function Put(p: Params, key: string, v: Value): (r: Params)
    requires v != Null
    ensures Lookup(r, key) == Some(v)
    ensures OnlyKeyChanged(p, r, key)
    ensures WellFormed(p) ==> WellFormed(r)
  {
    p[key := v]
  }

  /** Hashtable.remove: afterwards the key is absent, not present with null. */
  function Remove(p: Params, key: string): (r: Params)
    ensures Lookup(r, key) == None
    ensures OnlyKeyChanged(p, r, key)
    ensures WellFormed(p) ==> WellFormed(r)
  {
    p - {key}
  }
}
