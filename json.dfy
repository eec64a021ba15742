/** Values the forwarder moves around: decoded JSON log records, the
    supervisor's timestamps and the documents handed to the search backend.
    A JavaScript object is modelled as a map from field names to values; the
    insertion order of its keys is not modelled. */
module Json {

  datatype Option<+T> = None | Some(value: T)

  /** A loosely typed field value. `Date` is the object `new Date(v)` built
      from a value `v`; numbers are modelled as integers. */
  datatype Value =
    | Null
    | Bool(b: bool)
    | Num(n: int)
    | Str(s: string)
    | Arr(items: seq<Value>)
    | Obj(fields: map<string, Value>)
    | Date(from: Value)

  /** A plain object: its own enumerable fields. */
  type Record = map<string, Value>

  /** The object literal `{...base, ...over}`: every field of both, and where
      both have a field of the same name the one from `over` wins. */
  function Spread(base: Record, over: Record): (r: Record)
    ensures r.Keys == base.Keys + over.Keys
    ensures forall k :: k in over ==> r[k] == over[k]
    ensures forall k :: k in base && k !in over ==> r[k] == base[k]
  {
    base + over
  }

  /** The property access `r.key`: `None` stands for `undefined`. */
  function Field(r: Record, key: string): (v: Option<Value>)
    ensures v.Some? <==> key in r
    ensures v.Some? ==> v.value == r[key]
  {
    if key in r then Some(r[key]) else None
  }
}
