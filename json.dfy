/** JavaScript values as they travel in request bodies and Supabase rows:
    JSON plus `Date` objects. Object properties are listed in the order
    `Object.keys` enumerates them; the model reads that as insertion order,
    which holds for every key that is not an array index. */
module Json {
  datatype Value =
    | JNull
    | JBool(b: bool)
    | JNumber(n: real)
    | JString(s: string)
    | JDate(time: int)
    | JArray(items: seq<Value>)
    | JObject(fields: seq<Field>)

  datatype Field = Field(key: string, value: Value)

  function KeySet(fs: seq<Field>): set<string>
  {
    set f | f in fs :: f.key
  }

  /** No property name occurs twice, as in every JavaScript object. */
  predicate DistinctKeys(fs: seq<Field>)
  {
    forall i, j :: 0 <= i < j < |fs| ==> fs[i].key != fs[j].key
  }
}
