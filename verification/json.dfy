/**
 * The parsed JSON documents the feed API returns, and the `dict.get(key, default)`
 * lookups the archiver chains over them.
 *
 * A lookup that finds a value of another JSON type than the one the code goes on to
 * use (an object where a list is expected, say) is treated as if the key were absent.
 */
module Json {
  import opened Wrappers

  datatype Json =
    | JNull
    | JBool(b: bool)
    | JNum(n: int)
    | JStr(s: string)
    | JArr(items: seq<Json>)
    | JObj(fields: map<string, Json>)

  const EmptyObj: Json := JObj(map[])

  /** `key in d` for a dict `d`. */
  predicate Has(j: Json, key: string) {
    j.JObj? && key in j.fields
  }

  /** `d.get(key)`, with `None` as `Option.None`. */
  function Field(j: Json, key: string): (r: Option<Json>)
    ensures r.Some? <==> Has(j, key)
  {
    if Has(j, key) then Some(j.fields[key]) else None
  }

  /** `d.get(key, {})`: always an object. */
  function Obj(j: Json, key: string): (r: Json)
    ensures r.JObj?
    ensures Has(j, key) && j.fields[key].JObj? ==> r == j.fields[key]
    ensures !Has(j, key) ==> r == EmptyObj
  {
    match Field(j, key)
    case Some(JObj(m)) => JObj(m)
    case _ => EmptyObj
  }

  /** `d.get(k1, {}).get(k2, {})...` along a path of keys. */
  function Path(j: Json, keys: seq<string>): (r: Json)
    ensures keys != [] ==> r.JObj?
    ensures keys == [] ==> r == j
    decreases keys
  {
    if keys == [] then j else Path(Obj(j, keys[0]), keys[1..])
  }

  /** `d.get(key, default)` where a list is expected. */
  function Arr(j: Json, key: string, default: seq<Json>): (r: seq<Json>)
    ensures Has(j, key) && j.fields[key].JArr? ==> r == j.fields[key].items
    ensures !Has(j, key) ==> r == default
  {
    match Field(j, key)
    case Some(JArr(xs)) => xs
    case _ => default
  }

  /** `d.get(key, default)` where a string is expected. */
  function Str(j: Json, key: string, default: string): (r: string)
    ensures Has(j, key) && j.fields[key].JStr? ==> r == j.fields[key].s
    ensures !Has(j, key) ==> r == default
  {
    match Field(j, key)
    case Some(JStr(s)) => s
    case _ => default
  }

  /** `d.get(key)` where a string or `None` is expected. */
  function OptStr(j: Json, key: string): (r: Option<string>)
    ensures r.Some? <==> Has(j, key) && j.fields[key].JStr?
  {
    match Field(j, key)
    case Some(JStr(s)) => Some(s)
    case _ => None
  }

  /** Python's truth value of a JSON value. */
  predicate Truthy(j: Json) {
    match j
    case JNull => false
    case JBool(b) => b
    case JNum(n) => n != 0
    case JStr(s) => s != ""
    case JArr(xs) => xs != []
    case JObj(m) => m != map[]
  }

  /**
   * `d.get(key, [dict()])[0]`: the first element of a list that defaults to `[{}]`;
   * a present but empty list raises `IndexError`.
   */
  function FirstOf(j: Json, key: string): (r: Result<Json>)
    ensures r.Err? <==> Has(j, key) && j.fields[key] == JArr([])
    ensures !(Has(j, key) && j.fields[key].JArr?) ==> r == Ok(EmptyObj)
    ensures Has(j, key) && j.fields[key].JArr? && j.fields[key].items != [] ==> r == Ok(j.fields[key].items[0])
  {
    var xs := Arr(j, key, [EmptyObj]);
    if xs == [] then Err(IndexError) else Ok(xs[0])
  }

  /** `d.get(key, [dict()])[-1]`, the last element, with the same failure. */
  function LastOf(j: Json, key: string): (r: Result<Json>)
    ensures r.Err? <==> Has(j, key) && j.fields[key] == JArr([])
    ensures !(Has(j, key) && j.fields[key].JArr?) ==> r == Ok(EmptyObj)
    ensures Has(j, key) && j.fields[key].JArr? && j.fields[key].items != [] ==>
      r == Ok(j.fields[key].items[|j.fields[key].items| - 1])
  {
    var xs := Arr(j, key, [EmptyObj]);
    if xs == [] then Err(IndexError) else Ok(xs[|xs| - 1])
  }

  /** `d.get(key, {}).get("runs", [dict()])[0].get("text", default)`: the first run's text. */
  function FirstRunText(j: Json, key: string, default: string): (r: Result<string>)
    ensures r.Err? <==> Has(Obj(j, key), "runs") && Obj(j, key).fields["runs"] == JArr([])
    ensures !(Has(Obj(j, key), "runs") && Obj(j, key).fields["runs"].JArr?) ==> r == Ok(default)
    ensures var runs := Obj(j, key);
      Has(runs, "runs") && runs.fields["runs"].JArr? && runs.fields["runs"].items != [] ==>
        r == Ok(Str(runs.fields["runs"].items[0], "text", default))
  {
    var first :- FirstOf(Obj(j, key), "runs");
    Ok(Str(first, "text", default))
  }
}
