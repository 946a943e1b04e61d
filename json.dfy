/** Java's `null` for reference values. */
module Wrappers {
  datatype Option<+T> = None | Some(value: T)
}

/** The decoded JSON the client exchanges with the wallet service: an object is a
    `Map<String, Object>` whose values are strings, booleans, numbers, decimals,
    lists, nested objects or `null`. */
module Json {
  import opened Wrappers
  import opened Decimals

  datatype JValue =
    | JNull
    | JBool(b: bool)
    | JNum(n: int)
    | JDec(d: Decimal)
    | JStr(s: string)
    | JArr(items: seq<JValue>)
    | JObj(fields: map<string, JValue>)

  type JObject = map<string, JValue>

  /** A Java string reference as a JSON value. */
  function StringOrNull(s: Option<string>): (v: JValue)
    ensures s.None? <==> v.JNull?
    ensures s.Some? ==> v == JStr(s.value)
  {
    if s.Some? then JStr(s.value) else JNull
  }

  /** `(String) m.get(key)`: the string stored under key, or null when the key is
      missing or mapped to null. */
  function StringAt(m: JObject, key: string): (r: Option<string>)
    ensures r.Some? <==> key in m && m[key].JStr?
    ensures r.Some? ==> m[key] == JStr(r.value)
  {
    if key in m && m[key].JStr? then Some(m[key].s) else None
  }

  /** The value under key may be cast to String. */
  predicate StringTyped(m: JObject, key: string)
  {
    key in m ==> m[key].JStr? || m[key].JNull?
  }

  /** The value under key may be cast to Number and unboxed. */
  predicate NumberTyped(m: JObject, key: string)
  {
    key in m ==> m[key].JNum?
  }

  /** `((Number) m.getOrDefault(key, dflt)).longValue()`. */
  function LongAt(m: JObject, key: string, dflt: int): (r: int)
    requires NumberTyped(m, key)
    ensures InLong(r)
    ensures key in m && InLong(m[key].n) ==> r == m[key].n
    ensures key !in m && InLong(dflt) ==> r == dflt
  {
    ToLong(if key in m then m[key].n else dflt)
  }
}
