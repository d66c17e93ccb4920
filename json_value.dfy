/** The JSON values that the taxonomy is loaded from and saved as, together with
    the three JavaScript tests the repair routine applies to them: truthiness,
    `typeof x === 'object'` and `Array.isArray`. JSON numbers are modelled as
    integers; only whether a number is zero matters to the repair. */
module JsonValue {

  datatype Json =
    | JNull
    | JBool(b: bool)
    | JNum(n: int)
    | JString(s: string)
    | JArray(elems: seq<Json>)
    | JObject(fields: map<string, Json>)

  /** JavaScript truthiness of a JSON value: `null`, `false`, `0` and `""` are falsy. */
  predicate Truthy(j: Json) {
    match j
    case JNull => false
    case JBool(b) => b
    case JNum(n) => n != 0
    case JString(s) => s != ""
    case JArray(_) => true
    case JObject(_) => true
  }

  /** `typeof j === 'object'`, which holds for `null` and for arrays as well. */
  predicate IsObjectType(j: Json) {
    j.JNull? || j.JArray? || j.JObject?
  }

  /** A property read `o[key]`. A missing property reads as `undefined`; every test
      the model applies treats `undefined` exactly as `null`, so it is `JNull` here. */
  function Lookup(fields: map<string, Json>, key: string): (r: Json)
    ensures key in fields ==> r == fields[key]
    ensures key !in fields ==> r == JNull
  {
    if key in fields then fields[key] else JNull
  }
}
