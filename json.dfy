/**
 * Decoded JSON values, as `response.json()` hands them to the parsers, with
 * the Python-side operations the parsers apply to them: `dict.get`,
 * truthiness and `str()`.
 */
module JsonValue {
  import opened Wrappers
  import opened PyText

  datatype Json =
    | JNull
    | JBool(b: bool)
    | JInt(i: int)
    | JStr(s: string)
    | JArr(elems: seq<Json>)
      /** A dict, fields in document order. */
    | JObj(fields: seq<(string, Json)>)

  /** `key in d`. */
  predicate HasKey(fields: seq<(string, Json)>, key: string) {
    exists i :: 0 <= i < |fields| && fields[i].0 == key
  }

  /** `d.get(key)`; as in `json.loads`, a repeated key keeps its last value. */
  function Lookup(fields: seq<(string, Json)>, key: string): (r: Option<Json>)
    ensures r.Some? <==> HasKey(fields, key)
  {
    if |fields| == 0 then None
    else if fields[|fields| - 1].0 == key then Some(fields[|fields| - 1].1)
    else
      var r := Lookup(fields[..|fields| - 1], key);
      assert forall i :: 0 <= i < |fields| - 1 ==> fields[..|fields| - 1][i] == fields[i];
      r
  }

  /** `d.get(key, default)`. */
  function Get(fields: seq<(string, Json)>, key: string, default: Json): Json {
    Lookup(fields, key).GetOr(default)
  }

  /** Python truthiness of a decoded value. */
  predicate Truthy(j: Json) {
    match j
    case JNull => false
    case JBool(b) => b
    case JInt(i) => i != 0
    case JStr(s) => s != ""
    case JArr(es) => |es| > 0
    case JObj(fs) => |fs| > 0
  }

  /** `== 1` in Python, where `True == 1` holds as well. */
  predicate EqualsOne(j: Json) {
    j == JInt(1) || j == JBool(true)
  }

  /** `str(value)` for scalars; containers give "" (see README, "Left out"). */
  function TextOf(j: Json): string {
    match j
    case JNull => "None"
    case JBool(b) => if b then "True" else "False"
    case JInt(i) => IntToStr(i)
    case JStr(s) => s
    case JArr(_) => ""
    case JObj(_) => ""
  }

  /** A value used where the source expects an integer; other values read as 0. */
  function IntOf(j: Json): int {
    match j
    case JInt(i) => i
    case JBool(b) => if b then 1 else 0
    case _ => 0
  }
}
