/**
 * Decoded JSON values as Python sees them after `json.loads`, with the few Python
 * operations the modelled code applies to them: truthiness, `dict.get`,
 * `isinstance(x, int)` and `int(x)`. JSON numbers with a fraction are not modelled.
 */
module PyJson {
  import opened Wrappers
  import opened PyText

  datatype Json =
    | JNull
    | JBool(b: bool)
    | JInt(i: int)
    | JStr(s: string)
    | JList(elems: seq<Json>)
    | JObj(fields: map<string, Json>)

  /** Python's `bool(x)`. */
  predicate Truthy(j: Json) {
    match j
    case JNull => false
    case JBool(b) => b
    case JInt(i) => i != 0
    case JStr(s) => s != []
    case JList(e) => e != []
    case JObj(m) => m != map[]
  }

  /** `d.get(key)` on a decoded object: `None` for a missing key and for JSON `null`. */
  function Get(fields: map<string, Json>, key: string): (r: Json)
    ensures key !in fields ==> r == JNull
    ensures key in fields ==> r == fields[key]
  {
    if key in fields then fields[key] else JNull
  }

  /** `isinstance(x, int)`, which also holds for `True` and `False`. */
  predicate IsInt(j: Json) {
    j.JInt? || j.JBool?
  }

  function IntValue(j: Json): int
    requires IsInt(j)
  {
    match j
    case JInt(i) => i
    case JBool(b) => if b then 1 else 0
  }

  /** `int(x)`: `None` where Python raises `TypeError` or `ValueError`. */
  function PyIntOf(j: Json): (r: Option<int>)
    ensures IsInt(j) ==> r == Some(IntValue(j))
    ensures j.JStr? ==> r == PyInt(j.s)
    ensures j.JNull? || j.JList? || j.JObj? ==> r.None?
  {
    match j
    case JInt(i) => Some(i)
    case JBool(b) => Some(if b then 1 else 0)
    case JStr(s) => PyInt(s)
    case _ => None
  }

  /** Python's `str(x)` on a decoded JSON value; lists and objects go through `render`. */
  function PyStr(j: Json, render: Json -> string): string {
    match j
    case JNull => "None"
    case JBool(b) => if b then "True" else "False"
    case JInt(i) => Str(i)
    case JStr(s) => s
    case JList(_) => render(j)
    case JObj(_) => render(j)
  }
}
