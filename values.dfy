/**
 * The dynamically typed values the agent passes around: what `json.loads`
 * produces, what tools return, and the dictionaries the loop builds. A Python
 * `dict` with string keys is a `Record`; an exception is an `Exc`.
 */
module Values {

  import opened Wrappers

  /** A JSON value. JSON numbers, integral or not, are exact reals here. */
  datatype Value =
    | JNull
    | JBool(b: bool)
    | JNum(n: real)
    | JStr(s: string)
    | JList(items: seq<Value>)
    | JObj(fields: map<string, Value>)

  /** A Python dictionary keyed by strings. */
  type Record = map<string, Value>

  /**
   * An exception raised inside the agent loop. Python's `str(e)` is carried
   * structurally: `Raised` holds the message of an exception raised by a
   * collaborator (the model client, a tool), `DecodeFailed` is the
   * `json.JSONDecodeError` for a document, `NoJson` the `ValueError` raised
   * when no object can be found, and `TypeFault` a `TypeError`,
   * `AttributeError` or `KeyError` that Python itself raises when an
   * operation meets a value of the wrong shape.
   */
  datatype Exc =
    | Raised(message: string)
    | DecodeFailed(document: string)
    | NoJson(message: string)
    | TypeFault(operation: string)

  /** `d.get(key, default)`. */
  function Get(d: Record, key: string, default: Value): Value
  {
    if key in d then d[key] else default
  }

  /** Python's `len(v)`: defined on strings, lists and dictionaries only. */
  function PyLen(v: Value): (r: Option<nat>)
    ensures r.Some? <==> (v.JStr? || v.JList? || v.JObj?)
  {
    match v
    case JStr(s) => Some(|s|)
    case JList(xs) => Some(|xs|)
    case JObj(m) => Some(|m|)
    case _ => None
  }

  /** Python's `str(v)`: a string is itself; any other value is rendered by
      `show`, which stands for `repr`-style formatting. */
  function Str(show: Value -> string, v: Value): (r: string)
    ensures v.JStr? ==> r == v.s
  {
    if v.JStr? then v.s else show(v)
  }

  /** A list of strings as a JSON list. */
  function StrList(xs: seq<string>): (r: Value)
    ensures r.JList? && |r.items| == |xs|
    ensures forall i :: 0 <= i < |xs| ==> r.items[i] == JStr(xs[i])
  {
    JList(seq(|xs|, i requires 0 <= i < |xs| => JStr(xs[i])))
  }
}
