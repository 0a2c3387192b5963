/** JSON values as the Python JSON library hands them back (dict, list, str, number,
    bool, None), and the handful of Python operations the client applies to them:
    subscription, `.get`, `in`, truthiness and `str()`. Each operation that can raise
    returns a `PyResult`, so that an exception the client does not catch is a value here. */
module PyJson {
  import Strings

  /** The Python exception classes the client's JSON handling can raise. */
  datatype Exc = TypeError | KeyError | IndexError | AttributeError | NameError

  /** The outcome of a Python expression: a value, or an exception raised. */
  datatype PyResult<+T> = Ok(value: T) | Raise(exc: Exc) {
    predicate IsFailure() {
      Raise?
    }

    function PropagateFailure<U>(): PyResult<U>
      requires Raise?
    {
      Raise(exc)
    }

    function Extract(): T
      requires Ok?
    {
      value
    }
  }

  /** A decoded JSON document. Objects are dictionaries keyed by strings (the decoder
      keeps the last of duplicated keys, so a map is exact). */
  datatype Json =
    | JNull
    | JBool(b: bool)
    | JNum(n: real)
    | JStr(s: string)
    | JArr(items: seq<Json>)
    | JObj(fields: map<string, Json>)

  /** What the JSON decoder makes of a text: a value, or a decode error. */
  datatype Parse = Malformed | Parsed(value: Json)

  /** `data["choices"][0][field]["content"]` is defined and equal to `c`, stated as a
      shape: an object whose `choices` list starts with an object whose `field` object
      has a `content` of `c`. */
  predicate ChoiceContentAt(data: Json, field: string, c: Json) {
    && data.JObj? && "choices" in data.fields
    && data.fields["choices"].JArr?
    && |data.fields["choices"].items| > 0
    && data.fields["choices"].items[0].JObj?
    && field in data.fields["choices"].items[0].fields
    && data.fields["choices"].items[0].fields[field].JObj?
    && "content" in data.fields["choices"].items[0].fields[field].fields
    && data.fields["choices"].items[0].fields[field].fields["content"] == c
  }

  /** `bool(j)`: None, False, zero and empty containers are false. Among strings only
      the empty one is false, so the `""` default of a missing key reads as absent. */
  predicate Truthy(j: Json)
    ensures j.JStr? ==> (Truthy(j) <==> j != JStr(""))
  {
    match j
    case JNull => false
    case JBool(b) => b
    case JNum(n) => n != 0.0
    case JStr(s) => |s| > 0
    case JArr(items) => |items| > 0
    case JObj(fields) => |fields| > 0
  }

  /** `j[key]` with a string key: only a dictionary can be subscripted by a string. */
  function Subscript(j: Json, key: string): (r: PyResult<Json>)
    ensures r.Ok? <==> j.JObj? && key in j.fields
    ensures r.Ok? ==> r.value == j.fields[key]
  {
    match j
    case JObj(fields) => if key in fields then Ok(fields[key]) else Raise(KeyError)
    case _ => Raise(TypeError)
  }

  /** `j[0]`: the first element of a list, the first character of a string; a
      dictionary has no key `0`, because JSON keys are strings. */
  function Index0(j: Json): (r: PyResult<Json>)
    ensures j.JArr? && |j.items| > 0 ==> r == Ok(j.items[0])
    ensures r.Ok? ==> j.JArr? || j.JStr?
  {
    match j
    case JArr(items) => if |items| > 0 then Ok(items[0]) else Raise(IndexError)
    case JStr(s) => if |s| > 0 then Ok(JStr([s[0]])) else Raise(IndexError)
    case JObj(_) => Raise(KeyError)
    case _ => Raise(TypeError)
  }

  /** `j.get(key, default)`: only dictionaries have `.get`. */
  function Get(j: Json, key: string, default: Json): (r: PyResult<Json>)
    ensures r.Ok? <==> j.JObj?
    ensures j.JObj? && key in j.fields ==> r == Ok(j.fields[key])
    ensures j.JObj? && key !in j.fields ==> r == Ok(default)
  {
    match j
    case JObj(fields) => Ok(if key in fields then fields[key] else default)
    case _ => Raise(AttributeError)
  }

  /** `key in j` with a string `key`: a dictionary key, a list element, or a substring;
      numbers, booleans and None are not containers. */
  function Contains(j: Json, key: string): (r: PyResult<bool>)
    ensures r.Ok? <==> j.JObj? || j.JArr? || j.JStr?
    ensures j.JObj? ==> r == Ok(key in j.fields)
  {
    match j
    case JObj(fields) => Ok(key in fields)
    case JArr(items) => Ok(JStr(key) in items)
    case JStr(s) => Ok(Strings.IsInfix(key, s))
    case _ => Raise(TypeError)
  }

  /** `str(j)` as an f-string renders it: a string is itself, anything else goes
      through Python's `repr`, which is the caller-supplied `render`. */
  function Str(j: Json, render: Json -> string): (s: string)
    ensures j.JStr? ==> s == j.s
  {
    match j
    case JStr(s) => s
    case _ => render(j)
  }
}
