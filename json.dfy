/**
 * A stand-in for nlohmann::json: the value type, the exceptions its
 * accessors throw, and the accessor semantics the server relies on
 * (`contains`, `get<T>()`, `operator[]` assignment, `value(key, default)`).
 * Serialisation (`dump()`) and parsing are left uninterpreted: they are
 * passed in as function values of type `Dump` and `Parse`.
 */
module Json {

  /** A JSON value. Objects are maps, so their keys are unique and iterate in ascending order. */
  datatype Json =
    | JNull
    | JBool(b: bool)
    | JInt(i: int)
    | JFloat(f: real)
    | JString(s: string)
    | JArray(items: seq<Json>)
    | JObject(fields: map<string, Json>)

  /** `json::exception` (and subclasses) versus any other `std::exception`; `what` is the message. */
  datatype Exception = JsonError(what: string) | RuntimeError(what: string)

  datatype Option<+T> = None | Some(value: T)

  /** The result of code that either returns a value or throws. */
  datatype Outcome<+T> = Ok(value: T) | Throws(error: Exception)

  /** `json::parse` either yields a value or throws a parse error with a message. */
  datatype ParseResult = Parsed(value: Json) | Malformed(what: string)

  type Dump = Json -> string
  type Parse = string -> ParseResult

  /** `type_name()`. */
  function TypeName(j: Json): (r: string)
    ensures r in {"null", "boolean", "number", "string", "array", "object"}
    ensures r == "number" <==> j.JInt? || j.JFloat?
  {
    match j
    case JNull => "null"
    case JBool(_) => "boolean"
    case JInt(_) => "number"
    case JFloat(_) => "number"
    case JString(_) => "string"
    case JArray(_) => "array"
    case JObject(_) => "object"
  }

  /** `j.contains(key)`: only an object can contain a key. */
  predicate Contains(j: Json, key: string)
  {
    j.JObject? && key in j.fields
  }

  /** The members of an object; any other value has none (and `operator[]` turns null into an object). */
  function FieldsOf(j: Json): map<string, Json>
  {
    if j.JObject? then j.fields else map[]
  }

  /** The fixed parts of the library's `type_error` messages. */
  const Message302: string := "[json.exception.type_error.302] type must be "
  const Message305: string := "[json.exception.type_error.305] cannot use operator[] with a string argument with "
  const Message306: string := "[json.exception.type_error.306] cannot use value() with "

  function TypeError302(expected: string, j: Json): Exception
  {
    JsonError(Message302 + expected + ", but is " + TypeName(j))
  }

  /** `j.get<std::string>()` (and the implicit conversion to `std::string`). */
  function GetString(j: Json): (r: Outcome<string>)
    ensures r.Ok? <==> j.JString?
    ensures r.Ok? ==> r.value == j.s
    ensures r.Throws? ==> r.error.JsonError?
  {
    if j.JString? then Ok(j.s) else Throws(TypeError302("string", j))
  }

  /** `j.get<bool>()`. */
  function GetBool(j: Json): (r: Outcome<bool>)
    ensures r.Ok? <==> j.JBool?
    ensures r.Ok? ==> r.value == j.b
    ensures r.Throws? ==> r.error.JsonError?
  {
    if j.JBool? then Ok(j.b) else Throws(TypeError302("boolean", j))
  }

  const TwoTo32: int := 0x1_0000_0000
  const TwoTo31: int := 0x8000_0000

  /** A conversion to a 32-bit `int`, wrapping modulo 2^32. */
  function ToInt32(i: int): (r: int)
    ensures -TwoTo31 <= r < TwoTo31
    ensures (r - i) % TwoTo32 == 0
    ensures -TwoTo31 <= i < TwoTo31 ==> r == i
  {
    (i + TwoTo31) % TwoTo32 - TwoTo31
  }

  /** Truncation toward zero, as a C++ cast from floating point to integer does. */
  function Truncate(f: real): (r: int)
    ensures f >= 0.0 ==> r as real <= f < r as real + 1.0
    ensures f < 0.0 ==> r as real - 1.0 < f <= r as real
  {
    if f >= 0.0 then f.Floor else -((-f).Floor)
  }

  /** `j.get<int>()`: numbers and booleans convert, everything else throws. */
  function GetInt(j: Json): (r: Outcome<int>)
    ensures r.Ok? <==> j.JInt? || j.JFloat? || j.JBool?
    ensures r.Ok? ==> -TwoTo31 <= r.value < TwoTo31
    ensures j.JInt? && -TwoTo31 <= j.i < TwoTo31 ==> r == Ok(j.i)
    ensures r.Throws? ==> r.error.JsonError?
  {
    match j
    case JInt(i) => Ok(ToInt32(i))
    case JFloat(f) => Ok(ToInt32(Truncate(f)))
    case JBool(b) => Ok(if b then 1 else 0)
    case _ => Throws(TypeError302("number", j))
  }

  /** `j[key] = v`: null turns into an object, an object gets the key set, anything else throws. */
  function Set(j: Json, key: string, v: Json): (r: Outcome<Json>)
    ensures r.Ok? <==> j.JNull? || j.JObject?
    ensures j.JNull? ==> r == Ok(JObject(map[key := v]))
    ensures j.JObject? ==> r == Ok(JObject(j.fields[key := v]))
    ensures r.Throws? ==> r.error.JsonError?
  {
    match j
    case JNull => Ok(JObject(map[key := v]))
    case JObject(f) => Ok(JObject(f[key := v]))
    case _ => Throws(JsonError(Message305 + TypeName(j)))
  }

  /** `j.value(key, default)` for a string default. */
  function ValueOr(j: Json, key: string, default: string): (r: Outcome<string>)
    ensures Contains(j, key) ==> r == GetString(j.fields[key])
    ensures j.JObject? && key !in j.fields ==> r == Ok(default)
    ensures !j.JObject? ==> r.Throws? && r.error.JsonError?
  {
    match j
    case JObject(f) => if key in f then GetString(f[key]) else Ok(default)
    case _ => Throws(JsonError(Message306 + TypeName(j)))
  }

  /** The empty object `json::object()`. */
  const EmptyObject: Json := JObject(map[])
}
