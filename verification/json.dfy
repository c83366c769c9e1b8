/** The JSON values the extension passes between its stages (nlohmann::json).
    Objects are keyed maps, as nlohmann's default object type is an ordered
    `std::map`; the text form of a value (`dump`) is not modelled and is
    supplied by a `Serializer`. */
module Json {
  import opened Wrappers
  import opened Text

  datatype Value =
    | Null
    | Bool(b: bool)
    | Int(i: int)
    | Real(r: real)
    | Str(s: string)
    | Arr(items: seq<Value>)
    | Obj(fields: map<string, Value>)

  /** `json::empty()`: true for null, an empty array and an empty object. */
  predicate IsEmpty(v: Value) {
    v.Null? || (v.Arr? && |v.items| == 0) || (v.Obj? && |v.fields| == 0)
  }

  /** `dump()` (compact) and `dump(4)` (indented) text of a value. */
  datatype Serializer = Serializer(dump: Value -> string, pretty: Value -> string)

  /** The text a value is written out as where a string is emitted as it is
      (`get<std::string>()`) and any other value as its JSON dump. */
  function Shown(v: Value, ser: Serializer): (t: string)
    ensures v.Str? ==> t == v.s
    ensures !v.Str? ==> t == ser.dump(v)
  {
    if v.Str? then v.s else ser.dump(v)
  }

  /** Shortened forms of the library's `type_error.302` messages for reading
      a value as the wrong type: the exception id in front and the name of
      the actual type after are left out. */
  const TYPE_ERROR: string := "type must be string"
  const NUMBER_ERROR: string := "type must be number"
  const OBJECT_ERROR: string := "type must be object"

  /** Shortened forms of `type_error.305`, `.307` and `.308`: indexing,
      erasing from and appending to a value of a type that does not allow it. */
  const INDEX_ERROR: string := "cannot use operator[]"
  const ERASE_ERROR: string := "cannot use erase()"
  const PUSH_BACK_ERROR: string := "cannot use push_back()"

  /** `push_back(x)`: a null value becomes the array `[x]`, an array gets `x`
      appended, anything else throws. */
  function PushBack(v: Value, x: Value): (r: Result<Value>)
    ensures r.Ok? <==> v.Null? || v.Arr?
    ensures r.Ok? ==> r.value == Arr((if v.Arr? then v.items else []) + [x])
    ensures r.Err? ==> r.error == PUSH_BACK_ERROR
  {
    match v
    case Null => assert [] + [x] == [x]; Ok(Arr([x]))
    case Arr(items) => Ok(Arr(items + [x]))
    case _ => Err(PUSH_BACK_ERROR)
  }

  /** `j.contains(k) ? j.at(k) : ...`: only an object has members. */
  function Field(j: Value, k: string): (r: Option<Value>)
    ensures r.Some? <==> j.Obj? && k in j.fields
    ensures r.Some? ==> r.value == j.fields[k]
  {
    if j.Obj? && k in j.fields then Some(j.fields[k]) else None
  }

  /** `get<std::string>()`. */
  function AsString(v: Value): (r: Result<string>)
    ensures r.Ok? <==> v.Str?
    ensures r.Ok? ==> r.value == v.s
    ensures r.Err? ==> r.error == TYPE_ERROR
  {
    if v.Str? then Ok(v.s) else Err(TYPE_ERROR)
  }

  /** `get<int>()`: an integer is cast to 32 bits, a boolean gives 0 or 1
      and a floating-point number is truncated towards zero. */
  function AsInt(v: Value): (r: Result<int>)
    ensures r.Ok? <==> v.Int? || v.Bool? || v.Real?
    ensures r.Ok? ==> INT32_MIN <= r.value <= INT32_MAX
    ensures v.Int? && INT32_MIN <= v.i <= INT32_MAX ==> r == Ok(v.i)
    ensures r.Err? ==> r.error == NUMBER_ERROR
  {
    match v
    case Int(i) => Ok(Wrap32(i))
    case Bool(b) => Ok(if b then 1 else 0)
    case Real(x) => Ok(Wrap32(if x >= 0.0 then x.Floor else -((-x).Floor)))
    case _ => Err(NUMBER_ERROR)
  }

  /** A map of strings as the object of string members it is stored as. */
  function StringObject(m: map<string, string>): (v: Value)
    ensures v.Obj? && v.fields.Keys == m.Keys
    ensures forall k :: k in m ==> v.fields[k] == Str(m[k])
  {
    Obj(map k | k in m :: Str(m[k]))
  }

  /** `get<std::unordered_map<std::string, std::string>>()`: an object
      whose members are all strings. */
  function AsStringMap(v: Value): (r: Result<map<string, string>>)
    ensures r.Ok? <==> v.Obj? && forall k :: k in v.fields ==> v.fields[k].Str?
    ensures r.Ok? ==> StringObject(r.value) == v
  {
    if !v.Obj? then Err(OBJECT_ERROR)
    else if exists k :: k in v.fields && !v.fields[k].Str? then Err(TYPE_ERROR)
    else Ok(map k | k in v.fields :: v.fields[k].s)
  }

  /** Reading back the object a string map is stored as gives the map. */
  lemma StringObjectRoundTrip(m: map<string, string>)
    ensures AsStringMap(StringObject(m)) == Ok(m)
  {
    var v := StringObject(m);
    var back := map k | k in v.fields :: v.fields[k].s;
    assert back.Keys == m.Keys;
    assert forall k :: k in m ==> back[k] == m[k];
    assert !(exists k :: k in v.fields && !v.fields[k].Str?);
    assert back == m;
  }
}
