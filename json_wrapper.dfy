/** The JSON access helpers of src/0_core/json_wrapper.cpp over a JSON value: the
  * inclusive range check, the 500-character dump prefix, the key check and the
  * `read_json_object` overloads, whose scalar forms write their target only when the
  * stored value is a number. */
module JsonWrapper {
  import opened Wrappers
  import opened GenericIf
  import NumUtil

  /** A JSON value. Numbers are integral; JSON floating-point numbers are not part of
    * this model. */
  datatype Json =
    | JNull
    | JBool(b: bool)
    | JNumber(n: int)
    | JString(s: string)
    | JArray(items: seq<Json>)
    | JObject(members: map<string, Json>)

  /** `json::size()`: 0 for null, the element count of an array or object, 1 otherwise. */
  function Size(j: Json): nat
  {
    match j
    case JNull => 0
    case JArray(items) => |items|
    case JObject(members) => |members|
    case _ => 1
  }

  /** `check_int_range(val, min, max)`: both bounds are inclusive. */
  function CheckIntRange(val: int, min: int, max: int): (r: bool)
    ensures r <==> min <= val && val <= max
  {
    if val < min then false
    else if val > max then false
    else true
  }

  const DumpLimit := 500

  /** `compact_json_dump` applied to the text `full` that `json::dump()` produced:
    * the whole text when it has at most 500 characters, otherwise its first 500. */
  function CompactJsonDump(full: string): (r: string)
    ensures |r| <= DumpLimit && r <= full
    ensures |full| <= DumpLimit ==> r == full
    ensures |full| > DumpLimit ==> |r| == DumpLimit
  {
    if |full| > DumpLimit then full[..DumpLimit] else full
  }

  /** Compacting an already compacted dump changes nothing. */
  lemma CompactJsonDumpIdempotent(full: string)
    ensures CompactJsonDump(CompactJsonDump(full)) == CompactJsonDump(full)
  {
  }

  /** The value `parent[name]` yields: the member of an object, null for a missing key
    * or a null parent (which the access turns into an object first), and a type error
    * for every other kind of parent. */
  function Member(parent: Json, name: string): (r: Result<Json, string>)
    ensures r.Failure? <==> !parent.JNull? && !parent.JObject?
    ensures parent.JObject? && name in parent.members ==> r == Success(parent.members[name])
  {
    if parent.JObject? then Success(if name in parent.members then parent.members[name] else JNull)
    else if parent.JNull? then Success(JNull)
    else Failure("type_error")
  }

  /** `check_key_exist`: true when `parent[name]` is not null; a null or missing value
    * throws. */
  function CheckKeyExist(parent: Json, name: string): (r: Result<bool, string>)
    ensures r.Success? <==> parent.JObject? && name in parent.members && !parent.members[name].JNull?
    ensures r.Success? ==> r.value
  {
    var m := Member(parent, name);
    if m.Failure? then Failure(m.error)
    else if m.value.JNull? then Failure("read_json_object() : " + name + " is not specified in the given file!")
    else Success(true)
  }

  /** `read_json_object(parent, json& child, name)`: the child is the member itself. */
  method ReadJsonObject(parent: Json, name: string) returns (child: Result<Json, string>)
    ensures child.Success? <==> CheckKeyExist(parent, name).Success?
    ensures child.Success? ==> child.value == parent.members[name]
    ensures child.Failure? ==> child.error == CheckKeyExist(parent, name).error
  {
    var ok := CheckKeyExist(parent, name);
    if ok.Failure? {
      return Failure(ok.error);
    }
    child := Member(parent, name);
  }

  /** `get<std::string>()`: only a string converts. */
  function GetString(j: Json): (r: Result<string, string>)
    ensures r.Success? <==> j.JString?
    ensures r.Success? ==> r.value == j.s
  {
    if j.JString? then Success(j.s) else Failure("type_error")
  }

  /** `get<unsigned int>()`: a number is cast to 32 bits, a boolean gives 0 or 1, and
    * every other value throws. */
  function GetUint(j: Json): (r: Result<Uint32, string>)
    ensures r.Success? <==> j.JNumber? || j.JBool?
    ensures j.JNumber? && 0 <= j.n < Uint32Modulus ==> r == Success(j.n)
  {
    match j
    case JNumber(n) => Success(n % Uint32Modulus)
    case JBool(b) => Success(if b then 1 else 0)
    case _ => Failure("type_error")
  }

  /** `read_json_object(parent, std::string&, name)`: a non-string value is logged and
    * then makes the assignment throw. */
  method ReadJsonString(parent: Json, name: string) returns (r: Result<string, string>)
    ensures r.Success? <==> CheckKeyExist(parent, name).Success? && parent.members[name].JString?
    ensures r.Success? ==> r.value == parent.members[name].s
  {
    var child := ReadJsonObject(parent, name);
    if child.Failure? {
      return Failure(child.error);
    }
    r := GetString(child.value);
  }

  /** The value an `int` target holds after `read_json_object(parent, int&, name)`:
    * a number is cast to a 32-bit `int`, any other value leaves the target as it was,
    * and a null or missing value throws. */
  function IntTarget(parent: Json, name: string, intValue: int): (r: Result<int, string>)
    requires NumUtil.IntMin <= intValue <= NumUtil.IntMax
    ensures r.Success? <==> CheckKeyExist(parent, name).Success?
    ensures r.Success? ==> NumUtil.IntMin <= r.value <= NumUtil.IntMax
  {
    var ok := CheckKeyExist(parent, name);
    if ok.Failure? then Failure(ok.error)
    else if parent.members[name].JNumber? then Success(NumUtil.Int32(parent.members[name].n))
    else Success(intValue)
  }

  /** A number is cast to a 32-bit `int`; any other value leaves the target as it was. */
  lemma IntTargetValue(parent: Json, name: string, intValue: int)
    requires NumUtil.IntMin <= intValue <= NumUtil.IntMax
    requires IntTarget(parent, name, intValue).Success?
    ensures parent.members[name].JNumber? ==> IntTarget(parent, name, intValue).value == NumUtil.Int32(parent.members[name].n)
    ensures !parent.members[name].JNumber? ==> IntTarget(parent, name, intValue).value == intValue
  {
  }

  /** An in-range number stored under the key is read back exactly. */
  lemma IntTargetReadsBack(parent: Json, name: string, intValue: int, v: int)
    requires NumUtil.IntMin <= intValue <= NumUtil.IntMax && NumUtil.IntMin <= v <= NumUtil.IntMax
    requires parent.JObject? && name in parent.members && parent.members[name] == JNumber(v)
    ensures IntTarget(parent, name, intValue) == Success(v)
  {
    assert NumUtil.Int32(v) == v;
  }

  /** `read_json_object(parent, int&, name)`: the result is the target's value after
    * the call. */
  method ReadJsonInt(parent: Json, name: string, intValue: int) returns (r: Result<int, string>)
    requires NumUtil.IntMin <= intValue <= NumUtil.IntMax
    ensures r == IntTarget(parent, name, intValue)
  {
    var child := ReadJsonObject(parent, name);
    if child.Failure? {
      return Failure(child.error);
    }
    if child.value.JNumber? {
      r := Success(NumUtil.Int32(child.value.n));
    } else {
      r := Success(intValue);
    }
  }

  /** The value an `unsigned int` target holds after `read_json_object(parent,
    * unsigned int&, name)`: as the `int` form, modulo 2^32. */
  function UintTarget(parent: Json, name: string, uValue: Uint32): (r: Result<Uint32, string>)
    ensures r.Success? <==> CheckKeyExist(parent, name).Success?
    ensures r.Success? && parent.members[name].JNumber? ==> r.value == parent.members[name].n % Uint32Modulus
    ensures r.Success? && !parent.members[name].JNumber? ==> r.value == uValue
  {
    var ok := CheckKeyExist(parent, name);
    if ok.Failure? then Failure(ok.error)
    else if parent.members[name].JNumber? then Success(parent.members[name].n % Uint32Modulus)
    else Success(uValue)
  }

  /** `read_json_object(parent, unsigned int&, name)`. */
  method ReadJsonUint(parent: Json, name: string, uValue: Uint32) returns (r: Result<Uint32, string>)
    ensures r == UintTarget(parent, name, uValue)
  {
    var child := ReadJsonObject(parent, name);
    if child.Failure? {
      return Failure(child.error);
    }
    if child.value.JNumber? {
      r := Success(child.value.n % Uint32Modulus);
    } else {
      r := Success(uValue);
    }
  }

  /** `read_json_object(parent, double&, name)`: a number is converted to a real; any
    * other value leaves the target as it was. */
  method ReadJsonDouble(parent: Json, name: string, doubleValue: real) returns (r: Result<real, string>)
    ensures r.Success? <==> CheckKeyExist(parent, name).Success?
    ensures r.Success? && parent.members[name].JNumber? ==> r.value == parent.members[name].n as real
    ensures r.Success? && !parent.members[name].JNumber? ==> r.value == doubleValue
  {
    var child := ReadJsonObject(parent, name);
    if child.Failure? {
      return Failure(child.error);
    }
    if child.value.JNumber? {
      r := Success(child.value.n as real);
    } else {
      r := Success(doubleValue);
    }
  }
}
