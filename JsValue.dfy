/** JavaScript values as the schema engine and the editor see them, and the
    few language operations the sources apply to them: truthiness, `typeof`,
    `Object.prototype.toString`, property reads and `Object.keys`. */
module JsValue {

  import opened Wrappers
  import JsString

  /** A JavaScript number: finite, one of the two infinities, or NaN. */
  datatype Number = Finite(r: real) | PosInfinity | NegInfinity | NaN

  /** A JavaScript value. An object's own enumerable properties are kept in
      key order; lookups take the first entry with a key. `Leaf` is a
      SchemaType: a validator function carrying `isSchemaType`, its type name
      and the options it was built with (src/Schema.js:49-58). */
  datatype Value =
    | Undefined
    | Null
    | Bool(b: bool)
    | Num(n: Number)
    | Str(s: string)
    | Func                                   // a function with no schema metadata
    | Date(validTime: bool)                  // a Date; validTime is false when getTime() is NaN
    | Bytes(data: seq<bv8>)                  // a Node Buffer
    | Arr(elems: seq<Value>)
    | Obj(props: seq<(string, Value)>)       // a plain object
    | Leaf(validate: Validator, typeName: string, opts: seq<(string, Value)>)

  /** The underlying check a SchemaType wraps (the first argument of
      `maybeRequired`). `ArrayValue` and `ArrayOfType` belong to the
      `array`/`arrayOf` kinds, which the shown src/Schema.js does not define. */
  datatype Predicate =
    | Something                  // isSomething
    | TypeIs(tag: string)        // typeValidator(tag)
    | PlainObject                // isObject
    | ValidDate                  // isValidDate
    | ArrayValue                 // isArray
    | ArrayOfType(element: Value) // isArrayOfType(element)

  /** `maybeRequired(actual)(isRequired)`, the validator every factory builds. */
  datatype Validator = Validator(actual: Predicate, isRequired: bool)

  /** What a call can throw. */
  datatype Error =
    | ReadOfNullish(key: string)                        // TypeError: reading `key` of undefined or null
    | NotAFunction(name: string)                        // TypeError: `name` is not a function
    | SchemaDefinition(location: string, badLeaf: Value) // Error(invalidSchemaMessage(badLeaf, location))
    | ExpectedArray                                     // every() given a non-array
    | InvalidSchemaGiven                                // matchesSchema() given an invalid schema
    | InvalidIdentifier(identifier: Value)              // Error('invalid schema type identifier')
    | EndlessRender                                     // a render that never finishes

  predicate IsNullish(v: Value)
  {
    v.Undefined? || v.Null?
  }

  /** JavaScript truthiness (`!!v`). */
  predicate Truthy(v: Value)
  {
    match v
    case Undefined => false
    case Null => false
    case Bool(b) => b
    case Num(n) => !(n == NaN || n == Finite(0.0))
    case Str(s) => s != ""
    case _ => true
  }

  /** `typeof v`. A SchemaType is a function. */
  function TypeOf(v: Value): string
  {
    match v
    case Undefined => "undefined"
    case Null => "object"
    case Bool(_) => "boolean"
    case Num(_) => "number"
    case Str(_) => "string"
    case Func => "function"
    case Leaf(_, _, _) => "function"
    case _ => "object"
  }

  /** `Object.prototype.toString.call(v)`. */
  function ClassTag(v: Value): string
  {
    match v
    case Undefined => "[object Undefined]"
    case Null => "[object Null]"
    case Bool(_) => "[object Boolean]"
    case Num(_) => "[object Number]"
    case Str(_) => "[object String]"
    case Func => "[object Function]"
    case Leaf(_, _, _) => "[object Function]"
    case Date(_) => "[object Date]"
    case Bytes(_) => "[object Uint8Array]"
    case Arr(_) => "[object Array]"
    case Obj(_) => "[object Object]"
  }

  /** The position of the first property named `key`. */
  function IndexOfKey(props: seq<(string, Value)>, key: string): (r: Option<nat>)
    ensures r.Some? ==> r.value < |props| && props[r.value].0 == key
    ensures r.Some? ==> forall j :: 0 <= j < r.value ==> props[j].0 != key
    ensures r.None? ==> forall j :: 0 <= j < |props| ==> props[j].0 != key
  {
    if props == [] then None
    else if props[0].0 == key then Some(0)
    else match IndexOfKey(props[1..], key)
      case None => None
      case Some(i) => Some(i + 1)
  }

  predicate HasKey(props: seq<(string, Value)>, key: string)
  {
    IndexOfKey(props, key).Some?
  }

  /** `obj[key]` on a property list: the first value under `key`, else undefined. */
  function Lookup(props: seq<(string, Value)>, key: string): Value
  {
    match IndexOfKey(props, key)
    case Some(i) => props[i].1
    case None => Undefined
  }

  /** An own property of a plain object, which is part of the object. */
  function PropertyOf(v: Value, key: string): (r: Value)
    requires v.Obj?
    ensures r.Undefined? || r < v
    ensures r == Lookup(v.props, key)
  {
    match IndexOfKey(v.props, key)
    case Some(i) => v.props[i].1
    case None => Undefined
  }

  /** An option a SchemaType was built with, which is part of the SchemaType. */
  function OptionOf(v: Value, key: string): (r: Value)
    requires v.Leaf?
    ensures r.Undefined? || r < v
    ensures r == Lookup(v.opts, key)
  {
    match IndexOfKey(v.opts, key)
    case Some(i) => v.opts[i].1
    case None => Undefined
  }

  /** `v[key]`. Reading a property of undefined or null throws. A SchemaType
      answers from `{isSchemaType: true, type, ...opts}`, so an option
      overrides the two built-in fields. Built-in properties of other values
      (`length`, prototype methods) are not modelled and read as undefined. */
  function Get(v: Value, key: string): Result<Value, Error>
  {
    match v
    case Undefined => Err(ReadOfNullish(key))
    case Null => Err(ReadOfNullish(key))
    case Obj(props) => Ok(PropertyOf(v, key))
    case Leaf(_, typeName, opts) =>
      if HasKey(opts, key) then Ok(OptionOf(v, key))
      else if key == "isSchemaType" then Ok(Bool(true))
      else if key == "type" then Ok(Str(typeName))
      else Ok(Undefined)
    case _ => Ok(Undefined)
  }

  /** `v[key]` for a key other than the two a SchemaType answers itself:
      undefined, or a value that is part of `v`. */
  function Member(v: Value, key: string): (r: Value)
    requires !IsNullish(v) && key != "isSchemaType" && key != "type"
    ensures r.Undefined? || r < v
    ensures Get(v, key) == Ok(r)
  {
    match v
    case Leaf(_, _, opts) => if HasKey(opts, key) then OptionOf(v, key) else Undefined
    case Obj(_) => PropertyOf(v, key)
    case _ => Undefined
  }

  /** `update(obj, {[key]: {$set: v}})` and `{...obj, [key]: v}`: a copy with
      `key` set, in place when present, appended otherwise. */
  function Assign(props: seq<(string, Value)>, key: string, v: Value): (r: seq<(string, Value)>)
    ensures HasKey(r, key) && Lookup(r, key) == v
    ensures forall k :: k != key ==> IndexOfKey(r, k) == IndexOfKey(props, k) && Lookup(r, k) == Lookup(props, k)
    ensures HasKey(props, key) ==> |r| == |props| && forall j :: 0 <= j < |r| ==> r[j].0 == props[j].0
    ensures !HasKey(props, key) ==> r == props + [(key, v)]
  {
    AssignIndex(props, key, v);
    match IndexOfKey(props, key)
    case Some(i) => props[i := (key, v)]
    case None => props + [(key, v)]
  }

  lemma AssignIndex(props: seq<(string, Value)>, key: string, v: Value)
    ensures match IndexOfKey(props, key)
      case Some(i) =>
        IndexOfKey(props[i := (key, v)], key) == Some(i) &&
        forall k :: k != key ==> IndexOfKey(props[i := (key, v)], k) == IndexOfKey(props, k)
      case None =>
        IndexOfKey(props + [(key, v)], key) == Some(|props|) &&
        forall k :: k != key ==> IndexOfKey(props + [(key, v)], k) == IndexOfKey(props, k)
  {
    match IndexOfKey(props, key)
    case Some(i) =>
      var r := props[i := (key, v)];
      FirstKeyAt(r, key, i);
      forall k | k != key
        ensures IndexOfKey(r, k) == IndexOfKey(props, k)
      {
        SameKeysSameIndex(r, props, k);
      }
    case None =>
      var r := props + [(key, v)];
      FirstKeyAt(r, key, |props|);
      forall k | k != key
        ensures IndexOfKey(r, k) == IndexOfKey(props, k)
      {
        match IndexOfKey(props, k)
        case Some(j) => FirstKeyAt(r, k, j);
        case None =>
      }
  }

  /** The first property named `key` is at `i`. */
  lemma FirstKeyAt(props: seq<(string, Value)>, key: string, i: nat)
    requires i < |props| && props[i].0 == key
    requires forall j :: 0 <= j < i ==> props[j].0 != key
    ensures IndexOfKey(props, key) == Some(i)
  {
  }

  lemma SameKeysSameIndex(p: seq<(string, Value)>, q: seq<(string, Value)>, key: string)
    requires |p| == |q| && forall j :: 0 <= j < |p| ==> p[j].0 == q[j].0
    ensures IndexOfKey(p, key) == IndexOfKey(q, key)
  {
    match IndexOfKey(q, key)
    case Some(i) => FirstKeyAt(p, key, i);
    case None =>
  }

  /** The number of own enumerable entries of a plain object or an array. */
  function EntryCount(v: Value): nat
  {
    match v
    case Obj(props) => |props|
    case Arr(elems) => |elems|
    case _ => 0
  }

  /** The key of entry `i`: a property name, or an array index in decimal. */
  function EntryKey(v: Value, i: nat): string
    requires i < EntryCount(v)
  {
    match v
    case Obj(props) => props[i].0
    case Arr(_) => JsString.NatToString(i)
  }

  /** The value of entry `i`, which is part of `v`. */
  function EntryValue(v: Value, i: nat): (r: Value)
    requires i < EntryCount(v)
    ensures r < v
  {
    match v
    case Obj(props) => props[i].1
    case Arr(elems) => elems[i]
  }

  /** The property names of a property list, in order. */
  function KeysOf(props: seq<(string, Value)>): (r: seq<string>)
    ensures |r| == |props| && forall i :: 0 <= i < |r| ==> r[i] == props[i].0
  {
    if props == [] then [] else [props[0].0] + KeysOf(props[1..])
  }

  /** The decimal index keys "0", ..., "n-1" of an array-like value. */
  function IndexKeys(n: nat): (r: seq<string>)
    ensures |r| == n && forall i :: 0 <= i < n ==> r[i] == JsString.NatToString(i)
  {
    if n == 0 then [] else IndexKeys(n - 1) + [JsString.NatToString(n - 1)]
  }

  /** `Object.keys(v)` for a value that is not undefined or null (for which it
      throws). A function's metadata lives on its prototype, not among its own
      keys; a string has its indices as keys. A Buffer is modelled without
      enumerable entries. */
  function OwnKeys(v: Value): (r: seq<string>)
    requires !IsNullish(v)
    ensures |r| == EntryCount(v) || v.Str?
    ensures forall i :: 0 <= i < EntryCount(v) ==> i < |r| && r[i] == EntryKey(v, i)
    ensures v.Str? ==> |r| == |v.s| && forall i :: 0 <= i < |r| ==> r[i] == JsString.NatToString(i)
  {
    match v
    case Obj(props) => KeysOf(props)
    case Arr(elems) => IndexKeys(|elems|)
    case Str(s) => IndexKeys(|s|)
    case _ => []
  }
}
