/** The schema engine of src/Schema.js: the predicates, the required/optional
    combinator, the SchemaType factories and the well-formedness check of a
    schema tree. The last section models the members the tests and the type
    declarations use but the shown src/Schema.js does not define
    (`matchesSchema`, `isArrayOfType`, `every`, `isArray`, `arrayOf`, `array`). */
module Schema {

  import opened Wrappers
  import opened JsValue

  // ---------------------------------------------------------------------
  // Predicates
  // ---------------------------------------------------------------------

  /** `isValidDate`: the value is a Date and its time is not NaN. */
  function IsValidDate(test: Value): (r: bool)
    ensures r <==> test.Date? && test.validTime
  {
    if ClassTag(test) != "[object Date]" then false else test.validTime
  }

  /** `typeValidator(type)`: the check `typeof test === type`. */
  function TypeValidator(tag: string): (r: Value -> bool)
    ensures forall test :: r(test) <==> TypeOf(test) == tag
  {
    test => TypeOf(test) == tag
  }

  /** `isSomething`: anything but undefined. */
  function IsSomething(test: Value): (r: bool)
    ensures r <==> !test.Undefined?
  {
    TypeOf(test) != "undefined"
  }

  /** `isObject`: a vanilla object, judged by its class tag. */
  function IsObject(test: Value): (r: bool)
    ensures r <==> test.Obj?
  {
    ClassTag(test) == "[object Object]"
  }

  /** `maybeRequired(actuallyValidate)(isRequired)(something)`, uncurried: an
      absent value passes when it is not required; otherwise the underlying
      validator decides. */
  function MaybeRequired(actuallyValidate: Value -> bool, isRequired: bool, something: Value): (r: bool)
    ensures !isRequired && something.Undefined? ==> r
    ensures isRequired || !something.Undefined? ==> r == actuallyValidate(something)
  {
    (!isRequired && TypeOf(something) == "undefined") || actuallyValidate(something)
  }

  /** The tag comparisons the sample primitives make, including `null` as an
      object and a SchemaType as a function. */
  lemma TypeValidatorSamples()
    ensures TypeValidator("object")(Null) && TypeValidator("object")(Obj([]))
    ensures TypeValidator("function")(Func) && TypeValidator("function")(CreateSchemaType(Something, "any", []))
    ensures TypeValidator("number")(Num(NaN)) && !TypeValidator("number")(Str("1"))
    ensures !TypeValidator("undefined")(Null) && TypeValidator("undefined")(Undefined)
  {
  }

  // ---------------------------------------------------------------------
  // Calling a SchemaType (with the extension's array predicates, which the
  // arrayOf kind makes mutually recursive with matching)
  // ---------------------------------------------------------------------

  /** The underlying predicate of a SchemaType, applied to a value. */
  function Holds(p: Predicate, test: Value): bool
    decreases p, 0
  {
    match p
    case Something => IsSomething(test)
    case TypeIs(tag) => TypeValidator(tag)(test)
    case PlainObject => IsObject(test)
    case ValidDate => IsValidDate(test)
    case ArrayValue => IsArray(test)
    case ArrayOfType(element) => IsArrayOfType(element, test)
  }

  /** Calling the validator a SchemaType was built from. */
  function Validate(v: Validator, test: Value): bool
    decreases v, 1
  {
    MaybeRequired(x => Holds(v.actual, x), v.isRequired, test)
  }

  /** Calling a SchemaType on a value. */
  function Call(schemaType: Value, test: Value): bool
    requires schemaType.Leaf?
  {
    Validate(schemaType.validate, test)
  }

  // ---------------------------------------------------------------------
  // SchemaType and its factories
  // ---------------------------------------------------------------------

  /** `SchemaType(validate, type, opts)`: the validator tagged with
      `{isSchemaType: true, type, ...opts}`. */
  function SchemaType(validate: Validator, typeName: string, opts: seq<(string, Value)>): (r: Value)
    ensures r.Leaf? && TypeOf(r) == "function"
    ensures !HasKey(opts, "isSchemaType") ==> Get(r, "isSchemaType") == Ok(Bool(true))
    ensures !HasKey(opts, "type") ==> Get(r, "type") == Ok(Str(typeName))
    ensures forall k :: HasKey(opts, k) ==> Get(r, k) == Ok(Lookup(opts, k))
    ensures forall x :: Call(r, x) == Validate(validate, x)
  {
    Leaf(validate, typeName, opts)
  }

  /** `!!opts.required` for an options object. */
  predicate RequiredOption(opts: seq<(string, Value)>)
  {
    Truthy(Lookup(opts, "required"))
  }

  /** `createSchemaType(maybeRequired(actual), type)(opts)`; an omitted options
      argument is the empty object. */
  function CreateSchemaType(actual: Predicate, typeName: string, opts: seq<(string, Value)>): (r: Value)
    ensures r.Leaf? && r.typeName == typeName && r.opts == opts
    ensures r.validate.actual == actual
    ensures r.validate.isRequired <==> RequiredOption(opts)
  {
    SchemaType(Validator(actual, RequiredOption(opts)), typeName, opts)
  }

  /** The keys of `SchemaTypes` (src/Schema.js:85-93), and `array` from the
      type declarations (index.d.ts:24). That declaration gives no check for
      `array`; it is taken to be `Array.isArray`, as the extension's `isArray`. */
  datatype Kind = AnyType | StringType | BooleanType | ObjectType | FunctionType | NumberType | DateType | ArrayType

  function KindName(k: Kind): string
  {
    match k
    case AnyType => "any"
    case StringType => "string"
    case BooleanType => "boolean"
    case ObjectType => "object"
    case FunctionType => "function"
    case NumberType => "number"
    case DateType => "date"
    case ArrayType => "array"
  }

  function KindPredicate(k: Kind): Predicate
  {
    match k
    case AnyType => Something
    case StringType => TypeIs("string")
    case BooleanType => TypeIs("boolean")
    case ObjectType => PlainObject
    case FunctionType => TypeIs("function")
    case NumberType => TypeIs("number")
    case DateType => ValidDate
    case ArrayType => ArrayValue
  }

  /** `SchemaTypes[k](opts)`. */
  function SchemaTypes(k: Kind, opts: seq<(string, Value)>): Value
  {
    CreateSchemaType(KindPredicate(k), KindName(k), opts)
  }

  /** A factory call yields a SchemaType tagged with its kind and options,
      whose check is `maybeRequired` of the kind's predicate under
      `!!opts.required`. */
  lemma SchemaTypesLeaf(k: Kind, opts: seq<(string, Value)>, x: Value)
    ensures var t := SchemaTypes(k, opts);
      t.Leaf? && TypeOf(t) == "function" &&
      (!HasKey(opts, "isSchemaType") ==> Get(t, "isSchemaType") == Ok(Bool(true))) &&
      (!HasKey(opts, "type") ==> Get(t, "type") == Ok(Str(KindName(k)))) &&
      (forall key :: HasKey(opts, key) ==> Get(t, key) == Ok(Lookup(opts, key))) &&
      Call(t, x) == MaybeRequired(y => Holds(KindPredicate(k), y), RequiredOption(opts), x)
  {
  }

  /** Every factory's predicate rejects undefined, so a required SchemaType
      rejects an absent value and an optional one accepts it. */
  lemma {:induction false} RequiredDecidesUndefined(k: Kind, opts: seq<(string, Value)>)
    ensures Call(SchemaTypes(k, opts), Undefined) <==> !RequiredOption(opts)
  {
    assert !Holds(KindPredicate(k), Undefined) by {
      match k
      case AnyType =>
      case StringType =>
      case BooleanType =>
      case ObjectType =>
      case FunctionType =>
      case NumberType =>
      case DateType =>
      case ArrayType =>
    }
  }

  /** The kind name of each factory is distinct, so the `type` tag tells the kinds apart. */
  lemma KindNameInjective(k1: Kind, k2: Kind)
    requires KindName(k1) == KindName(k2)
    ensures k1 == k2
  {
  }

  // ---------------------------------------------------------------------
  // Schema well-formedness
  // ---------------------------------------------------------------------

  /** `invalidSchemaMessage(badLeaf, location)`, given the text `shown` that
      `${badLeaf}` renders to. */
  function InvalidSchemaMessage(shown: string, badLeaf: Value, location: string): (r: string)
    ensures |r| >= 4 + |location| && r[..4 + |location|] == "(At " + location
    ensures |r| > |TypeOf(badLeaf)| && r[|r| - |TypeOf(badLeaf)| - 1..] == ":" + TypeOf(badLeaf)
  {
    "(At " + location + "): Expected a SchemaType, but got " + shown + ":" + TypeOf(badLeaf)
  }

  /** The value of `schema.isSchemaType` is truthy; false for undefined and
      null, whose read throws. */
  predicate IsSchemaTypeNode(schema: Value)
  {
    match Get(schema, "isSchemaType")
    case Ok(flag) => Truthy(flag)
    case Err(_) => false
  }

  /** `validateSchema(schema, location)`: null for a SchemaType; for any other
      object, the keys are checked in order and the first failure propagates;
      reading `isSchemaType` of undefined or null throws a TypeError; any other
      value is reported with its location. */
  function ValidateSchema(schema: Value, location: string): Result<(), Error>
    decreases schema, 1
  {
    match Get(schema, "isSchemaType")
    case Err(e) => Err(e)
    case Ok(flag) =>
      if Truthy(flag) then Ok(())
      else if TypeOf(schema) == "object" then ValidateEntries(schema, 0, location)
      else Err(SchemaDefinition(location, schema))
  }

  /** The `forEach` over `Object.keys(schema)` from entry `i` on. */
  function ValidateEntries(schema: Value, i: nat, location: string): Result<(), Error>
    requires i <= EntryCount(schema)
    decreases schema, 0, EntryCount(schema) - i
  {
    if i == EntryCount(schema) then Ok(())
    else match ValidateSchema(EntryValue(schema, i), location + "." + EntryKey(schema, i))
      case Err(e) => Err(e)
      case Ok(_) => ValidateEntries(schema, i + 1, location)
  }

  /** A schema tree: every node is flagged as a SchemaType, or is an object
      (not null) whose entries are all schema trees. */
  ghost predicate WellFormed(s: Value)
    decreases s
  {
    !IsNullish(s) &&
    (IsSchemaTypeNode(s) ||
     (TypeOf(s) == "object" && forall i | 0 <= i < EntryCount(s) :: WellFormed(EntryValue(s, i))))
  }

  /** `validateSchema` succeeds exactly on schema trees, wherever it starts. */
  lemma {:induction false} ValidateSchemaIffWellFormed(s: Value, location: string)
    ensures ValidateSchema(s, location).Ok? <==> WellFormed(s)
    decreases s, 1
  {
    if !IsNullish(s) && !IsSchemaTypeNode(s) && TypeOf(s) == "object" {
      ValidateEntriesIff(s, 0, location);
    }
  }

  lemma {:induction false} ValidateEntriesIff(s: Value, i: nat, location: string)
    requires i <= EntryCount(s)
    ensures ValidateEntries(s, i, location).Ok? <==>
            forall j | i <= j < EntryCount(s) :: WellFormed(EntryValue(s, j))
    decreases s, 0, EntryCount(s) - i
  {
    if i < EntryCount(s) {
      ValidateSchemaIffWellFormed(EntryValue(s, i), location + "." + EntryKey(s, i));
      ValidateEntriesIff(s, i + 1, location);
    }
  }

  /** The node `validateSchema` reaches from `s` by descending into the
      entries at positions `path` of objects not flagged as SchemaTypes,
      with the location it passes there (".key" appended per level). */
  function Walk(s: Value, path: seq<nat>, location: string): Option<(Value, string)>
    decreases |path|
  {
    if path == [] then Some((s, location))
    else if !IsNullish(s) && !IsSchemaTypeNode(s) && TypeOf(s) == "object" && path[0] < EntryCount(s) then
      Walk(EntryValue(s, path[0]), path[1..], location + "." + EntryKey(s, path[0]))
    else None
  }

  /** Every location `validateSchema` passes down below `location` extends it. */
  lemma {:induction false} WalkExtendsLocation(s: Value, path: seq<nat>, location: string)
    requires Walk(s, path, location).Some?
    ensures var loc := Walk(s, path, location).value.1;
      |location| <= |loc| && loc[..|location|] == location
    decreases |path|
  {
    if path != [] {
      var next := location + "." + EntryKey(s, path[0]);
      WalkExtendsLocation(EntryValue(s, path[0]), path[1..], next);
      assert next[..|location|] == location;
    }
  }

  /** How `validateSchema` rejects node `n` on its own: a TypeError when it is
      undefined or null, an invalid-schema error at `location` when it is
      neither a SchemaType nor an object. */
  ghost predicate RejectsNode(n: Value, location: string, e: Error)
  {
    (IsNullish(n) && e == ReadOfNullish("isSchemaType")) ||
    (!IsNullish(n) && !IsSchemaTypeNode(n) && TypeOf(n) != "object" && e == SchemaDefinition(location, n))
  }

  /** Every error `validateSchema` throws is the rejection of one node of
      the tree, located by the dot-joined keys leading to it. */
  lemma {:induction false} ValidateSchemaBlames(s: Value, location: string)
    requires ValidateSchema(s, location).Err?
    ensures exists path :: (Walk(s, path, location).Some? &&
      RejectsNode(Walk(s, path, location).value.0, Walk(s, path, location).value.1, ValidateSchema(s, location).error))
    decreases s, 1
  {
    var e := ValidateSchema(s, location).error;
    if IsNullish(s) || IsSchemaTypeNode(s) || TypeOf(s) != "object" {
      assert Walk(s, [], location) == Some((s, location));
    } else {
      var j := EntriesBlame(s, 0, location);
      var child, loc := EntryValue(s, j), location + "." + EntryKey(s, j);
      ValidateSchemaBlames(child, loc);
      var p :| Walk(child, p, loc).Some? && RejectsNode(Walk(child, p, loc).value.0, Walk(child, p, loc).value.1, e);
      assert ([j] + p)[0] == j && ([j] + p)[1..] == p;
      assert Walk(s, [j] + p, location) == Walk(child, p, loc);
    }
  }

  /** The entry whose check threw the error `ValidateEntries` reports. */
  lemma {:induction false} EntriesBlame(s: Value, i: nat, location: string) returns (j: nat)
    requires i <= EntryCount(s)
    requires ValidateEntries(s, i, location).Err?
    ensures i <= j < EntryCount(s)
    ensures ValidateSchema(EntryValue(s, j), location + "." + EntryKey(s, j)) == ValidateEntries(s, i, location)
    decreases EntryCount(s) - i
  {
    if ValidateSchema(EntryValue(s, i), location + "." + EntryKey(s, i)).Err? {
      j := i;
    } else {
      j := EntriesBlame(s, i + 1, location);
    }
  }

  /** The code accepts the empty object: the `forEach` runs over no keys
      (src/Schema.js:115-124), although src/test/schema.test.js:214 expects a throw. */
  lemma ValidateEmptyObject(location: string)
    ensures ValidateSchema(Obj([]), location) == Ok(())
  {
  }

  /** Undefined and null throw only because `schema.isSchemaType` is read
      from them (src/Schema.js:110). */
  lemma ValidateNullish(location: string)
    ensures ValidateSchema(Undefined, location) == Err(ReadOfNullish("isSchemaType"))
    ensures ValidateSchema(Null, location) == Err(ReadOfNullish("isSchemaType"))
  {
  }

  /** The invalid schemas of the tests: a string under `bar` is blamed at
      ".bar"; a string at the root is blamed at the root. */
  lemma ValidateSchemaExamples()
    ensures var bad := Obj([("foo", SchemaTypes(StringType, [("required", Bool(true))])),
                            ("bar", Str("this one breaks the schema"))]);
      ValidateSchema(bad, "") == Err(SchemaDefinition(".bar", Str("this one breaks the schema")))
    ensures ValidateSchema(Str("just a string"), "") == Err(SchemaDefinition("", Str("just a string")))
    ensures ValidateSchema(SchemaTypes(AnyType, []), "") == Ok(())
  {
    var foo := SchemaTypes(StringType, [("required", Bool(true))]);
    assert Get(foo, "isSchemaType") == Ok(Bool(true));
    var bad := Obj([("foo", foo), ("bar", Str("this one breaks the schema"))]);
    assert EntryKey(bad, 1) == "bar";
    assert "" + "." + "bar" == ".bar";
    assert ValidateSchema(Str("this one breaks the schema"), ".bar") == Err(SchemaDefinition(".bar", Str("this one breaks the schema")));
    assert ValidateEntries(bad, 1, "") == Err(SchemaDefinition(".bar", Str("this one breaks the schema")));
  }

  // ---------------------------------------------------------------------
  // Extension: members the tests (src/test/schema.test.js) and the type
  // declarations (index.d.ts:26-29) use, which the shown src/Schema.js does
  // not define. Their behaviour is derived from those tests.
  // ---------------------------------------------------------------------

  /** `isArray`, which the tests compare against `Array.isArray`. */
  function IsArray(test: Value): (r: bool)
    ensures r <==> test.Arr?
  {
    ClassTag(test) == "[object Array]"
  }

  /** `every(array, predicate)`: a non-array throws; otherwise the predicate
      receives each element with its index and the whole array. */
  function Every(xs: Value, test: (Value, nat, seq<Value>) -> bool): (r: Result<bool, Error>)
    ensures !xs.Arr? ==> r == Err(ExpectedArray)
    ensures xs.Arr? ==> (r.Ok? &&
      (r.value <==> forall i :: 0 <= i < |xs.elems| ==> test(xs.elems[i], i, xs.elems)))
  {
    if !IsArray(xs) then Err(ExpectedArray) else Ok(EveryFrom(xs.elems, test, 0))
  }

  function EveryFrom(xs: seq<Value>, test: (Value, nat, seq<Value>) -> bool, from: nat): (r: bool)
    requires from <= |xs|
    ensures r <==> forall i :: from <= i < |xs| ==> test(xs[i], i, xs)
    decreases |xs| - from
  {
    if from == |xs| then true else test(xs[from], from, xs) && EveryFrom(xs, test, from + 1)
  }

  /** `isArrayOfType(element)(test)`: an array whose every element matches. */
  function IsArrayOfType(element: Value, test: Value): bool
    decreases element, 3
  {
    IsArray(test) && AllElementsMatch(element, test.elems, 0)
  }

  function AllElementsMatch(element: Value, xs: seq<Value>, from: nat): bool
    requires from <= |xs|
    decreases element, 3, |xs| - from
  {
    from == |xs| || (MatchesSchemaInner(element, xs[from]) && AllElementsMatch(element, xs, from + 1))
  }

  /** The value under `key` of a candidate, or undefined for a candidate that
      is not a plain object. */
  function Child(test: Value, key: string): Value
  {
    if test.Obj? then PropertyOf(test, key) else Undefined
  }

  /** The structural match of a (well-formed) schema against a candidate: a
      SchemaType decides on its own; a shape needs every key of the schema to
      match the candidate's value under that key. A plain object is matched as
      a shape even when it is flagged `isSchemaType`, and a well-formed array
      or Date node matches nothing. */
  function MatchesSchemaInner(schema: Value, test: Value): bool
    decreases schema, 2
  {
    match schema
    case Leaf(v, _, _) => Validate(v, test)
    case Obj(_) => MatchesEntries(schema, 0, test)
    case _ => false
  }

  function MatchesEntries(schema: Value, i: nat, test: Value): bool
    requires schema.Obj? && i <= |schema.props|
    decreases schema, 1, |schema.props| - i
  {
    i == |schema.props| ||
    (MatchesSchemaInner(EntryValue(schema, i), Child(test, EntryKey(schema, i))) && MatchesEntries(schema, i + 1, test))
  }

  /** `matchesSchema(schema, test)`: an invalid schema is a generic fault;
      otherwise the structural match. */
  function MatchesSchema(schema: Value, test: Value): (r: Result<bool, Error>)
    ensures r.Err? <==> ValidateSchema(schema, "").Err?
    ensures r.Err? ==> r.error == InvalidSchemaGiven
  {
    if ValidateSchema(schema, "").Err? then Err(InvalidSchemaGiven) else Ok(MatchesSchemaInner(schema, test))
  }

  /** The schema of the `matchesSchema` tests: a required string `foo`, an
      optional number `bar` and a nested shape of optional numbers. */
  function MatchesTestSchema(): Value
  {
    var number := SchemaTypes(NumberType, []);
    Obj([("foo", SchemaTypes(StringType, [("required", Bool(true))])),
         ("bar", number),
         ("baz", Obj([("biz", number), ("boz", number),
                      ("booz", Obj([("barz", Obj([("nested", number)]))]))]))])
  }

  lemma LeafWellFormed(k: Kind, opts: seq<(string, Value)>)
    requires !HasKey(opts, "isSchemaType")
    ensures WellFormed(SchemaTypes(k, opts))
  {
    assert Get(SchemaTypes(k, opts), "isSchemaType") == Ok(Bool(true));
  }

  lemma ShapeWellFormed(props: seq<(string, Value)>)
    requires !HasKey(props, "isSchemaType")
    requires forall i :: 0 <= i < |props| ==> WellFormed(props[i].1)
    ensures WellFormed(Obj(props))
  {
    assert forall i | 0 <= i < EntryCount(Obj(props)) :: EntryValue(Obj(props), i) == props[i].1;
  }

  /** The test schema is a schema tree. */
  lemma MatchesTestSchemaValid()
    ensures ValidateSchema(MatchesTestSchema(), "").Ok?
  {
    var number := SchemaTypes(NumberType, []);
    LeafWellFormed(NumberType, []);
    LeafWellFormed(StringType, [("required", Bool(true))]);
    var barz := [("nested", number)];
    ShapeWellFormed(barz);
    var booz := [("barz", Obj(barz))];
    ShapeWellFormed(booz);
    var baz := [("biz", number), ("boz", number), ("booz", Obj(booz))];
    ShapeWellFormed(baz);
    var props := [("foo", SchemaTypes(StringType, [("required", Bool(true))])), ("bar", number), ("baz", Obj(baz))];
    ShapeWellFormed(props);
    assert MatchesTestSchema() == Obj(props);
    ValidateSchemaIffWellFormed(Obj(props), "");
  }

  /** The passing candidate of the `matchesSchema` tests: just a string
      `foo`; the absent optional keys pass, the nested shape included. */
  lemma MatchesSchemaAccepts()
    ensures MatchesSchema(MatchesTestSchema(), Obj([("foo", Str("string"))])) == Ok(true)
  {
    MatchesTestSchemaValid();
    var number := SchemaTypes(NumberType, []);
    var barz := Obj([("nested", number)]);
    var booz := Obj([("barz", barz)]);
    var baz := Obj([("biz", number), ("boz", number), ("booz", booz)]);
    assert MatchesSchemaInner(number, Undefined);
    assert MatchesSchemaInner(barz, Undefined) by {
      assert MatchesEntries(barz, 1, Undefined);
    }
    assert MatchesSchemaInner(booz, Undefined) by {
      assert MatchesEntries(booz, 1, Undefined);
    }
    assert MatchesSchemaInner(baz, Undefined) by {
      assert MatchesEntries(baz, 2, Undefined);
      assert MatchesEntries(baz, 1, Undefined);
    }
    var test := Obj([("foo", Str("string"))]);
    var s := MatchesTestSchema();
    assert MatchesEntries(s, 2, test);
    assert MatchesEntries(s, 1, test);
    assert MatchesEntries(s, 0, test) by {
      assert RequiredOption([("required", Bool(true))]);
      assert MatchesSchemaInner(EntryValue(s, 0), Str("string"));
    }
  }

  /** The failing candidates of the `matchesSchema` tests: a wrong `bar`, a
      wrong or missing `foo`, and candidates that are not objects. */
  lemma MatchesSchemaRejects()
    ensures MatchesSchema(MatchesTestSchema(), Obj([("foo", Str("string")), ("bar", Str("string"))])) == Ok(false)
    ensures MatchesSchema(MatchesTestSchema(), Obj([("foo", Num(Finite(1.0)))])) == Ok(false)
    ensures MatchesSchema(MatchesTestSchema(), Obj([("foo", Null)])) == Ok(false)
    ensures MatchesSchema(MatchesTestSchema(), Obj([])) == Ok(false)
    ensures MatchesSchema(MatchesTestSchema(), Num(Finite(1.0))) == Ok(false)
    ensures MatchesSchema(MatchesTestSchema(), Undefined) == Ok(false)
  {
    FooMustBeString(Obj([("foo", Num(Finite(1.0)))]));
    FooMustBeString(Obj([("foo", Null)]));
    FooMustBeString(Obj([]));
    FooMustBeString(Num(Finite(1.0)));
    FooMustBeString(Undefined);
    BarMustBeNumber(Obj([("foo", Str("string")), ("bar", Str("string"))]));
  }

  /** The required `foo` rejects any candidate without a string under it. */
  lemma FooMustBeString(test: Value)
    requires !Child(test, "foo").Str?
    ensures MatchesSchema(MatchesTestSchema(), test) == Ok(false)
  {
    MatchesTestSchemaValid();
    var s := MatchesTestSchema();
    var foo := SchemaTypes(StringType, [("required", Bool(true))]);
    assert s.props[0] == ("foo", foo);
    assert RequiredOption([("required", Bool(true))]);
    assert !MatchesSchemaInner(foo, Child(test, "foo"));
    EntryRejects(s, 0, test);
  }

  /** The optional number `bar` rejects a string under it. */
  lemma BarMustBeNumber(test: Value)
    requires Child(test, "bar").Str?
    ensures MatchesSchema(MatchesTestSchema(), test) == Ok(false)
  {
    MatchesTestSchemaValid();
    var s := MatchesTestSchema();
    var number := SchemaTypes(NumberType, []);
    assert s.props[1] == ("bar", number);
    assert !MatchesSchemaInner(number, Child(test, "bar"));
    EntryRejects(s, 1, test);
  }

  /** A candidate that fails one key of a valid shape fails the shape. */
  lemma EntryRejects(s: Value, i: nat, test: Value)
    requires ValidateSchema(s, "").Ok?
    requires s.Obj? && i < |s.props|
    requires !MatchesSchemaInner(s.props[i].1, Child(test, s.props[i].0))
    ensures MatchesSchema(s, test) == Ok(false)
  {
    ShapeMatchesEachKey(s, test);
  }

  /** `arrayOf(element)(opts)`: a SchemaType of kind `arrayOf` whose options
      carry the element schema as `elementType`. */
  function ArrayOf(element: Value, opts: seq<(string, Value)>): (r: Value)
    ensures r.Leaf? && r.typeName == "arrayOf"
    ensures Get(r, "elementType") == Ok(element)
    ensures r.validate == Validator(ArrayOfType(element), RequiredOption(opts))
  {
    CreateSchemaType(ArrayOfType(element), "arrayOf", Assign(opts, "elementType", element))
  }

  /** A shape matches exactly when each of its keys matches (a conjunction in
      key order, with no other key of the candidate inspected). */
  lemma {:induction false} ShapeMatchesEachKey(schema: Value, test: Value)
    requires schema.Obj?
    ensures MatchesSchemaInner(schema, test) <==>
      forall i :: 0 <= i < |schema.props| ==>
        MatchesSchemaInner(schema.props[i].1, Child(test, schema.props[i].0))
  {
    MatchesEntriesFrom(schema, 0, test);
  }

  lemma {:induction false} MatchesEntriesFrom(schema: Value, i: nat, test: Value)
    requires schema.Obj? && i <= |schema.props|
    ensures MatchesEntries(schema, i, test) <==>
      forall j :: i <= j < |schema.props| ==>
        MatchesSchemaInner(schema.props[j].1, Child(test, schema.props[j].0))
    decreases |schema.props| - i
  {
    if i < |schema.props| {
      MatchesEntriesFrom(schema, i + 1, test);
    }
  }

  /** The keys of `schema` at every level. */
  ghost predicate AgreeOnSchemaKeys(schema: Value, t1: Value, t2: Value)
  {
    schema.Obj? ==> forall i :: 0 <= i < |schema.props| ==> Child(t1, schema.props[i].0) == Child(t2, schema.props[i].0)
  }

  /** The schema is a whitelist: two candidates that agree on the schema's
      keys match alike, whatever other keys they carry. */
  lemma {:induction false} ExtraKeysIgnored(schema: Value, t1: Value, t2: Value)
    requires schema.Obj?
    requires AgreeOnSchemaKeys(schema, t1, t2)
    ensures MatchesSchemaInner(schema, t1) == MatchesSchemaInner(schema, t2)
  {
    ShapeMatchesEachKey(schema, t1);
    ShapeMatchesEachKey(schema, t2);
  }

  /** `isArrayOfType(schema)(test)` holds exactly for an array all of whose
      elements match the schema: a non-array fails, and so does an array
      with one failing element. */
  lemma IsArrayOfTypeIff(element: Value, test: Value)
    ensures IsArrayOfType(element, test) <==>
      test.Arr? && forall i :: 0 <= i < |test.elems| ==> MatchesSchemaInner(element, test.elems[i])
  {
    if test.Arr? {
      AllElementsMatchEvery(element, test.elems, 0);
    }
  }

  /** Calling `arrayOf(T)(opts)` on an array is `every` element matching `T`;
      on any other value that is present it is false. */
  lemma {:induction false} ArrayOfIsEvery(element: Value, opts: seq<(string, Value)>, xs: Value)
    ensures xs.Arr? ==> (Call(ArrayOf(element, opts), xs) ==
      Every(xs, (x, i, a) => MatchesSchemaInner(element, x)).value)
    ensures !xs.Arr? && !xs.Undefined? ==> !Call(ArrayOf(element, opts), xs)
  {
    ArrayOfCall(element, opts, xs);
    assert Holds(ArrayOfType(element), xs) == IsArrayOfType(element, xs);
    if xs.Arr? {
      AllElementsMatchEvery(element, xs.elems, 0);
    }
  }

  lemma ArrayOfCall(element: Value, opts: seq<(string, Value)>, xs: Value)
    ensures Call(ArrayOf(element, opts), xs) == MaybeRequired(x => Holds(ArrayOfType(element), x), RequiredOption(opts), xs)
  {
  }

  lemma {:induction false} AllElementsMatchEvery(element: Value, xs: seq<Value>, from: nat)
    requires from <= |xs|
    ensures AllElementsMatch(element, xs, from) <==> forall i :: from <= i < |xs| ==> MatchesSchemaInner(element, xs[i])
    decreases |xs| - from
  {
    if from < |xs| {
      AllElementsMatchEvery(element, xs, from + 1);
    }
  }
}
