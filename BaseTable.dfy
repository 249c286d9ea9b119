/** The schema introspection of src/BaseTable.js: recognising array
    SchemaTypes, the column title of a SchemaType, and the column titles of
    a table header. */
module BaseTable {

  import opened Wrappers
  import opened JsValue
  import JsString
  import Schema

  /** `isArraySchemaType(schemaType)`: the type name is present and contains
      "array" (so both `array` and `arrayOf`). Reading it from undefined or
      null throws; a truthy type name that is not a string has no `match`. */
  function IsArraySchemaType(schemaType: Value): (r: Result<bool, Error>)
    ensures IsNullish(schemaType) ==> r == Err(ReadOfNullish("type"))
    ensures !IsNullish(schemaType) ==> var t := Get(schemaType, "type").value;
      (r == Ok(true) <==> t.Str? && JsString.Contains(t.s, "array")) &&
      (r.Err? <==> Truthy(t) && !t.Str?) &&
      (r.Err? ==> r.error == NotAFunction("match"))
  {
    match Get(schemaType, "type")
    case Err(e) => Err(e)
    case Ok(t) =>
      if !Truthy(t) then Ok(false)
      else if t.Str? then Ok(JsString.Contains(t.s, "array"))
      else Err(NotAFunction("match"))
  }

  /** lodash `toString` of a falsy value or a string, the text `capitalize` works on. */
  function TitleText(v: Value): string
    requires !Truthy(v) || v.Str?
  {
    match v
    case Str(s) => s
    case Bool(_) => "false"
    case Num(n) => if n == NaN then "NaN" else "0"
    case _ => ""
  }

  /** `columnTitle`, with the element schema that stands in for a missing
      `elementType` as a parameter: a shape is "Object", an array type is
      "Array of " and the title of its elements, any other SchemaType its
      capitalised type name. */
  function ColumnTitleWith(schemaType: Value, fallback: Value): (r: Result<string, Error>)
    requires IsArraySchemaType(fallback) == Ok(false)
    decreases if schemaType == fallback then 0 else 1, schemaType
  {
    if TypeOf(schemaType) == "object" then Ok("Object")
    else match IsArraySchemaType(schemaType)
      case Err(e) => Err(e)
      case Ok(isArray) =>
        if isArray then
          var element := Member(schemaType, "elementType");
          match ColumnTitleWith(if Truthy(element) then element else fallback, fallback)
          case Err(e) => Err(e)
          case Ok(title) => Ok("Array of " + title)
        else Ok(JsString.Capitalize(TitleText(Get(schemaType, "type").value)))
  }

  /** `columnTitle` as written: the stand-in is `Schema.SchemaTypes.any`,
      the factory function itself, which carries no type name. */
  function ColumnTitleAsWritten(schemaType: Value): Result<string, Error>
  {
    ColumnTitleWith(schemaType, Func)
  }

  /** The SchemaType `SchemaTypes.any()`. */
  function AnyType(): (r: Value)
    ensures IsArraySchemaType(r) == Ok(false)
  {
    var r := Schema.SchemaTypes(Schema.AnyType, []);
    assert Get(r, "type") == Ok(Str("any"));
    r
  }

  /** `columnTitle` with the stand-in the code evidently means, the
      SchemaType `SchemaTypes.any()`. */
  function ColumnTitle(schemaType: Value): (r: Result<string, Error>)
  {
    ColumnTitleWith(schemaType, AnyType())
  }

  /** A shape is titled "Object"; a SchemaType that is not an array type is
      titled with its capitalised type name; a type name that is truthy but
      not a string makes the title throw. */
  lemma ColumnTitleCases(schemaType: Value)
    ensures TypeOf(schemaType) == "object" ==> ColumnTitle(schemaType) == Ok("Object")
    ensures TypeOf(schemaType) != "object" && IsArraySchemaType(schemaType) == Ok(false) ==>
      ColumnTitle(schemaType) == Ok(JsString.Capitalize(TitleText(Get(schemaType, "type").value)))
    ensures TypeOf(schemaType) != "object" && IsArraySchemaType(schemaType).Err? ==>
      ColumnTitle(schemaType) == Err(IsArraySchemaType(schemaType).error)
  {
  }

  /** A type name without "array" in it: shorter than "array", or without its last letter. */
  lemma WithoutArray(s: string)
    requires |s| < 5 || forall i :: 0 <= i < |s| ==> s[i] != 'y'
    ensures !JsString.Contains(s, "array")
  {
    forall i: int
      ensures !JsString.OccursAt(s, "array", i)
    {
      if 0 <= i && i + 5 <= |s| {
        assert s[i..i + 5][4] == s[i + 4] != "array"[4];
      }
    }
  }

  /** A type name that starts with "array". */
  lemma WithArray(s: string)
    requires |s| >= 5 && s[..5] == "array"
    ensures JsString.Contains(s, "array")
  {
    assert JsString.OccursAt(s, "array", 0);
  }

  /** The SchemaType of a factory other than `array` is not an array type,
      whatever options it is built with, unless they override `type`. */
  lemma NotArrayType(k: Schema.Kind, opts: seq<(string, Value)>)
    requires k != Schema.ArrayType && !HasKey(opts, "type")
    ensures IsArraySchemaType(Schema.SchemaTypes(k, opts)) == Ok(false)
    ensures Get(Schema.SchemaTypes(k, opts), "type") == Ok(Str(Schema.KindName(k)))
  {
    var t := Schema.SchemaTypes(k, opts);
    assert Get(t, "type") == Ok(Str(Schema.KindName(k)));
    WithoutArray(Schema.KindName(k));
  }

  /** The title of a factory's SchemaType is its capitalised kind name. */
  lemma KindTitle(k: Schema.Kind, opts: seq<(string, Value)>)
    requires k != Schema.ArrayType && !HasKey(opts, "type")
    ensures ColumnTitle(Schema.SchemaTypes(k, opts)) == Ok(JsString.Capitalize(Schema.KindName(k)))
  {
    NotArrayType(k, opts);
  }

  lemma AnyTitle()
    ensures ColumnTitle(AnyType()) == Ok("Any")
  {
    KindTitle(Schema.AnyType, []);
    assert AnyType() == Schema.SchemaTypes(Schema.AnyType, []);
    var c := JsString.Capitalize("any");
    assert c[0] == 'A';
    assert c[1..] == "ny" by {
      assert JsString.ToLower("ny") == "ny";
    }
    assert c == "Any" by {
      assert c == [c[0]] + c[1..];
    }
  }

  /** An array SchemaType without an element type: as written the title is
      "Array of " followed by nothing, since the factory has no type name;
      with `SchemaTypes.any()` it is "Array of Any". */
  lemma DefaultElementTitle()
    ensures ColumnTitleAsWritten(Schema.SchemaTypes(Schema.ArrayType, [])) == Ok("Array of ")
    ensures ColumnTitle(Schema.SchemaTypes(Schema.ArrayType, [])) == Ok("Array of Any")
  {
    var t := Schema.SchemaTypes(Schema.ArrayType, []);
    assert Get(t, "type") == Ok(Str("array"));
    WithArray("array");
    assert IsArraySchemaType(t) == Ok(true);
    assert Member(t, "elementType") == Undefined;
    assert TypeOf(t) == "function";
    assert ColumnTitleWith(Func, Func) == Ok("");
    assert ColumnTitleWith(t, Func) == Ok("Array of " + "");
    assert "Array of " + "" == "Array of ";
    AnyTitle();
    assert ColumnTitleWith(t, AnyType()) == Ok("Array of " + "Any");
    assert "Array of " + "Any" == "Array of Any";
  }

  /** A factory's SchemaType whose `type` is overridden by the option
      `type: 'array'` is an array type without an element type: as written it is
      titled "Array of ", with `SchemaTypes.any()` "Array of Any". */
  lemma OverriddenTypeTitle(k: Schema.Kind)
    ensures ColumnTitleAsWritten(Schema.SchemaTypes(k, [("type", Str("array"))])) == Ok("Array of ")
    ensures ColumnTitle(Schema.SchemaTypes(k, [("type", Str("array"))])) == Ok("Array of Any")
  {
    var t := Schema.SchemaTypes(k, [("type", Str("array"))]);
    assert HasKey(t.opts, "type") && Lookup(t.opts, "type") == Str("array");
    assert Get(t, "type") == Ok(Str("array"));
    WithArray("array");
    assert IsArraySchemaType(t) == Ok(true);
    assert Member(t, "elementType") == Undefined;
    assert TypeOf(t) == "function";
    assert ColumnTitleWith(Func, Func) == Ok("");
    assert ColumnTitleWith(t, Func) == Ok("Array of " + "");
    assert "Array of " + "" == "Array of ";
    AnyTitle();
    assert ColumnTitleWith(t, AnyType()) == Ok("Array of " + "Any");
    assert "Array of " + "Any" == "Array of Any";
  }

  /** Each value after the first is `arrayOf` the one before it. */
  ghost predicate ArrayChain(vs: seq<Value>)
  {
    forall i :: 0 < i < |vs| ==> vs[i] == Schema.ArrayOf(vs[i - 1], [])
  }

  function Repeat(s: string, n: nat): string
  {
    if n == 0 then "" else s + Repeat(s, n - 1)
  }

  /** ArrayOf(elementType) is titled "Array of " and its element's title. */
  lemma ArrayOfTitle(element: Value, opts: seq<(string, Value)>)
    requires Truthy(element) && !HasKey(opts, "type")
    ensures ColumnTitle(Schema.ArrayOf(element, opts)).Ok? <==> ColumnTitle(element).Ok?
    ensures ColumnTitle(element).Ok? ==> ColumnTitle(Schema.ArrayOf(element, opts)) == Ok("Array of " + ColumnTitle(element).value)
  {
    var t := Schema.ArrayOf(element, opts);
    assert !HasKey(t.opts, "type");
    assert Get(t, "type") == Ok(Str("arrayOf"));
    WithArray("arrayOf");
    assert IsArraySchemaType(t) == Ok(true);
    assert Member(t, "elementType") == element;
  }

  /** Each `arrayOf` layer adds one "Array of " to the title. */
  lemma NestedArrayTitle(vs: seq<Value>, title: string)
    requires ArrayChain(vs) && |vs| > 0
    requires Truthy(vs[0]) && ColumnTitle(vs[0]) == Ok(title)
    ensures forall i :: 0 <= i < |vs| ==> ColumnTitle(vs[i]) == Ok(Repeat("Array of ", i) + title)
  {
    forall i | 0 <= i < |vs|
      ensures ColumnTitle(vs[i]) == Ok(Repeat("Array of ", i) + title)
    {
      ChainTitle(vs, i, title, AnyType());
    }
  }

  /** The inductive step behind NestedArrayTitle, for any stand-in element schema. */
  lemma {:induction false} ChainTitle(vs: seq<Value>, i: nat, title: string, fallback: Value)
    requires IsArraySchemaType(fallback) == Ok(false)
    requires ArrayChain(vs) && i < |vs|
    requires Truthy(vs[0]) && ColumnTitleWith(vs[0], fallback) == Ok(title)
    ensures Truthy(vs[i]) && ColumnTitleWith(vs[i], fallback) == Ok(Repeat("Array of ", i) + title)
  {
    if i == 0 {
      RepeatZero(title);
    } else {
      var t := Repeat("Array of ", i - 1) + title;
      ChainTitle(vs, i - 1, title, fallback);
      WrapTitle(vs[i - 1], t, fallback);
      assert vs[i] == Schema.ArrayOf(vs[i - 1], []);
      RepeatStep(i, title);
    }
  }

  lemma WrapTitle(element: Value, title: string, fallback: Value)
    requires IsArraySchemaType(fallback) == Ok(false)
    requires Truthy(element) && ColumnTitleWith(element, fallback) == Ok(title)
    ensures Truthy(Schema.ArrayOf(element, []))
    ensures ColumnTitleWith(Schema.ArrayOf(element, []), fallback) == Ok("Array of " + title)
  {
    var t := Schema.ArrayOf(element, []);
    assert Get(t, "type") == Ok(Str("arrayOf"));
    WithArray("arrayOf");
    assert IsArraySchemaType(t) == Ok(true);
    assert Member(t, "elementType") == element;
  }

  lemma RepeatZero(title: string)
    ensures Repeat("Array of ", 0) + title == title
  {
    assert Repeat("Array of ", 0) == [];
  }

  lemma RepeatStep(n: nat, title: string)
    requires n > 0
    ensures Repeat("Array of ", n) + title == "Array of " + (Repeat("Array of ", n - 1) + title)
  {
  }

  /** The header cells `BaseTable` renders between the checkbox and the
      spacer, with `columnTitle`'s stand-in element schema as a parameter: a
      SchemaType gets one column with its title, a shape one column per key,
      titled with the key, in key order. */
  function ColumnTitlesWith(typ: Value, fallback: Value): (r: Result<seq<string>, Error>)
    requires IsArraySchemaType(fallback) == Ok(false)
    ensures IsNullish(typ) ==> r == Err(ReadOfNullish("isSchemaType"))
    ensures Schema.IsSchemaTypeNode(typ) ==>
      (r.Ok? <==> ColumnTitleWith(typ, fallback).Ok?) &&
      (r.Ok? ==> r.value == [ColumnTitleWith(typ, fallback).value])
    ensures !IsNullish(typ) && !Schema.IsSchemaTypeNode(typ) ==> r == Ok(OwnKeys(typ))
  {
    match Get(typ, "isSchemaType")
    case Err(e) => Err(e)
    case Ok(flag) =>
      if Truthy(flag) then
        match ColumnTitleWith(typ, fallback)
        case Err(e) => Err(e)
        case Ok(title) => Ok([title])
      else Ok(OwnKeys(typ))
  }

  /** The header cells as written, titled by `ColumnTitleAsWritten`. */
  function ColumnTitlesAsWritten(typ: Value): Result<seq<string>, Error>
  {
    ColumnTitlesWith(typ, Func)
  }

  /** The header cells with the corrected `ColumnTitle`. */
  function ColumnTitles(typ: Value): Result<seq<string>, Error>
  {
    ColumnTitlesWith(typ, AnyType())
  }

  /** The header of an array SchemaType without an element type: one column,
      "Array of " as written and "Array of Any" as intended. */
  lemma DefaultElementColumns()
    ensures ColumnTitlesAsWritten(Schema.SchemaTypes(Schema.ArrayType, [])) == Ok(["Array of "])
    ensures ColumnTitles(Schema.SchemaTypes(Schema.ArrayType, [])) == Ok(["Array of Any"])
  {
    var t := Schema.SchemaTypes(Schema.ArrayType, []);
    assert Schema.IsSchemaTypeNode(t);
    DefaultElementTitle();
  }

  /** A shape's columns are its keys, one per entry, in order. */
  lemma ShapeColumns(props: seq<(string, Value)>)
    requires !Schema.IsSchemaTypeNode(Obj(props))
    ensures ColumnTitles(Obj(props)).Ok?
    ensures |ColumnTitles(Obj(props)).value| == |props|
    ensures forall i :: 0 <= i < |props| ==> ColumnTitles(Obj(props)).value[i] == props[i].0
  {
    assert ColumnTitles(Obj(props)) == Ok(KeysOf(props));
  }
}
