/** The React prop-type validators and the CSS class-name builders of
    src/constants.js. */
module Constants {

  import opened Wrappers
  import opened JsValue
  import Schema

  /** A React prop-type validator `(props, propName, componentName)`: `Ok`
      stands for returning null, `Err` for the error thrown. */
  type PropCheck = (seq<(string, Value)>, string, string) -> Result<(), Error>

  /** The function `addIsRequiredProperty(validator)` returns, which keeps
      `validator` as its `isRequired` field and is determined by it. */
  datatype PropType = PropType(isRequired: PropCheck)

  /** `addIsRequiredProperty(validator)`. */
  function AddIsRequiredProperty(validator: PropCheck): (r: PropType)
    ensures r.isRequired == validator
  {
    PropType(validator)
  }

  /** Calling the optional validator: an undefined prop is accepted (the
      underlying validator is not consulted); otherwise the underlying
      validator decides, with the same arguments. */
  function CheckOptional(t: PropType, props: seq<(string, Value)>, propName: string, componentName: string): (r: Result<(), Error>)
    ensures Lookup(props, propName).Undefined? ==> r == Ok(())
    ensures !Lookup(props, propName).Undefined? ==> r == t.isRequired(props, propName, componentName)
  {
    if TypeOf(Lookup(props, propName)) == "undefined" then Ok(()) else t.isRequired(props, propName, componentName)
  }

  /** An absent prop passes the optional form whatever the validator is. */
  lemma AbsentPropIgnoresValidator(v1: PropCheck, v2: PropCheck, props: seq<(string, Value)>, propName: string, componentName: string)
    requires !HasKey(props, propName)
    ensures CheckOptional(AddIsRequiredProperty(v1), props, propName, componentName) ==
            CheckOptional(AddIsRequiredProperty(v2), props, propName, componentName) == Ok(())
  {
  }

  /** `validateSchemaTypeProp`: the prop must be truthy and carry a truthy
      `isSchemaType`; otherwise the invalid-schema error at
      `componentName.propName`. */
  function ValidateSchemaTypeProp(props: seq<(string, Value)>, propName: string, componentName: string): (r: Result<(), Error>)
    ensures r.Ok? <==> Truthy(Lookup(props, propName)) && Schema.IsSchemaTypeNode(Lookup(props, propName))
    ensures r.Err? ==> r.error == SchemaDefinition(componentName + "." + propName, Lookup(props, propName))
  {
    var schemaType := Lookup(props, propName);
    if Truthy(schemaType) && Truthy(Get(schemaType, "isSchemaType").value) then Ok(())
    else Err(SchemaDefinition(componentName + "." + propName, schemaType))
  }

  /** `validateSchemaProp`: `validateSchema` of the prop, rooted at
      `componentName.propName`. */
  function ValidateSchemaProp(props: seq<(string, Value)>, propName: string, componentName: string): (r: Result<(), Error>)
    ensures r == Schema.ValidateSchema(Lookup(props, propName), componentName + "." + propName)
    ensures r.Ok? <==> Schema.WellFormed(Lookup(props, propName))
  {
    Schema.ValidateSchemaIffWellFormed(Lookup(props, propName), componentName + "." + propName);
    Schema.ValidateSchema(Lookup(props, propName), componentName + "." + propName)
  }

  /** `PropTypes.SchemaType` and `PropTypes.Schema`. */
  function SchemaTypePropType(): (r: PropType)
    ensures r.isRequired == ValidateSchemaTypeProp
  {
    AddIsRequiredProperty(ValidateSchemaTypeProp)
  }

  function SchemaPropType(): (r: PropType)
    ensures r.isRequired == ValidateSchemaProp
  {
    AddIsRequiredProperty(ValidateSchemaProp)
  }

  /** A factory's SchemaType passes `PropTypes.SchemaType` under any
      component and prop name. */
  lemma FactoryPassesSchemaTypeProp(k: Schema.Kind, opts: seq<(string, Value)>, propName: string, componentName: string)
    requires !HasKey(opts, "isSchemaType")
    ensures ValidateSchemaTypeProp([(propName, Schema.SchemaTypes(k, opts))], propName, componentName) == Ok(())
  {
    assert IndexOfKey([(propName, Schema.SchemaTypes(k, opts))], propName) == Some(0);
  }

  /** A shape passes `PropTypes.Schema` but not `PropTypes.SchemaType`. */
  lemma ShapeIsSchemaNotSchemaType(propName: string, componentName: string)
    ensures var shape := Obj([("name", Schema.SchemaTypes(Schema.StringType, []))]);
      ValidateSchemaProp([(propName, shape)], propName, componentName) == Ok(()) &&
      ValidateSchemaTypeProp([(propName, shape)], propName, componentName).Err?
  {
    var shape := Obj([("name", Schema.SchemaTypes(Schema.StringType, []))]);
    assert IndexOfKey([(propName, shape)], propName) == Some(0);
    assert Get(shape, "isSchemaType") == Ok(Undefined);
    assert Schema.ValidateSchema(shape.props[0].1, componentName + "." + propName + ".name") == Ok(());
  }

  /** A missing `.isRequired` Schema prop throws the TypeError of reading
      `isSchemaType` of undefined rather than an invalid-schema error. */
  lemma MissingRequiredSchemaProp(props: seq<(string, Value)>, propName: string, componentName: string)
    requires !HasKey(props, propName)
    ensures SchemaPropType().isRequired(props, propName, componentName) == Err(ReadOfNullish("isSchemaType"))
  {
  }

  /** Every invalid-schema error of `PropTypes.Schema` names a location under
      `componentName.propName`. */
  lemma SchemaPropErrorLocated(props: seq<(string, Value)>, propName: string, componentName: string)
    requires ValidateSchemaProp(props, propName, componentName).Err?
    ensures var e := ValidateSchemaProp(props, propName, componentName).error;
      var root := componentName + "." + propName;
      e.SchemaDefinition? ==> |root| <= |e.location| && e.location[..|root|] == root
  {
    var s, root := Lookup(props, propName), componentName + "." + propName;
    Schema.ValidateSchemaBlames(s, root);
    var path :| Schema.Walk(s, path, root).Some? &&
      Schema.RejectsNode(Schema.Walk(s, path, root).value.0, Schema.Walk(s, path, root).value.1, Schema.ValidateSchema(s, root).error);
    Schema.WalkExtendsLocation(s, path, root);
  }

  // ---------------------------------------------------------------------
  // Class names
  // ---------------------------------------------------------------------

  /** `appendTo(base)(suffix)`; an omitted suffix is the empty string. */
  function AppendTo(base: string, suffix: Option<string>): (r: string)
    ensures suffix.None? ==> r == base
    ensures suffix.Some? ==> |r| == |base| + |suffix.value| && r[..|base|] == base && r[|base|..] == suffix.value
  {
    base + (if suffix.None? then "" else suffix.value)
  }

  /** The base name determines the class name's start, and the suffix is
      recovered from the class name. */
  lemma AppendToCancels(base: string, s1: string, s2: string)
    requires AppendTo(base, Some(s1)) == AppendTo(base, Some(s2))
    ensures s1 == s2
  {
    assert s1 == AppendTo(base, Some(s1))[|base|..];
  }

  /** The elements `BaseClassnames` names. */
  datatype Element = EditorTable | Cell | ElementRow | AddObjectRow | ColumnTitles | ColumnTitle | EditorInput

  function BaseName(e: Element): string
  {
    match e
    case EditorTable => "editor"
    case Cell => "cell"
    case ElementRow => "editor__row"
    case AddObjectRow => "editor__add-object"
    case ColumnTitles => "editor__column-titles"
    case ColumnTitle => "column-title"
    case EditorInput => "editor__input"
  }

  /** `BaseClassnames[e](suffix)`. */
  function BaseClassname(e: Element, suffix: Option<string>): (r: string)
    ensures |r| >= |BaseName(e)| && r[..|BaseName(e)|] == BaseName(e)
    ensures suffix.None? ==> r == BaseName(e)
    ensures suffix.Some? ==> r[|BaseName(e)|..] == suffix.value
  {
    AppendTo(BaseName(e), suffix)
  }

  /** Without a suffix the seven class names are pairwise distinct. */
  lemma BaseNamesDistinct(e1: Element, e2: Element)
    requires BaseClassname(e1, None) == BaseClassname(e2, None)
    ensures e1 == e2
  {
  }

  /** The class names the editors use. */
  lemma ClassnameExamples()
    ensures BaseClassname(EditorTable, Some("--array")) == "editor--array"
    ensures BaseClassname(ElementRow, Some("--object")) == "editor__row--object"
    ensures BaseClassname(Cell, Some("--value")) == "cell--value"
    ensures BaseClassname(EditorInput, Some("--value")) == "editor__input--value"
  {
  }
}
