/** The read-only schema viewer of src/SchemaView.js: which type identifier a
    schema node has, and the tree of labelled rows the component renders for
    it. Markup and styling are reduced to the structure they carry. */
module SchemaView {

  import opened Wrappers
  import opened JsValue
  import Schema

  /** `getSchemaTypeIdentifier(schema)`: a SchemaType's type name, and the
      identifier `shape` for every other node. */
  function Identifier(schema: Value): (r: Result<Value, Error>)
    ensures IsNullish(schema) <==> r == Err(ReadOfNullish("isSchemaType"))
    ensures Schema.IsSchemaTypeNode(schema) ==> r == Get(schema, "type")
    ensures !IsNullish(schema) && !Schema.IsSchemaTypeNode(schema) ==> r == Ok(Str("shape"))
  {
    match Get(schema, "isSchemaType")
    case Err(e) => Err(e)
    case Ok(flag) => if Truthy(flag) then Get(schema, "type") else Ok(Str("shape"))
  }

  /** `getSchemaTypeIdentifier` as written: it reads `_isSchemaType` and
      `_type`, while the factories set `isSchemaType` and `type`. */
  function IdentifierAsWritten(schema: Value): (r: Result<Value, Error>)
    ensures IsNullish(schema) <==> r == Err(ReadOfNullish("_isSchemaType"))
    ensures !IsNullish(schema) && !Truthy(Get(schema, "_isSchemaType").value) ==> r == Ok(Str("shape"))
    ensures !IsNullish(schema) && Truthy(Get(schema, "_isSchemaType").value) ==> r == Get(schema, "_type")
  {
    match Get(schema, "_isSchemaType")
    case Err(e) => Err(e)
    case Ok(flag) => if Truthy(flag) then Get(schema, "_type") else Ok(Str("shape"))
  }

  /** With the field names as written, no factory SchemaType is recognised:
      it is identified as a shape, and it has no own keys, so it is viewed as
      an empty shape and heads no column. The shared names give its kind. */
  lemma FactoryIsEmptyShapeAsWritten(k: Schema.Kind, opts: seq<(string, Value)>)
    requires !HasKey(opts, "_isSchemaType") && !HasKey(opts, "isSchemaType") && !HasKey(opts, "type")
    ensures IdentifierAsWritten(Schema.SchemaTypes(k, opts)) == Ok(Str("shape"))
    ensures EntryCount(Schema.SchemaTypes(k, opts)) == 0 && OwnKeys(Schema.SchemaTypes(k, opts)) == []
    ensures Identifier(Schema.SchemaTypes(k, opts)) == Ok(Str(Schema.KindName(k)))
  {
    var t := Schema.SchemaTypes(k, opts);
    assert Get(t, "_isSchemaType") == Ok(Undefined);
    assert Get(t, "isSchemaType") == Ok(Bool(true));
    assert Get(t, "type") == Ok(Str(Schema.KindName(k)));
  }

  /** The identifiers rendered as a single leaf row. */
  predicate IsLeafIdentifier(name: string)
  {
    name in {"any", "string", "boolean", "function", "number", "date", "array", "object"}
  }

  /** What the component renders: a leaf (`SchemaLeaf`) with or without its
      key, a shape's keyed rows (`ShapeSchema`), an `ArrayOf` heading over
      its element's view, or a key with a heading over an indented body. */
  datatype View =
    | LeafView(typeName: string)
    | KeyedLeafView(key: string, typeName: string)
    | ShapeView(children: seq<View>)
    | ArrayOfView(element: View)
    | KeyedSection(key: string, heading: string, body: View)

  /** The key a view is labelled with, if any. */
  function KeyOf(view: View): Option<string>
  {
    match view
    case KeyedLeafView(key, _) => Some(key)
    case KeyedSection(key, _, _) => Some(key)
    case _ => None
  }

  /** `SchemaView.render()` for `schema` and an optional string `keyName`.
      A flagged node dispatches on its type name (an unknown one throws);
      any other node is a shape whose entries, from `_.toPairs`, are
      rendered in order with their keys. A non-empty string node is not
      flagged, so it is a shape, and its one-character entries are shapes of
      themselves: it renders without end. */
  function Render(schema: Value, keyName: Option<string>): (r: Result<View, Error>)
    ensures IsNullish(schema) ==> r == Err(ReadOfNullish("isSchemaType"))
    ensures r.Ok? ==> KeyOf(r.value) == keyName
    decreases if IsNullish(schema) then 0 else 1, schema, 1
  {
    match Identifier(schema)
    case Err(e) => Err(e)
    case Ok(identifier) =>
      if identifier.Str? && IsLeafIdentifier(identifier.s) then
        match keyName
        case Some(key) => Ok(KeyedLeafView(key, identifier.s))
        case None => Ok(LeafView(identifier.s))
      else if identifier == Str("shape") then
        if schema.Str? && schema.s != "" then Err(EndlessRender)
        else match RenderEntries(schema, 0)
          case Err(e) => Err(e)
          case Ok(children) =>
            match keyName
            case Some(key) => Ok(KeyedSection(key, "Shape", ShapeView(children)))
            case None => Ok(ShapeView(children))
      else if identifier == Str("arrayOf") then
        match Render(Member(schema, "elementType"), None)
        case Err(e) => Err(e)
        case Ok(body) =>
          match keyName
          case Some(key) => Ok(KeyedSection(key, "ArrayOf", body))
          case None => Ok(ArrayOfView(body))
      else Err(InvalidIdentifier(identifier))
  }

  /** `ShapeSchema.render()` from entry `i` on: one keyed view per entry, in
      order; the first entry that fails to render stops the rest. */
  function RenderEntries(schema: Value, i: nat): (r: Result<seq<View>, Error>)
    requires i <= EntryCount(schema)
    ensures r.Ok? ==> |r.value| == EntryCount(schema) - i
    ensures r.Ok? ==> forall j :: 0 <= j < |r.value| ==>
      Render(EntryValue(schema, i + j), Some(EntryKey(schema, i + j))) == Ok(r.value[j])
    ensures r.Err? ==> exists j :: (i <= j < EntryCount(schema) &&
      Render(EntryValue(schema, j), Some(EntryKey(schema, j))) == Err(r.error))
    decreases 1, schema, 0, EntryCount(schema) - i
  {
    if i == EntryCount(schema) then Ok([])
    else match Render(EntryValue(schema, i), Some(EntryKey(schema, i)))
      case Err(e) => Err(e)
      case Ok(view) =>
        match RenderEntries(schema, i + 1)
        case Err(e) => Err(e)
        case Ok(rest) => Ok([view] + rest)
  }

  /** The key only labels the view: it changes neither whether a node
      renders nor what error it throws. */
  lemma KeyOnlyLabels(schema: Value, key: string)
    ensures Render(schema, Some(key)).Ok? <==> Render(schema, None).Ok?
    ensures Render(schema, None).Err? ==> Render(schema, Some(key)) == Render(schema, None)
  {
  }

  /** A factory's SchemaType renders as one leaf row with its kind's name. */
  lemma FactoryLeaf(k: Schema.Kind, opts: seq<(string, Value)>, key: string)
    requires !HasKey(opts, "isSchemaType") && !HasKey(opts, "type")
    ensures Identifier(Schema.SchemaTypes(k, opts)) == Ok(Str(Schema.KindName(k)))
    ensures Render(Schema.SchemaTypes(k, opts), None) == Ok(LeafView(Schema.KindName(k)))
    ensures Render(Schema.SchemaTypes(k, opts), Some(key)) == Ok(KeyedLeafView(key, Schema.KindName(k)))
  {
    var t := Schema.SchemaTypes(k, opts);
    assert Get(t, "isSchemaType") == Ok(Bool(true));
    assert Get(t, "type") == Ok(Str(Schema.KindName(k)));
    assert IsLeafIdentifier(Schema.KindName(k));
  }

  /** Any flagged node whose type name is one of the leaf identifiers renders
      as one leaf row with that name, whatever options it carries. */
  lemma LeafIdentifierRenders(schema: Value, name: string, keyName: Option<string>)
    requires Schema.IsSchemaTypeNode(schema) && Get(schema, "type") == Ok(Str(name))
    requires IsLeafIdentifier(name)
    ensures keyName.None? ==> Render(schema, keyName) == Ok(LeafView(name))
    ensures keyName.Some? ==> Render(schema, keyName) == Ok(KeyedLeafView(keyName.value, name))
  {
  }

  /** An identifier that is neither a leaf identifier, `shape` nor `arrayOf`
      throws 'invalid schema type identifier', with or without a key. */
  lemma UnknownIdentifierThrows(schema: Value, keyName: Option<string>)
    requires Identifier(schema).Ok?
    requires var id := Identifier(schema).value;
      !(id.Str? && IsLeafIdentifier(id.s)) && id != Str("shape") && id != Str("arrayOf")
    ensures Render(schema, keyName) == Err(InvalidIdentifier(Identifier(schema).value))
  {
  }

  /** A SchemaType made by `createSchemaType` under a type name the viewer
      does not know cannot be viewed. */
  lemma CustomTypeThrows(actual: Predicate, name: string, opts: seq<(string, Value)>, keyName: Option<string>)
    requires !IsLeafIdentifier(name) && name != "shape" && name != "arrayOf"
    requires !HasKey(opts, "isSchemaType") && !HasKey(opts, "type")
    ensures Render(Schema.CreateSchemaType(actual, name, opts), keyName) == Err(InvalidIdentifier(Str(name)))
  {
    var t := Schema.CreateSchemaType(actual, name, opts);
    assert Get(t, "isSchemaType") == Ok(Bool(true));
    assert Identifier(t) == Ok(Str(name));
    UnknownIdentifierThrows(t, keyName);
  }

  /** `arrayOf(element)` renders as an `ArrayOf` heading over the view of
      the element, and fails exactly when the element fails. */
  lemma ArrayOfRendersElement(element: Value, opts: seq<(string, Value)>)
    requires !HasKey(opts, "isSchemaType") && !HasKey(opts, "type")
    ensures Render(Schema.ArrayOf(element, opts), None) ==
      match Render(element, None)
      case Ok(body) => Ok(ArrayOfView(body))
      case Err(e) => Err(e)
  {
    var t := Schema.ArrayOf(element, opts);
    assert !HasKey(t.opts, "isSchemaType") && !HasKey(t.opts, "type");
    assert Identifier(t) == Ok(Str("arrayOf"));
    assert !IsLeafIdentifier("arrayOf");
    assert Member(t, "elementType") == element;
  }

  /** A plain shape renders one row per key, in key order, each labelled
      with its key. */
  lemma ShapeRows(props: seq<(string, Value)>)
    requires !Schema.IsSchemaTypeNode(Obj(props))
    ensures Render(Obj(props), None).Ok? ==>
      var view := Render(Obj(props), None).value;
      view.ShapeView? && |view.children| == |props| &&
      forall j :: 0 <= j < |props| ==> KeyOf(view.children[j]) == Some(props[j].0)
  {
    var r := RenderEntries(Obj(props), 0);
    if r.Ok? {
      forall j | 0 <= j < |props|
        ensures KeyOf(r.value[j]) == Some(props[j].0)
      {
        assert Render(props[j].1, Some(props[j].0)) == Ok(r.value[j]);
      }
    }
  }

  /** A schema written with the factories alone: a kind's SchemaType without
      options, `arrayOf` of such a schema, or a plain object of them. */
  ghost predicate Built(s: Value)
    decreases s
  {
    match s
    case Leaf(_, _, opts) =>
      (exists k :: s == Schema.SchemaTypes(k, [])) ||
      (|opts| == 1 && opts[0].0 == "elementType" && s == Schema.ArrayOf(opts[0].1, []) && Built(opts[0].1))
    case Obj(props) =>
      !Schema.IsSchemaTypeNode(s) && forall i | 0 <= i < |props| :: Built(props[i].1)
    case _ => false
  }

  /** Such a schema passes `validateSchema`, and the viewer renders it
      without throwing. */
  lemma {:induction false} BuiltRenders(s: Value, keyName: Option<string>)
    requires Built(s)
    ensures Schema.WellFormed(s)
    ensures Render(s, keyName).Ok?
    decreases s, 1
  {
    match s
    case Leaf(_, _, opts) =>
      if k :| s == Schema.SchemaTypes(k, []) {
        FactoryLeaf(k, [], "");
        Schema.SchemaTypesLeaf(k, [], Undefined);
        KeyOnlyLabels(s, "");
        if keyName.Some? {
          FactoryLeaf(k, [], keyName.value);
        }
      } else {
        var element := opts[0].1;
        BuiltRenders(element, None);
        ArrayOfRendersElement(element, []);
        assert Get(s, "isSchemaType") == Ok(Bool(true));
        KeyOnlyLabels(s, if keyName.Some? then keyName.value else "");
      }
    case Obj(props) =>
      BuiltEntriesRender(s, 0);
      forall i | 0 <= i < EntryCount(s)
        ensures Schema.WellFormed(EntryValue(s, i))
      {
        BuiltRenders(EntryValue(s, i), None);
      }
  }

  lemma {:induction false} BuiltEntriesRender(s: Value, i: nat)
    requires s.Obj? && Built(s) && i <= EntryCount(s)
    ensures RenderEntries(s, i).Ok?
    decreases s, 0, EntryCount(s) - i
  {
    if i < EntryCount(s) {
      BuiltRenders(EntryValue(s, i), Some(EntryKey(s, i)));
      BuiltEntriesRender(s, i + 1);
    }
  }
}
