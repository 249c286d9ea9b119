# object-editor-react, modelled in Dafny

This project models the logic of b-gran/object-editor-react, a React table
editor for JavaScript objects that are described by a schema. It leaves out
the markup. It covers these parts:

- **The schema engine (`src/Schema.js`).**
  - The value predicates.
  - The `maybeRequired` combinator.
  - The SchemaType factories.
  - `validateSchema`, which reports the first bad node by its dot-joined path.
  - A marked extension for `matchesSchema`, `isArrayOfType`, `every`,
    `isArray`, `arrayOf` and the `array` factory. The tests and the type
    declarations use these, but `src/Schema.js` does not define them.
    The `array` factory is declared at `index.d.ts:24` without a check; the
    model takes its check to be `Array.isArray`. The rows below about "every
    factory" include it.
  - In the extension, `matchesSchema` matches a plain object as a shape even
    when it is flagged `isSchemaType`, and a well-formed array or Date node
    in a schema matches no candidate.
- **The editors (`src/Editor.js`).**
  - `ArrayEditor`: the row selection (re-indexing after a deletion,
    select-all, toggling one row) and the pagination.
  - The array handlers an `ObjectCell` gives to a nested editor.
  - The key update of an `ElementRow`.
  - The pending object of an `AddObjectRow`.
  - `stringToBoolean`.
- **The popover geometry (`src/Pin.js`):** anchoring, alignment, clamping
  and the fit test, over real numbers.
- **The prop-type validators and class-name builders (`src/constants.js`).**
- **The column titles of the table header (`src/BaseTable.js`).**
- **The schema viewer's identifier dispatch (`src/SchemaView.js`).**

There is one JavaScript value datatype, `JsValue.Value`.

- The model reads and writes the SchemaType fields under one set of names:
  `isSchemaType`, `type` and `elementType`. The code does not. This is the
  first row under "## Findings".

- An object is a list of (key, value) pairs kept in key order. Reading a key
  gives the first pair with that key.
- A SchemaType is `Leaf(validate, typeName, opts)`. Its property reads answer
  from `{isSchemaType: true, type, ...opts}`, so an option overrides the two
  built-in fields.
- A thrown exception is the `Err` case of `Wrappers.Result`.

Files:

- `Wrappers.dfy`: Option and Result.
- `JsString.dfy`: case mapping, decimal text, substring search.
- `JsValue.dfy`: values, truthiness, `typeof`, property reads,
  `Object.keys`, `update`/`$set`.
- `Schema.dfy`, `Editor.dfy`, `Pin.dfy`, `Constants.dfy`, `BaseTable.dfy`,
  `SchemaView.dfy`: one per source file.

Where this model departs from the source's own description, it follows the code:

- `validateSchema({})` returns null in the code. The forEach runs over no
  keys. `src/test/schema.test.js:214` expects a throw. `Schema.ValidateEmptyObject`
  records what the code does.
- `validateSchema(undefined)` and `validateSchema(null)` throw only because
  `schema.isSchemaType` is read from them (`src/Schema.js:110`).

## Model

| member | source | states |
|---|---|---|
| Schema.IsValidDate | src/Schema.js:2-8 | true exactly for a Date whose time is not NaN; false for invalid Dates and for every non-Date |
| Schema.TypeValidator | src/Schema.js:12-14 | the validator accepts a value exactly when its `typeof` tag is the given tag |
| Schema.TypeValidatorSamples | src/test/schema.test.js:26-49 | the tag checks of the sample values: `null` and objects are "object", functions and SchemaTypes are "function", NaN is a "number", a numeric string is not |
| Schema.IsSomething | src/Schema.js:17-19 | false only for undefined; null, objects and functions are all "something" |
| Schema.IsObject | src/Schema.js:101-103 | true exactly for plain objects; Dates, arrays, numbers, Buffers, undefined and null are not |
| Schema.MaybeRequired | src/Schema.js:40-45 | a value that is not required and is undefined passes; in every other case the underlying check decides |
| Schema.SchemaType | src/Schema.js:49-58 | the result is a function whose `isSchemaType` is true and whose `type` is the name, unless an option overrides them; every option reads back; calling it runs the validator |
| Schema.CreateSchemaType | src/Schema.js:65-70 | the SchemaType keeps the type name and the options, and is required exactly when `!!opts.required` |
| Schema.SchemaTypes | src/Schema.js:85-93 | no contract of its own: the factory call `SchemaTypes[k](opts)`; Schema.SchemaTypesLeaf states what it builds |
| Schema.SchemaTypesLeaf | src/Schema.js:85-93 | each factory call is a SchemaType tagged with its kind and options; its check is `maybeRequired` of the kind's predicate under `!!opts.required`, so required defaults to false |
| Schema.RequiredDecidesUndefined | src/Schema.js:85-93 | a factory's SchemaType accepts undefined exactly when it is not required |
| Schema.KindNameInjective | src/Schema.js:85-93 | different factories carry different type names |
| Schema.InvalidSchemaMessage | src/Schema.js:96-98 | the message starts with "(At " and the location, and ends with ":" and the `typeof` tag of the bad leaf |
| Schema.ValidateSchema | src/Schema.js:108-128 | no contract of its own: `validateSchema` as written; Schema.ValidateSchemaIffWellFormed and Schema.ValidateSchemaBlames state when it succeeds and what its errors are |
| Schema.ValidateEntries | src/Schema.js:115-124 | no contract of its own: the `forEach` over the keys; Schema.ValidateEntriesIff and Schema.EntriesBlame state it |
| Schema.ValidateSchemaIffWellFormed | src/Schema.js:108-128 | `validateSchema` succeeds exactly on trees whose every node is a SchemaType, or an object whose entries are all such trees, from any starting location |
| Schema.ValidateEntriesIff | src/Schema.js:115-124 | the key loop succeeds exactly when every remaining entry is a valid tree |
| Schema.WalkExtendsLocation | src/Schema.js:119 | every location passed down the tree extends the starting one |
| Schema.ValidateSchemaBlames | src/Schema.js:108-128 | every error is caused by one node of the tree. The path of entries leading to that node builds its reported location. The node is undefined or null (a TypeError), or it is neither a SchemaType nor an object (the invalid-schema error at that location) |
| Schema.EntriesBlame | src/Schema.js:116-120 | the loop's error is exactly the error of one entry's check |
| Schema.ValidateEmptyObject | src/Schema.js:115-124 | the empty object is accepted |
| Schema.ValidateNullish | src/Schema.js:110 | undefined and null fail with the TypeError of reading `isSchemaType` |
| Schema.ValidateSchemaExamples | src/test/schema.test.js:165-212 | the tests' string under `bar` is reported at ".bar"; a string at the root is reported at the root; `any()` is valid |
| Schema.IsArray | src/test/schema.test.js:65-82 | true exactly for arrays, as `Array.isArray` |
| Schema.Every | src/test/schema.test.js:108-141 | a non-array throws; otherwise the result is true exactly when the predicate holds of every element, given its index and the whole array |
| Schema.MatchesSchema | src/test/schema.test.js:230-311 | an invalid schema throws, and only an invalid one |
| Schema.MatchesTestSchemaValid | src/test/schema.test.js:165-193 | the tests' nested schema is valid |
| Schema.MatchesSchemaAccepts | src/test/schema.test.js:246-274 | `{foo: 'string'}` matches the tests' schema: the absent optional keys pass, the nested shape included |
| Schema.MatchesSchemaRejects | src/test/schema.test.js:276-310 | a string `bar`, `{foo: 1}`, `{foo: null}`, `{}`, `1` and undefined do not match |
| Schema.FooMustBeString | src/test/schema.test.js:231-232 | no candidate without a string under `foo` matches the tests' schema |
| Schema.BarMustBeNumber | src/test/schema.test.js:233 | no candidate with a string under `bar` matches the tests' schema |
| Schema.ArrayOf | index.d.ts:26 | `arrayOf(element)(opts)` is a SchemaType of type "arrayOf" whose `elementType` is the element, required as the options say |
| Schema.ShapeMatchesEachKey | src/test/schema.test.js:246-310 | a shape matches exactly when every key of the schema matches the candidate's value under that key |
| Schema.ExtraKeysIgnored | src/test/schema.test.js:262-264 | candidates that agree on the schema's keys match alike, whatever else they carry |
| Schema.MatchesSchemaInner | src/test/schema.test.js:230-311 | no contract of its own: the structural match; Schema.ShapeMatchesEachKey and Schema.ExtraKeysIgnored state it |
| Schema.IsArrayOfType | src/test/schema.test.js:313-408 | no contract of its own; Schema.IsArrayOfTypeIff states it |
| Schema.IsArrayOfTypeIff | src/test/schema.test.js:313-408 | `isArrayOfType(schema)(test)` holds exactly for an array whose every element matches; a non-array fails, and so does an array with one failing element |
| Schema.ArrayOfIsEvery | src/test/schema.test.js:313-408 | calling `arrayOf(T)` on an array is `every` element matching `T`; on any other present value it fails |
| Schema.AllElementsMatchEvery | src/test/schema.test.js:313-408 | the element loop holds exactly when every remaining element matches |
| JsValue.Assign | src/Editor.js:611-618 | `update(obj, {[key]: {$set: v}})`: the key reads back `v`, every other key reads as before, a present key keeps the key order, and an absent one is appended |
| JsValue.OwnKeys | src/BaseTable.js:100 | `Object.keys`: one key per entry of an object or array, in order; a string's keys are its indices |
| Editor.RemovedBelowCounts | src/Editor.js:89-93 | the count `numberRemoved` at row `i` is the number of removed indices below `i` |
| Editor.NewIndexStep | src/Editor.js:90-97 | passing a kept row advances the new index by one; passing a removed row leaves it |
| Editor.NewIndexIncreasing | src/Editor.js:96 | a kept row's new index is below the new index of every later row |
| Editor.ReindexBelowLength | src/Editor.js:88-98 | every new selected index is below the length minus the removed indices in range |
| Editor.ReindexOrigin | src/Editor.js:90-97 | every new selected index comes from a selected row that was not removed, shifted by the removed rows before it |
| Editor.SelectionFollowsRows | src/Editor.js:84-98 | a surviving row is selected after the deletion, at its new index, exactly when it was selected before |
| Editor.ReindexContains | src/Editor.js:94-96 | a selected surviving row is selected at its new index |
| Editor.ReindexSize | src/Editor.js:84-98 | the new selection has one entry per surviving selected row |
| Editor.ReindexNoLarger | src/Editor.js:84-98 | a deletion never grows the selection |
| Editor.DeletingSelectionClearsIt | src/Editor.js:128 | deleting every selected row leaves nothing selected |
| Editor.RowRange | src/Editor.js:140-141 | the select-all set holds exactly the indices of the rows |
| Editor.RowRangeSize | src/Editor.js:140-141 | select-all selects as many rows as there are |
| Editor.AllElementsSelected | src/Editor.js:108-110 | no contract of its own: the count test; Editor.AllSelectedMeansEveryRow states what it means |
| Editor.Indeterminate | src/Editor.js:147 | no contract of its own: some but not all rows selected; Editor.SelectAllSelectsAll states it after select-all |
| Editor.AllSelectedMeansEveryRow | src/Editor.js:109-111 | while every selected index is a row, "all selected" by count means every row is selected |
| Editor.Toggled | src/Editor.js:167-180 | the toggled row's membership flips and every other row's stays |
| Editor.ToggleTwice | src/Editor.js:167-180 | toggling a row twice restores the selection |
| Editor.ToggleSize | src/Editor.js:167-180 | a toggle changes the selection's size by exactly one |
| Editor.RealIndex | src/Editor.js:122 | no contract of its own: `page * rowsPerPage + visibleIndex`; Editor.VisibleElements states that visible position `v` shows that row |
| Editor.Slice | src/Editor.js:115-120 | `slice(start, end)` holds the elements from `start` up to `end` clamped to the length, in order, and is empty when the range is |
| Editor.VisibleElements | src/Editor.js:115-122 | for a numeric page size, at most a page of rows, and visible position `v` shows row `page * rowsPerPage + v`; nothing without an array |
| Editor.RowOnItsPage | src/Editor.js:115-122 | with a positive page size, row `i` appears on page `i / rowsPerPage` at position `i % rowsPerPage` |
| Editor.RowOnOnePage | src/Editor.js:115-122 | a row appears on one page only, at one position |
| Editor.ArrayEditor.constructor | src/Editor.js:77-82 | nothing selected, page 0, five rows per page |
| Editor.ArrayEditor.HandleDeleteElements | src/Editor.js:84-105 | an absent array throws and nothing changes; otherwise the indices go to `onRemoveElements` unchanged and the selection becomes the re-indexed one; the page state is kept |
| Editor.ArrayEditor.SelectAll | src/Editor.js:133-145 | a full selection is cleared; otherwise every row is selected, and an absent array throws |
| Editor.ArrayEditor.Select | src/Editor.js:167-180 | the selection becomes the toggled one; the page state is kept |
| Editor.ArrayEditor.ChangePage | src/Editor.js:151 | only the page changes |
| Editor.ArrayEditor.ChangeRowsPerPage | src/Editor.js:152 | only the page size changes |
| Editor.SelectAllSelectsAll | src/Editor.js:133-147 | after select-all every row counts as selected and the header checkbox is not indeterminate |
| Editor.CellArray | src/Editor.js:513 | no contract of its own: the array `value` or a fresh empty one when `value` is falsy; Editor.UpdateElement and Editor.RemoveElements state the handlers on it |
| Editor.SetAt | src/Editor.js:531-538 | only the given position changes; writing past the end extends the array with holes that read as undefined |
| Editor.UpdateElement | src/Editor.js:527-544 | with an index, that position of the cell's array (empty when the value is falsy) is replaced and the others kept; without one, the element itself is passed on |
| Editor.SetAtSame | src/Editor.js:531-538 | writing back the element already at a position changes nothing |
| Editor.Reject | src/Editor.js:552-555 | the dropped positions are gone and every kept element moves to its new index, in order |
| Editor.RemoveElements | src/Editor.js:548-557 | the same, on the cell's array (empty when the value is falsy) with the listed indices |
| Editor.AddElement | src/Editor.js:560-568 | the array gets `el` at the end, its prefix unchanged, and the handler returns true |
| Editor.SelectionMatchesRemoval | src/Editor.js:84-100 | after a deletion a kept row shows the same element at the index where its selection moved |
| Editor.AddThenRemove | src/Editor.js:548-568 | removing the element just added restores the array |
| Editor.RejectKeepsAll | src/Editor.js:552-555 | dropping only positions outside the array keeps it whole |
| Editor.GetChangeHandler | src/Editor.js:601-619 | with no object, `{[key]: v}`; otherwise a copy where the key reads `v`, every other key reads as before, and the size is kept when the key was present |
| Editor.ChangeSameKeyTwice | src/Editor.js:601-619 | two edits of one key: the second one wins outright |
| Editor.AssignTwice | src/Editor.js:611-618 | setting a key twice is setting it once to the second value |
| Editor.ChangeDifferentKeys | src/Editor.js:601-619 | edits of two different keys do not interfere |
| Editor.AddObjectRow.constructor | src/Editor.js:309-312 | the pending object starts as null |
| Editor.AddObjectRow.Add | src/Editor.js:318-332 | while the object is null nothing is handed on; otherwise the object is handed to the consumer once, and the row is cleared only when the consumer's result is truthy |
| Editor.AddObjectRow.UpdateObject | src/Editor.js:344-348 | the pending object becomes the update |
| Editor.StringToBoolean | src/Editor.js:402-404 | true exactly for the four letters "true" in any letter case |
| Editor.BooleanCellRoundTrip | src/Editor.js:426-427 | a boolean cell reads back the value it shows |
| Editor.StringToBooleanIgnoresCase | src/Editor.js:402-404 | "True", "TRUE" and "tRuE" are true; "yes", "1" and "true " are not |
| Pin.ErrorMessage | src/Pin.js:76-79 | the message starts with "Invalid" and the kind, and ends with " is not a" and the kind |
| Pin.InverseOf | src/Pin.js:29-34 | defined exactly on the four positions, and always a different position; other names, prototype names aside, are undefined |
| Pin.InverseInvolution | src/Pin.js:29-34 | the opposite of the opposite is the position itself, on the same axis |
| Pin.IsVertical | src/Pin.js:36-41 | no contract of its own: the `isVertical` table; Pin.AxesPartitionPositions states it |
| Pin.IsHorizontal | src/Pin.js:43-48 | no contract of its own: the `isHorizontal` table; Pin.AxesPartitionPositions states it |
| Pin.AxesPartitionPositions | src/Pin.js:36-48 | each position is on exactly one axis; any other key, prototype names aside, is on none |
| Pin.AnchorRect | src/Pin.js:82-129 | `middle` keeps the target; `start` and `end` move the two edges across the axis by plus or minus half the content size; width and height stay; an unknown anchor throws |
| Pin.GetXPosition | src/Pin.js:163-195 | above or below: `left`, centred, or `right - w` by alignment; left of the target `left - w`; right of it `right`; unknown keys throw |
| Pin.GetYPosition | src/Pin.js:197-229 | no contract of its own: `getYPosition`; Pin.YIsMirroredX states it |
| Pin.YIsMirroredX | src/Pin.js:197-229 | `getYPosition` is `getXPosition` with the axes swapped, errors included |
| Pin.ClampRectangle | src/Pin.js:232-237 | never past `max - length`; at least `min` when the room allows; a position already in range is kept, one below `min` moves to `min`, and one past `max - length`, or any position when `min > max - length`, moves to `max - length` |
| Pin.GetPosition | src/Pin.js:50-74 | the position is never past the window's far edges, and lies in the window whenever the content fits |
| Pin.GetPositionErrors | src/Pin.js:50-74 | only an unknown key fails, prototype names aside: the anchor first, then the position, then the alignment |
| Pin.DoesContentFit | src/Pin.js:133-161 | no contract of its own: the fit test; Pin.FitBounds and Pin.FitMeansNoClamp state it |
| Pin.FitMeansNoClamp | src/Pin.js:133-161 | content that fits is not moved along its alignment axis by the clamping |
| Pin.FitBounds | src/Pin.js:133-161 | each position checks exactly the three window bounds other than the one on the far side |
| Constants.AddIsRequiredProperty | src/constants.js:16 | the `isRequired` form is the validator itself |
| Constants.CheckOptional | src/constants.js:8-14 | an undefined prop passes; otherwise the validator decides, with the same arguments |
| Constants.AbsentPropIgnoresValidator | src/constants.js:8-14 | an absent prop passes the optional form whatever the validator |
| Constants.ValidateSchemaTypeProp | src/constants.js:22-30 | passes exactly when the prop is truthy and flagged as a SchemaType; otherwise the invalid-schema error at `componentName.propName` |
| Constants.ValidateSchemaProp | src/constants.js:33-36 | `validateSchema` of the prop at `componentName.propName`, unchanged; it passes exactly on valid trees |
| Constants.SchemaTypePropType | src/constants.js:41 | the required form is `validateSchemaTypeProp` |
| Constants.SchemaPropType | src/constants.js:44 | the required form is `validateSchemaProp` |
| Constants.FactoryPassesSchemaTypeProp | src/constants.js:22-30 | every factory's SchemaType passes, under any names |
| Constants.ShapeIsSchemaNotSchemaType | src/constants.js:22-36 | a shape passes the Schema check but not the SchemaType check |
| Constants.MissingRequiredSchemaProp | src/constants.js:33-36 | a missing required Schema prop throws the TypeError of reading `isSchemaType` |
| Constants.SchemaPropErrorLocated | src/constants.js:33-36 | every invalid-schema error names a location under `componentName.propName` |
| Constants.AppendTo | src/constants.js:48-50 | the base followed by the suffix; the base alone without one |
| Constants.AppendToCancels | src/constants.js:48-50 | the suffix is recovered from the class name |
| Constants.BaseName | src/constants.js:53-74 | no contract of its own: each element's base class name; Constants.BaseNamesDistinct and Constants.BaseClassname state it |
| Constants.BaseClassname | src/constants.js:53-74 | every class name is its element's base name followed by the suffix, or the base name alone without one |
| Constants.BaseNamesDistinct | src/constants.js:53-74 | the seven base names are pairwise distinct |
| Constants.ClassnameExamples | src/constants.js:53-74 | for example `Editor('--array')` is "editor--array" |
| BaseTable.IsArraySchemaType | src/BaseTable.js:33-35 | true exactly when the type name is a string containing "array"; reading from undefined or null throws; a truthy non-string type name throws for want of `match` |
| BaseTable.ColumnTitleWith | src/BaseTable.js:38-51 | no contract of its own: `columnTitle` with its stand-in element schema as a parameter; BaseTable.ChainTitle states it for every stand-in that is not an array type |
| BaseTable.ColumnTitle | src/BaseTable.js:38-51 | no contract of its own: `columnTitle` with the corrected stand-in `SchemaTypes.any()`; BaseTable.ColumnTitleCases, BaseTable.ArrayOfTitle and BaseTable.NestedArrayTitle state it |
| BaseTable.ColumnTitleAsWritten | src/BaseTable.js:38-51 | no contract of its own: `columnTitle` as written; BaseTable.DefaultElementTitle shows its "Array of " |
| BaseTable.AnyType | src/Schema.js:86 | `SchemaTypes.any()` is not an array type |
| BaseTable.ColumnTitleCases | src/BaseTable.js:38-51 | a shape is titled "Object"; a SchemaType that is not an array type is titled with its capitalised type name; a failing array test fails the title with the same error |
| BaseTable.NotArrayType | src/BaseTable.js:33-35 | the SchemaType of every factory but `array`, under any options that do not override `type`, is not an array type |
| BaseTable.KindTitle | src/BaseTable.js:50 | such a SchemaType is titled with its capitalised kind name |
| BaseTable.AnyTitle | src/BaseTable.js:50 | `any()` is titled "Any" |
| BaseTable.DefaultElementTitle | src/BaseTable.js:45-47 | an array type without an element type is titled "Array of " as written and "Array of Any" as intended |
| BaseTable.OverriddenTypeTitle | src/BaseTable.js:45-47 | a factory SchemaType whose `type` option is "array" is titled "Array of " as written and "Array of Any" as intended |
| BaseTable.ArrayOfTitle | src/BaseTable.js:45-47 | `arrayOf(element)` is titled "Array of " and the element's title, and fails exactly when the element's title does |
| BaseTable.NestedArrayTitle | src/BaseTable.js:45-47 | in a chain of `arrayOf` layers, layer `i` is titled with `i` copies of "Array of " before the innermost title |
| BaseTable.ChainTitle | src/BaseTable.js:38-51 | the same for any stand-in element type that is not an array type |
| BaseTable.ColumnTitlesWith | src/BaseTable.js:93-125 | for any stand-in element schema: a SchemaType gets one column, its title; any other schema gets one column per key, in key order; undefined or null throws |
| BaseTable.ColumnTitlesAsWritten | src/BaseTable.js:93-125 | no contract of its own: the header as written, titled by BaseTable.ColumnTitleAsWritten |
| BaseTable.ColumnTitles | src/BaseTable.js:93-125 | no contract of its own: the header with the corrected BaseTable.ColumnTitle; BaseTable.ColumnTitlesWith states it |
| BaseTable.DefaultElementColumns | src/BaseTable.js:93-125 | the header of `array()` is the one column "Array of " as written and "Array of Any" as intended |
| BaseTable.ShapeColumns | src/BaseTable.js:98-105 | a shape's columns are its keys, one per entry, in order |
| SchemaView.Identifier | src/SchemaView.js:31-35 | a SchemaType's type name; `shape` for every other node; undefined and null throw |
| SchemaView.IdentifierAsWritten | src/SchemaView.js:31-35 | with the field names as written: `_type` when `_isSchemaType` is truthy, `shape` otherwise; undefined and null throw |
| SchemaView.FactoryIsEmptyShapeAsWritten | src/SchemaView.js:32-33 | as written, every factory SchemaType is identified as a shape and has no own keys, so it is an empty shape with no header column; with the shared names it is identified by its kind |
| SchemaView.Render | src/SchemaView.js:51-104 | undefined and null throw; a rendered view carries the key name exactly when one was given |
| SchemaView.LeafIdentifierRenders | src/SchemaView.js:54-68 | any flagged node whose type name is one of the eight leaf identifiers renders as one leaf with that name, keyed when a key is given |
| SchemaView.UnknownIdentifierThrows | src/SchemaView.js:100-101 | any other identifier than the leaf ones, `shape` and `arrayOf` throws 'invalid schema type identifier', with or without a key |
| SchemaView.CustomTypeThrows | src/SchemaView.js:100-101 | a `createSchemaType` SchemaType under a type name the viewer does not know cannot be viewed |
| SchemaView.RenderEntries | src/SchemaView.js:113-121 | one keyed view per entry, in order; an error is the error of one entry |
| SchemaView.KeyOnlyLabels | src/SchemaView.js:51-104 | the key labels the view and changes neither success nor the error |
| SchemaView.FactoryLeaf | src/SchemaView.js:54-68 | each factory's SchemaType renders as one leaf with its kind's name, or a key/leaf pair with a key |
| SchemaView.ArrayOfRendersElement | src/SchemaView.js:84-99 | `arrayOf` renders one child, the view of its element, and fails exactly when the element fails |
| SchemaView.ShapeRows | src/SchemaView.js:113-121 | a shape renders one child per key, in key order, each labelled with its key |
| SchemaView.BuiltRenders | src/SchemaView.js:51-121 | a schema built from the factories, `arrayOf` and plain objects is valid and renders without throwing |

## Left out

- React rendering, JSX, material-ui, glamorous styling and the scheduling of
  `setState`. The model keeps only the state each handler computes. Callbacks
  to the consumer (`onChange`, `onRemoveElements`, `onAddElement`) are modelled
  as the value they are called with.
- `src/HoverPopover.js`, `src/Scrim.js` and the `Pin` component class: DOM
  events, timers and refs.
- `src/util.js`. `keyBy(R.identity, xs)` is taken to give an object whose keys
  are exactly the listed indices, so `i in removedByIndex` is set membership.
  `cloneMap` (src/Editor.js:170) is taken to copy the selection, so that
  `Editor.Toggled` starts from the selection as it was. `capitalize`, which
  `src/Editor.js` also imports from there, is used only for headings outside
  this model. The shown `src/util.js` defines none of the three.
- The `__proto__` assignment of `SchemaType`: a SchemaType is a datatype
  value, not a function with a prototype.
- The text `${badLeaf}` inside `invalidSchemaMessage`: it is a parameter, and
  the error keeps the bad value itself.
- IEEE floating point in `src/Pin.js` (reals are used), `getBoundingClientRect`
  and `window` sizes (parameters), and the never-read `windowRect` argument.
- The `Math.random()` checkbox state of `BaseTable` (src/BaseTable.js:117).
- Build files, demos, entry points, the type declarations and the tests,
  which serve only as evidence for the extension.
- Object key order: the model keeps insertion order. JavaScript lists integer
  keys first. Duplicate keys inside one property list are not rejected;
  lookups take the first.
- Built-in and prototype properties of values (`length`, methods), and the
  entries of a Buffer, are not modelled. Reading them gives undefined. This
  includes the object-literal tables of `src/Pin.js` (`inverseOf`'s table,
  `isVertical`, `isHorizontal`, src/Pin.js:29-48). There a prototype name such
  as "constructor" reads as a truthy function, so `getPosition` with the
  position "constructor" places the content, where the model reports an
  invalid position.
- An options argument that is not a plain object. Options are property lists.
- Letter case beyond ASCII in `toLowerCase`, `toUpperCase` and lodash
  `capitalize`. `src/BaseTable.js` uses `_.capitalize` without importing
  lodash; the model assumes lodash's behaviour.
- The curried forms of `maybeRequired`, `createSchemaType`, `appendTo`,
  `getChangeHandler` and `arrayOf`: they are modelled uncurried.
- Editor.ArrayEditor.ChangeRowsPerPage: the page size is taken as a natural
  number. The source stores `evt.target.value` as it comes. The shown
  `src/BaseTable.js` imports `TablePagination` but does not render it, so no
  shown code calls this handler or fixes the type of that value.
- Editor.VisibleElements: "at most a page" assumes a numeric page size. A
  string page size would make `page * rowsPerPage + rowsPerPage`
  (src/Editor.js:118) a concatenation at page 1 and later ("5" at page 1
  gives an end of "55"). The slice would then show more than a page.
- Editor.SetAt: writing past the end of the array fills the gap with
  undefined entries. react-addons-update leaves holes there instead, which
  `forEach` and `map` skip. So after such a write, a later select-all counts
  the gap rows in the model and not in the source.
- The props an editor receives: `object` is an optional sequence, not an
  arbitrary value. `keyName` is an optional string, so a non-string key name is
  treated as absent.
- The `useArrayEditor` and editor-type choice of `ObjectCell.renderEditor`
  (src/Editor.js:490-510). It is not part of this model. Its fallback at
  src/Editor.js:507 is the same factory as the BaseTable finding below.
- SchemaView.Render: React renders child components lazily; the model renders
  the whole tree at once. A non-empty string node would be rendered forever: it
  is a shape, and its one-character entries are shapes of themselves. The model
  reports this as `EndlessRender` instead of a stack overflow.
- BaseTable.ColumnTitles: the header uses the corrected BaseTable.ColumnTitle,
  so `array()` gets the column "Array of Any". As written the source gives
  "Array of " (src/BaseTable.js:46); BaseTable.ColumnTitlesAsWritten models that,
  and BaseTable.DefaultElementColumns states both.
- BaseTable.ColumnTitle: its own contract is stated in BaseTable.ColumnTitleCases,
  BaseTable.ArrayOfTitle and BaseTable.NestedArrayTitle rather than on the function.
- Pin.GetYPosition: its contract is stated through Pin.YIsMirroredX.
- BaseTable.IsArraySchemaType: like the rest of `BaseTable` and `Editor`, it
  reads the shared field names. Only the viewer's identifier also has a
  version that reads the underscored ones (the first row under "## Findings").

## Findings

`BaseTable.ColumnTitleAsWritten` is `columnTitle` with the factory as its
stand-in. The first clause of `BaseTable.DefaultElementTitle` shows the title
it gives. `BaseTable.ColumnTitle` uses `SchemaTypes.any()` instead; the rest of
the model uses it. The second clause of `BaseTable.DefaultElementTitle`,
`BaseTable.AnyTitle` and `BaseTable.NestedArrayTitle` are proved about it.
The header follows the same split: `BaseTable.ColumnTitlesAsWritten` and
`BaseTable.ColumnTitles`, compared by `BaseTable.DefaultElementColumns`.

`SchemaView.IdentifierAsWritten` reads the underscored field names the
consumers use; `SchemaView.FactoryIsEmptyShapeAsWritten` shows that no
factory SchemaType is then recognised. The rest of the model uses the shared
names, as `SchemaView.Identifier` does, and `SchemaView.FactoryLeaf` is
proved about it.

| source | as written | input that shows it | evidently intended | confidence | as-written member | corrected member |
|---|---|---|---|---|---|---|
| src/SchemaView.js:32 | `src/Schema.js:51-54` puts `isSchemaType` and `type` on a SchemaType. The viewer, `BaseTable` and `Editor` read `_isSchemaType`, `_type` and `_elementType`, which nothing sets | `SchemaTypes.string()` is identified as `shape`, and its `Object.keys` are empty. So it is viewed as an empty shape and `BaseTable` gives it no header column | one set of field names on both sides, so that `SchemaTypes.string()` is viewed as a `string` leaf | not executed | SchemaView.IdentifierAsWritten | SchemaView.Identifier |
| src/BaseTable.js:46 | an array type without `_elementType` falls back to `Schema.SchemaTypes.any`, the factory function itself. It has no `_type`, so the element title is `_.capitalize(undefined)`, the empty string. BaseTable.ColumnTitleAsWritten models line 46 under the shared field names of the first row's correction | as written, `columnTitle(SchemaTypes.string({_type: 'array'}))`: the option lands on the prototype (src/Schema.js:53), so the type tests as an array, and with no `_elementType` the title is "Array of ". Under the shared names this is BaseTable.OverriddenTypeTitle, and `columnTitle(SchemaTypes.array())` gives the same (BaseTable.DefaultElementTitle) | the SchemaType `SchemaTypes.any()`, giving "Array of Any" | not executed | BaseTable.ColumnTitleAsWritten | BaseTable.ColumnTitle |
