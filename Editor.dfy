/** The state transitions of the editors in src/Editor.js, without their
    rendering: the row selection of `ArrayEditor` (re-indexing after a
    deletion, select-all, toggling one row), its pagination, the array
    handlers an `ObjectCell` hands to a nested editor, the key update of an
    `ElementRow`, the pending object of an `AddObjectRow`, and
    `stringToBoolean`. */
module Editor {

  import opened Wrappers
  import opened JsValue
  import JsString

  // ---------------------------------------------------------------------
  // Re-indexing rows after a deletion
  // ---------------------------------------------------------------------

  /** The number of removed indices in [0, i): the value `numberRemoved`
      holds when the loop of `handleDeleteElements` reaches row `i`. */
  function RemovedBelow(removed: set<int>, i: nat): (r: nat)
    ensures r <= i
  {
    if i == 0 then 0 else RemovedBelow(removed, i - 1) + (if i - 1 in removed then 1 else 0)
  }

  /** `RemovedBelow` is the number of removed indices in [0, i). */
  lemma {:induction false} RemovedBelowCounts(removed: set<int>, i: nat)
    ensures RemovedBelow(removed, i) == |set r | r in removed && 0 <= r < i|
  {
    if i == 0 {
      assert (set r | r in removed && 0 <= r < 0) == {};
    } else {
      RemovedBelowCounts(removed, i - 1);
      var below := set r | r in removed && 0 <= r < i - 1;
      var upTo := set r | r in removed && 0 <= r < i;
      if i - 1 in removed {
        assert upTo == below + {i - 1};
      } else {
        assert upTo == below;
      }
    }
  }

  /** The index row `i` has once the removed rows before it are gone. */
  function NewIndex(removed: set<int>, i: nat): nat
  {
    i - RemovedBelow(removed, i)
  }

  /** Moving past a kept row advances the new index by one; past a removed
      row it stays put. */
  lemma NewIndexStep(removed: set<int>, i: nat)
    ensures i !in removed ==> NewIndex(removed, i + 1) == NewIndex(removed, i) + 1
    ensures i in removed ==> NewIndex(removed, i + 1) == NewIndex(removed, i)
  {
  }

  /** Kept rows keep their relative order: a kept row lands before every row after it. */
  lemma {:induction false} NewIndexIncreasing(removed: set<int>, i: nat, k: nat)
    requires i < k && i !in removed
    ensures NewIndex(removed, i) < NewIndex(removed, k)
    decreases k
  {
    NewIndexStep(removed, k - 1);
    if i < k - 1 {
      NewIndexIncreasing(removed, i, k - 1);
    }
  }

  /** The selection the loop of `handleDeleteElements` has built once it has
      visited the rows [0, n): every selected row not removed, at its new index. */
  function Reindex(selected: set<int>, removed: set<int>, n: nat): set<int>
  {
    if n == 0 then {}
    else if n - 1 !in removed && n - 1 in selected then Reindex(selected, removed, n - 1) + {NewIndex(removed, n - 1)}
    else Reindex(selected, removed, n - 1)
  }

  /** Every new index is a valid position among the rows that remain. */
  lemma {:induction false} ReindexBelowLength(selected: set<int>, removed: set<int>, n: nat)
    ensures forall j :: j in Reindex(selected, removed, n) ==> 0 <= j < n - RemovedBelow(removed, n)
  {
    if n > 0 {
      ReindexBelowLength(selected, removed, n - 1);
      NewIndexStep(removed, n - 1);
    }
  }

  /** Each newly selected index comes from a selected row that was not removed. */
  lemma {:induction false} ReindexOrigin(selected: set<int>, removed: set<int>, n: nat, j: int) returns (i: nat)
    requires j in Reindex(selected, removed, n)
    ensures i < n && i !in removed && i in selected && j == NewIndex(removed, i)
  {
    if n - 1 !in removed && n - 1 in selected && j == NewIndex(removed, n - 1) {
      i := n - 1;
    } else {
      i := ReindexOrigin(selected, removed, n - 1, j);
    }
  }

  /** A row that survives the deletion is selected afterwards exactly when
      it was selected before, at its new index. */
  lemma SelectionFollowsRows(selected: set<int>, removed: set<int>, n: nat, i: nat)
    requires i < n && i !in removed
    ensures NewIndex(removed, i) in Reindex(selected, removed, n) <==> i in selected
  {
    if i in selected {
      ReindexContains(selected, removed, n, i);
    } else if NewIndex(removed, i) in Reindex(selected, removed, n) {
      var i' := ReindexOrigin(selected, removed, n, NewIndex(removed, i));
      if i' < i {
        NewIndexIncreasing(removed, i', i);
      } else if i < i' {
        NewIndexIncreasing(removed, i, i');
      }
      assert false;
    }
  }

  lemma {:induction false} ReindexContains(selected: set<int>, removed: set<int>, n: nat, i: nat)
    requires i < n && i !in removed && i in selected
    ensures NewIndex(removed, i) in Reindex(selected, removed, n)
  {
    if i < n - 1 {
      ReindexContains(selected, removed, n - 1, i);
    }
  }

  /** The selected rows that survive a deletion of `removed` among the first `n`. */
  function Surviving(selected: set<int>, removed: set<int>, n: nat): set<int>
  {
    set i | i in selected && 0 <= i < n && i !in removed
  }

  /** The new selection has one entry per surviving selected row. */
  lemma {:induction false} ReindexSize(selected: set<int>, removed: set<int>, n: nat)
    ensures |Reindex(selected, removed, n)| == |Surviving(selected, removed, n)|
  {
    if n == 0 {
      assert Surviving(selected, removed, n) == {};
    } else {
      ReindexSize(selected, removed, n - 1);
      SurvivingStep(selected, removed, n);
      if n - 1 !in removed && n - 1 in selected {
        ReindexBelowLength(selected, removed, n - 1);
        assert NewIndex(removed, n - 1) !in Reindex(selected, removed, n - 1);
      }
    }
  }

  lemma SurvivingStep(selected: set<int>, removed: set<int>, n: nat)
    requires n > 0
    ensures n - 1 !in removed && n - 1 in selected ==>
      Surviving(selected, removed, n) == Surviving(selected, removed, n - 1) + {n - 1} &&
      n - 1 !in Surviving(selected, removed, n - 1)
    ensures !(n - 1 !in removed && n - 1 in selected) ==>
      Surviving(selected, removed, n) == Surviving(selected, removed, n - 1)
  {
  }

  /** A deletion never grows the selection. */
  lemma ReindexNoLarger(selected: set<int>, removed: set<int>, n: nat)
    ensures |Reindex(selected, removed, n)| <= |selected|
  {
    ReindexSize(selected, removed, n);
    SubsetSize(Surviving(selected, removed, n), selected);
  }

  lemma SubsetSize(a: set<int>, b: set<int>)
    requires a <= b
    ensures |a| <= |b|
  {
    assert b == a + (b - a);
  }

  /** Deleting every selected row (the toolbar's delete button) leaves
      nothing selected. */
  lemma {:induction false} DeletingSelectionClearsIt(selected: set<int>, n: nat)
    ensures Reindex(selected, selected, n) == {}
  {
    if n > 0 {
      DeletingSelectionClearsIt(selected, n - 1);
    }
  }

  // ---------------------------------------------------------------------
  // Selecting rows
  // ---------------------------------------------------------------------

  /** The row indices [0, n). */
  function RowRange(n: nat): (r: set<int>)
    ensures forall j :: j in r <==> 0 <= j < n
  {
    if n == 0 then {} else RowRange(n - 1) + {n - 1}
  }

  lemma {:induction false} RowRangeSize(n: nat)
    ensures |RowRange(n)| == n
  {
    if n > 0 {
      RowRangeSize(n - 1);
    }
  }

  /** `allElementsSelected` (`obj` is the `object` prop): an absent array has no rows to select; otherwise
      the selection has as many entries as the array has rows. */
  predicate AllElementsSelected(obj: Option<seq<Value>>, selected: set<int>)
  {
    obj.Some? && |selected| == |obj.value|
  }

  /** The header checkbox is indeterminate when some but not all rows are selected. */
  predicate Indeterminate(obj: Option<seq<Value>>, selected: set<int>)
  {
    !AllElementsSelected(obj, selected) && |selected| > 0
  }

  /** While every selected index is a row, "all selected" by count means that
      every row is selected. */
  lemma AllSelectedMeansEveryRow(rows: seq<Value>, selected: set<int>)
    requires forall j :: j in selected ==> 0 <= j < |rows|
    ensures AllElementsSelected(Some(rows), selected) <==> selected == RowRange(|rows|)
  {
    var all := RowRange(|rows|);
    RowRangeSize(|rows|);
    assert selected <= all;
    assert all == selected + (all - selected);
    assert selected == all <==> all - selected == {};
  }

  /** `set(idx, true)` when `idx` is not selected, `delete(idx)` when it is. */
  function Toggled(selected: set<int>, idx: int): (r: set<int>)
    ensures idx in r <==> idx !in selected
    ensures forall j :: j != idx ==> (j in r <==> j in selected)
  {
    if idx in selected then selected - {idx} else selected + {idx}
  }

  /** Toggling the same row twice restores the selection. */
  lemma ToggleTwice(selected: set<int>, idx: int)
    ensures Toggled(Toggled(selected, idx), idx) == selected
  {
  }

  /** A toggle changes the number of selected rows by exactly one. */
  lemma ToggleSize(selected: set<int>, idx: int)
    ensures idx in selected ==> |Toggled(selected, idx)| == |selected| - 1
    ensures idx !in selected ==> |Toggled(selected, idx)| == |selected| + 1
  {
  }

  // ---------------------------------------------------------------------
  // Pagination
  // ---------------------------------------------------------------------

  /** `realIndex(visibleIndex)`: the row a visible position shows. */
  function RealIndex(page: nat, rowsPerPage: nat, visibleIndex: nat): nat
  {
    page * rowsPerPage + visibleIndex
  }

  /** `Array.prototype.slice(start, end)` for non-negative bounds, which are
      clamped to the length. */
  function Slice(xs: seq<Value>, start: nat, end: nat): (r: seq<Value>)
    ensures start < end && start < |xs| ==> |r| == (if end <= |xs| then end else |xs|) - start
    ensures !(start < end && start < |xs|) ==> r == []
    ensures forall v :: 0 <= v < |r| ==> start + v < |xs| && r[v] == xs[start + v]
  {
    var s := if start <= |xs| then start else |xs|;
    var e := if end <= |xs| then end else |xs|;
    if e <= s then [] else xs[s..e]
  }

  /** `visibleElements`: the rows of the current page, none without an array. */
  function VisibleElements(obj: Option<seq<Value>>, page: nat, rowsPerPage: nat): (r: seq<Value>)
    ensures obj.None? ==> r == []
    ensures |r| <= rowsPerPage
    ensures forall v :: 0 <= v < |r| ==>
      RealIndex(page, rowsPerPage, v) < |obj.value| && r[v] == obj.value[RealIndex(page, rowsPerPage, v)]
  {
    if obj.None? then []
    else Slice(obj.value, page * rowsPerPage, page * rowsPerPage + rowsPerPage)
  }

  /** With a positive page size, every row appears on page `i / rowsPerPage`
      at visible position `i % rowsPerPage`, while its page is shown. */
  lemma RowOnItsPage(rows: seq<Value>, rowsPerPage: nat, i: nat)
    requires rowsPerPage > 0 && i < |rows|
    ensures var page, v := i / rowsPerPage, i % rowsPerPage;
      v < |VisibleElements(Some(rows), page, rowsPerPage)| && RealIndex(page, rowsPerPage, v) == i
  {
    var page, v := i / rowsPerPage, i % rowsPerPage;
    assert page * rowsPerPage + v == i;
    assert page * rowsPerPage <= i < page * rowsPerPage + rowsPerPage;
  }

  /** A row appears on one page only, at one position. */
  lemma RowOnOnePage(rows: seq<Value>, rowsPerPage: nat, p1: nat, v1: nat, p2: nat, v2: nat)
    requires v1 < |VisibleElements(Some(rows), p1, rowsPerPage)|
    requires v2 < |VisibleElements(Some(rows), p2, rowsPerPage)|
    requires RealIndex(p1, rowsPerPage, v1) == RealIndex(p2, rowsPerPage, v2)
    ensures p1 == p2 && v1 == v2
  {
    MultiplyStep(p1, p2, rowsPerPage);
    MultiplyStep(p2, p1, rowsPerPage);
  }

  lemma MultiplyStep(a: nat, b: nat, c: nat)
    ensures a < b ==> a * c + c <= b * c
  {
    if a < b {
      MultiplyMonotone(a + 1, b, c);
    }
  }

  lemma MultiplyMonotone(a: nat, b: nat, c: nat)
    requires a <= b
    ensures a * c <= b * c
  {
  }

  // ---------------------------------------------------------------------
  // The ArrayEditor's state
  // ---------------------------------------------------------------------

  /** The state of an `ArrayEditor`: the selected row indices (the keys of
      its `selected` Map, whose values are always true), the page shown and
      the page size. */
  class ArrayEditor {
    var selected: set<int>
    var page: nat
    var rowsPerPage: nat

    constructor ()
      ensures selected == {} && page == 0 && rowsPerPage == 5
    {
      selected := {};
      page := 0;
      rowsPerPage := 5;
    }

    /** `handleDeleteElements(elementIndices)`: reading the length of an
        absent array throws; otherwise the indices go to `onRemoveElements`
        unchanged and the selection is re-indexed over the rows. */
    method HandleDeleteElements(obj: Option<seq<Value>>, elementIndices: seq<int>)
        returns (removed: Result<seq<int>, Error>)
      modifies this
      ensures obj.None? ==> removed == Err(ReadOfNullish("length")) && selected == old(selected)
      ensures obj.Some? ==> (removed == Ok(elementIndices) &&
        selected == Reindex(old(selected), set r | r in elementIndices, |obj.value|))
      ensures page == old(page) && rowsPerPage == old(rowsPerPage)
    {
      if obj.None? {
        return Err(ReadOfNullish("length"));
      }
      var removedByIndex := set r | r in elementIndices;
      var selectedElements: set<int> := {};
      var numberRemoved := 0;
      var i := 0;
      while i < |obj.value|
        invariant 0 <= i <= |obj.value|
        invariant numberRemoved == RemovedBelow(removedByIndex, i)
        invariant selectedElements == Reindex(selected, removedByIndex, i)
      {
        if i in removedByIndex {
          numberRemoved := numberRemoved + 1;
        } else if i in selected {
          selectedElements := selectedElements + {i - numberRemoved};
        }
        i := i + 1;
      }
      removed := Ok(elementIndices);
      selected := selectedElements;
    }

    /** `onSelectAll`: clears a full selection; otherwise selects every row,
        and the `forEach` of an absent array throws. */
    method SelectAll(obj: Option<seq<Value>>) returns (r: Result<(), Error>)
      modifies this
      ensures AllElementsSelected(obj, old(selected)) ==> r == Ok(()) && selected == {}
      ensures !AllElementsSelected(obj, old(selected)) && obj.None? ==>
        r == Err(ReadOfNullish("forEach")) && selected == old(selected)
      ensures !AllElementsSelected(obj, old(selected)) && obj.Some? ==>
        r == Ok(()) && selected == RowRange(|obj.value|)
      ensures page == old(page) && rowsPerPage == old(rowsPerPage)
    {
      if AllElementsSelected(obj, selected) {
        selected := {};
        return Ok(());
      }
      if obj.None? {
        return Err(ReadOfNullish("forEach"));
      }
      var selectAll: set<int> := {};
      var idx := 0;
      while idx < |obj.value|
        invariant 0 <= idx <= |obj.value|
        invariant selectAll == RowRange(idx)
      {
        selectAll := selectAll + {idx};
        idx := idx + 1;
      }
      selected := selectAll;
      r := Ok(());
    }

    /** `onSelect` of the row at real index `idx`. */
    method Select(idx: int)
      modifies this
      ensures selected == Toggled(old(selected), idx)
      ensures page == old(page) && rowsPerPage == old(rowsPerPage)
    {
      var isSelected := idx in selected;
      var selectElement := selected;
      if isSelected {
        selectElement := selectElement - {idx};
      } else {
        selectElement := selectElement + {idx};
      }
      selected := selectElement;
    }

    /** `onChangePage`. */
    method ChangePage(newPage: nat)
      modifies this
      ensures page == newPage && selected == old(selected) && rowsPerPage == old(rowsPerPage)
    {
      page := newPage;
    }

    /** `onChangeRowsPerPage`, with the chosen page size as a number. */
    method ChangeRowsPerPage(newRowsPerPage: nat)
      modifies this
      ensures rowsPerPage == newRowsPerPage && selected == old(selected) && page == old(page)
    {
      rowsPerPage := newRowsPerPage;
    }
  }

  /** After select-all on rows that are not all selected, every row is
      selected and the header checkbox shows "all". */
  lemma SelectAllSelectsAll(rows: seq<Value>)
    ensures AllElementsSelected(Some(rows), RowRange(|rows|))
    ensures !Indeterminate(Some(rows), RowRange(|rows|))
  {
    RowRangeSize(|rows|);
  }

  // ---------------------------------------------------------------------
  // ObjectCell array handlers
  // ---------------------------------------------------------------------

  /** `value || []`: `None` stands for a falsy cell value. */
  function CellArray(value: Option<seq<Value>>): seq<Value>
  {
    if value.None? then [] else value.value
  }

  /** `update(xs, {[idx]: {$set: el}})` on an array: a copy with position
      `idx` set; writing past the end leaves holes, which read as undefined. */
  function SetAt(xs: seq<Value>, idx: nat, el: Value): (r: seq<Value>)
    ensures |r| == (if idx < |xs| then |xs| else idx + 1)
    ensures r[idx] == el
    ensures forall j :: 0 <= j < |xs| && j != idx ==> r[j] == xs[j]
    ensures forall j :: |xs| <= j < idx ==> r[j] == Undefined
  {
    if idx < |xs| then xs[idx := el] else xs + seq(idx - |xs|, _ => Undefined) + [el]
  }

  /** The `onUpdateElement` handler: with an index it replaces that position of
      the array; without one (an object editor) the element is the new value. */
  function UpdateElement(value: Option<seq<Value>>, el: Value, updatedIndex: Option<nat>): (r: Value)
    ensures updatedIndex.None? ==> r == el
    ensures updatedIndex.Some? ==> (r.Arr? &&
      |r.elems| == (if updatedIndex.value < |CellArray(value)| then |CellArray(value)| else updatedIndex.value + 1) &&
      r.elems[updatedIndex.value] == el &&
      forall j :: 0 <= j < |CellArray(value)| && j != updatedIndex.value ==> r.elems[j] == CellArray(value)[j])
  {
    if updatedIndex.None? then el else Arr(SetAt(CellArray(value), updatedIndex.value, el))
  }

  /** Writing back the element already at a position changes nothing. */
  lemma SetAtSame(xs: seq<Value>, idx: nat)
    requires idx < |xs|
    ensures SetAt(xs, idx, xs[idx]) == xs
  {
  }

  /** `R.addIndex(R.reject)((_, idx) => idx in dropped, xs)`: the array
      without the dropped positions, the rest in order. */
  function Reject(xs: seq<Value>, dropped: set<int>): (r: seq<Value>)
    ensures |r| == |xs| - RemovedBelow(dropped, |xs|)
    ensures forall i :: 0 <= i < |xs| && i !in dropped ==>
      NewIndex(dropped, i) < |r| && r[NewIndex(dropped, i)] == xs[i]
  {
    if xs == [] then []
    else
      var n := |xs| - 1;
      var init := Reject(xs[..n], dropped);
      assert |init| == NewIndex(dropped, n);
      assert forall i :: 0 <= i < n ==> xs[..n][i] == xs[i];
      if n in dropped then init else init + [xs[n]]
  }

  /** The `onRemoveElements` handler. */
  function RemoveElements(value: Option<seq<Value>>, droppedIndices: seq<int>): (r: seq<Value>)
    ensures var xs, dropped := CellArray(value), set d | d in droppedIndices;
      |r| == |xs| - RemovedBelow(dropped, |xs|) &&
      forall i :: 0 <= i < |xs| && i !in dropped ==> NewIndex(dropped, i) < |r| && r[NewIndex(dropped, i)] == xs[i]
  {
    Reject(CellArray(value), set d | d in droppedIndices)
  }

  /** The `onAddElement` handler: the array with `el` appended, and `true`,
      which tells the add row to clear. */
  function AddElement(value: Option<seq<Value>>, el: Value): (r: (seq<Value>, bool))
    ensures |r.0| == |CellArray(value)| + 1 && r.0[..|CellArray(value)|] == CellArray(value)
    ensures r.0[|CellArray(value)|] == el
    ensures r.1
  {
    (CellArray(value) + [el], true)
  }

  /** A row the editor keeps after a deletion shows the same element: the
      selection re-indexing and the removal handler move rows alike. */
  lemma SelectionMatchesRemoval(rows: seq<Value>, selected: set<int>, droppedIndices: seq<int>, i: nat)
    requires i < |rows| && i !in (set d | d in droppedIndices)
    ensures var dropped := set d | d in droppedIndices;
      var j := NewIndex(dropped, i);
      j < |RemoveElements(Some(rows), droppedIndices)| &&
      RemoveElements(Some(rows), droppedIndices)[j] == rows[i] &&
      (j in Reindex(selected, dropped, |rows|) <==> i in selected)
  {
    SelectionFollowsRows(selected, set d | d in droppedIndices, |rows|, i);
  }

  /** Removing the element just added restores the array. */
  lemma {:induction false} AddThenRemove(value: Option<seq<Value>>, el: Value)
    ensures RemoveElements(Some(AddElement(value, el).0), [|CellArray(value)|]) == CellArray(value)
  {
    var xs := CellArray(value);
    var ys := AddElement(value, el).0;
    var dropped := set d | d in [|xs|];
    assert dropped == {|xs|};
    assert ys[..|xs|] == xs;
    assert Reject(ys, dropped) == Reject(xs, dropped);
    RejectKeepsAll(xs, dropped);
  }

  /** Dropping only positions past the end keeps the array. */
  lemma {:induction false} RejectKeepsAll(xs: seq<Value>, dropped: set<int>)
    requires forall d :: d in dropped ==> d < 0 || d >= |xs|
    ensures Reject(xs, dropped) == xs
  {
    if xs != [] {
      var n := |xs| - 1;
      RejectKeepsAll(xs[..n], dropped);
      assert n !in dropped;
      assert Reject(xs, dropped) == Reject(xs[..n], dropped) + [xs[n]];
      assert xs[..n] + [xs[n]] == xs;
    }
  }

  // ---------------------------------------------------------------------
  // ElementRow key updates
  // ---------------------------------------------------------------------

  /** `getChangeHandler(key)(newValue)`: the value passed to `onChange`. With
      no object (`None` stands for a falsy one) a fresh object holding the
      key; otherwise a copy with the key set. */
  function GetChangeHandler(obj: Option<seq<(string, Value)>>, key: string, newValue: Value): (r: seq<(string, Value)>)
    ensures obj.None? ==> r == [(key, newValue)]
    ensures HasKey(r, key) && Lookup(r, key) == newValue
    ensures obj.Some? ==> forall k :: k != key ==> Lookup(r, k) == Lookup(obj.value, k)
    ensures obj.Some? && HasKey(obj.value, key) ==> |r| == |obj.value|
  {
    if obj.None? then [(key, newValue)] else Assign(obj.value, key, newValue)
  }

  /** Two edits of the same key: the second one wins outright. */
  lemma ChangeSameKeyTwice(obj: Option<seq<(string, Value)>>, key: string, v1: Value, v2: Value)
    ensures GetChangeHandler(Some(GetChangeHandler(obj, key, v1)), key, v2) == GetChangeHandler(obj, key, v2)
  {
    if obj.Some? {
      AssignTwice(obj.value, key, v1, v2);
    } else {
      assert IndexOfKey([(key, v1)], key) == Some(0);
    }
  }

  lemma AssignTwice(props: seq<(string, Value)>, key: string, v1: Value, v2: Value)
    ensures Assign(Assign(props, key, v1), key, v2) == Assign(props, key, v2)
  {
    AssignIndex(props, key, v1);
  }

  /** Edits of two different keys do not interfere. */
  lemma ChangeDifferentKeys(obj: Option<seq<(string, Value)>>, k1: string, k2: string, v1: Value, v2: Value)
    requires k1 != k2
    ensures var r := GetChangeHandler(Some(GetChangeHandler(obj, k1, v1)), k2, v2);
      Lookup(r, k1) == v1 && Lookup(r, k2) == v2
  {
  }

  // ---------------------------------------------------------------------
  // The add row
  // ---------------------------------------------------------------------

  /** The state of an `AddObjectRow`: the object being entered (`obj`), null while
      nothing has been entered. */
  class AddObjectRow {
    var obj: Value

    constructor ()
      ensures obj == Null
    {
      obj := Null;
    }

    /** `add`: with nothing entered the consumer is not called; otherwise the
        entered object is handed to the consumer, whose result
        (`consumerResult`) clears the row when truthy. */
    method Add(consumerResult: Value) returns (handed: Option<Value>)
      modifies this
      ensures old(obj) == Null ==> handed == None && obj == Null
      ensures old(obj) != Null ==> (handed == Some(old(obj)) &&
        obj == (if Truthy(consumerResult) then Null else old(obj)))
    {
      if obj == Null {
        return None;
      }
      handed := Some(obj);
      if Truthy(consumerResult) {
        obj := Null;
      }
    }

    /** `updateObject`. */
    method UpdateObject(updated: Value)
      modifies this
      ensures obj == updated
    {
      obj := updated;
    }
  }

  // ---------------------------------------------------------------------
  // Boolean cells
  // ---------------------------------------------------------------------

  /** `stringToBoolean`: "true" in any letter case. */
  function StringToBoolean(str: string): (r: bool)
    ensures r <==> |str| == 4 && JsString.LowerChar(str[0]) == 't' && JsString.LowerChar(str[1]) == 'r' &&
                   JsString.LowerChar(str[2]) == 'u' && JsString.LowerChar(str[3]) == 'e'
  {
    var lower := JsString.ToLower(str);
    assert lower == "true" <==> |lower| == 4 && lower[0] == 't' && lower[1] == 'r' && lower[2] == 'u' && lower[3] == 'e';
    lower == "true"
  }

  /** `String(Boolean(value))`, the text a boolean cell shows. */
  function BooleanText(b: bool): string
  {
    if b then "true" else "false"
  }

  /** A boolean cell reads back the value it shows. */
  lemma BooleanCellRoundTrip(b: bool)
    ensures StringToBoolean(BooleanText(b)) == b
  {
  }

  /** The letter case of the text does not matter. */
  lemma StringToBooleanIgnoresCase()
    ensures StringToBoolean("True") && StringToBoolean("TRUE") && StringToBoolean("tRuE")
    ensures !StringToBoolean("yes") && !StringToBoolean("1") && !StringToBoolean("true ")
  {
  }
}
