/** The data grid's view state (components/Table.tsx): the sort column and
    direction, the selected row indices, the column filters, the hidden
    columns and the cell being edited, with the event handlers that update
    them. */
module TableView {
  import opened Options
  import opened Seqs
  import opened JsValues
  import opened TableFilter
  import opened TableSort

  // ---------------------------------------------------------------------------
  // A `Set<number>` of row indices, kept in insertion order as JavaScript does

  /** `new Set(rows.map((_, i) => i))` for `n` rows. */
  function Range(n: nat): (r: seq<nat>)
    ensures |r| == n && NoDup(r)
    ensures forall y :: y in r <==> 0 <= y < n
    ensures forall k :: 0 <= k < n ==> r[k] == k
  {
    if n == 0 then [] else Range(n - 1) + [n - 1]
  }

  /** `set.add(x)`: appended unless already present. */
  function SetAdd(s: seq<nat>, x: nat): (r: seq<nat>)
    ensures forall y :: y in r <==> y in s || y == x
    ensures NoDup(s) ==> NoDup(r)
    ensures |s| <= |r| && r[..|s|] == s
  {
    if x in s then s else s + [x]
  }

  function Other(x: nat): nat -> bool
  {
    y => y != x
  }

  /** `set.delete(x)`: the other elements keep their order. */
  function SetDelete(s: seq<nat>, x: nat): (r: seq<nat>)
    ensures forall y :: y in r <==> y in s && y != x
    ensures NoDup(s) ==> NoDup(r)
    ensures IsSubsequence(r, s)
  {
    KeepIsSubsequence(s, Other(x));
    KeepNoDup(s, Other(x));
    Keep(s, Other(x))
  }

  /** After select-all on `n` rows, clearing one of them leaves `n - 1`
      selected, so the header box is no longer checked. */
  lemma {:induction false} DeselectOneAfterSelectAll(n: nat, i: nat)
    requires i < n
    ensures |SetDelete(Range(n), i)| == n - 1
  {
    KeepDropsOne(Range(n), Other(i), i);
  }

  /** `sortedData[i]`: absent past the end. */
  function RowAt(rows: seq<Row>, i: nat): (r: Option<Row>)
    ensures r.Some? <==> i < |rows|
    ensures r.Some? ==> r.value == rows[i]
  {
    if i < |rows| then Some(rows[i]) else None
  }

  // ---------------------------------------------------------------------------
  // The `filters` object: keys in insertion order

  /** `filters[key] || []`. */
  function FilterValues(es: seq<FilterEntry>, key: string): (r: seq<string>)
    ensures (forall i :: 0 <= i < |es| ==> es[i].key != key) ==> r == []
  {
    if |es| == 0 then []
    else if es[0].key == key then es[0].values
    else FilterValues(es[1..], key)
  }

  function Keys(es: seq<FilterEntry>): (r: seq<string>)
    ensures |r| == |es| && forall i :: 0 <= i < |es| ==> r[i] == es[i].key
  {
    if |es| == 0 then [] else [es[0].key] + Keys(es[1..])
  }

  predicate UniqueKeys(es: seq<FilterEntry>)
  {
    NoDup(Keys(es))
  }

  /** `{...filters, [key]: values}`: an existing key keeps its position, a
      new key goes last. */
  function SetEntry(es: seq<FilterEntry>, key: string, values: seq<string>): seq<FilterEntry>
  {
    if |es| == 0 then [FilterEntry(key, values)]
    else if es[0].key == key then [FilterEntry(key, values)] + es[1..]
    else [es[0]] + SetEntry(es[1..], key, values)
  }

  /** The keys stay in insertion order, a new key last, and stay distinct. */
  lemma SetEntryKeys(es: seq<FilterEntry>, key: string, values: seq<string>)
    ensures key in Keys(es) ==> Keys(SetEntry(es, key, values)) == Keys(es)
    ensures key !in Keys(es) ==> Keys(SetEntry(es, key, values)) == Keys(es) + [key]
    ensures UniqueKeys(es) ==> UniqueKeys(SetEntry(es, key, values))
  {
    SetEntryKeyOrder(es, key, values);
    if key !in Keys(es) && UniqueKeys(es) {
      NoDupSnoc(Keys(es), key);
    }
  }

  lemma {:induction false} SetEntryKeyOrder(es: seq<FilterEntry>, key: string, values: seq<string>)
    ensures Keys(SetEntry(es, key, values)) == if key in Keys(es) then Keys(es) else Keys(es) + [key]
  {
    if |es| > 0 {
      var ks := Keys(es);
      assert ks == [es[0].key] + Keys(es[1..]);
      if es[0].key == key {
        assert Keys(SetEntry(es, key, values)) == [key] + Keys(es[1..]);
      } else {
        SetEntryKeyOrder(es[1..], key, values);
        assert key in ks <==> key in Keys(es[1..]);
        assert Keys(SetEntry(es, key, values)) == [es[0].key] + Keys(SetEntry(es[1..], key, values));
      }
    }
  }

  /** Setting a key gives it the new values and leaves every other key's
      values alone. */
  lemma {:induction false} SetEntryValues(es: seq<FilterEntry>, key: string, values: seq<string>)
    ensures FilterValues(SetEntry(es, key, values), key) == values
    ensures forall k :: k != key ==> FilterValues(SetEntry(es, key, values), k) == FilterValues(es, k)
  {
    var r := SetEntry(es, key, values);
    if |es| > 0 && es[0].key != key {
      SetEntryValues(es[1..], key, values);
      assert r[1..] == SetEntry(es[1..], key, values);
    } else if |es| > 0 {
      assert r[1..] == es[1..];
    }
  }

  lemma UniqueKeysTail(es: seq<FilterEntry>)
    requires |es| > 0 && UniqueKeys(es)
    ensures UniqueKeys(es[1..])
    ensures forall i :: 0 <= i < |es[1..]| ==> es[1..][i].key != es[0].key
  {
    var ks := Keys(es);
    assert Keys(es[1..]) == ks[1..];
    forall i | 0 <= i < |es[1..]|
      ensures es[1..][i].key != es[0].key
    {
      assert es[1..][i] == es[i + 1];
      assert ks[i + 1] != ks[0];
    }
  }

  function WithoutKey(es: seq<FilterEntry>, key: string): seq<FilterEntry>
  {
    Keep(es, (e: FilterEntry) => e.key != key)
  }

  /** Setting a key's values to the empty list ("Clear filters") filters
      exactly as if the key had never been set: same rows, same throw. */
  lemma {:induction false} ClearedFilterIsIgnored(rows: seq<Row>, es: seq<FilterEntry>, key: string)
    requires UniqueKeys(es)
    ensures ApplyFilters(rows, SetEntry(es, key, [])) == ApplyFilters(rows, WithoutKey(es, key))
    decreases |es|
  {
    var p := (e: FilterEntry) => e.key != key;
    if |es| == 0 {
      assert SetEntry(es, key, [])[1..] == [];
    } else {
      UniqueKeysTail(es);
      if es[0].key == key {
        KeepAll(es[1..], p);
        assert SetEntry(es, key, [])[1..] == es[1..];
      } else {
        ClearedFilterIsIgnored(rows, es[1..], key);
        var e := es[0];
        assert SetEntry(es, key, [])[1..] == SetEntry(es[1..], key, []);
        assert WithoutKey(es, key)[1..] == WithoutKey(es[1..], key);
        if Active(e) && !HasNullAt(rows, e.key) {
          ClearedFilterIsIgnored(Keep(rows, FilterPred(e)), es[1..], key);
        }
      }
    }
  }

  /** The new value list of a filter-option checkbox: the value appended
      when checked, every copy of it removed when cleared. */
  function ToggledValues(current: seq<string>, value: string, checked: bool): (r: seq<string>)
    ensures checked ==> r == current + [value]
    ensures !checked ==> value !in r && IsSubsequence(r, current)
    ensures !checked ==> forall v :: v != value ==> (v in r <==> v in current)
  {
    var p := (v: string) => v != value;
    KeepIsSubsequence(current, p);
    if checked then current + [value] else Keep(current, p)
  }

  // ---------------------------------------------------------------------------
  // Editing

  datatype CellRef = CellRef(rowIndex: nat, columnKey: string)

  /** What `onCellEdit` is called with: the row (absent for an index past the
      end), the column found by key, and the new value. */
  datatype EditEvent = EditEvent(row: Option<Row>, column: Option<Column>, value: Js)

  /** The editor's initial text, `currentValue?.toString() || ''`. */
  function EditText(v: Js): (t: string)
    ensures v.Nullish() ==> t == ""
    ensures !v.Nullish() ==> t == ToStr(v)
  {
    if v.Nullish() then "" else ToStr(v)
  }

  // ---------------------------------------------------------------------------
  // The component state

  /** The rows the grid is given, and its own state. */
  datatype ViewState = ViewState(
    data: seq<Row>,
    searchTerm: string,
    sortColumn: Option<string>,
    sortDirection: Option<Direction>,
    selectedRows: seq<nat>,
    filters: seq<FilterEntry>,
    editingCell: Option<CellRef>,
    editValue: string,
    showFilterDropdown: Option<string>,
    hiddenColumns: set<string>,
    showColumnSelector: bool)

  class Table {
    const columns: seq<Column>
    var data: seq<Row>
    var searchTerm: string
    var sortColumn: Option<string>
    var sortDirection: Option<Direction>
    var selectedRows: seq<nat>
    var filters: seq<FilterEntry>
    var editingCell: Option<CellRef>
    var editValue: string
    var showFilterDropdown: Option<string>
    var hiddenColumns: set<string>
    var showColumnSelector: bool

    function State(): ViewState
      reads this
    {
      ViewState(data, searchTerm, sortColumn, sortDirection, selectedRows, filters, editingCell,
                editValue, showFilterDropdown, hiddenColumns, showColumnSelector)
    }

    /** The selection is a set and filter keys are distinct. */
    predicate Valid()
      reads this
    {
      NoDup(selectedRows) && UniqueKeys(filters)
    }

    function Filtered(): Eval<seq<Row>>
      reads this
    {
      FilteredData(data, columns, searchTerm, filters)
    }

    function Sorted(): Eval<seq<Row>>
      reads this
    {
      match Filtered()
      case Throws => Throws
      case Done(rows) => Done(SortedData(rows, sortColumn, sortDirection))
    }

    /** The grid rendered (its filters did not throw), so its handlers exist. */
    predicate Renders()
      reads this
    {
      Sorted().Done?
    }

    function Visible(): seq<Column>
      reads this
    {
      VisibleColumns(columns, hiddenColumns)
    }

    /** The header checkbox. */
    predicate HeaderChecked()
      reads this
      requires Renders()
    {
      |selectedRows| == |Sorted().value| && |Sorted().value| > 0
    }

    constructor(columns: seq<Column>, data: seq<Row>, defaultSort: Option<(string, Option<Direction>)>)
      ensures this.columns == columns && this.data == data
      ensures SortState(sortColumn, sortDirection) == InitialSort(defaultSort)
      ensures searchTerm == "" && selectedRows == [] && filters == [] && editingCell == None
      ensures editValue == "" && showFilterDropdown == None && !showColumnSelector
      ensures hiddenColumns == InitialHidden(columns)
      ensures Valid()
    {
      this.columns := columns;
      this.data := data;
      var st := InitialSort(defaultSort);
      sortColumn := st.column;
      sortDirection := st.direction;
      searchTerm := "";
      selectedRows := [];
      filters := [];
      editingCell := None;
      editValue := "";
      showFilterDropdown := None;
      hiddenColumns := InitialHidden(columns);
      showColumnSelector := false;
    }

    /** New rows from the parent (the `data` prop changes): the grid keeps
        all of its own state, including the selected row indices, and the
        filtered and sorted rows follow the new data. */
    method ReceiveData(rows: seq<Row>)
      requires Valid()
      modifies this
      ensures State() == old(State()).(data := rows) && Valid()
      ensures Filtered() == FilteredData(rows, columns, searchTerm, filters)
    {
      data := rows;
    }

    /** `handleSort`: a header click. */
    method HandleSort(key: string)
      modifies this
      ensures var st := ClickHeader(SortState(old(sortColumn), old(sortDirection)), columns, key);
        State() == old(State()).(sortColumn := st.column, sortDirection := st.direction)
    {
      var column := FindColumn(columns, key);
      if column.None? || !column.value.sortable {
        return;
      }
      if sortColumn == Some(key) {
        sortDirection := NextDirection(sortDirection);
      } else {
        sortColumn := Some(key);
        sortDirection := Some(Asc);
      }
    }

    /** `handleSelectAll`: checked selects every shown row, cleared selects none. */
    method HandleSelectAll(checked: bool)
      requires Renders()
      modifies this
      ensures State() == old(State()).(selectedRows := if checked then Range(|old(Sorted()).value|) else [])
      ensures old(Valid()) ==> Valid()
      ensures Renders() && (HeaderChecked() <==> checked && |Sorted().value| > 0)
    {
      if checked {
        selectedRows := Range(|Sorted().value|);
      } else {
        selectedRows := [];
      }
    }

    /** `handleSelectRow`: adds or deletes one index and reports the rows at
        the selected indices, in selection order. */
    method HandleSelectRow(index: nat, checked: bool) returns (payload: seq<Option<Row>>)
      requires Renders()
      modifies this
      ensures State() == old(State()).(selectedRows :=
        if checked then SetAdd(old(selectedRows), index) else SetDelete(old(selectedRows), index))
      ensures old(Valid()) ==> Valid()
      ensures |payload| == |selectedRows|
      ensures forall k :: 0 <= k < |payload| ==> payload[k] == RowAt(Sorted().value, selectedRows[k])
    {
      if checked {
        selectedRows := SetAdd(selectedRows, index);
      } else {
        selectedRows := SetDelete(selectedRows, index);
      }
      var rows := Sorted().value;
      payload := seq(|selectedRows|, k requires 0 <= k < |selectedRows| reads this => RowAt(rows, selectedRows[k]));
    }

    /** `handleCellEdit`: reports the edit, and closes the editor unless
        asked not to. */
    method HandleCellEdit(rowIndex: nat, columnKey: string, value: Js, closeEditing: bool) returns (ev: EditEvent)
      requires Renders()
      modifies this
      ensures ev == EditEvent(RowAt(old(Sorted()).value, rowIndex), FindColumn(columns, columnKey), value)
      ensures State() == old(State()).(editingCell := if closeEditing then None else old(editingCell))
    {
      ev := EditEvent(RowAt(Sorted().value, rowIndex), FindColumn(columns, columnKey), value);
      if closeEditing {
        editingCell := None;
      }
    }

    /** `startEditing`. */
    method StartEditing(rowIndex: nat, columnKey: string, current: Js)
      modifies this
      ensures State() == old(State()).(editingCell := Some(CellRef(rowIndex, columnKey)), editValue := EditText(current))
    {
      editingCell := Some(CellRef(rowIndex, columnKey));
      editValue := if current.Nullish() then "" else ToStr(current);
    }

    /** A click on a body cell opens its editor when the column is editable
        and no cell is being edited; a click on the label of a dropdown or
        multi-select cell opens it even while another cell is being edited. */
    method ClickCell(rowIndex: nat, column: Column, value: Js, onDropdownLabel: bool)
      requires onDropdownLabel ==> column.kind == Dropdown || column.kind == MultiDropdown
      modifies this
      ensures column.editable && (old(editingCell).None? || onDropdownLabel) ==>
        State() == old(State()).(editingCell := Some(CellRef(rowIndex, column.key)), editValue := EditText(value))
      ensures !(column.editable && (old(editingCell).None? || onDropdownLabel)) ==> State() == old(State())
    {
      if column.editable && (editingCell.None? || onDropdownLabel) {
        StartEditing(rowIndex, column.key, value);
      }
    }

    /** Typing in the text editor. */
    method EditorInput(text: string)
      modifies this
      ensures State() == old(State()).(editValue := text)
    {
      editValue := text;
    }

    /** Blur or Enter in the text editor commits the text and closes it. */
    method EditorCommit(rowIndex: nat, columnKey: string) returns (ev: EditEvent)
      requires Renders()
      modifies this
      ensures ev == EditEvent(RowAt(old(Sorted()).value, rowIndex), FindColumn(columns, columnKey), Str(old(editValue)))
      ensures State() == old(State()).(editingCell := None)
    {
      ev := HandleCellEdit(rowIndex, columnKey, Str(editValue), true);
    }

    /** Escape in the text editor closes it and reports nothing. */
    method EditorEscape()
      modifies this
      ensures State() == old(State()).(editingCell := None)
    {
      editingCell := None;
    }

    /** A choice in a cell's dropdown editor: a single-select editor closes,
        a multi-select one stays open. */
    method DropdownEditorChange(rowIndex: nat, column: Column, value: Js) returns (ev: EditEvent)
      requires Renders()
      requires column.kind == Dropdown || column.kind == MultiDropdown
      modifies this
      ensures ev == EditEvent(RowAt(old(Sorted()).value, rowIndex), FindColumn(columns, column.key), value)
      ensures column.kind == Dropdown ==> State() == old(State()).(editingCell := None)
      ensures column.kind == MultiDropdown ==> State() == old(State())
    {
      ev := HandleCellEdit(rowIndex, column.key, value, column.kind == Dropdown);
    }

    /** The checkbox of a boolean cell commits at once (and closes any open
        editor). */
    method ToggleBooleanCell(rowIndex: nat, columnKey: string, checked: bool) returns (ev: EditEvent)
      requires Renders()
      modifies this
      ensures ev == EditEvent(RowAt(old(Sorted()).value, rowIndex), FindColumn(columns, columnKey), Bool(checked))
      ensures State() == old(State()).(editingCell := None)
    {
      ev := HandleCellEdit(rowIndex, columnKey, Bool(checked), true);
    }

    /** `handleFilterChange`. */
    method HandleFilterChange(key: string, values: seq<string>)
      modifies this
      ensures State() == old(State()).(filters := SetEntry(old(filters), key, values))
      ensures old(Valid()) ==> Valid() && FilterValues(filters, key) == values
    {
      SetEntryKeys(filters, key, values);
      SetEntryValues(filters, key, values);
      filters := SetEntry(filters, key, values);
    }

    /** A filter-option checkbox of a column's filter menu. */
    method FilterCheckbox(key: string, value: string, checked: bool)
      modifies this
      ensures State() == old(State()).(filters :=
        SetEntry(old(filters), key, ToggledValues(FilterValues(old(filters), key), value, checked)))
      ensures old(Valid()) ==> Valid()
    {
      HandleFilterChange(key, ToggledValues(FilterValues(filters, key), value, checked));
    }

    /** "Clear filters" in a column's filter menu; the rows shown are then as
        if the column had never been filtered. */
    method ClearFilter(key: string)
      requires Valid()
      modifies this
      ensures State() == old(State()).(filters := SetEntry(old(filters), key, []))
      ensures Valid()
      ensures Filtered() == FilteredData(data, columns, searchTerm, WithoutKey(old(filters), key))
    {
      ClearedFilterIsIgnored(Search(data, columns, searchTerm), filters, key);
      HandleFilterChange(key, []);
    }

    /** `toggleFilterDropdown`: one filter menu open at a time. */
    method ToggleFilterDropdown(key: string)
      modifies this
      ensures State() == old(State()).(showFilterDropdown :=
        if old(showFilterDropdown) == Some(key) then None else Some(key))
    {
      showFilterDropdown := if showFilterDropdown == Some(key) then None else Some(key);
    }

    /** A checkbox of the column selector: checked shows the column, cleared
        hides it; other columns are not affected. */
    method ToggleColumn(key: string, checked: bool)
      modifies this
      ensures State() == old(State()).(hiddenColumns :=
        if checked then old(hiddenColumns) - {key} else old(hiddenColumns) + {key})
      ensures forall i :: 0 <= i < |columns| && columns[i].key == key ==> (columns[i] in Visible() <==> checked)
      ensures forall i :: 0 <= i < |columns| && columns[i].key != key ==>
        (columns[i] in Visible() <==> columns[i].key !in old(hiddenColumns))
    {
      if checked {
        hiddenColumns := hiddenColumns - {key};
      } else {
        hiddenColumns := hiddenColumns + {key};
      }
    }

    method ToggleColumnSelector()
      modifies this
      ensures State() == old(State()).(showColumnSelector := !old(showColumnSelector))
    {
      showColumnSelector := !showColumnSelector;
    }

    method SetSearchTerm(term: string)
      modifies this
      ensures State() == old(State()).(searchTerm := term)
    {
      searchTerm := term;
    }
  }
}
