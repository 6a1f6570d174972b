/** The data grid's columns and rows, and the two filtering stages of its
    `filteredData` (components/Table.tsx): the free-text search over every
    column, then the per-column multi-value filters. Also the column
    visibility rules and the multi-select cell text. */
module TableFilter {
  import opened Options
  import opened Seqs
  import opened JsStrings
  import opened JsValues

  datatype ColumnType = Text | Number | Boolean | Date | Action | Custom | Dropdown | MultiDropdown

  datatype FilterOption = FilterOption(value: string, caption: string)

  datatype DropdownOption = DropdownOption(value: Js, caption: string)

  /** A column specification; `width`, `render` and `footer` are presentation only. */
  datatype Column = Column(
    key: string,
    header: string,
    sortable: bool,
    filterable: bool,
    filterOptions: seq<FilterOption>,
    hidden: bool,
    kind: ColumnType,
    editable: bool,
    dropdownOptions: seq<DropdownOption>)

  /** A row maps column keys to values; a missing key reads as `undefined`. */
  type Row = map<string, Js>

  function Cell(row: Row, key: string): Js
  {
    if key in row then row[key] else Undefined
  }

  /** Something that either produced a value or threw a `TypeError`. */
  datatype Eval<T> = Done(value: T) | Throws

  // ---------------------------------------------------------------------------
  // Free-text search

  /** `value?.toString().toLowerCase().includes(needle)`, with `needle`
      already lower-cased; `null` and `undefined` never match. */
  predicate CellMatches(v: Js, needle: string)
  {
    !v.Nullish() && Includes(LowerStr(ToStr(v)), needle)
  }

  /** `columns.some(col => ...)`, over all columns, hidden ones included. */
  predicate AnyColumnMatches(row: Row, columns: seq<Column>, needle: string)
  {
    if |columns| == 0 then false
    else CellMatches(Cell(row, columns[0].key), needle) || AnyColumnMatches(row, columns[1..], needle)
  }

  predicate MatchesSearch(row: Row, columns: seq<Column>, term: string)
  {
    term == "" || AnyColumnMatches(row, columns, LowerStr(term))
  }

  function SearchPred(columns: seq<Column>, term: string): Row -> bool
  {
    row => MatchesSearch(row, columns, term)
  }

  /** The first stage of `filteredData`. */
  function Search(data: seq<Row>, columns: seq<Column>, term: string): seq<Row>
  {
    Keep(data, SearchPred(columns, term))
  }

  lemma {:induction false} AnyColumnMatchesIff(row: Row, columns: seq<Column>, needle: string)
    ensures AnyColumnMatches(row, columns, needle)
        <==> exists i :: 0 <= i < |columns| && CellMatches(Cell(row, columns[i].key), needle)
  {
    if |columns| > 0 {
      AnyColumnMatchesIff(row, columns[1..], needle);
      if exists i :: 1 <= i < |columns| && CellMatches(Cell(row, columns[i].key), needle) {
        var i :| 1 <= i < |columns| && CellMatches(Cell(row, columns[i].key), needle);
        assert columns[1..][i - 1] == columns[i];
      }
    }
  }

  /** An empty search term passes every row, in order. */
  lemma SearchEmptyTerm(data: seq<Row>, columns: seq<Column>)
    ensures Search(data, columns, "") == data
  {
    KeepAll(data, SearchPred(columns, ""));
  }

  /** A non-empty term keeps exactly the rows with some column, hidden or not,
      whose non-null value contains the term ignoring case; order is kept. */
  lemma SearchKeepsMatchingRows(data: seq<Row>, columns: seq<Column>, term: string)
    requires term != ""
    ensures forall k :: 0 <= k < |data| ==>
      (data[k] in Search(data, columns, term) <==>
        exists i :: 0 <= i < |columns| && CellMatches(Cell(data[k], columns[i].key), LowerStr(term)))
    ensures IsSubsequence(Search(data, columns, term), data)
  {
    forall k | 0 <= k < |data|
      ensures data[k] in Search(data, columns, term) <==>
        exists i :: 0 <= i < |columns| && CellMatches(Cell(data[k], columns[i].key), LowerStr(term))
    {
      AnyColumnMatchesIff(data[k], columns, LowerStr(term));
      KeepMember(data, SearchPred(columns, term), data[k]);
    }
    KeepIsSubsequence(data, SearchPred(columns, term));
  }

  // ---------------------------------------------------------------------------
  // Column filters

  /** One entry of the `filters` object, in the object's key order. */
  datatype FilterEntry = FilterEntry(key: string, values: seq<string>)

  predicate Active(e: FilterEntry)
  {
    |e.values| > 0
  }

  /** `filterValues.some(f => value.includes(f.toLowerCase()))` for a value
      that is not `null`/`undefined`. */
  predicate AnyValueMatches(text: string, values: seq<string>)
  {
    if |values| == 0 then false
    else Includes(text, LowerStr(values[0])) || AnyValueMatches(text, values[1..])
  }

  predicate PassesFilter(row: Row, e: FilterEntry)
  {
    !Cell(row, e.key).Nullish() && AnyValueMatches(LowerStr(ToStr(Cell(row, e.key))), e.values)
  }

  /** A row passes every active filter (AND across keys, OR within a key). */
  predicate PassesAll(row: Row, entries: seq<FilterEntry>)
  {
    forall j :: 0 <= j < |entries| && Active(entries[j]) ==> PassesFilter(row, entries[j])
  }

  function FilterPred(e: FilterEntry): Row -> bool
  {
    row => PassesFilter(row, e)
  }

  function AllPred(entries: seq<FilterEntry>): Row -> bool
  {
    row => PassesAll(row, entries)
  }

  predicate HasNullAt(rows: seq<Row>, key: string)
  {
    exists i :: 0 <= i < |rows| && Cell(rows[i], key).Nullish()
  }

  /** The `forEach` over the filter entries: each active entry narrows the
      rows; reaching a row whose value is `null`/`undefined` throws, because
      `value` is then `undefined` and `value.includes` is called on it. */
  function ApplyFilters(rows: seq<Row>, entries: seq<FilterEntry>): Eval<seq<Row>>
    decreases |entries|
  {
    if |entries| == 0 then Done(rows)
    else if !Active(entries[0]) then ApplyFilters(rows, entries[1..])
    else if HasNullAt(rows, entries[0].key) then Throws
    else ApplyFilters(Keep(rows, FilterPred(entries[0])), entries[1..])
  }

  lemma PassesAllCons(row: Row, entries: seq<FilterEntry>)
    requires |entries| > 0
    ensures PassesAll(row, entries)
        <==> (Active(entries[0]) ==> PassesFilter(row, entries[0])) && PassesAll(row, entries[1..])
  {
    if PassesAll(row, entries[1..]) && (Active(entries[0]) ==> PassesFilter(row, entries[0])) {
      forall j | 0 <= j < |entries| && Active(entries[j])
        ensures PassesFilter(row, entries[j])
      {
        if j > 0 {
          assert entries[1..][j - 1] == entries[j];
        }
      }
    }
    if PassesAll(row, entries) {
      forall j | 0 <= j < |entries[1..]| && Active(entries[1..][j])
        ensures PassesFilter(row, entries[1..][j])
      {
        assert entries[1..][j] == entries[j + 1];
      }
    }
  }

  /** When the filters do not throw, they keep exactly the rows that pass
      every active filter, in their original order. */
  lemma {:induction false} ApplyFiltersDone(rows: seq<Row>, entries: seq<FilterEntry>)
    requires ApplyFilters(rows, entries).Done?
    ensures ApplyFilters(rows, entries).value == Keep(rows, AllPred(entries))
    decreases |entries|
  {
    if |entries| == 0 {
      KeepAll(rows, AllPred(entries));
    } else {
      var e := entries[0];
      var rest := entries[1..];
      forall i | 0 <= i < |rows|
        ensures PassesAll(rows[i], entries) == ((Active(e) ==> PassesFilter(rows[i], e)) && PassesAll(rows[i], rest))
      {
        PassesAllCons(rows[i], entries);
      }
      if !Active(e) {
        ApplyFiltersDone(rows, rest);
        KeepCongruent(rows, AllPred(rest), AllPred(entries));
      } else {
        ApplyFiltersDone(Keep(rows, FilterPred(e)), rest);
        KeepKeep(rows, FilterPred(e), AllPred(rest));
        KeepCongruent(rows, Both(FilterPred(e), AllPred(rest)), AllPred(entries));
      }
    }
  }

  /** Entry `j` reaches row `i` with a `null`/`undefined` value: the row
      passed the entries before `j`, and entry `j` is active. */
  predicate NullReached(rows: seq<Row>, entries: seq<FilterEntry>, j: int, i: int)
  {
    0 <= j < |entries| && 0 <= i < |rows| && Active(entries[j])
    && PassesAll(rows[i], entries[..j]) && Cell(rows[i], entries[j].key).Nullish()
  }

  /** The filters throw exactly when some active entry reaches a row whose
      value for that entry's key is `null`/`undefined`. */
  lemma {:induction false} ApplyFiltersThrows(rows: seq<Row>, entries: seq<FilterEntry>)
    ensures ApplyFilters(rows, entries).Throws? <==> exists j, i :: NullReached(rows, entries, j, i)
    decreases |entries|
  {
    if |entries| > 0 {
      var e := entries[0];
      if Active(e) && HasNullAt(rows, e.key) {
        var i :| 0 <= i < |rows| && Cell(rows[i], e.key).Nullish();
        assert entries[..0] == [];
        assert NullReached(rows, entries, 0, i);
      } else {
        var next := if Active(e) then Keep(rows, FilterPred(e)) else rows;
        ApplyFiltersThrows(next, entries[1..]);
        NullReachedShift(rows, entries, next);
      }
    }
  }

  /** `next` is what the first entry of `entries` leaves of `rows` without
      throwing. */
  predicate FirstStep(rows: seq<Row>, entries: seq<FilterEntry>, next: seq<Row>)
  {
    |entries| > 0
    && (!Active(entries[0]) ==> next == rows)
    && (Active(entries[0]) ==> next == Keep(rows, FilterPred(entries[0])) && !HasNullAt(rows, entries[0].key))
  }

  /** A witness for the rows left by the first entry is a witness, one entry
      later, for all the rows. */
  lemma NullReachedLater(rows: seq<Row>, entries: seq<FilterEntry>, next: seq<Row>, j: int, i: int)
    returns (i': int)
    requires FirstStep(rows, entries, next) && NullReached(next, entries[1..], j, i)
    ensures NullReached(rows, entries, j + 1, i')
  {
    var rest := entries[1..];
    i' :| 0 <= i' < |rows| && rows[i'] == next[i];
    var prefix := entries[..j + 1];
    assert prefix[0] == entries[0] && prefix[1..] == rest[..j];
    PassesAllCons(next[i], prefix);
    assert rest[j] == entries[j + 1];
    assert NullReached(rows, entries, j + 1, i');
  }

  /** A witness for all the rows is one, one entry earlier, for the rows left
      by the first entry. */
  lemma NullReachedEarlier(rows: seq<Row>, entries: seq<FilterEntry>, next: seq<Row>, j: int, i: int)
    returns (i': int)
    requires FirstStep(rows, entries, next) && NullReached(rows, entries, j, i)
    ensures j > 0 && NullReached(next, entries[1..], j - 1, i')
  {
    var e := entries[0];
    var rest := entries[1..];
    if Active(e) {
      assert !Cell(rows[i], e.key).Nullish();
    }
    assert j > 0;
    var prefix := entries[..j];
    assert prefix[0] == e && prefix[1..] == rest[..j - 1];
    PassesAllCons(rows[i], prefix);
    assert rows[i] in next;
    i' :| 0 <= i' < |next| && next[i'] == rows[i];
    assert rest[j - 1] == entries[j];
    assert NullReached(next, rest, j - 1, i');
  }

  /** Helper for ApplyFiltersThrows: the two witnesses exist together. */
  lemma NullReachedShift(rows: seq<Row>, entries: seq<FilterEntry>, next: seq<Row>)
    requires FirstStep(rows, entries, next)
    ensures (exists j, i :: NullReached(next, entries[1..], j, i))
        <==> (exists j, i :: NullReached(rows, entries, j, i))
  {
    if j, i :| NullReached(next, entries[1..], j, i) {
      var i' := NullReachedLater(rows, entries, next, j, i);
    }
    if j, i :| NullReached(rows, entries, j, i) {
      var i' := NullReachedEarlier(rows, entries, next, j, i);
    }
  }

  /** The second stage of `filteredData`. */
  function FilteredData(data: seq<Row>, columns: seq<Column>, term: string, entries: seq<FilterEntry>): Eval<seq<Row>>
  {
    ApplyFilters(Search(data, columns, term), entries)
  }

  /** When the filters do not throw, the result is the order-preserving
      subsequence of `data` of the rows that pass the search and every active
      filter; a filter with an empty value list has no effect. */
  lemma FilteredDataSpec(data: seq<Row>, columns: seq<Column>, term: string, entries: seq<FilterEntry>)
    requires FilteredData(data, columns, term, entries).Done?
    ensures IsSubsequence(FilteredData(data, columns, term, entries).value, data)
    ensures forall k :: 0 <= k < |data| ==>
      (data[k] in FilteredData(data, columns, term, entries).value
       <==> MatchesSearch(data[k], columns, term) && PassesAll(data[k], entries))
  {
    var p := SearchPred(columns, term);
    var q := AllPred(entries);
    ApplyFiltersDone(Search(data, columns, term), entries);
    KeepKeep(data, p, q);
    KeepIsSubsequence(data, Both(p, q));
    forall k | 0 <= k < |data| {
      KeepMember(data, Both(p, q), data[k]);
    }
  }

  // ---------------------------------------------------------------------------
  // Column visibility

  /** The hidden set a grid starts with: the keys of the columns marked hidden. */
  function InitialHidden(columns: seq<Column>): (hidden: set<string>)
    ensures forall k :: k in hidden <==> exists i :: 0 <= i < |columns| && columns[i].hidden && columns[i].key == k
  {
    set i | 0 <= i < |columns| && columns[i].hidden :: columns[i].key
  }

  /** `visibleColumns`: the columns whose key is not hidden, in column order. */
  function VisibleColumns(columns: seq<Column>, hidden: set<string>): (r: seq<Column>)
    ensures forall i :: 0 <= i < |r| ==> r[i].key !in hidden
    ensures forall i :: 0 <= i < |columns| && columns[i].key !in hidden ==> columns[i] in r
    ensures IsSubsequence(r, columns)
  {
    KeepIsSubsequence(columns, (c: Column) => c.key !in hidden);
    Keep(columns, (c: Column) => c.key !in hidden)
  }

  // ---------------------------------------------------------------------------
  // Multi-select cell text

  /** The options whose value the cell's array contains, in option order. */
  function SelectedOptions(options: seq<DropdownOption>, value: Js): seq<DropdownOption>
  {
    if value.Arr? then Keep(options, (o: DropdownOption) => o.value in value.items) else []
  }

  /** The options' captions, one per option, in order. */
  function Labels(options: seq<DropdownOption>): (r: seq<string>)
    ensures |r| == |options|
    ensures forall i :: 0 <= i < |r| ==> r[i] == options[i].caption
  {
    if |options| == 0 then [] else [options[0].caption] + Labels(options[1..])
  }

  /** The text a multi-select cell shows when it is not being edited: the
      "Select..." prompt when no option is chosen, the captions joined by ", "
      for one or two chosen options, and the count otherwise. */
  function MultiCellText(options: seq<DropdownOption>, value: Js): (r: string)
    ensures |SelectedOptions(options, value)| == 0 ==> r == "Select..."
    ensures |SelectedOptions(options, value)| == 1 ==> r == SelectedOptions(options, value)[0].caption
    ensures |SelectedOptions(options, value)| == 2 ==>
      r == SelectedOptions(options, value)[0].caption + ", " + SelectedOptions(options, value)[1].caption
    ensures |SelectedOptions(options, value)| > 2 ==>
      r == NatToString(|SelectedOptions(options, value)|) + " selected"
  {
    var chosen := SelectedOptions(options, value);
    if |chosen| == 0 then "Select..."
    else if |chosen| > 2 then NatToString(|chosen|) + " selected"
    else
      assert |chosen| == 2 ==> JoinWith(Labels(chosen)[1..], ", ") == chosen[1].caption;
      JoinWith(Labels(chosen), ", ")
  }

  /** The cell text depends only on which values the array holds: neither
      their order nor repetitions matter, and values that are not options are
      ignored. */
  lemma MultiCellTextUsesOnlyMembership(options: seq<DropdownOption>, a: seq<Js>, b: seq<Js>)
    requires forall i :: 0 <= i < |options| ==> (options[i].value in a <==> options[i].value in b)
    ensures MultiCellText(options, Arr(a)) == MultiCellText(options, Arr(b))
  {
    KeepCongruent(options, (o: DropdownOption) => o.value in a, (o: DropdownOption) => o.value in b);
    assert SelectedOptions(options, Arr(a)) == SelectedOptions(options, Arr(b));
  }

  /** Stated over the options themselves: a value that is not an array, or an
      array naming no option, shows the "Select..." prompt; an array naming
      exactly one option shows that option's caption; two chosen options show
      both captions joined by ", "; more than two show their count followed
      by " selected". */
  lemma MultiCellTextCases(options: seq<DropdownOption>, value: Js)
    ensures !value.Arr? ==> MultiCellText(options, value) == "Select..."
    ensures value.Arr? && (forall i :: 0 <= i < |options| ==> options[i].value !in value.items)
      ==> MultiCellText(options, value) == "Select..."
    ensures forall k :: value.Arr? && ChosenAlone(options, value.items, k) ==>
      MultiCellText(options, value) == options[k].caption
    ensures var chosen := SelectedOptions(options, value);
      |chosen| == 2 ==> MultiCellText(options, value) == chosen[0].caption + ", " + chosen[1].caption
    ensures var chosen := SelectedOptions(options, value);
      |chosen| > 2 ==> MultiCellText(options, value) == NatToString(|chosen|) + " selected"
  {
    if value.Arr? && (forall i :: 0 <= i < |options| ==> options[i].value !in value.items) {
      KeepNone(options, (o: DropdownOption) => o.value in value.items);
    }
    forall k | value.Arr? && ChosenAlone(options, value.items, k)
      ensures MultiCellText(options, value) == options[k].caption
    {
      KeepSingle(options, (o: DropdownOption) => o.value in value.items, k);
    }
  }

  /** The array names the `k`th option's value and no other option's. */
  predicate ChosenAlone(options: seq<DropdownOption>, items: seq<Js>, k: int)
  {
    0 <= k < |options| && options[k].value in items &&
    forall i :: 0 <= i < |options| && i != k ==> options[i].value !in items
  }
}
