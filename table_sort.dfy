/** The data grid's single-key sort (`sortedData` in components/Table.tsx)
    and the header-click state machine that drives it (`handleSort`). */
module TableSort {
  import opened Options
  import opened JsValues
  import opened TableFilter

  datatype Direction = Asc | Desc

  // ---------------------------------------------------------------------------
  // The `<` the comparator uses

  /** `a < b` on strings: lexicographic by character code; a proper prefix
      comes first. */
  predicate StrLess(a: string, b: string)
    decreases |a|
  {
    |b| > 0 && (|a| == 0 || a[0] < b[0] || (a[0] == b[0] && StrLess(a[1..], b[1..])))
  }

  lemma {:induction false} StrLessIrreflexive(a: string)
    ensures !StrLess(a, a)
    decreases |a|
  {
    if |a| > 0 {
      StrLessIrreflexive(a[1..]);
    }
  }

  lemma {:induction false} StrLessTransitive(a: string, b: string, c: string)
    requires StrLess(a, b) && StrLess(b, c)
    ensures StrLess(a, c)
    decreases |a|
  {
    if |a| > 0 && a[0] == b[0] && b[0] == c[0] {
      StrLessTransitive(a[1..], b[1..], c[1..]);
    }
  }

  /** Two different strings are always ordered one way or the other. */
  lemma {:induction false} StrLessTotal(a: string, b: string)
    requires a != b
    ensures StrLess(a, b) || StrLess(b, a)
    decreases |a|
  {
    if |a| > 0 && |b| > 0 && a[0] == b[0] {
      assert a == [a[0]] + a[1..] && b == [b[0]] + b[1..];
      StrLessTotal(a[1..], b[1..]);
    }
  }

  /** `a < b` where both are numbers or both are strings; other pairs are
      never reported as smaller here (see README: mixed-type keys are not
      modelled). */
  predicate Less(a: Js, b: Js)
  {
    (a.Num? && b.Num? && a.n < b.n) || (a.Str? && b.Str? && StrLess(a.s, b.s))
  }

  lemma LessIrreflexive(a: Js)
    ensures !Less(a, a)
  {
    if a.Str? {
      StrLessIrreflexive(a.s);
    }
  }

  lemma LessTransitive(a: Js, b: Js, c: Js)
    requires Less(a, b) && Less(b, c)
    ensures Less(a, c)
  {
    if a.Str? {
      StrLessTransitive(a.s, b.s, c.s);
    }
  }

  /** All values of the sort key are numbers, or all are strings. */
  predicate Comparable(rows: seq<Row>, key: string)
  {
    (forall i :: 0 <= i < |rows| ==> Cell(rows[i], key).Num?)
    || (forall i :: 0 <= i < |rows| ==> Cell(rows[i], key).Str?)
  }

  /** On values of one type `<` is a strict total order. */
  lemma LessTotal(a: Js, b: Js)
    requires (a.Num? && b.Num?) || (a.Str? && b.Str?)
    ensures Less(a, b) || Less(b, a) || a == b
    ensures !(Less(a, b) && Less(b, a))
  {
    if a.Str? {
      StrLessIrreflexive(a.s);
      if a.s != b.s {
        StrLessTotal(a.s, b.s);
      }
      if Less(a, b) && Less(b, a) {
        StrLessTransitive(a.s, b.s, a.s);
      }
    }
  }

  // ---------------------------------------------------------------------------
  // Sorting

  /** The comparator returns a negative number for `(x, y)`: with `asc` when
      `x[key] < y[key]`, with `desc` when `x[key] > y[key]`. */
  predicate Before(x: Row, y: Row, key: string, dir: Direction)
  {
    match dir
    case Asc => Less(Cell(x, key), Cell(y, key))
    case Desc => Less(Cell(y, key), Cell(x, key))
  }

  /** No row comes strictly before a row that precedes it. */
  predicate SortedBy(rows: seq<Row>, key: string, dir: Direction)
  {
    forall i, j :: 0 <= i < j < |rows| ==> !Before(rows[j], rows[i], key, dir)
  }

  /** Inserts `x` after every row that does not come after it. */
  function Insert(x: Row, s: seq<Row>, key: string, dir: Direction): (r: seq<Row>)
    ensures multiset(r) == multiset(s) + multiset{x}
  {
    if |s| == 0 then [x]
    else if Before(x, s[0], key, dir) then [x] + s
    else
      assert s == [s[0]] + s[1..];
      [s[0]] + Insert(x, s[1..], key, dir)
  }

  /** `[...rows].sort(comparator)`, as an insertion sort. */
  function SortRows(rows: seq<Row>, key: string, dir: Direction): (r: seq<Row>)
    ensures multiset(r) == multiset(rows)
  {
    if |rows| == 0 then []
    else
      assert rows == rows[..|rows| - 1] + [rows[|rows| - 1]];
      Insert(rows[|rows| - 1], SortRows(rows[..|rows| - 1], key, dir), key, dir)
  }

  /** Prepending a row that no row of a sorted sequence comes before keeps
      it sorted. */
  lemma ConsSorted(y: Row, t: seq<Row>, key: string, dir: Direction)
    requires SortedBy(t, key, dir)
    requires forall j :: 0 <= j < |t| ==> !Before(t[j], y, key, dir)
    ensures SortedBy([y] + t, key, dir)
  {
    var r := [y] + t;
    forall i, j | 0 <= i < j < |r|
      ensures !Before(r[j], r[i], key, dir)
    {
      assert r[j] == t[j - 1];
      if i > 0 {
        assert r[i] == t[i - 1];
      }
    }
  }

  /** A row that comes before the head of a sorted sequence comes after none
      of its rows. */
  lemma NotBeforeAny(x: Row, s: seq<Row>, key: string, dir: Direction)
    requires SortedBy(s, key, dir) && |s| > 0 && Before(x, s[0], key, dir)
    ensures forall j :: 0 <= j < |s| ==> !Before(s[j], x, key, dir)
  {
    forall j | 0 <= j < |s|
      ensures !Before(s[j], x, key, dir)
    {
      LessIrreflexive(Cell(s[0], key));
      if Before(s[j], x, key, dir) {
        match dir
        case Asc => LessTransitive(Cell(s[j], key), Cell(x, key), Cell(s[0], key));
        case Desc => LessTransitive(Cell(s[0], key), Cell(x, key), Cell(s[j], key));
      }
    }
  }

  /** Every row of the result is the inserted row or one of the others. */
  lemma InsertFrom(x: Row, s: seq<Row>, key: string, dir: Direction, j: nat)
    requires j < |Insert(x, s, key, dir)|
    ensures var y := Insert(x, s, key, dir)[j];
      y == x || exists k :: 0 <= k < |s| && s[k] == y
  {
    var y := Insert(x, s, key, dir)[j];
    assert y in multiset(Insert(x, s, key, dir));
    if y != x {
      assert y in multiset(s);
    }
  }

  lemma {:induction false} InsertSorted(x: Row, s: seq<Row>, key: string, dir: Direction)
    requires SortedBy(s, key, dir)
    ensures SortedBy(Insert(x, s, key, dir), key, dir)
  {
    if |s| > 0 {
      if Before(x, s[0], key, dir) {
        NotBeforeAny(x, s, key, dir);
        ConsSorted(x, s, key, dir);
      } else {
        var tail := s[1..];
        assert SortedBy(tail, key, dir) by {
          forall i, j | 0 <= i < j < |tail|
            ensures !Before(tail[j], tail[i], key, dir)
          {
            assert tail[i] == s[i + 1] && tail[j] == s[j + 1];
          }
        }
        InsertSorted(x, tail, key, dir);
        var t := Insert(x, tail, key, dir);
        forall j | 0 <= j < |t|
          ensures !Before(t[j], s[0], key, dir)
        {
          InsertFrom(x, tail, key, dir, j);
          if t[j] != x {
            var k :| 0 <= k < |tail| && tail[k] == t[j];
            assert s[k + 1] == t[j];
          }
        }
        ConsSorted(s[0], t, key, dir);
      }
    }
  }

  lemma {:induction false} SortRowsSorted(rows: seq<Row>, key: string, dir: Direction)
    ensures SortedBy(SortRows(rows, key, dir), key, dir)
  {
    if |rows| > 0 {
      SortRowsSorted(rows[..|rows| - 1], key, dir);
      InsertSorted(rows[|rows| - 1], SortRows(rows[..|rows| - 1], key, dir), key, dir);
    }
  }

  /** `sortedData`: the filtered rows, unchanged while no column (or an
      empty column key) or no direction is set, otherwise sorted on the
      column. */
  function SortedData(filtered: seq<Row>, column: Option<string>, dir: Option<Direction>): seq<Row>
  {
    if column.None? || column.value == "" || dir.None? then filtered
    else SortRows(filtered, column.value, dir.value)
  }

  /** Sorting permutes the filtered rows. When the key values are all
      numbers or all strings, ascending order puts every row's value at or
      below every later row's value, and descending order at or above. */
  lemma SortedDataSpec(filtered: seq<Row>, column: Option<string>, dir: Option<Direction>)
    ensures multiset(SortedData(filtered, column, dir)) == multiset(filtered)
    ensures column.None? || column.value == "" || dir.None? ==> SortedData(filtered, column, dir) == filtered
    ensures column.Some? && column.value != "" && dir.Some? && Comparable(filtered, column.value) ==>
      var r := SortedData(filtered, column, dir);
      forall i, j :: 0 <= i < j < |r| ==>
        if dir.value == Asc then Less(Cell(r[i], column.value), Cell(r[j], column.value)) || Cell(r[i], column.value) == Cell(r[j], column.value)
        else Less(Cell(r[j], column.value), Cell(r[i], column.value)) || Cell(r[i], column.value) == Cell(r[j], column.value)
  {
    if column.Some? && column.value != "" && dir.Some? && Comparable(filtered, column.value) {
      var key, d := column.value, dir.value;
      var r := SortedData(filtered, column, dir);
      SortRowsSorted(filtered, key, d);
      forall i, j | 0 <= i < j < |r|
        ensures if d == Asc then Less(Cell(r[i], key), Cell(r[j], key)) || Cell(r[i], key) == Cell(r[j], key)
                else Less(Cell(r[j], key), Cell(r[i], key)) || Cell(r[i], key) == Cell(r[j], key)
      {
        assert r[i] in multiset(filtered) && r[j] in multiset(filtered);
        var a :| 0 <= a < |filtered| && filtered[a] == r[i];
        var b :| 0 <= b < |filtered| && filtered[b] == r[j];
        LessTotal(Cell(r[i], key), Cell(r[j], key));
      }
    }
  }

  // ---------------------------------------------------------------------------
  // Header clicks

  datatype SortState = SortState(column: Option<string>, direction: Option<Direction>)

  /** The state a grid starts in: `defaultSort?.key || null` and
      `defaultSort?.direction || null`. */
  function InitialSort(defaultSort: Option<(string, Option<Direction>)>): (st: SortState)
    ensures defaultSort.None? ==> st == SortState(None, None)
    ensures defaultSort.Some? ==> st.direction == defaultSort.value.1
    ensures st.column.Some? <==> defaultSort.Some? && defaultSort.value.0 != ""
    ensures st.column.Some? ==> st.column.value == defaultSort.value.0
  {
    match defaultSort
    case None => SortState(None, None)
    case Some((key, dir)) => SortState(if key == "" then None else Some(key), dir)
  }

  /** asc → desc → none → asc. */
  function NextDirection(d: Option<Direction>): Option<Direction>
  {
    match d
    case Some(Asc) => Some(Desc)
    case Some(Desc) => None
    case None => Some(Asc)
  }

  /** The direction cycle has period three and visits every state. */
  lemma NextDirectionCycle(d: Option<Direction>)
    ensures NextDirection(NextDirection(NextDirection(d))) == d
    ensures NextDirection(d) != d && NextDirection(NextDirection(d)) != d
  {
  }

  /** `columns.find(col => col.key === key)`. */
  function FindColumn(columns: seq<Column>, key: string): (r: Option<Column>)
    ensures r.None? <==> forall i :: 0 <= i < |columns| ==> columns[i].key != key
    ensures r.Some? ==> r.value.key == key && r.value in columns
  {
    if |columns| == 0 then None
    else if columns[0].key == key then Some(columns[0])
    else FindColumn(columns[1..], key)
  }

  predicate IsSortable(columns: seq<Column>, key: string)
  {
    var c := FindColumn(columns, key);
    c.Some? && c.value.sortable
  }

  /** `handleSort(key)`. */
  function ClickHeader(st: SortState, columns: seq<Column>, key: string): SortState
  {
    if !IsSortable(columns, key) then st
    else if st.column == Some(key) then SortState(st.column, NextDirection(st.direction))
    else SortState(Some(key), Some(Asc))
  }

  /** A click on a column that is missing or not sortable changes nothing; a
      click on another sortable column sorts on it ascending; a click on the
      current column keeps the column and advances the direction. */
  lemma ClickHeaderSpec(st: SortState, columns: seq<Column>, key: string)
    ensures !IsSortable(columns, key) ==> ClickHeader(st, columns, key) == st
    ensures IsSortable(columns, key) && st.column != Some(key) ==>
      ClickHeader(st, columns, key) == SortState(Some(key), Some(Asc))
    ensures IsSortable(columns, key) && st.column == Some(key) ==>
      ClickHeader(st, columns, key).column == st.column
      && ClickHeader(st, columns, key).direction != st.direction
    ensures IsSortable(columns, key) ==> ClickHeader(st, columns, key).column == Some(key)
  {
    NextDirectionCycle(st.direction);
  }

  /** Three clicks on the sorted column restore the state. */
  lemma ThreeClicksRestore(st: SortState, columns: seq<Column>, key: string)
    requires st.column == Some(key)
    ensures ClickHeader(ClickHeader(ClickHeader(st, columns, key), columns, key), columns, key) == st
  {
    NextDirectionCycle(st.direction);
  }

  /** Clicking a sortable column that is not the sorted one three times
      sorts ascending, then descending, then shows the filtered rows in
      their original order. */
  lemma ThirdClickRestoresOrder(st: SortState, columns: seq<Column>, key: string, filtered: seq<Row>)
    requires IsSortable(columns, key) && st.column != Some(key)
    ensures var s1 := ClickHeader(st, columns, key);
      var s2 := ClickHeader(s1, columns, key);
      var s3 := ClickHeader(s2, columns, key);
      s1.direction == Some(Asc) && s2.direction == Some(Desc)
      && SortedData(filtered, s3.column, s3.direction) == filtered
  {
  }
}
