/**
 The data table's pure logic: the sort-direction toggle of a column
 header, the row-selection list behind the checkboxes, and the fallback
 text of a cell.
 */
module DataTable {
  import opened Js
  import StatusBadge

  // ---------------------------------------------------------------------
  // Sorting

  datatype Direction = Asc | Desc

  datatype SortConfig = SortConfig(key: string, direction: Direction)

  /**
   `handleSort(columnKey)`: nothing without an `onSort` handler; otherwise
   the clicked key, descending exactly when that key is currently sorted
   ascending. `current` is `None` when there is no sort yet.
   */
  function HandleSort(hasHandler: bool, current: Option<SortConfig>, columnKey: string): (r: Option<SortConfig>)
    ensures r.Some? <==> hasHandler
    ensures r.Some? ==> r.value.key == columnKey
    ensures r.Some? ==> (r.value.direction == Desc <==> current == Some(SortConfig(columnKey, Asc)))
  {
    if !hasHandler then None
    else
      var direction := if current.Some? && current.value.key == columnKey && current.value.direction == Asc
                       then Desc else Asc;
      Some(SortConfig(columnKey, direction))
  }

  /** Clicking a column that is not the sorted one always starts ascending. */
  lemma NewColumnStartsAscending(current: Option<SortConfig>, columnKey: string)
    requires current.None? || current.value.key != columnKey
    ensures HandleSort(true, current, columnKey) == Some(SortConfig(columnKey, Asc))
  {
  }

  /** Clicking the same column again flips the direction: asc, desc, asc, ... */
  lemma SameColumnAlternates(current: Option<SortConfig>, columnKey: string)
    ensures var once := HandleSort(true, current, columnKey).value;
            var twice := HandleSort(true, Some(once), columnKey).value;
            twice.key == columnKey && twice.direction != once.direction
  {
  }

  datatype SortIcon = ChevronUp | ChevronDown | ChevronsUpDown

  /** The icon of a sortable column's header. */
  function IconFor(current: Option<SortConfig>, columnKey: string): (icon: SortIcon)
    ensures icon == ChevronsUpDown <==> current.None? || current.value.key != columnKey
    ensures icon == ChevronUp <==> current == Some(SortConfig(columnKey, Asc))
  {
    if current.Some? && current.value.key == columnKey then
      if current.value.direction == Asc then ChevronUp else ChevronDown
    else ChevronsUpDown
  }

  /** After a click, the clicked column's icon shows the new direction and the others show none. */
  lemma IconFollowsClick(current: Option<SortConfig>, columnKey: string, other: string)
    requires other != columnKey
    ensures var next := HandleSort(true, current, columnKey);
            && IconFor(next, columnKey) != ChevronsUpDown
            && (IconFor(next, columnKey) == ChevronDown <==> current == Some(SortConfig(columnKey, Asc)))
            && IconFor(next, other) == ChevronsUpDown
  {
  }

  // ---------------------------------------------------------------------
  // Selection

  /** `selectedRows.filter(rowId => rowId !== id)`. */
  function Without(sel: seq<int>, id: int): (r: seq<int>)
    ensures id !in r
    ensures forall x :: x in r ==> x in sel
    ensures forall x :: x in sel && x != id ==> x in r
  {
    if |sel| == 0 then []
    else
      var rest := Without(sel[..|sel| - 1], id);
      var last := sel[|sel| - 1];
      assert forall x :: x in sel ==> x in sel[..|sel| - 1] || x == last;
      if last == id then rest else rest + [last]
  }

  /** Every other id keeps its number of occurrences; `id` loses all of its own. */
  lemma {:induction false} WithoutCounts(sel: seq<int>, id: int)
    ensures forall x :: x != id ==> multiset(Without(sel, id))[x] == multiset(sel)[x]
    ensures |Without(sel, id)| == |sel| - multiset(sel)[id]
  {
    if |sel| > 0 {
      var p := sel[..|sel| - 1];
      WithoutCounts(p, id);
      assert sel == p + [sel[|sel| - 1]];
    }
  }

  /** Removing distributes over concatenation, so the other entries keep their order. */
  lemma {:induction false} WithoutConcat(a: seq<int>, b: seq<int>, id: int)
    ensures Without(a + b, id) == Without(a, id) + Without(b, id)
  {
    if |b| == 0 {
      assert a + b == a;
    } else {
      var b' := b[..|b| - 1];
      var ab := a + b;
      WithoutConcat(a, b', id);
      assert ab[..|ab| - 1] == a + b';
      assert ab[|ab| - 1] == b[|b| - 1];
      var last := b[|b| - 1];
      if last == id {
        assert Without(ab, id) == Without(a + b', id);
        assert Without(b, id) == Without(b', id);
      } else {
        assert Without(ab, id) == Without(a + b', id) + [last];
        assert Without(b, id) == Without(b', id) + [last];
      }
    }
  }

  /** `handleSelectAll(checked)`: every row's `Id` in data order, or nothing. */
  function SelectAll(checked: bool, rowIds: seq<int>): (sel: seq<int>)
    ensures checked ==> sel == rowIds
    ensures !checked ==> sel == []
  {
    if checked then rowIds else []
  }

  /**
   `handleSelectRow(id, checked)`: append the id (duplicates are not
   prevented) or drop every occurrence of it.
   */
  function SelectRow(sel: seq<int>, id: int, checked: bool): (r: seq<int>)
    ensures checked ==> r == sel + [id]
    ensures !checked ==> id !in r && forall x :: x != id ==> multiset(r)[x] == multiset(sel)[x]
  {
    WithoutCounts(sel, id);
    if checked then sel + [id] else Without(sel, id)
  }

  /** The header checkbox: as many selected ids as rows, and at least one row. */
  predicate HeaderChecked(sel: seq<int>, rowIds: seq<int>) {
    |sel| == |rowIds| && |rowIds| > 0
  }

  /** The events the checkboxes can raise; each flips the box it is attached to. */
  datatype Click = ClickHeader | ClickRow(id: int)

  predicate NoDuplicates(s: seq<int>) {
    forall i, j :: 0 <= i < j < |s| ==> s[i] != s[j]
  }

  /** The selection after a click: the header toggles all, a row toggles its own id. */
  function OnClick(sel: seq<int>, rowIds: seq<int>, c: Click): seq<int> {
    match c
    case ClickHeader => SelectAll(!HeaderChecked(sel, rowIds), rowIds)
    case ClickRow(id) => SelectRow(sel, id, id !in sel)
  }

  lemma {:induction false} NoDuplicatesWithout(sel: seq<int>, id: int)
    requires NoDuplicates(sel)
    ensures NoDuplicates(Without(sel, id))
  {
    if |sel| > 0 {
      var p := sel[..|sel| - 1];
      var last := sel[|sel| - 1];
      NoDuplicatesWithout(p, id);
      if last != id {
        assert last !in p;
        assert last !in Without(p, id);
      }
    }
  }

  /**
   While the table shows rows with distinct ids, clicks through the
   checkboxes never select an id twice or an id that is not shown.
   */
  lemma ClickKeepsSelectionClean(sel: seq<int>, rowIds: seq<int>, c: Click)
    requires NoDuplicates(rowIds) && NoDuplicates(sel)
    requires forall x :: x in sel ==> x in rowIds
    requires c.ClickRow? ==> c.id in rowIds
    ensures NoDuplicates(OnClick(sel, rowIds, c))
    ensures forall x :: x in OnClick(sel, rowIds, c) ==> x in rowIds
  {
    match c
    case ClickHeader =>
    case ClickRow(id) =>
      if id in sel {
        NoDuplicatesWithout(sel, id);
      }
  }

  /**
   The header box is computed from lengths alone: after the rows change
   under a kept selection, it can be checked while no row is.
   */
  lemma StaleSelectionChecksHeader()
    ensures HeaderChecked([1, 2], [3, 4])
    ensures forall x :: x in [3, 4] ==> x !in [1, 2]
  {
  }

  /** Selecting a row that is already selected duplicates it. */
  lemma SelectRowDuplicates()
    ensures SelectRow([5], 5, true) == [5, 5]
    ensures |SelectRow([5, 5], 5, false)| == 0
  {
  }

  // ---------------------------------------------------------------------
  // Cells

  datatype ColumnType = StatusColumn | CurrencyColumn | DateColumn | PlainColumn

  /** A column: its key, its type, the badge type of a status column, and whether it has its own `render`. */
  datatype Column = Column(key: string, columnType: ColumnType, statusType: Option<string>, hasRender: bool)

  /** What a cell shows. Number and date formatting are not modelled. */
  datatype Cell =
    | Dash
    | Rendered(value: Value)
    | Badge(badge: StatusBadge.Badge)
    | Money(value: Value)
    | ZeroDollars
    | DateText(value: Value)
    | Text(value: Value)

  /** `formatCellValue(value, column)`. */
  function FormatCellValue(v: Value, col: Column): (c: Cell)
    ensures col.columnType == StatusColumn ==> c == Badge(StatusBadge.Render(v, col.statusType))
    ensures col.columnType == CurrencyColumn ==> (c == ZeroDollars <==> !Truthy(v))
    ensures col.columnType != StatusColumn && col.columnType != CurrencyColumn ==> (c == Dash <==> !Truthy(v))
  {
    match col.columnType
    case StatusColumn => Badge(StatusBadge.Render(v, col.statusType))
    case CurrencyColumn => if Truthy(v) then Money(v) else ZeroDollars
    case DateColumn => if Truthy(v) then DateText(v) else Dash
    case PlainColumn => if Truthy(v) then Text(v) else Dash
  }

  /** A body cell: `-` for an undefined field, else the column's `render`, else `formatCellValue`. */
  function CellFor(row: Record, col: Column): (c: Cell)
    ensures Get(row, col.key) == Undefined ==> c == Dash
    ensures c == Dash <==>
              Get(row, col.key) == Undefined
              || (!col.hasRender && col.columnType in {DateColumn, PlainColumn} && !Truthy(Get(row, col.key)))
    ensures c == ZeroDollars <==>
              Get(row, col.key) != Undefined && !col.hasRender && col.columnType == CurrencyColumn
              && !Truthy(Get(row, col.key))
  {
    var v := Get(row, col.key);
    if v == Undefined then Dash
    else if col.hasRender then Rendered(v)
    else FormatCellValue(v, col)
  }
}
