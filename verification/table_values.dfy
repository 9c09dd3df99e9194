/** Layout arithmetic of the table-of-values panel: the preferred width of a
    column, the size of value and header cells, the row wrappers that feed
    the value table, the out-of-range cell fallback, and the mapping from a
    clicked header cell to the column its context menu acts on. */
module TableValues {
  import opened JavaLang

  /** Margin that keeps value cells aligned with the header's menu button. */
  const ValueRightMargin: int := 36
  /** Extra padding of the x column (column 0). */
  const XLeftPadding: int := 16
  const TableHeaderHeight: int := 40
  /** Minimum column width from the design. */
  const MinColumnWidth: int := 72
  const StrictRowHeight: int := 40

  function Max(a: int, b: int): int {
    if a >= b then a else b
  }

  /** Measured widths of the content and of the header of each column. */
  datatype Dimensions = Dimensions(columnWidth: int -> int, headerWidth: int -> int)

  /** The preferred width of a column: the wider of content and header plus the
      right margin (and the x-column padding for column 0), but never less than
      the minimum width plus the x-column padding. */
  function ColumnWidth(d: Dimensions, column: int): (r: int)
    ensures r >= MinColumnWidth + XLeftPadding
    ensures r >= Max(d.columnWidth(column), d.headerWidth(column)) + ValueRightMargin
                 + (if column == 0 then XLeftPadding else 0)
    ensures r == MinColumnWidth + XLeftPadding
         || r == Max(d.columnWidth(column), d.headerWidth(column)) + ValueRightMargin
                 + (if column == 0 then XLeftPadding else 0)
  {
    var w := Max(d.columnWidth(column), d.headerWidth(column)) + ValueRightMargin;
    var w' := if column == 0 then w + XLeftPadding else w;
    Max(w', MinColumnWidth + XLeftPadding)
  }

  /** Wider content or a wider header never makes a column narrower. */
  lemma ColumnWidthMonotone(d1: Dimensions, d2: Dimensions, column: int)
    requires d1.columnWidth(column) <= d2.columnWidth(column)
    requires d1.headerWidth(column) <= d2.headerWidth(column)
    ensures ColumnWidth(d1, column) <= ColumnWidth(d2, column)
  {
  }

  /** With the same measurements, the x column is at least as wide as any other,
      and exactly the x-column padding wider once the minimum no longer applies. */
  lemma XColumnIsWider(d1: Dimensions, d2: Dimensions, column: int)
    requires column != 0
    requires d1.columnWidth(0) == d2.columnWidth(column)
    requires d1.headerWidth(0) == d2.headerWidth(column)
    ensures ColumnWidth(d2, column) <= ColumnWidth(d1, 0) <= ColumnWidth(d2, column) + XLeftPadding
    ensures Max(d2.columnWidth(column), d2.headerWidth(column)) + ValueRightMargin >= MinColumnWidth + XLeftPadding
            ==> ColumnWidth(d1, 0) == ColumnWidth(d2, column) + XLeftPadding
  {
  }

  /** The table model behind the view: its size and its cell and header texts. */
  datatype TableModel = TableModel(
    rowCount: int,
    columnCount: int,
    cellAt: (int, int) -> string,
    headerAt: int -> string)

  /** The per-row wrapper handed to the value table. */
  datatype RowData = RowData(row: int)

  /** `RowData.getValue`: the model's cell while both indices are below the
      model's counts, the empty string past either of them. */
  function GetValue(m: TableModel, rd: RowData, col: int): (r: string)
    ensures rd.row < m.rowCount && col < m.columnCount ==> r == m.cellAt(rd.row, col)
    ensures rd.row >= m.rowCount || col >= m.columnCount ==> r == ""
  {
    if rd.row < m.rowCount && col < m.columnCount then m.cellAt(rd.row, col) else ""
  }

  /** A rendered cell: its content and its pixel size. */
  datatype Cell = Cell(content: string, width: int, height: int)

  /** A value cell: collapsed to 0x0 when its text is empty, otherwise as wide as its
      column and one strict row high. */
  function ValueCell(m: TableModel, d: Dimensions, rd: RowData, col: int): (c: Cell)
    ensures c.content == GetValue(m, rd, col)
    ensures c.content == "" <==> c.width == 0 && c.height == 0
    ensures c.content != "" ==> c.width == ColumnWidth(d, col) && c.height == StrictRowHeight
  {
    var valStr := GetValue(m, rd, col);
    var empty := valStr == "";
    Cell(valStr, if empty then 0 else ColumnWidth(d, col), if empty then 0 else StrictRowHeight)
  }

  /** A header cell: the column's header text, as wide as the column. */
  function HeaderCell(m: TableModel, d: Dimensions, col: int): (c: Cell)
    ensures c.content == m.headerAt(col)
    ensures c.width == ColumnWidth(d, col)
    ensures c.width >= MinColumnWidth + XLeftPadding && c.height == TableHeaderHeight
  {
    Cell(m.headerAt(col), ColumnWidth(d, col), TableHeaderHeight)
  }

  /** Every non-empty value cell has exactly the size of its column's header cell. */
  lemma ValueCellsAlignWithHeader(m: TableModel, d: Dimensions, rd: RowData, col: int)
    requires GetValue(m, rd, col) != ""
    ensures ValueCell(m, d, rd, col).width == HeaderCell(m, d, col).width
    ensures ValueCell(m, d, rd, col).height == HeaderCell(m, d, col).height
  {
  }

  /** `fillValuesTable`: one wrapper per model row, the i-th for row i. */
  method FillValuesTable(m: TableModel) returns (rows: seq<RowData>)
    ensures |rows| == Max(m.rowCount, 0)
    ensures forall i :: 0 <= i < |rows| ==> rows[i].row == i
  {
    rows := [];
    var row := 0;
    while row < m.rowCount
      invariant 0 <= row == |rows|
      invariant row <= Max(m.rowCount, 0)
      invariant forall i :: 0 <= i < |rows| ==> rows[i].row == i
    {
      rows := rows + [RowData(row)];
      row := row + 1;
    }
  }

  /** Rows the panel builds never fall back to the empty string for a model column. */
  lemma FilledRowsReadTheModel(m: TableModel, rows: seq<RowData>, i: int, col: int)
    requires |rows| == Max(m.rowCount, 0)
    requires forall k :: 0 <= k < |rows| ==> rows[k].row == k
    requires 0 <= i < |rows| && col < m.columnCount
    ensures GetValue(m, rows[i], col) == m.cellAt(i, col)
  {
  }

  /** The context menu opened from a header cell: the index of the geo it acts on
      (null for the x column) and the column index it is given. */
  datatype MenuTarget = MenuTarget(geo: Nullable<int>, column: int)

  /** Header cell i stands for column i - 1 of the view; cell 0 is the x column
      and carries no geo. */
  function HeaderMenu(i: int): (t: MenuTarget)
    ensures t.column + 1 == i
    ensures t.geo.Ref? <==> i > 0
    ensures t.geo.Ref? ==> t.geo.value == t.column
  {
    MenuTarget(if i > 0 then Ref(i - 1) else Null, i - 1)
  }

  /** The scan of `toggleButtonClick` over the header cells: a menu is opened for
      every header cell equal to the clicked one. */
  method ToggleButtonClick<Node(==)>(headerNodes: seq<Node>, clicked: Node) returns (menus: seq<MenuTarget>)
    ensures |menus| == multiset(headerNodes)[clicked]
    ensures forall k :: 0 <= k < |menus| ==>
              0 <= menus[k].column + 1 < |headerNodes| && headerNodes[menus[k].column + 1] == clicked
              && menus[k] == HeaderMenu(menus[k].column + 1)
    ensures forall k, l :: 0 <= k < l < |menus| ==> menus[k].column < menus[l].column
  {
    menus := [];
    var i := 0;
    while i < |headerNodes|
      invariant 0 <= i <= |headerNodes|
      invariant |menus| == multiset(headerNodes[..i])[clicked]
      invariant forall k :: 0 <= k < |menus| ==>
                  0 <= menus[k].column + 1 < i && headerNodes[menus[k].column + 1] == clicked
                  && menus[k] == HeaderMenu(menus[k].column + 1)
      invariant forall k, l :: 0 <= k < l < |menus| ==> menus[k].column < menus[l].column
    {
      assert headerNodes[..i + 1] == headerNodes[..i] + [headerNodes[i]];
      if headerNodes[i] == clicked {
        menus := menus + [HeaderMenu(i)];
      }
      i := i + 1;
    }
    assert headerNodes[..i] == headerNodes;
  }

  /** When the header cells are distinct, clicking cell i opens exactly one menu, for column i - 1. */
  lemma DistinctHeadersOpenOneMenu<Node>(headerNodes: seq<Node>, i: int, menus: seq<MenuTarget>)
    requires forall a, b :: 0 <= a < b < |headerNodes| ==> headerNodes[a] != headerNodes[b]
    requires 0 <= i < |headerNodes|
    requires |menus| == multiset(headerNodes)[headerNodes[i]]
    requires forall k :: 0 <= k < |menus| ==>
               0 <= menus[k].column + 1 < |headerNodes| && headerNodes[menus[k].column + 1] == headerNodes[i]
               && menus[k] == HeaderMenu(menus[k].column + 1)
    ensures menus == [HeaderMenu(i)]
  {
    CountOfDistinct(headerNodes, i);
    assert menus[0].column + 1 == i;
  }

  /** An element of a sequence without repetitions occurs in it exactly once. */
  lemma {:induction false} CountOfDistinct<T>(s: seq<T>, i: int)
    requires forall a, b :: 0 <= a < b < |s| ==> s[a] != s[b]
    requires 0 <= i < |s|
    ensures multiset(s)[s[i]] == 1
    decreases |s|
  {
    var x := s[i];
    var last := |s| - 1;
    assert s == s[..last] + [s[last]];
    if i == last {
      assert x !in s[..last];
      assert multiset(s[..last])[x] == 0;
    } else {
      CountOfDistinct(s[..last], i);
      assert s[last] != x;
    }
  }
}
