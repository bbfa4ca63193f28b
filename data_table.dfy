/** The shared table component: which body it renders, what each cell shows, and the pager. */
module DataTable {
  import opened Wrappers

  /** A data row, read by column key; a missing key shows nothing. */
  type Row = map<string, string>

  /** A column: its key, its header text (`label`), and an optional `render(row)`. */
  datatype Column = Column(key: string, header: string, render: Option<Row -> string>)

  /** The `<tbody>`: one spinner row, one message row, or one row of cells per data element. */
  datatype Body = SpinnerRow(colSpan: nat) | MessageRow(colSpan: nat, message: string) | DataRows(rows: seq<seq<string>>)

  /** The `emptyMessage` prop's default. */
  const DefaultEmptyMessage := "No data found"

  /** `col.render ? col.render(row) : row[col.key]`. */
  function Cell(col: Column, row: Row): string
  {
    match col.render
    case Some(render) => render(row)
    case None => if col.key in row then row[col.key] else ""
  }

  /** `columns.map((col) => <td>…</td>)`: one cell per column, in column order. */
  function RowCells(columns: seq<Column>, row: Row): (cells: seq<string>)
    ensures |cells| == |columns|
    ensures forall j :: 0 <= j < |columns| ==> cells[j] == Cell(columns[j], row)
  {
    if columns == [] then [] else [Cell(columns[0], row)] + RowCells(columns[1..], row)
  }

  /** The body for `loading`, `data` and `emptyMessage` (`None` when the prop is not given). */
  function BodyFor(columns: seq<Column>, data: seq<Row>, loading: bool, emptyMessage: Option<string>): (b: Body)
    ensures loading ==> b == SpinnerRow(|columns|)
    ensures !loading && data == [] ==> b == MessageRow(|columns|, emptyMessage.GetOr(DefaultEmptyMessage))
    ensures b.DataRows? <==> !loading && data != []
    ensures b.DataRows? ==> |b.rows| == |data| && forall i :: 0 <= i < |data| ==> b.rows[i] == RowCells(columns, data[i])
  {
    if loading then SpinnerRow(|columns|)
    else if data == [] then MessageRow(|columns|, emptyMessage.GetOr(DefaultEmptyMessage))
    else DataRows(seq(|data|, i requires 0 <= i < |data| => RowCells(columns, data[i])))
  }

  /** Each data cell is what its column says it shows: the rendered value, or the row's field. */
  lemma DataCells(columns: seq<Column>, data: seq<Row>, i: int, j: int)
    requires data != [] && 0 <= i < |data| && 0 <= j < |columns|
    ensures columns[j].render.Some? ==> BodyFor(columns, data, false, None).rows[i][j] == columns[j].render.value(data[i])
    ensures columns[j].render.None? && columns[j].key in data[i] ==> BodyFor(columns, data, false, None).rows[i][j] == data[i][columns[j].key]
  {
  }

  /** The `pagination` object the server returns with a page of results. */
  datatype Pagination = Pagination(page: int, pages: int, total: int)

  /** `pagination && pagination.pages > 1`. A pager shown on a page in range always has an enabled button. */
  predicate ShowPager(p: Option<Pagination>)
    ensures ShowPager(p) ==> p.Some? && (1 <= p.value.page <= p.value.pages ==> PrevTarget(p.value).Some? || NextTarget(p.value).Some?)
  {
    p.Some? && p.value.pages > 1
  }

  /** The page the previous button asks for, or `None` while it is disabled (`page <= 1`). */
  function PrevTarget(p: Pagination): (r: Option<int>)
    ensures r.Some? <==> p.page > 1
    ensures r.Some? ==> r.value == p.page - 1
  {
    if p.page <= 1 then None else Some(p.page - 1)
  }

  /** The page the next button asks for, or `None` while it is disabled (`page >= pages`). */
  function NextTarget(p: Pagination): (r: Option<int>)
    ensures r.Some? <==> p.page < p.pages
    ensures r.Some? ==> r.value == p.page + 1
  {
    if p.page >= p.pages then None else Some(p.page + 1)
  }

  /** From a page in range, an enabled button always asks for a page in range, and a different one. */
  lemma PagerStaysInRange(p: Pagination)
    requires 1 <= p.page <= p.pages
    ensures PrevTarget(p).Some? ==> 1 <= PrevTarget(p).value <= p.pages && PrevTarget(p).value != p.page
    ensures NextTarget(p).Some? ==> 1 <= NextTarget(p).value <= p.pages && NextTarget(p).value != p.page
  {
  }
}
